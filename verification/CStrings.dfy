/** C strings as the chat programs use them: NUL-terminated buffers, words separated by spaces,
    and the buffer sizes of udp.h, cmd.h, queue.h, server_types.h and client_types.h. */
module CStrings {

  const NAME_SIZE := 20
  const MAX_CMD_SIZE := 50
  const MAX_COMMAND_LEN := 50
  const QUEUE_MSG_SIZE := 512
  const MAX_MESSAGE := 256
  const MAX_NAME_LEN := 30
  const RESPONSE_BUFFER_SIZE := 512
  const JOIN_SIZE := 300
  const MAX_MSGS := 100

  /** The first index from i on that holds c, or the length. */
  function FirstOf(s: string, i: nat, c: char): (k: nat)
    requires i <= |s|
    ensures i <= k <= |s| && (forall j :: i <= j < k ==> s[j] != c) && (k < |s| ==> s[k] == c)
    decreases |s| - i
  {
    if i == |s| || s[i] == c then i else FirstOf(s, i + 1, c)
  }

  /** The C string that starts at index i of a buffer. */
  function CStrAt(b: seq<char>, i: nat): string
    requires i <= |b|
  {
    b[i..FirstOf(b, i, '\0')]
  }

  /** A C string's content has no NUL in it. */
  predicate IsCStr(s: string) {
    forall i :: 0 <= i < |s| ==> s[i] != '\0'
  }

  predicate IsWord(w: string) {
    w != "" && IsCStr(w) && forall i :: 0 <= i < |w| ==> w[i] != ' '
  }

  predicate AllWords(ws: seq<string>) {
    forall i :: 0 <= i < |ws| ==> IsWord(ws[i])
  }

  /** What strncpy into a buffer of n + 1 bytes, closed with a NUL, keeps of a string. */
  function Clip(s: string, n: nat): string {
    if |s| <= n then s else s[..n]
  }

  /** What snprintf into a buffer of n bytes keeps of the formatted text. */
  function Snprintf(s: string, n: nat): string
    requires n > 0
  {
    Clip(s, n - 1)
  }

  /** The words that strtok(s, " ") hands out one after the other (C11 section 7.24.5.8). */
  function Words(s: string): seq<string>
    decreases |s|
  {
    if s == "" then []
    else if s[0] == ' ' then Words(s[1..])
    else
      var k := FirstOf(s, 0, ' ');
      [s[..k]] + Words(s[k..])
  }

  /** Words printed with one space between them. */
  function Join(ws: seq<string>): string {
    if ws == [] then "" else if |ws| == 1 then ws[0] else ws[0] + " " + Join(ws[1..])
  }

  function TakeUpTo<T>(s: seq<T>, n: nat): seq<T> {
    if |s| <= n then s else s[..n]
  }

  // ----- Printing and reading back -----

  lemma FirstOfIs(s: string, i: nat, c: char, k: nat)
    requires i <= k <= |s| && (forall j :: i <= j < k ==> s[j] != c) && (k < |s| ==> s[k] == c)
    ensures FirstOf(s, i, c) == k
  {}

  lemma {:induction false} SkipLeadingSpaces(s: string, i: nat)
    requires i <= |s| && forall j :: 0 <= j < i ==> s[j] == ' '
    ensures Words(s) == Words(s[i..])
  {
    if i == 0 {
      assert s[0..] == s;
    } else {
      SkipLeadingSpaces(s[1..], i - 1);
      assert s[1..][i - 1..] == s[i..];
    }
  }

  /** A space separates: the words of a text around it are the words on either side. */
  lemma {:induction false} WordsCat(a: string, b: string)
    ensures Words(a + " " + b) == Words(a) + Words(b)
    decreases |a|
  {
    var s := a + " " + b;
    if a == "" {
      assert s[1..] == b;
    } else if a[0] == ' ' {
      assert s[1..] == a[1..] + " " + b;
      WordsCat(a[1..], b);
    } else {
      var k := FirstOf(a, 0, ' ');
      FirstOfIs(s, 0, ' ', k);
      assert s[..k] == a[..k];
      assert s[k..] == a[k..] + " " + b;
      WordsCat(a[k..], b);
    }
  }

  lemma WordsOfWord(w: string)
    requires IsWord(w)
    ensures Words(w) == [w]
  {
    FirstOfIs(w, 0, ' ', |w|);
    assert w[..|w|] == w && w[|w|..] == "";
  }

  /** strtok undoes printing. */
  lemma {:induction false} WordsOfJoin(ws: seq<string>)
    requires AllWords(ws)
    ensures Words(Join(ws)) == ws
  {
    if ws == [] {
      assert Words("") == [];
    } else if |ws| == 1 {
      WordsOfWord(ws[0]);
    } else {
      WordsCat(ws[0], Join(ws[1..]));
      WordsOfWord(ws[0]);
      WordsOfJoin(ws[1..]);
    }
  }

  lemma TrailingSpace(s: string)
    ensures Words(s + " ") == Words(s)
  {
    WordsCat(s, "");
    assert s + " " + "" == s + " ";
    assert Words("") == [];
  }

  lemma {:induction false} WordsAreWords(s: string)
    requires IsCStr(s)
    ensures AllWords(Words(s))
    decreases |s|
  {
    if s != "" {
      WordsAreWords(s[if s[0] == ' ' then 1 else FirstOf(s, 0, ' ')..]);
    }
  }

  lemma {:induction false} JoinSnoc(ws: seq<string>, w: string)
    requires ws != []
    ensures Join(ws + [w]) == Join(ws) + " " + w
  {
    if |ws| > 1 {
      assert (ws + [w])[1..] == ws[1..] + [w];
      JoinSnoc(ws[1..], w);
    } else {
      assert (ws + [w])[1..] == [w];
    }
  }

  lemma {:induction false} JoinIsCStr(ws: seq<string>)
    requires AllWords(ws)
    ensures IsCStr(Join(ws))
  {
    if |ws| > 1 {
      JoinIsCStr(ws[1..]);
    }
  }

  // ----- Buffers -----

  /** A buffer that keeps a string's bytes and its NUL keeps the string. */
  lemma CStrAtFrame(b: seq<char>, c: seq<char>, i: nat)
    requires |b| == |c| && i <= |b| && FirstOf(b, i, '\0') < |b|
    requires forall j :: i <= j <= FirstOf(b, i, '\0') ==> c[j] == b[j]
    ensures FirstOf(c, i, '\0') == FirstOf(b, i, '\0')
    ensures CStrAt(c, i) == CStrAt(b, i)
  {
    FirstOfIs(c, i, '\0', FirstOf(b, i, '\0'));
  }

  /** The first '$' dropped. */
  function RemoveDollar(s: string): string {
    var p := FirstOf(s, 0, '$');
    if p == |s| then s else s[..p] + s[p + 1..]
  }

  /** A text without '$' stays as it is; from any other exactly the first '$' goes. */
  lemma RemoveDollarIs(a: string, b: string)
    requires '$' !in a
    ensures RemoveDollar(a) == a && RemoveDollar(a + "$" + b) == a + b
  {
    var s := a + "$" + b;
    FirstOfIs(a, 0, '$', |a|);
    assert forall i :: 0 <= i < |a| ==> s[i] == a[i];
    FirstOfIs(s, 0, '$', |a|);
    assert s[..|a|] == a && s[|a| + 1..] == b;
  }
}
