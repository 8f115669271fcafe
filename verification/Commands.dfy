/** cmd.h's command parser and the two loops that print arguments back: join_args on the server, join on
    the client. */
module Commands {
  import opened CStrings

  datatype Kind =
    | CONN | CONN_SUCCESS | CONN_FAILED | SAY | SAYTO | MUTE | UNMUTE | RENAME
    | DISCONN | DISCONN_RESPONSE | KICK | PING | RETPING | ERROR | UNKNOWN

  /** The word that names a kind on the wire; UNKNOWN has none. */
  function Keyword(k: Kind): string {
    match k
    case CONN => "conn"
    case CONN_SUCCESS => "connsuccess"
    case CONN_FAILED => "connfailed"
    case SAY => "say"
    case SAYTO => "sayto"
    case MUTE => "mute"
    case UNMUTE => "unmute"
    case RENAME => "rename"
    case DISCONN => "disconn"
    case DISCONN_RESPONSE => "disconnresponse"
    case KICK => "kick"
    case PING => "ping"
    case RETPING => "retping"
    case ERROR => "error"
    case UNKNOWN => ""
  }

  method Dispatch(word: string) returns (k: Kind)
    ensures k != UNKNOWN ==> Keyword(k) == word
    ensures k == UNKNOWN ==> forall other :: other != UNKNOWN ==> Keyword(other) != word
  {
    if word == "conn" {
      k := CONN;
    } else if word == "connsuccess" {
      k := CONN_SUCCESS;
    } else if word == "connfailed" {
      k := CONN_FAILED;
    } else if word == "say" {
      k := SAY;
    } else if word == "sayto" {
      k := SAYTO;
    } else if word == "mute" {
      k := MUTE;
    } else if word == "unmute" {
      k := UNMUTE;
    } else if word == "rename" {
      k := RENAME;
    } else if word == "disconn" {
      k := DISCONN;
    } else if word == "disconnresponse" {
      k := DISCONN_RESPONSE;
    } else if word == "kick" {
      k := KICK;
    } else if word == "ping" {
      k := PING;
    } else if word == "retping" {
      k := RETPING;
    } else if word == "error" {
      k := ERROR;
    } else {
      k := UNKNOWN;
    }
  }

  /** The kind that a first word names. */
  ghost predicate Names(word: string, k: Kind) {
    if k == UNKNOWN then forall other :: other != UNKNOWN ==> Keyword(other) != word
    else Keyword(k) == word
  }

  /** Every word names one kind: no two keywords are the same. */
  lemma NamesOneKind(word: string, k: Kind, l: Kind)
    requires Names(word, k) && Names(word, l)
    ensures k == l
  {}

  /** The words themselves, as a user types them and as the server sends them. */
  lemma NamesOnTheWire()
    ensures Names("conn", CONN) && Names("connsuccess", CONN_SUCCESS) && Names("connfailed", CONN_FAILED)
    ensures Names("say", SAY) && Names("sayto", SAYTO) && Names("mute", MUTE) && Names("unmute", UNMUTE)
    ensures Names("rename", RENAME) && Names("disconn", DISCONN) && Names("disconnresponse", DISCONN_RESPONSE)
    ensures Names("kick", KICK) && Names("ping", PING) && Names("retping", RETPING) && Names("error", ERROR)
  {}

  /** The fifty argument slots that a token list fills: each word clipped to 19 characters, the rest empty. */
  function ArgSlots(words: seq<string>): (slots: seq<string>)
    ensures |slots| == MAX_CMD_SIZE
    ensures forall i :: 0 <= i < MAX_CMD_SIZE ==> slots[i] == if i < |words| then Clip(words[i], NAME_SIZE - 1) else ""
  {
    seq(MAX_CMD_SIZE, i requires 0 <= i < MAX_CMD_SIZE => if i < |words| then Clip(words[i], NAME_SIZE - 1) else "")
  }

  class Command {
    var kind: Kind
    const args: array<string>

    constructor (kind: Kind)
      ensures this.kind == kind && args.Length == MAX_CMD_SIZE && fresh(args)
    {
      this.kind := kind;
      args := new string[MAX_CMD_SIZE](_ => "");
    }

    /** command_handler on a token list that its NULL terminator closes; an empty list is left alone. */
    method Handle(tokens: seq<string>)
      requires args.Length == MAX_CMD_SIZE
      modifies this, args
      ensures tokens == [] ==> kind == old(kind) && args[..] == old(args[..])
      ensures tokens != [] ==> Names(tokens[0], kind) && args[..] == ArgSlots(tokens[1..])
    {
      if tokens == [] {
        return;
      }
      kind := Dispatch(tokens[0]);
      var i, out := 1, 0;
      while i < |tokens| && out < MAX_CMD_SIZE
        invariant 0 <= out <= MAX_CMD_SIZE && i == out + 1 && i <= |tokens|
        invariant forall j :: 0 <= j < out ==> args[j] == Clip(tokens[j + 1], NAME_SIZE - 1)
        modifies args
      {
        args[out] := Clip(tokens[i], NAME_SIZE - 1);
        out := out + 1;
        i := i + 1;
      }
      ghost var filled := out;
      while out < MAX_CMD_SIZE
        invariant filled <= out <= MAX_CMD_SIZE
        invariant forall j :: 0 <= j < filled ==> args[j] == Clip(tokens[j + 1], NAME_SIZE - 1)
        invariant forall j :: filled <= j < out ==> args[j] == ""
        modifies args
      {
        args[out] := "";
        out := out + 1;
      }
    }
  }

  /** The arguments from a slot on, up to the first empty one. */
  function Used(slots: seq<string>, start: nat): (ws: seq<string>)
    requires start <= |slots|
    ensures |ws| <= |slots| - start
    ensures forall i :: 0 <= i < |ws| ==> ws[i] == slots[start + i] && ws[i] != ""
    ensures start + |ws| < |slots| ==> slots[start + |ws|] == ""
    decreases |slots| - start
  {
    if start == |slots| || slots[start] == "" then [] else [slots[start]] + Used(slots, start + 1)
  }

  lemma UsedAt(slots: seq<string>, start: nat, i: nat)
    requires start <= |slots| && i <= |Used(slots, start)|
    ensures start + i < |slots| ==> (slots[start + i] != "" <==> i < |Used(slots, start)|)
    ensures start + i == |slots| ==> i == |Used(slots, start)|
    ensures i < |Used(slots, start)| ==> start + i < |slots| && Used(slots, start)[i] == slots[start + i]
  {}

  /** The length of the first n words, printed. */
  function PrintedLen(ws: seq<string>, n: nat): nat
    requires n <= |ws|
  {
    |Join(ws[..n])|
  }

  /** How many of the words fit, one after the other, in a buffer of maxLen bytes with one to spare. */
  function FitCount(ws: seq<string>, maxLen: nat, k: nat := 0): (n: nat)
    requires k <= |ws|
    ensures k <= n <= |ws|
    ensures forall j :: k < j <= n ==> PrintedLen(ws, j) < maxLen - 1
    ensures n < |ws| ==> PrintedLen(ws, n + 1) >= maxLen - 1
    decreases |ws| - k
  {
    if k == |ws| || PrintedLen(ws, k + 1) >= maxLen - 1 then k else FitCount(ws, maxLen, k + 1)
  }

  /** What join_args makes of its words: the longest prefix that fits, and a space where the next word did not. */
  function Fitted(ws: seq<string>, maxLen: nat): string {
    var n := FitCount(ws, maxLen);
    Join(ws[..n]) + if 0 < n < |ws| then " " else ""
  }

  lemma NextWord(ws: seq<string>, n: nat)
    requires n < |ws|
    ensures Join(ws[..n + 1]) == if n == 0 then ws[0] else Join(ws[..n]) + " " + ws[n]
  {
    assert ws[..n + 1] == ws[..n] + [ws[n]];
    if n > 0 {
      JoinSnoc(ws[..n], ws[n]);
    }
  }

  lemma {:induction false} PrintedGrows(ws: seq<string>, k: nat, m: nat)
    requires k <= m <= |ws|
    ensures PrintedLen(ws, k) <= PrintedLen(ws, m)
    decreases m - k
  {
    if k < m {
      NextWord(ws, m - 1);
      PrintedGrows(ws, k, m - 1);
    }
  }

  /** join_args never fills its buffer beyond maxLen - 1 characters, and no longer prefix would fit. */
  lemma FittedIsLongest(ws: seq<string>, maxLen: nat, m: nat)
    requires maxLen >= 1 && m <= |ws|
    ensures |Fitted(ws, maxLen)| <= maxLen - 1
    ensures m <= FitCount(ws, maxLen) <==> m == 0 || PrintedLen(ws, m) <= maxLen - 2
  {
    var n := FitCount(ws, maxLen);
    assert n > 0 ==> PrintedLen(ws, n) < maxLen - 1;
    if m > n {
      PrintedGrows(ws, n + 1, m);
    }
  }

  lemma FitCountIs(ws: seq<string>, maxLen: nat, n: nat)
    requires n <= |ws| && forall j :: 0 < j <= n ==> PrintedLen(ws, j) < maxLen - 1
    requires n < |ws| ==> PrintedLen(ws, n + 1) >= maxLen - 1
    ensures FitCount(ws, maxLen) == n
  {}

  /** join_args: the arguments from `start` on, in a buffer of maxLen bytes. */
  method JoinArgs(args: array<string>, start: nat, maxLen: nat) returns (result: string)
    requires args.Length == MAX_CMD_SIZE && start <= MAX_CMD_SIZE && maxLen >= 1
    ensures result == Fitted(Used(args[..], start), maxLen)
  {
    hide Used, FitCount, Join;
    ghost var ws := Used(args[..], start);
    NothingPrinted(ws);
    result := "";
    var currentLen, first, i := 0, true, start;
    while i < MAX_CMD_SIZE && args[i] != ""
      invariant start <= i <= start + |ws|
      invariant result == Join(ws[..i - start]) && currentLen == |result| && first == (i == start)
      invariant i > start ==> currentLen < maxLen - 1
      invariant forall j :: 0 < j <= i - start ==> PrintedLen(ws, j) < maxLen - 1
    {
      ghost var n := i - start;
      UsedAt(args[..], start, n);
      NextWord(ws, n);
      if !first && currentLen < maxLen - 1 {
        result := result + " ";
        currentLen := currentLen + 1;
      }
      var argLen := |args[i]|;
      if currentLen + argLen < maxLen - 1 {
        result := result + args[i];
        currentLen := currentLen + argLen;
        first := false;
      } else {
        FitCountIs(ws, maxLen, n);
        return;
      }
      i := i + 1;
    }
    UsedAt(args[..], start, i - start);
    FitCountIs(ws, maxLen, |ws|);
  }

  lemma NothingPrinted(ws: seq<string>)
    ensures Join(ws[..0]) == ""
  {}

  /** join: the arguments printed with single spaces. It stops at the first empty slot, so it needs one among
      the first 49, and room for the text. */
  method JoinSlots(args: array<string>) returns (result: string)
    requires args.Length == MAX_CMD_SIZE && args[48] == ""
    requires |Join(Used(args[..], 0))| < JOIN_SIZE
    ensures result == Join(Used(args[..], 0))
  {
    hide Used, Join;
    ghost var ws := Used(args[..], 0);
    if |ws| > 48 {
      UsedAt(args[..], 0, 48);
      assert false;
    }
    NothingPrinted(ws);
    result := "";
    var i := 0;
    while args[i] != ""
      invariant 0 <= i <= |ws| <= 48
      invariant result == Join(ws[..i]) + if 0 < i < |ws| then " " else ""
      decreases |ws| - i
    {
      UsedAt(args[..], 0, i);
      UsedAt(args[..], 0, i + 1);
      NextWord(ws, i);
      result := result + args[i];
      if args[i + 1] != "" {
        result := result + " ";
      }
      i := i + 1;
    }
    UsedAt(args[..], 0, i);
    assert ws[..|ws|] == ws;
  }
}
