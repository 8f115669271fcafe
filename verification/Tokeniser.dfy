/** queue.h's tokeniser, in place on the message buffer of a queue slot. Tokens are offsets into that
    buffer, as the source's are pointers into it. */
module Tokeniser {
  import opened CStrings

  predicate Terminated(b: seq<char>, i: nat) {
    i <= |b| && FirstOf(b, i, '\0') < |b|
  }

  /** The strings that a list of offsets points to. */
  function Tokens(b: seq<char>, offsets: seq<nat>): (ts: seq<string>)
    requires forall i :: 0 <= i < |offsets| ==> offsets[i] <= |b|
    ensures |ts| == |offsets| && forall i :: 0 <= i < |ts| ==> ts[i] == CStrAt(b, offsets[i])
  {
    seq(|offsets|, i requires 0 <= i < |offsets| => CStrAt(b, offsets[i]))
  }

  /** What a message is parsed into: at most 49 of its words, its first '$' gone. */
  function Parse(msg: string): seq<string> {
    TakeUpTo(Words(RemoveDollar(msg)), MAX_COMMAND_LEN - 1)
  }

  method StrLen(buf: array<char>, i: nat) returns (n: nat)
    requires Terminated(buf[..], i)
    ensures i + n == FirstOf(buf[..], i, '\0')
  {
    n := 0;
    while buf[i + n] != '\0'
      invariant i + n <= FirstOf(buf[..], i, '\0')
      decreases buf.Length - n
    {
      n := n + 1;
    }
  }

  /** memmove(p, p + 1, n): the n bytes after p, one place down. */
  method MoveDown(buf: array<char>, p: nat, n: nat)
    requires p + n < buf.Length
    modifies buf
    ensures buf[..] == old(buf[..p] + buf[p + 1..p + n + 1] + buf[p + n..])
  {
    var j := p;
    while j < p + n
      invariant p <= j <= p + n
      invariant forall k :: 0 <= k < buf.Length ==> buf[k] == if p <= k < j then old(buf[k + 1]) else old(buf[k])
    {
      buf[j] := buf[j + 1];
      j := j + 1;
    }
  }

  lemma DollarMoved(b: seq<char>, c: seq<char>, p: nat)
    requires Terminated(b, 0)
    requires p < FirstOf(b, 0, '\0') && b[p] == '$' && forall j :: 0 <= j < p ==> b[j] != '$'
    requires var e := FirstOf(b, 0, '\0'); c == b[..p] + b[p + 1..e + 1] + b[e..]
    ensures Terminated(c, 0) && CStrAt(c, 0) == RemoveDollar(CStrAt(b, 0))
  {
    var s, e := CStrAt(b, 0), FirstOf(b, 0, '\0');
    FirstOfIs(s, 0, '$', p);
    FirstOfIs(c, 0, '\0', e - 1);
    assert CStrAt(c, 0) == s[..p] + s[p + 1..];
  }

  method RemoveDollarSign(buf: array<char>)
    requires Terminated(buf[..], 0)
    modifies buf
    ensures Terminated(buf[..], 0)
    ensures CStrAt(buf[..], 0) == RemoveDollar(old(CStrAt(buf[..], 0)))
  {
    ghost var b := buf[..];
    ghost var e := FirstOf(b, 0, '\0');
    var p := 0;
    while buf[p] != '\0' && buf[p] != '$'
      invariant p <= e && (forall j :: 0 <= j < p ==> b[j] != '$')
      decreases e - p
    {
      p := p + 1;
    }
    if buf[p] == '\0' {
      FirstOfIs(CStrAt(b, 0), 0, '$', p);
      return;
    }
    FirstOfIs(b, p, '\0', e);
    var n := StrLen(buf, p);
    MoveDown(buf, p, n);
    DollarMoved(b, buf[..], p);
  }

  lemma FirstWord(s: string, w: string, rest: string, i: nat, k: nat)
    requires i < k <= |s| && (forall j :: 0 <= j < i ==> s[j] == ' ') && (forall j :: i <= j < k ==> s[j] != ' ')
    requires k < |s| ==> s[k] == ' '
    requires w == s[i..k] && rest == s[if k < |s| then k + 1 else k..]
    ensures Words(s) == [w] + Words(rest)
  {
    SkipLeadingSpaces(s, i);
    FirstOfIs(s[i..], 0, ' ', k - i);
    assert s[i..][..k - i] == w;
    if k < |s| {
      assert s[i..][k - i..][1..] == rest;
    } else {
      assert s[i..][k - i..] == rest;
    }
  }

  /** The buffer b with a token at i..k, closed in c; the C string from `start` ended at e. */
  lemma TokenFound(b: seq<char>, c: seq<char>, start: nat, i: nat, k: nat, e: nat)
    requires start <= i < k <= e < |b| && b[e] == '\0' && (forall j :: start <= j < e ==> b[j] != '\0')
    requires (forall j :: start <= j < i ==> b[j] == ' ') && (forall j :: i <= j < k ==> b[j] != ' ')
    requires k < e ==> b[k] == ' '
    requires c == if k < e then b[k := '\0'] else b
    ensures var next := if k < e then k + 1 else k;
            && FirstOf(c, next, '\0') == e && FirstOf(c, i, '\0') == k
            && Words(b[start..e]) == [c[i..k]] + Words(c[next..e])
  {
    hide Words, FirstOf;
    var next := if k < e then k + 1 else k;
    FirstOfIs(c, i, '\0', k);
    FirstOfIs(c, next, '\0', e);
    assert b[start..e][i - start..k - start] == c[i..k];
    assert b[start..e][next - start..] == c[next..e];
    FirstWord(b[start..e], c[i..k], c[next..e], i - start, k - start);
  }

  lemma OnlySpaces(s: string)
    requires forall j :: 0 <= j < |s| ==> s[j] == ' '
    ensures Words(s) == []
  {
    SkipLeadingSpaces(s, |s|);
  }

  /** strspn(s, " "). */
  method SkipSpaces(buf: array<char>, start: nat) returns (i: nat)
    requires Terminated(buf[..], start)
    ensures start <= i <= FirstOf(buf[..], start, '\0')
    ensures buf[i] != ' ' && forall j :: start <= j < i ==> buf[j] == ' '
  {
    i := start;
    while buf[i] == ' '
      invariant start <= i <= FirstOf(buf[..], start, '\0') && forall j :: start <= j < i ==> buf[j] == ' '
      decreases buf.Length - i
    {
      i := i + 1;
    }
  }

  /** strcspn(s, " "). */
  method SkipWord(buf: array<char>, start: nat) returns (i: nat)
    requires Terminated(buf[..], start)
    ensures start <= i <= FirstOf(buf[..], start, '\0')
    ensures buf[i] == '\0' || buf[i] == ' '
    ensures forall j :: start <= j < i ==> buf[j] != ' '
  {
    i := start;
    while buf[i] != '\0' && buf[i] != ' '
      invariant start <= i <= FirstOf(buf[..], start, '\0') && forall j :: start <= j < i ==> buf[j] != ' '
      decreases buf.Length - i
    {
      i := i + 1;
    }
  }

  /** One call of strtok(_, " ") whose saved pointer is `start`; tok is -1 for NULL. It overwrites the
      delimiter after the token and nothing up to `start`. */
  method Strtok(buf: array<char>, start: nat) returns (tok: int, next: nat)
    requires Terminated(buf[..], start)
    modifies buf
    ensures start <= next && Terminated(buf[..], next)
    ensures forall j :: 0 <= j <= start ==> buf[j] == old(buf[j])
    ensures tok == -1 <==> Words(old(CStrAt(buf[..], start))) == []
    ensures tok != -1 ==>
              && start <= tok && Terminated(buf[..], tok) && FirstOf(buf[..], tok, '\0') <= next
              && Words(old(CStrAt(buf[..], start))) == [CStrAt(buf[..], tok)] + Words(CStrAt(buf[..], next))
  {
    hide FirstOf, Words;
    ghost var b := buf[..];
    ghost var e := FirstOf(b, start, '\0');
    var i := SkipSpaces(buf, start);
    if buf[i] == '\0' {
      OnlySpaces(CStrAt(b, start));
      return -1, i;
    }
    FirstOfIs(b, i, '\0', e);
    var k := SkipWord(buf, i);
    tok, next := i, k;
    if buf[k] == ' ' {
      buf[k] := '\0';
      next := k + 1;
    }
    TokenFound(b, buf[..], start, i, k, e);
  }

  /** args are offsets of all's first words, each closed by a NUL no later than `next`. */
  ghost predicate Handed(b: seq<char>, args: seq<nat>, all: seq<string>, next: nat) {
    |args| <= |all| &&
    forall i :: 0 <= i < |args| ==>
                  Terminated(b, args[i]) && FirstOf(b, args[i], '\0') <= next && CStrAt(b, args[i]) == all[i]
  }

  /** tok is strtok's answer after the words counted by n: a word yet to hand out, or NULL after the last. */
  ghost predicate Pending(b: seq<char>, all: seq<string>, n: nat, tok: int, next: nat) {
    && n <= |all|
    && Terminated(b, next)
    && (tok == -1 <==> n == |all|)
    && (tok != -1 ==>
          && 0 <= tok && Terminated(b, tok) && FirstOf(b, tok, '\0') <= next
          && all[n..] == [CStrAt(b, tok)] + Words(CStrAt(b, next)))
  }

  lemma HandedFrame(b: seq<char>, c: seq<char>, args: seq<nat>, all: seq<string>, next: nat, next': nat)
    requires Handed(b, args, all, next) && |b| == |c| && next <= next' && next < |b|
    requires forall j :: 0 <= j <= next ==> c[j] == b[j]
    ensures Handed(c, args, all, next')
  {
    forall i | 0 <= i < |args|
      ensures Terminated(c, args[i]) && FirstOf(c, args[i], '\0') <= next' && CStrAt(c, args[i]) == all[i]
    {
      CStrAtFrame(b, c, args[i]);
    }
  }

  /** Taking tok, with c, tok' and next' what the next call of strtok leaves. */
  lemma TakeToken(b: seq<char>, c: seq<char>, args: seq<nat>, all: seq<string>,
                  tok: nat, next: nat, tok': int, next': nat)
    requires Handed(b, args, all, next) && Pending(b, all, |args|, tok, next)
    requires |b| == |c| && next <= next' && Terminated(c, next') && forall j :: 0 <= j <= next ==> c[j] == b[j]
    requires tok' == -1 <==> Words(CStrAt(b, next)) == []
    requires tok' != -1 ==>
               && 0 <= tok' && Terminated(c, tok') && FirstOf(c, tok', '\0') <= next'
               && Words(CStrAt(b, next)) == [CStrAt(c, tok')] + Words(CStrAt(c, next'))
    ensures Handed(c, args + [tok], all, next') && Pending(c, all, |args| + 1, tok', next')
  {
    assert all[|args|] == all[|args|..][0];
    assert all[|args| + 1..] == all[|args|..][1..];
    assert Handed(b, args + [tok], all, next);
    HandedFrame(b, c, args + [tok], all, next, next');
  }

  lemma HandedTokens(b: seq<char>, args: seq<nat>, all: seq<string>, next: nat)
    requires Handed(b, args, all, next) && (|args| == |all| || |args| == MAX_COMMAND_LEN - 1)
    requires |args| <= MAX_COMMAND_LEN - 1
    ensures forall i :: 0 <= i < |args| ==> args[i] <= |b|
    ensures Tokens(b, args) == TakeUpTo(all, MAX_COMMAND_LEN - 1)
  {}

  /** The offsets point at the parse of the message that was in the buffer. */
  method GetAndTokenise(buf: array<char>) returns (args: seq<nat>)
    requires Terminated(buf[..], 0)
    modifies buf
    ensures forall i :: 0 <= i < |args| ==> args[i] <= buf.Length
    ensures Tokens(buf[..], args) == Parse(old(CStrAt(buf[..], 0)))
  {
    hide Words, FirstOf;
    RemoveDollarSign(buf);
    ghost var all := Words(CStrAt(buf[..], 0));
    args := [];
    var tok, next := Strtok(buf, 0);
    while tok != -1 && |args| < MAX_COMMAND_LEN - 1
      invariant |args| <= MAX_COMMAND_LEN - 1
      invariant Handed(buf[..], args, all, next) && Pending(buf[..], all, |args|, tok, next)
      decreases |all| - |args|
    {
      var t := tok;
      ghost var b, n := buf[..], next;
      tok, next := Strtok(buf, next);
      TakeToken(b, buf[..], args, all, t, n, tok, next);
      args := args + [t];
    }
    HandedTokens(buf[..], args, all, next);
  }
}
