/** The client's queue manager (client_interface.c): it pops, other threads go on appending, and only then
    does it copy the tokens out of the slot it no longer holds. */
module TokenCopy {
  import opened CStrings
  import opened Net
  import opened Ring
  import opened Tokeniser
  import opened QueueCode
  import opened Commands

  /** malloc and strcpy of the C string that a token points to. */
  method CopyToken(buf: array<char>, i: nat) returns (s: string)
    requires i <= buf.Length
    ensures s == CStrAt(buf[..], i)
  {
    s := [];
    var j := i;
    while j < buf.Length && buf[j] != '\0'
      invariant i <= j <= FirstOf(buf[..], i, '\0') && s == buf[i..j]
      decreases buf.Length - j
    {
      s := s + [buf[j]];
      j := j + 1;
    }
    FirstOfIs(buf[..], i, '\0', j);
    assert buf[i..j] == buf[..][i..j];
  }

  /** Any number of appends, full or not, leave the slot behind head as it is. */
  method OthersAppend(q: Queue, others: seq<(string, Option<Addr>)>)
    requires q.Valid() && forall i :: 0 <= i < |others| ==> IsCStr(others[i].0)
    modifies q, q.data, q.Buffers()
    ensures q.Valid()
    ensures Behind(q.Abs()) == old(Behind(q.Abs()))
    ensures q.Abs().slots[Behind(q.Abs())] == old(q.Abs().slots[Behind(q.Abs())])
  {
    hide WellFormed, Contents, Filled, FirstOf;
    ghost var r := q.Abs();
    var k := 0;
    while k < |others|
      invariant 0 <= k <= |others| && q.Valid()
      invariant Behind(q.Abs()) == Behind(r) && q.Abs().slots[Behind(r)] == r.slots[Behind(r)]
    {
      ghost var b := q.Abs();
      var stored := q.QAppend(others[k].0, others[k].1);
      if stored {
        AppendSparesBehind(b, others[k].0, others[k].1);
      }
      k := k + 1;
    }
  }

  /** The copy is the parse of the message popped, however many messages arrive before it is made. */
  method PopThenCopy(q: Queue, others: seq<(string, Option<Addr>)>) returns (got: bool, copy: seq<string>)
    requires q.Valid() && forall i :: 0 <= i < |others| ==> IsCStr(others[i].0)
    modifies q, q.data, q.Buffers()
    ensures q.Valid()
    ensures got == !Empty(old(q.Abs()))
    ensures got ==> copy == Parse(old(Contents(q.Abs()))[0].text)
  {
    hide WellFormed, Contents, Behind, FirstOf, Words, Parse, Pop;
    copy := [];
    var h := q.head;
    HeadInRange(q.Abs());
    var out, sender;
    got, out, sender := q.QPop();
    if !got {
      return;
    }
    ghost var freed := q.data[h].msg[..];
    assert q.Abs().slots[h] == q.SlotAt(h);
    OthersAppend(q, others);
    assert q.Abs().slots[h] == q.SlotAt(h);
    copy := CopyTokens(q.data[h].msg, out);
  }

  method CopyTokens(buf: array<char>, tokens: seq<nat>) returns (copy: seq<string>)
    requires forall i :: 0 <= i < |tokens| ==> tokens[i] <= buf.Length
    ensures copy == Tokens(buf[..], tokens)
  {
    copy := [];
    for i := 0 to |tokens|
      invariant copy == Tokens(buf[..], tokens)[..i]
    {
      var s := CopyToken(buf, tokens[i]);
      copy := copy + [s];
    }
  }

  /** The server's queue manager: what it executes is the command in the message it popped. */
  method PopThenHandle(q: Queue, others: seq<(string, Option<Addr>)>, command: Command) returns (got: bool)
    requires q.Valid() && forall i :: 0 <= i < |others| ==> IsCStr(others[i].0)
    requires command.args.Length == MAX_CMD_SIZE
    modifies q, q.data, q.Buffers(), command, command.args
    ensures got == !Empty(old(q.Abs()))
    ensures got ==>
              var tokens := Parse(old(Contents(q.Abs()))[0].text);
              tokens != [] ==> Names(tokens[0], command.kind) && command.args[..] == ArgSlots(tokens[1..])
  {
    hide WellFormed, Contents, Parse, ArgSlots, Names, Words, FirstOf;
    var tokens;
    got, tokens := PopThenCopy(q, others);
    if got {
      command.Handle(tokens);
    }
  }

  lemma HeadInRange(r: Ring)
    requires WellFormed(r)
    ensures r.head < QUEUE_MAX == |r.slots|
  {}
}
