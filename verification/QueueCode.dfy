/** queue.h's queue as it is written: slots overwritten in place, and tokens that point into the slot
    that the pop has just freed. */
module QueueCode {
  import opened CStrings
  import opened Net
  import opened Ring
  import opened Tokeniser

  class QueueNode {
    const msg: array<char>
    var fromAddr: Addr
    var hasAddr: bool

    constructor ()
      ensures fresh(msg) && msg.Length == QUEUE_MSG_SIZE
    {
      msg := new char[QUEUE_MSG_SIZE];
      fromAddr, hasAddr := NO_ADDR, false;
    }
  }

  /** strncpy(dst, src, n). */
  method Strncpy(dst: array<char>, src: string)
    requires dst.Length == QUEUE_MSG_SIZE
    modifies dst
    ensures dst[..] == Clip(src, QUEUE_MSG_SIZE) + seq(QUEUE_MSG_SIZE - |Clip(src, QUEUE_MSG_SIZE)|, _ => '\0')
  {
    var i := 0;
    while i < QUEUE_MSG_SIZE
      invariant 0 <= i <= QUEUE_MSG_SIZE
      invariant forall j :: 0 <= j < i ==> dst[j] == if j < |src| then src[j] else '\0'
    {
      dst[i] := if i < |src| then src[i] else '\0';
      i := i + 1;
    }
  }

  class Queue {
    const data: seq<QueueNode>
    var head: nat
    var tail: nat
    var size: int

    /** The slots and their buffers are distinct objects of the expected sizes; this never changes. */
    ghost predicate Laid() {
      && |data| == QUEUE_MAX
      && (forall i :: 0 <= i < QUEUE_MAX ==> data[i].msg.Length == QUEUE_MSG_SIZE)
      && (forall i, j :: 0 <= i < j < QUEUE_MAX ==> data[i] != data[j] && data[i].msg != data[j].msg)
    }

    ghost function Buffers(): set<array<char>> {
      set n | n in data :: n.msg
    }

    ghost function SlotAt(i: nat): Slot
      requires i < |data|
      reads data[i], data[i].msg
    {
      Slot(data[i].msg[..], data[i].fromAddr, data[i].hasAddr)
    }

    ghost function Abs(): Ring
      requires Laid()
      reads this, data, Buffers()
    {
      Ring(seq(QUEUE_MAX, i requires 0 <= i < QUEUE_MAX reads data, Buffers() => SlotAt(i)), head, tail, size)
    }

    ghost predicate Valid()
      reads this, data, Buffers()
    {
      Laid() && WellFormed(Abs())
    }

    constructor ()
      ensures Valid() && Contents(Abs()) == []
      ensures fresh(data) && fresh(Buffers())
    {
      var nodes: seq<QueueNode> := [];
      while |nodes| < QUEUE_MAX
        invariant |nodes| <= QUEUE_MAX && fresh(nodes)
        invariant forall i :: 0 <= i < |nodes| ==> nodes[i].msg.Length == QUEUE_MSG_SIZE && fresh(nodes[i].msg)
        invariant forall i, j :: 0 <= i < j < |nodes| ==> nodes[i] != nodes[j] && nodes[i].msg != nodes[j].msg
      {
        var n := new QueueNode();
        nodes := nodes + [n];
      }
      data := nodes;
      head, tail, size := 0, 0, 0;
    }

    /** One pass of q_append's loop: a full queue sends the caller to wait on nonfull and changes nothing;
        otherwise the message is stored. */
    method QAppend(msg: string, from: Option<Addr>) returns (stored: bool)
      requires Valid() && IsCStr(msg)
      modifies this, data, Buffers()
      ensures Valid()
      ensures stored == !Full(old(Abs()))
      ensures Abs() == if stored then Append(old(Abs()), msg, from) else old(Abs())
      ensures stored ==> Contents(Abs()) == old(Contents(Abs())) + [Packet(Clip(msg, QUEUE_MSG_SIZE - 1), from)]
    {
      hide Words, FirstOf, Contents, PacketOf;
      if (tail + 1) % QUEUE_MAX == head {
        return false;
      }
      ghost var r := Abs();
      var node := data[tail];
      Strncpy(node.msg, msg);
      node.msg[QUEUE_MSG_SIZE - 1] := '\0';
      match from {
        case Some(a) => node.fromAddr, node.hasAddr := a, true;
        case None => node.hasAddr := false;
      }
      assert node.msg[..] == Filled(msg);
      tail := (tail + 1) % QUEUE_MAX;
      size := size + 1;
      assert Abs() == Append(r, msg, from);
      AppendIsFifo(r, msg, from);
      stored := true;
    }

    /** The head message, tokenised in its slot, and the slot freed; the tokens still point into it. */
    method TakeHead() returns (out: seq<nat>, sender: Addr)
      requires Valid() && !Empty(Abs())
      modifies this, data, Buffers()
      ensures Abs() == Pop(old(Abs()), data[old(head)].msg[..])
      ensures forall i :: 0 <= i < |out| ==> out[i] <= QUEUE_MSG_SIZE
      ensures Tokens(data[old(head)].msg[..], out) == Parse(CStrAt(old(SlotAt(head).msg), 0))
      ensures sender == old(if SlotAt(head).hasAddr then SlotAt(head).from else NO_ADDR)
    {
      hide Words, FirstOf, PacketOf, WellFormed;
      ghost var r := Abs();
      HeadReadable(r);
      assert r.slots[head] == SlotAt(head);
      var node := data[head];
      out := GetAndTokenise(node.msg);
      sender := if node.hasAddr then node.fromAddr else NO_ADDR;
      assert forall i :: 0 <= i < QUEUE_MAX && i != r.head ==> SlotAt(i) == r.slots[i];
      head := (head + 1) % QUEUE_MAX;
      size := size - 1;
    }

    /** One pass of q_pop's loop: an empty queue sends the caller to wait on nonempty. */
    method QPop() returns (got: bool, out: seq<nat>, sender: Addr)
      requires Valid()
      modifies this, data, Buffers()
      ensures Valid()
      ensures got == !Empty(old(Abs()))
      ensures !got ==> Abs() == old(Abs())
      ensures got ==>
                var front := old(Contents(Abs()))[0];
                var freed := data[old(head)].msg[..];
                && Contents(Abs()) == old(Contents(Abs()))[1..]
                && Abs() == Pop(old(Abs()), freed) && old(head) == Behind(Abs())
                && (forall i :: 0 <= i < |out| ==> out[i] <= QUEUE_MSG_SIZE)
                && Tokens(freed, out) == Parse(front.text)
                && sender == (if front.from.Some? then front.from.value else NO_ADDR)
    {
      if head == tail {
        return false, [], NO_ADDR;
      }
      ghost var r := Abs();
      HeadReadable(r);
      out, sender := TakeHead();
      ghost var freed := data[r.head].msg[..];
      hide Words, FirstOf, Contents, WellFormed, Behind, Tokens, Parse;
      PopIsFifo(r, freed);
      PopFreesBehind(r, freed);
      got := true;
    }
  }
}
