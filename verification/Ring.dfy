/** The bounded queue of queue.h as a value: 256 slots of which 255 are usable. */
module Ring {
  import opened CStrings
  import opened Net
  import opened Tokeniser

  const QUEUE_MAX := 256

  datatype Slot = Slot(msg: seq<char>, from: Addr, hasAddr: bool)

  datatype Ring = Ring(slots: seq<Slot>, head: nat, tail: nat, size: int)

  /** A message with its sender, as the queue's users see it. */
  datatype Packet = Packet(text: string, from: Option<Addr>)

  predicate WellFormed(r: Ring) {
    && |r.slots| == QUEUE_MAX && r.head < QUEUE_MAX && r.tail < QUEUE_MAX
    && r.size == (r.tail - r.head) % QUEUE_MAX
    && (forall i :: 0 <= i < QUEUE_MAX ==> |r.slots[i].msg| == QUEUE_MSG_SIZE)
    && (forall k :: 0 <= k < r.size ==> Terminated(r.slots[Place(r.head, k)].msg, 0))
  }

  predicate Full(r: Ring) {
    (r.tail + 1) % QUEUE_MAX == r.head
  }

  predicate Empty(r: Ring) {
    r.head == r.tail
  }

  /** strncpy of a message into a slot's buffer, which it pads with NULs, and the closing NUL. */
  function Filled(msg: string): (b: seq<char>)
    ensures |b| == QUEUE_MSG_SIZE
  {
    Clip(msg, QUEUE_MSG_SIZE - 1) + seq(QUEUE_MSG_SIZE - |Clip(msg, QUEUE_MSG_SIZE - 1)|, _ => '\0')
  }

  function Append(r: Ring, msg: string, from: Option<Addr>): Ring
    requires WellFormed(r)
  {
    var slot := Slot(Filled(msg), if from.Some? then from.value else r.slots[r.tail].from, from.Some?);
    Ring(r.slots[r.tail := slot], r.head, (r.tail + 1) % QUEUE_MAX, r.size + 1)
  }

  /** The pop's effect, when tokenising leaves `msg` in the head slot. */
  function Pop(r: Ring, msg: seq<char>): Ring
    requires WellFormed(r)
  {
    Ring(r.slots[r.head := r.slots[r.head].(msg := msg)], (r.head + 1) % QUEUE_MAX, r.tail, r.size - 1)
  }

  function PacketOf(s: Slot): Packet {
    Packet(CStrAt(s.msg, 0), if s.hasAddr then Some(s.from) else None)
  }

  /** The slot k places after `head`. */
  function Place(head: nat, k: nat): (i: nat)
    ensures i < QUEUE_MAX
  {
    (head + k) % QUEUE_MAX
  }

  /** The FIFO sequence that the ring stands for. */
  function Contents(r: Ring): (c: seq<Packet>)
    requires WellFormed(r)
    ensures |c| == r.size
  {
    seq(r.size, k requires 0 <= k < r.size => PacketOf(r.slots[Place(r.head, k)]))
  }

  lemma FilledReads(msg: string)
    requires IsCStr(msg)
    ensures Terminated(Filled(msg), 0) && CStrAt(Filled(msg), 0) == Clip(msg, QUEUE_MSG_SIZE - 1)
  {
    FirstOfIs(Filled(msg), 0, '\0', |Clip(msg, QUEUE_MSG_SIZE - 1)|);
  }

  /** Full means 255 held, empty means none: the size field agrees with head and tail. */
  lemma SizeDecides(r: Ring)
    requires WellFormed(r)
    ensures 0 <= r.size <= QUEUE_MAX - 1
    ensures Full(r) <==> r.size == QUEUE_MAX - 1
    ensures Empty(r) <==> r.size == 0
  {}

  lemma TailMoves(head: nat, tail: nat)
    requires head < QUEUE_MAX && tail < QUEUE_MAX && (tail + 1) % QUEUE_MAX != head
    ensures ((tail + 1) % QUEUE_MAX - head) % QUEUE_MAX == (tail - head) % QUEUE_MAX + 1
  {}

  lemma AppendWellFormed(r: Ring, msg: string, from: Option<Addr>)
    requires WellFormed(r) && !Full(r) && IsCStr(msg)
    ensures WellFormed(Append(r, msg, from))
  {
    SizeDecides(r);
    FilledReads(msg);
    PlaceOfTail(r);
    TailMoves(r.head, r.tail);
    hide Terminated, Filled, Place;
    var a := Append(r, msg, from);
    forall k | 0 <= k < a.size ensures Terminated(a.slots[Place(a.head, k)].msg, 0) {
      if k < r.size {
        PlacesDiffer(r.head, k, r.size);
      }
    }
  }

  /** An append puts the clipped message, with its sender, at the end of the sequence. */
  lemma AppendIsFifo(r: Ring, msg: string, from: Option<Addr>)
    requires WellFormed(r) && !Full(r) && IsCStr(msg)
    ensures WellFormed(Append(r, msg, from))
    ensures Contents(Append(r, msg, from)) == Contents(r) + [Packet(Clip(msg, QUEUE_MSG_SIZE - 1), from)]
  {
    AppendWellFormed(r, msg, from);
    SizeDecides(r);
    PlaceOfTail(r);
    FilledReads(msg);
    hide WellFormed, Place, FirstOf, CStrAt, Filled;
    var a := Append(r, msg, from);
    forall k | 0 <= k < r.size ensures Contents(a)[k] == Contents(r)[k] {
      PlacesDiffer(r.head, k, r.size);
    }
  }

  lemma PlaceOfTail(r: Ring)
    requires WellFormed(r)
    ensures Place(r.head, r.size) == r.tail
  {}

  lemma PlacesDiffer(head: nat, k: nat, m: nat)
    requires k < m < QUEUE_MAX
    ensures Place(head, k) != Place(head, m)
  {}

  lemma NextPlace(head: nat, k: nat)
    ensures Place((head + 1) % QUEUE_MAX, k) == Place(head, k + 1)
  {}

  lemma HeadReadable(r: Ring)
    requires WellFormed(r) && !Empty(r)
    ensures r.head < QUEUE_MAX == |r.slots| && Terminated(r.slots[r.head].msg, 0)
    ensures |r.slots[r.head].msg| == QUEUE_MSG_SIZE
  {
    SizeDecides(r);
    assert Place(r.head, 0) == r.head;
  }

  lemma PopSpares(r: Ring, msg: seq<char>, k: nat)
    requires WellFormed(r) && !Empty(r) && k < r.size - 1
    ensures var p := Pop(r, msg);
            && Place(p.head, k) == Place(r.head, k + 1)
            && p.slots[Place(p.head, k)] == r.slots[Place(r.head, k + 1)]
  {
    SizeDecides(r);
    NextPlace(r.head, k);
    PlacesDiffer(r.head, 0, k + 1);
  }

  lemma PopWellFormed(r: Ring, msg: seq<char>)
    requires WellFormed(r) && !Empty(r) && |msg| == QUEUE_MSG_SIZE
    ensures WellFormed(Pop(r, msg))
  {
    hide FirstOf;
    SizeDecides(r);
    var p := Pop(r, msg);
    assert p.size == (p.tail - p.head) % QUEUE_MAX;
    forall k | 0 <= k < p.size ensures Terminated(p.slots[Place(p.head, k)].msg, 0) {
      PopSpares(r, msg, k);
    }
  }

  /** A pop takes the front off, whatever it does to the front's buffer. */
  lemma PopIsFifo(r: Ring, msg: seq<char>)
    requires WellFormed(r) && !Empty(r) && |msg| == QUEUE_MSG_SIZE
    ensures WellFormed(Pop(r, msg))
    ensures Contents(r) == [PacketOf(r.slots[r.head])] + Contents(Pop(r, msg))
  {
    PopWellFormed(r, msg);
    SizeDecides(r);
    HeadReadable(r);
    assert Place(r.head, 0) == r.head;
    hide WellFormed, Place, PacketOf;
    var p := Pop(r, msg);
    forall k | 0 <= k < p.size ensures Contents(p)[k] == Contents(r)[k + 1] {
      PopSpares(r, msg, k);
    }
  }

  /** The slot just behind head: the one the last pop freed. */
  function Behind(r: Ring): nat {
    (r.head + QUEUE_MAX - 1) % QUEUE_MAX
  }

  lemma PopFreesBehind(r: Ring, msg: seq<char>)
    requires WellFormed(r)
    ensures Behind(Pop(r, msg)) == r.head
  {}

  /** An append cannot touch the slot just freed: the one unused slot is that one. */
  lemma AppendSparesBehind(r: Ring, msg: string, from: Option<Addr>)
    requires WellFormed(r) && !Full(r)
    ensures Behind(Append(r, msg, from)) == Behind(r)
    ensures Append(r, msg, from).slots[Behind(r)] == r.slots[Behind(r)]
  {}
}
