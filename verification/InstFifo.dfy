/** The tensix instruction FIFO: a ring that keeps one slot empty. */
module InstFifo {
  import opened Link

  datatype Ring = Ring(buf: seq<nat>, rd: nat, wr: nat)

  predicate RingOk(r: Ring) {
    |r.buf| >= 2 && r.rd < |r.buf| && r.wr < |r.buf|
  }

  /** The queue that the ring stands for. */
  function Contents(r: Ring): seq<nat>
    requires RingOk(r)
  {
    if r.rd <= r.wr then r.buf[r.rd..r.wr] else r.buf[r.rd..] + r.buf[..r.wr]
  }

  function Next(i: nat, n: nat): (j: nat)
    requires i < n
    ensures j == if i + 1 == n then 0 else i + 1
  {
    (i + 1) % n
  }

  /** Store an instruction and advance the write pointer, before anyone looks whether there was room. */
  function Stored(r: Ring, inst: nat): (r': Ring)
    requires RingOk(r)
    ensures RingOk(r')
  {
    Ring(r.buf[r.wr := inst], r.rd, Next(r.wr, |r.buf|))
  }

  function Dropped(r: Ring): (r': Ring)
    requires RingOk(r)
    ensures RingOk(r')
  {
    r.(rd := Next(r.rd, |r.buf|))
  }

  /** Pointers that meet mean an empty queue, and the queue never holds more than all slots but one. */
  lemma MeetMeansEmpty(r: Ring)
    requires RingOk(r)
    ensures Contents(r) == [] <==> r.rd == r.wr
    ensures |Contents(r)| < |r.buf|
  {
  }

  /** Storing appends as long as there is room for one more; the pointers meet exactly if there was none. */
  lemma StoreAppends(r: Ring, inst: nat)
    requires RingOk(r)
    ensures Stored(r, inst).wr == r.rd <==> |Contents(r)| == |r.buf| - 1
    ensures |Contents(r)| < |r.buf| - 1 ==> Contents(Stored(r, inst)) == Contents(r) + [inst]
  {
    hide Next;
  }

  /** Dropping takes the head off. */
  lemma DropTakesHead(r: Ring)
    requires RingOk(r) && Contents(r) != []
    ensures Contents(r)[0] == r.buf[r.rd]
    ensures Contents(Dropped(r)) == Contents(r)[1..]
  {
    hide Next;
  }

  // ---------------------------------------------------------------------------
  // Whole runs against a bounded queue

  /** Some(x) pushes x, None pops if there is anything to pop. */
  type QueueOp = Option<nat>

  /** The run of the ring; None once a push has found it full, which ends the simulation. */
  function RingRun(r: Ring, ops: seq<QueueOp>): (r': Option<Ring>)
    requires RingOk(r)
    ensures r'.Some? ==> RingOk(r'.value) && |r'.value.buf| == |r.buf|
  {
    if ops == [] then Some(r)
    else
      match RingRun(r, ops[..|ops| - 1])
      case None => None
      case Some(q) =>
        match ops[|ops| - 1]
        case Some(inst) =>
          var q' := Stored(q, inst);
          if q'.wr == q'.rd then None else Some(q')
        case None => Some(if q.rd == q.wr then q else Dropped(q))
  }

  /** The same run of a queue that holds at most `capacity` instructions. */
  function QueueRun(q: seq<nat>, capacity: nat, ops: seq<QueueOp>): Option<seq<nat>> {
    if ops == [] then Some(q)
    else
      match QueueRun(q, capacity, ops[..|ops| - 1])
      case None => None
      case Some(q) =>
        match ops[|ops| - 1]
        case Some(inst) => if |q| == capacity then None else Some(q + [inst])
        case None => Some(if q == [] then q else q[1..])
  }

  /** The ring is a queue of one less than its size: they end, or overflow, together. */
  lemma {:induction false} RingIsBoundedQueue(r: Ring, ops: seq<QueueOp>)
    requires RingOk(r)
    ensures QueueRun(Contents(r), |r.buf| - 1, ops) ==
            match RingRun(r, ops) case None => None case Some(r') => Some(Contents(r'))
  {
    if ops == [] {
    } else {
      RingIsBoundedQueue(r, ops[..|ops| - 1]);
      match RingRun(r, ops[..|ops| - 1])
      case None =>
      case Some(q) =>
        hide Contents;
        MeetMeansEmpty(q);
        match ops[|ops| - 1]
        case Some(inst) => StoreAppends(q, inst);
        case None => if q.rd != q.wr { DropTakesHead(q); }
    }
  }
}
