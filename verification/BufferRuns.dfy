/** What holds of a buffer over every sequence of calls. */
module BufferRuns {
  import opened Buffers

  datatype Op =
    | Append(bs: seq<byte>)
    | ReadFd(r: ReadResult)
    | Retrieve(n: nat)
    | RetrieveAsString(n: nat)

  /** `readv` never returns more than its two segments hold; `retrieveAsString` asserts its argument. */
  ghost predicate Legal(v: View, op: Op)
    requires v.Ok()
  {
    match op
    case ReadFd(ReadBytes(bs)) => |bs| <= v.Writable() + EXTRA_SIZE
    case RetrieveAsString(n) => n <= |v.bytes|
    case _ => true
  }

  ghost function Apply(v: View, op: Op): (v': View)
    requires v.Ok() && Legal(v, op)
    ensures v'.Ok()
  {
    match op
    case Append(bs) => Appended(v, bs)
    case ReadFd(r) => Filled(v, r)
    case Retrieve(n) => Dropped(v, n)
    case RetrieveAsString(n) => Dropped(v, n)
  }

  ghost predicate LegalRun(v: View, ops: seq<Op>)
    requires v.Ok()
    decreases ops
  {
    ops == [] || (Legal(v, ops[0]) && LegalRun(Apply(v, ops[0]), ops[1..]))
  }

  ghost function Run(v: View, ops: seq<Op>): (v': View)
    requires v.Ok() && LegalRun(v, ops)
    ensures v'.Ok()
    decreases ops
  {
    if ops == [] then v else Run(Apply(v, ops[0]), ops[1..])
  }

  // The byte queue: bytes go in at the back, bytes come out at the front.

  ghost function In(op: Op): seq<byte> {
    match op
    case Append(bs) => bs
    case ReadFd(ReadBytes(bs)) => bs
    case _ => []
  }

  ghost function OutCount(op: Op, available: nat): nat {
    match op
    case Retrieve(n) => if n < available then n else available
    case RetrieveAsString(n) => if n < available then n else available
    case _ => 0
  }

  ghost function QueueStep(q: seq<byte>, op: Op): seq<byte> {
    (q + In(op))[OutCount(op, |q|)..]
  }

  ghost function QueueRun(q: seq<byte>, ops: seq<Op>): seq<byte>
    decreases ops
  {
    if ops == [] then q else QueueRun(QueueStep(q, ops[0]), ops[1..])
  }

  ghost function AllIn(ops: seq<Op>): seq<byte> {
    if ops == [] then [] else In(ops[0]) + AllIn(ops[1..])
  }

  ghost function AllOut(q: seq<byte>, ops: seq<Op>): seq<byte>
    decreases ops
  {
    if ops == [] then []
    else q[..OutCount(ops[0], |q|)] + AllOut(QueueStep(q, ops[0]), ops[1..])
  }

  lemma {:induction false} StepIsQueueStep(v: View, op: Op)
    requires v.Ok() && Legal(v, op)
    ensures Apply(v, op).bytes == QueueStep(v.bytes, op)
  {
    if op.ReadFd? && op.r.ReadBytes? && v.Writable() < |op.r.bytes| {
      var room := v.Writable();
      assert v.bytes + op.r.bytes[..room] + op.r.bytes[room..] == v.bytes + op.r.bytes;
    }
  }

  /** The buffer refines a byte queue through resizing, compaction and the spill segment. */
  lemma {:induction false} BufferIsQueue(v: View, ops: seq<Op>)
    requires v.Ok() && LegalRun(v, ops)
    ensures Run(v, ops).bytes == QueueRun(v.bytes, ops)
    decreases ops
  {
    if ops != [] {
      StepIsQueueStep(v, ops[0]);
      BufferIsQueue(Apply(v, ops[0]), ops[1..]);
    }
  }

  /** Every byte put in is either taken out, in order, or still readable, in order. */
  lemma {:induction false} BytesConserved(v: View, ops: seq<Op>)
    requires v.Ok() && LegalRun(v, ops)
    ensures v.bytes + AllIn(ops) == AllOut(v.bytes, ops) + Run(v, ops).bytes
    decreases ops
  {
    if ops != [] {
      var op, rest := ops[0], ops[1..];
      StepIsQueueStep(v, op);
      var next := Apply(v, op);
      BytesConserved(next, rest);
      var out := v.bytes[..OutCount(op, |v.bytes|)];
      assert v.bytes + In(op) == out + next.bytes;
      Regroup(v.bytes, In(op), AllIn(rest), out, next.bytes, AllOut(next.bytes, rest), Run(next, rest).bytes);
    }
  }

  lemma Regroup(q: seq<byte>, i: seq<byte>, ins: seq<byte>,
                o: seq<byte>, q': seq<byte>, outs: seq<byte>, last: seq<byte>)
    requires q + i == o + q' && q' + ins == outs + last
    ensures q + (i + ins) == (o + outs) + last
  {
    assert q + (i + ins) == (q + i) + ins;
    assert (o + q') + ins == o + (q' + ins);
    assert o + (outs + last) == (o + outs) + last;
  }

  // Capacity.

  ghost function Max(a: int, b: int): int {
    if a < b then b else a
  }

  /** The largest readable size among the states a run visits. */
  ghost function Peak(v: View, ops: seq<Op>): nat
    requires v.Ok() && LegalRun(v, ops)
    decreases ops
  {
    if ops == [] then |v.bytes| else Max(|v.bytes|, Peak(Apply(v, ops[0]), ops[1..]))
  }

  lemma StepCapacity(v: View, op: Op)
    requires v.Ok() && Legal(v, op)
    ensures v.size <= Apply(v, op).size <= Max(v.size, 2 * |Apply(v, op).bytes| + PREPEND - 1)
  {
  }

  /** The vector never shrinks, and never outgrows twice the peak backlog by more than 7 bytes. */
  lemma {:induction false} CapacityBound(v: View, ops: seq<Op>)
    requires v.Ok() && LegalRun(v, ops)
    ensures v.size <= Run(v, ops).size <= Max(v.size, 2 * Peak(v, ops) + PREPEND - 1)
    decreases ops
  {
    if ops != [] {
      StepCapacity(v, ops[0]);
      CapacityBound(Apply(v, ops[0]), ops[1..]);
      assert |Apply(v, ops[0]).bytes| <= Peak(Apply(v, ops[0]), ops[1..]);
    }
  }

  /** The bound is reached: a minimal vector, one byte appended. */
  lemma {:induction false} CapacityBoundIsReached(b: byte)
    ensures
      var v := View(PREPEND, PREPEND, []);
      var ops := [Append([b])];
      LegalRun(v, ops) && Run(v, ops).size == 2 * Peak(v, ops) + PREPEND - 1
  {
    var v, op := View(PREPEND, PREPEND, []), Append([b]);
    assert [op][1..] == [];
    assert LegalRun(Apply(v, op), []);
  }
}
