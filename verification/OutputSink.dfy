/** The bounded output sink of a worker: one write, a vectored write, shutdown, and what `finish` means after
    any sequence of them (src/wasix_output.rs). */
module OutputSink {
  import opened Bytes
  import opened Wrappers

  datatype OutputState = OutputState(bytes: Bytes, limit: nat, overflowed: bool, closed: bool)

  datatype WriteOutcome = Accepted(count: nat) | BrokenPipe | LimitExceeded

  datatype Op = Write(buffer: Bytes) | WriteVectored(buffers: seq<Bytes>) | Shutdown

  function Fresh(limit: nat): (s: OutputState)
  {
    OutputState([], limit, false, false)
  }

  /** What a write of `buffer` does, and what it reports. */
  function DoWrite(s: OutputState, buffer: Bytes): (r: (OutputState, WriteOutcome))
  {
    if buffer == [] then (s, Accepted(0))
    else if s.closed then (s, BrokenPipe)
    else if s.overflowed then (s, LimitExceeded)
    else if |s.bytes| + |buffer| > s.limit then (s.(overflowed := true), LimitExceeded)
    else (s.(bytes := s.bytes + buffer), Accepted(|buffer|))
  }

  /** A vectored write is one write of the concatenation, unless its total length does not fit `usize`. */
  function Apply(s: OutputState, op: Op): (r: (OutputState, WriteOutcome))
  {
    match op
    case Write(buffer) => DoWrite(s, buffer)
    case WriteVectored(buffers) =>
      if |Concat(buffers)| > USIZE_MAX then (s.(overflowed := true), LimitExceeded) else DoWrite(s, Concat(buffers))
    case Shutdown => (s.(closed := true), Accepted(0))
  }

  function Finished(s: OutputState): (r: Option<Bytes>)
  {
    if s.overflowed then None else Some(s.bytes)
  }

  class BoundedWasixOutput {
    var bytes: Bytes
    const limit: nat
    var overflowed: bool
    var closed: bool

    ghost function State(): (s: OutputState)
      reads this
    {
      OutputState(bytes, limit, overflowed, closed)
    }

    ghost predicate Valid()
      reads this
    {
      |bytes| <= limit <= USIZE_MAX
    }

    constructor (limit: nat)
      requires limit <= USIZE_MAX
      ensures Valid() && State() == Fresh(limit)
    {
      this.limit := limit;
      bytes, overflowed, closed := [], false, false;
    }

    method PollWrite(buffer: Bytes) returns (outcome: WriteOutcome)
      requires Valid()
      modifies this
      ensures Valid() && (State(), outcome) == Apply(old(State()), Write(buffer))
    {
      if buffer == [] { return Accepted(0); }
      if closed { return BrokenPipe; }
      if overflowed { return LimitExceeded; }
      if |bytes| + |buffer| > USIZE_MAX {
        overflowed := true;
        return LimitExceeded;
      }
      if |bytes| + |buffer| > limit {
        overflowed := true;
        return LimitExceeded;
      }
      bytes := bytes + buffer;
      outcome := Accepted(|buffer|);
    }

    /** `try_fold(checked_add)` over the buffer lengths. */
    static method SumLengths(buffers: seq<Bytes>) returns (total: Option<nat>)
      ensures total == if |Concat(buffers)| <= USIZE_MAX then Some(|Concat(buffers)|) else None
    {
      var sum := 0;
      for i := 0 to |buffers|
        invariant sum == |Concat(buffers[..i])| && sum <= USIZE_MAX
      {
        assert buffers[..i + 1] == buffers[..i] + [buffers[i]] && buffers == buffers[..i + 1] + buffers[i + 1..];
        ConcatSnoc(buffers[..i], buffers[i]);
        ConcatAppend(buffers[..i + 1], buffers[i + 1..]);
        sum := sum + |buffers[i]|;
        if sum > USIZE_MAX { return None; }
      }
      assert buffers[..|buffers|] == buffers;
      total := Some(sum);
    }

    method PollWriteVectored(buffers: seq<Bytes>) returns (outcome: WriteOutcome)
      requires Valid()
      modifies this
      ensures Valid() && (State(), outcome) == Apply(old(State()), WriteVectored(buffers))
    {
      var total := SumLengths(buffers);
      if total.None? {
        overflowed := true;
        return LimitExceeded;
      }
      var writeLen := total.value;
      if writeLen == 0 { return Accepted(0); }
      if closed { return BrokenPipe; }
      if overflowed { return LimitExceeded; }
      if |bytes| + writeLen > USIZE_MAX {
        overflowed := true;
        return LimitExceeded;
      }
      if |bytes| + writeLen > limit {
        overflowed := true;
        return LimitExceeded;
      }
      for i := 0 to |buffers|
        invariant bytes == old(bytes) + Concat(buffers[..i])
        invariant overflowed == old(overflowed) && closed == old(closed)
      {
        assert buffers[..i + 1] == buffers[..i] + [buffers[i]];
        ConcatSnoc(buffers[..i], buffers[i]);
        bytes := bytes + buffers[i];
      }
      assert buffers[..|buffers|] == buffers;
      outcome := Accepted(writeLen);
    }

    method PollShutdown()
      requires Valid()
      modifies this`closed
      ensures Valid() && State() == Apply(old(State()), Shutdown).0
    {
      closed := true;
    }

    /** The room left: the subtraction never underflows. */
    method PollWriteReady() returns (r: Result<nat, WriteOutcome>)
      requires Valid()
      ensures r == if closed then Err(BrokenPipe) else if overflowed then Err(LimitExceeded) else Ok(limit - |bytes|)
      ensures r.Ok? ==> forall b :: DoWrite(State(), b).1 == Accepted(|b|) <==> |b| <= r.value
    {
      if closed { return Err(BrokenPipe); }
      if overflowed { return Err(LimitExceeded); }
      r := Ok(limit - |bytes|);
    }

    method Finish() returns (r: Option<Bytes>)
      ensures r == Finished(State())
    {
      if overflowed { return None; }
      r := Some(bytes);
    }
  }

  // ---------------------------------------------------------------- any sequence of operations

  function Replay(limit: nat, ops: seq<Op>): (s: OutputState)
  {
    if ops == [] then Fresh(limit) else Apply(Replay(limit, ops[..|ops| - 1]), ops[|ops| - 1]).0
  }

  function Payload(op: Op): (b: Bytes)
  {
    match op
    case Write(buffer) => buffer
    case WriteVectored(buffers) => Concat(buffers)
    case Shutdown => []
  }

  /** Everything offered to the sink before it was first shut down. */
  function Offered(ops: seq<Op>): (b: Bytes)
  {
    if ops == [] || ops[0].Shutdown? then [] else Payload(ops[0]) + Offered(ops[1..])
  }

  predicate Oversized(op: Op)
  {
    op.WriteVectored? && |Concat(op.buffers)| > USIZE_MAX
  }

  lemma {:induction false} OfferedSnoc(ops: seq<Op>, op: Op)
    ensures Offered(ops + [op]) == if Shutdown in ops then Offered(ops) else Offered(ops) + Payload(op)
  {
    if ops == [] {
      assert (ops + [op])[1..] == [];
    } else if !ops[0].Shutdown? {
      OfferedSnoc(ops[1..], op);
      assert (ops + [op])[1..] == ops[1..] + [op];
      assert Shutdown in ops <==> Shutdown in ops[1..];
    }
  }

  ghost predicate Reached(limit: nat, ops: seq<Op>, s: OutputState)
  {
    && s.limit == limit
    && (s.closed <==> Shutdown in ops)
    && (s.overflowed <==> |Offered(ops)| > limit || exists i :: 0 <= i < |ops| && Oversized(ops[i]))
    && (!s.overflowed ==> s.bytes == Offered(ops))
  }

  lemma ReachedStep(limit: nat, ops: seq<Op>, s: OutputState, op: Op)
    requires limit <= USIZE_MAX && Reached(limit, ops, s)
    ensures Reached(limit, ops + [op], Apply(s, op).0)
  {
    OfferedSnoc(ops, op);
    var all := ops + [op];
    assert forall i :: 0 <= i < |ops| ==> all[i] == ops[i];
    assert all[|ops|] == op;
    assert (exists i :: 0 <= i < |all| && Oversized(all[i])) <==>
      (exists i :: 0 <= i < |ops| && Oversized(ops[i])) || Oversized(op);
  }

  lemma {:induction false} ReplayReached(limit: nat, ops: seq<Op>)
    requires limit <= USIZE_MAX
    ensures Reached(limit, ops, Replay(limit, ops))
  {
    if ops != [] {
      var init := ops[..|ops| - 1];
      ReplayReached(limit, init);
      ReachedStep(limit, init, Replay(limit, init), ops[|ops| - 1]);
      assert init + [ops[|ops| - 1]] == ops;
    }
  }

  /** After any sequence of writes and shutdowns, `finish` succeeds exactly when everything offered before the first
      shutdown fits the limit and no vectored write overflowed `usize`, and then it returns all of it: however the
      output was cut into writes, no accepted byte is lost and no partial output passes as complete. */
  lemma FinishExact(limit: nat, ops: seq<Op>, b: Bytes)
    requires limit <= USIZE_MAX
    ensures Finished(Replay(limit, ops)) == Some(b) <==>
      b == Offered(ops) && |b| <= limit && forall i :: 0 <= i < |ops| ==> !Oversized(ops[i])
  {
    ReplayReached(limit, ops);
  }

  predicate Overflows(limit: nat, ops: seq<Op>)
  {
    |Offered(ops)| > limit || exists i :: 0 <= i < |ops| && Oversized(ops[i])
  }

  /** What every write reports after any sequence of operations: it is taken whole if the sink is open and everything
      offered still fits, refused as broken after a shutdown, and otherwise refused for the limit.  An empty write is
      always taken. */
  lemma WriteReports(limit: nat, ops: seq<Op>, op: Op)
    requires limit <= USIZE_MAX && !op.Shutdown?
    ensures var outcome, b := Apply(Replay(limit, ops), op).1, Payload(op);
      && (outcome.Accepted? <==> b == [] || (Shutdown !in ops && !Overflows(limit, ops + [op])))
      && (outcome.Accepted? ==> outcome.count == |b|)
      && (outcome == BrokenPipe <==> b != [] && Shutdown in ops && !Oversized(op))
  {
    ReplayReached(limit, ops);
    ReachedStep(limit, ops, Replay(limit, ops), op);
    OfferedSnoc(ops, op);
    assert op in ops + [op];
  }
}
