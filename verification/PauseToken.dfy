/** Pausing an invocation: the paused time the token reports, the deadline computed from it, and eviction
    (src/types.rs, src/runtime.rs). */
module PauseToken {
  import opened Wrappers

  /** `Duration::MAX` in nanoseconds. */
  const DURATION_MAX: nat := 0x1_0000_0000_0000_0000 * 1_000_000_000 - 1

  function SaturatingAdd(a: nat, b: nat): (r: nat)
  {
    if a + b > DURATION_MAX then DURATION_MAX else a + b
  }

  function SaturatingSub(a: nat, b: nat): (r: nat)
  {
    if a < b then 0 else a - b
  }

  datatype TokenState = TokenState(paused: bool, resident: bool, evicted: bool, completed: nat, pausedAt: Option<nat>)

  const UNPAUSED: TokenState := TokenState(false, false, false, 0, None)

  /** The critical sections of the token.  `Resume` is the part of `resume` under the timing lock: its caller looked at
      `evicted` at some earlier moment.  `Reside` is the store at the end of `mark_resident`, likewise.  `Cancel` is a
      cancellation from outside and `Elapse` one instant of time; neither touches the token. */
  datatype Op = Pause | Resume | Reside | Evict | Cancel | Elapse

  function Apply(t: TokenState, now: nat, op: Op): (r: TokenState)
  {
    match op
    case Pause => if t.paused then t else t.(paused := true, resident := false, pausedAt := Some(now))
    case Resume =>
      if !t.paused then t
      else
        var paused := if t.pausedAt.Some? then SaturatingSub(now, t.pausedAt.value) else 0;
        var completed := if t.pausedAt.Some? then SaturatingAdd(t.completed, paused) else t.completed;
        t.(paused := false, resident := false, completed := completed, pausedAt := None)
    case Reside => t.(resident := true)
    case Evict => t.(evicted := true, resident := false)
    case Cancel => t
    case Elapse => t
  }

  function TotalPaused(t: TokenState, now: nat): (r: nat)
  {
    SaturatingAdd(t.completed, if t.pausedAt.Some? then SaturatingSub(now, t.pausedAt.value) else 0)
  }

  /** The invocation's cancellation signal. */
  class CancellationToken {
    var cancelled: bool

    constructor ()
      ensures !cancelled
    {
      cancelled := false;
    }

    method Signal()
      modifies this
      ensures cancelled
    {
      cancelled := true;
    }
  }

  class Token {
    var paused: bool
    var resident: bool
    var evicted: bool
    var completed: nat
    var pausedAt: Option<nat>

    ghost function State(): (t: TokenState)
      reads this
    {
      TokenState(paused, resident, evicted, completed, pausedAt)
    }

    constructor ()
      ensures State() == UNPAUSED
    {
      paused, resident, evicted, completed, pausedAt := false, false, false, 0, None;
    }

    method RequestPause(now: nat)
      modifies this
      ensures State() == Apply(old(State()), now, Pause)
    {
      var was := paused;
      paused := true;
      if !was {
        resident := false;
        pausedAt := Some(now);
      }
    }

    /** `resume`, with nobody in between its look at `evicted` and the lock. */
    method RequestResume(now: nat) returns (ok: bool)
      modifies this
      ensures ok <==> !old(evicted)
      ensures State() == if ok then Apply(old(State()), now, Resume) else old(State())
    {
      if evicted { return false; }
      var was := paused;
      paused := false;
      if was {
        resident := false;
        if pausedAt.Some? {
          completed := SaturatingAdd(completed, SaturatingSub(now, pausedAt.value));
          pausedAt := None;
        }
      }
      ok := true;
    }

    method MarkResident()
      modifies this
      ensures State() == if old(paused) && !old(evicted) then Apply(old(State()), 0, Reside) else old(State())
    {
      if paused && !evicted { resident := true; }
    }

    method ReadTotalPaused(now: nat) returns (total: nat)
      ensures total == TotalPaused(State(), now)
    {
      total := SaturatingAdd(completed, if pausedAt.Some? then SaturatingSub(now, pausedAt.value) else 0);
    }

    /** `evict`: the invocation is also cancelled. */
    method DoEvict(cancellation: CancellationToken)
      modifies this, cancellation
      ensures State() == Apply(old(State()), 0, Evict) && cancellation.cancelled
    {
      evicted := true;
      resident := false;
      cancellation.Signal();
    }
  }

  // ---------------------------------------------------------------- whole schedules

  /** The token, the cancellation signal, the clock, and for every instant that has passed whether the token was paused
      then. */
  datatype World = World(token: TokenState, cancelled: bool, now: nat, log: seq<bool>)

  function Step(w: World, op: Op): (r: World)
  {
    if op.Elapse? then w.(now := w.now + 1, log := w.log + [w.token.paused])
    else w.(token := Apply(w.token, w.now, op), cancelled := w.cancelled || op.Evict? || op.Cancel?)
  }

  function Schedule(ops: seq<Op>): (w: World)
  {
    if ops == [] then World(UNPAUSED, false, 0, []) else Step(Schedule(ops[..|ops| - 1]), ops[|ops| - 1])
  }

  /** How many of these instants were paused. */
  function Paused(log: seq<bool>): (n: nat)
    ensures n <= |log|
  {
    if log == [] then 0 else Paused(log[..|log| - 1]) + (if log[|log| - 1] then 1 else 0)
  }

  function Unpaused(log: seq<bool>): (n: nat)
  {
    |log| - Paused(log)
  }

  lemma {:induction false} PausedAppend(a: seq<bool>, b: seq<bool>)
    ensures Paused(a + b) == Paused(a) + Paused(b)
  {
    if b == [] {
      assert a + b == a;
    } else {
      var init := b[..|b| - 1];
      PausedAppend(a, init);
      assert (a + b)[..|a + b| - 1] == a + init;
    }
  }

  ghost predicate Inv(w: World)
  {
    && |w.log| == w.now
    && (w.token.paused <==> w.token.pausedAt.Some?)
    && (w.token.pausedAt.Some? ==> w.token.pausedAt.value <= w.now)
    && w.token.completed + (if w.token.pausedAt.Some? then w.now - w.token.pausedAt.value else 0) == Paused(w.log)
  }

  lemma InvStep(w: World, op: Op)
    requires Inv(w) && w.now < DURATION_MAX
    ensures Inv(Step(w, op))
  {
    if op.Elapse? {
      PausedAppend(w.log, [w.token.paused]);
      assert Paused([w.token.paused]) == if w.token.paused then 1 else 0 by {
        assert [w.token.paused][..0] == [];
      }
    }
  }

  lemma {:induction false} ScheduleClock(ops: seq<Op>)
    ensures Schedule(ops).now <= |ops|
  {
    if ops != [] { ScheduleClock(ops[..|ops| - 1]); }
  }

  lemma {:induction false} ScheduleInv(ops: seq<Op>)
    requires |ops| <= DURATION_MAX
    ensures Inv(Schedule(ops))
  {
    if ops != [] {
      ScheduleInv(ops[..|ops| - 1]);
      ScheduleClock(ops[..|ops| - 1]);
      InvStep(Schedule(ops[..|ops| - 1]), ops[|ops| - 1]);
    }
  }

  /** Over every schedule the token reports exactly the number of instants at which it was paused, and its flag and
      its start time agree. */
  lemma TotalPausedExact(ops: seq<Op>)
    requires |ops| <= DURATION_MAX
    ensures var w := Schedule(ops);
      TotalPaused(w.token, w.now) == Paused(w.log) && (w.token.paused <==> w.token.pausedAt.Some?)
  {
    ScheduleInv(ops);
    ScheduleClock(ops);
  }

  lemma {:induction false} ScheduleExtends(ops: seq<Op>, n: nat)
    requires n <= |ops|
    ensures Schedule(ops[..n]).log <= Schedule(ops).log
    decreases |ops| - n
  {
    if n < |ops| {
      ScheduleExtends(ops, n + 1);
      assert ops[..n + 1][..n] == ops[..n];
    } else {
      assert ops[..n] == ops;
    }
  }

  lemma LogGrowth(a: seq<bool>, b: seq<bool>)
    requires a <= b
    ensures 0 <= Paused(b) - Paused(a) <= |b| - |a|
  {
    assert b == a + b[|a|..];
    PausedAppend(a, b[|a|..]);
  }

  /** What the token reports, and when, in terms of the log. */
  lemma Reported(ops: seq<Op>)
    requires |ops| <= DURATION_MAX
    ensures var w := Schedule(ops); TotalPaused(w.token, w.now) == Paused(w.log) && w.now == |w.log|
  {
    ScheduleInv(ops);
    TotalPausedExact(ops);
  }

  /** The reported time never decreases and grows no faster than the clock. */
  lemma TotalPausedGrowth(ops: seq<Op>, n: nat)
    requires n <= |ops| <= DURATION_MAX
    ensures var v, w := Schedule(ops[..n]), Schedule(ops);
      v.now <= w.now && 0 <= TotalPaused(w.token, w.now) - TotalPaused(v.token, v.now) <= w.now - v.now
  {
    Reported(ops[..n]);
    Reported(ops);
    ScheduleExtends(ops, n);
    LogGrowth(Schedule(ops[..n]).log, Schedule(ops).log);
  }

  // ---------------------------------------------------------------- what the runtime does with the token

  datatype InvocationState = Running | PauseRequested | PausedResident | Evicted | Finished

  /** `RunningCommand::state`. */
  function Observe(t: TokenState, taskFinished: bool): (s: InvocationState)
  {
    if t.evicted then Evicted
    else if taskFinished then Finished
    else if t.resident then PausedResident
    else if t.paused then PauseRequested
    else Running
  }

  datatype ExecutionError = IdleEvicted | Timeout | Cancelled | Trapped

  /** `map_execution_error`. */
  function MapExecutionError(evicted: bool, timedOut: bool, cancelled: bool): (e: ExecutionError)
  {
    if evicted then IdleEvicted else if timedOut then Timeout else if cancelled then Cancelled else Trapped
  }

  datatype Decision = Interrupt | InterruptTimedOut | YieldUntilResumed | Yield

  /** The epoch callback of `invoke`. */
  function OnEpoch(t: TokenState, cancelled: bool, active: nat, timeout: nat): (d: Decision)
  {
    if t.evicted || cancelled then Interrupt
    else if active >= timeout then InterruptTimedOut
    else if t.paused then YieldUntilResumed
    else Yield
  }

  datatype Control = Done | RefusedEvicted | RefusedFinished

  /** `RunningCommand::pause`. */
  function PauseCommand(s: InvocationState): (c: Control)
  {
    match s
    case Evicted => RefusedEvicted
    case Finished => RefusedFinished
    case _ => Done
  }

  /** `RunningCommand::resume`; `resumed` is the answer of the token, asked only while a pause is pending. */
  function ResumeCommand(s: InvocationState, resumed: bool): (c: Control)
  {
    match s
    case Running => Done
    case PauseRequested => if resumed then Done else RefusedEvicted
    case PausedResident => if resumed then Done else RefusedEvicted
    case Evicted => RefusedEvicted
    case Finished => RefusedFinished
  }

  // ---------------------------------------------------------------- the deadline

  /** The readings behind the callback's decision, each as the number of operations before it: the clock at
      `invocation_started`, the baseline of paused time, the paused time in the callback, the clock in the callback, and
      the flags of the token and of the cancellation signal. */
  datatype Readings = Readings(started: nat, baseline: nat, suspended: nat, elapsed: nat, flags: nat)

  predicate Ordered(r: Readings, ops: seq<Op>)
  {
    r.started <= r.baseline <= r.suspended <= r.elapsed <= r.flags <= |ops| <= DURATION_MAX
  }

  function ClockAt(ops: seq<Op>, n: nat): (t: nat)
    requires n <= |ops|
  {
    Schedule(ops[..n]).now
  }

  /** What `total_paused` returns after the first `n` operations. */
  function TotalAt(ops: seq<Op>, n: nat): (t: nat)
    requires n <= |ops|
  {
    TotalPaused(Schedule(ops[..n]).token, ClockAt(ops, n))
  }

  /** The active time the callback compares with the timeout. */
  function Active(ops: seq<Op>, r: Readings): (active: nat)
    requires Ordered(r, ops)
  {
    SaturatingSub(SaturatingSub(ClockAt(ops, r.elapsed), ClockAt(ops, r.started)),
                  SaturatingSub(TotalAt(ops, r.suspended), TotalAt(ops, r.baseline)))
  }

  /** What the callback decides after its readings. */
  function Decides(ops: seq<Op>, r: Readings, timeout: nat): (d: Decision)
    requires Ordered(r, ops)
  {
    var w := Schedule(ops[..r.flags]);
    OnEpoch(w.token, w.cancelled, Active(ops, r), timeout)
  }

  lemma {:induction false} ScheduleLog(ops: seq<Op>)
    ensures |Schedule(ops).log| == Schedule(ops).now
  {
    if ops != [] { ScheduleLog(ops[..|ops| - 1]); }
  }

  /** The clock counts the instants logged so far. */
  lemma {:induction false} LogAt(ops: seq<Op>, n: nat)
    requires n <= |ops|
    ensures |Schedule(ops[..n]).log| == ClockAt(ops, n) <= |Schedule(ops).log|
    ensures Schedule(ops[..n]).log == Schedule(ops).log[..ClockAt(ops, n)]
  {
    ScheduleLog(ops[..n]);
    ScheduleExtends(ops, n);
  }

  lemma LogOrder(ops: seq<Op>, m: nat, n: nat)
    requires m <= n <= |ops|
    ensures ClockAt(ops, m) <= ClockAt(ops, n)
  {
    assert ops[..n][..m] == ops[..m];
    ScheduleExtends(ops[..n], m);
    ScheduleLog(ops[..m]);
    ScheduleLog(ops[..n]);
  }

  /** Whether the token was paused, for every instant between two points of the schedule. */
  function Between(ops: seq<Op>, m: nat, n: nat): (log: seq<bool>)
    requires m <= n <= |ops|
    ensures |log| == ClockAt(ops, n) - ClockAt(ops, m)
  {
    LogAt(ops, m);
    LogAt(ops, n);
    LogOrder(ops, m, n);
    Schedule(ops).log[ClockAt(ops, m)..ClockAt(ops, n)]
  }

  /** Paused instants that fall between two readings that should have been one. */
  function Unseen(ops: seq<Op>, r: Readings): (n: nat)
    requires Ordered(r, ops)
  {
    Paused(Between(ops, r.started, r.baseline)) + Paused(Between(ops, r.suspended, r.elapsed))
  }

  lemma PausedSlice(log: seq<bool>, i: nat, j: nat)
    requires i <= j <= |log|
    ensures Paused(log[..j]) == Paused(log[..i]) + Paused(log[i..j])
  {
    assert log[..j] == log[..i] + log[i..j];
    PausedAppend(log[..i], log[i..j]);
  }

  /** Between two readings of the paused time lie exactly the paused instants between them. */
  lemma TotalBetween(ops: seq<Op>, m: nat, n: nat)
    requires m <= n <= |ops| <= DURATION_MAX
    ensures TotalAt(ops, n) == TotalAt(ops, m) + Paused(Between(ops, m, n))
  {
    Reported(ops[..m]);
    Reported(ops[..n]);
    LogAt(ops, m);
    LogAt(ops, n);
    LogOrder(ops, m, n);
    PausedSlice(Schedule(ops).log, ClockAt(ops, m), ClockAt(ops, n));
  }

  lemma BetweenJoins(ops: seq<Op>, l: nat, m: nat, n: nat)
    requires l <= m <= n <= |ops|
    ensures Between(ops, l, n) == Between(ops, l, m) + Between(ops, m, n)
  {
    LogAt(ops, n);
    LogOrder(ops, l, m);
    LogOrder(ops, m, n);
  }

  /** The active time is the unpaused time since the start plus the paused instants the readings miss. */
  lemma ActiveExact(ops: seq<Op>, r: Readings)
    requires Ordered(r, ops)
    ensures Active(ops, r) == Unpaused(Between(ops, r.started, r.elapsed)) + Unseen(ops, r)
  {
    var a, b := Between(ops, r.started, r.baseline), Between(ops, r.baseline, r.suspended);
    var c := Between(ops, r.suspended, r.elapsed);
    TotalBetween(ops, r.baseline, r.suspended);
    BetweenJoins(ops, r.baseline, r.suspended, r.elapsed);
    BetweenJoins(ops, r.started, r.baseline, r.elapsed);
    PausedAppend(b, c);
    PausedAppend(a, b + c);
  }

  /** A timeout is never missed: once the unpaused time has reached the limit, the guest is interrupted. */
  lemma TimeoutNotMissed(ops: seq<Op>, r: Readings, timeout: nat)
    requires Ordered(r, ops) && Unpaused(Between(ops, r.started, r.elapsed)) >= timeout
    ensures Decides(ops, r, timeout).Interrupt? || Decides(ops, r, timeout).InterruptTimedOut?
  {
    ActiveExact(ops, r);
  }

  /** A timeout fires only once the unpaused time has reached the limit, for every limit, if and only if the token was
      not paused between the paired readings, or no timeout can fire any more. */
  lemma TimeoutSoundIff(ops: seq<Op>, r: Readings)
    requires Ordered(r, ops)
    ensures
      (forall timeout: nat :: Decides(ops, r, timeout).InterruptTimedOut? ==>
         Unpaused(Between(ops, r.started, r.elapsed)) >= timeout) <==>
      var w := Schedule(ops[..r.flags]); Unseen(ops, r) == 0 || w.token.evicted || w.cancelled
  {
    ActiveExact(ops, r);
    var w := Schedule(ops[..r.flags]);
    if Unseen(ops, r) > 0 && !w.token.evicted && !w.cancelled {
      assert Decides(ops, r, Active(ops, r)).InterruptTimedOut?;
    }
  }

  /** A pause between the start and the baseline is counted as active time. */
  lemma TimeoutCanFireEarly()
    ensures var ops, r := [Pause, Elapse], Readings(0, 2, 2, 2, 2);
      Ordered(r, ops) && Decides(ops, r, 1).InterruptTimedOut? && Unpaused(Between(ops, 0, 2)) == 0
  {
    var ops := [Pause, Elapse];
    assert ops[..2] == ops && ops[..1] == [Pause] && ops[..0] == [] && [Pause][..0] == [];
    assert Schedule([Pause]) == Step(Schedule([]), Pause);
    assert Schedule(ops) == Step(Schedule([Pause]), Elapse);
    assert Between(ops, 0, 2) == [true] && [true][..0] == [];
    assert Paused([true]) == Paused([true][..0]) + 1;
  }

  // ---------------------------------------------------------------- eviction is final

  /** Nothing undoes an eviction or a cancellation, and nothing else causes one. */
  lemma {:induction false} EvictionIsFinal(ops: seq<Op>)
    ensures Schedule(ops).token.evicted <==> Evict in ops
    ensures Schedule(ops).cancelled <==> Evict in ops || Cancel in ops
  {
    if ops != [] {
      var init := ops[..|ops| - 1];
      EvictionIsFinal(init);
      assert ops == init + [ops[|ops| - 1]];
    }
  }

  /** The last of the pauses and resumptions is a pause. */
  ghost predicate PausePending(ops: seq<Op>)
  {
    exists i :: 0 <= i < |ops| && ops[i] == Pause && Resume !in ops[i..]
  }

  lemma PendingNext(ops: seq<Op>, op: Op)
    ensures PausePending(ops + [op]) <==> op == Pause || (PausePending(ops) && op != Resume)
  {
    var all := ops + [op];
    assert all[|ops|..] == [op];
    if PausePending(ops) && op != Resume {
      var i :| 0 <= i < |ops| && ops[i] == Pause && Resume !in ops[i..];
      assert all[i..] == ops[i..] + [op] && all[i] == Pause;
    }
    if PausePending(all) {
      var i :| 0 <= i < |all| && all[i] == Pause && Resume !in all[i..];
      if i < |ops| { assert all[i..] == ops[i..] + [op] && ops[i] == Pause; }
    }
  }

  lemma {:induction false} PausedIff(ops: seq<Op>)
    ensures Schedule(ops).token.paused <==> PausePending(ops)
  {
    if ops != [] {
      var init, last := ops[..|ops| - 1], ops[|ops| - 1];
      PausedIff(init);
      PendingNext(init, last);
      assert ops == init + [last];
    }
  }

  /** The guest is resident: it was marked so, and since then it was not evicted and no pause began or ended. */
  ghost predicate ResidentSince(ops: seq<Op>, i: nat)
  {
    && i < |ops| && ops[i] == Reside
    && forall j :: i < j < |ops| ==>
         ops[j] != Evict && (PausePending(ops[..j]) <==> PausePending(ops[..j + 1]))
  }

  ghost predicate MarkedResident(ops: seq<Op>)
  {
    exists i: nat :: ResidentSince(ops, i)
  }

  /** Earlier moments of a longer schedule. */
  lemma SameResidence(ops: seq<Op>, op: Op, i: nat)
    requires i < |ops|
    ensures ResidentSince(ops + [op], i) <==>
      ResidentSince(ops, i) && op != Evict && (PausePending(ops) <==> PausePending(ops + [op]))
  {
    var all, n := ops + [op], |ops|;
    assert all[..n] == ops && all[..n + 1] == all && all[n] == op;
    assert forall j :: 0 <= j <= n ==> all[..j] == ops[..j];
  }

  lemma ResidentNext(ops: seq<Op>, op: Op)
    ensures MarkedResident(ops + [op]) <==>
      || op == Reside
      || (MarkedResident(ops) && op != Evict && (PausePending(ops) <==> PausePending(ops + [op])))
  {
    var all, n := ops + [op], |ops|;
    assert ResidentSince(all, n) <==> op == Reside;
    if MarkedResident(ops) {
      var i: nat :| ResidentSince(ops, i);
      SameResidence(ops, op, i);
    }
    if MarkedResident(all) && op != Reside {
      var i: nat :| ResidentSince(all, i);
      SameResidence(ops, op, i);
    }
  }

  lemma {:induction false} ResidentIff(ops: seq<Op>)
    ensures Schedule(ops).token.resident <==> MarkedResident(ops)
  {
    if ops != [] {
      var init, last := ops[..|ops| - 1], ops[|ops| - 1];
      ResidentIff(init);
      ResidentNext(init, last);
      PausedIff(init);
      PausedIff(ops);
      assert ops == init + [last];
    }
  }

  /** What the callback answers after every schedule: it interrupts exactly after an eviction or a cancellation, times
      out exactly when the unpaused time with what the readings miss has reached the limit, holds the guest exactly
      while a pause is pending, and otherwise lets it go on. */
  lemma CallbackDecides(ops: seq<Op>, r: Readings, timeout: nat)
    requires Ordered(r, ops)
    ensures var seen, d := ops[..r.flags], Decides(ops, r, timeout);
      var stopped := Evict in seen || Cancel in seen;
      var late := Unpaused(Between(ops, r.started, r.elapsed)) + Unseen(ops, r) >= timeout;
      && (d == Interrupt <==> stopped)
      && (d == InterruptTimedOut <==> !stopped && late)
      && (d == YieldUntilResumed <==> !stopped && !late && PausePending(seen))
      && (d == Yield <==> !stopped && !late && !PausePending(seen))
  {
    ActiveExact(ops, r);
    EvictionIsFinal(ops[..r.flags]);
    PausedIff(ops[..r.flags]);
  }

  /** What a caller sees and may do, after every schedule. */
  lemma CallerSees(ops: seq<Op>, finished: bool, resumed: bool)
    ensures var s := Observe(Schedule(ops).token, finished); var live := Evict !in ops && !finished;
      && (s == Evicted <==> Evict in ops)
      && (s == Finished <==> Evict !in ops && finished)
      && (s == PausedResident <==> live && MarkedResident(ops))
      && (s == PauseRequested <==> live && !MarkedResident(ops) && PausePending(ops))
      && (s == Running <==> live && !MarkedResident(ops) && !PausePending(ops))
      && (PauseCommand(s) == Done <==> live)
      && (ResumeCommand(s, resumed) == Done <==> live && (s == Running || resumed))
      && (PauseCommand(s) == RefusedFinished <==> Evict !in ops && finished)
      && (ResumeCommand(s, resumed) == RefusedFinished <==> Evict !in ops && finished)
  {
    EvictionIsFinal(ops);
    PausedIff(ops);
    ResidentIff(ops);
  }

  /** At every moment of every schedule, failures of the guest tell eviction, timeout and cancellation apart, although
      an eviction also cancels; and an evicted invocation reports it, refuses to pause or resume, and is interrupted
      without a timeout. */
  lemma AfterEviction(ops: seq<Op>, finished: bool, resumed: bool, timedOut: bool, active: nat, timeout: nat)
    ensures var w := Schedule(ops); var error := MapExecutionError(w.token.evicted, timedOut, w.cancelled);
      && (error == IdleEvicted <==> Evict in ops)
      && (error == Timeout <==> Evict !in ops && timedOut)
      && (error == Cancelled <==> Evict !in ops && !timedOut && Cancel in ops)
      && (error == Trapped <==> Evict !in ops && !timedOut && Cancel !in ops)
      && (Observe(w.token, finished) == Evicted <==> Evict in ops)
      && (Evict in ops ==>
            && PauseCommand(Observe(w.token, finished)) == RefusedEvicted
            && ResumeCommand(Observe(w.token, finished), resumed) == RefusedEvicted
            && OnEpoch(w.token, w.cancelled, active, timeout) == Interrupt)
  {
    EvictionIsFinal(ops);
  }
}
