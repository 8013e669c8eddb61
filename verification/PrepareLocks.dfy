/** The lock discipline of `prepare`, which depends on no hash, compiler or disk: one live call per digest is past its
    lock, and two successful compiles of a digest are separated by its removal from the warm tier (src/runtime.rs). */
module PrepareLocks {
  import opened Bytes
  import opened Wrappers
  import opened Profiles
  import opened Recency
  import opened CacheSpec
  import opened Prepare

  /** Past `lock.lock().await`, with the guard still held. */
  predicate PastLock(pc: Pc)
  {
    !pc.Start? && !pc.WantLock? && !pc.Done?
  }

  /** Past the second look-up, which missed. */
  predicate PastCheck(pc: Pc)
  {
    PastLock(pc) && !pc.Locked?
  }

  /** Every call past its lock holds it, every lock is held by such a call, and what a call past its second look-up
      missed is still missing from the warm tier. */
  ghost predicate LocksOk(tasks: map<nat, Task>, locks: map<Bytes, nat>, warm: set<Bytes>)
  {
    && (forall id :: id in tasks && PastLock(tasks[id].pc) ==>
          tasks[id].digest in locks && locks[tasks[id].digest] == id)
    && (forall d :: d in locks ==> locks[d] in tasks && tasks[locks[d]].digest == d && PastLock(tasks[locks[d]].pc))
    && (forall id :: id in tasks && PastCheck(tasks[id].pc) ==> tasks[id].digest !in warm)
  }

  ghost predicate Locked(s: State)
  {
    LocksOk(s.tasks, s.locks, s.cache.warm.Keys)
  }

  // ---------------------------------------------------------------- the shapes a step can have

  /** A call moves on and keeps, or goes on lacking, its lock; nothing becomes warm. */
  lemma Moves(tasks: map<nat, Task>, locks: map<Bytes, nat>, warm: set<Bytes>, id: nat, pc: Pc, after: set<Bytes>)
    requires LocksOk(tasks, locks, warm) && id in tasks && after <= warm
    requires PastLock(pc) == PastLock(tasks[id].pc)
    requires PastCheck(pc) ==> tasks[id].digest !in warm
    ensures LocksOk(tasks[id := tasks[id].(pc := pc)], locks, after)
  {
  }

  /** A call that holds its lock ends and releases it; only its own digest may have become warm. */
  lemma Returns(tasks: map<nat, Task>, locks: map<Bytes, nat>, warm: set<Bytes>, id: nat, pc: Pc, after: set<Bytes>)
    requires LocksOk(tasks, locks, warm) && id in tasks && PastLock(tasks[id].pc) && pc.Done?
    requires after <= warm + {tasks[id].digest}
    ensures LocksOk(tasks[id := tasks[id].(pc := pc)], locks - {tasks[id].digest}, after)
  {
  }

  lemma Acquires(tasks: map<nat, Task>, locks: map<Bytes, nat>, warm: set<Bytes>, id: nat)
    requires LocksOk(tasks, locks, warm) && id in tasks && tasks[id].pc.WantLock? && tasks[id].digest !in locks
    ensures LocksOk(tasks[id := tasks[id].(pc := Pc.Locked)], locks[tasks[id].digest := id], warm)
  {
  }

  lemma Spawns(tasks: map<nat, Task>, locks: map<Bytes, nat>, warm: set<Bytes>, id: nat, task: Task)
    requires LocksOk(tasks, locks, warm) && id !in tasks && task.pc.Start?
    ensures LocksOk(tasks[id := task], locks, warm)
  {
  }

  lemma Drops(s: State, id: nat)
    requires Locked(s) && id in s.tasks
    requires s.tasks[id].pc.Start? || s.tasks[id].pc.WantLock? || s.tasks[id].pc.Compiling?
    ensures Locked(Drop(s, id))
  {
  }

  // ---------------------------------------------------------------- what the cache calls do to the warm tier

  lemma InsertWarmAdds(c: CacheState, d: Bytes, v: Prepared)
    ensures Apply(c, InsertWarm(d, v)).warm.Keys <= c.warm.Keys + {d}
  {
    TrimOnlyRemoves(c.warm[d := Entry(v, Tick(c.sequence))], WarmFits(c.limits.maxWarm));
  }

  lemma InsertBothAdds(c: CacheState, d: Bytes, aot: Aot, v: Prepared)
    ensures InsertBoth(c, d, aot, v).warm.Keys <= c.warm.Keys + {d}
  {
    InsertWarmAdds(Apply(c, InsertWarmish(d, aot)), d, v);
  }

  lemma LooksUp(s: State, id: nat, onMiss: Pc, release: bool)
    requires Locked(s) && id in s.tasks
    requires if release then s.tasks[id].pc.Locked? && onMiss == WarmMissed
             else s.tasks[id].pc.Start? && onMiss == WantLock
    ensures Locked(CheckWarm(s, id, onMiss, release))
  {
    var d := s.tasks[id].digest;
    var after := Apply(s.cache, Warm(d)).warm.Keys;
    if d !in s.cache.warm {
      Moves(s.tasks, s.locks, s.cache.warm.Keys, id, onMiss, after);
    } else if release {
      Returns(s.tasks, s.locks, s.cache.warm.Keys, id, Done(Ok(s.cache.warm[d].value)), after);
    } else {
      Moves(s.tasks, s.locks, s.cache.warm.Keys, id, Done(Ok(s.cache.warm[d].value)), after);
    }
  }

  /** The step of a call that holds its lock and either goes on or returns. */
  lemma GoesOn(s: State, r: State, id: nat, pc: Pc)
    requires Locked(s) && id in s.tasks && PastCheck(s.tasks[id].pc)
    requires r.tasks == s.tasks[id := s.tasks[id].(pc := pc)]
    requires if pc.Done? then r.locks == s.locks - {s.tasks[id].digest} else PastCheck(pc) && r.locks == s.locks
    requires r.cache.warm.Keys <= if pc.Done? then s.cache.warm.Keys + {s.tasks[id].digest} else s.cache.warm.Keys
    ensures Locked(r)
  {
    if pc.Done? {
      Returns(s.tasks, s.locks, s.cache.warm.Keys, id, pc, r.cache.warm.Keys);
    } else {
      Moves(s.tasks, s.locks, s.cache.warm.Keys, id, pc, r.cache.warm.Keys);
    }
  }

  lemma UsesWarmish(g: Config, s: State, id: nat)
    requires Locked(s) && id in s.tasks && s.tasks[id].pc.WarmishHit?
    ensures Locked(UseWarmish(g, s, id))
  {
    var r := UseWarmish(g, s, id);
    var v := Deserialize(g, s.tasks[id].pc.aot);
    if v.Some? { InsertWarmAdds(s.cache, s.tasks[id].digest, v.value); }
    GoesOn(s, r, id, r.tasks[id].pc);
  }

  lemma UsesDisk(g: Config, s: State, id: nat)
    requires Locked(s) && id in s.tasks && s.tasks[id].pc.DiskHit? && s.tasks[id].pc.k < |ALL|
    ensures Locked(UseDisk(g, s, id))
  {
    var r, aot := UseDisk(g, s, id), Aot(s.tasks[id].pc.bytes, ALL[s.tasks[id].pc.k]);
    var v := Deserialize(g, aot);
    if v.Some? { InsertBothAdds(s.cache, s.tasks[id].digest, aot, v.value); }
    GoesOn(s, r, id, r.tasks[id].pc);
  }

  lemma InsertsNew(s: State, id: nat)
    requires Locked(s) && id in s.tasks && s.tasks[id].pc.Inserting?
    ensures Locked(InsertNew(s, id))
  {
    var task, r := s.tasks[id], InsertNew(s, id);
    InsertBothAdds(s.cache, task.digest, Aot(task.pc.aotBytes, task.pc.prepared.profile), task.pc.prepared);
    GoesOn(s, r, id, r.tasks[id].pc);
  }

  // ---------------------------------------------------------------- every step

  /** Steps of a call before its second look-up, and of callers outside `prepare`. */
  lemma OuterStep(g: Config, s: State, e: Event)
    requires Locked(s) && Enabled(g, s, e)
    requires e.Spawn? || e.FirstCheck? || e.Acquire? || e.SecondCheck? || e.DropTask? || e.CallTier? || e.CallDemote?
    ensures Locked(Do(g, s, e))
  {
    match e
    case Spawn(id, source) => Spawns(s.tasks, s.locks, s.cache.warm.Keys, id, Task(DigestOf(g, source), source, Start));
    case FirstCheck(id) => LooksUp(s, id, WantLock, false);
    case Acquire(id) => Acquires(s.tasks, s.locks, s.cache.warm.Keys, id);
    case SecondCheck(id) => LooksUp(s, id, WarmMissed, true);
    case DropTask(id) => Drops(s, id);
    case CallTier(_) =>
    case CallDemote(_) =>
  }

  /** Steps of a call that insert into the caches. */
  lemma InsertStep(g: Config, s: State, e: Event)
    requires Locked(s) && Enabled(g, s, e) && (e.FinishWarmish? || e.FinishDisk? || e.InsertCompiled?)
    ensures Locked(Do(g, s, e))
  {
    match e
    case FinishWarmish(id) => UsesWarmish(g, s, id);
    case FinishDisk(id) => UsesDisk(g, s, id);
    case InsertCompiled(id) => InsertsNew(s, id);
  }

  /** Steps of a call between its second look-up and its insertion, without the disk and with it. */
  lemma MiddleStep(g: Config, s: State, e: Event)
    requires Locked(s) && Enabled(g, s, e) && (e.CheckWarmish? || e.StartCompile? || e.FinishCompile?)
    ensures Locked(Do(g, s, e))
  {
    var r := Do(g, s, e);
    GoesOn(s, r, e.id, r.tasks[e.id].pc);
  }

  lemma DiskCallStep(g: Config, s: State, e: Event)
    requires Locked(s) && Enabled(g, s, e) && (e.StartLoad? || e.FinishLoad? || e.StartPublish? || e.FinishPublish?)
    ensures Locked(Do(g, s, e))
  {
    var r := Do(g, s, e);
    GoesOn(s, r, e.id, r.tasks[e.id].pc);
  }

  lemma LockStep(g: Config, s: State, e: Event)
    requires Locked(s) && Enabled(g, s, e)
    ensures Locked(Do(g, s, e))
  {
    if e.DiskStep? || e.Crash? {
    } else if e.Spawn? || e.FirstCheck? || e.Acquire? || e.SecondCheck? || e.DropTask? || e.CallTier? || e.CallDemote? {
      OuterStep(g, s, e);
    } else if e.FinishWarmish? || e.FinishDisk? || e.InsertCompiled? {
      InsertStep(g, s, e);
    } else if e.CheckWarmish? || e.StartCompile? || e.FinishCompile? {
      MiddleStep(g, s, e);
    } else {
      DiskCallStep(g, s, e);
    }
  }

  lemma {:induction false} RunKeepsLocks(g: Config, states: seq<State>, events: seq<Event>, i: nat)
    requires Run(g, states, events) && i < |states|
    ensures Locked(states[i])
  {
    if i > 0 {
      RunKeepsLocks(g, states, events, i - 1);
      LockStep(g, states[i - 1], events[i - 1]);
    }
  }

  /** At most one live call per digest is past its lock. */
  lemma OneCallPerDigest(g: Config, states: seq<State>, events: seq<Event>, i: nat, a: nat, b: nat)
    requires Run(g, states, events) && i < |states|
    requires a in states[i].tasks && b in states[i].tasks
    requires PastLock(states[i].tasks[a].pc) && PastLock(states[i].tasks[b].pc)
    requires states[i].tasks[a].digest == states[i].tasks[b].digest
    ensures a == b
  {
    RunKeepsLocks(g, states, events, i);
  }

  // ---------------------------------------------------------------- compiles are separated by removals

  predicate Fresh(c: CacheState)
  {
    Stamped(c.warm, c.sequence) && Stamped(c.warmish, c.sequence)
  }

  /** The tick counter is far enough from its end for one more step. */
  predicate NoWrap(s: State)
  {
    s.cache.sequence + 2 <= USIZE_MAX
  }

  lemma FreshTwice(c: CacheState, a: Call, b: Call)
    requires Fresh(c) && c.sequence + 2 <= USIZE_MAX
    ensures Fresh(Apply(c, a)) && Fresh(Apply(Apply(c, a), b))
  {
    ApplyStamped(c, a);
    ApplyStamped(Apply(c, a), b);
  }

  lemma FreshUseWarmish(g: Config, s: State, id: nat)
    requires id in s.tasks && s.tasks[id].pc.WarmishHit? && Fresh(s.cache) && NoWrap(s)
    ensures Fresh(UseWarmish(g, s, id).cache) && UseWarmish(g, s, id).cache.limits == s.cache.limits
  {
    var v := Deserialize(g, s.tasks[id].pc.aot);
    if v.Some? { ApplyStamped(s.cache, InsertWarm(s.tasks[id].digest, v.value)); }
  }

  lemma FreshUseDisk(g: Config, s: State, id: nat)
    requires id in s.tasks && s.tasks[id].pc.DiskHit? && s.tasks[id].pc.k < |ALL| && Fresh(s.cache) && NoWrap(s)
    ensures Fresh(UseDisk(g, s, id).cache) && UseDisk(g, s, id).cache.limits == s.cache.limits
  {
    var aot := Aot(s.tasks[id].pc.bytes, ALL[s.tasks[id].pc.k]);
    var v := Deserialize(g, aot);
    if v.Some? { FreshTwice(s.cache, InsertWarmish(s.tasks[id].digest, aot), InsertWarm(s.tasks[id].digest, v.value)); }
  }

  /** What a successful compile inserts is warm afterwards. */
  lemma FreshInsertNew(s: State, id: nat)
    requires id in s.tasks && s.tasks[id].pc.Inserting? && Fresh(s.cache) && NoWrap(s)
    ensures Fresh(InsertNew(s, id).cache) && InsertNew(s, id).cache.limits == s.cache.limits
    ensures s.cache.limits.maxWarm > 0 ==> s.tasks[id].digest in InsertNew(s, id).cache.warm
  {
    var task := s.tasks[id];
    var aot := Aot(task.pc.aotBytes, task.pc.prepared.profile);
    FreshTwice(s.cache, InsertWarmish(task.digest, aot), InsertWarm(task.digest, task.pc.prepared));
    ApplyStamped(s.cache, InsertWarmish(task.digest, aot));
    if s.cache.limits.maxWarm > 0 {
      NewWarmEntrySurvives(Apply(s.cache, InsertWarmish(task.digest, aot)), task.digest, task.pc.prepared);
    }
  }

  predicate LooksUpOnly(e: Event)
  {
    e.FirstCheck? || e.SecondCheck? || e.CheckWarmish? || e.CallTier? || e.CallDemote?
  }

  predicate Inserts(e: Event)
  {
    e.FinishWarmish? || e.FinishDisk? || e.InsertCompiled?
  }

  lemma FreshLookup(g: Config, s: State, e: Event)
    requires Enabled(g, s, e) && Fresh(s.cache) && NoWrap(s) && LooksUpOnly(e)
    ensures Fresh(Do(g, s, e).cache) && Do(g, s, e).cache.limits == s.cache.limits
  {
    match e
    case FirstCheck(id) => ApplyStamped(s.cache, Warm(s.tasks[id].digest));
    case SecondCheck(id) => ApplyStamped(s.cache, Warm(s.tasks[id].digest));
    case CheckWarmish(id) => ApplyStamped(s.cache, Warmish(s.tasks[id].digest));
    case CallTier(d) => FreshTwice(s.cache, Warm(d), Warmish(d));
    case CallDemote(d) => ApplyStamped(s.cache, Demote(d));
  }

  lemma FreshInsert(g: Config, s: State, e: Event)
    requires Enabled(g, s, e) && Fresh(s.cache) && NoWrap(s) && Inserts(e)
    ensures Fresh(Do(g, s, e).cache) && Do(g, s, e).cache.limits == s.cache.limits
  {
    match e
    case FinishWarmish(id) => FreshUseWarmish(g, s, id);
    case FinishDisk(id) => FreshUseDisk(g, s, id);
    case InsertCompiled(id) => FreshInsertNew(s, id);
  }

  lemma CacheUntouched(g: Config, s: State, e: Event)
    requires Enabled(g, s, e) && !LooksUpOnly(e) && !Inserts(e) && !e.Crash?
    ensures Do(g, s, e).cache == s.cache
  {
  }

  lemma {:induction false} RunFresh(g: Config, states: seq<State>, events: seq<Event>, i: nat)
    requires Run(g, states, events) && i < |states|
    requires forall k :: 0 <= k < i ==> NoWrap(states[k])
    ensures Fresh(states[i].cache) && states[i].cache.limits == g.limits
  {
    if i > 0 {
      RunFresh(g, states, events, i - 1);
      var e := events[i - 1];
      if LooksUpOnly(e) { FreshLookup(g, states[i - 1], e); }
      else if Inserts(e) { FreshInsert(g, states[i - 1], e); }
      else if !e.Crash? { CacheUntouched(g, states[i - 1], e); }
    }
  }

  /** Some step in between took the digest out of the warm tier. */
  ghost predicate RemovedBetween(states: seq<State>, d: Bytes, lo: nat, hi: nat)
  {
    exists m :: lo <= m < hi < |states| && d in states[m].cache.warm && d !in states[m + 1].cache.warm
  }

  lemma {:induction false} FindRemoval(states: seq<State>, d: Bytes, lo: nat, hi: nat) returns (m: nat)
    requires lo <= hi < |states| && d in states[lo].cache.warm && d !in states[hi].cache.warm
    ensures lo <= m < hi && d in states[m].cache.warm && d !in states[m + 1].cache.warm
    decreases hi - lo
  {
    m := hi - 1;
    if d !in states[m].cache.warm { m := FindRemoval(states, d, lo, m); }
  }

  /** Between two successful compiles of one digest, some step removed that digest from the warm tier. */
  lemma CompilesSeparated(g: Config, states: seq<State>, events: seq<Event>, i: nat, j: nat, a: nat, b: nat)
    requires g.limits.Valid() && Run(g, states, events) && i < j < |events|
    requires forall k :: 0 <= k < |states| ==> NoWrap(states[k])
    requires events[i] == InsertCompiled(a) && events[j] == InsertCompiled(b)
    requires a in states[i].tasks && b in states[j].tasks && states[i].tasks[a].digest == states[j].tasks[b].digest
    ensures RemovedBetween(states, states[i].tasks[a].digest, i + 1, j)
  {
    var d := states[i].tasks[a].digest;
    RunFresh(g, states, events, i);
    FreshInsertNew(states[i], a);
    RunKeepsLocks(g, states, events, j);
    var m := FindRemoval(states, d, i + 1, j);
  }
}
