/** Every step of the preparation system keeps both tiers, the disk and all tasks tied to plain compilation
    (src/runtime.rs, src/cache.rs). */
module PrepareProofs {
  import opened Bytes
  import opened Wrappers
  import opened Crypto
  import opened Profiles
  import opened Recency
  import opened CacheSpec
  import opened Prepare
  import Disk = DiskCache

  // ---------------------------------------------------------------- good artifacts

  lemma GoodFromSource(g: Config, source: Bytes, v: Prepared, b: Bytes)
    requires CollisionFreeOn(g.tools.hash, g.sources) && source in g.sources && Compile(g, source) == Some((v, b))
    ensures GoodPrepared(g, DigestOf(g, source), v)
    ensures GoodAot(g, DigestOf(g, source), Aot(b, v.profile))
  {
    forall other | other in g.sources && DigestOf(g, other) == DigestOf(g, source) ensures other == source {
      DigestInjective(g, other, source);
    }
  }

  /** A good artifact always deserializes, to exactly what compiling gives. */
  lemma DeserializeGood(g: Config, source: Bytes, aot: Aot)
    requires Restores(g) && source in g.sources && GoodArtifact(g, source, aot.profile, aot.bytes)
    ensures Deserialize(g, aot) == Some(Compile(g, source).value.0)
  {
    var c := g.tools.compile(source).value;
    assert g.tools.serialize(c) == Some(aot.bytes);
  }

  // ---------------------------------------------------------------- cache calls

  lemma LookupKeeps(g: Config, c: CacheState, call: Call)
    requires CacheOk(g, c) && (call.Warm? || call.Warmish? || call.Demote?)
    ensures CacheOk(g, Apply(c, call))
  {
  }

  lemma InsertWarmKeeps(g: Config, c: CacheState, d: Bytes, v: Prepared)
    requires CacheOk(g, c) && GoodPrepared(g, d, v)
    ensures CacheOk(g, Apply(c, InsertWarm(d, v)))
  {
    TrimOnlyRemoves(c.warm[d := Entry(v, Tick(c.sequence))], WarmFits(c.limits.maxWarm));
  }

  lemma InsertWarmishKeeps(g: Config, c: CacheState, d: Bytes, aot: Aot)
    requires CacheOk(g, c) && GoodAot(g, d, aot)
    ensures CacheOk(g, Apply(c, InsertWarmish(d, aot)))
  {
    TrimOnlyRemoves(c.warmish[d := Entry(aot, Tick(c.sequence))],
                    WarmishFits(c.limits.maxWarmish, c.limits.maxWarmishBytes));
  }

  /** Inserting what compiling a task's source gives. */
  lemma InsertCompiledKeeps(g: Config, c: CacheState, task: Task, v: Prepared, b: Bytes)
    requires Sound(g) && CacheOk(g, c) && task.source in g.sources && task.digest == DigestOf(g, task.source)
    requires Compile(g, task.source) == Some((v, b))
    ensures CacheOk(g, InsertBoth(c, task.digest, Aot(b, v.profile), v))
    ensures CacheOk(g, Apply(c, InsertWarm(task.digest, v)))
  {
    GoodFromSource(g, task.source, v, b);
    InsertWarmishKeeps(g, c, task.digest, Aot(b, v.profile));
    InsertWarmKeeps(g, Apply(c, InsertWarmish(task.digest, Aot(b, v.profile))), task.digest, v);
    InsertWarmKeeps(g, c, task.digest, v);
  }

  // ---------------------------------------------------------------- frame

  predicate SameLoad(a: Disk.Client, b: Disk.Client)
  {
    a.Loader? ==> b.Loader? && b.digest == a.digest && b.profile == a.profile
  }

  /** The disk clients of all tasks but `id` are still there. */
  predicate KeepsLoads(tasks: map<nat, Task>, before: map<nat, Disk.Client>, after: map<nat, Disk.Client>, id: nat)
  {
    forall k :: k in tasks && k != id && k in before ==> k in after && SameLoad(before[k], after[k])
  }

  /** One task moves on. */
  lemma Moves(g: Config, tasks: map<nat, Task>, before: map<nat, Disk.Client>, id: nat, task: Task,
              after: map<nat, Disk.Client>)
    requires TasksOk(g, tasks, before) && KeepsLoads(tasks, before, after, id) && TaskOk(g, after, id, task)
    ensures TasksOk(g, tasks[id := task], after)
  {
    forall k | k in tasks && k != id ensures TaskOk(g, after, k, tasks[k]) {
      assert TaskOk(g, before, k, tasks[k]);
    }
  }

  // ---------------------------------------------------------------- look-ups

  lemma WarmHit(g: Config, s: State, id: nat)
    requires CacheOk(g, s.cache) && id in s.tasks && TaskOk(g, s.disk.clients, id, s.tasks[id])
    requires s.tasks[id].digest in s.cache.warm
    ensures TaskOk(g, s.disk.clients, id, s.tasks[id].(pc := Done(Ok(s.cache.warm[s.tasks[id].digest].value))))
  {
    assert GoodPrepared(g, s.tasks[id].digest, s.cache.warm[s.tasks[id].digest].value);
  }

  lemma CheckWarmKeeps(g: Config, s: State, id: nat, onMiss: Pc, release: bool)
    requires Inv(g, s) && id in s.tasks && (onMiss == WantLock || onMiss == WarmMissed)
    ensures Inv(g, CheckWarm(s, id, onMiss, release))
  {
    var d := s.tasks[id].digest;
    LookupKeeps(g, s.cache, Warm(d));
    assert TaskOk(g, s.disk.clients, id, s.tasks[id]);
    if d in s.cache.warm {
      WarmHit(g, s, id);
      Moves(g, s.tasks, s.disk.clients, id, s.tasks[id].(pc := Done(Ok(s.cache.warm[d].value))), s.disk.clients);
    } else {
      Moves(g, s.tasks, s.disk.clients, id, s.tasks[id].(pc := onMiss), s.disk.clients);
    }
  }

  lemma LookupWarmishKeeps(g: Config, s: State, id: nat)
    requires Inv(g, s) && id in s.tasks
    ensures Inv(g, LookupWarmish(s, id))
  {
    var d := s.tasks[id].digest;
    LookupKeeps(g, s.cache, Warmish(d));
    assert TaskOk(g, s.disk.clients, id, s.tasks[id]);
    if d in s.cache.warmish {
      assert GoodAot(g, d, s.cache.warmish[d].value);
      Moves(g, s.tasks, s.disk.clients, id, s.tasks[id].(pc := WarmishHit(s.cache.warmish[d].value)), s.disk.clients);
    } else {
      Moves(g, s.tasks, s.disk.clients, id, s.tasks[id].(pc := BeforeLoad(0)), s.disk.clients);
    }
  }

  // ---------------------------------------------------------------- hits and compiles

  /** A call ends with what compiling its source gives, after inserting it. */
  lemma ReturnsValue(g: Config, s: State, id: nat, cache: CacheState, v: Prepared)
    requires Inv(g, s) && id in s.tasks && CacheOk(g, cache)
    requires Compile(g, s.tasks[id].source).Some? && Compile(g, s.tasks[id].source).value.0 == v
    ensures Inv(g, Return(s.(cache := cache), id, Ok(v)))
  {
    assert TaskOk(g, s.disk.clients, id, s.tasks[id]);
    Moves(g, s.tasks, s.disk.clients, id, s.tasks[id].(pc := Done(Ok(v))), s.disk.clients);
  }

  lemma UseWarmishKeeps(g: Config, s: State, id: nat)
    requires Sound(g) && Inv(g, s) && id in s.tasks && s.tasks[id].pc.WarmishHit?
    ensures Inv(g, UseWarmish(g, s, id))
  {
    var task := s.tasks[id];
    assert TaskOk(g, s.disk.clients, id, task);
    DeserializeGood(g, task.source, task.pc.aot);
    var v := Compile(g, task.source).value.0;
    InsertCompiledKeeps(g, s.cache, task, v, task.pc.aot.bytes);
    ReturnsValue(g, s, id, Apply(s.cache, InsertWarm(task.digest, v)), v);
  }

  lemma UseDiskKeeps(g: Config, s: State, id: nat)
    requires Sound(g) && Inv(g, s) && id in s.tasks && s.tasks[id].pc.DiskHit? && s.tasks[id].pc.k < |ALL|
    ensures Inv(g, UseDisk(g, s, id))
  {
    var task := s.tasks[id];
    var aot := Aot(task.pc.bytes, ALL[task.pc.k]);
    assert TaskOk(g, s.disk.clients, id, task);
    DeserializeGood(g, task.source, aot);
    var v := Compile(g, task.source).value.0;
    InsertCompiledKeeps(g, s.cache, task, v, aot.bytes);
    ReturnsValue(g, s, id, InsertBoth(s.cache, task.digest, aot, v), v);
  }

  lemma InsertNewKeeps(g: Config, s: State, id: nat)
    requires Sound(g) && Inv(g, s) && id in s.tasks && s.tasks[id].pc.Inserting?
    ensures Inv(g, InsertNew(s, id))
  {
    var task := s.tasks[id];
    assert TaskOk(g, s.disk.clients, id, task);
    InsertCompiledKeeps(g, s.cache, task, task.pc.prepared, task.pc.aotBytes);
    var v, b := task.pc.prepared, task.pc.aotBytes;
    ReturnsValue(g, s, id, InsertBoth(s.cache, task.digest, Aot(b, v.profile), v), v);
  }

  lemma AfterCompileKeeps(g: Config, s: State, id: nat)
    requires Inv(g, s) && id in s.tasks
    ensures Inv(g, AfterCompile(g, s, id))
  {
    var task := s.tasks[id];
    assert TaskOk(g, s.disk.clients, id, task);
    var v := Compile(g, task.source);
    var pc := if v.None? then Done(Err(CompileFailed)) else Compiled(v.value.0, v.value.1);
    assert TaskOk(g, s.disk.clients, id, task.(pc := pc));
    Moves(g, s.tasks, s.disk.clients, id, task.(pc := pc), s.disk.clients);
  }

  // ---------------------------------------------------------------- the disk

  lemma StartLoadKeeps(g: Config, s: State, id: nat)
    requires Sound(g) && Inv(g, s) && id in s.tasks && s.tasks[id].pc.BeforeLoad? && s.tasks[id].pc.k < |ALL|
    requires g.hasDisk && id !in s.disk.clients
    ensures var k := s.tasks[id].pc.k; var step := Disk.BeginLoad(id, s.tasks[id].digest, ALL[k]);
      Inv(g, Goto(s, id, Loading(k)).(disk := Disk.Do(g.host, s.disk, step)))
  {
    var k := s.tasks[id].pc.k;
    var step := Disk.BeginLoad(id, s.tasks[id].digest, ALL[k]);
    Disk.InvStep(g.host, s.disk, step);
    assert TaskOk(g, s.disk.clients, id, s.tasks[id]);
    Moves(g, s.tasks, s.disk.clients, id, s.tasks[id].(pc := Loading(k)), Disk.Do(g.host, s.disk, step).clients);
  }

  /** What a load brought is the serialized form of the task's own source. */
  lemma LoadedGood(g: Config, s: State, id: nat, bytes: Bytes)
    requires Inv(g, s) && id in s.tasks && s.tasks[id].pc.Loading?
    requires id in s.disk.clients && s.disk.clients[id].Loader?
    requires s.disk.clients[id].load == Disk.Loaded(Ok(Some(bytes)))
    ensures s.tasks[id].pc.k < |ALL| && GoodArtifact(g, s.tasks[id].source, ALL[s.tasks[id].pc.k], bytes)
  {
    var task := s.tasks[id];
    assert TaskOk(g, s.disk.clients, id, task);
    assert Disk.ClientOk(g.host, s.disk, s.disk.clients[id]);
    assert (Disk.IdentityOf(g.host, task.digest, ALL[task.pc.k]), bytes) in s.disk.published;
    assert GoodAot(g, task.digest, Aot(bytes, ALL[task.pc.k]));
  }

  lemma ForgetKeeps(g: Config, s: State, id: nat, task: Task)
    requires Inv(g, s) && id in s.tasks && id in s.disk.clients && TaskOk(g, s.disk.clients - {id}, id, task)
    ensures DiskOk(g, ForgetClient(s, id).disk)
    ensures TasksOk(g, s.tasks[id := task], ForgetClient(s, id).disk.clients)
  {
    Disk.InvForget(g.host, s.disk, id);
    Moves(g, s.tasks, s.disk.clients, id, task, s.disk.clients - {id});
  }

  lemma AfterLoadKeeps(g: Config, s: State, id: nat)
    requires Inv(g, s) && id in s.tasks && s.tasks[id].pc.Loading?
    requires id in s.disk.clients && s.disk.clients[id].Loader? && s.disk.clients[id].load.Loaded?
    ensures Inv(g, AfterLoad(s, id))
  {
    assert TaskOk(g, s.disk.clients, id, s.tasks[id]);
    var result := s.disk.clients[id].load.result;
    if result.Ok? && result.value.Some? { LoadedGood(g, s, id, result.value.value); }
    ForgetKeeps(g, s, id, AfterLoad(s, id).tasks[id]);
  }

  lemma PublishKeepsPublished(g: Config, disk: Disk.Disk, step: Disk.Step)
    requires PublishedOk(g, disk.published) && Disk.Enabled(g.host, disk, step) && step.BeginPublish?
    requires GoodAot(g, step.digest, Aot(step.artifact, step.profile))
    ensures PublishedOk(g, Disk.Do(g.host, disk, step).published)
  {
    var after := Disk.Do(g.host, disk, step).published;
    forall i, b, p, d | (i, b) in after && i == Disk.IdentityOf(g.host, d, p) ensures GoodAot(g, d, Aot(b, p)) {
      if (i, b) !in disk.published { Disk.IdentityInjective(g.host, d, p, g.host, step.digest, step.profile); }
    }
  }

  lemma HonestPublishKeeps(g: Config, disk: Disk.Disk, step: Disk.Step, source: Bytes)
    requires Sound(g) && DiskOk(g, disk) && Disk.Enabled(g.host, disk, step) && step.BeginPublish?
    requires HonestPublish(g, step, source)
    ensures DiskOk(g, Disk.Do(g.host, disk, step))
  {
    GoodFromSource(g, source, Compile(g, source).value.0, step.artifact);
    PublishKeepsPublished(g, disk, step);
    Disk.InvStep(g.host, disk, step);
  }

  lemma PublisherKeepsLoads(g: Config, s: State, id: nat)
    requires id in s.tasks && s.tasks[id].pc.Compiled? && Disk.Enabled(g.host, s.disk, PublishStep(s.tasks[id], id))
    ensures KeepsLoads(s.tasks, s.disk.clients, Disk.Do(g.host, s.disk, PublishStep(s.tasks[id], id)).clients, id)
  {
  }

  lemma BeginPublishKeeps(g: Config, s: State, id: nat)
    requires Sound(g) && Inv(g, s) && id in s.tasks && s.tasks[id].pc.Compiled?
    requires g.hasDisk ==> Disk.Enabled(g.host, s.disk, PublishStep(s.tasks[id], id))
    ensures Inv(g, BeginPublish(g, s, id))
  {
    var task := s.tasks[id];
    var v, b := task.pc.prepared, task.pc.aotBytes;
    assert TaskOk(g, s.disk.clients, id, task);
    if g.hasDisk {
      HonestPublishKeeps(g, s.disk, PublishStep(task, id), task.source);
      PublisherKeepsLoads(g, s, id);
      Moves(g, s.tasks, s.disk.clients, id, task.(pc := Publishing(v, b)),
            Disk.Do(g.host, s.disk, PublishStep(task, id)).clients);
    } else {
      Moves(g, s.tasks, s.disk.clients, id, task.(pc := Inserting(v, b)), s.disk.clients);
    }
  }

  lemma AfterPublishKeeps(g: Config, s: State, id: nat)
    requires Inv(g, s) && id in s.tasks && s.tasks[id].pc.Publishing?
    requires id in s.disk.clients && s.disk.clients[id].Publisher? && s.disk.clients[id].stage.Ended?
    ensures Inv(g, AfterPublish(s, id))
  {
    assert TaskOk(g, s.disk.clients, id, s.tasks[id]);
    ForgetKeeps(g, s, id, AfterPublish(s, id).tasks[id]);
  }

  /** Steps of the disk outside every task. */
  lemma ForeignKeepsLoads(g: Config, s: State, step: Disk.Step)
    requires DiskStepAllowed(g, s, step) && TasksOk(g, s.tasks, s.disk.clients)
    ensures TasksOk(g, s.tasks, Disk.Do(g.host, s.disk, step).clients)
  {
    var after := Disk.Do(g.host, s.disk, step).clients;
    forall k | k in s.tasks ensures TaskOk(g, after, k, s.tasks[k]) {
      assert TaskOk(g, s.disk.clients, k, s.tasks[k]);
      assert k in s.disk.clients ==> k in after && SameLoad(s.disk.clients[k], after[k]);
    }
  }

  lemma ForeignKeeps(g: Config, s: State, step: Disk.Step)
    requires Sound(g) && Inv(g, s) && DiskStepAllowed(g, s, step)
    ensures Inv(g, s.(disk := Disk.Do(g.host, s.disk, step)))
  {
    ForeignKeepsLoads(g, s, step);
    if step.BeginPublish? {
      var source :| HonestPublish(g, step, source);
      HonestPublishKeeps(g, s.disk, step, source);
    } else {
      Disk.InvStep(g.host, s.disk, step);
    }
  }

  // ---------------------------------------------------------------- every step

  lemma SpawnKeeps(g: Config, s: State, id: nat, source: Bytes)
    requires Inv(g, s) && source in g.sources
    ensures Inv(g, s.(tasks := s.tasks[id := Task(DigestOf(g, source), source, Start)]))
  {
    Moves(g, s.tasks, s.disk.clients, id, Task(DigestOf(g, source), source, Start), s.disk.clients);
  }

  /** A call moves on without learning anything. */
  lemma WaitKeeps(g: Config, s: State, id: nat, pc: Pc, locks: map<Bytes, nat>)
    requires Inv(g, s) && id in s.tasks && (pc.Locked? || pc.Compiling?)
    ensures Inv(g, Goto(s, id, pc).(locks := locks))
  {
    assert TaskOk(g, s.disk.clients, id, s.tasks[id]);
    Moves(g, s.tasks, s.disk.clients, id, s.tasks[id].(pc := pc), s.disk.clients);
  }

  lemma DropKeeps(g: Config, s: State, id: nat)
    requires Inv(g, s) && id in s.tasks
    ensures Inv(g, Drop(s, id))
  {
  }

  lemma TierKeeps(g: Config, s: State, d: Bytes)
    requires Inv(g, s)
    ensures Inv(g, s.(cache := Tier(s.cache, d))) && Inv(g, s.(cache := Apply(s.cache, Demote(d))))
  {
    LookupKeeps(g, s.cache, Warm(d));
    LookupKeeps(g, Apply(s.cache, Warm(d)), Warmish(d));
    LookupKeeps(g, s.cache, Demote(d));
  }

  lemma CallStep(g: Config, s: State, e: Event)
    requires Inv(g, s) && Enabled(g, s, e)
    requires e.Spawn? || e.Acquire? || e.StartCompile? || e.DropTask?
    ensures Inv(g, Do(g, s, e))
  {
    match e
    case Spawn(id, source) => SpawnKeeps(g, s, id, source);
    case Acquire(id) => WaitKeeps(g, s, id, Locked, s.locks[s.tasks[id].digest := id]);
    case StartCompile(id) => WaitKeeps(g, s, id, Compiling, s.locks);
    case DropTask(id) => DropKeeps(g, s, id);
  }

  lemma LookupStep(g: Config, s: State, e: Event)
    requires Inv(g, s) && Enabled(g, s, e) && (e.FirstCheck? || e.SecondCheck? || e.CheckWarmish?)
    ensures Inv(g, Do(g, s, e))
  {
    match e
    case FirstCheck(id) => CheckWarmKeeps(g, s, id, WantLock, false);
    case SecondCheck(id) => CheckWarmKeeps(g, s, id, WarmMissed, true);
    case CheckWarmish(id) => LookupWarmishKeeps(g, s, id);
  }

  lemma ValueStep(g: Config, s: State, e: Event)
    requires Sound(g) && Inv(g, s) && Enabled(g, s, e)
    requires e.FinishWarmish? || e.FinishDisk? || e.FinishCompile? || e.InsertCompiled?
    ensures Inv(g, Do(g, s, e))
  {
    match e
    case FinishWarmish(id) => UseWarmishKeeps(g, s, id);
    case FinishDisk(id) => UseDiskKeeps(g, s, id);
    case FinishCompile(id) => AfterCompileKeeps(g, s, id);
    case InsertCompiled(id) => InsertNewKeeps(g, s, id);
  }

  lemma CrashKeeps(g: Config, s: State)
    requires Inv(g, s)
    ensures Inv(g, Restart(g, s))
  {
    Disk.InvForgetAll(g.host, s.disk, s.tasks.Keys);
  }

  lemma DiskCallStep(g: Config, s: State, e: Event)
    requires Sound(g) && Inv(g, s) && Enabled(g, s, e)
    requires e.StartLoad? || e.FinishLoad? || e.StartPublish? || e.FinishPublish?
    ensures Inv(g, Do(g, s, e))
  {
    match e
    case StartLoad(id) => StartLoadKeeps(g, s, id);
    case FinishLoad(id) => AfterLoadKeeps(g, s, id);
    case StartPublish(id) => BeginPublishKeeps(g, s, id);
    case FinishPublish(id) => AfterPublishKeeps(g, s, id);
  }

  lemma InvStep(g: Config, s: State, e: Event)
    requires Sound(g) && Inv(g, s) && Enabled(g, s, e)
    ensures Inv(g, Do(g, s, e))
  {
    if e.Spawn? || e.Acquire? || e.StartCompile? || e.DropTask? {
      CallStep(g, s, e);
    } else if e.CallTier? || e.CallDemote? {
      TierKeeps(g, s, e.digest);
    } else if e.StartLoad? || e.FinishLoad? || e.StartPublish? || e.FinishPublish? {
      DiskCallStep(g, s, e);
    } else if e.FirstCheck? || e.SecondCheck? || e.CheckWarmish? {
      LookupStep(g, s, e);
    } else if e.DiskStep? {
      ForeignKeeps(g, s, e.step);
    } else if e.Crash? {
      CrashKeeps(g, s);
    } else {
      ValueStep(g, s, e);
    }
  }
}
