/** `RuntimeInner::prepare` as the steps of any number of concurrent tasks over the shared memory tiers, the
    per-digest locks and the disk cache.  A task may be dropped at its await points, the process may crash,
    other processes share the disk, and files may be corrupted (src/runtime.rs, src/cache.rs). */
module Prepare {
  import opened Bytes
  import opened Wrappers
  import opened Crypto
  import opened Profiles
  import opened CacheSpec
  import Disk = DiskCache

  /** Library code: SHA-256 and the compiler. */
  datatype Toolchain = Toolchain(
    hash: Bytes -> Digest,
    compile: Bytes -> Option<Component>,
    serialize: Component -> Option<Bytes>,
    deserialize: Bytes -> Option<Component>)

  /** `sources` holds every source that any process prepares in the runs considered. */
  datatype Config = Config(tools: Toolchain, sources: iset<Bytes>, host: Disk.Host, hasDisk: bool, limits: Limits)

  /** Deserializing undoes serializing for what compiling a known source gives. */
  ghost predicate Restores(g: Config)
  {
    forall source, c, b ::
      source in g.sources && g.tools.compile(source) == Some(c) && g.tools.serialize(c) == Some(b) ==>
        g.tools.deserialize(b) == Some(c)
  }

  ghost predicate Sound(g: Config)
  {
    CollisionFreeOn(g.tools.hash, g.sources) && Disk.Sound(g.host) && Restores(g)
  }

  function DigestOf(g: Config, source: Bytes): (d: Bytes)
  {
    Hex(g.tools.hash(source))
  }

  lemma DigestInjective(g: Config, a: Bytes, b: Bytes)
    requires CollisionFreeOn(g.tools.hash, g.sources) && a in g.sources && b in g.sources
    requires DigestOf(g, a) == DigestOf(g, b)
    ensures a == b
  {
    HexInjective(g.tools.hash(a), g.tools.hash(b));
  }

  datatype PrepareError = CompileFailed | CacheRejected | DeserializeFailed

  /** The body of the blocking compile task: what a cold `prepare` of `source` yields. */
  ghost function Compile(g: Config, source: Bytes): (r: Option<(Prepared, Bytes)>)
  {
    var c := g.tools.compile(source);
    if c.None? then None
    else
      var p := Detect(c.value.exports);
      var b := g.tools.serialize(c.value);
      if p.Err? || b.None? then None else Some((Prepared(c.value, p.value), b.value))
  }

  /** A source compiles when the compiler accepts it, it exports exactly one world and its native code serializes. */
  lemma CompileMeans(g: Config, source: Bytes, v: Prepared, b: Bytes)
    ensures Compile(g, source) == Some((v, b)) <==>
      && g.tools.compile(source) == Some(v.component)
      && g.tools.serialize(v.component) == Some(b)
      && Detected(v.component.exports, Ok(v.profile))
  {
    if Detected(v.component.exports, Ok(v.profile)) {
      DetectedUnique(v.component.exports, Detect(v.component.exports), Ok(v.profile));
    }
  }

  /** `deserialize_component`. */
  ghost function Deserialize(g: Config, aot: Aot): (r: Option<Prepared>)
  {
    var c := g.tools.deserialize(aot.bytes);
    if c.None? then None
    else
      var p := Detect(c.value.exports);
      if p == Ok(aot.profile) then Some(Prepared(c.value, aot.profile)) else None
  }

  /** An artifact is of use if and only if it deserializes to a component whose one world is its own profile. */
  lemma DeserializeMeans(g: Config, aot: Aot, v: Prepared)
    ensures Deserialize(g, aot) == Some(v) <==>
      && g.tools.deserialize(aot.bytes) == Some(v.component)
      && v.profile == aot.profile && Detected(v.component.exports, Ok(aot.profile))
  {
    if Detected(v.component.exports, Ok(aot.profile)) {
      DetectedUnique(v.component.exports, Detect(v.component.exports), Ok(aot.profile));
    }
  }

  datatype Pc =
    | Start
    | WantLock
    | Locked
    | WarmMissed
    | WarmishHit(aot: Aot)
    | BeforeLoad(k: nat)
    | Loading(k: nat)
    | DiskHit(k: nat, bytes: Bytes)
    | Compiling
    | Compiled(prepared: Prepared, aotBytes: Bytes)
    | Publishing(prepared: Prepared, aotBytes: Bytes)
    | Inserting(prepared: Prepared, aotBytes: Bytes)
    | Done(result: Result<Prepared, PrepareError>)

  datatype Task = Task(digest: Bytes, source: Bytes, pc: Pc)

  datatype State = State(
    cache: CacheState,
    disk: Disk.Disk,
    tasks: map<nat, Task>,
    locks: map<Bytes, nat>,
    publishFailures: nat)

  datatype Event =
    | Spawn(id: nat, source: Bytes)
    | FirstCheck(id: nat)
    | Acquire(id: nat)
    | SecondCheck(id: nat)
    | CheckWarmish(id: nat)
    | FinishWarmish(id: nat)
    | StartLoad(id: nat)
    | FinishLoad(id: nat)
    | FinishDisk(id: nat)
    | StartCompile(id: nat)
    | FinishCompile(id: nat)
    | StartPublish(id: nat)
    | FinishPublish(id: nat)
    | InsertCompiled(id: nat)
    | DropTask(id: nat)
    | CallTier(digest: Bytes)
    | CallDemote(digest: Bytes)
    | DiskStep(step: Disk.Step)
    | Crash

  predicate At(s: State, id: nat, pc: Pc)
  {
    id in s.tasks && s.tasks[id].pc == pc
  }

  /** `bytes` are the serialized form of what compiling `source` gives, under its own profile. */
  ghost predicate GoodArtifact(g: Config, source: Bytes, profile: WasiProfile, bytes: Bytes)
  {
    var v := Compile(g, source);
    v.Some? && v.value.0.profile == profile && v.value.1 == bytes
  }

  ghost predicate HonestPublish(g: Config, step: Disk.Step, source: Bytes)
    requires step.BeginPublish?
  {
    && source in g.sources
    && step.digest == DigestOf(g, source)
    && GoodArtifact(g, source, step.profile, step.artifact)
  }

  /** Steps of the disk that are not part of a task's own control flow.  Other processes run the same code
      with the same key, so what they publish is what compiling some source gives. */
  ghost predicate DiskStepAllowed(g: Config, s: State, step: Disk.Step)
  {
    && Disk.Enabled(g.host, s.disk, step)
    && (step.BeginPublish? || step.BeginLoad? || step.Forget? ==> step.id !in s.tasks)
    && (step.BeginPublish? ==> exists source :: HonestPublish(g, step, source))
  }

  function PublishStep(task: Task, id: nat): (step: Disk.Step)
    requires task.pc.Compiled?
  {
    Disk.BeginPublish(id, task.digest, task.pc.prepared.profile, task.pc.aotBytes)
  }

  ghost predicate Enabled(g: Config, s: State, e: Event)
  {
    match e
    case Spawn(id, source) => id !in s.tasks && id !in s.disk.clients && source in g.sources
    case FirstCheck(id) => At(s, id, Start)
    case Acquire(id) => At(s, id, WantLock) && s.tasks[id].digest !in s.locks
    case SecondCheck(id) => At(s, id, Locked)
    case CheckWarmish(id) => At(s, id, WarmMissed)
    case FinishWarmish(id) => id in s.tasks && s.tasks[id].pc.WarmishHit?
    case StartLoad(id) =>
      id in s.tasks && s.tasks[id].pc.BeforeLoad? && g.hasDisk && s.tasks[id].pc.k < |ALL| && id !in s.disk.clients
    case FinishLoad(id) =>
      && id in s.tasks && s.tasks[id].pc.Loading?
      && id in s.disk.clients && s.disk.clients[id].Loader? && s.disk.clients[id].load.Loaded?
    case FinishDisk(id) => id in s.tasks && s.tasks[id].pc.DiskHit? && s.tasks[id].pc.k < |ALL|
    case StartCompile(id) => id in s.tasks && s.tasks[id].pc.BeforeLoad? && (!g.hasDisk || s.tasks[id].pc.k >= |ALL|)
    case FinishCompile(id) => At(s, id, Compiling)
    case StartPublish(id) =>
      && id in s.tasks && s.tasks[id].pc.Compiled?
      && (g.hasDisk ==> Disk.Enabled(g.host, s.disk, PublishStep(s.tasks[id], id)))
    case FinishPublish(id) =>
      && id in s.tasks && s.tasks[id].pc.Publishing?
      && id in s.disk.clients && s.disk.clients[id].Publisher? && s.disk.clients[id].stage.Ended?
    case InsertCompiled(id) => id in s.tasks && s.tasks[id].pc.Inserting?
    case DropTask(id) => At(s, id, Start) || At(s, id, WantLock) || At(s, id, Compiling)
    case CallTier(_) => true
    case CallDemote(_) => true
    case DiskStep(step) => DiskStepAllowed(g, s, step)
    case Crash => true
  }

  // ---------------------------------------------------------------- the steps

  function Goto(s: State, id: nat, pc: Pc): (r: State)
    requires id in s.tasks
  {
    s.(tasks := s.tasks[id := s.tasks[id].(pc := pc)])
  }

  /** Finish a call that holds the lock of its digest: the guard is dropped with the result. */
  function Return(s: State, id: nat, result: Result<Prepared, PrepareError>): (r: State)
    requires id in s.tasks
  {
    Goto(s, id, Done(result)).(locks := s.locks - {s.tasks[id].digest})
  }

  /** The look-up of both checks: a hit refreshes the entry and ends the call. */
  ghost function CheckWarm(s: State, id: nat, onMiss: Pc, release: bool): (r: State)
    requires id in s.tasks
  {
    var d := s.tasks[id].digest;
    var looked := s.(cache := Apply(s.cache, Warm(d)));
    if d in s.cache.warm then
      if release then Return(looked, id, Ok(s.cache.warm[d].value))
      else Goto(looked, id, Done(Ok(s.cache.warm[d].value)))
    else Goto(looked, id, onMiss)
  }

  ghost function LookupWarmish(s: State, id: nat): (r: State)
    requires id in s.tasks
  {
    var d := s.tasks[id].digest;
    var looked := s.(cache := Apply(s.cache, Warmish(d)));
    if d in s.cache.warmish then Goto(looked, id, WarmishHit(s.cache.warmish[d].value))
    else Goto(looked, id, BeforeLoad(0))
  }

  ghost function UseWarmish(g: Config, s: State, id: nat): (r: State)
    requires id in s.tasks && s.tasks[id].pc.WarmishHit?
  {
    var task := s.tasks[id];
    var v := Deserialize(g, task.pc.aot);
    if v.None? then Return(s, id, Err(DeserializeFailed))
    else Return(s.(cache := Apply(s.cache, InsertWarm(task.digest, v.value))), id, Ok(v.value))
  }

  function ForgetClient(s: State, id: nat): (r: State)
  {
    s.(disk := s.disk.(clients := s.disk.clients - {id}))
  }

  function AfterLoad(s: State, id: nat): (r: State)
    requires id in s.tasks && s.tasks[id].pc.Loading?
    requires id in s.disk.clients && s.disk.clients[id].Loader? && s.disk.clients[id].load.Loaded?
  {
    var k := s.tasks[id].pc.k;
    match s.disk.clients[id].load.result
    case Err(_) => Return(ForgetClient(s, id), id, Err(CacheRejected))
    case Ok(None) => Goto(ForgetClient(s, id), id, BeforeLoad(k + 1))
    case Ok(Some(bytes)) => Goto(ForgetClient(s, id), id, DiskHit(k, bytes))
  }

  /** Both inserts happen under one acquisition of the memory lock. */
  ghost function InsertBoth(c: CacheState, d: Bytes, aot: Aot, v: Prepared): (r: CacheState)
  {
    Apply(Apply(c, InsertWarmish(d, aot)), InsertWarm(d, v))
  }

  ghost function UseDisk(g: Config, s: State, id: nat): (r: State)
    requires id in s.tasks && s.tasks[id].pc.DiskHit? && s.tasks[id].pc.k < |ALL|
  {
    var task := s.tasks[id];
    var aot := Aot(task.pc.bytes, ALL[task.pc.k]);
    var v := Deserialize(g, aot);
    if v.None? then Return(s, id, Err(DeserializeFailed))
    else Return(s.(cache := InsertBoth(s.cache, task.digest, aot, v.value)), id, Ok(v.value))
  }

  ghost function AfterCompile(g: Config, s: State, id: nat): (r: State)
    requires id in s.tasks
  {
    var v := Compile(g, s.tasks[id].source);
    if v.None? then Return(s, id, Err(CompileFailed)) else Goto(s, id, Compiled(v.value.0, v.value.1))
  }

  ghost function BeginPublish(g: Config, s: State, id: nat): (r: State)
    requires id in s.tasks && s.tasks[id].pc.Compiled?
    requires g.hasDisk ==> Disk.Enabled(g.host, s.disk, PublishStep(s.tasks[id], id))
  {
    var task := s.tasks[id];
    var v, b := task.pc.prepared, task.pc.aotBytes;
    if g.hasDisk then
      Goto(s, id, Publishing(v, b)).(disk := Disk.Do(g.host, s.disk, PublishStep(task, id)))
    else Goto(s, id, Inserting(v, b))
  }

  function AfterPublish(s: State, id: nat): (r: State)
    requires id in s.tasks && s.tasks[id].pc.Publishing?
    requires id in s.disk.clients && s.disk.clients[id].Publisher? && s.disk.clients[id].stage.Ended?
  {
    var failed := if s.disk.clients[id].stage.ok then 0 else 1;
    Goto(ForgetClient(s, id), id, Inserting(s.tasks[id].pc.prepared, s.tasks[id].pc.aotBytes))
      .(publishFailures := s.publishFailures + failed)
  }

  ghost function InsertNew(s: State, id: nat): (r: State)
    requires id in s.tasks && s.tasks[id].pc.Inserting?
  {
    var task := s.tasks[id];
    var v := task.pc.prepared;
    Return(s.(cache := InsertBoth(s.cache, task.digest, Aot(task.pc.aotBytes, v.profile), v)), id, Ok(v))
  }

  function Drop(s: State, id: nat): (r: State)
    requires id in s.tasks
  {
    var held := s.tasks[id].pc.Compiling?;
    s.(tasks := s.tasks - {id}, locks := if held then s.locks - {s.tasks[id].digest} else s.locks)
  }

  ghost function Tier(c: CacheState, d: Bytes): (r: CacheState)
  {
    var looked := Apply(c, Warm(d));
    if d in c.warm then looked else Apply(looked, Warmish(d))
  }

  function Restart(g: Config, s: State): (r: State)
  {
    State(Empty(g.limits), s.disk.(clients := s.disk.clients - s.tasks.Keys), map[], map[], 0)
  }

  ghost function Do(g: Config, s: State, e: Event): (r: State)
    requires Enabled(g, s, e)
  {
    match e
    case Spawn(id, source) => s.(tasks := s.tasks[id := Task(DigestOf(g, source), source, Start)])
    case FirstCheck(id) => CheckWarm(s, id, WantLock, false)
    case Acquire(id) => Goto(s, id, Locked).(locks := s.locks[s.tasks[id].digest := id])
    case SecondCheck(id) => CheckWarm(s, id, WarmMissed, true)
    case CheckWarmish(id) => LookupWarmish(s, id)
    case FinishWarmish(id) => UseWarmish(g, s, id)
    case StartLoad(id) =>
      var task := s.tasks[id];
      Goto(s, id, Loading(task.pc.k))
        .(disk := Disk.Do(g.host, s.disk, Disk.BeginLoad(id, task.digest, ALL[task.pc.k])))
    case FinishLoad(id) => AfterLoad(s, id)
    case FinishDisk(id) => UseDisk(g, s, id)
    case StartCompile(id) => Goto(s, id, Compiling)
    case FinishCompile(id) => AfterCompile(g, s, id)
    case StartPublish(id) => BeginPublish(g, s, id)
    case FinishPublish(id) => AfterPublish(s, id)
    case InsertCompiled(id) => InsertNew(s, id)
    case DropTask(id) => Drop(s, id)
    case CallTier(d) => s.(cache := Tier(s.cache, d))
    case CallDemote(d) => s.(cache := Apply(s.cache, Demote(d)))
    case DiskStep(step) => s.(disk := Disk.Do(g.host, s.disk, step))
    case Crash => Restart(g, s)
  }

  // ---------------------------------------------------------------- what every state satisfies

  ghost predicate GoodPrepared(g: Config, digest: Bytes, v: Prepared)
  {
    forall source :: source in g.sources && DigestOf(g, source) == digest ==>
      Compile(g, source).Some? && Compile(g, source).value.0 == v
  }

  ghost predicate GoodAot(g: Config, digest: Bytes, aot: Aot)
  {
    forall source :: source in g.sources && DigestOf(g, source) == digest ==>
      GoodArtifact(g, source, aot.profile, aot.bytes)
  }

  /** Everything published under an identity is the serialized form of the source the identity names. */
  ghost predicate PublishedOk(g: Config, published: set<(Disk.Identity, Bytes)>)
  {
    forall i, b, p, d :: (i, b) in published && i == Disk.IdentityOf(g.host, d, p) ==> GoodAot(g, d, Aot(b, p))
  }

  ghost predicate DiskOk(g: Config, disk: Disk.Disk)
  {
    Disk.Inv(g.host, disk) && PublishedOk(g, disk.published)
  }

  ghost predicate CacheOk(g: Config, c: CacheState)
  {
    && (forall d :: d in c.warm ==> GoodPrepared(g, d, c.warm[d].value))
    && (forall d :: d in c.warmish ==> GoodAot(g, d, c.warmish[d].value))
  }

  /** What a task holds is what compiling its source gives, and its disk client is the one it started. */
  ghost predicate PcOk(g: Config, clients: map<nat, Disk.Client>, id: nat, task: Task)
  {
    match task.pc
    case WarmishHit(aot) => GoodArtifact(g, task.source, aot.profile, aot.bytes)
    case Loading(k) =>
      && g.hasDisk && k < |ALL| && id in clients && clients[id].Loader?
      && clients[id].digest == task.digest && clients[id].profile == ALL[k]
    case DiskHit(k, bytes) => k < |ALL| && GoodArtifact(g, task.source, ALL[k], bytes)
    case Compiled(v, b) => Compile(g, task.source) == Some((v, b))
    case Publishing(v, b) => Compile(g, task.source) == Some((v, b))
    case Inserting(v, b) => Compile(g, task.source) == Some((v, b))
    case Done(Ok(v)) => Compile(g, task.source).Some? && Compile(g, task.source).value.0 == v
    case Done(Err(CompileFailed)) => Compile(g, task.source).None?
    case Done(Err(CacheRejected)) => g.hasDisk
    case Done(Err(DeserializeFailed)) => false
    case _ => true
  }

  ghost predicate TaskOk(g: Config, clients: map<nat, Disk.Client>, id: nat, task: Task)
  {
    task.source in g.sources && task.digest == DigestOf(g, task.source) && PcOk(g, clients, id, task)
  }

  ghost predicate TasksOk(g: Config, tasks: map<nat, Task>, clients: map<nat, Disk.Client>)
  {
    forall id :: id in tasks ==> TaskOk(g, clients, id, tasks[id])
  }

  ghost predicate Inv(g: Config, s: State)
  {
    DiskOk(g, s.disk) && CacheOk(g, s.cache) && TasksOk(g, s.tasks, s.disk.clients)
  }

  /** A process that has just started, on a disk in any state. */
  predicate Initial(g: Config, s: State)
  {
    s.tasks == map[] && s.locks == map[] && s.cache == Empty(g.limits)
  }

  ghost predicate Run(g: Config, states: seq<State>, events: seq<Event>)
  {
    && |states| == |events| + 1
    && Initial(g, states[0])
    && forall i :: 0 <= i < |events| ==>
         Enabled(g, states[i], events[i]) && states[i + 1] == Do(g, states[i], events[i])
  }
}
