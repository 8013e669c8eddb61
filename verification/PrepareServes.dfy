/** What `prepare` can always do: from any state, whatever other calls are doing, a call that is left alone finishes
    from the tier that holds its component (src/runtime.rs, src/cache.rs). */
module PrepareServes {
  import opened Bytes
  import opened Wrappers
  import opened Crypto
  import opened Profiles
  import opened CacheSpec
  import opened Prepare
  import opened PrepareProofs
  import Disk = DiskCache
  import DiskRuns

  // ---------------------------------------------------------------- from one state to another

  /** No step leaves these states. */
  ghost predicate Closed(g: Config, states: iset<State>)
  {
    forall s, e :: s in states && Enabled(g, s, e) ==> Do(g, s, e) in states
  }

  /** `r` can be reached from `s`: it is in every set that holds `s` and that no step leaves. */
  ghost predicate Leads(g: Config, s: State, r: State)
  {
    forall states: iset<State> :: Closed(g, states) && s in states ==> r in states
  }

  /** One more step. */
  lemma Steps(g: Config, o: State, s: State, e: Event)
    requires Leads(g, o, s) && Enabled(g, s, e)
    ensures Leads(g, o, Do(g, s, e))
  {
  }

  /** A disk step that may happen beside these tasks. */
  ghost predicate Foreign(g: Config, tasks: map<nat, Task>, step: Disk.Step)
  {
    && (step.BeginPublish? || step.BeginLoad? || step.Forget? ==> step.id !in tasks)
    && (step.BeginPublish? ==> exists source :: HonestPublish(g, step, source))
  }

  lemma DiskSteps(g: Config, o: State, s: State, step: Disk.Step)
    requires Leads(g, o, s) && Disk.Enabled(g.host, s.disk, step) && Foreign(g, s.tasks, step)
    ensures Leads(g, o, s.(disk := Disk.Do(g.host, s.disk, step)))
  {
    Steps(g, o, s, DiskStep(step));
  }

  /** A run of the disk alone is part of a run of the whole. */
  lemma {:induction false} DiskLeads(g: Config, o: State, s: State, steps: seq<Disk.Step>, disk: Disk.Disk)
    requires Leads(g, o, s) && DiskRuns.Runs(g.host, s.disk, steps, disk)
    requires forall k :: 0 <= k < |steps| ==> Foreign(g, s.tasks, steps[k])
    ensures Leads(g, o, s.(disk := disk))
    decreases |steps|
  {
    if steps != [] {
      DiskSteps(g, o, s, steps[0]);
      DiskLeads(g, o, s.(disk := Disk.Do(g.host, s.disk, steps[0])), steps[1..], disk);
    }
  }

  // ---------------------------------------------------------------- single steps of a call

  lemma Spawns(g: Config, o: State, s: State, id: nat, source: Bytes)
    requires Leads(g, o, s) && id !in s.tasks && id !in s.disk.clients && source in g.sources
    ensures Leads(g, o, s.(tasks := s.tasks[id := Task(DigestOf(g, source), source, Start)]))
  {
    Steps(g, o, s, Spawn(id, source));
  }

  lemma Checks(g: Config, o: State, s: State, id: nat)
    requires Leads(g, o, s) && At(s, id, Start)
    ensures Leads(g, o, CheckWarm(s, id, WantLock, false))
  {
    Steps(g, o, s, FirstCheck(id));
  }

  lemma Acquires(g: Config, o: State, s: State, id: nat)
    requires Leads(g, o, s) && At(s, id, WantLock) && s.tasks[id].digest !in s.locks
    ensures Leads(g, o, Goto(s, id, Locked).(locks := s.locks[s.tasks[id].digest := id]))
  {
    Steps(g, o, s, Acquire(id));
  }

  lemma ChecksAgain(g: Config, o: State, s: State, id: nat)
    requires Leads(g, o, s) && At(s, id, Locked)
    ensures Leads(g, o, CheckWarm(s, id, WarmMissed, true))
  {
    Steps(g, o, s, SecondCheck(id));
  }

  lemma ChecksArtifact(g: Config, o: State, s: State, id: nat)
    requires Leads(g, o, s) && At(s, id, WarmMissed)
    ensures Leads(g, o, LookupWarmish(s, id))
  {
    Steps(g, o, s, CheckWarmish(id));
  }

  lemma UsesArtifact(g: Config, o: State, s: State, id: nat)
    requires Leads(g, o, s) && id in s.tasks && s.tasks[id].pc.WarmishHit?
    ensures Leads(g, o, UseWarmish(g, s, id))
  {
    Steps(g, o, s, FinishWarmish(id));
  }

  lemma BeginsLoad(g: Config, o: State, s: State, id: nat, k: nat)
    requires Leads(g, o, s) && At(s, id, BeforeLoad(k)) && g.hasDisk && k < |ALL| && id !in s.disk.clients
    ensures var loader := Disk.Loader(s.tasks[id].digest, ALL[k], Disk.CheckArtifact);
      Leads(g, o, Goto(s, id, Loading(k)).(disk := s.disk.(clients := s.disk.clients[id := loader])))
  {
    Steps(g, o, s, StartLoad(id));
  }

  lemma EndsLoad(g: Config, o: State, s: State, id: nat)
    requires Leads(g, o, s) && id in s.tasks && s.tasks[id].pc.Loading?
    requires id in s.disk.clients && s.disk.clients[id].Loader? && s.disk.clients[id].load.Loaded?
    ensures Leads(g, o, AfterLoad(s, id))
  {
    Steps(g, o, s, FinishLoad(id));
  }

  lemma UsesLoaded(g: Config, o: State, s: State, id: nat)
    requires Leads(g, o, s) && id in s.tasks && s.tasks[id].pc.DiskHit? && s.tasks[id].pc.k < |ALL|
    ensures Leads(g, o, UseDisk(g, s, id))
  {
    Steps(g, o, s, FinishDisk(id));
  }

  lemma BeginsCompile(g: Config, o: State, s: State, id: nat, k: nat)
    requires Leads(g, o, s) && At(s, id, BeforeLoad(k)) && (!g.hasDisk || k >= |ALL|)
    ensures Leads(g, o, Goto(s, id, Compiling))
  {
    Steps(g, o, s, StartCompile(id));
  }

  lemma EndsCompile(g: Config, o: State, s: State, id: nat)
    requires Leads(g, o, s) && At(s, id, Compiling)
    ensures Leads(g, o, AfterCompile(g, s, id))
  {
    Steps(g, o, s, FinishCompile(id));
  }

  lemma BeginsPublish(g: Config, o: State, s: State, id: nat)
    requires Leads(g, o, s) && id in s.tasks && s.tasks[id].pc.Compiled?
    requires g.hasDisk ==> Disk.Enabled(g.host, s.disk, PublishStep(s.tasks[id], id))
    ensures Leads(g, o, BeginPublish(g, s, id))
  {
    Steps(g, o, s, StartPublish(id));
  }

  lemma EndsPublish(g: Config, o: State, s: State, id: nat)
    requires Leads(g, o, s) && id in s.tasks && s.tasks[id].pc.Publishing?
    requires id in s.disk.clients && s.disk.clients[id].Publisher? && s.disk.clients[id].stage.Ended?
    ensures Leads(g, o, AfterPublish(s, id))
  {
    Steps(g, o, s, FinishPublish(id));
  }

  lemma Inserts(g: Config, o: State, s: State, id: nat)
    requires Leads(g, o, s) && id in s.tasks && s.tasks[id].pc.Inserting?
    ensures Leads(g, o, InsertNew(s, id))
  {
    Steps(g, o, s, InsertCompiled(id));
  }

  // ---------------------------------------------------------------- from memory

  /** A new call may start and take the lock of its digest. */
  ghost predicate Free(g: Config, s: State, id: nat, source: Bytes)
  {
    && source in g.sources && DigestOf(g, source) !in s.locks
    && id !in s.tasks && id !in s.disk.clients
  }

  /** `s` with the call `id` for `source` standing at `pc`. */
  function With(g: Config, s: State, id: nat, source: Bytes, pc: Pc): (r: State)
  {
    s.(tasks := s.tasks[id := Task(DigestOf(g, source), source, pc)])
  }

  function Holding(g: Config, s: State, id: nat, source: Bytes, pc: Pc): (r: State)
  {
    With(g, s, id, source, pc).(locks := s.locks[DigestOf(g, source) := id])
  }

  /** Both tiers after the two checks. */
  ghost function Checked(c: CacheState, d: Bytes): (r: CacheState)
    ensures r.limits == c.limits && r.warm.Keys == c.warm.Keys && r.warmish.Keys == c.warmish.Keys
    ensures forall k :: k in c.warmish ==> r.warmish[k].value == c.warmish[k].value
  {
    Apply(Apply(c, Warm(d)), Warm(d))
  }

  /** A component in the warm tier is handed out at the first check, whoever holds the lock of its digest. */
  lemma WarmServes(g: Config, o: State, s: State, id: nat, source: Bytes)
    requires Leads(g, o, s) && id !in s.tasks && id !in s.disk.clients && source in g.sources
    requires DigestOf(g, source) in s.cache.warm
    ensures var d := DigestOf(g, source);
      Leads(g, o, With(g, s, id, source, Done(Ok(s.cache.warm[d].value))).(cache := Apply(s.cache, Warm(d))))
  {
    Spawns(g, o, s, id, source);
    Checks(g, o, With(g, s, id, source, Start), id);
    var d := DigestOf(g, source);
    assert CheckWarm(With(g, s, id, source, Start), id, WantLock, false) ==
      With(g, s, id, source, Done(Ok(s.cache.warm[d].value))).(cache := Apply(s.cache, Warm(d)));
  }

  lemma MissesFirst(g: Config, o: State, s: State, id: nat, source: Bytes)
    requires Leads(g, o, s) && Free(g, s, id, source) && DigestOf(g, source) !in s.cache.warm
    ensures var d := DigestOf(g, source);
      Leads(g, o, With(g, s, id, source, WantLock).(cache := Apply(s.cache, Warm(d))))
  {
    var d, t := DigestOf(g, source), With(g, s, id, source, Start);
    Spawns(g, o, s, id, source);
    Checks(g, o, t, id);
    assert CheckWarm(t, id, WantLock, false) == With(g, s, id, source, WantLock).(cache := Apply(s.cache, Warm(d)));
  }

  lemma TakesLock(g: Config, o: State, s: State, id: nat, source: Bytes)
    requires Leads(g, o, s) && Free(g, s, id, source) && DigestOf(g, source) !in s.cache.warm
    ensures var d := DigestOf(g, source);
      Leads(g, o, Holding(g, s, id, source, Locked).(cache := Apply(s.cache, Warm(d))))
  {
    var d := DigestOf(g, source);
    var t := With(g, s, id, source, WantLock).(cache := Apply(s.cache, Warm(d)));
    MissesFirst(g, o, s, id, source);
    Acquires(g, o, t, id);
    assert Goto(t, id, Locked).(locks := t.locks[d := id]) ==
      Holding(g, s, id, source, Locked).(cache := Apply(s.cache, Warm(d)));
  }

  lemma MissesWarm(g: Config, o: State, s: State, id: nat, source: Bytes)
    requires Leads(g, o, s) && Free(g, s, id, source) && DigestOf(g, source) !in s.cache.warm
    ensures Leads(g, o, Holding(g, s, id, source, WarmMissed).(cache := Checked(s.cache, DigestOf(g, source))))
  {
    var d := DigestOf(g, source);
    var t := Holding(g, s, id, source, Locked).(cache := Apply(s.cache, Warm(d)));
    TakesLock(g, o, s, id, source);
    ChecksAgain(g, o, t, id);
    assert CheckWarm(t, id, WarmMissed, true) ==
      Holding(g, s, id, source, WarmMissed).(cache := Checked(s.cache, d));
  }

  /** Neither tier holds the digest: the call goes on to the disk or the compiler. */
  lemma MissesMemory(g: Config, o: State, s: State, id: nat, source: Bytes)
    requires Leads(g, o, s) && Free(g, s, id, source)
    requires DigestOf(g, source) !in s.cache.warm && DigestOf(g, source) !in s.cache.warmish
    ensures var d := DigestOf(g, source); var c := Apply(Checked(s.cache, d), Warmish(d));
      Leads(g, o, Holding(g, s, id, source, BeforeLoad(0)).(cache := c))
  {
    var d := DigestOf(g, source);
    var t := Holding(g, s, id, source, WarmMissed).(cache := Checked(s.cache, d));
    MissesWarm(g, o, s, id, source);
    ChecksArtifact(g, o, t, id);
    assert LookupWarmish(t, id) == Holding(g, s, id, source, BeforeLoad(0)).(cache := Apply(t.cache, Warmish(d)));
  }

  lemma HitsWarmish(g: Config, o: State, s: State, id: nat, source: Bytes)
    requires Leads(g, o, s) && Free(g, s, id, source)
    requires DigestOf(g, source) !in s.cache.warm && DigestOf(g, source) in s.cache.warmish
    ensures var d := DigestOf(g, source); var aot := s.cache.warmish[d].value;
      Leads(g, o, Holding(g, s, id, source, WarmishHit(aot)).(cache := Apply(Checked(s.cache, d), Warmish(d))))
  {
    var d := DigestOf(g, source);
    var t := Holding(g, s, id, source, WarmMissed).(cache := Checked(s.cache, d));
    MissesWarm(g, o, s, id, source);
    ChecksArtifact(g, o, t, id);
    assert LookupWarmish(t, id) ==
      Holding(g, s, id, source, WarmishHit(s.cache.warmish[d].value)).(cache := Apply(t.cache, Warmish(d)));
  }

  /** A call that holds its lock ends. */
  lemma Releases(g: Config, s: State, id: nat, source: Bytes, pc: Pc, cache: CacheState,
                 result: Result<Prepared, PrepareError>)
    requires DigestOf(g, source) !in s.locks
    ensures Return(Holding(g, s, id, source, pc).(cache := cache), id, result) ==
      With(g, s, id, source, Done(result)).(cache := cache)
  {
    var d := DigestOf(g, source);
    assert s.locks[d := id] - {d} == s.locks;
  }

  /** An artifact in the warmish tier is deserialized, put into the warm tier and handed out. */
  lemma WarmishServes(g: Config, o: State, s: State, id: nat, source: Bytes)
    requires Leads(g, o, s) && Sound(g) && Inv(g, s) && Free(g, s, id, source)
    requires DigestOf(g, source) !in s.cache.warm && DigestOf(g, source) in s.cache.warmish
    ensures Compile(g, source).Some?
    ensures var d, v := DigestOf(g, source), Compile(g, source).value.0;
      var c := Apply(Apply(Checked(s.cache, d), Warmish(d)), InsertWarm(d, v));
      Leads(g, o, With(g, s, id, source, Done(Ok(v))).(cache := c))
  {
    var d := DigestOf(g, source);
    var aot := s.cache.warmish[d].value;
    assert GoodAot(g, d, aot);
    DeserializeGood(g, source, aot);
    var v, c := Compile(g, source).value.0, Apply(Checked(s.cache, d), Warmish(d));
    HitsWarmish(g, o, s, id, source);
    UsesArtifact(g, o, Holding(g, s, id, source, WarmishHit(aot)).(cache := c), id);
    Releases(g, s, id, source, WarmishHit(aot), Apply(c, InsertWarm(d, v)), Ok(v));
  }

  // ---------------------------------------------------------------- from the disk

  /** `s` with the call `id` loading the entry of profile `k`. */
  function Loads(s: State, id: nat, k: nat, stage: Disk.LoadStage): (r: State)
    requires id in s.tasks && k < |ALL|
  {
    var loader := Disk.Loader(s.tasks[id].digest, ALL[k], stage);
    Goto(s, id, Loading(k)).(disk := s.disk.(clients := s.disk.clients[id := loader]))
  }

  predicate NoEntry(files: map<Disk.Path, Bytes>, d: Bytes, p: WasiProfile)
  {
    Disk.ArtifactFile(d, p) !in files && Disk.MetadataFile(d, p) !in files
  }

  lemma LoadAdvances(g: Config, s: State, id: nat, k: nat, stage: Disk.LoadStage)
    requires id in s.tasks && k < |ALL| && !stage.Loaded?
    requires Disk.Enabled(g.host, Loads(s, id, k, stage).disk, Disk.AdvanceLoad(id))
    ensures var t, loader := Loads(s, id, k, stage), Disk.Loader(s.tasks[id].digest, ALL[k], stage);
      t.(disk := Disk.Do(g.host, t.disk, Disk.AdvanceLoad(id))) ==
      Loads(s, id, k, Disk.LoadNext(g.host, s.disk.files, loader))
  {
  }

  lemma FindsNothing(g: Config, o: State, s: State, id: nat, k: nat)
    requires Leads(g, o, s) && At(s, id, BeforeLoad(k)) && g.hasDisk && k < |ALL| && id !in s.disk.clients
    requires NoEntry(s.disk.files, s.tasks[id].digest, ALL[k])
    ensures Leads(g, o, Loads(s, id, k, Disk.Loaded(Ok(None))))
  {
    BeginsLoad(g, o, s, id, k);
    DiskSteps(g, o, Loads(s, id, k, Disk.CheckArtifact), Disk.AdvanceLoad(id));
    LoadAdvances(g, s, id, k, Disk.CheckArtifact);
    DiskSteps(g, o, Loads(s, id, k, Disk.CheckMetadata), Disk.AdvanceLoad(id));
    LoadAdvances(g, s, id, k, Disk.CheckMetadata);
  }

  /** A profile with no files is passed over. */
  lemma PassesProfile(g: Config, o: State, s: State, id: nat, k: nat)
    requires Leads(g, o, s) && At(s, id, BeforeLoad(k)) && g.hasDisk && k < |ALL| && id !in s.disk.clients
    requires NoEntry(s.disk.files, s.tasks[id].digest, ALL[k])
    ensures Leads(g, o, Goto(s, id, BeforeLoad(k + 1)))
  {
    var t := Loads(s, id, k, Disk.Loaded(Ok(None)));
    FindsNothing(g, o, s, id, k);
    EndsLoad(g, o, t, id);
    assert AfterLoad(t, id) == Goto(s, id, BeforeLoad(k + 1)) by {
      assert t.disk.clients - {id} == s.disk.clients;
    }
  }

  lemma {:induction false} PassesProfiles(g: Config, o: State, s: State, id: nat, k: nat)
    requires Leads(g, o, s) && At(s, id, BeforeLoad(0)) && g.hasDisk && k <= |ALL| && id !in s.disk.clients
    requires forall j :: 0 <= j < k ==> NoEntry(s.disk.files, s.tasks[id].digest, ALL[j])
    ensures Leads(g, o, Goto(s, id, BeforeLoad(k)))
  {
    if k == 0 {
      assert Goto(s, id, BeforeLoad(0)) == s;
    } else {
      PassesProfiles(g, o, s, id, k - 1);
      var t := Goto(s, id, BeforeLoad(k - 1));
      assert NoEntry(s.disk.files, s.tasks[id].digest, ALL[k - 1]);
      PassesProfile(g, o, t, id, k - 1);
      assert Goto(t, id, BeforeLoad(k)) == Goto(s, id, BeforeLoad(k));
    }
  }

  /** The files of a profile are intact and hold `b`. */
  ghost predicate Stored(g: Config, s: State, source: Bytes, k: nat, b: Bytes)
    requires k < |ALL|
  {
    DiskRuns.Settled(g.host, s.disk, DiskRuns.Agreed(DigestOf(g, source), ALL[k], b))
  }

  lemma LoadsBytes(g: Config, o: State, s: State, id: nat, source: Bytes, k: nat, b: Bytes)
    requires Leads(g, o, s) && At(s, id, BeforeLoad(k)) && s.tasks[id].digest == DigestOf(g, source)
    requires g.hasDisk && k < |ALL| && id !in s.disk.clients && Disk.Sound(g.host) && Stored(g, s, source, k, b)
    ensures Leads(g, o, Loads(s, id, k, Disk.Loaded(Ok(Some(b)))))
  {
    BeginsLoad(g, o, s, id, k);
    var t, e := Loads(s, id, k, Disk.CheckArtifact), DiskRuns.Agreed(DigestOf(g, source), ALL[k], b);
    DiskRuns.Loads(g.host, t.disk, e, id);
    var loaded := Disk.Loader(e.digest, e.profile, Disk.Loaded(Ok(Some(b))));
    DiskLeads(g, o, t, DiskRuns.LoadSteps(id), t.disk.(clients := t.disk.clients[id := loaded]));
    assert t.(disk := t.disk.(clients := t.disk.clients[id := loaded])) == Loads(s, id, k, Disk.Loaded(Ok(Some(b))));
  }

  lemma FindsBytes(g: Config, o: State, s: State, id: nat, source: Bytes, k: nat, b: Bytes)
    requires Leads(g, o, s) && At(s, id, BeforeLoad(k)) && s.tasks[id].digest == DigestOf(g, source)
    requires g.hasDisk && k < |ALL| && id !in s.disk.clients && Disk.Sound(g.host) && Stored(g, s, source, k, b)
    ensures Leads(g, o, Goto(s, id, DiskHit(k, b)))
  {
    var t := Loads(s, id, k, Disk.Loaded(Ok(Some(b))));
    LoadsBytes(g, o, s, id, source, k, b);
    EndsLoad(g, o, t, id);
    assert AfterLoad(t, id) == Goto(s, id, DiskHit(k, b)) by {
      assert t.disk.clients - {id} == s.disk.clients;
    }
  }

  /** What the disk holds for a profile is deserialized, put into both tiers and handed out. */
  lemma HitServes(g: Config, o: State, s: State, id: nat, source: Bytes, k: nat, c: CacheState)
    requires Sound(g) && source in g.sources && Compile(g, source).Some? && DigestOf(g, source) !in s.locks
    requires k < |ALL| && ALL[k] == Compile(g, source).value.0.profile
    requires var (v, b) := Compile(g, source).value;
      Leads(g, o, Holding(g, s, id, source, DiskHit(k, b)).(cache := c))
    ensures var (v, b) := Compile(g, source).value; var d := DigestOf(g, source);
      Leads(g, o, With(g, s, id, source, Done(Ok(v))).(cache := InsertBoth(c, d, Aot(b, v.profile), v)))
  {
    var (v, b) := Compile(g, source).value;
    var d := DigestOf(g, source);
    DeserializeGood(g, source, Aot(b, v.profile));
    UsesLoaded(g, o, Holding(g, s, id, source, DiskHit(k, b)).(cache := c), id);
    Releases(g, s, id, source, DiskHit(k, b), InsertBoth(c, d, Aot(b, v.profile), v), Ok(v));
  }

  /** Both tiers after a call that missed in memory has looked everywhere there. */
  ghost function Missed(c: CacheState, d: Bytes): (r: CacheState)
  {
    Apply(Checked(c, d), Warmish(d))
  }

  predicate NotInMemory(g: Config, s: State, source: Bytes)
  {
    DigestOf(g, source) !in s.cache.warm && DigestOf(g, source) !in s.cache.warmish
  }

  lemma ReachesProfile(g: Config, o: State, s: State, id: nat, source: Bytes, k: nat)
    requires Leads(g, o, s) && Free(g, s, id, source) && NotInMemory(g, s, source) && g.hasDisk && k <= |ALL|
    requires forall j :: 0 <= j < k ==> NoEntry(s.disk.files, DigestOf(g, source), ALL[j])
    ensures Leads(g, o, Holding(g, s, id, source, BeforeLoad(k)).(cache := Missed(s.cache, DigestOf(g, source))))
  {
    var c := Missed(s.cache, DigestOf(g, source));
    var t := Holding(g, s, id, source, BeforeLoad(0)).(cache := c);
    MissesMemory(g, o, s, id, source);
    PassesProfiles(g, o, t, id, k);
    assert Goto(t, id, BeforeLoad(k)) == Holding(g, s, id, source, BeforeLoad(k)).(cache := c);
  }

  lemma FindsStored(g: Config, o: State, s: State, id: nat, source: Bytes, k: nat, b: Bytes)
    requires Disk.Sound(g.host) && Leads(g, o, s) && Free(g, s, id, source) && NotInMemory(g, s, source) && g.hasDisk
    requires k < |ALL| && Stored(g, s, source, k, b)
    requires forall j :: 0 <= j < k ==> NoEntry(s.disk.files, DigestOf(g, source), ALL[j])
    ensures Leads(g, o, Holding(g, s, id, source, DiskHit(k, b)).(cache := Missed(s.cache, DigestOf(g, source))))
  {
    var c := Missed(s.cache, DigestOf(g, source));
    var t := Holding(g, s, id, source, BeforeLoad(k)).(cache := c);
    ReachesProfile(g, o, s, id, source, k);
    FindsBytes(g, o, t, id, source, k, b);
    assert Goto(t, id, DiskHit(k, b)) == Holding(g, s, id, source, DiskHit(k, b)).(cache := c);
  }

  /** A component stored under the profile it has, and under none that is tried before, is served from the disk. */
  lemma DiskServes(g: Config, o: State, s: State, id: nat, source: Bytes, k: nat)
    requires Sound(g) && Leads(g, o, s) && Free(g, s, id, source) && NotInMemory(g, s, source) && g.hasDisk
    requires Compile(g, source).Some? && k < |ALL| && ALL[k] == Compile(g, source).value.0.profile
    requires Stored(g, s, source, k, Compile(g, source).value.1)
    requires forall j :: 0 <= j < k ==> NoEntry(s.disk.files, DigestOf(g, source), ALL[j])
    ensures var (v, b) := Compile(g, source).value; var d := DigestOf(g, source);
      var c := InsertBoth(Missed(s.cache, d), d, Aot(b, v.profile), v);
      Leads(g, o, With(g, s, id, source, Done(Ok(v))).(cache := c))
  {
    FindsStored(g, o, s, id, source, k, Compile(g, source).value.1);
    HitServes(g, o, s, id, source, k, Missed(s.cache, DigestOf(g, source)));
  }

  /** Some file of the entry is there, and together they do not authenticate. */
  ghost predicate Untrusted(h: Disk.Host, files: map<Disk.Path, Bytes>, d: Bytes, p: WasiProfile)
  {
    && !NoEntry(files, d, p)
    && (Disk.ArtifactFile(d, p) in files ==> !Disk.Vouched(h, files, d, p, files[Disk.ArtifactFile(d, p)]))
  }

  lemma UntrustedFails(h: Disk.Host, files: map<Disk.Path, Bytes>, d: Bytes, p: WasiProfile)
    requires Untrusted(h, files, d, p)
    ensures Disk.LoadFrom(h, files, Disk.Loader(d, p, Disk.CheckArtifact)).Err?
  {
    var r := Disk.LoadFrom(h, files, Disk.Loader(d, p, Disk.CheckArtifact));
    Disk.LoadReturns(h, files, d, p, if r.Ok? && r.value.Some? then r.value.value else []);
  }

  /** A load that is left alone ends as the files decide. */
  lemma LoadEnds(g: Config, o: State, s: State, id: nat, k: nat)
    requires Leads(g, o, s) && At(s, id, BeforeLoad(k)) && g.hasDisk && k < |ALL| && id !in s.disk.clients
    requires var path := Disk.ArtifactFile(s.tasks[id].digest, ALL[k]);
      path in s.disk.files ==> Disk.InScope(g.host, s.tasks[id].digest, ALL[k], s.disk.files[path])
    ensures var loader := Disk.Loader(s.tasks[id].digest, ALL[k], Disk.CheckArtifact);
      Leads(g, o, Loads(s, id, k, Disk.Loaded(Disk.LoadFrom(g.host, s.disk.files, loader))))
  {
    var t, loader := Loads(s, id, k, Disk.CheckArtifact), Disk.Loader(s.tasks[id].digest, ALL[k], Disk.CheckArtifact);
    var u := Loads(s, id, k, Disk.Loaded(Disk.LoadFrom(g.host, s.disk.files, loader)));
    BeginsLoad(g, o, s, id, k);
    var steps := DiskRuns.LoadRuns(g.host, t.disk, id);
    assert t.disk.(clients := t.disk.clients[id := u.disk.clients[id]]) == u.disk;
    DiskLeads(g, o, t, steps, u.disk);
    assert t.(disk := u.disk) == u;
  }

  lemma LoadFails(g: Config, o: State, s: State, id: nat, k: nat)
    requires Leads(g, o, s) && At(s, id, BeforeLoad(k)) && g.hasDisk && k < |ALL| && id !in s.disk.clients
    requires Untrusted(g.host, s.disk.files, s.tasks[id].digest, ALL[k])
    requires var path := Disk.ArtifactFile(s.tasks[id].digest, ALL[k]);
      path in s.disk.files ==> Disk.InScope(g.host, s.tasks[id].digest, ALL[k], s.disk.files[path])
    ensures Leads(g, o, Return(s, id, Err(CacheRejected)))
  {
    var loader := Disk.Loader(s.tasks[id].digest, ALL[k], Disk.CheckArtifact);
    var u := Loads(s, id, k, Disk.Loaded(Disk.LoadFrom(g.host, s.disk.files, loader)));
    UntrustedFails(g.host, s.disk.files, s.tasks[id].digest, ALL[k]);
    LoadEnds(g, o, s, id, k);
    EndsLoad(g, o, u, id);
    assert AfterLoad(u, id) == Return(s, id, Err(CacheRejected)) by {
      assert u.disk.clients - {id} == s.disk.clients;
    }
  }

  /** An entry that is half published, malformed, too large, of another build or not authentic fails closed: the call is
      answered with the rejection, and every file is as it was. */
  lemma FailsClosed(g: Config, o: State, s: State, id: nat, source: Bytes, k: nat)
    requires Leads(g, o, s) && Free(g, s, id, source) && NotInMemory(g, s, source) && g.hasDisk && k < |ALL|
    requires forall j :: 0 <= j < k ==> NoEntry(s.disk.files, DigestOf(g, source), ALL[j])
    requires Untrusted(g.host, s.disk.files, DigestOf(g, source), ALL[k])
    requires var d := DigestOf(g, source); var path := Disk.ArtifactFile(d, ALL[k]);
      path in s.disk.files ==> Disk.InScope(g.host, d, ALL[k], s.disk.files[path])
    ensures var c := Missed(s.cache, DigestOf(g, source));
      Leads(g, o, With(g, s, id, source, Done(Err(CacheRejected))).(cache := c))
  {
    var c := Missed(s.cache, DigestOf(g, source));
    ReachesProfile(g, o, s, id, source, k);
    LoadFails(g, o, Holding(g, s, id, source, BeforeLoad(k)).(cache := c), id, k);
    Releases(g, s, id, source, BeforeLoad(k), c, Err(CacheRejected));
  }

  // ---------------------------------------------------------------- from the compiler

  /** A call in the compiler. */
  ghost predicate InCompiler(g: Config, o: State, s: State, id: nat, source: Bytes, c: CacheState)
  {
    DigestOf(g, source) !in s.locks && Leads(g, o, Holding(g, s, id, source, Compiling).(cache := c))
  }

  lemma CompilesWithoutDisk(g: Config, o: State, s: State, id: nat, source: Bytes)
    requires Leads(g, o, s) && Free(g, s, id, source) && NotInMemory(g, s, source) && !g.hasDisk
    ensures InCompiler(g, o, s, id, source, Missed(s.cache, DigestOf(g, source)))
  {
    var c := Missed(s.cache, DigestOf(g, source));
    var t := Holding(g, s, id, source, BeforeLoad(0)).(cache := c);
    MissesMemory(g, o, s, id, source);
    BeginsCompile(g, o, t, id, 0);
    assert Goto(t, id, Compiling) == Holding(g, s, id, source, Compiling).(cache := c);
  }

  lemma CompilesAfterDisk(g: Config, o: State, s: State, id: nat, source: Bytes)
    requires Leads(g, o, s) && Free(g, s, id, source) && NotInMemory(g, s, source) && g.hasDisk
    requires forall j :: 0 <= j < |ALL| ==> NoEntry(s.disk.files, DigestOf(g, source), ALL[j])
    ensures InCompiler(g, o, s, id, source, Missed(s.cache, DigestOf(g, source)))
  {
    var c := Missed(s.cache, DigestOf(g, source));
    var t := Holding(g, s, id, source, BeforeLoad(|ALL|)).(cache := c);
    ReachesProfile(g, o, s, id, source, |ALL|);
    BeginsCompile(g, o, t, id, |ALL|);
    assert Goto(t, id, Compiling) == Holding(g, s, id, source, Compiling).(cache := c);
  }

  /** A source that does not compile: the call fails, the lock is free again and nothing else has changed. */
  lemma CompilerRefuses(g: Config, o: State, s: State, id: nat, source: Bytes, c: CacheState)
    requires InCompiler(g, o, s, id, source, c) && Compile(g, source).None?
    ensures Leads(g, o, With(g, s, id, source, Done(Err(CompileFailed))).(cache := c))
  {
    EndsCompile(g, o, Holding(g, s, id, source, Compiling).(cache := c), id);
    Releases(g, s, id, source, Compiling, c, Err(CompileFailed));
  }

  lemma CompilerAccepts(g: Config, o: State, s: State, id: nat, source: Bytes, c: CacheState)
    requires InCompiler(g, o, s, id, source, c) && Compile(g, source).Some?
    ensures var (v, b) := Compile(g, source).value;
      Leads(g, o, Holding(g, s, id, source, Compiled(v, b)).(cache := c))
  {
    var (v, b) := Compile(g, source).value;
    var t := Holding(g, s, id, source, Compiling).(cache := c);
    EndsCompile(g, o, t, id);
    assert AfterCompile(g, t, id) == Holding(g, s, id, source, Compiled(v, b)).(cache := c);
  }

  /** The last step of a cold call. */
  lemma InsertsAndReturns(g: Config, o: State, s: State, id: nat, source: Bytes, c: CacheState)
    requires Compile(g, source).Some? && DigestOf(g, source) !in s.locks
    requires var (v, b) := Compile(g, source).value;
      Leads(g, o, Holding(g, s, id, source, Inserting(v, b)).(cache := c))
    ensures var (v, b) := Compile(g, source).value; var d := DigestOf(g, source);
      Leads(g, o, With(g, s, id, source, Done(Ok(v))).(cache := InsertBoth(c, d, Aot(b, v.profile), v)))
  {
    var (v, b) := Compile(g, source).value;
    Inserts(g, o, Holding(g, s, id, source, Inserting(v, b)).(cache := c), id);
    Releases(g, s, id, source, Inserting(v, b), InsertBoth(c, DigestOf(g, source), Aot(b, v.profile), v), Ok(v));
  }

  /** Without a disk: a source that compiles is compiled, put into both tiers and handed out. */
  lemma ColdServes(g: Config, o: State, s: State, id: nat, source: Bytes)
    requires Leads(g, o, s) && Free(g, s, id, source) && NotInMemory(g, s, source) && !g.hasDisk
    requires Compile(g, source).Some?
    ensures var (v, b) := Compile(g, source).value; var d := DigestOf(g, source);
      var c := InsertBoth(Missed(s.cache, d), d, Aot(b, v.profile), v);
      Leads(g, o, With(g, s, id, source, Done(Ok(v))).(cache := c))
  {
    var (v, b) := Compile(g, source).value;
    var c := Missed(s.cache, DigestOf(g, source));
    var t := Holding(g, s, id, source, Compiled(v, b)).(cache := c);
    CompilesWithoutDisk(g, o, s, id, source);
    CompilerAccepts(g, o, s, id, source, c);
    BeginsPublish(g, o, t, id);
    assert BeginPublish(g, t, id) == Holding(g, s, id, source, Inserting(v, b)).(cache := c);
    InsertsAndReturns(g, o, s, id, source, c);
  }

  /** `s` with its call in `publish`. */
  function Publishes(g: Config, s: State, id: nat, source: Bytes, v: Prepared, b: Bytes, disk: Disk.Disk): (r: State)
  {
    Holding(g, s, id, source, Publishing(v, b)).(disk := disk)
  }

  function EntryOf(g: Config, source: Bytes, v: Prepared, b: Bytes): (e: DiskRuns.Agreed)
  {
    DiskRuns.Agreed(DigestOf(g, source), v.profile, b)
  }

  /** Both files of an entry. */
  function WithEntry(h: Disk.Host, files: map<Disk.Path, Bytes>, e: DiskRuns.Agreed): (r: map<Disk.Path, Bytes>)
  {
    var m := Disk.MetadataFor(h, e.digest, e.profile, e.bytes);
    var artifact, metadata := Disk.ArtifactFile(e.digest, e.profile), Disk.MetadataFile(e.digest, e.profile);
    files[artifact := e.bytes][metadata := h.encodeMetadata(m)]
  }

  /** An undisturbed publisher writes both files and no others. */
  lemma DiskPublishes(g: Config, disk: Disk.Disk, id: nat, e: DiskRuns.Agreed)
      returns (steps: seq<Disk.Step>, r: Disk.Disk)
    requires id in disk.clients
    requires disk.clients[id] == Disk.Publisher(e.digest, e.profile, e.bytes, Disk.ArtifactPhase, Disk.Begin)
    requires forall n :: Disk.Temporary(n) !in disk.files
    requires |e.bytes| <= g.host.maxEntryBytes && Disk.InScope(g.host, e.digest, e.profile, e.bytes)
    ensures DiskRuns.Runs(g.host, disk, steps, r) && r.files == WithEntry(g.host, disk.files, e)
    ensures forall k :: 0 <= k < |steps| ==> steps[k] in DiskRuns.FileSteps(id)
    ensures r.clients == disk.clients[id := disk.clients[id].(phase := Disk.MetadataPhase, stage := Disk.Ended(true))]
  {
    var mid := DiskRuns.PublishesFile(g.host, disk, id);
    r := DiskRuns.PublishesFile(g.host, mid, id);
    DiskRuns.RunsJoin(g.host, disk, DiskRuns.FileSteps(id), mid, DiskRuns.FileSteps(id), r);
    steps := DiskRuns.FileSteps(id) + DiskRuns.FileSteps(id);
  }

  lemma EntersPublish(g: Config, o: State, s: State, id: nat, source: Bytes, v: Prepared, b: Bytes)
    requires Leads(g, o, Holding(g, s, id, source, Compiled(v, b))) && g.hasDisk && id !in s.disk.clients
    requires var e := EntryOf(g, source, v, b);
      |b| <= g.host.maxEntryBytes ==> Disk.InScope(g.host, e.digest, e.profile, b)
    ensures var e := EntryOf(g, source, v, b); var begin := Disk.BeginPublish(id, e.digest, e.profile, b);
      Leads(g, o, Publishes(g, s, id, source, v, b, Disk.Do(g.host, s.disk, begin)))
  {
    var t := Holding(g, s, id, source, Compiled(v, b));
    BeginsPublish(g, o, t, id);
    assert BeginPublish(g, t, id) ==
      Publishes(g, s, id, source, v, b, Disk.Do(g.host, s.disk, PublishStep(t.tasks[id], id)));
  }

  /** What `publish` leaves behind. */
  lemma LeavesPublish(g: Config, o: State, s: State, id: nat, source: Bytes, v: Prepared, b: Bytes, disk: Disk.Disk)
    requires Leads(g, o, Publishes(g, s, id, source, v, b, disk))
    requires id in disk.clients && disk.clients[id].Publisher? && disk.clients[id].stage.Ended?
    ensures var left := disk.(clients := disk.clients - {id});
      var failed := if disk.clients[id].stage.ok then 0 else 1;
      Leads(g, o, Holding(g, s.(disk := left, publishFailures := s.publishFailures + failed), id, source,
                          Inserting(v, b)))
  {
    var t := Publishes(g, s, id, source, v, b, disk);
    EndsPublish(g, o, t, id);
    var left := disk.(clients := disk.clients - {id});
    var failed := if disk.clients[id].stage.ok then 0 else 1;
    assert AfterPublish(t, id) ==
      Holding(g, s.(disk := left, publishFailures := s.publishFailures + failed), id, source, Inserting(v, b));
  }

  /** An artifact within the entry limit ends up on the disk under its own profile. */
  lemma PublishSucceeds(g: Config, o: State, s: State, id: nat, source: Bytes, v: Prepared, b: Bytes)
      returns (disk: Disk.Disk)
    requires Leads(g, o, Holding(g, s, id, source, Compiled(v, b))) && g.hasDisk && id !in s.disk.clients
    requires forall n :: Disk.Temporary(n) !in s.disk.files
    requires |b| <= g.host.maxEntryBytes && Disk.InScope(g.host, DigestOf(g, source), v.profile, b)
    ensures disk.files == WithEntry(g.host, s.disk.files, EntryOf(g, source, v, b)) && disk.clients == s.disk.clients
    ensures Leads(g, o, Holding(g, s.(disk := disk), id, source, Inserting(v, b)))
  {
    var e := EntryOf(g, source, v, b);
    EntersPublish(g, o, s, id, source, v, b);
    var begun := Disk.Do(g.host, s.disk, Disk.BeginPublish(id, e.digest, e.profile, b));
    var steps, r := DiskPublishes(g, begun, id, e);
    DiskLeads(g, o, Publishes(g, s, id, source, v, b, begun), steps, r);
    LeavesPublish(g, o, s, id, source, v, b, r);
    disk := r.(clients := r.clients - {id});
    assert r.clients - {id} == s.disk.clients;
  }

  /** An artifact over the limit is not stored; this is counted and does not fail the call. */
  lemma PublishRefused(g: Config, o: State, s: State, id: nat, source: Bytes, v: Prepared, b: Bytes)
    requires Leads(g, o, Holding(g, s, id, source, Compiled(v, b))) && g.hasDisk && id !in s.disk.clients
    requires |b| > g.host.maxEntryBytes
    ensures Leads(g, o, Holding(g, s.(publishFailures := s.publishFailures + 1), id, source, Inserting(v, b)))
  {
    EntersPublish(g, o, s, id, source, v, b);
    var e := EntryOf(g, source, v, b);
    var ended := Disk.Publisher(e.digest, e.profile, b, Disk.ArtifactPhase, Disk.Ended(false));
    var disk := s.disk.(clients := s.disk.clients[id := ended]);
    LeavesPublish(g, o, s, id, source, v, b, disk);
    assert disk.clients - {id} == s.disk.clients;
    assert disk.(clients := disk.clients - {id}) == s.disk;
  }

  /** Nor does an I/O error during `publish` fail the call: it is counted and leaves the files as they were. */
  lemma PublishFails(g: Config, o: State, s: State, id: nat, source: Bytes, v: Prepared, b: Bytes)
      returns (disk: Disk.Disk)
    requires Leads(g, o, Holding(g, s, id, source, Compiled(v, b))) && g.hasDisk && id !in s.disk.clients
    requires |b| <= g.host.maxEntryBytes && Disk.InScope(g.host, DigestOf(g, source), v.profile, b)
    ensures disk.files == s.disk.files && disk.clients == s.disk.clients
    ensures var t := s.(disk := disk, publishFailures := s.publishFailures + 1);
      Leads(g, o, Holding(g, t, id, source, Inserting(v, b)))
  {
    var e := EntryOf(g, source, v, b);
    EntersPublish(g, o, s, id, source, v, b);
    var begun := Disk.Do(g.host, s.disk, Disk.BeginPublish(id, e.digest, e.profile, b));
    DiskSteps(g, o, Publishes(g, s, id, source, v, b, begun), Disk.FailPublish(id));
    var failed := Disk.Do(g.host, begun, Disk.FailPublish(id));
    LeavesPublish(g, o, s, id, source, v, b, failed);
    disk := failed.(clients := failed.clients - {id});
    assert failed.clients - {id} == s.disk.clients;
  }

  /** An artifact that may be published. */
  ghost predicate Publishable(g: Config, source: Bytes)
  {
    && source in g.sources && Compile(g, source).Some?
    && var (v, b) := Compile(g, source).value;
       |b| <= g.host.maxEntryBytes && Disk.InScope(g.host, DigestOf(g, source), v.profile, b)
  }

  /** A call that found no entry for its source has compiled it. */
  lemma CompiledAfterDisk(g: Config, o: State, s: State, id: nat, source: Bytes)
    requires Leads(g, o, s) && Free(g, s, id, source) && NotInMemory(g, s, source) && g.hasDisk
    requires forall j :: 0 <= j < |ALL| ==> NoEntry(s.disk.files, DigestOf(g, source), ALL[j])
    requires Compile(g, source).Some?
    ensures var (v, b) := Compile(g, source).value;
      Leads(g, o, Holding(g, s.(cache := Missed(s.cache, DigestOf(g, source))), id, source, Compiled(v, b)))
  {
    CompilesAfterDisk(g, o, s, id, source);
    CompilerAccepts(g, o, s, id, source, Missed(s.cache, DigestOf(g, source)));
  }

  /** With a disk that has no entry for the source: it is compiled, stored on the disk and in both tiers, and handed
      out. */
  lemma ColdPublishes(g: Config, o: State, s: State, id: nat, source: Bytes) returns (disk: Disk.Disk)
    requires Leads(g, o, s) && Free(g, s, id, source) && NotInMemory(g, s, source) && g.hasDisk
    requires forall j :: 0 <= j < |ALL| ==> NoEntry(s.disk.files, DigestOf(g, source), ALL[j])
    requires forall n :: Disk.Temporary(n) !in s.disk.files
    requires Publishable(g, source)
    ensures var (v, b) := Compile(g, source).value; var d := DigestOf(g, source);
      && disk.files == WithEntry(g.host, s.disk.files, EntryOf(g, source, v, b)) && disk.clients == s.disk.clients
      && var c := InsertBoth(Missed(s.cache, d), d, Aot(b, v.profile), v);
         Leads(g, o, With(g, s.(disk := disk), id, source, Done(Ok(v))).(cache := c))
  {
    var (v, b) := Compile(g, source).value;
    var c := Missed(s.cache, DigestOf(g, source));
    CompiledAfterDisk(g, o, s, id, source);
    disk := PublishSucceeds(g, o, s.(cache := c), id, source, v, b);
    InsertsAndReturns(g, o, s.(disk := disk), id, source, c);
  }

  /** The same when the artifact is too large for the disk: the call succeeds and the failure is counted. */
  lemma ColdCounts(g: Config, o: State, s: State, id: nat, source: Bytes)
    requires Leads(g, o, s) && Free(g, s, id, source) && NotInMemory(g, s, source) && g.hasDisk
    requires forall j :: 0 <= j < |ALL| ==> NoEntry(s.disk.files, DigestOf(g, source), ALL[j])
    requires Compile(g, source).Some? && |Compile(g, source).value.1| > g.host.maxEntryBytes
    ensures var (v, b) := Compile(g, source).value; var d := DigestOf(g, source);
      var c := InsertBoth(Missed(s.cache, d), d, Aot(b, v.profile), v);
      Leads(g, o, With(g, s, id, source, Done(Ok(v))).(cache := c, publishFailures := s.publishFailures + 1))
  {
    var (v, b) := Compile(g, source).value;
    var c := Missed(s.cache, DigestOf(g, source));
    CompiledAfterDisk(g, o, s, id, source);
    PublishRefused(g, o, s.(cache := c), id, source, v, b);
    InsertsAndReturns(g, o, s.(publishFailures := s.publishFailures + 1), id, source, c);
  }

  /** The same when writing the files fails. */
  lemma ColdSurvives(g: Config, o: State, s: State, id: nat, source: Bytes) returns (disk: Disk.Disk)
    requires Leads(g, o, s) && Free(g, s, id, source) && NotInMemory(g, s, source) && g.hasDisk
    requires forall j :: 0 <= j < |ALL| ==> NoEntry(s.disk.files, DigestOf(g, source), ALL[j])
    requires Publishable(g, source)
    ensures disk.files == s.disk.files && disk.clients == s.disk.clients
    ensures var (v, b) := Compile(g, source).value; var d := DigestOf(g, source);
      var t := s.(disk := disk, publishFailures := s.publishFailures + 1);
      var c := InsertBoth(Missed(s.cache, d), d, Aot(b, v.profile), v);
      Leads(g, o, With(g, t, id, source, Done(Ok(v))).(cache := c))
  {
    var (v, b) := Compile(g, source).value;
    var c := Missed(s.cache, DigestOf(g, source));
    CompiledAfterDisk(g, o, s, id, source);
    disk := PublishFails(g, o, s.(cache := c), id, source, v, b);
    InsertsAndReturns(g, o, s.(disk := disk, publishFailures := s.publishFailures + 1), id, source, c);
  }

  // ---------------------------------------------------------------- one source through all tiers

  /** A process that has just started. */
  function Begun(g: Config, disk: Disk.Disk): (s: State)
  {
    State(Empty(g.limits), disk, map[], map[], 0)
  }

  lemma InsertedIsWarm(c: CacheState, d: Bytes, aot: Aot, v: Prepared)
    requires Stamped(c.warm, c.sequence) && Stamped(c.warmish, c.sequence)
    requires c.sequence + 1 < USIZE_MAX && c.limits.maxWarm > 0
    ensures var r := InsertBoth(c, d, aot, v); d in r.warm && r.warm[d].value == v
  {
    ApplyStamped(c, InsertWarmish(d, aot));
    NewWarmEntrySurvives(Apply(c, InsertWarmish(d, aot)), d, v);
  }

  lemma FirstCall(g: Config, source: Bytes) returns (s: State, disk: Disk.Disk)
    requires g.hasDisk && Publishable(g, source) && g.limits.maxWarm > 0
    ensures Leads(g, Begun(g, DiskRuns.EMPTY), s) && s.disk == disk && disk.clients == map[]
    ensures var (v, b) := Compile(g, source).value; var d := DigestOf(g, source);
      && disk.files == WithEntry(g.host, map[], EntryOf(g, source, v, b))
      && s.tasks == map[1 := Task(d, source, Done(Ok(v)))] && s.locks == map[]
      && d in s.cache.warm && s.cache.warm[d].value == v
  {
    var o := Begun(g, DiskRuns.EMPTY);
    var (v, b) := Compile(g, source).value;
    var d := DigestOf(g, source);
    disk := ColdPublishes(g, o, o, 1, source);
    var c := Missed(o.cache, d);
    s := With(g, o.(disk := disk), 1, source, Done(Ok(v))).(cache := InsertBoth(c, d, Aot(b, v.profile), v));
    InsertedIsWarm(c, d, Aot(b, v.profile), v);
  }

  /** The place of a profile in the order of the disk tier. */
  function Rank(p: WasiProfile): (k: nat)
    ensures k < |ALL| && ALL[k] == p
  {
    match p { case Cli03 => 0 case Cli02 => 1 case Http03 => 2 case Http02 => 3 }
  }

  lemma AfterCrash(g: Config, o: State, source: Bytes, disk: Disk.Disk)
    requires Sound(g) && g.hasDisk && Publishable(g, source) && disk.clients == map[]
    requires Leads(g, o, Begun(g, disk))
    requires var (v, b) := Compile(g, source).value;
      disk.files == WithEntry(g.host, map[], EntryOf(g, source, v, b))
    ensures var (v, b) := Compile(g, source).value; var d := DigestOf(g, source);
      var c := InsertBoth(Missed(Empty(g.limits), d), d, Aot(b, v.profile), v);
      Leads(g, o, With(g, Begun(g, disk), 1, source, Done(Ok(v))).(cache := c))
  {
    var k := Rank(Compile(g, source).value.0.profile);
    DiskServes(g, o, Begun(g, disk), 1, source, k);
  }

  lemma Crashes(g: Config, o: State, s: State)
    requires Leads(g, o, s) && s.disk.clients == map[]
    ensures Leads(g, o, Begun(g, s.disk))
  {
    Steps(g, o, s, Crash);
    assert s.disk.clients - s.tasks.Keys == map[];
  }

  /** One source through all tiers: the first call compiles and publishes it, a second finds it in memory, and a call
      after a crash finds it on the disk.  All three return what compiling gives. */
  lemma EveryTierServes(g: Config, source: Bytes) returns (cold: State, warm: State, again: State)
    requires Sound(g) && g.hasDisk && Publishable(g, source) && g.limits.maxWarm > 0
    ensures var o := Begun(g, DiskRuns.EMPTY); Leads(g, o, cold) && Leads(g, o, warm) && Leads(g, o, again)
    ensures var v := Compile(g, source).value.0;
      At(cold, 1, Done(Ok(v))) && At(warm, 2, Done(Ok(v))) && At(again, 1, Done(Ok(v)))
  {
    var (v, b) := Compile(g, source).value;
    var o, d := Begun(g, DiskRuns.EMPTY), DigestOf(g, source);
    var disk;
    cold, disk := FirstCall(g, source);
    WarmServes(g, o, cold, 2, source);
    warm := With(g, cold, 2, source, Done(Ok(v))).(cache := Apply(cold.cache, Warm(d)));
    Crashes(g, o, cold);
    AfterCrash(g, o, source, disk);
    var c := InsertBoth(Missed(Empty(g.limits), d), d, Aot(b, v.profile), v);
    again := With(g, Begun(g, disk), 1, source, Done(Ok(v))).(cache := c);
  }

  // ---------------------------------------------------------------- what can be reached is reached by a run

  ghost predicate RunsTo(g: Config, o: State, states: seq<State>, events: seq<Event>, r: State)
  {
    Run(g, states, events) && states[0] == o && states[|events|] == r
  }

  ghost predicate Reached(g: Config, o: State, r: State)
  {
    exists states, events :: RunsTo(g, o, states, events, r)
  }

  lemma ReachedNext(g: Config, o: State, s: State, e: Event)
    requires Reached(g, o, s) && Enabled(g, s, e)
    ensures Reached(g, o, Do(g, s, e))
  {
    var states, events :| RunsTo(g, o, states, events, s);
    var more, all := states + [Do(g, s, e)], events + [e];
    forall i | 0 <= i < |all| ensures Enabled(g, more[i], all[i]) && more[i + 1] == Do(g, more[i], all[i]) {
      if i < |events| { assert Enabled(g, states[i], events[i]); }
    }
    assert RunsTo(g, o, more, all, Do(g, s, e));
  }

  lemma LeadsIsRun(g: Config, o: State, r: State) returns (states: seq<State>, events: seq<Event>)
    requires Initial(g, o) && Leads(g, o, r)
    ensures Run(g, states, events) && states[0] == o && states[|events|] == r
  {
    var reached := iset s: State | Reached(g, o, s);
    assert RunsTo(g, o, [o], [], o);
    forall s, e | s in reached && Enabled(g, s, e) ensures Do(g, s, e) in reached { ReachedNext(g, o, s, e); }
    assert r in reached;
    states, events :| RunsTo(g, o, states, events, r);
  }

  /** There are sound configurations with such a source. */
  lemma SoundConfig() returns (g: Config, source: Bytes)
    ensures Sound(g) && g.hasDisk && Publishable(g, source) && g.limits.Valid()
  {
    source := [1];
    var names := [CLI_03_EXPORT];
    var c, b := Component([2], names), [3];
    assert WorldOf(names[0]) == Some(Cli03);
    DetectedUnique(names, Detect(names), Ok(Cli03));
    var digest: Digest := seq(32, _ => 0);
    var host := DiskRuns.SoundHost(DiskRuns.Agreed(Hex(digest), Cli03, b));
    var tools := Toolchain(_ => digest, _ => Some(c), _ => Some(b), _ => Some(c));
    g := Config(tools, iset{source}, host, true, Limits(1, 1, 1));
    assert Compile(g, source) == Some((Prepared(c, Cli03), b));
  }
}
