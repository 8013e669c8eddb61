/** Whole runs of the disk cache: what a load may return, and what it must return once one publisher has
    finished (src/cache.rs). */
module DiskRuns {
  import opened Bytes
  import opened Wrappers
  import opened Crypto
  import opened Profiles
  import opened DiskCache

  ghost predicate Runs(h: Host, s: Disk, steps: seq<Step>, r: Disk)
    decreases |steps|
  {
    if steps == [] then r == s
    else Enabled(h, s, steps[0]) && Runs(h, Do(h, s, steps[0]), steps[1..], r)
  }

  /** A directory as earlier processes left it: nobody is working on it and no tag in it is forged. */
  ghost predicate Initial(h: Host, s: Disk)
  {
    s.clients == map[] && Inv(h, s)
  }

  lemma {:induction false} RunKeepsInv(h: Host, s: Disk, steps: seq<Step>, r: Disk)
    requires Sound(h) && Inv(h, s) && Runs(h, s, steps, r)
    ensures Inv(h, r)
    decreases |steps|
  {
    if steps != [] {
      InvStep(h, s, steps[0]);
      RunKeepsInv(h, Do(h, s, steps[0]), steps[1..], r);
    }
  }

  /** Some step of the run started publishing `artifact` under this identity. */
  ghost predicate PublishedIn(h: Host, steps: seq<Step>, identity: Identity, artifact: Bytes)
  {
    exists k :: 0 <= k < |steps| && steps[k].BeginPublish? &&
      IdentityOf(h, steps[k].digest, steps[k].profile) == identity && steps[k].artifact == artifact
  }

  lemma {:induction false} PublishedBySteps(h: Host, s: Disk, steps: seq<Step>, r: Disk, i: Identity, a: Bytes)
    requires Runs(h, s, steps, r) && (i, a) in r.published
    ensures (i, a) in s.published || PublishedIn(h, steps, i, a)
    decreases |steps|
  {
    if steps != [] {
      PublishedBySteps(h, Do(h, s, steps[0]), steps[1..], r, i, a);
      if PublishedIn(h, steps[1..], i, a) {
        var k :| 0 <= k < |steps[1..]| && steps[1..][k].BeginPublish? &&
          IdentityOf(h, steps[1..][k].digest, steps[1..][k].profile) == i && steps[1..][k].artifact == a;
        assert steps[k + 1] == steps[1..][k];
      } else if (i, a) !in s.published {
        assert steps[0].BeginPublish? && steps[0].artifact == a;
      }
    }
  }

  /** In every run, with any interleaving, crash and corruption, a load that returns bytes returns bytes that
      were published under exactly the identity it asked for. */
  lemma LoadIsAuthentic(h: Host, s: Disk, steps: seq<Step>, r: Disk, id: nat, bytes: Bytes)
    requires Sound(h) && Initial(h, s) && Runs(h, s, steps, r)
    requires id in r.clients && r.clients[id].Loader? && r.clients[id].load == Loaded(Ok(Some(bytes)))
    ensures var identity := IdentityOf(h, r.clients[id].digest, r.clients[id].profile);
      (identity, bytes) in s.published || PublishedIn(h, steps, identity, bytes)
  {
    RunKeepsInv(h, s, steps, r);
    assert ClientOk(h, r, r.clients[id]);
    PublishedBySteps(h, s, steps, r, IdentityOf(h, r.clients[id].digest, r.clients[id].profile), bytes);
  }

  // ---------------------------------------------------------------- one completed publication suffices

  /** An entry and the bytes all its publishers agree on. */
  datatype Agreed = Agreed(digest: Bytes, profile: WasiProfile, bytes: Bytes)

  predicate Concerns(c: Client, e: Agreed)
  {
    c.Publisher? && c.digest == e.digest && c.profile == e.profile
  }

  /** A file of the entry, or the temporary file of one of its publishers. */
  predicate Touches(s: Disk, path: Path, e: Agreed)
  {
    || path == ArtifactFile(e.digest, e.profile)
    || path == MetadataFile(e.digest, e.profile)
    || exists id :: id in s.clients && Concerns(s.clients[id], e) && HasTemp(s.clients[id]) &&
                    path == Temporary(s.clients[id].stage.temp)
  }

  /** Steps after which the entry is still intact: no outside change to its files, and no publisher with other bytes. */
  predicate Quiet(s: Disk, step: Step, e: Agreed)
  {
    match step
    case Corrupt(path, _) => !Touches(s, path, e)
    case BeginPublish(_, d, p, a) => d == e.digest && p == e.profile ==> a == e.bytes
    case _ => true
  }

  /** A run of such steps. */
  ghost predicate QuietRuns(h: Host, s: Disk, steps: seq<Step>, r: Disk, e: Agreed)
    ensures QuietRuns(h, s, steps, r, e) ==> Runs(h, s, steps, r)
    decreases |steps|
  {
    if steps == [] then r == s
    else
      Enabled(h, s, steps[0]) && Quiet(s, steps[0], e) && QuietRuns(h, Do(h, s, steps[0]), steps[1..], r, e)
  }

  predicate ArtifactPlaced(s: Disk, e: Agreed)
  {
    var path := ArtifactFile(e.digest, e.profile);
    path in s.files && s.files[path] == e.bytes
  }

  ghost predicate Settled(h: Host, s: Disk, e: Agreed)
  {
    var path := MetadataFile(e.digest, e.profile);
    && ArtifactPlaced(s, e)
    && path in s.files
    && s.files[path] == h.encodeMetadata(MetadataFor(h, e.digest, e.profile, e.bytes))
    && |e.bytes| <= h.maxEntryBytes && InScope(h, e.digest, e.profile, e.bytes)
  }

  ghost predicate PublisherAgrees(h: Host, s: Disk, e: Agreed, c: Client)
  {
    Concerns(c, e) ==>
      && c.artifact == e.bytes
      && (c.stage != Ended(false) ==> |e.bytes| <= h.maxEntryBytes && InScope(h, e.digest, e.profile, e.bytes))
      && (c.stage.Full? ==> Temporary(c.stage.temp) in s.files && s.files[Temporary(c.stage.temp)] == Content(h, c))
      && (c.phase.MetadataPhase? ==> ArtifactPlaced(s, e))
      && (c.stage == Ended(true) ==> Settled(h, s, e))
  }

  ghost predicate Agrees(h: Host, s: Disk, e: Agreed)
  {
    && TempsDistinct(s)
    && (forall id :: id in s.clients ==> PublisherAgrees(h, s, e, s.clients[id]))
    && (forall id :: id in s.clients && HasTemp(s.clients[id]) ==> s.clients[id].stage.temp < s.nextTemp)
  }

  /** What a step may do to the files of the entry and to other publishers' temporary files. */
  ghost predicate FilesKept(h: Host, s: Disk, r: Disk, e: Agreed, id: nat)
  {
    && (ArtifactPlaced(s, e) ==> ArtifactPlaced(r, e))
    && (Settled(h, s, e) ==> Settled(h, r, e))
    && (forall k :: k in s.clients && k != id && HasTemp(s.clients[k]) && s.clients[k].stage.Full? ==>
          var t := Temporary(s.clients[k].stage.temp);
          t in s.files ==> t in r.files && r.files[t] == s.files[t])
  }

  lemma AgreesFrame(h: Host, s: Disk, r: Disk, e: Agreed, id: nat)
    requires Agrees(h, s, e) && FilesKept(h, s, r, e, id) && s.nextTemp <= r.nextTemp
    requires forall k :: k in r.clients && k != id ==> k in s.clients && r.clients[k] == s.clients[k]
    requires id in r.clients ==> PublisherAgrees(h, r, e, r.clients[id])
    requires id in r.clients && HasTemp(r.clients[id]) ==> r.clients[id].stage.temp < r.nextTemp
    requires forall k :: k in r.clients && k != id && id in r.clients ==> !SameTemp(r.clients[k], r.clients[id])
    ensures Agrees(h, r, e)
  {
    forall i, j | i in r.clients && j in r.clients && i != j ensures !SameTemp(r.clients[i], r.clients[j]) {
      if i == id { assert !SameTemp(r.clients[j], r.clients[i]); }
    }
    forall k | k in r.clients ensures PublisherAgrees(h, r, e, r.clients[k]) {
      if k != id { assert PublisherAgrees(h, s, e, s.clients[k]); }
    }
  }

  lemma AgreesTemporary(h: Host, s: Disk, e: Agreed, step: Step)
    requires Agrees(h, s, e) && Enabled(h, s, step)
    requires step.CreateTemporary? || step.FillTemporary? || step.CompleteTemporary?
    ensures Agrees(h, Do(h, s, step), e) && FilesKept(h, s, Do(h, s, step), e, step.id)
  {
    var r := Do(h, s, step);
    assert PublisherAgrees(h, s, e, s.clients[step.id]);
    forall k | k in r.clients && k != step.id ensures !SameTemp(r.clients[k], r.clients[step.id]) {
    }
    AgreesFrame(h, s, r, e, step.id);
  }

  lemma AgreesRename(h: Host, s: Disk, e: Agreed, id: nat)
    requires Agrees(h, s, e) && Enabled(h, s, Rename(id))
    ensures Agrees(h, Do(h, s, Rename(id)), e) && FilesKept(h, s, Do(h, s, Rename(id)), e, id)
  {
    var r := Do(h, s, Rename(id));
    assert PublisherAgrees(h, s, e, s.clients[id]);
    assert FilesKept(h, s, r, e, id);
    AgreesFrame(h, s, r, e, id);
  }

  /** Steps that move one client without touching files. */
  lemma AgreesSetClient(h: Host, s: Disk, e: Agreed, id: nat, c: Client, published: set<(Identity, Bytes)>)
    requires Agrees(h, s, e) && !HasTemp(c) && PublisherAgrees(h, s, e, c)
    ensures Agrees(h, s.(clients := s.clients[id := c], published := published), e)
  {
    AgreesFrame(h, s, s.(clients := s.clients[id := c], published := published), e, id);
  }

  lemma AgreesForget(h: Host, s: Disk, e: Agreed, id: nat)
    requires Agrees(h, s, e)
    ensures Agrees(h, s.(clients := s.clients - {id}), e)
  {
    AgreesFrame(h, s, s.(clients := s.clients - {id}), e, id);
  }

  lemma AgreesCorrupt(h: Host, s: Disk, e: Agreed, step: Step)
    requires Agrees(h, s, e) && Enabled(h, s, step) && Quiet(s, step, e) && step.Corrupt?
    ensures Agrees(h, Do(h, s, step), e) && (Settled(h, s, e) ==> Settled(h, Do(h, s, step), e))
  {
    var r := Do(h, s, step);
    forall k | k in r.clients ensures PublisherAgrees(h, r, e, r.clients[k]) {
      assert PublisherAgrees(h, s, e, s.clients[k]);
    }
  }

  lemma AgreesStep(h: Host, s: Disk, e: Agreed, step: Step)
    requires Agrees(h, s, e) && Enabled(h, s, step) && Quiet(s, step, e)
    ensures Agrees(h, Do(h, s, step), e) && (Settled(h, s, e) ==> Settled(h, Do(h, s, step), e))
  {
    match step
    case BeginPublish(id, d, p, a) =>
      if |a| > h.maxEntryBytes {
        AgreesSetClient(h, s, e, id, Publisher(d, p, a, ArtifactPhase, Ended(false)), s.published);
      } else {
        AgreesSetClient(h, s, e, id, Publisher(d, p, a, ArtifactPhase, Begin),
                        s.published + {(IdentityOf(h, d, p), a)});
      }
    case CreateTemporary(id) => AgreesTemporary(h, s, e, step);
    case FillTemporary(id, _) => AgreesTemporary(h, s, e, step);
    case CompleteTemporary(id) => AgreesTemporary(h, s, e, step);
    case Rename(id) => AgreesRename(h, s, e, id);
    case FailPublish(id) =>
      assert PublisherAgrees(h, s, e, s.clients[id]);
      AgreesSetClient(h, s, e, id, s.clients[id].(stage := Ended(false)), s.published);
    case Forget(id) => AgreesForget(h, s, e, id);
    case BeginLoad(id, d, p) => AgreesSetClient(h, s, e, id, Loader(d, p, CheckArtifact), s.published);
    case AdvanceLoad(id) =>
      AgreesSetClient(h, s, e, id, s.clients[id].(load := LoadNext(h, s.files, s.clients[id])), s.published);
    case FailLoad(id) => AgreesSetClient(h, s, e, id, s.clients[id].(load := Loaded(Err(Unreadable))), s.published);
    case Corrupt(path, content) => AgreesCorrupt(h, s, e, step);
  }

  /** A load of the entry that began once it was settled, and met no I/O error, is on its way to the bytes. */
  ghost predicate OnTrack(h: Host, s: Disk, e: Agreed, id: nat)
  {
    id in s.clients && s.clients[id].Loader? &&
    s.clients[id].digest == e.digest && s.clients[id].profile == e.profile ==>
      match s.clients[id].load
      case CheckArtifact => true
      case CheckMetadata => false
      case ReadMetadata => true
      case ReadArtifact(m) => m == MetadataFor(h, e.digest, e.profile, e.bytes)
      case Loaded(result) => result == Ok(Some(e.bytes))
  }

  lemma OnTrackStep(h: Host, s: Disk, e: Agreed, step: Step, id: nat)
    requires Sound(h) && Settled(h, s, e) && OnTrack(h, s, e, id)
    requires Enabled(h, s, step) && step != FailLoad(id)
    ensures OnTrack(h, Do(h, s, step), e, id)
  {
    if step == AdvanceLoad(id) {
      HexRoundTrip(h.mac(MacInput(IdentityOf(h, e.digest, e.profile), e.bytes)));
    }
  }

  lemma {:induction false} SettledRun(h: Host, s: Disk, steps: seq<Step>, r: Disk, e: Agreed, id: nat)
    requires Sound(h) && Agrees(h, s, e) && Settled(h, s, e) && OnTrack(h, s, e, id)
    requires QuietRuns(h, s, steps, r, e) && FailLoad(id) !in steps
    ensures Settled(h, r, e) && OnTrack(h, r, e, id)
    decreases |steps|
  {
    if steps != [] {
      AgreesStep(h, s, e, steps[0]);
      OnTrackStep(h, s, e, steps[0], id);
      SettledRun(h, Do(h, s, steps[0]), steps[1..], r, e, id);
    }
  }

  lemma {:induction false} AgreesRun(h: Host, s: Disk, steps: seq<Step>, r: Disk, e: Agreed)
    requires Agrees(h, s, e) && QuietRuns(h, s, steps, r, e)
    ensures Agrees(h, r, e)
    decreases |steps|
  {
    if steps != [] {
      AgreesStep(h, s, e, steps[0]);
      AgreesRun(h, Do(h, s, steps[0]), steps[1..], r, e);
    }
  }

  lemma CompletedIsSettled(h: Host, s: Disk, before: seq<Step>, mid: Disk, e: Agreed, publisher: nat)
    requires s.clients == map[] && QuietRuns(h, s, before, mid, e)
    requires publisher in mid.clients && Concerns(mid.clients[publisher], e)
    requires mid.clients[publisher].stage == Ended(true)
    ensures Agrees(h, mid, e) && Settled(h, mid, e)
  {
    assert Agrees(h, s, e);
    AgreesRun(h, s, before, mid, e);
    assert PublisherAgrees(h, mid, e, mid.clients[publisher]);
  }

  /** A finished load of the entry has the agreed bytes. */
  predicate LoadGives(r: Disk, e: Agreed, loader: nat)
  {
    loader in r.clients && r.clients[loader].Loader? && r.clients[loader].load.Loaded? &&
    r.clients[loader].digest == e.digest && r.clients[loader].profile == e.profile ==>
      r.clients[loader].load.result == Ok(Some(e.bytes))
  }

  /** The loads of a settled entry. */
  lemma SettledLoads(h: Host, mid: Disk, after: seq<Step>, r: Disk, e: Agreed, loader: nat)
    requires Sound(h) && Agrees(h, mid, e) && Settled(h, mid, e)
    requires QuietRuns(h, mid, after, r, e) && FailLoad(loader) !in after && loader !in mid.clients
    ensures LoadGives(r, e, loader)
  {
    SettledRun(h, mid, after, r, e, loader);
  }

  /** If all publishers of an entry write equal bytes and nothing outside touches it, then once one of them has
      completed, every load that starts afterwards and meets no I/O error returns those bytes. */
  lemma LoadAfterPublish(h: Host, s: Disk, before: seq<Step>, mid: Disk, after: seq<Step>, r: Disk, e: Agreed,
                         publisher: nat, loader: nat)
    requires Sound(h) && s.clients == map[]
    requires QuietRuns(h, s, before, mid, e) && QuietRuns(h, mid, after, r, e)
    requires publisher in mid.clients && Concerns(mid.clients[publisher], e)
    requires mid.clients[publisher].stage == Ended(true)
    requires FailLoad(loader) !in after && loader !in mid.clients
    ensures LoadGives(r, e, loader)
  {
    CompletedIsSettled(h, s, before, mid, e, publisher);
    SettledLoads(h, mid, after, r, e, loader);
  }

  // ---------------------------------------------------------------- an honest run, and a host to run it on

  const EMPTY: Disk := Disk(map[], map[], 0, {})

  lemma {:induction false} RunsJoin(h: Host, s: Disk, a: seq<Step>, t: Disk, b: seq<Step>, r: Disk)
    requires Runs(h, s, a, t) && Runs(h, t, b, r)
    ensures Runs(h, s, a + b, r)
    decreases |a|
  {
    if a == [] {
      assert a + b == b;
    } else {
      RunsJoin(h, Do(h, s, a[0]), a[1..], t, b, r);
      assert (a + b)[1..] == a[1..] + b;
    }
  }

  lemma RunsThree(h: Host, s: Disk, a: Step, b: Step, c: Step)
    requires Enabled(h, s, a) && Enabled(h, Do(h, s, a), b) && Enabled(h, Do(h, Do(h, s, a), b), c)
    ensures Runs(h, s, [a, b, c], Do(h, Do(h, Do(h, s, a), b), c))
  {
    var t, u := Do(h, s, a), Do(h, Do(h, s, a), b);
    var r := Do(h, u, c);
    assert Runs(h, r, [], r);
    assert [c][1..] == [] && [b, c][1..] == [c] && [a, b, c][1..] == [b, c];
    assert Runs(h, u, [c], r);
    assert Runs(h, t, [b, c], r);
  }

  /** One `atomic_publish` by publisher `id`. */
  function FileSteps(id: nat): (steps: seq<Step>)
  {
    [CreateTemporary(id), CompleteTemporary(id), Rename(id)]
  }

  lemma PublishesFile(h: Host, s: Disk, id: nat) returns (r: Disk)
    requires id in s.clients && s.clients[id].Publisher? && s.clients[id].stage.Begin?
    requires forall n :: Temporary(n) !in s.files
    ensures Runs(h, s, FileSteps(id), r)
    ensures r.files == s.files[Target(s.clients[id]) := Content(h, s.clients[id])] && r.published == s.published
    ensures var c := s.clients[id];
      r.clients == s.clients[id := if c.phase.ArtifactPhase? then c.(phase := MetadataPhase, stage := Begin)
                                   else c.(stage := Ended(true))]
  {
    var c, t := s.clients[id], Temporary(s.nextTemp);
    var s1 := Do(h, s, CreateTemporary(id));
    var s2 := Do(h, s1, CompleteTemporary(id));
    assert s2.files == s.files[t := Content(h, c)];
    r := Do(h, s2, Rename(id));
    assert r.files == s.files[Target(c) := Content(h, c)];
    RunsThree(h, s, CreateTemporary(id), CompleteTemporary(id), Rename(id));
  }

  function PublishSteps(e: Agreed, id: nat): (steps: seq<Step>)
  {
    [BeginPublish(id, e.digest, e.profile, e.bytes)] + (FileSteps(id) + FileSteps(id))
  }

  /** An undisturbed publisher settles its entry. */
  lemma Publishes(h: Host, e: Agreed, id: nat) returns (r: Disk)
    requires |e.bytes| <= h.maxEntryBytes && InScope(h, e.digest, e.profile, e.bytes)
    ensures Runs(h, EMPTY, PublishSteps(e, id), r) && Settled(h, r, e) && r.clients.Keys == {id}
  {
    var begin := BeginPublish(id, e.digest, e.profile, e.bytes);
    var s1 := Do(h, EMPTY, begin);
    var s2 := PublishesFile(h, s1, id);
    r := PublishesFile(h, s2, id);
    RunsJoin(h, s1, FileSteps(id), s2, FileSteps(id), r);
    assert PublishSteps(e, id)[1..] == FileSteps(id) + FileSteps(id);
  }

  /** A load that is left alone ends as the files it finds decide. */
  lemma {:induction false} LoadRuns(h: Host, s: Disk, id: nat) returns (steps: seq<Step>)
    requires id in s.clients && s.clients[id].Loader?
    requires var c := s.clients[id]; var path := ArtifactFile(c.digest, c.profile);
      path in s.files ==> InScope(h, c.digest, c.profile, s.files[path])
    ensures var c := s.clients[id];
      Runs(h, s, steps, s.(clients := s.clients[id := c.(load := Loaded(LoadFrom(h, s.files, c)))]))
    ensures forall k :: 0 <= k < |steps| ==> steps[k] == AdvanceLoad(id)
    decreases StagesLeft(s.clients[id].load)
  {
    var c := s.clients[id];
    if c.load.Loaded? {
      steps := [];
      assert s.clients[id := c] == s.clients;
    } else {
      LoadUnfolds(h, s.files, c);
      var t := Do(h, s, AdvanceLoad(id));
      var rest := LoadRuns(h, t, id);
      steps := [AdvanceLoad(id)] + rest;
      var done := c.(load := Loaded(LoadFrom(h, s.files, c)));
      assert t.(clients := t.clients[id := done]) == s.(clients := s.clients[id := done]);
    }
  }

  function LoadSteps(id: nat): (steps: seq<Step>)
  {
    [AdvanceLoad(id), AdvanceLoad(id), AdvanceLoad(id)]
  }

  /** An undisturbed load of a settled entry ends with its bytes. */
  lemma Loads(h: Host, s: Disk, e: Agreed, id: nat)
    requires Sound(h) && Settled(h, s, e)
    requires id in s.clients && s.clients[id] == Loader(e.digest, e.profile, CheckArtifact)
    ensures var done := Loader(e.digest, e.profile, Loaded(Ok(Some(e.bytes))));
      Runs(h, s, LoadSteps(id), s.(clients := s.clients[id := done]))
  {
    var step, m := AdvanceLoad(id), MetadataFor(h, e.digest, e.profile, e.bytes);
    var s1 := Do(h, s, step);
    assert s1 == s.(clients := s.clients[id := Loader(e.digest, e.profile, ReadMetadata)]);
    var s2 := Do(h, s1, step);
    assert s2 == s.(clients := s.clients[id := Loader(e.digest, e.profile, ReadArtifact(m))]);
    HexRoundTrip(h.mac(MacInput(IdentityOf(h, e.digest, e.profile), e.bytes)));
    assert Do(h, s2, step) == s.(clients := s.clients[id := Loader(e.digest, e.profile, Loaded(Ok(Some(e.bytes))))]);
    RunsThree(h, s, step, step, step);
  }

  /** On every sound host, every entry within the limits can be published and then loaded. */
  lemma HonestRun(h: Host, e: Agreed) returns (steps: seq<Step>, r: Disk)
    requires Sound(h) && |e.bytes| <= h.maxEntryBytes && InScope(h, e.digest, e.profile, e.bytes)
    ensures Initial(h, EMPTY) && Runs(h, EMPTY, steps, r)
    ensures 1 in r.clients && r.clients[1] == Loader(e.digest, e.profile, Loaded(Ok(Some(e.bytes))))
  {
    var mid := Publishes(h, e, 0);
    var begin := BeginLoad(1, e.digest, e.profile);
    var s := Do(h, mid, begin);
    Loads(h, s, e, 1);
    r := s.(clients := s.clients[1 := Loader(e.digest, e.profile, Loaded(Ok(Some(e.bytes))))]);
    assert ([begin] + LoadSteps(1))[1..] == LoadSteps(1);
    RunsJoin(h, EMPTY, PublishSteps(e, 0), mid, [begin] + LoadSteps(1), r);
    steps := PublishSteps(e, 0) + ([begin] + LoadSteps(1));
  }

  /** There are sound hosts: the hypotheses of this module can be met for any one entry. */
  lemma SoundHost(e: Agreed) returns (h: Host)
    ensures Sound(h) && h.maxEntryBytes == |e.bytes| && InScope(h, e.digest, e.profile, e.bytes)
  {
    var tag: Digest := seq(32, _ => 0);
    var identity := Identity(e.digest, CacheId(e.profile), [], [], COMPILER_PROFILE);
    var m := Metadata(identity, |e.bytes|, Hex(tag));
    h := Host(_ => tag, iset{MacInput(identity, e.bytes)}, _ => [], _ => Some(m), [], [], |e.bytes|);
    forall d, p, a | InScope(h, d, p, a) ensures MetadataFor(h, d, p, a) == m {
      MacInputInjective(IdentityOf(h, d, p), a, identity, e.bytes);
    }
  }
}
