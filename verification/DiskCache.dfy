/** The authenticated disk cache as a step system: publishers and loaders of any number of tasks and
    processes interleave at every file operation, files may be changed or removed from outside, and
    clients may die at any point (src/cache.rs). */
module DiskCache {
  import opened Bytes
  import opened Wrappers
  import opened Crypto
  import opened Profiles
  import Json

  datatype Identity = Identity(
    componentDigest: Bytes,
    profile: Bytes,
    wasmtimeVersion: Bytes,
    target: Bytes,
    compilerProfile: Bytes)

  datatype Metadata = Metadata(identity: Identity, artifactLen: nat, authenticationTag: Bytes)

  /** Configuration and library code: HMAC under the installation key, and the JSON codec.  `scope` holds every MAC
      input that a publisher or a loader computes in the runs considered. */
  datatype Host = Host(
    mac: Bytes -> Digest,
    scope: iset<Bytes>,
    encodeMetadata: Metadata -> Bytes,
    decodeMetadata: Bytes -> Option<Metadata>,
    wasmtimeVersion: Bytes,
    target: Bytes,
    maxEntryBytes: nat)

  // ---------------------------------------------------------------- identity and MAC input

  const COMPILER_PROFILE: Bytes := Ascii("cranelift-speed-and-size;component-async;fuel;epoch;baseline")

  function IdentityOf(h: Host, digest: Bytes, profile: WasiProfile): (i: Identity)
  {
    Identity(digest, CacheId(profile), h.wasmtimeVersion, h.target, COMPILER_PROFILE)
  }

  /** An identity determines the component, the world and the build it is for. */
  lemma IdentityInjective(h: Host, d: Bytes, p: WasiProfile, k: Host, e: Bytes, q: WasiProfile)
    requires IdentityOf(h, d, p) == IdentityOf(k, e, q)
    ensures d == e && p == q && h.wasmtimeVersion == k.wasmtimeVersion && h.target == k.target
  {
    CacheIdInjective(p, q);
  }

  /** Keys of the identity object, with the punctuation before each; the format number is constant. */
  const KEYS: seq<Bytes> := [
    Ascii("{\"format\":1,\"component_digest\":"), Ascii(",\"profile\":"), Ascii(",\"wasmtime_version\":"),
    Ascii(",\"target\":"), Ascii(",\"compiler_profile\":")]

  const CACHE_DOMAIN: Bytes := Ascii("runtrue-wasm-runtime.aot.v1\0")

  /** The JSON text of an object with string values, up to and including `rest`. */
  function FieldsThen(keys: seq<Bytes>, values: seq<Bytes>, rest: Bytes): (b: Bytes)
    requires |keys| == |values|
  {
    if keys == [] then rest
    else keys[0] + (Json.Quote(values[0]) + FieldsThen(keys[1..], values[1..], rest))
  }

  function Values(i: Identity): (v: seq<Bytes>)
    ensures |v| == 5
  {
    [i.componentDigest, i.profile, i.wasmtimeVersion, i.target, i.compilerProfile]
  }

  /** The bytes fed to the MAC: domain, identity as JSON, artifact, with no length between them. */
  function MacInput(i: Identity, artifact: Bytes): (b: Bytes)
  {
    CACHE_DOMAIN + FieldsThen(KEYS, Values(i), [0x7d] + artifact)
  }

  lemma {:induction false} FieldsDecode(keys: seq<Bytes>, u: seq<Bytes>, r: Bytes, v: seq<Bytes>, s: Bytes)
    requires |keys| == |u| == |v|
    requires FieldsThen(keys, u, r) == FieldsThen(keys, v, s)
    ensures u == v && r == s
  {
    if keys != [] {
      var x, y := FieldsThen(keys[1..], u[1..], r), FieldsThen(keys[1..], v[1..], s);
      SplitEqual(keys[0], Json.Quote(u[0]) + x, keys[0], Json.Quote(v[0]) + y);
      Json.QuoteDecodes(u[0], x, v[0], y);
      FieldsDecode(keys[1..], u[1..], r, v[1..], s);
      assert u == [u[0]] + u[1..] && v == [v[0]] + v[1..];
    }
  }

  /** The MAC input determines identity and artifact although no length separates them. */
  lemma MacInputInjective(i: Identity, a: Bytes, j: Identity, b: Bytes)
    requires MacInput(i, a) == MacInput(j, b)
    ensures i == j && a == b
  {
    var x, y := FieldsThen(KEYS, Values(i), [0x7d] + a), FieldsThen(KEYS, Values(j), [0x7d] + b);
    SplitEqual(CACHE_DOMAIN, x, CACHE_DOMAIN, y);
    FieldsDecode(KEYS, Values(i), [0x7d] + a, Values(j), [0x7d] + b);
    assert Values(i)[0] == Values(j)[0] && Values(i)[1] == Values(j)[1] && Values(i)[2] == Values(j)[2];
    assert Values(i)[3] == Values(j)[3] && Values(i)[4] == Values(j)[4];
    SplitEqual([0x7d], a, [0x7d], b);
  }

  // ---------------------------------------------------------------- state

  datatype Path =
    | ArtifactFile(digest: Bytes, profile: WasiProfile)
    | MetadataFile(digest: Bytes, profile: WasiProfile)
    | Temporary(sequence: nat)

  datatype Phase = ArtifactPhase | MetadataPhase

  /** One `atomic_publish` inside `publish`. */
  datatype PublishStage = Begin | Filling(temp: nat) | Full(temp: nat) | Ended(ok: bool)

  datatype LoadError = Unreadable | Malformed | Incompatible | TooLarge | WrongLength | BadTag

  datatype LoadStage =
    | CheckArtifact
    | CheckMetadata
    | ReadMetadata
    | ReadArtifact(metadata: Metadata)
    | Loaded(result: Result<Option<Bytes>, LoadError>)

  datatype Client =
    | Publisher(digest: Bytes, profile: WasiProfile, artifact: Bytes, phase: Phase, stage: PublishStage)
    | Loader(digest: Bytes, profile: WasiProfile, load: LoadStage)

  /** `published` records every artifact for which a tag was computed, by identity. */
  datatype Disk = Disk(
    files: map<Path, Bytes>,
    clients: map<nat, Client>,
    nextTemp: nat,
    published: set<(Identity, Bytes)>)

  datatype Step =
    | BeginPublish(id: nat, digest: Bytes, profile: WasiProfile, artifact: Bytes)
    | CreateTemporary(id: nat)
    | FillTemporary(id: nat, part: Bytes)
    | CompleteTemporary(id: nat)
    | Rename(id: nat)
    | FailPublish(id: nat)
    | BeginLoad(id: nat, digest: Bytes, profile: WasiProfile)
    | AdvanceLoad(id: nat)
    | FailLoad(id: nat)
    | Forget(id: nat)
    | Corrupt(path: Path, content: Option<Bytes>)

  function MetadataFor(h: Host, digest: Bytes, profile: WasiProfile, artifact: Bytes): (m: Metadata)
  {
    var identity := IdentityOf(h, digest, profile);
    Metadata(identity, |artifact|, Hex(h.mac(MacInput(identity, artifact))))
  }

  ghost predicate InScope(h: Host, digest: Bytes, profile: WasiProfile, artifact: Bytes)
  {
    MacInput(IdentityOf(h, digest, profile), artifact) in h.scope
  }

  /** The MAC has no collision among the inputs that occur, and the metadata of what is published decodes. */
  ghost predicate Sound(h: Host)
  {
    && CollisionFreeOn(h.mac, h.scope)
    && forall d, p, a :: InScope(h, d, p, a) ==>
         h.decodeMetadata(h.encodeMetadata(MetadataFor(h, d, p, a))) == Some(MetadataFor(h, d, p, a))
  }

  function Content(h: Host, p: Client): (b: Bytes)
    requires p.Publisher?
  {
    if p.phase.ArtifactPhase? then p.artifact
    else h.encodeMetadata(MetadataFor(h, p.digest, p.profile, p.artifact))
  }

  function Target(p: Client): (path: Path)
    requires p.Publisher?
  {
    if p.phase.ArtifactPhase? then ArtifactFile(p.digest, p.profile) else MetadataFile(p.digest, p.profile)
  }

  ghost predicate NoForgedTag(h: Host, published: set<(Identity, Bytes)>, text: Bytes)
  {
    forall i, a :: MacInput(i, a) in h.scope && HexDecode(text) == Some(h.mac(MacInput(i, a))) ==> (i, a) in published
  }

  /** No tag inside `content` verifies for a MAC input that was never issued. */
  ghost predicate NoForgery(h: Host, published: set<(Identity, Bytes)>, content: Bytes)
  {
    var m := h.decodeMetadata(content);
    m.Some? ==> NoForgedTag(h, published, m.value.authenticationTag)
  }

  /** If this load is about to compute a MAC, then the input is one that occurs. */
  ghost predicate LoadInScope(h: Host, files: map<Path, Bytes>, c: Client)
    requires c.Loader?
  {
    var path := ArtifactFile(c.digest, c.profile);
    c.load.ReadArtifact? && path in files ==> InScope(h, c.digest, c.profile, files[path])
  }

  ghost predicate Enabled(h: Host, s: Disk, step: Step)
  {
    match step
    case BeginPublish(id, d, p, a) => id !in s.clients && (|a| <= h.maxEntryBytes ==> InScope(h, d, p, a))
    case BeginLoad(id, _, _) => id !in s.clients
    case CreateTemporary(id) => id in s.clients && s.clients[id].Publisher? && s.clients[id].stage.Begin?
    case FillTemporary(id, _) => id in s.clients && s.clients[id].Publisher? && s.clients[id].stage.Filling?
    case CompleteTemporary(id) => id in s.clients && s.clients[id].Publisher? && s.clients[id].stage.Filling?
    case Rename(id) => id in s.clients && s.clients[id].Publisher? && s.clients[id].stage.Full?
    case FailPublish(id) => id in s.clients && s.clients[id].Publisher? && !s.clients[id].stage.Ended?
    case AdvanceLoad(id) =>
      && id in s.clients && s.clients[id].Loader? && !s.clients[id].load.Loaded?
      && LoadInScope(h, s.files, s.clients[id])
    case FailLoad(id) => id in s.clients && s.clients[id].Loader? && !s.clients[id].load.Loaded?
    case Forget(id) => id in s.clients
    case Corrupt(_, content) => content.Some? ==> NoForgery(h, s.published, content.value)
  }

  /** One file operation of `DiskCache::load`. */
  function LoadNext(h: Host, files: map<Path, Bytes>, c: Client): (r: LoadStage)
    requires c.Loader? && !c.load.Loaded?
  {
    var artifactPath, metadataPath := ArtifactFile(c.digest, c.profile), MetadataFile(c.digest, c.profile);
    match c.load
    case CheckArtifact => if artifactPath in files then ReadMetadata else CheckMetadata
    case CheckMetadata => if metadataPath in files then ReadMetadata else Loaded(Ok(None))
    case ReadMetadata =>
      if metadataPath !in files then Loaded(Err(Unreadable))
      else
        var m := h.decodeMetadata(files[metadataPath]);
        if m.None? then Loaded(Err(Malformed))
        else if m.value.identity != IdentityOf(h, c.digest, c.profile) then Loaded(Err(Incompatible))
        else if m.value.artifactLen > h.maxEntryBytes then Loaded(Err(TooLarge))
        else ReadArtifact(m.value)
    case ReadArtifact(m) =>
      if artifactPath !in files then Loaded(Err(Unreadable))
      else
        var artifact := files[artifactPath];
        if |artifact| != m.artifactLen then Loaded(Err(WrongLength))
        else if HexDecode(m.authenticationTag) != Some(h.mac(MacInput(IdentityOf(h, c.digest, c.profile), artifact)))
        then Loaded(Err(BadTag))
        else Loaded(Ok(Some(artifact)))
  }

  /** File operations left to a load, at most. */
  function StagesLeft(load: LoadStage): (n: nat)
  {
    match load
    case CheckArtifact => 4
    case CheckMetadata => 3
    case ReadMetadata => 2
    case ReadArtifact(_) => 1
    case Loaded(_) => 0
  }

  /** `load` over files that do not change meanwhile. */
  function LoadFrom(h: Host, files: map<Path, Bytes>, c: Client): (r: Result<Option<Bytes>, LoadError>)
    requires c.Loader?
    decreases StagesLeft(c.load)
  {
    if c.load.Loaded? then c.load.result else LoadFrom(h, files, c.(load := LoadNext(h, files, c)))
  }

  /** The metadata file of an entry vouches for these bytes. */
  ghost predicate Vouched(h: Host, files: map<Path, Bytes>, d: Bytes, p: WasiProfile, artifact: Bytes)
  {
    MetadataFile(d, p) in files && h.decodeMetadata(files[MetadataFile(d, p)]).Some? &&
    var m := h.decodeMetadata(files[MetadataFile(d, p)]).value;
    && m.identity.componentDigest == d && m.identity.profile == CacheId(p)
    && m.identity.wasmtimeVersion == h.wasmtimeVersion && m.identity.target == h.target
    && m.identity.compilerProfile == COMPILER_PROFILE
    && m.artifactLen == |artifact| <= h.maxEntryBytes
    && HexDecode(m.authenticationTag) == Some(h.mac(MacInput(m.identity, artifact)))
  }

  lemma LoadUnfolds(h: Host, files: map<Path, Bytes>, c: Client)
    requires c.Loader? && !c.load.Loaded?
    ensures LoadFrom(h, files, c) == LoadFrom(h, files, c.(load := LoadNext(h, files, c)))
  {
  }

  lemma ReadReturns(h: Host, files: map<Path, Bytes>, d: Bytes, p: WasiProfile, artifact: Bytes)
    ensures var r := LoadFrom(h, files, Loader(d, p, ReadMetadata));
      && r != Ok(None)
      && (r == Ok(Some(artifact)) <==>
            ArtifactFile(d, p) in files && files[ArtifactFile(d, p)] == artifact && Vouched(h, files, d, p, artifact))
  {
    var c := Loader(d, p, ReadMetadata);
    LoadUnfolds(h, files, c);
    var next := c.(load := LoadNext(h, files, c));
    if next.load.ReadArtifact? {
      LoadUnfolds(h, files, next);
      assert LoadNext(h, files, next).Loaded?;
    }
  }

  /** A load misses if and only if neither file is there, and returns bytes if and only if the artifact file holds them
      and the metadata is of this component, world and build, within the entry limit, and authenticates them. */
  lemma LoadReturns(h: Host, files: map<Path, Bytes>, d: Bytes, p: WasiProfile, artifact: Bytes)
    ensures var r := LoadFrom(h, files, Loader(d, p, CheckArtifact));
      && (r == Ok(None) <==> ArtifactFile(d, p) !in files && MetadataFile(d, p) !in files)
      && (r == Ok(Some(artifact)) <==>
            ArtifactFile(d, p) in files && files[ArtifactFile(d, p)] == artifact && Vouched(h, files, d, p, artifact))
  {
    LoadUnfolds(h, files, Loader(d, p, CheckArtifact));
    LoadUnfolds(h, files, Loader(d, p, CheckMetadata));
    ReadReturns(h, files, d, p, artifact);
  }

  ghost function Do(h: Host, s: Disk, step: Step): (r: Disk)
    requires Enabled(h, s, step)
  {
    match step
    case BeginPublish(id, d, p, a) =>
      if |a| > h.maxEntryBytes then
        s.(clients := s.clients[id := Publisher(d, p, a, ArtifactPhase, Ended(false))])
      else
        s.(clients := s.clients[id := Publisher(d, p, a, ArtifactPhase, Begin)],
           published := s.published + {(IdentityOf(h, d, p), a)})
    case CreateTemporary(id) =>
      s.(clients := s.clients[id := s.clients[id].(stage := Filling(s.nextTemp))],
         files := s.files[Temporary(s.nextTemp) := []],
         nextTemp := s.nextTemp + 1)
    case FillTemporary(id, part) =>
      s.(files := s.files[Temporary(s.clients[id].stage.temp) := part])
    case CompleteTemporary(id) =>
      var c := s.clients[id];
      s.(clients := s.clients[id := c.(stage := Full(c.stage.temp))],
         files := s.files[Temporary(c.stage.temp) := Content(h, c)])
    case Rename(id) =>
      var c := s.clients[id];
      var temp := Temporary(c.stage.temp);
      if temp !in s.files then s.(clients := s.clients[id := c.(stage := Ended(false))])
      else
        var next := if c.phase.ArtifactPhase? then c.(phase := MetadataPhase, stage := Begin)
                    else c.(stage := Ended(true));
        s.(clients := s.clients[id := next], files := s.files[Target(c) := s.files[temp]] - {temp})
    case FailPublish(id) => s.(clients := s.clients[id := s.clients[id].(stage := Ended(false))])
    case BeginLoad(id, d, p) => s.(clients := s.clients[id := Loader(d, p, CheckArtifact)])
    case AdvanceLoad(id) =>
      s.(clients := s.clients[id := s.clients[id].(load := LoadNext(h, s.files, s.clients[id]))])
    case FailLoad(id) => s.(clients := s.clients[id := s.clients[id].(load := Loaded(Err(Unreadable)))])
    case Forget(id) => s.(clients := s.clients - {id})
    case Corrupt(path, content) =>
      if content.Some? then s.(files := s.files[path := content.value]) else s.(files := s.files - {path})
  }

  // ---------------------------------------------------------------- authenticity

  ghost predicate ClientOk(h: Host, s: Disk, c: Client)
  {
    match c
    case Publisher(d, p, a, phase, stage) =>
      && (!stage.Ended? ==> (IdentityOf(h, d, p), a) in s.published && InScope(h, d, p, a))
      && (phase.MetadataPhase? && stage.Full? && Temporary(stage.temp) in s.files ==>
            NoForgery(h, s.published, s.files[Temporary(stage.temp)]))
      && (stage.Filling? || stage.Full? ==> stage.temp < s.nextTemp)
    case Loader(d, p, load) =>
      && (load.ReadArtifact? ==> NoForgedTag(h, s.published, load.metadata.authenticationTag))
      && (load.Loaded? && load.result.Ok? && load.result.value.Some? ==>
            (IdentityOf(h, d, p), load.result.value.value) in s.published)
  }

  predicate HasTemp(c: Client)
  {
    c.Publisher? && (c.stage.Filling? || c.stage.Full?)
  }

  predicate SameTemp(c: Client, d: Client)
  {
    HasTemp(c) && HasTemp(d) && c.stage.temp == d.stage.temp
  }

  ghost predicate TempsDistinct(s: Disk)
  {
    forall i, j :: i in s.clients && j in s.clients && i != j ==> !SameTemp(s.clients[i], s.clients[j])
  }

  ghost predicate Inv(h: Host, s: Disk)
  {
    && (forall id :: id in s.clients ==> ClientOk(h, s, s.clients[id]))
    && (forall d, p :: MetadataFile(d, p) in s.files ==> NoForgery(h, s.published, s.files[MetadataFile(d, p)]))
    && TempsDistinct(s)
  }

  /** The metadata a publisher writes carries the tag of its own identity and artifact only. */
  lemma OwnTag(h: Host, s: Disk, d: Bytes, p: WasiProfile, a: Bytes)
    requires Sound(h) && (IdentityOf(h, d, p), a) in s.published && InScope(h, d, p, a)
    ensures NoForgery(h, s.published, h.encodeMetadata(MetadataFor(h, d, p, a)))
  {
    var identity := IdentityOf(h, d, p);
    var tag := h.mac(MacInput(identity, a));
    HexRoundTrip(tag);
    forall i, b | MacInput(i, b) in h.scope && HexDecode(Hex(tag)) == Some(h.mac(MacInput(i, b)))
      ensures (i, b) in s.published
    {
      MacInputInjective(i, b, identity, a);
    }
  }

  lemma NoForgeryKept(h: Host, before: set<(Identity, Bytes)>, after: set<(Identity, Bytes)>, content: Bytes)
    requires before <= after && NoForgery(h, before, content)
    ensures NoForgery(h, after, content)
  {
  }

  /** A client that did not move stays correct while nobody else writes its temporary file. */
  lemma ClientKept(h: Host, s: Disk, r: Disk, c: Client)
    requires ClientOk(h, s, c) && s.published <= r.published && s.nextTemp <= r.nextTemp
    requires HasTemp(c) ==>
      var t := Temporary(c.stage.temp); t in r.files ==> t in s.files && r.files[t] == s.files[t]
    ensures ClientOk(h, r, c)
  {
    if c.Publisher? && c.phase.MetadataPhase? && c.stage.Full? && Temporary(c.stage.temp) in r.files {
      NoForgeryKept(h, s.published, r.published, r.files[Temporary(c.stage.temp)]);
    }
  }

  /** What remains to be shown for a step that moves at most client `id`. */
  ghost predicate OnlyMoves(h: Host, s: Disk, r: Disk, id: nat)
  {
    && s.published <= r.published
    && s.nextTemp <= r.nextTemp
    && (forall k :: k in r.clients && k != id ==> k in s.clients && r.clients[k] == s.clients[k])
    && (id in r.clients ==> ClientOk(h, r, r.clients[id]))
    && (forall k :: k in r.clients && k != id && id in r.clients ==> !SameTemp(r.clients[k], r.clients[id]))
    && (forall k :: k in r.clients && k != id && HasTemp(r.clients[k]) ==>
          var t := Temporary(r.clients[k].stage.temp);
          t in r.files ==> t in s.files && r.files[t] == s.files[t])
    && (forall d, p :: MetadataFile(d, p) in r.files ==> NoForgery(h, r.published, r.files[MetadataFile(d, p)]))
  }

  lemma OnlyMovesKeepsInv(h: Host, s: Disk, r: Disk, id: nat)
    requires Inv(h, s) && OnlyMoves(h, s, r, id)
    ensures Inv(h, r)
  {
    forall k | k in r.clients ensures ClientOk(h, r, r.clients[k]) {
      if k != id { ClientKept(h, s, r, r.clients[k]); }
    }
    forall i, j | i in r.clients && j in r.clients && i != j ensures !SameTemp(r.clients[i], r.clients[j]) {
      if i == id {
        assert !SameTemp(r.clients[j], r.clients[i]);
      }
    }
  }

  lemma InvBeginPublish(h: Host, s: Disk, step: Step)
    requires Sound(h) && Inv(h, s) && Enabled(h, s, step) && step.BeginPublish?
    ensures Inv(h, Do(h, s, step))
  {
    var r := Do(h, s, step);
    forall d, p | MetadataFile(d, p) in r.files ensures NoForgery(h, r.published, r.files[MetadataFile(d, p)]) {
      NoForgeryKept(h, s.published, r.published, r.files[MetadataFile(d, p)]);
    }
    OnlyMovesKeepsInv(h, s, r, step.id);
  }

  lemma InvTemporary(h: Host, s: Disk, step: Step)
    requires Sound(h) && Inv(h, s) && Enabled(h, s, step)
    requires step.CreateTemporary? || step.FillTemporary? || step.CompleteTemporary?
    ensures Inv(h, Do(h, s, step))
  {
    var r := Do(h, s, step);
    var c := s.clients[step.id];
    assert ClientOk(h, s, c);
    if step.CompleteTemporary? { OwnTag(h, s, c.digest, c.profile, c.artifact); }
    forall k | k in r.clients && k != step.id ensures !SameTemp(r.clients[k], r.clients[step.id]) {
      assert ClientOk(h, s, s.clients[k]);
    }
    OnlyMovesKeepsInv(h, s, r, step.id);
  }

  lemma InvRename(h: Host, s: Disk, id: nat)
    requires Inv(h, s) && Enabled(h, s, Rename(id))
    ensures Inv(h, Do(h, s, Rename(id)))
  {
    assert ClientOk(h, s, s.clients[id]);
    OnlyMovesKeepsInv(h, s, Do(h, s, Rename(id)), id);
  }

  /** Replacing one client by a correct one without a temporary file. */
  lemma InvSetClient(h: Host, s: Disk, id: nat, c: Client)
    requires Inv(h, s) && ClientOk(h, s, c) && !HasTemp(c)
    ensures Inv(h, s.(clients := s.clients[id := c]))
  {
    var r := s.(clients := s.clients[id := c]);
    ClientKept(h, s, r, c);
    OnlyMovesKeepsInv(h, s, r, id);
  }

  lemma InvForget(h: Host, s: Disk, id: nat)
    requires Inv(h, s) && id in s.clients
    ensures Inv(h, s.(clients := s.clients - {id}))
  {
    OnlyMovesKeepsInv(h, s, s.(clients := s.clients - {id}), id);
  }

  lemma InvForgetAll(h: Host, s: Disk, ids: set<nat>)
    requires Inv(h, s)
    ensures Inv(h, s.(clients := s.clients - ids))
  {
    var r := s.(clients := s.clients - ids);
    forall k | k in r.clients ensures ClientOk(h, r, r.clients[k]) { ClientKept(h, s, r, s.clients[k]); }
  }

  /** A tag that verifies was issued, so the bytes under it were published under the identity asked for. */
  lemma VerifiedOk(h: Host, s: Disk, c: Client)
    requires Inv(h, s) && ClientOk(h, s, c) && c.Loader? && c.load.ReadArtifact? && LoadInScope(h, s.files, c)
    ensures ClientOk(h, s, c.(load := LoadNext(h, s.files, c)))
  {
  }

  lemma MetadataReadOk(h: Host, s: Disk, c: Client)
    requires Inv(h, s) && ClientOk(h, s, c) && c.Loader? && c.load.ReadMetadata?
    ensures ClientOk(h, s, c.(load := LoadNext(h, s.files, c)))
  {
    var path := MetadataFile(c.digest, c.profile);
    if path in s.files { assert NoForgery(h, s.published, s.files[path]); }
  }

  lemma LoaderStepOk(h: Host, s: Disk, c: Client)
    requires Inv(h, s) && ClientOk(h, s, c) && c.Loader? && !c.load.Loaded? && LoadInScope(h, s.files, c)
    ensures ClientOk(h, s, c.(load := LoadNext(h, s.files, c)))
  {
    match c.load
    case ReadMetadata => MetadataReadOk(h, s, c);
    case ReadArtifact(_) => VerifiedOk(h, s, c);
    case CheckArtifact =>
    case CheckMetadata =>
  }

  lemma InvCorrupt(h: Host, s: Disk, path: Path, content: Option<Bytes>)
    requires Inv(h, s) && Enabled(h, s, Corrupt(path, content))
    ensures Inv(h, Do(h, s, Corrupt(path, content)))
  {
    var r := Do(h, s, Corrupt(path, content));
    forall k | k in r.clients ensures ClientOk(h, r, r.clients[k]) {
      assert ClientOk(h, s, s.clients[k]);
    }
  }

  lemma InvStep(h: Host, s: Disk, step: Step)
    requires Sound(h) && Inv(h, s) && Enabled(h, s, step)
    ensures Inv(h, Do(h, s, step))
  {
    match step
    case BeginPublish(_, _, _, _) => InvBeginPublish(h, s, step);
    case CreateTemporary(_) => InvTemporary(h, s, step);
    case FillTemporary(_, _) => InvTemporary(h, s, step);
    case CompleteTemporary(_) => InvTemporary(h, s, step);
    case Rename(id) => InvRename(h, s, id);
    case FailPublish(id) => InvSetClient(h, s, id, s.clients[id].(stage := Ended(false)));
    case Forget(id) => InvForget(h, s, id);
    case BeginLoad(id, d, p) => InvSetClient(h, s, id, Loader(d, p, CheckArtifact));
    case AdvanceLoad(id) =>
      LoaderStepOk(h, s, s.clients[id]);
      InvSetClient(h, s, id, s.clients[id].(load := LoadNext(h, s.files, s.clients[id])));
    case FailLoad(id) => InvSetClient(h, s, id, s.clients[id].(load := Loaded(Err(Unreadable))));
    case Corrupt(path, content) => InvCorrupt(h, s, path, content);
  }
}
