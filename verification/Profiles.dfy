/** Standard WASI worlds, components and world detection (src/types.rs, src/runtime.rs). */
module Profiles {
  import opened Bytes
  import opened Wrappers

  datatype WasiProfile = Cli03 | Cli02 | Http03 | Http02

  /** `WasiProfile::ALL`: the order in which the disk tier is searched. */
  const ALL: seq<WasiProfile> := [Cli03, Cli02, Http03, Http02]

  const CLI_03_ID: Bytes := Ascii("wasi-cli-command-0.3.0")
  const CLI_02_ID: Bytes := Ascii("wasi-cli-command-0.2")
  const HTTP_03_ID: Bytes := Ascii("wasi-http-service-0.3.0")
  const HTTP_02_ID: Bytes := Ascii("wasi-http-proxy-0.2")

  function CacheId(p: WasiProfile): (id: Bytes)
  {
    match p
    case Cli03 => CLI_03_ID
    case Cli02 => CLI_02_ID
    case Http03 => HTTP_03_ID
    case Http02 => HTTP_02_ID
  }

  lemma CacheIdInjective(p: WasiProfile, q: WasiProfile)
    requires CacheId(p) == CacheId(q)
    ensures p == q
  {
    assert |CacheId(Cli03)| == 22 && |CacheId(Cli02)| == 20;
    assert |CacheId(Http03)| == 23 && |CacheId(Http02)| == 19;
  }

  /** A compiled component: its native image and the names it exports. */
  datatype Component = Component(image: Bytes, exports: seq<Bytes>)

  datatype Prepared = Prepared(component: Component, profile: WasiProfile)

  /** Serialized native code with the profile it was published under. */
  datatype Aot = Aot(bytes: Bytes, profile: WasiProfile)

  datatype DetectError = NoWorld | SeveralWorlds

  const CLI_03_EXPORT: Bytes := Ascii("wasi:cli/run@0.3.")
  const CLI_02_EXPORT: Bytes := Ascii("wasi:cli/run@0.2.")
  const HTTP_03_EXPORT: Bytes := Ascii("wasi:http/handler@0.3.")
  const HTTP_02_EXPORT: Bytes := Ascii("wasi:http/incoming-handler@0.2.")

  /** The world announced by one export name. */
  function WorldOf(name: Bytes): (world: Option<WasiProfile>)
  {
    if CLI_03_EXPORT <= name then Some(Cli03)
    else if CLI_02_EXPORT <= name then Some(Cli02)
    else if HTTP_03_EXPORT <= name then Some(Http03)
    else if HTTP_02_EXPORT <= name then Some(Http02)
    else None
  }

  /** What the export of a world is called, up to the patch number. */
  function ExportOf(p: WasiProfile): (prefix: Bytes)
  {
    match p
    case Cli03 => CLI_03_EXPORT
    case Cli02 => CLI_02_EXPORT
    case Http03 => HTTP_03_EXPORT
    case Http02 => HTTP_02_EXPORT
  }

  /** A name announces a world if and only if it is that world's export with some patch number. */
  lemma WorldMeans(name: Bytes, p: WasiProfile)
    ensures WorldOf(name) == Some(p) <==> ExportOf(p) <= name
  {
    assert CLI_03_EXPORT[15] != CLI_02_EXPORT[15];
    assert HTTP_03_EXPORT[10] != HTTP_02_EXPORT[10];
    assert CLI_03_EXPORT[5] == CLI_02_EXPORT[5] != HTTP_03_EXPORT[5] == HTTP_02_EXPORT[5];
  }

  ghost predicate Exports(names: seq<Bytes>, p: WasiProfile)
  {
    exists i :: 0 <= i < |names| && WorldOf(names[i]) == Some(p)
  }

  /** What detection promises: exactly one announced world, however often and in whatever order. */
  ghost predicate Detected(names: seq<Bytes>, r: Result<WasiProfile, DetectError>)
  {
    match r
    case Ok(p) => Exports(names, p) && forall q :: Exports(names, q) ==> q == p
    case Err(NoWorld) => forall q :: !Exports(names, q)
    case Err(SeveralWorlds) => exists p, q :: p != q && Exports(names, p) && Exports(names, q)
  }

  lemma DetectedUnique(names: seq<Bytes>, r: Result<WasiProfile, DetectError>, s: Result<WasiProfile, DetectError>)
    requires Detected(names, r) && Detected(names, s)
    ensures r == s
  {
  }

  /** `sort_by_key(cache_id)` followed by `dedup`. */
  function SortDedup(found: seq<WasiProfile>): (r: seq<WasiProfile>)
    ensures forall i, j :: 0 <= i < j < |r| ==> r[i] != r[j]
  {
    var a := if Cli02 in found then [Cli02] else [];
    var b := if Cli03 in found then a + [Cli03] else a;
    var c := if Http02 in found then b + [Http02] else b;
    if Http03 in found then c + [Http03] else c
  }

  lemma SortDedupKeeps(found: seq<WasiProfile>, p: WasiProfile)
    ensures p in SortDedup(found) <==> p in found
  {
    match p { case Cli02 => case Cli03 => case Http02 => case Http03 => }
  }

  lemma ExportsNext(names: seq<Bytes>, i: nat)
    requires i < |names|
    ensures forall p :: Exports(names[..i + 1], p) <==> Exports(names[..i], p) || WorldOf(names[i]) == Some(p)
  {
    var before, after := names[..i], names[..i + 1];
    forall p ensures Exports(after, p) <==> Exports(before, p) || WorldOf(names[i]) == Some(p) {
      if Exports(before, p) {
        var k :| 0 <= k < |before| && WorldOf(before[k]) == Some(p);
        assert after[k] == before[k];
      }
      if WorldOf(names[i]) == Some(p) { assert after[i] == names[i]; }
    }
  }

  /** The number of different worlds found decides the outcome. */
  lemma CountDecides(names: seq<Bytes>, profiles: seq<WasiProfile>)
    requires forall p :: p in profiles <==> Exports(names, p)
    requires forall i, j :: 0 <= i < j < |profiles| ==> profiles[i] != profiles[j]
    ensures |profiles| == 0 ==> Detected(names, Err(NoWorld))
    ensures |profiles| == 1 ==> Detected(names, Ok(profiles[0]))
    ensures |profiles| > 1 ==> Detected(names, Err(SeveralWorlds))
  {
    if |profiles| > 1 { assert profiles[0] in profiles && profiles[1] in profiles; }
    if |profiles| == 1 { assert profiles[0] in profiles; }
  }

  method DetectProfile(names: seq<Bytes>) returns (r: Result<WasiProfile, DetectError>)
    ensures Detected(names, r)
  {
    var profiles: seq<WasiProfile> := [];
    for i := 0 to |names|
      invariant forall p :: p in profiles <==> Exports(names[..i], p)
    {
      var world := WorldOf(names[i]);
      ExportsNext(names, i);
      if world.Some? { profiles := profiles + [world.value]; }
    }
    assert names[..|names|] == names;
    forall p ensures p in SortDedup(profiles) <==> p in profiles { SortDedupKeeps(profiles, p); }
    profiles := SortDedup(profiles);
    CountDecides(names, profiles);
    r := if |profiles| == 1 then Ok(profiles[0]) else if |profiles| == 0 then Err(NoWorld) else Err(SeveralWorlds);
  }

  /** The value `DetectProfile` computes, for use in specifications. */
  ghost function Detect(names: seq<Bytes>): (r: Result<WasiProfile, DetectError>)
    ensures Detected(names, r)
  {
    if forall q :: !Exports(names, q) then Err(NoWorld)
    else
      var p :| Exports(names, p);
      if forall q :: Exports(names, q) ==> q == p then Ok(p) else Err(SeveralWorlds)
  }
}
