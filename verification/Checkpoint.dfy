/** The authenticated checkpoint envelope: what sealing produces, what opening accepts, and why the two agree
    (src/checkpoint.rs). */
module Checkpoint {
  import opened Bytes
  import opened Wrappers
  import opened Crypto
  import Journal

  const CHECKPOINT_MAGIC: Bytes := Ascii("RTWCPKT\0")
  const CHECKPOINT_DOMAIN: Bytes := Ascii("runtrue-wasm-runtime.wasix-checkpoint.v2\0")
  const FORMAT_VERSION: nat := 2
  const HEADER_BYTES: nat := 22
  const TAG_BYTES: nat := 32
  const MAX_METADATA_BYTES: nat := 16 * 1024
  const PROTOCOL_VERSION: nat := 8
  const COHORT_ID: Bytes := Ascii("wasmer-7.1.0+wasix-0.701.0+webc-11.0.0")
  const ENGINE_PROFILE: Bytes := Ascii("runtrue-wasix-engine-v1")
  const JOURNAL_FORMAT: Bytes := Ascii("wasmer-log-file-v1")
  const EXECUTION_ABI: Bytes := Ascii("wasix_32v1+asyncify")
  const ISOLATION_POLICY: Bytes := Ascii("runtrue-wasix-isolation-v1")
  const SNAPSHOT_TRIGGER: Bytes := Ascii("explicit")

  datatype Binding = Binding(
    environmentId: Bytes,
    moduleSha256: Bytes,
    command: Bytes,
    instanceId: Bytes,
    generation: nat)

  predicate ValidToken(text: Bytes, maximum: nat)
  {
    && 0 < |text| <= maximum
    && forall i :: 0 <= i < |text| ==> 0x21 <= text[i] <= 0x7e && text[i] != 0x5c && text[i] != 0x22
  }

  predicate ValidBinding(b: Binding)
  {
    && ValidPrefixedSha256(b.environmentId)
    && ValidSha256(b.moduleSha256)
    && ValidToken(b.command, 256)
    && ValidToken(b.instanceId, 128)
    && b.generation != 0
  }

  datatype Metadata = Metadata(
    binding: Binding,
    runtimeVersion: Bytes,
    workerProtocolVersion: nat,
    cohortId: Bytes,
    workerBuildSha256: Bytes,
    engineProfile: Bytes,
    platform: Bytes,
    journalFormat: Bytes,
    executionAbi: Bytes,
    isolationPolicy: Bytes,
    snapshotTrigger: Bytes,
    journalSha256: Bytes)

  /** A codec with its key, its limit, the build it belongs to, and the library code it calls. */
  datatype Codec = Codec(
    mac: Bytes -> Digest,
    hash: Bytes -> Digest,
    encode: Metadata -> Bytes,
    decode: Bytes -> Option<Metadata>,
    runtimeVersion: Bytes,
    platform: Bytes,
    maxJournalBytes: nat)

  /** A journal attested by the capture path. */
  datatype Capture = Capture(bytes: Bytes, binding: Binding, workerBuildSha256: Bytes, explicitSnapshot: bool)

  /** `from_attested_worker_capture`: what every capture in circulation satisfies. */
  ghost predicate Attested(j: Capture)
  {
    ValidBinding(j.binding) && ValidSha256(j.workerBuildSha256) && Journal.Accepted(j.bytes) && j.explicitSnapshot
  }

  datatype CheckpointError =
    | ZeroLimit | InvalidBinding | BindingMismatch | EmptyJournal | JournalTooLarge | BadJournal | MetadataTooLarge
    | LengthOverflow | ArtifactTooLarge | Truncated | BadMagic | UnsupportedFormat | BadMetadataLength
    | LengthMismatch | BadTag | MalformedMetadata | Incompatible | BadJournalDigest | ReadFailed | WriteFailed

  function CurrentMetadata(c: Codec, binding: Binding, workerBuild: Bytes, journal: Bytes): (m: Metadata)
  {
    Metadata(binding, c.runtimeVersion, PROTOCOL_VERSION, COHORT_ID, workerBuild, ENGINE_PROFILE, c.platform,
             JOURNAL_FORMAT, EXECUTION_ABI, ISOLATION_POLICY, SNAPSHOT_TRIGGER, Hex(c.hash(journal)))
  }

  /** The metadata of this capture decodes to itself. */
  predicate RoundTrips(c: Codec, j: Capture)
  {
    var m := CurrentMetadata(c, j.binding, j.workerBuildSha256, j.bytes);
    c.decode(c.encode(m)) == Some(m)
  }

  /** `CheckpointMetadata::validate`. */
  predicate ValidMetadata(c: Codec, m: Metadata, expected: Binding)
  {
    && ValidBinding(m.binding)
    && ValidSha256(m.journalSha256)
    && ValidSha256(m.workerBuildSha256)
    && m == CurrentMetadata(c, expected, m.workerBuildSha256, []).(journalSha256 := m.journalSha256)
  }

  // ---------------------------------------------------------------- header

  function Header(metadataLen: nat, journalLen: nat): (b: Bytes)
    requires metadataLen < 0x1_0000_0000 && journalLen <= USIZE_MAX
    ensures |b| == HEADER_BYTES
  {
    Widths();
    CHECKPOINT_MAGIC + BigEndian(FORMAT_VERSION, 2) + BigEndian(metadataLen, 4) + BigEndian(journalLen, 8)
  }

  datatype Layout = Layout(metadataEnd: nat, authenticatedLen: nat, artifactLen: nat)

  function ValidateJournalLength(c: Codec, length: nat): (error: Option<CheckpointError>)
  {
    if length == 0 then Some(EmptyJournal)
    else if length > c.maxJournalBytes then Some(JournalTooLarge)
    else None
  }

  function ValidateHeader(c: Codec, header: Bytes): (r: Result<Layout, CheckpointError>)
    requires |header| == HEADER_BYTES
    ensures r.Ok? ==>
      && HEADER_BYTES < r.value.metadataEnd <= HEADER_BYTES + MAX_METADATA_BYTES
      && 0 < r.value.authenticatedLen - r.value.metadataEnd <= c.maxJournalBytes
      && r.value.artifactLen == r.value.authenticatedLen + TAG_BYTES <= USIZE_MAX
  {
    var metadataLen := FromBigEndian(header[10..14]);
    var journalLen := FromBigEndian(header[14..22]);
    if header[..8] != CHECKPOINT_MAGIC then Err(BadMagic)
    else if FromBigEndian(header[8..10]) != FORMAT_VERSION then Err(UnsupportedFormat)
    else if metadataLen == 0 || metadataLen > MAX_METADATA_BYTES then Err(BadMetadataLength)
    else if ValidateJournalLength(c, journalLen).Some? then Err(ValidateJournalLength(c, journalLen).value)
    else if HEADER_BYTES + metadataLen + journalLen + TAG_BYTES > USIZE_MAX then Err(LengthOverflow)
    else
      var metadataEnd := HEADER_BYTES + metadataLen;
      Ok(Layout(metadataEnd, metadataEnd + journalLen, metadataEnd + journalLen + TAG_BYTES))
  }

  /** `maximum_artifact_bytes`, or nothing when it overflows. */
  function MaximumArtifactBytes(c: Codec): (r: Option<nat>)
  {
    var total := HEADER_BYTES + MAX_METADATA_BYTES + c.maxJournalBytes + TAG_BYTES;
    if total > USIZE_MAX then None else Some(total)
  }

  lemma HeaderRoundTrip(metadataLen: nat, journalLen: nat)
    requires metadataLen < 0x1_0000_0000 && journalLen <= USIZE_MAX
    ensures var h := Header(metadataLen, journalLen);
      && h[..8] == CHECKPOINT_MAGIC && FromBigEndian(h[8..10]) == FORMAT_VERSION
      && FromBigEndian(h[10..14]) == metadataLen && FromBigEndian(h[14..22]) == journalLen
  {
    Widths();
    var h := Header(metadataLen, journalLen);
    assert h[..8] == CHECKPOINT_MAGIC && h[8..10] == BigEndian(FORMAT_VERSION, 2);
    assert h[10..14] == BigEndian(metadataLen, 4);
    assert h[14..] == BigEndian(journalLen, 8) && h[14..22] == h[14..];
  }

  // ---------------------------------------------------------------- sealing

  /** The authenticated part of an artifact. */
  function Body(metadata: Bytes, journal: Bytes): (b: Bytes)
    requires |metadata| < 0x1_0000_0000 && |journal| <= USIZE_MAX
    ensures |b| == HEADER_BYTES + |metadata| + |journal|
  {
    Header(|metadata|, |journal|) + metadata + journal
  }

  function WithTag(c: Codec, body: Bytes): (artifact: Bytes)
    ensures |artifact| == |body| + TAG_BYTES
  {
    body + c.mac(CHECKPOINT_DOMAIN + body)
  }

  /** `seal`, `seal_capture` and their streaming forms: what is written for this binding, or why nothing is. */
  ghost function Seal(c: Codec, binding: Binding, j: Capture): (r: Result<Bytes, CheckpointError>)
  {
    var metadata := c.encode(CurrentMetadata(c, binding, j.workerBuildSha256, j.bytes));
    if c.maxJournalBytes == 0 then Err(ZeroLimit)
    else if !ValidBinding(binding) then Err(InvalidBinding)
    else if binding != j.binding || !j.explicitSnapshot then Err(BindingMismatch)
    else if ValidateJournalLength(c, |j.bytes|).Some? then Err(ValidateJournalLength(c, |j.bytes|).value)
    else if !Journal.Accepted(j.bytes) then Err(BadJournal)
    else if metadata == [] || |metadata| > MAX_METADATA_BYTES then Err(MetadataTooLarge)
    else if HEADER_BYTES + |metadata| + |j.bytes| + TAG_BYTES > USIZE_MAX then Err(LengthOverflow)
    else Ok(WithTag(c, Body(metadata, j.bytes)))
  }

  // ---------------------------------------------------------------- opening

  datatype Parts = Parts(binding: Binding, start: nat, end: nat, artifactSha256: Bytes, workerBuildSha256: Bytes)

  /** The checks on an artifact whose framing is known. */
  ghost function VerifyFramed(c: Codec, expected: Binding, artifact: Bytes, layout: Layout):
    (r: Result<Parts, CheckpointError>)
    requires HEADER_BYTES <= layout.metadataEnd <= layout.authenticatedLen <= |artifact|
  {
    var body := artifact[..layout.authenticatedLen];
    var metadata := c.decode(artifact[HEADER_BYTES..layout.metadataEnd]);
    var journal := artifact[layout.metadataEnd..layout.authenticatedLen];
    if artifact[layout.authenticatedLen..] != c.mac(CHECKPOINT_DOMAIN + body) then Err(BadTag)
    else if metadata.None? then Err(MalformedMetadata)
    else if !ValidMetadata(c, metadata.value, expected) then Err(Incompatible)
    else if metadata.value.journalSha256 != Hex(c.hash(journal)) then Err(BadJournalDigest)
    else if !Journal.Accepted(journal) then Err(BadJournal)
    else Ok(Parts(metadata.value.binding, layout.metadataEnd, layout.authenticatedLen, Hex(c.hash(artifact)),
                  metadata.value.workerBuildSha256))
  }

  /** `verify_parts`. */
  ghost function VerifyParts(c: Codec, expected: Binding, artifact: Bytes): (r: Result<Parts, CheckpointError>)
    ensures r.Ok? ==> r.value.start <= r.value.end <= |artifact|
  {
    var maximum := MaximumArtifactBytes(c);
    if c.maxJournalBytes == 0 then Err(ZeroLimit)
    else if !ValidBinding(expected) then Err(InvalidBinding)
    else if maximum.None? then Err(LengthOverflow)
    else if |artifact| > maximum.value then Err(ArtifactTooLarge)
    else if |artifact| < HEADER_BYTES + TAG_BYTES then Err(Truncated)
    else
      var layout := ValidateHeader(c, artifact[..HEADER_BYTES]);
      if layout.Err? then Err(layout.error)
      else if |artifact| != layout.value.artifactLen then Err(LengthMismatch)
      else VerifyFramed(c, expected, artifact, layout.value)
  }

  // ---------------------------------------------------------------- sealing then opening

  lemma Slices(a: Bytes, b: Bytes, c: Bytes, d: Bytes)
    ensures var s := a + b + c + d; var j := |a| + |b|; var k := j + |c|;
      s[..|a|] == a && s[..k] == a + b + c && s[|a|..j] == b && s[j..k] == c && s[k..] == d
  {
  }

  lemma SealedLayout(c: Codec, metadata: Bytes, journal: Bytes)
    requires 0 < |metadata| <= MAX_METADATA_BYTES && 0 < |journal| <= c.maxJournalBytes
    requires HEADER_BYTES + |metadata| + |journal| + TAG_BYTES <= USIZE_MAX
    ensures var a := WithTag(c, Body(metadata, journal)); var n := HEADER_BYTES + |metadata|;
      && ValidateHeader(c, a[..HEADER_BYTES]) == Ok(Layout(n, n + |journal|, n + |journal| + TAG_BYTES))
      && a[..n + |journal|] == Body(metadata, journal)
      && a[HEADER_BYTES..n] == metadata && a[n..n + |journal|] == journal
      && a[n + |journal|..] == c.mac(CHECKPOINT_DOMAIN + Body(metadata, journal))
  {
    Slices(Header(|metadata|, |journal|), metadata, journal, c.mac(CHECKPOINT_DOMAIN + Body(metadata, journal)));
    HeaderRoundTrip(|metadata|, |journal|);
  }

  lemma CurrentIsValid(c: Codec, j: Capture)
    requires Attested(j)
    ensures ValidMetadata(c, CurrentMetadata(c, j.binding, j.workerBuildSha256, j.bytes), j.binding)
  {
  }

  lemma SealedVerifies(c: Codec, j: Capture, metadata: Bytes)
    requires RoundTrips(c, j) && Attested(j) && 0 < |j.bytes| <= c.maxJournalBytes
    requires metadata == c.encode(CurrentMetadata(c, j.binding, j.workerBuildSha256, j.bytes))
    requires 0 < |metadata| <= MAX_METADATA_BYTES && HEADER_BYTES + |metadata| + |j.bytes| + TAG_BYTES <= USIZE_MAX
    ensures var a := WithTag(c, Body(metadata, j.bytes)); var n := HEADER_BYTES + |metadata|;
      VerifyFramed(c, j.binding, a, Layout(n, n + |j.bytes|, |a|)) ==
      Ok(Parts(j.binding, n, n + |j.bytes|, Hex(c.hash(a)), j.workerBuildSha256))
  {
    SealedLayout(c, metadata, j.bytes);
    CurrentIsValid(c, j);
  }

  /** Opening a sealed capture with the same key, limit and binding succeeds exactly when the largest artifact the
      limit allows has a representable length, and then returns the identical journal, binding and worker digest. */
  lemma SealThenOpen(c: Codec, j: Capture, artifact: Bytes)
    requires RoundTrips(c, j) && Attested(j) && Seal(c, j.binding, j) == Ok(artifact)
    ensures var r := VerifyParts(c, j.binding, artifact);
      && (r.Ok? <==> MaximumArtifactBytes(c).Some?)
      && (r.Ok? ==>
            && artifact[r.value.start..r.value.end] == j.bytes
            && r.value.binding == j.binding
            && r.value.workerBuildSha256 == j.workerBuildSha256
            && r.value.artifactSha256 == Hex(c.hash(artifact)))
  {
    var metadata := c.encode(CurrentMetadata(c, j.binding, j.workerBuildSha256, j.bytes));
    SealedLayout(c, metadata, j.bytes);
    SealedVerifies(c, j, metadata);
  }

  /** An attested capture seals under its own binding if and only if its journal is within the limit and its metadata
      and the whole artifact have lengths that the format can hold. */
  lemma SealsIff(c: Codec, j: Capture)
    requires Attested(j)
    ensures var metadata := c.encode(CurrentMetadata(c, j.binding, j.workerBuildSha256, j.bytes));
      Seal(c, j.binding, j).Ok? <==>
        && 0 < |j.bytes| <= c.maxJournalBytes && 0 < |metadata| <= MAX_METADATA_BYTES
        && HEADER_BYTES + |metadata| + |j.bytes| + TAG_BYTES <= USIZE_MAX
  {
  }

  // ---------------------------------------------------------------- exactly what opens

  /** `artifact` is `metadata` and `journal` in one envelope under the key, and the metadata names `expected`, this
      build in every respect, the journal, and a worker build. */
  ghost predicate Genuine(c: Codec, expected: Binding, artifact: Bytes, metadata: Bytes, journal: Bytes, worker: Bytes)
  {
    && 0 < |metadata| <= MAX_METADATA_BYTES && 0 < |journal| <= c.maxJournalBytes
    && HEADER_BYTES + MAX_METADATA_BYTES + c.maxJournalBytes + TAG_BYTES <= USIZE_MAX
    && artifact == WithTag(c, Body(metadata, journal))
    && c.decode(metadata) ==
         Some(Metadata(expected, c.runtimeVersion, PROTOCOL_VERSION, COHORT_ID, worker, ENGINE_PROFILE, c.platform,
                       JOURNAL_FORMAT, EXECUTION_ABI, ISOLATION_POLICY, SNAPSHOT_TRIGGER, Hex(c.hash(journal))))
    && ValidBinding(expected) && ValidSha256(worker) && Journal.Accepted(journal)
  }

  lemma GenuineOpens(c: Codec, expected: Binding, artifact: Bytes, metadata: Bytes, journal: Bytes, worker: Bytes)
    requires Genuine(c, expected, artifact, metadata, journal, worker)
    ensures var n := HEADER_BYTES + |metadata|;
      VerifyParts(c, expected, artifact) == Ok(Parts(expected, n, n + |journal|, Hex(c.hash(artifact)), worker))
  {
    SealedLayout(c, metadata, journal);
  }

  lemma FourParts(header: Bytes)
    requires |header| == HEADER_BYTES
    ensures header == header[..8] + header[8..10] + header[10..14] + header[14..22]
  {
  }

  /** A header is determined by what is read from it. */
  lemma HeaderOfRead(header: Bytes, metadataLen: nat, journalLen: nat)
    requires |header| == HEADER_BYTES && metadataLen < 0x1_0000_0000 && journalLen <= USIZE_MAX
    requires header[..8] == CHECKPOINT_MAGIC && BigEndian(FORMAT_VERSION, 2) == header[8..10]
    requires BigEndian(metadataLen, 4) == header[10..14] && BigEndian(journalLen, 8) == header[14..22]
    ensures header == Header(metadataLen, journalLen)
  {
    FourParts(header);
  }

  /** The header of an artifact that was framed is the one its parts call for. */
  lemma HeaderIs(c: Codec, header: Bytes)
    requires |header| == HEADER_BYTES && ValidateHeader(c, header).Ok?
    ensures var l := ValidateHeader(c, header).value;
      header == Header(l.metadataEnd - HEADER_BYTES, l.authenticatedLen - l.metadataEnd)
  {
    var l := ValidateHeader(c, header).value;
    BigEndianOfRead(header[8..10]);
    BigEndianOfRead(header[10..14]);
    BigEndianOfRead(header[14..22]);
    HeaderOfRead(header, l.metadataEnd - HEADER_BYTES, l.authenticatedLen - l.metadataEnd);
  }

  /** The metadata of an artifact that opens, field by field. */
  lemma OpenedMetadata(c: Codec, expected: Binding, artifact: Bytes)
    requires VerifyParts(c, expected, artifact).Ok?
    ensures var p := VerifyParts(c, expected, artifact).value;
      && HEADER_BYTES <= p.start <= p.end <= |artifact|
      && artifact[p.end..] == c.mac(CHECKPOINT_DOMAIN + artifact[..p.end])
      && Journal.Accepted(artifact[p.start..p.end])
      && c.decode(artifact[HEADER_BYTES..p.start]).Some?
      && var m := c.decode(artifact[HEADER_BYTES..p.start]).value;
         && m.runtimeVersion == c.runtimeVersion && m.platform == c.platform
         && m.workerProtocolVersion == PROTOCOL_VERSION && m.cohortId == COHORT_ID
         && m.engineProfile == ENGINE_PROFILE && m.journalFormat == JOURNAL_FORMAT
         && m.executionAbi == EXECUTION_ABI && m.isolationPolicy == ISOLATION_POLICY
         && m.snapshotTrigger == SNAPSHOT_TRIGGER && m.binding == expected == p.binding
         && m.workerBuildSha256 == p.workerBuildSha256 && ValidSha256(p.workerBuildSha256)
         && m.journalSha256 == Hex(c.hash(artifact[p.start..p.end]))
  {
  }

  lemma OpenedLayout(c: Codec, expected: Binding, artifact: Bytes)
    requires VerifyParts(c, expected, artifact).Ok?
    ensures var p := VerifyParts(c, expected, artifact).value;
      && |artifact| >= HEADER_BYTES
      && ValidateHeader(c, artifact[..HEADER_BYTES]) == Ok(Layout(p.start, p.end, |artifact|))
      && MaximumArtifactBytes(c).Some? && ValidBinding(expected)
  {
  }

  /** The envelope put together from its parts. */
  lemma Reassemble(c: Codec, artifact: Bytes, start: nat, end: nat)
    requires HEADER_BYTES <= start <= end <= |artifact|
    requires start - HEADER_BYTES <= MAX_METADATA_BYTES && end - start <= USIZE_MAX
    requires artifact[..HEADER_BYTES] == Header(start - HEADER_BYTES, end - start)
    requires artifact[end..] == c.mac(CHECKPOINT_DOMAIN + artifact[..end])
    ensures artifact == WithTag(c, Body(artifact[HEADER_BYTES..start], artifact[start..end]))
  {
    var body := artifact[..end];
    CutInThree(body, HEADER_BYTES, start);
    assert body[..HEADER_BYTES] == artifact[..HEADER_BYTES];
    assert body[HEADER_BYTES..start] == artifact[HEADER_BYTES..start] && body[start..] == artifact[start..end];
    assert artifact == body + artifact[end..];
  }

  lemma ReadIsWritten(c: Codec, artifact: Bytes, start: nat, end: nat)
    requires HEADER_BYTES <= start <= end <= |artifact| && MaximumArtifactBytes(c).Some?
    requires ValidateHeader(c, artifact[..HEADER_BYTES]) == Ok(Layout(start, end, |artifact|))
    requires artifact[end..] == c.mac(CHECKPOINT_DOMAIN + artifact[..end])
    ensures 0 < start - HEADER_BYTES <= MAX_METADATA_BYTES && 0 < end - start <= c.maxJournalBytes
    ensures artifact == WithTag(c, Body(artifact[HEADER_BYTES..start], artifact[start..end]))
  {
    HeaderIs(c, artifact[..HEADER_BYTES]);
    Reassemble(c, artifact, start, end);
  }

  lemma OpensGenuine(c: Codec, expected: Binding, artifact: Bytes)
    requires VerifyParts(c, expected, artifact).Ok?
    ensures var p := VerifyParts(c, expected, artifact).value;
      && HEADER_BYTES <= p.start <= p.end <= |artifact|
      && Genuine(c, expected, artifact, artifact[HEADER_BYTES..p.start], artifact[p.start..p.end], p.workerBuildSha256)
  {
    var p := VerifyParts(c, expected, artifact).value;
    OpenedMetadata(c, expected, artifact);
    OpenedLayout(c, expected, artifact);
    ReadIsWritten(c, artifact, p.start, p.end);
  }

  /** Exactly the genuine artifacts open. */
  lemma OpensIff(c: Codec, expected: Binding, artifact: Bytes)
    ensures VerifyParts(c, expected, artifact).Ok? <==>
      exists metadata, journal, worker :: Genuine(c, expected, artifact, metadata, journal, worker)
  {
    if VerifyParts(c, expected, artifact).Ok? { OpensGenuine(c, expected, artifact); }
    forall metadata, journal, worker | Genuine(c, expected, artifact, metadata, journal, worker)
      ensures VerifyParts(c, expected, artifact).Ok?
    {
      GenuineOpens(c, expected, artifact, metadata, journal, worker);
    }
  }

  /** A binding under which something opens. */
  lemma OpenedBinding(c: Codec, expected: Binding, artifact: Bytes)
    requires VerifyParts(c, expected, artifact).Ok?
    ensures expected.generation > 0 && 0 < |expected.command| <= 256 && 0 < |expected.instanceId| <= 128
    ensures forall x :: x in expected.command + expected.instanceId ==> 0x20 < x < 0x7f && x !in {0x22, 0x5c}
    ensures |expected.moduleSha256| == 64 && |expected.environmentId| == 71
    ensures SHA256_PREFIX <= expected.environmentId
    ensures forall x :: x in expected.moduleSha256 + expected.environmentId[7..] ==> LowerHex(x)
  {
    OpensGenuine(c, expected, artifact);
  }

  lemma SameHeader(a: Bytes, b: Bytes, x: Bytes, y: Bytes)
    requires |a| < 0x1_0000_0000 && |b| <= USIZE_MAX && |x| < 0x1_0000_0000 && |y| <= USIZE_MAX
    requires Body(a, b) == Body(x, y)
    ensures |a| == |x| && |b| == |y|
  {
    var h, k := Header(|a|, |b|), Header(|x|, |y|);
    Associates(h, a, b);
    Associates(k, x, y);
    SplitEqual(h, a + b, k, x + y);
    HeaderRoundTrip(|a|, |b|);
    HeaderRoundTrip(|x|, |y|);
  }

  lemma BodyInjective(a: Bytes, b: Bytes, x: Bytes, y: Bytes)
    requires |a| < 0x1_0000_0000 && |b| <= USIZE_MAX && |x| < 0x1_0000_0000 && |y| <= USIZE_MAX
    requires Body(a, b) == Body(x, y)
    ensures a == x && b == y
  {
    SameHeader(a, b, x, y);
    SplitEqual(Header(|a|, |b|) + a, b, Header(|x|, |y|) + x, y);
    SplitEqual(Header(|a|, |b|), a, Header(|x|, |y|), x);
  }

  /** An artifact of another build is refused: whoever sealed it, with the same key and the same library code but for
      another release or platform. */
  lemma OtherBuildRefused(c: Codec, other: Codec, j: Capture, artifact: Bytes, expected: Binding)
    requires other.encode == c.encode && other.decode == c.decode && other.mac == c.mac
    requires other.runtimeVersion != c.runtimeVersion || other.platform != c.platform
    requires RoundTrips(other, j) && Seal(other, j.binding, j) == Ok(artifact)
    ensures VerifyParts(c, expected, artifact).Err?
  {
    if VerifyParts(c, expected, artifact).Ok? {
      OpensGenuine(c, expected, artifact);
      var p := VerifyParts(c, expected, artifact).value;
      var x, y := artifact[HEADER_BYTES..p.start], artifact[p.start..p.end];
      var metadata := c.encode(CurrentMetadata(other, j.binding, j.workerBuildSha256, j.bytes));
      var a, b := Body(metadata, j.bytes), Body(x, y);
      SplitEqual(a, c.mac(CHECKPOINT_DOMAIN + a), b, c.mac(CHECKPOINT_DOMAIN + b));
      BodyInjective(metadata, j.bytes, x, y);
    }
  }

  /** A journal of one module, one thread and one snapshot record. */
  const SMALL_RECORDS: seq<Journal.Record> := [
    Journal.Record(Journal.INIT_MODULE, [0]),
    Journal.Record(Journal.SET_THREAD, [0]),
    Journal.Record(Journal.SNAPSHOT, [0])]

  function SmallDigest(): (text: Bytes)
    ensures ValidSha256(text)
  {
    seq(64, _ => 0x30)
  }

  lemma SmallLifecycle()
    ensures Journal.Lifecycle(SMALL_RECORDS)
  {
    assert SMALL_RECORDS[1].kind == Journal.SET_THREAD;
  }

  lemma SmallLength()
    requires Journal.AllFramed(SMALL_RECORDS)
    ensures |Journal.Encode(SMALL_RECORDS)| == 27
  {
    var rs := SMALL_RECORDS;
    assert Journal.Encode(rs[3..]) == [];
    assert rs[1..][1..] == rs[2..] && rs[2..][1..] == rs[3..];
    assert |Journal.Encode(rs[2..])| == 9 && |Journal.Encode(rs[1..])| == 18;
  }

  lemma SmallJournal()
    ensures Journal.AllFramed(SMALL_RECORDS)
    ensures var journal := Journal.MAGIC + Journal.Encode(SMALL_RECORDS); Journal.Accepted(journal) && |journal| == 35
  {
    SmallLifecycle();
    SmallLength();
  }

  /** Both sides of that condition occur: for every limit that admits some small capture, one seals, and it opens or
      fails to open as the limit alone says. */
  lemma SealedUnderAnyLimit(limit: nat) returns (c: Codec, j: Capture, artifact: Bytes)
    requires limit >= 35
    ensures c.maxJournalBytes == limit && RoundTrips(c, j) && Attested(j) && Seal(c, j.binding, j) == Ok(artifact)
    ensures MaximumArtifactBytes(c).None? ==> VerifyParts(c, j.binding, artifact) == Err(LengthOverflow)
  {
    SmallJournal();
    var journal := Journal.MAGIC + Journal.Encode(SMALL_RECORDS);
    var id := SHA256_PREFIX + SmallDigest();
    assert id[7..] == SmallDigest();
    j := Capture(journal, Binding(id, SmallDigest(), [0x61], [0x61], 1), SmallDigest(), true);
    var digest: Digest := seq(32, _ => 0);
    var hex := Hex(digest);
    var m := Metadata(j.binding, [], PROTOCOL_VERSION, COHORT_ID, SmallDigest(), ENGINE_PROFILE, [], JOURNAL_FORMAT,
                      EXECUTION_ABI, ISOLATION_POLICY, SNAPSHOT_TRIGGER, hex);
    c := Codec(_ => digest, _ => digest, _ => [0], _ => Some(m), [], [], limit);
    artifact := WithTag(c, Body([0], journal));
  }

  /** With the largest limit a capture that was sealed cannot be opened. */
  lemma OpenCanFail() returns (c: Codec, j: Capture, artifact: Bytes)
    ensures c.maxJournalBytes == USIZE_MAX && RoundTrips(c, j) && Attested(j)
    ensures Seal(c, j.binding, j) == Ok(artifact) && VerifyParts(c, j.binding, artifact) == Err(LengthOverflow)
  {
    c, j, artifact := SealedUnderAnyLimit(USIZE_MAX);
  }

  // ---------------------------------------------------------------- only sealed artifacts open

  /** `body` carries the tag that was issued for one of these captures. */
  ghost predicate SealedBody(c: Codec, issued: iset<Capture>, body: Bytes)
  {
    exists j :: j in issued && Seal(c, j.binding, j) == Ok(WithTag(c, body))
  }

  /** No tag at the end of `artifact` verifies unless it was issued for one of these captures. */
  ghost predicate Unforgeable(c: Codec, issued: iset<Capture>, artifact: Bytes)
  {
    forall n :: 0 <= n <= |artifact| && artifact[n..] == c.mac(CHECKPOINT_DOMAIN + artifact[..n]) ==>
      SealedBody(c, issued, artifact[..n])
  }

  lemma OpenedIsSealed(c: Codec, expected: Binding, artifact: Bytes, j: Capture)
    requires RoundTrips(c, j) && Attested(j) && Seal(c, j.binding, j) == Ok(artifact)
    requires VerifyParts(c, expected, artifact).Ok?
    ensures j.binding == expected
    ensures var p := VerifyParts(c, expected, artifact).value;
      artifact[p.start..p.end] == j.bytes && p.binding == j.binding && p.workerBuildSha256 == j.workerBuildSha256
  {
    var metadata := c.encode(CurrentMetadata(c, j.binding, j.workerBuildSha256, j.bytes));
    SealedLayout(c, metadata, j.bytes);
  }

  /** Whatever opens is byte for byte the artifact of a capture that was sealed, and what it yields is what was
      captured. */
  lemma OpensOnlySealed(c: Codec, issued: iset<Capture>, expected: Binding, artifact: Bytes) returns (j: Capture)
    requires forall k :: k in issued ==> RoundTrips(c, k) && Attested(k)
    requires Unforgeable(c, issued, artifact) && VerifyParts(c, expected, artifact).Ok?
    ensures j in issued && j.binding == expected && Seal(c, expected, j) == Ok(artifact)
    ensures var p := VerifyParts(c, expected, artifact).value;
      artifact[p.start..p.end] == j.bytes && p.binding == j.binding && p.workerBuildSha256 == j.workerBuildSha256
  {
    var n := VerifyParts(c, expected, artifact).value.end;
    OpenedMetadata(c, expected, artifact);
    assert artifact == WithTag(c, artifact[..n]);
    j :| j in issued && Seal(c, j.binding, j) == Ok(WithTag(c, artifact[..n]));
    OpenedIsSealed(c, expected, artifact, j);
  }

  /** The hypothesis holds of everything that was issued. */
  lemma IssuedIsUnforgeable(c: Codec, issued: iset<Capture>, j: Capture, artifact: Bytes)
    requires j in issued && Seal(c, j.binding, j) == Ok(artifact)
    ensures Unforgeable(c, issued, artifact)
  {
    forall n | 0 <= n <= |artifact| && artifact[n..] == c.mac(CHECKPOINT_DOMAIN + artifact[..n])
      ensures SealedBody(c, issued, artifact[..n])
    {
      assert |artifact[n..]| == TAG_BYTES;
      assert artifact == WithTag(c, artifact[..n]);
    }
  }
}
