/** The codec as it runs: two writers and three readers over the envelope of Checkpoint, with streaming forms
    proved to agree with the buffered ones for every chunking (src/checkpoint.rs). */
module CheckpointCodec {
  import opened Bytes
  import opened Wrappers
  import opened Crypto
  import opened Checkpoint
  import opened Streams
  import Journal

  // ---------------------------------------------------------------- writers

  datatype Prepared = Prepared(header: Bytes, metadata: Bytes, journal: Bytes, artifactLen: nat)

  /** `prepare_seal`; `chunks` is the metadata as the serializer hands it to its writer. */
  method PrepareSeal(c: Codec, binding: Binding, j: Capture, chunks: seq<Bytes>)
    returns (r: Result<Prepared, CheckpointError>)
    requires Concat(chunks) == c.encode(CurrentMetadata(c, binding, j.workerBuildSha256, j.bytes))
    ensures r.Err? ==> Seal(c, binding, j) == Err(r.error)
    ensures r.Ok? ==>
      && |r.value.metadata| <= MAX_METADATA_BYTES && |r.value.journal| <= USIZE_MAX
      && r.value.header == Header(|r.value.metadata|, |r.value.journal|)
      && Seal(c, binding, j) == Ok(WithTag(c, Body(r.value.metadata, r.value.journal)))
      && r.value.artifactLen == |WithTag(c, Body(r.value.metadata, r.value.journal))|
  {
    if c.maxJournalBytes == 0 { return Err(ZeroLimit); }
    if !ValidBinding(binding) { return Err(InvalidBinding); }
    if binding != j.binding || !j.explicitSnapshot { return Err(BindingMismatch); }
    var length := ValidateJournalLength(c, |j.bytes|);
    if length.Some? { return Err(length.value); }
    var scan := Journal.ScanJournal(j.bytes);
    if scan.Err? { return Err(BadJournal); }
    var metadata := WriteChunks(chunks, MAX_METADATA_BYTES);
    if metadata.None? || metadata.value == [] || |metadata.value| > MAX_METADATA_BYTES { return Err(MetadataTooLarge); }
    var capacity := HEADER_BYTES + |metadata.value| + |j.bytes| + TAG_BYTES;
    if capacity > USIZE_MAX { return Err(LengthOverflow); }
    r := Ok(Prepared(Header(|metadata.value|, |j.bytes|), metadata.value, j.bytes, capacity));
  }

  lemma FourWrites(w: Bytes, a: Bytes, b: Bytes, c: Bytes, d: Bytes)
    ensures w + a + b + c + d == w + (a + b + c + d) && w + a + b + c == w + (a + b + c)
  {
  }

  /** `write_prepared_checkpoint`: every authenticated chunk goes to the sink and then to the MAC. */
  method WritePrepared(c: Codec, p: Prepared, writer: ChunkedWriter) returns (ok: bool)
    requires |p.metadata| <= MAX_METADATA_BYTES && |p.journal| <= USIZE_MAX
    requires p.header == Header(|p.metadata|, |p.journal|)
    requires !writer.failed
    modifies writer
    ensures ok <==> !writer.failed
    ensures ok ==> writer.contents == old(writer.contents) + WithTag(c, Body(p.metadata, p.journal))
  {
    var fed := CHECKPOINT_DOMAIN;
    ok := writer.WriteAll(p.header);
    if !ok { return; }
    fed := fed + p.header;
    ok := writer.WriteAll(p.metadata);
    if !ok { return; }
    fed := fed + p.metadata;
    ok := writer.WriteAll(p.journal);
    if !ok { return; }
    fed := fed + p.journal;
    FourWrites(CHECKPOINT_DOMAIN, p.header, p.metadata, p.journal, []);
    ok := writer.WriteAll(c.mac(fed));
    FourWrites(old(writer.contents), p.header, p.metadata, p.journal, c.mac(fed));
  }

  /** `seal_capture_into`: what reaches the sink is the artifact `seal_capture` returns. */
  method SealCaptureInto(c: Codec, j: Capture, chunks: seq<Bytes>, writer: ChunkedWriter)
    returns (r: Result<nat, CheckpointError>)
    requires Concat(chunks) == c.encode(CurrentMetadata(c, j.binding, j.workerBuildSha256, j.bytes))
    requires !writer.failed
    modifies writer
    ensures writer.failed ==> r == Err(WriteFailed)
    ensures !writer.failed ==>
      match Seal(c, j.binding, j)
      case Ok(artifact) => r == Ok(|artifact|) && writer.contents == old(writer.contents) + artifact
      case Err(error) => r == Err(error) && writer.contents == old(writer.contents)
  {
    var prepared := PrepareSeal(c, j.binding, j, chunks);
    if prepared.Err? { return Err(prepared.error); }
    var ok := WritePrepared(c, prepared.value, writer);
    if !ok { return Err(WriteFailed); }
    r := Ok(prepared.value.artifactLen);
  }

  /** `seal_capture`: the in-memory sink is a vector, which takes every write whole. */
  method SealCapture(c: Codec, j: Capture, chunks: seq<Bytes>) returns (r: Result<Bytes, CheckpointError>)
    requires Concat(chunks) == c.encode(CurrentMetadata(c, j.binding, j.workerBuildSha256, j.bytes))
    ensures r == Seal(c, j.binding, j)
  {
    var prepared := PrepareSeal(c, j.binding, j, chunks);
    if prepared.Err? { return Err(prepared.error); }
    var p := prepared.value;
    var artifact := p.header + p.metadata + p.journal;
    var fed := CHECKPOINT_DOMAIN + p.header + p.metadata + p.journal;
    assert fed == CHECKPOINT_DOMAIN + Body(p.metadata, p.journal);
    r := Ok(artifact + c.mac(fed));
  }

  // ---------------------------------------------------------------- readers

  method CheckFramed(c: Codec, expected: Binding, artifact: Bytes, layout: Layout)
    returns (r: Result<Parts, CheckpointError>)
    requires HEADER_BYTES <= layout.metadataEnd <= layout.authenticatedLen <= |artifact|
    ensures r == VerifyFramed(c, expected, artifact, layout)
  {
    var tag := c.mac(CHECKPOINT_DOMAIN + artifact[..layout.authenticatedLen]);
    if artifact[layout.authenticatedLen..] != tag { return Err(BadTag); }
    var metadata := c.decode(artifact[HEADER_BYTES..layout.metadataEnd]);
    if metadata.None? { return Err(MalformedMetadata); }
    if !ValidMetadata(c, metadata.value, expected) { return Err(Incompatible); }
    var journal := artifact[layout.metadataEnd..layout.authenticatedLen];
    if metadata.value.journalSha256 != Hex(c.hash(journal)) { return Err(BadJournalDigest); }
    var scan := Journal.ScanJournal(journal);
    if scan.Err? { return Err(BadJournal); }
    r := Ok(Parts(metadata.value.binding, layout.metadataEnd, layout.authenticatedLen, Hex(c.hash(artifact)),
                  metadata.value.workerBuildSha256));
  }

  /** `verify_parts`. */
  method CheckParts(c: Codec, expected: Binding, artifact: Bytes) returns (r: Result<Parts, CheckpointError>)
    ensures r == VerifyParts(c, expected, artifact)
  {
    if c.maxJournalBytes == 0 { return Err(ZeroLimit); }
    if !ValidBinding(expected) { return Err(InvalidBinding); }
    var maximum := MaximumArtifactBytes(c);
    if maximum.None? { return Err(LengthOverflow); }
    if |artifact| > maximum.value { return Err(ArtifactTooLarge); }
    if |artifact| < HEADER_BYTES + TAG_BYTES { return Err(Truncated); }
    var layout := ValidateHeader(c, artifact[..HEADER_BYTES]);
    if layout.Err? { return Err(layout.error); }
    if |artifact| != layout.value.artifactLen { return Err(LengthMismatch); }
    r := CheckFramed(c, expected, artifact, layout.value);
  }

  /** A verified checkpoint: a buffer and the range of the journal inside it. */
  datatype Verified = Verified(
    binding: Binding,
    bytes: Bytes,
    start: nat,
    end: nat,
    artifactSha256: Bytes,
    workerBuildSha256: Bytes)

  /** Two verified checkpoints that differ only in how they store the journal. */
  predicate SameCheckpoint(v: Verified, p: Parts, artifact: Bytes)
    requires p.start <= p.end <= |artifact|
  {
    && v.start <= v.end <= |v.bytes|
    && v.bytes[v.start..v.end] == artifact[p.start..p.end]
    && v.binding == p.binding && v.artifactSha256 == p.artifactSha256 && v.workerBuildSha256 == p.workerBuildSha256
  }

  /** `open`: copies the journal out of the artifact. */
  method Open(c: Codec, expected: Binding, artifact: Bytes) returns (r: Result<Verified, CheckpointError>)
    ensures match VerifyParts(c, expected, artifact)
      case Ok(p) => r.Ok? && SameCheckpoint(r.value, p, artifact)
      case Err(error) => r == Err(error)
  {
    var parts := CheckParts(c, expected, artifact);
    if parts.Err? { return Err(parts.error); }
    var p := parts.value;
    var journal := artifact[p.start..p.end];
    r := Ok(Verified(p.binding, journal, 0, |journal|, p.artifactSha256, p.workerBuildSha256));
  }

  /** What `open_reader` may conclude from the header before reading the rest. */
  lemma ReaderDecides(c: Codec, expected: Binding, data: Bytes)
    requires c.maxJournalBytes > 0 && ValidBinding(expected) && MaximumArtifactBytes(c).Some?
    ensures |data| < HEADER_BYTES ==> VerifyParts(c, expected, data).Err?
    ensures |data| >= HEADER_BYTES ==>
      var layout := ValidateHeader(c, data[..HEADER_BYTES]);
      layout.Err? || |data| != layout.value.artifactLen ==> VerifyParts(c, expected, data).Err?
  {
  }

  /** `open_reader`: over every chunking of the stream, it accepts exactly what `open` accepts and yields the same
      checkpoint, unless the source itself fails. */
  method OpenReader(c: Codec, expected: Binding, reader: ChunkedReader) returns (r: Result<Verified, CheckpointError>)
    requires reader.Valid() && reader.position == 0
    modifies reader
    ensures reader.failed ==> r.Err?
    ensures !reader.failed ==>
      match VerifyParts(c, expected, reader.data)
      case Ok(p) => r.Ok? && SameCheckpoint(r.value, p, reader.data)
      case Err(_) => r.Err?
  {
    if c.maxJournalBytes == 0 { return Err(ZeroLimit); }
    if !ValidBinding(expected) { return Err(InvalidBinding); }
    var maximum := MaximumArtifactBytes(c);
    if maximum.None? { return Err(LengthOverflow); }
    ReaderDecides(c, expected, reader.data);
    var header := reader.ReadExact(HEADER_BYTES);
    if header.Err? { return Err(if header.error then ReadFailed else Truncated); }
    var layout := ValidateHeader(c, header.value);
    if layout.Err? { return Err(layout.error); }
    var body := reader.ReadExact(layout.value.artifactLen - HEADER_BYTES);
    if body.Err? { return Err(if body.error then ReadFailed else Truncated); }
    var artifact := header.value + body.value;
    var trailing := reader.ReadTrailing();
    if trailing.Err? { return Err(ReadFailed); }
    if trailing.value != 0 {
      return Err(if layout.value.artifactLen == maximum.value then ArtifactTooLarge else LengthMismatch);
    }
    assert artifact == reader.data;
    var parts := CheckParts(c, expected, artifact);
    if parts.Err? { return Err(parts.error); }
    var p := parts.value;
    r := Ok(Verified(p.binding, artifact, p.start, p.end, p.artifactSha256, p.workerBuildSha256));
  }

  /** `into_parts`: shift the journal to the front of its own buffer and cut the rest off. */
  method IntoParts(bytes: array<byte>, start: nat, end: nat) returns (journal: Bytes)
    requires start <= end <= bytes.Length
    modifies bytes
    ensures journal == old(bytes[start..end])
  {
    if start != 0 {
      forall i | 0 <= i < end - start { bytes[i] := bytes[start + i]; }
    }
    journal := bytes[..end - start];
  }

  /** `into_parts` of a verified checkpoint. */
  method TakeJournal(v: Verified) returns (journal: Bytes)
    requires v.start <= v.end <= |v.bytes|
    ensures journal == v.bytes[v.start..v.end]
  {
    var buffer := new byte[|v.bytes|](i requires 0 <= i < |v.bytes| => v.bytes[i]);
    assert buffer[v.start..v.end] == v.bytes[v.start..v.end];
    journal := IntoParts(buffer, v.start, v.end);
  }

  /** `open_reader` followed by `into_parts`: the journal of what `open` accepts. */
  method RestoreJournal(c: Codec, expected: Binding, reader: ChunkedReader) returns (r: Result<Bytes, CheckpointError>)
    requires reader.Valid() && reader.position == 0
    modifies reader
    ensures reader.failed ==> r.Err?
    ensures !reader.failed ==>
      match VerifyParts(c, expected, reader.data)
      case Ok(p) => r == Ok(reader.data[p.start..p.end])
      case Err(_) => r.Err?
  {
    var v := OpenReader(c, expected, reader);
    if v.Err? { return Err(v.error); }
    var journal := TakeJournal(v.value);
    r := Ok(journal);
  }

  /** End to end: a capture that was sealed, streamed over any sinks and sources that do not fail, read back over any
      chunking and shifted to the front of its buffer, is the captured journal; only a limit whose largest artifact
      has no representable length refuses it. */
  method SealAndRestore(c: Codec, j: Capture, chunks: seq<Bytes>, writer: ChunkedWriter, interruptions: nat)
    returns (r: Result<Bytes, CheckpointError>, failed: bool)
    requires Concat(chunks) == c.encode(CurrentMetadata(c, j.binding, j.workerBuildSha256, j.bytes))
    requires RoundTrips(c, j) && Attested(j)
    requires !writer.failed && writer.contents == []
    modifies writer
    ensures failed ==> r.Err?
    ensures !failed ==>
      match Seal(c, j.binding, j)
      case Ok(_) => if MaximumArtifactBytes(c).Some? then r == Ok(j.bytes) else r.Err?
      case Err(error) => r == Err(error)
  {
    var sealed := SealCaptureInto(c, j, chunks, writer);
    if sealed.Err? { return Err(sealed.error), writer.failed; }
    ghost var artifact := Seal(c, j.binding, j).value;
    assert writer.contents == artifact by { assert [] + artifact == artifact; }
    SealThenOpen(c, j, artifact);
    var reader := new ChunkedReader(writer.contents, interruptions);
    r := RestoreJournal(c, j.binding, reader);
    failed := reader.failed;
  }
}
