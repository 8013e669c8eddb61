/** Length-prefixed frames between parent and worker, and the chunked loops around them: framing is uniquely
    decodable and no loop depends on how the system splits its reads (src/wasix_worker.rs). */
module Framing {
  import opened Bytes
  import opened Wrappers
  import opened Crypto
  import opened Streams

  const MAX_HANDSHAKE_BYTES: nat := 16 * 1024
  const MAX_CHECKPOINT_BYTES: nat := 512 * 1024 * 1024
  const MAX_OUTPUT_BYTES: nat := 64 * 1024
  const MAX_DIAGNOSTIC_BYTES: nat := 16 * 1024
  const CHUNK_BYTES: nat := 64 * 1024

  // ---------------------------------------------------------------- frames

  /** What a reader accepts at one position of the protocol. */
  datatype Rule = Rule(maximum: nat, allowEmpty: bool)

  const HANDSHAKE: Rule := Rule(MAX_HANDSHAKE_BYTES, false)
  const OUTPUT: Rule := Rule(MAX_OUTPUT_BYTES, true)
  const CAPTURED: Rule := Rule(MAX_CHECKPOINT_BYTES, false)

  /** What a parent reads during a restore and during a capture. */
  const RESTORE_RULES: seq<Rule> := [HANDSHAKE, HANDSHAKE, HANDSHAKE, OUTPUT, OUTPUT]
  const CAPTURE_RULES: seq<Rule> := [HANDSHAKE, HANDSHAKE, HANDSHAKE, CAPTURED, OUTPUT, OUTPUT]

  predicate Admits(rule: Rule, payload: Bytes)
  {
    |payload| <= rule.maximum && |payload| < 0x1_0000_0000 && (payload == [] ==> rule.allowEmpty)
  }

  function Frame(payload: Bytes): (b: Bytes)
    requires |payload| < 0x1_0000_0000
    ensures |b| == 4 + |payload|
  {
    Widths();
    BigEndian(|payload|, 4) + payload
  }

  /** The payload at the front of a stream and what follows it. */
  function Unframe(rule: Rule, stream: Bytes): (r: Option<(Bytes, Bytes)>)
    ensures r.Some? ==> Admits(rule, r.value.0) && |stream| == 4 + |r.value.0| + |r.value.1|
  {
    Widths();
    if |stream| < 4 then None
    else
      var length := FromBigEndian(stream[..4]);
      if (!rule.allowEmpty && length == 0) || length > rule.maximum || |stream| < 4 + length then None
      else Some((stream[4..4 + length], stream[4 + length..]))
  }

  lemma UnframeFrame(rule: Rule, payload: Bytes, rest: Bytes)
    requires Admits(rule, payload)
    ensures Unframe(rule, Frame(payload) + rest) == Some((payload, rest))
  {
    Widths();
    var stream := Frame(payload) + rest;
    assert stream[..4] == BigEndian(|payload|, 4);
    assert stream[4..4 + |payload|] == payload && stream[4 + |payload|..] == rest;
  }

  lemma FrameUnframe(rule: Rule, stream: Bytes)
    requires Unframe(rule, stream).Some?
    ensures var p := Unframe(rule, stream).value; Frame(p.0) + p.1 == stream
  {
    Widths();
    BigEndianOfRead(stream[..4]);
    var p := Unframe(rule, stream).value;
    assert stream == stream[..4] + p.0 + p.1;
  }

  predicate AllAdmitted(rules: seq<Rule>, payloads: seq<Bytes>)
  {
    |rules| == |payloads| && forall i :: 0 <= i < |rules| ==> Admits(rules[i], payloads[i])
  }

  function Frames(payloads: seq<Bytes>): (b: Bytes)
    requires forall i :: 0 <= i < |payloads| ==> |payloads[i]| < 0x1_0000_0000
  {
    if payloads == [] then [] else Frame(payloads[0]) + Frames(payloads[1..])
  }

  /** Reading one frame per rule, and then the end of the stream. */
  function Conversation(rules: seq<Rule>, stream: Bytes): (r: Option<seq<Bytes>>)
  {
    if rules == [] then if stream == [] then Some([]) else None
    else
      var first := Unframe(rules[0], stream);
      if first.None? then None
      else
        var rest := Conversation(rules[1..], first.value.1);
        if rest.None? then None else Some([first.value.0] + rest.value)
  }

  /** A conversation reads back exactly what was written, and only a stream that was so written is one. */
  lemma {:induction false} ConversationExact(rules: seq<Rule>, stream: Bytes, payloads: seq<Bytes>)
    ensures Conversation(rules, stream) == Some(payloads) <==>
      AllAdmitted(rules, payloads) && stream == Frames(payloads)
  {
    if rules != [] {
      var first := Unframe(rules[0], stream);
      if AllAdmitted(rules, payloads) && stream == Frames(payloads) {
        UnframeFrame(rules[0], payloads[0], Frames(payloads[1..]));
        ConversationExact(rules[1..], Frames(payloads[1..]), payloads[1..]);
        assert payloads == [payloads[0]] + payloads[1..];
      }
      if Conversation(rules, stream) == Some(payloads) {
        FrameUnframe(rules[0], stream);
        ConversationExact(rules[1..], first.value.1, payloads[1..]);
      }
    }
  }

  /** `read_frame` and `read_bounded_worker_frame`. */
  method ReadFrame(reader: ChunkedReader, rule: Rule) returns (r: Option<Bytes>)
    requires reader.Valid()
    modifies reader
    ensures reader.position <= |reader.data|
    ensures r.Some? ==> !reader.failed
    ensures !reader.failed ==>
      match Unframe(rule, reader.data[old(reader.position)..])
      case None => r == None
      case Some(p) => r == Some(p.0) && reader.data[reader.position..] == p.1
  {
    ghost var stream := reader.data[reader.position..];
    var length := reader.ReadExact(4);
    if length.Err? { return None; }
    assert stream[..4] == length.value;
    Widths();
    var count := FromBigEndian(length.value);
    if (!rule.allowEmpty && count == 0) || count > rule.maximum { return None; }
    var payload := reader.ReadExact(count);
    if payload.Err? { return None; }
    assert stream[4..4 + count] == payload.value;
    assert stream[4 + count..] == reader.data[reader.position..];
    r := Some(payload.value);
  }

  /** The conversation when `done` has been read already. */
  ghost function Continued(done: seq<Bytes>, rules: seq<Rule>, stream: Bytes): (r: Option<seq<Bytes>>)
  {
    var rest := Conversation(rules, stream);
    if rest.None? then None else Some(done + rest.value)
  }

  lemma ContinuedStep(done: seq<Bytes>, rules: seq<Rule>, i: nat, stream: Bytes)
    requires i < |rules|
    ensures Continued(done, rules[i..], stream) ==
      match Unframe(rules[i], stream)
      case None => None
      case Some(p) => Continued(done + [p.0], rules[i + 1..], p.1)
  {
    assert rules[i..][1..] == rules[i + 1..];
    var first := Unframe(rules[i], stream);
    if first.Some? {
      var rest := Conversation(rules[i + 1..], first.value.1);
      if rest.Some? { assert done + ([first.value.0] + rest.value) == done + [first.value.0] + rest.value; }
    }
  }

  lemma ContinuedStart(rules: seq<Rule>, stream: Bytes)
    ensures Continued([], rules[0..], stream) == Conversation(rules, stream)
  {
    assert rules[0..] == rules;
    var rest := Conversation(rules, stream);
    if rest.Some? { assert [] + rest.value == rest.value; }
  }

  /** The whole of a worker's output: the frames in order, then end of stream. */
  method ReadConversation(reader: ChunkedReader, rules: seq<Rule>) returns (r: Option<seq<Bytes>>)
    requires reader.Valid()
    modifies reader
    ensures !reader.failed ==> r == Conversation(rules, reader.data[old(reader.position)..])
    ensures reader.failed ==> r == None
  {
    var payloads: seq<Bytes> := [];
    ContinuedStart(rules, reader.data[reader.position..]);
    for i := 0 to |rules|
      invariant reader.Valid()
      invariant Continued(payloads, rules[i..], reader.data[reader.position..]) ==
                Conversation(rules, reader.data[old(reader.position)..])
    {
      ContinuedStep(payloads, rules, i, reader.data[reader.position..]);
      var payload := ReadFrame(reader, rules[i]);
      if payload.None? { return None; }
      payloads := payloads + [payload.value];
    }
    assert rules[|rules|..] == [] && payloads + [] == payloads;
    var trailing := reader.ReadTrailing();
    if trailing.Err? || trailing.value != 0 { return None; }
    r := Some(payloads);
  }

  // ---------------------------------------------------------------- diagnostics

  /** `read_worker_diagnostics`: the longest allowed prefix of what the worker wrote, and whether more arrived; an
      interrupted read is passed on as an error. */
  method ReadDiagnostics(reader: ChunkedReader) returns (r: Option<(Bytes, bool)>)
    requires reader.Valid() && reader.position == 0
    modifies reader
    ensures r.None? <==> reader.failed || reader.interruptions < old(reader.interruptions)
    ensures r.Some? ==>
      if |reader.data| <= MAX_DIAGNOSTIC_BYTES then r == Some((reader.data, false))
      else r == Some((reader.data[..MAX_DIAGNOSTIC_BYTES], true))
  {
    var bytes: Bytes, truncated := [], false;
    while true
      invariant reader.Valid() && reader.interruptions == old(reader.interruptions)
      invariant bytes == if reader.position <= MAX_DIAGNOSTIC_BYTES then reader.data[..reader.position]
                         else reader.data[..MAX_DIAGNOSTIC_BYTES]
      invariant truncated <==> reader.position > MAX_DIAGNOSTIC_BYTES
      decreases |reader.data| - reader.position
    {
      ghost var position := reader.position;
      var outcome := reader.Read(4096);
      if !outcome.Data? { return None; }
      if outcome.chunk == [] { break; }
      var remaining := if MAX_DIAGNOSTIC_BYTES < |bytes| then 0 else MAX_DIAGNOSTIC_BYTES - |bytes|;
      var retained := if |outcome.chunk| < remaining then |outcome.chunk| else remaining;
      bytes := bytes + outcome.chunk[..retained];
      truncated := truncated || retained != |outcome.chunk|;
    }
    assert reader.data[..|reader.data|] == reader.data;
    r := Some((bytes, truncated));
  }

  // ---------------------------------------------------------------- positional reads

  /** A sealed or pinned file: its bytes do not change, and one `pread` returns as many of them as it likes. */
  class PinnedFile {
    const content: Bytes
    const sealed: bool
    const anonymous: bool
    var failed: bool

    constructor (content: Bytes, sealed: bool, anonymous: bool)
      ensures this.content == content && this.sealed == sealed && this.anonymous == anonymous && !failed
    {
      this.content, this.sealed, this.anonymous := content, sealed, anonymous;
      failed := false;
    }

    method PRead(offset: nat, max: nat) returns (r: Option<Bytes>)
      requires !failed
      modifies this
      ensures r.None? <==> failed
      ensures r.Some? ==>
        && offset + |r.value| <= (if offset < |content| then |content| else offset) && |r.value| <= max
        && (r.value == [] <==> max == 0 || offset >= |content|)
        && (r.value != [] ==> r.value == content[offset..offset + |r.value|])
    {
      if * {
        failed := true;
        return None;
      }
      if offset >= |content| { return Some([]); }
      var available := if max < |content| - offset then max else |content| - offset;
      var count: nat :| count <= available && (available > 0 ==> count > 0);
      r := Some(content[offset..offset + count]);
    }
  }

  /** `sha256_descriptor`: the digest of exactly the declared bytes, or an error when the file is not that long. */
  method HashDescriptor(file: PinnedFile, bytes: nat, hash: Bytes -> Digest) returns (r: Option<Bytes>)
    requires !file.failed
    modifies file
    ensures file.failed ==> r == None
    ensures !file.failed ==> r == if |file.content| == bytes then Some(Hex(hash(file.content))) else None
  {
    var fed: Bytes, offset := [], 0;
    while offset < bytes
      invariant !file.failed && offset <= bytes && offset <= |file.content|
      invariant fed == file.content[..offset]
    {
      var remaining := if bytes - offset < CHUNK_BYTES then bytes - offset else CHUNK_BYTES;
      var read := file.PRead(offset, remaining);
      if read.None? || read.value == [] { return None; }
      assert file.content[..offset + |read.value|] == file.content[..offset] + read.value;
      fed := fed + read.value;
      offset := offset + |read.value|;
    }
    var trailing := file.PRead(bytes, 1);
    if trailing.None? || trailing.value != [] { return None; }
    assert file.content[..bytes] == file.content;
    r := Some(Hex(hash(fed)));
  }

  /** `inspect_sealed_worker_input`: what the worker acknowledges about a descriptor it received. */
  method InspectSealed(file: PinnedFile, maximum: nat, hash: Bytes -> Digest) returns (r: Option<(nat, Bytes)>)
    requires !file.failed
    modifies file
    ensures r.Some? ==> !file.failed
    ensures !file.failed ==>
      r == if file.sealed && file.anonymous && 0 < |file.content| <= maximum
           then Some((|file.content|, Hex(hash(file.content)))) else None
  {
    if !file.sealed { return None; }
    var bytes := |file.content|;
    if !file.anonymous || bytes == 0 || bytes > maximum { return None; }
    var digest := HashDescriptor(file, bytes, hash);
    if digest.None? { return None; }
    r := Some((bytes, digest.value));
  }

  /** `read_sealed_module_bytes`: the acknowledged bytes, whatever the sizes of the reads. */
  method ReadSealed(file: PinnedFile, length: nat) returns (r: Option<Bytes>)
    requires !file.failed
    modifies file
    ensures r.Some? ==> !file.failed
    ensures !file.failed ==> r == if length <= |file.content| then Some(file.content[..length]) else None
  {
    var bytes: Bytes := [];
    while |bytes| < length
      invariant !file.failed && |bytes| <= length && |bytes| <= |file.content|
      invariant bytes == file.content[..|bytes|]
    {
      var read := file.PRead(|bytes|, length - |bytes|);
      if read.None? || read.value == [] { return None; }
      assert file.content[..|bytes| + |read.value|] == file.content[..|bytes|] + read.value;
      bytes := bytes + read.value;
    }
    r := Some(bytes);
  }

  /** `sealed_module_input` and `sealed_checkpoint_input`: the sealed file and its digest are those of the input. */
  method SealInput(input: Bytes, hash: Bytes -> Digest) returns (r: Option<(PinnedFile, nat, Bytes)>)
    ensures r.Some? ==>
      && fresh(r.value.0) && !r.value.0.failed
      && r.value.0.content == input && r.value.0.sealed && r.value.0.anonymous
      && r.value.1 == |input| && r.value.2 == Hex(hash(input))
  {
    var file: Bytes, fed: Bytes, written := [], [], 0;
    while written < |input|
      invariant 0 <= written <= |input| && file == fed == input[..written]
    {
      if * { return None; }
      var end := if |input| - written < CHUNK_BYTES then |input| else written + CHUNK_BYTES;
      assert input[..end] == input[..written] + input[written..end];
      fed := fed + input[written..end];
      if * { return None; }
      file := file + input[written..end];
      written := end;
    }
    assert input[..written] == input;
    var pinned := new PinnedFile(file, true, true);
    r := Some((pinned, |input|, Hex(hash(fed))));
  }
}
