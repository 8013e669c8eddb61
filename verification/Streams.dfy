/** Byte sources and sinks as the code meets them: reads and writes move any number of bytes the system
    likes, may be interrupted, and may fail. */
module Streams {
  import opened Bytes
  import opened Wrappers

  datatype ReadOutcome = Data(chunk: Bytes) | Interrupted | ReadError

  class ChunkedReader {
    const data: Bytes
    var position: nat
    var interruptions: nat
    var failed: bool

    predicate Valid()
      reads this
    {
      position <= |data| && !failed
    }

    constructor (data: Bytes, interruptions: nat)
      ensures Valid() && this.data == data && position == 0
    {
      this.data := data;
      this.interruptions := interruptions;
      position, failed := 0, false;
    }

    /** One `read` into a buffer of `max` bytes: an empty chunk means end of stream, or an empty buffer. */
    method Read(max: nat) returns (outcome: ReadOutcome)
      requires Valid()
      modifies this
      ensures position <= |data|
      ensures match outcome
        case Data(chunk) =>
          && !failed && interruptions == old(interruptions)
          && old(position) <= position && chunk == data[old(position)..position] && |chunk| <= max
          && (chunk == [] <==> max == 0 || old(position) == |data|)
        case Interrupted => !failed && position == old(position) && interruptions < old(interruptions)
        case ReadError => failed
    {
      if * {
        if interruptions > 0 {
          interruptions := interruptions - 1;
          return Interrupted;
        }
      }
      if * {
        failed := true;
        return ReadError;
      }
      var available := if max < |data| - position then max else |data| - position;
      var count: nat :| count <= available && (available > 0 ==> count > 0);
      outcome := Data(data[position..position + count]);
      position := position + count;
    }

    /** `read_exact`: fill the whole buffer, retrying after interruptions. */
    method ReadExact(count: nat) returns (r: Result<Bytes, bool>)
      requires Valid()
      modifies this
      ensures position <= |data|
      ensures failed ==> r == Err(true)
      ensures !failed && old(position) + count <= |data| ==>
        r == Ok(data[old(position)..old(position) + count]) && position == old(position) + count
      ensures !failed && old(position) + count > |data| ==> r == Err(false)
    {
      var buffer: Bytes := [];
      while |buffer| < count
        invariant position <= |data| && !failed
        invariant |buffer| <= count
        invariant position == old(position) + |buffer| && buffer == data[old(position)..position]
        decreases count - |buffer|, interruptions
      {
        var outcome := Read(count - |buffer|);
        match outcome
        case Interrupted =>
        case ReadError => return Err(true);
        case Data(chunk) =>
          if chunk == [] { return Err(false); }
          buffer := buffer + chunk;
      }
      r := Ok(buffer);
    }

    /** One byte past the expected end, if there is one. */
    method ReadTrailing() returns (r: Result<nat, bool>)
      requires Valid()
      modifies this
      ensures position <= |data|
      ensures failed ==> r.Err?
      ensures !failed ==> r == Ok(if old(position) < |data| then 1 else 0)
    {
      while true
        invariant position == old(position) <= |data| && !failed
        decreases interruptions
      {
        var outcome := Read(1);
        match outcome
        case Interrupted =>
        case ReadError => return Err(true);
        case Data(chunk) => return Ok(|chunk|);
      }
    }
  }

  class ChunkedWriter {
    var contents: Bytes
    var failed: bool

    constructor ()
      ensures contents == [] && !failed
    {
      contents, failed := [], false;
    }

    /** `write_all` over a sink that accepts any part of what it is offered. */
    method WriteAll(bytes: Bytes) returns (ok: bool)
      requires !failed
      modifies this
      ensures ok <==> !failed
      ensures ok ==> contents == old(contents) + bytes
    {
      var written: nat := 0;
      while written < |bytes|
        invariant written <= |bytes| && !failed
        invariant contents == old(contents) + bytes[..written]
      {
        if * {
          failed := true;
          return false;
        }
        var count: nat :| 0 < count <= |bytes| - written;
        assert bytes[..written + count] == bytes[..written] + bytes[written..written + count];
        contents := contents + bytes[written..written + count];
        written := written + count;
      }
      assert bytes[..written] == bytes;
      ok := true;
    }
  }

  /** `FallibleBoundedVec`: a sink that refuses to grow past its maximum. */
  class BoundedVec {
    var bytes: Bytes
    const maximum: nat

    constructor (maximum: nat)
      ensures bytes == [] && this.maximum == maximum
    {
      bytes := [];
      this.maximum := maximum;
    }

    method Write(chunk: Bytes) returns (ok: bool)
      modifies this
      ensures ok <==> |old(bytes)| + |chunk| <= maximum
      ensures bytes == if ok then old(bytes) + chunk else old(bytes)
    {
      if |bytes| + |chunk| > maximum { return false; }
      bytes := bytes + chunk;
      ok := true;
    }
  }

  /** A serializer writing its output in pieces of its own choosing: the pieces do not matter. */
  method WriteChunks(chunks: seq<Bytes>, maximum: nat) returns (r: Option<Bytes>)
    ensures r == if |Concat(chunks)| <= maximum then Some(Concat(chunks)) else None
  {
    var sink := new BoundedVec(maximum);
    for i := 0 to |chunks|
      invariant sink.bytes == Concat(chunks[..i]) && |sink.bytes| <= sink.maximum == maximum
    {
      assert chunks[..i + 1] == chunks[..i] + [chunks[i]];
      ConcatSnoc(chunks[..i], chunks[i]);
      assert chunks == chunks[..i + 1] + chunks[i + 1..];
      ConcatAppend(chunks[..i + 1], chunks[i + 1..]);
      var ok := sink.Write(chunks[i]);
      if !ok { return None; }
    }
    assert chunks[..|chunks|] == chunks;
    r := Some(sink.bytes);
  }
}
