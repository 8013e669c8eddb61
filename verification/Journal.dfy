/** The journal scanner: record framing, the accepted language, and the loop that recognises it
    (src/checkpoint.rs, `scan_journal`). */
module Journal {
  import opened Bytes
  import opened Wrappers

  const MAGIC: Bytes := [0x31, 0x0d, 0x6d, 0xd0, 0x27, 0x36, 0x29, 0x79]
  const INIT_MODULE: nat := 1
  const SET_THREAD: nat := 3
  const SNAPSHOT: nat := 59

  const KIND_LIMIT: nat := 0x1_0000
  const BODY_LIMIT: nat := 0x1_0000_0000_0000

  datatype Record = Record(kind: nat, body: Bytes)

  predicate Framed(r: Record)
  {
    r.kind < KIND_LIMIT && |r.body| < BODY_LIMIT
  }

  predicate AllFramed(rs: seq<Record>)
  {
    forall i :: 0 <= i < |rs| ==> Framed(rs[i])
  }

  /** A record on the wire: a 16-bit kind, a 48-bit body length, the body. */
  function Header(r: Record): (b: Bytes)
    requires Framed(r)
    ensures |b| == 8
  {
    Widths();
    BigEndian(r.kind, 2) + BigEndian(|r.body|, 6)
  }

  function Encode(rs: seq<Record>): (b: Bytes)
    requires AllFramed(rs)
  {
    if rs == [] then [] else Header(rs[0]) + rs[0].body + Encode(rs[1..])
  }

  function Kind(header: Bytes): (kind: nat)
    requires |header| == 8
    ensures kind < KIND_LIMIT
  {
    Widths();
    FromBigEndian(header[..2])
  }

  function BodyLength(header: Bytes): (length: nat)
    requires |header| == 8
    ensures length < BODY_LIMIT
  {
    Widths();
    FromBigEndian(header[2..])
  }

  lemma HeaderRoundTrip(r: Record)
    requires Framed(r)
    ensures Kind(Header(r)) == r.kind && BodyLength(Header(r)) == |r.body|
  {
    Widths();
    assert Header(r)[..2] == BigEndian(r.kind, 2) && Header(r)[2..] == BigEndian(|r.body|, 6);
  }

  lemma HeaderOfRead(header: Bytes, body: Bytes)
    requires |header| == 8 && |body| == BodyLength(header)
    ensures Framed(Record(Kind(header), body)) && Header(Record(Kind(header), body)) == header
  {
    Widths();
    BigEndianOfRead(header[..2]);
    BigEndianOfRead(header[2..]);
    assert header == header[..2] + header[2..];
  }

  // ---------------------------------------------------------------- unique decoding

  /** Reading the framing from the front. */
  function Parse(b: Bytes): (rs: Option<seq<Record>>)
    decreases |b|
  {
    if b == [] then Some([])
    else if |b| < 8 || |b| - 8 < BodyLength(b[..8]) then None
    else
      var end := 8 + BodyLength(b[..8]);
      var rest := Parse(b[end..]);
      if rest.None? then None else Some([Record(Kind(b[..8]), b[8..end])] + rest.value)
  }

  lemma ParseFirst(r: Record, rest: Bytes)
    requires Framed(r)
    ensures var b := Header(r) + r.body + rest;
      && |b| >= 8 && b[..8] == Header(r) && BodyLength(b[..8]) == |r.body| && Kind(b[..8]) == r.kind
      && b[8..8 + |r.body|] == r.body && b[8 + |r.body|..] == rest
  {
    var b := Header(r) + r.body + rest;
    assert b[..8] == Header(r);
    HeaderRoundTrip(r);
    assert b[8..8 + |r.body|] == r.body && b[8 + |r.body|..] == rest;
  }

  /** Framing is uniquely decodable: what was written is what is read. */
  lemma {:induction false} ParseEncode(rs: seq<Record>)
    requires AllFramed(rs)
    ensures Parse(Encode(rs)) == Some(rs)
  {
    if rs != [] {
      ParseFirst(rs[0], Encode(rs[1..]));
      ParseEncode(rs[1..]);
      assert rs == [rs[0]] + rs[1..];
    }
  }

  lemma EncodeCons(r: Record, rs: seq<Record>)
    requires Framed(r) && AllFramed(rs)
    ensures AllFramed([r] + rs) && Encode([r] + rs) == Header(r) + r.body + Encode(rs)
  {
    assert ([r] + rs)[1..] == rs && ([r] + rs)[0] == r;
  }

  lemma {:induction false} EncodeParse(b: Bytes)
    requires Parse(b).Some?
    ensures AllFramed(Parse(b).value) && Encode(Parse(b).value) == b
    decreases |b|
  {
    if b != [] {
      var end := 8 + BodyLength(b[..8]);
      EncodeParse(b[end..]);
      HeaderOfRead(b[..8], b[8..end]);
      EncodeCons(Record(Kind(b[..8]), b[8..end]), Parse(b[end..]).value);
      CutInThree(b, 8, end);
    }
  }

  // ---------------------------------------------------------------- the accepted language

  predicate KnownKind(kind: nat)
  {
    1 <= kind <= 7 || 9 <= kind <= 64
  }

  predicate MayBeEmpty(kind: nat)
  {
    kind == 35 || kind == 37 || kind == 38 || kind == 41 || kind == 60
  }

  predicate LegalRecord(r: Record)
  {
    Framed(r) && KnownKind(r.kind) && (r.body == [] ==> MayBeEmpty(r.kind))
  }

  /** One module record, first; known records with legal bodies; at least one thread record; one snapshot, last. */
  ghost predicate Lifecycle(rs: seq<Record>)
  {
    && rs != []
    && (forall i :: 0 <= i < |rs| ==> LegalRecord(rs[i]))
    && (forall i :: 0 <= i < |rs| ==> (rs[i].kind == INIT_MODULE <==> i == 0))
    && (forall i :: 0 <= i < |rs| ==> (rs[i].kind == SNAPSHOT <==> i == |rs| - 1))
    && (exists i :: 0 <= i < |rs| && rs[i].kind == SET_THREAD)
  }

  ghost predicate Accepted(journal: Bytes)
  {
    exists rs :: Lifecycle(rs) && journal == MAGIC + Encode(rs)
  }

  /** Acceptance in terms of the unique reading of the bytes after the magic. */
  lemma AcceptedIffParsed(journal: Bytes)
    ensures Accepted(journal) <==>
      |journal| >= 8 && journal[..8] == MAGIC && Parse(journal[8..]).Some? && Lifecycle(Parse(journal[8..]).value)
  {
    if Accepted(journal) {
      var rs :| Lifecycle(rs) && journal == MAGIC + Encode(rs);
      assert journal[..8] == MAGIC && journal[8..] == Encode(rs);
      ParseEncode(rs);
    }
    if |journal| >= 8 && journal[..8] == MAGIC && Parse(journal[8..]).Some? && Lifecycle(Parse(journal[8..]).value) {
      EncodeParse(journal[8..]);
      assert journal == MAGIC + Encode(Parse(journal[8..]).value);
    }
  }

  // ---------------------------------------------------------------- the scanner

  datatype ScanError =
    | BadMagic | TruncatedHeader | RepeatedMagic | UnknownKind | EmptyRecord | TruncatedRecord
    | BadModuleSequence | RecordsAfterSnapshot | IncompleteLifecycle

  /** The records read so far followed by the reading of what is left. */
  ghost function Reading(done: seq<Record>, left: Bytes): (rs: Option<seq<Record>>)
  {
    var rest := Parse(left);
    if rest.None? then None else Some(done + rest.value)
  }

  lemma ReadOne(done: seq<Record>, left: Bytes)
    requires |left| >= 8
    ensures |left| - 8 < BodyLength(left[..8]) ==> Reading(done, left) == None
    ensures |left| - 8 >= BodyLength(left[..8]) ==>
      var end := 8 + BodyLength(left[..8]);
      Reading(done, left) == Reading(done + [Record(Kind(left[..8]), left[8..end])], left[end..])
  {
    if |left| - 8 >= BodyLength(left[..8]) {
      var end := 8 + BodyLength(left[..8]);
      var r := Record(Kind(left[..8]), left[8..end]);
      var rest := Parse(left[end..]);
      if rest.Some? { assert done + ([r] + rest.value) == done + [r] + rest.value; }
    }
  }

  /** The magic read as a record header names an unknown kind, so the test for it rejects nothing more. */
  lemma MagicIsNoHeader()
    ensures Kind(MAGIC) == 0x310d && !KnownKind(Kind(MAGIC))
  {
    assert MAGIC[..2] == [0x31, 0x0d];
    assert MAGIC[..2][..1] == [0x31];
  }

  ghost predicate Rejects(rs: Option<seq<Record>>)
  {
    rs.None? || !Lifecycle(rs.value)
  }

  ghost predicate Misplaced(done: seq<Record>, r: Record, left: Bytes)
  {
    !LegalRecord(r) || (r.kind == INIT_MODULE && done != []) || (r.kind == SNAPSHOT && left != [])
  }

  /** One illegal record anywhere rejects the journal. */
  lemma IllegalRejects(done: seq<Record>, r: Record, left: Bytes)
    requires Misplaced(done, r, left)
    ensures Rejects(Reading(done + [r], left))
  {
    var rs := Reading(done + [r], left);
    if rs.Some? {
      assert rs.value[|done|] == r;
      if left != [] { assert |rs.value| > |done| + 1; }
    }
  }

  /** What the counters of the scanner say about the records read so far. */
  ghost predicate Counted(done: seq<Record>, left: Bytes, initModules: nat, setThreads: nat, snapshots: nat)
  {
    && (forall i :: 0 <= i < |done| ==> LegalRecord(done[i]))
    && (forall i :: 0 < i < |done| ==> done[i].kind != INIT_MODULE)
    && initModules == (if done != [] && done[0].kind == INIT_MODULE then 1 else 0)
    && (setThreads > 0 <==> exists i :: 0 <= i < |done| && done[i].kind == SET_THREAD)
    && (forall i :: 0 <= i < |done| - 1 ==> done[i].kind != SNAPSHOT)
    && snapshots == (if done != [] && done[|done| - 1].kind == SNAPSHOT then 1 else 0)
    && (snapshots > 0 ==> left == [])
  }

  lemma CountOne(done: seq<Record>, left: Bytes, r: Record, rest: Bytes,
                 initModules: nat, setThreads: nat, snapshots: nat)
    requires Counted(done, left, initModules, setThreads, snapshots) && left != []
    requires LegalRecord(r) && (r.kind == INIT_MODULE ==> done == []) && (r.kind == SNAPSHOT ==> rest == [])
    ensures Counted(done + [r], rest,
                    if r.kind == INIT_MODULE then initModules + 1 else initModules,
                    if r.kind == SET_THREAD then setThreads + 1 else setThreads,
                    if r.kind == SNAPSHOT then snapshots + 1 else snapshots)
  {
    var next := done + [r];
    if exists i :: 0 <= i < |done| && done[i].kind == SET_THREAD {
      var i :| 0 <= i < |done| && done[i].kind == SET_THREAD;
      assert next[i].kind == SET_THREAD;
    }
    if r.kind == SET_THREAD { assert next[|done|].kind == SET_THREAD; }
  }

  lemma CountsDecide(done: seq<Record>, initModules: nat, setThreads: nat, snapshots: nat)
    requires Counted(done, [], initModules, setThreads, snapshots)
    ensures Lifecycle(done) <==> initModules == 1 && setThreads != 0 && snapshots == 1
  {
    if Lifecycle(done) { assert done[|done| - 1].kind == SNAPSHOT; }
  }

  datatype Counters = Counters(records: nat, initModules: nat, setThreads: nat, snapshots: nat, final: Option<nat>)

  function Count(c: Counters, kind: nat): (r: Counters)
  {
    Counters(
      c.records + 1,
      if kind == INIT_MODULE then c.initModules + 1 else c.initModules,
      if kind == SET_THREAD then c.setThreads + 1 else c.setThreads,
      if kind == SNAPSHOT then c.snapshots + 1 else c.snapshots,
      Some(kind))
  }

  /** The decisions of the scanner's loop from some point on. */
  predicate Scan(left: Bytes, c: Counters)
    decreases |left|
  {
    if left == [] then c.initModules == 1 && c.setThreads != 0 && c.snapshots == 1 && c.final == Some(SNAPSHOT)
    else if |left| < 8 then false
    else
      var kind, end := Kind(left[..8]), 8 + BodyLength(left[..8]);
      && left[..8] != MAGIC
      && KnownKind(kind)
      && (end == 8 ==> MayBeEmpty(kind))
      && end <= |left|
      && (kind == INIT_MODULE ==> c.records == 0 && c.initModules == 0)
      && (kind == SNAPSHOT ==> end == |left|)
      && Scan(left[end..], Count(c, kind))
  }

  ghost predicate Tallied(done: seq<Record>, left: Bytes, c: Counters)
  {
    && Counted(done, left, c.initModules, c.setThreads, c.snapshots)
    && c.records == |done|
    && c.final == if done == [] then None else Some(done[|done| - 1].kind)
  }

  lemma ScanDecidesEnd(done: seq<Record>, c: Counters)
    requires Tallied(done, [], c)
    ensures Scan([], c) <==> !Rejects(Reading(done, []))
  {
    CountsDecide(done, c.initModules, c.setThreads, c.snapshots);
    assert done + [] == done;
  }

  /** The scanner accepts from a point on exactly when the records before and after it form a lifecycle. */
  lemma {:induction false} ScanDecides(done: seq<Record>, left: Bytes, c: Counters)
    requires Tallied(done, left, c)
    ensures Scan(left, c) <==> !Rejects(Reading(done, left))
    decreases |left|
  {
    if left == [] {
      ScanDecidesEnd(done, c);
    } else if |left| >= 8 {
      ReadOne(done, left);
      MagicIsNoHeader();
      var kind, end := Kind(left[..8]), 8 + BodyLength(left[..8]);
      if end <= |left| {
        var r := Record(kind, left[8..end]);
        if Misplaced(done, r, left[end..]) {
          IllegalRejects(done, r, left[end..]);
        } else {
          CountOne(done, left, r, left[end..], c.initModules, c.setThreads, c.snapshots);
          ScanDecides(done + [r], left[end..], Count(c, kind));
        }
      }
    }
  }

  lemma ScanAccepts(journal: Bytes)
    requires |journal| >= 8
    ensures Scan(journal[8..], Counters(0, 0, 0, 0, None)) <==> !Rejects(Parse(journal[8..]))
  {
    ScanDecides([], journal[8..], Counters(0, 0, 0, 0, None));
    if Parse(journal[8..]).Some? { assert [] + Parse(journal[8..]).value == Parse(journal[8..]).value; }
  }

  /** Kind and end of the record at `cursor`, if it is whole, known and not illegally empty. */
  function RecordAt(journal: Bytes, cursor: nat): (r: Option<(nat, nat)>)
    requires cursor < |journal|
    ensures r.Some? ==> cursor + 8 <= r.value.1 <= |journal|
  {
    if cursor + 8 > |journal| then None
    else
      var header := journal[cursor..cursor + 8];
      var kind, end := Kind(header), cursor + 8 + BodyLength(header);
      if KnownKind(kind) && (end == cursor + 8 ==> MayBeEmpty(kind)) && end <= |journal| then Some((kind, end))
      else None
  }

  /** One turn of the loop: the record is refused, or the decision is the one from the next record on. */
  lemma ScanNext(journal: Bytes, cursor: nat, c: Counters)
    requires cursor < |journal|
    ensures RecordAt(journal, cursor).None? ==> !Scan(journal[cursor..], c)
    ensures RecordAt(journal, cursor).Some? ==>
      var (kind, end) := RecordAt(journal, cursor).value;
      Scan(journal[cursor..], c) <==>
        && (kind == INIT_MODULE ==> c.records == 0 && c.initModules == 0) && (kind == SNAPSHOT ==> end == |journal|)
        && Scan(journal[end..], Count(c, kind))
  {
    var left := journal[cursor..];
    MagicIsNoHeader();
    if |left| >= 8 {
      assert left[..8] == journal[cursor..cursor + 8];
      var length := BodyLength(left[..8]);
      if 8 + length <= |left| { assert left[8 + length..] == journal[cursor + 8 + length..]; }
    }
  }

  /** The checks on the framing of one record, in the order in which the loop makes them. */
  method ReadHeader(journal: Bytes, cursor: nat) returns (r: Result<(nat, nat), ScanError>)
    requires cursor < |journal|
    ensures r.Ok? <==> RecordAt(journal, cursor).Some?
    ensures r.Ok? ==> r.value == RecordAt(journal, cursor).value
  {
    MagicIsNoHeader();
    var headerEnd := cursor + 8;
    if headerEnd > |journal| { return Err(TruncatedHeader); }
    var header := journal[cursor..headerEnd];
    if header == MAGIC { return Err(RepeatedMagic); }
    var kind := Kind(header);
    if !KnownKind(kind) { return Err(UnknownKind); }
    var length := BodyLength(header);
    if length == 0 && !MayBeEmpty(kind) { return Err(EmptyRecord); }
    var end := headerEnd + length;
    if end > |journal| { return Err(TruncatedRecord); }
    r := Ok((kind, end));
  }

  /** The updates of the counters for one record, and the checks on its place. */
  method Tally(c: Counters, kind: nat, atEnd: bool) returns (r: Result<Counters, ScanError>)
    ensures r.Ok? <==>
      (kind == INIT_MODULE ==> c.records == 0 && c.initModules == 0) && (kind == SNAPSHOT ==> atEnd)
    ensures r.Ok? ==> r.value == Count(c, kind)
  {
    var initModules, setThreads, snapshots := c.initModules, c.setThreads, c.snapshots;
    if kind == INIT_MODULE {
      initModules := initModules + 1;
      if c.records != 0 || initModules != 1 { return Err(BadModuleSequence); }
    } else if kind == SET_THREAD {
      setThreads := setThreads + 1;
    } else if kind == SNAPSHOT {
      snapshots := snapshots + 1;
      if !atEnd { return Err(RecordsAfterSnapshot); }
    }
    r := Ok(Counters(c.records + 1, initModules, setThreads, snapshots, Some(kind)));
  }

  /** The loop of `scan_journal`, over the records after the magic. */
  method ScanRecords(journal: Bytes) returns (r: Result<(), ScanError>)
    requires |journal| >= 8
    ensures r.Ok? <==> Scan(journal[8..], Counters(0, 0, 0, 0, None))
  {
    var cursor, c := |MAGIC|, Counters(0, 0, 0, 0, None);
    while cursor < |journal|
      invariant 8 <= cursor <= |journal|
      invariant Scan(journal[8..], Counters(0, 0, 0, 0, None)) == Scan(journal[cursor..], c)
    {
      ScanNext(journal, cursor, c);
      var next := ReadHeader(journal, cursor);
      if next.Err? { return Err(next.error); }
      cursor := next.value.1;
      var counted := Tally(c, next.value.0, cursor == |journal|);
      if counted.Err? { return Err(counted.error); }
      c := counted.value;
    }
    assert journal[cursor..] == [];
    if c.initModules != 1 || c.setThreads == 0 || c.snapshots != 1 || c.final != Some(SNAPSHOT) {
      return Err(IncompleteLifecycle);
    }
    return Ok(());
  }

  /** `scan_journal`.  Where the source adds lengths with `checked_add`, an overflow rejects; the sum would
      then exceed the journal, so the comparison that follows rejects the same journals. */
  method ScanJournal(journal: Bytes) returns (r: Result<(), ScanError>)
    ensures r.Ok? <==> Accepted(journal)
  {
    AcceptedIffParsed(journal);
    if |journal| < |MAGIC| || journal[..|MAGIC|] != MAGIC { return Err(BadMagic); }
    ScanAccepts(journal);
    r := ScanRecords(journal);
  }

  // ---------------------------------------------------------------- the language is prefix-free

  lemma SameFirst(r: Record, x: Bytes, q: Record, y: Bytes)
    requires Framed(r) && Framed(q) && Header(r) + r.body + x == Header(q) + q.body + y
    ensures r == q && x == y
  {
    ParseFirst(r, x);
    ParseFirst(q, y);
  }

  /** A reading of a prefix is a prefix of the reading. */
  lemma {:induction false} PrefixReading(a: seq<Record>, b: seq<Record>, tail: Bytes)
    requires AllFramed(a) && AllFramed(b) && Encode(a) + tail == Encode(b)
    ensures a <= b
  {
    if a != [] {
      Associates(Header(a[0]) + a[0].body, Encode(a[1..]), tail);
      assert |Encode(b)| >= 8;
      SameFirst(a[0], Encode(a[1..]) + tail, b[0], Encode(b[1..]));
      PrefixReading(a[1..], b[1..], tail);
      assert a == [a[0]] + a[1..] && b == [b[0]] + b[1..];
    }
  }

  lemma AcceptedRecords(journal: Bytes) returns (rs: seq<Record>)
    requires Accepted(journal)
    ensures Lifecycle(rs) && journal == MAGIC + Encode(rs)
  {
    rs :| Lifecycle(rs) && journal == MAGIC + Encode(rs);
  }

  lemma CommonFront(front: Bytes, a: Bytes, b: Bytes) returns (tail: Bytes)
    requires front + a <= front + b
    ensures a + tail == b
  {
    tail := (front + b)[|front + a|..];
    Associates(front, a, tail);
    SplitEqual(front, a + tail, front, b);
  }

  /** The records of an accepted prefix of a record stream begin the stream. */
  lemma AcceptedPrefixReading(journal: Bytes, rs: seq<Record>, stream: seq<Record>)
    requires AllFramed(rs) && AllFramed(stream)
    requires journal == MAGIC + Encode(rs) && journal <= MAGIC + Encode(stream)
    ensures rs <= stream
  {
    var tail := CommonFront(MAGIC, Encode(rs), Encode(stream));
    PrefixReading(rs, stream, tail);
  }

  lemma LifecyclePrefix(a: seq<Record>, b: seq<Record>)
    requires Lifecycle(a) && Lifecycle(b) && a <= b
    ensures a == b
  {
    assert b[|a| - 1] == a[|a| - 1];
  }

  /** No proper prefix and no proper extension of an accepted journal is accepted. */
  lemma AcceptedPrefixFree(a: Bytes, b: Bytes)
    requires Accepted(a) && Accepted(b) && a <= b
    ensures a == b
  {
    var ra := AcceptedRecords(a);
    var rb := AcceptedRecords(b);
    AcceptedPrefixReading(a, ra, rb);
    LifecyclePrefix(ra, rb);
  }

  ghost predicate FirstSnapshot(rs: seq<Record>, n: nat)
  {
    n < |rs| && rs[n].kind == SNAPSHOT && forall i :: 0 <= i < n ==> rs[i].kind != SNAPSHOT
  }

  lemma LifecycleBegins(rs: seq<Record>, stream: seq<Record>)
    requires Lifecycle(rs) && rs <= stream
    ensures FirstSnapshot(stream, |rs| - 1) && stream[..|rs|] == rs
  {
    assert forall i :: 0 <= i < |rs| ==> stream[i] == rs[i];
  }

  /** A record stream has at most one accepted cut, and it is the end of its first snapshot record. */
  lemma AcceptedCut(stream: seq<Record>, cut: nat) returns (n: nat)
    requires AllFramed(stream)
    requires cut <= |MAGIC + Encode(stream)| && Accepted((MAGIC + Encode(stream))[..cut])
    ensures FirstSnapshot(stream, n) && cut == |MAGIC| + |Encode(stream[..n + 1])|
  {
    var journal := (MAGIC + Encode(stream))[..cut];
    var rs := AcceptedRecords(journal);
    AcceptedPrefixReading(journal, rs, stream);
    LifecycleBegins(rs, stream);
    n := |rs| - 1;
  }
}
