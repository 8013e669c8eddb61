/** Guest paths of an environment: segments, ancestry, and why comparing each path with later ones only is enough
    (src/environment.rs). */
module GuestPaths {
  import opened Bytes

  const SLASH: byte := 0x2f
  const MAX_LIST_ENTRIES: nat := 256
  const MAX_TOKEN_BYTES: nat := 256

  const TMP: Bytes := Ascii("/tmp")
  const WORK: Bytes := Ascii("/work")

  /** `value.split('/')`: always at least one segment. */
  function Split(text: Bytes): (segments: seq<Bytes>)
    ensures segments != []
  {
    if text == [] then [[]]
    else
      var rest := Split(text[1..]);
      if text[0] == SLASH then [[]] + rest
      else [[text[0]] + rest[0]] + rest[1..]
  }

  predicate SegmentByte(b: byte)
  {
    0x30 <= b <= 0x39 || 0x41 <= b <= 0x5a || 0x61 <= b <= 0x7a || b == 0x2e || b == 0x5f || b == 0x2d || b == 0x2b
  }

  predicate ValidSegment(segment: Bytes)
  {
    && segment != []
    && segment != [0x2e]
    && segment != [0x2e, 0x2e]
    && forall i :: 0 <= i < |segment| ==> SegmentByte(segment[i])
  }

  /** `validate_guest_path`. */
  predicate ValidGuestPath(path: Bytes)
  {
    && 2 <= |path| <= MAX_TOKEN_BYTES
    && path[0] == SLASH
    && path[|path| - 1] != SLASH
    && (forall i :: 0 <= i < |path| - 1 ==> !(path[i] == SLASH && path[i + 1] == SLASH))
    && (forall i :: 0 <= i < |path| ==> path[i] != 0x5c)
    && forall i :: 1 <= i < |Split(path)| ==> ValidSegment(Split(path)[i])
  }

  predicate StrictlySorted(values: seq<Bytes>)
  {
    forall i :: 0 <= i < |values| - 1 ==> Less(values[i], values[i + 1])
  }

  /** The comparison of the source: `candidate.strip_prefix(ancestor)` starts with a slash. */
  predicate Below(ancestor: Bytes, candidate: Bytes)
  {
    ancestor + [SLASH] <= candidate
  }

  /** `validate_sorted_guest_paths`: each path is compared with the later ones only. */
  predicate ValidSortedGuestPaths(values: seq<Bytes>)
  {
    && |values| <= MAX_LIST_ENTRIES
    && (forall i :: 0 <= i < |values| ==> ValidGuestPath(values[i]))
    && StrictlySorted(values)
    && (forall i, j :: 0 <= i < j < |values| ==> !Below(values[i], values[j]))
  }

  /** No immutable path is a writable one or lies below one. */
  predicate AvoidsWritable(values: seq<Bytes>)
  {
    forall i :: 0 <= i < |values| ==>
      && values[i] != TMP && !Below(TMP, values[i])
      && values[i] != WORK && !Below(WORK, values[i])
  }

  // ---------------------------------------------------------------- ancestry by segments

  /** `a` is `b` or an ancestor of `b`, segment by segment. */
  predicate Covers(a: Bytes, b: Bytes)
  {
    Split(a) <= Split(b)
  }

  lemma HeadOfSum(a: seq<Bytes>, b: seq<Bytes>)
    requires a != []
    ensures (a + b)[0] == a[0] && (a + b)[1..] == a[1..] + b
  {
  }

  lemma SumOfThree(a: seq<Bytes>, b: seq<Bytes>, c: seq<Bytes>)
    ensures a + (b + c) == (a + b) + c
  {
  }

  lemma {:induction false} SplitConcat(a: Bytes, rest: Bytes)
    ensures Split(a + [SLASH] + rest) == Split(a) + Split(rest)
  {
    if a == [] {
      assert (a + [SLASH] + rest)[1..] == rest;
    } else {
      SplitConcat(a[1..], rest);
      var whole, first := a + [SLASH] + rest, Split(a[1..]);
      assert whole[1..] == a[1..] + [SLASH] + rest && whole[0] == a[0];
      if a[0] == SLASH {
        SumOfThree([[]], first, Split(rest));
      } else {
        HeadOfSum(first, Split(rest));
        SumOfThree([[a[0]] + first[0]], first[1..], Split(rest));
      }
    }
  }

  lemma {:induction false} CoversOnly(a: Bytes, b: Bytes)
    requires Split(a) <= Split(b)
    ensures a == b || a + [SLASH] <= b
  {
    if a == [] {
      if b != [] {
        assert Split(b)[0] == [];
        assert b[0] == SLASH;
      }
    } else {
      var ra := Split(a[1..]);
      if b != [] {
        var rb := Split(b[1..]);
        if a[0] == SLASH {
          assert Split(a)[0] == [] && b[0] == SLASH;
          assert ra == Split(a)[1..] && rb == Split(b)[1..];
          CoversOnly(a[1..], b[1..]);
        } else {
          assert Split(a)[0] == [a[0]] + ra[0] && Split(b)[0] == Split(a)[0];
          assert Split(b)[0][0] == a[0];
          assert b[0] != SLASH;
          assert Split(b)[0] == [b[0]] + rb[0];
          assert ra[0] == Split(a)[0][1..] && rb[0] == Split(b)[0][1..];
          assert ra == [ra[0]] + ra[1..] && rb == [rb[0]] + rb[1..];
          assert Split(a)[1..] == ra[1..] && Split(b)[1..] == rb[1..];
          CoversOnly(a[1..], b[1..]);
        }
        assert a == [a[0]] + a[1..] && b == [b[0]] + b[1..];
      }
    }
  }

  /** Segment-wise ancestry in terms of bytes. */
  lemma {:induction false} CoversIff(a: Bytes, b: Bytes)
    ensures Covers(a, b) <==> a == b || Below(a, b)
  {
    if Below(a, b) {
      var rest := b[|a| + 1..];
      assert b == a + [SLASH] + rest;
      SplitConcat(a, rest);
    }
    if Covers(a, b) { CoversOnly(a, b); }
  }

  lemma {:induction false} SortedPairs(values: seq<Bytes>, i: nat, j: nat)
    requires StrictlySorted(values) && i < j < |values|
    ensures Less(values[i], values[j])
    decreases j - i
  {
    if i + 1 < j {
      SortedPairs(values, i, j - 1);
      LessTransitive(values[i], values[j - 1], values[j]);
    }
  }

  /** A path sorts before everything below it, so a later path is never an ancestor of an earlier one. */
  lemma LaterIsNoAncestor(values: seq<Bytes>, i: nat, j: nat)
    requires StrictlySorted(values) && i < j < |values|
    ensures !Below(values[j], values[i]) && values[i] != values[j]
  {
    SortedPairs(values, i, j);
    LessIrreflexive(values[i]);
    if Below(values[j], values[i]) {
      PrefixIsLess(values[j], values[i]);
      LessTransitive(values[i], values[j], values[i]);
    }
  }

  /** A valid path starts with an empty segment before its first slash, and names at least one segment. */
  lemma ValidPathSegments(path: Bytes)
    requires ValidGuestPath(path)
    ensures Split(path)[0] == [] && |Split(path)| >= 2
  {
    assert Split(path) == [[]] + Split(path[1..]);
  }

  lemma {:induction false} SplitPlain(text: Bytes)
    requires forall i :: 0 <= i < |text| ==> text[i] != SLASH
    ensures Split(text) == [text]
  {
    if text != [] {
      SplitPlain(text[1..]);
      assert text == [text[0]] + text[1..];
    }
  }

  lemma WritableSegments()
    ensures Split(TMP) == [[], [0x74, 0x6d, 0x70]]
    ensures Split(WORK) == [[], [0x77, 0x6f, 0x72, 0x6b]]
  {
    assert TMP == [0x2f, 0x74, 0x6d, 0x70];
    assert WORK == [0x2f, 0x77, 0x6f, 0x72, 0x6b];
    SplitPlain([0x74, 0x6d, 0x70]);
    SplitPlain([0x77, 0x6f, 0x72, 0x6b]);
    assert TMP[1..] == [0x74, 0x6d, 0x70];
    assert WORK[1..] == [0x77, 0x6f, 0x72, 0x6b];
  }

  /** The immutable paths with both writable ones. */
  function AllPaths(immutable: seq<Bytes>): (paths: seq<Bytes>)
  {
    immutable + [TMP, WORK]
  }

  /** A path with one segment after the slash covers, and is covered by, only itself and what lies below it. */
  lemma CoversWritable(path: Bytes, writable: Bytes, name: Bytes)
    requires ValidGuestPath(path) && Split(writable) == [[], name]
    requires path != writable && !Below(writable, path)
    ensures !Covers(path, writable) && !Covers(writable, path)
  {
    ValidPathSegments(path);
    CoversIff(writable, path);
    assert Covers(path, writable) ==> Split(path) == Split(writable);
  }

  /** Accepted immutable paths together with `/tmp` and `/work` form an antichain: none is an ancestor of another, in
      either direction, although the code compares each path only with later ones. */
  lemma AcceptedPathsAntichain(immutable: seq<Bytes>, i: nat, j: nat)
    requires ValidSortedGuestPaths(immutable) && AvoidsWritable(immutable)
    requires i < |AllPaths(immutable)| && j < |AllPaths(immutable)| && i != j
    ensures !Covers(AllPaths(immutable)[i], AllPaths(immutable)[j])
  {
    var a, b, n := AllPaths(immutable)[i], AllPaths(immutable)[j], |immutable|;
    WritableSegments();
    if i < n && j < n {
      CoversIff(a, b);
      if i < j { LaterIsNoAncestor(immutable, i, j); } else { LaterIsNoAncestor(immutable, j, i); }
    } else if i < n {
      CoversWritable(a, b, Split(b)[1]);
    } else if j < n {
      CoversWritable(b, a, Split(a)[1]);
    } else {
      assert Split(a)[1] != Split(b)[1];
    }
  }

  // ---------------------------------------------------------------- exactly the normal absolute paths

  /** The path with these segments. */
  function Absolute(segments: seq<Bytes>): (path: Bytes)
  {
    if segments == [] then [] else [SLASH] + segments[0] + Absolute(segments[1..])
  }

  lemma {:induction false} JoinSplit(text: Bytes)
    ensures Split(text)[0] + Absolute(Split(text)[1..]) == text
  {
    if text != [] {
      JoinSplit(text[1..]);
      var rest := Split(text[1..]);
      assert text == [text[0]] + text[1..];
      if text[0] == SLASH {
        assert Split(text)[1..] == rest;
      } else {
        assert Split(text)[1..] == rest[1..] && Split(text)[0] == [text[0]] + rest[0];
      }
    }
  }

  lemma {:induction false} SplitAbsolute(segments: seq<Bytes>)
    requires forall s :: s in segments ==> SLASH !in s
    ensures segments == [] || Split(Absolute(segments)[1..]) == segments
  {
    if segments != [] {
      var first, rest := segments[0], segments[1..];
      assert Absolute(segments)[1..] == first + Absolute(rest);
      assert first in segments;
      SplitPlain(first);
      if rest == [] {
        assert first + [] == first;
        assert segments == [first];
      } else {
        SplitAbsolute(rest);
        var tail := Absolute(rest)[1..];
        assert first + Absolute(rest) == first + [SLASH] + tail;
        SplitConcat(first, tail);
        assert segments == [first] + rest;
      }
    }
  }

  lemma {:induction false} BytesInSegments(text: Bytes, x: byte) returns (k: nat)
    requires x in text && x != SLASH
    ensures k < |Split(text)| && x in Split(text)[k]
  {
    if text[0] == x {
      k := 0;
    } else {
      k := BytesInSegments(text[1..], x);
      if text[0] == SLASH { k := k + 1; }
    }
  }

  /** Two slashes in a row leave an empty segment between them. */
  lemma DoubleSlash(text: Bytes, i: nat) returns (k: nat)
    requires i + 1 < |text| && text[i] == SLASH && text[i + 1] == SLASH
    ensures 1 <= k < |Split(text)| && Split(text)[k] == []
  {
    var rest := text[i + 2..];
    assert text == text[..i] + [SLASH] + ([SLASH] + rest);
    SplitConcat(text[..i], [SLASH] + rest);
    k := |Split(text[..i])|;
    assert Split([SLASH] + rest)[0] == [];
  }

  /** A slash at the end leaves an empty segment after it. */
  lemma FinalSlash(text: Bytes)
    requires text != [] && text[|text| - 1] == SLASH
    ensures |Split(text)| > 1 && Split(text)[|Split(text)| - 1] == []
  {
    var init := text[..|text| - 1];
    assert text == init + [SLASH] + [];
    SplitConcat(init, []);
  }

  predicate Alphanumeric(x: byte)
  {
    '0' <= x as char <= '9' || 'A' <= x as char <= 'Z' || 'a' <= x as char <= 'z'
  }

  /** A name other than `.` and `..` in the permitted alphabet. */
  ghost predicate Name(s: Bytes)
  {
    && s != [] && s != ['.' as int] && s != ['.' as int, '.' as int]
    && forall x :: x in s ==> Alphanumeric(x) || x as char in {'.', '_', '-', '+'}
  }

  lemma NameIff(s: Bytes)
    ensures Name(s) <==> ValidSegment(s)
  {
    if Name(s) {
      forall i | 0 <= i < |s| ensures SegmentByte(s[i]) { assert s[i] in s; }
    }
  }

  /** An absolute path of at least one segment, all of them names. */
  ghost predicate NormalPath(path: Bytes)
  {
    |path| <= MAX_TOKEN_BYTES &&
    exists segments :: segments != [] && path == Absolute(segments) && forall s :: s in segments ==> Name(s)
  }

  lemma ValidIsNormal(path: Bytes)
    requires ValidGuestPath(path)
    ensures NormalPath(path)
  {
    ValidPathSegments(path);
    JoinSplit(path);
    var segments := Split(path)[1..];
    assert [] + Absolute(segments) == Absolute(segments);
    forall s | s in segments ensures Name(s) {
      var i :| 0 <= i < |segments| && segments[i] == s;
      assert Split(path)[i + 1] == s;
      NameIff(s);
    }
  }

  lemma AbsoluteSegments(path: Bytes, segments: seq<Bytes>)
    requires segments != [] && path == Absolute(segments) && forall s :: s in segments ==> Name(s)
    ensures Split(path) == [[]] + segments && |path| >= 2 && path[0] == SLASH
  {
    forall s | s in segments ensures SLASH !in s {}
    SplitAbsolute(segments);
    assert segments[0] in segments;
  }

  lemma NormalIsValid(path: Bytes)
    requires NormalPath(path)
    ensures ValidGuestPath(path)
  {
    var segments :| segments != [] && path == Absolute(segments) && forall s :: s in segments ==> Name(s);
    AbsoluteSegments(path, segments);
    forall i | 1 <= i < |Split(path)| ensures ValidSegment(Split(path)[i]) {
      assert Split(path)[i] == segments[i - 1] && segments[i - 1] in segments;
      NameIff(segments[i - 1]);
    }
    if path[|path| - 1] == SLASH { FinalSlash(path); }
    forall i | 0 <= i < |path| - 1 ensures !(path[i] == SLASH && path[i + 1] == SLASH) {
      if path[i] == SLASH && path[i + 1] == SLASH { var k := DoubleSlash(path, i); }
    }
    if 0x5c in path { var k := BytesInSegments(path, 0x5c); }
  }

  /** The paths a manifest may declare immutable: in strict order, normal, and with `/tmp` and `/work` none an ancestor
      of another. */
  ghost predicate Policy(immutable: seq<Bytes>)
  {
    && |immutable| <= MAX_LIST_ENTRIES
    && (forall i :: 0 <= i < |immutable| ==> NormalPath(immutable[i]))
    && (forall i, j :: 0 <= i < j < |immutable| ==> Less(immutable[i], immutable[j]))
    && (forall i, j :: 0 <= i < |AllPaths(immutable)| && 0 <= j < |AllPaths(immutable)| && i != j ==>
          !Covers(AllPaths(immutable)[i], AllPaths(immutable)[j]))
  }

  lemma AcceptedIsPolicy(immutable: seq<Bytes>)
    requires ValidSortedGuestPaths(immutable) && AvoidsWritable(immutable)
    ensures Policy(immutable)
  {
    forall i | 0 <= i < |immutable| ensures NormalPath(immutable[i]) { ValidIsNormal(immutable[i]); }
    forall i, j | 0 <= i < j < |immutable| ensures Less(immutable[i], immutable[j]) { SortedPairs(immutable, i, j); }
    forall i, j | 0 <= i < |AllPaths(immutable)| && 0 <= j < |AllPaths(immutable)| && i != j
      ensures !Covers(AllPaths(immutable)[i], AllPaths(immutable)[j])
    {
      AcceptedPathsAntichain(immutable, i, j);
    }
  }

  lemma PolicyIsAccepted(immutable: seq<Bytes>)
    requires Policy(immutable)
    ensures ValidSortedGuestPaths(immutable) && AvoidsWritable(immutable)
  {
    var all, n := AllPaths(immutable), |immutable|;
    forall i | 0 <= i < n ensures ValidGuestPath(immutable[i]) { NormalIsValid(immutable[i]); }
    forall i, j | 0 <= i < j < n ensures !Below(immutable[i], immutable[j]) {
      assert !Covers(all[i], all[j]);
      CoversIff(immutable[i], immutable[j]);
    }
    forall i | 0 <= i < n
      ensures immutable[i] != TMP && !Below(TMP, immutable[i]) && immutable[i] != WORK && !Below(WORK, immutable[i])
    {
      assert !Covers(all[n], all[i]) && !Covers(all[n + 1], all[i]);
      CoversIff(TMP, immutable[i]);
      CoversIff(WORK, immutable[i]);
    }
  }

  // ---------------------------------------------------------------- sets as lists

  lemma {:induction false} SortedFirst(values: seq<Bytes>, v: Bytes)
    requires StrictlySorted(values) && v in values
    ensures v == values[0] || Less(values[0], v)
  {
    var k :| 0 <= k < |values| && values[k] == v;
    if k > 0 { SortedPairs(values, 0, k); }
  }

  lemma SortedTail(a: seq<Bytes>)
    requires StrictlySorted(a) && a != []
    ensures StrictlySorted(a[1..])
    ensures forall v :: v in a[1..] <==> v in a && v != a[0]
  {
    forall v ensures v in a[1..] <==> v in a && v != a[0] {
      if v in a[1..] {
        var k :| 0 <= k < |a[1..]| && a[1..][k] == v;
        SortedPairs(a, 0, k + 1);
        LessIrreflexive(a[0]);
      }
    }
  }

  /** Strict order makes the list canonical: lists with the same elements are the same list. */
  lemma {:induction false} SortedListsEqual(a: seq<Bytes>, b: seq<Bytes>)
    requires StrictlySorted(a) && StrictlySorted(b)
    requires forall v :: v in a <==> v in b
    ensures a == b
  {
    assert b != [] ==> b[0] in a;
    assert a != [] ==> a[0] in b;
    if a != [] {
      SortedFirst(a, b[0]);
      SortedFirst(b, a[0]);
      if a[0] != b[0] {
        LessTransitive(a[0], b[0], a[0]);
        LessIrreflexive(a[0]);
      }
      SortedTail(a);
      SortedTail(b);
      SortedListsEqual(a[1..], b[1..]);
      assert a == [a[0]] + a[1..] && b == [b[0]] + b[1..];
    }
  }
}
