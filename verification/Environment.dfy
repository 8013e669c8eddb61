/** Environment manifests: field validation, the hash preimage of their identity, and the JSON form they are
    exchanged in (src/environment.rs). */
module Environment {
  import opened Bytes
  import opened Wrappers
  import opened Crypto
  import opened GuestPaths
  import Json

  const IDENTITY_DOMAIN: Bytes := Ascii("runtrue.environment\0v1\0")
  const EXECUTION_PROFILE: Bytes := Ascii("wasix32-v1")
  const ARTIFACT_FORMAT: Bytes := Ascii("webc")
  const ARTIFACT_PATH: Bytes := Ascii("environment.webc")
  const MAX_MANIFEST_BYTES: nat := 64 * 1024

  /** Every manifest field except `environment_id`. */
  datatype Content = Content(
    schemaVersion: nat,
    executionProfile: Bytes,
    languageName: Bytes,
    languageVersion: Bytes,
    languageImplementation: Bytes,
    artifactFormat: Bytes,
    artifactPath: Bytes,
    artifactSha256: Bytes,
    requiredWasmFeatures: seq<Bytes>,
    defaultCommand: Bytes,
    availableCommands: seq<Bytes>,
    immutable: seq<Bytes>,
    writable: seq<Bytes>,
    toolchainId: Bytes,
    sourceDigest: Bytes,
    lockDigest: Bytes)

  datatype Manifest = Manifest(environmentId: Bytes, content: Content)

  /** SHA-256 and the JSON decoders, which are library code. */
  datatype Library = Library(
    hash: Bytes -> Digest,
    decodeSchemaVersion: Bytes -> Option<nat>,
    decodeManifest: Bytes -> Option<Manifest>)

  // ---------------------------------------------------------------- the hash preimage

  datatype Field = Text(text: Bytes) | Texts(texts: seq<Bytes>)

  /** The fields in the order in which they are hashed. */
  function Fields(c: Content): (fields: seq<Field>)
    ensures |fields| == 15
  {
    [Text(c.executionProfile), Text(c.languageName), Text(c.languageVersion), Text(c.languageImplementation),
     Text(c.artifactFormat), Text(c.artifactPath), Text(c.artifactSha256), Texts(c.requiredWasmFeatures),
     Text(c.defaultCommand), Texts(c.availableCommands), Texts(c.immutable), Texts(c.writable),
     Text(c.toolchainId), Text(c.sourceDigest), Text(c.lockDigest)]
  }

  predicate AllFit(texts: seq<Bytes>)
  {
    forall i :: 0 <= i < |texts| ==> |texts[i]| <= USIZE_MAX
  }

  /** Lengths fit the `u64` they are written in, and the schema version its `u32`: true of every Rust value. */
  predicate FieldFits(f: Field)
  {
    if f.Text? then |f.text| <= USIZE_MAX
    else |f.texts| <= USIZE_MAX && AllFit(f.texts)
  }

  predicate FieldsFit(fields: seq<Field>)
  {
    forall i :: 0 <= i < |fields| ==> FieldFits(fields[i])
  }

  predicate Fits(c: Content)
  {
    c.schemaVersion < 0x1_0000_0000 && FieldsFit(Fields(c))
  }

  function Length(n: nat): (b: Bytes)
    requires n <= USIZE_MAX
    ensures |b| == 8 && FromBigEndian(b) == n
  {
    Widths();
    BigEndian(n, 8)
  }

  /** A string as it is hashed, followed by `rest`. */
  function TextThen(text: Bytes, rest: Bytes): (b: Bytes)
    requires |text| <= USIZE_MAX
  {
    Length(|text|) + (text + rest)
  }

  function TextsThen(texts: seq<Bytes>, rest: Bytes): (b: Bytes)
    requires AllFit(texts)
  {
    if texts == [] then rest else TextThen(texts[0], TextsThen(texts[1..], rest))
  }

  function FieldThen(f: Field, rest: Bytes): (b: Bytes)
    requires FieldFits(f)
  {
    if f.Text? then TextThen(f.text, rest) else Length(|f.texts|) + TextsThen(f.texts, rest)
  }

  function FieldsThen(fields: seq<Field>, rest: Bytes): (b: Bytes)
    requires FieldsFit(fields)
  {
    if fields == [] then rest else FieldThen(fields[0], FieldsThen(fields[1..], rest))
  }

  function SchemaBytes(version: nat): (b: Bytes)
    requires version < 0x1_0000_0000
    ensures |b| == 4 && FromBigEndian(b) == version
  {
    Widths();
    BigEndian(version, 4)
  }

  function Preimage(c: Content): (b: Bytes)
    requires Fits(c)
  {
    IDENTITY_DOMAIN + (SchemaBytes(c.schemaVersion) + FieldsThen(Fields(c), []))
  }

  // ---------------------------------------------------------------- unique decoding

  lemma TextDecodes(a: Bytes, r: Bytes, b: Bytes, s: Bytes)
    requires |a| <= USIZE_MAX && |b| <= USIZE_MAX && TextThen(a, r) == TextThen(b, s)
    ensures a == b && r == s
  {
    SplitEqual(Length(|a|), a + r, Length(|b|), b + s);
    SplitEqual(a, r, b, s);
  }

  lemma {:induction false} TextsDecode(a: seq<Bytes>, r: Bytes, b: seq<Bytes>, s: Bytes)
    requires |a| == |b| && AllFit(a) && AllFit(b) && TextsThen(a, r) == TextsThen(b, s)
    ensures a == b && r == s
  {
    if a != [] {
      TextDecodes(a[0], TextsThen(a[1..], r), b[0], TextsThen(b[1..], s));
      TextsDecode(a[1..], r, b[1..], s);
      assert a == [a[0]] + a[1..] && b == [b[0]] + b[1..];
    }
  }

  lemma FieldDecodes(f: Field, r: Bytes, g: Field, s: Bytes)
    requires FieldFits(f) && FieldFits(g) && f.Text? == g.Text? && FieldThen(f, r) == FieldThen(g, s)
    ensures f == g && r == s
  {
    if f.Text? {
      TextDecodes(f.text, r, g.text, s);
    } else {
      SplitEqual(Length(|f.texts|), TextsThen(f.texts, r), Length(|g.texts|), TextsThen(g.texts, s));
      TextsDecode(f.texts, r, g.texts, s);
    }
  }

  lemma {:induction false} FieldsDecode(a: seq<Field>, b: seq<Field>)
    requires |a| == |b| && FieldsFit(a) && FieldsFit(b)
    requires forall i :: 0 <= i < |a| ==> a[i].Text? == b[i].Text?
    requires FieldsThen(a, []) == FieldsThen(b, [])
    ensures a == b
  {
    if a != [] {
      FieldDecodes(a[0], FieldsThen(a[1..], []), b[0], FieldsThen(b[1..], []));
      FieldsDecode(a[1..], b[1..]);
      assert a == [a[0]] + a[1..] && b == [b[0]] + b[1..];
    }
  }

  lemma FieldsDetermine(a: Content, b: Content)
    requires Fields(a) == Fields(b) && a.schemaVersion == b.schemaVersion
    ensures a == b
  {
    var x, y := Fields(a), Fields(b);
    assert x[0] == y[0] && x[1] == y[1] && x[2] == y[2] && x[3] == y[3] && x[4] == y[4] && x[5] == y[5];
    assert x[6] == y[6] && x[7] == y[7] && x[8] == y[8] && x[9] == y[9] && x[10] == y[10];
    assert x[11] == y[11] && x[12] == y[12] && x[13] == y[13] && x[14] == y[14];
  }

  lemma SameShape(a: Content, b: Content)
    ensures forall i :: 0 <= i < 15 ==> Fields(a)[i].Text? == Fields(b)[i].Text?
  {
  }

  /** The preimage is uniquely decodable: equal preimages mean equal contents, field by field. */
  lemma PreimageInjective(a: Content, b: Content)
    requires Fits(a) && Fits(b) && Preimage(a) == Preimage(b)
    ensures a == b
  {
    var x, y := FieldsThen(Fields(a), []), FieldsThen(Fields(b), []);
    var u, v := SchemaBytes(a.schemaVersion), SchemaBytes(b.schemaVersion);
    SplitEqual(IDENTITY_DOMAIN, u + x, IDENTITY_DOMAIN, v + y);
    SplitEqual(u, x, v, y);
    SameShape(a, b);
    FieldsDecode(Fields(a), Fields(b));
    FieldsDetermine(a, b);
  }

  // ---------------------------------------------------------------- hashing step by step

  /** A hasher remembers what it was fed. */
  class Hasher {
    var fed: Bytes

    constructor ()
      ensures fed == []
    {
      fed := [];
    }

    method Update(bytes: Bytes)
      modifies this
      ensures fed == old(fed) + bytes
    {
      fed := fed + bytes;
    }
  }

  /** `hash_string`; `rest` stands for whatever is fed later. */
  method HashString(h: Hasher, value: Bytes, ghost rest: Bytes)
    requires |value| <= USIZE_MAX
    modifies h
    ensures h.fed + rest == old(h.fed) + TextThen(value, rest)
  {
    h.Update(Length(|value|));
    h.Update(value);
    Associates(old(h.fed) + Length(|value|), value, rest);
    Associates(old(h.fed), Length(|value|), value + rest);
  }

  lemma TextsStep(values: seq<Bytes>, i: nat, rest: Bytes)
    requires i < |values| && AllFit(values)
    ensures TextsThen(values[i..], rest) == TextThen(values[i], TextsThen(values[i + 1..], rest))
  {
    assert values[i..][1..] == values[i + 1..];
  }

  /** `hash_strings`. */
  method HashStrings(h: Hasher, values: seq<Bytes>, ghost rest: Bytes)
    requires FieldFits(Texts(values))
    modifies h
    ensures h.fed + rest == old(h.fed) + FieldThen(Texts(values), rest)
  {
    ghost var whole := TextsThen(values, rest);
    h.Update(Length(|values|));
    Associates(old(h.fed), Length(|values|), whole);
    assert values[0..] == values;
    for i := 0 to |values|
      invariant h.fed + TextsThen(values[i..], rest) == old(h.fed) + (Length(|values|) + whole)
    {
      TextsStep(values, i, rest);
      HashString(h, values[i], TextsThen(values[i + 1..], rest));
    }
  }

  /** What has been fed and what is left to feed make up the whole. */
  ghost predicate Feeding(h: Hasher, fields: seq<Field>, k: nat, whole: Bytes)
    requires FieldsFit(fields) && k <= |fields|
    reads h
  {
    h.fed + FieldsThen(fields[k..], []) == whole
  }

  method FeedText(h: Hasher, value: Bytes, ghost fields: seq<Field>, ghost k: nat, ghost whole: Bytes)
    requires FieldsFit(fields) && k < |fields| && Feeding(h, fields, k, whole) && fields[k] == Text(value)
    modifies h
    ensures Feeding(h, fields, k + 1, whole)
  {
    assert fields[k..][1..] == fields[k + 1..] && FieldFits(fields[k]);
    HashString(h, value, FieldsThen(fields[k + 1..], []));
  }

  method FeedTexts(h: Hasher, values: seq<Bytes>, ghost fields: seq<Field>, ghost k: nat, ghost whole: Bytes)
    requires FieldsFit(fields) && k < |fields| && Feeding(h, fields, k, whole) && fields[k] == Texts(values)
    modifies h
    ensures Feeding(h, fields, k + 1, whole)
  {
    assert fields[k..][1..] == fields[k + 1..] && FieldFits(fields[k]);
    HashStrings(h, values, FieldsThen(fields[k + 1..], []));
  }

  method FeedLanguage(h: Hasher, c: Content, ghost fields: seq<Field>, ghost whole: Bytes)
    requires FieldsFit(fields) && |fields| == 15 && Feeding(h, fields, 0, whole)
    requires fields[0] == Text(c.executionProfile) && fields[1] == Text(c.languageName)
    requires fields[2] == Text(c.languageVersion) && fields[3] == Text(c.languageImplementation)
    modifies h
    ensures Feeding(h, fields, 4, whole)
  {
    FeedText(h, c.executionProfile, fields, 0, whole);
    FeedText(h, c.languageName, fields, 1, whole);
    FeedText(h, c.languageVersion, fields, 2, whole);
    FeedText(h, c.languageImplementation, fields, 3, whole);
  }

  method FeedArtifact(h: Hasher, c: Content, ghost fields: seq<Field>, ghost whole: Bytes)
    requires FieldsFit(fields) && |fields| == 15 && Feeding(h, fields, 4, whole)
    requires fields[4] == Text(c.artifactFormat) && fields[5] == Text(c.artifactPath)
    requires fields[6] == Text(c.artifactSha256)
    modifies h
    ensures Feeding(h, fields, 7, whole)
  {
    FeedText(h, c.artifactFormat, fields, 4, whole);
    FeedText(h, c.artifactPath, fields, 5, whole);
    FeedText(h, c.artifactSha256, fields, 6, whole);
  }

  method FeedLists(h: Hasher, c: Content, ghost fields: seq<Field>, ghost whole: Bytes)
    requires FieldsFit(fields) && |fields| == 15 && Feeding(h, fields, 7, whole)
    requires fields[7] == Texts(c.requiredWasmFeatures) && fields[8] == Text(c.defaultCommand)
    requires fields[9] == Texts(c.availableCommands) && fields[10] == Texts(c.immutable)
    requires fields[11] == Texts(c.writable)
    modifies h
    ensures Feeding(h, fields, 12, whole)
  {
    FeedTexts(h, c.requiredWasmFeatures, fields, 7, whole);
    FeedText(h, c.defaultCommand, fields, 8, whole);
    FeedTexts(h, c.availableCommands, fields, 9, whole);
    FeedTexts(h, c.immutable, fields, 10, whole);
    FeedTexts(h, c.writable, fields, 11, whole);
  }

  method FeedBuild(h: Hasher, c: Content, ghost fields: seq<Field>, ghost whole: Bytes)
    requires FieldsFit(fields) && |fields| == 15 && Feeding(h, fields, 12, whole)
    requires fields[12] == Text(c.toolchainId) && fields[13] == Text(c.sourceDigest) && fields[14] == Text(c.lockDigest)
    modifies h
    ensures h.fed == whole
  {
    FeedText(h, c.toolchainId, fields, 12, whole);
    FeedText(h, c.sourceDigest, fields, 13, whole);
    FeedText(h, c.lockDigest, fields, 14, whole);
    assert fields[15..] == [] && h.fed + [] == h.fed;
  }

  lemma PreimageParts(c: Content, fed: Bytes)
    requires Fits(c) && fed == [] + IDENTITY_DOMAIN + SchemaBytes(c.schemaVersion)
    ensures fed + FieldsThen(Fields(c)[0..], []) == Preimage(c)
  {
    assert Fields(c)[0..] == Fields(c);
    Associates([] + IDENTITY_DOMAIN, SchemaBytes(c.schemaVersion), FieldsThen(Fields(c), []));
    assert [] + IDENTITY_DOMAIN == IDENTITY_DOMAIN;
  }

  /** The updates of `calculate_environment_id`, one field at a time. */
  method FeedPreimage(c: Content) returns (fed: Bytes)
    requires Fits(c)
    ensures fed == Preimage(c)
  {
    var h := new Hasher();
    h.Update(IDENTITY_DOMAIN);
    h.Update(SchemaBytes(c.schemaVersion));
    ghost var fields := Fields(c);
    PreimageParts(c, h.fed);
    FeedLanguage(h, c, fields, Preimage(c));
    FeedArtifact(h, c, fields, Preimage(c));
    FeedLists(h, c, fields, Preimage(c));
    FeedBuild(h, c, fields, Preimage(c));
    fed := h.fed;
  }

  // ---------------------------------------------------------------- JSON form

  const KEY_SCHEMA_VERSION: string := "schemaVersion"
  const KEY_ENVIRONMENT_ID: string := "environmentId"
  const KEY_EXECUTION_PROFILE: string := "executionProfile"
  const KEY_LANGUAGE: string := "language"
  const KEY_NAME: string := "name"
  const KEY_VERSION: string := "version"
  const KEY_IMPLEMENTATION: string := "implementation"
  const KEY_ARTIFACT: string := "artifact"
  const KEY_FORMAT: string := "format"
  const KEY_PATH: string := "path"
  const KEY_SHA256: string := "sha256"
  const KEY_REQUIRED_WASM_FEATURES: string := "requiredWasmFeatures"
  const KEY_COMMANDS: string := "commands"
  const KEY_DEFAULT: string := "default"
  const KEY_AVAILABLE: string := "available"
  const KEY_FILESYSTEM: string := "filesystem"
  const KEY_IMMUTABLE: string := "immutable"
  const KEY_WRITABLE: string := "writable"
  const KEY_BUILD: string := "build"
  const KEY_TOOLCHAIN_ID: string := "toolchainId"
  const KEY_SOURCE_DIGEST: string := "sourceDigest"
  const KEY_LOCK_DIGEST: string := "lockDigest"

  function Key(name: string): (b: Bytes)
  {
    Json.Quote(Ascii(name)) + Ascii(":")
  }

  /** A member of a JSON object. */
  datatype Member =
    | Str(name: string, text: Bytes)
    | Arr(name: string, texts: seq<Bytes>)
    | Obj(name: string, members: seq<Member>)

  function EncodeMember(m: Member): (b: Bytes)
    decreases m, 1
  {
    match m
    case Str(name, text) => Key(name) + Json.Quote(text)
    case Arr(name, texts) => Key(name) + Json.List(texts)
    case Obj(name, members) => Key(name) + Ascii("{") + EncodeMembers(members) + Ascii("}")
  }

  function EncodeMembers(members: seq<Member>): (b: Bytes)
    decreases members, 0
  {
    if members == [] then []
    else if |members| == 1 then EncodeMember(members[0])
    else EncodeMember(members[0]) + Ascii(",") + EncodeMembers(members[1..])
  }

  /** The members after the environment id, in declaration order. */
  function Members(c: Content): (members: seq<Member>)
    ensures |members| == 7
  {
    [Str(KEY_EXECUTION_PROFILE, c.executionProfile),
     Obj(KEY_LANGUAGE, [Str(KEY_NAME, c.languageName), Str(KEY_VERSION, c.languageVersion),
                      Str(KEY_IMPLEMENTATION, c.languageImplementation)]),
     Obj(KEY_ARTIFACT, [Str(KEY_FORMAT, c.artifactFormat), Str(KEY_PATH, c.artifactPath),
                        Str(KEY_SHA256, c.artifactSha256)]),
     Arr(KEY_REQUIRED_WASM_FEATURES, c.requiredWasmFeatures),
     Obj(KEY_COMMANDS, [Str(KEY_DEFAULT, c.defaultCommand), Arr(KEY_AVAILABLE, c.availableCommands)]),
     Obj(KEY_FILESYSTEM, [Arr(KEY_IMMUTABLE, c.immutable), Arr(KEY_WRITABLE, c.writable)]),
     Obj(KEY_BUILD, [Str(KEY_TOOLCHAIN_ID, c.toolchainId), Str(KEY_SOURCE_DIGEST, c.sourceDigest),
                     Str(KEY_LOCK_DIGEST, c.lockDigest)])]
  }

  function EncodeHead(c: Content): (b: Bytes)
  {
    Ascii("{") + Key(KEY_SCHEMA_VERSION) + Json.Decimal(c.schemaVersion) + Ascii(",") + Key(KEY_ENVIRONMENT_ID)
  }

  function EncodeTail(c: Content): (b: Bytes)
  {
    Ascii(",") + EncodeMembers(Members(c)) + Ascii("}")
  }

  function EncodeManifest(m: Manifest): (b: Bytes)
  {
    EncodeHead(m.content) + Json.Quote(m.environmentId) + EncodeTail(m.content)
  }

  // ---------------------------------------------------------------- validation

  predicate ValidText(text: Bytes)
  {
    0 < |text| <= MAX_TOKEN_BYTES && forall i :: 0 <= i < |text| ==> 0x20 <= text[i] <= 0x7e
  }

  predicate TokenByte(b: byte)
  {
    || 0x30 <= b <= 0x39 || 0x41 <= b <= 0x5a || 0x61 <= b <= 0x7a
    || b == 0x2e || b == 0x5f || b == 0x2d || b == 0x2b || b == 0x3a
  }

  predicate ValidToken(text: Bytes)
  {
    0 < |text| <= MAX_TOKEN_BYTES && forall i :: 0 <= i < |text| ==> TokenByte(text[i])
  }

  predicate ValidSortedTokens(values: seq<Bytes>)
  {
    |values| <= MAX_LIST_ENTRIES && (forall i :: 0 <= i < |values| ==> ValidToken(values[i])) && StrictlySorted(values)
  }

  function Zeros(n: nat): (b: Bytes)
    ensures |b| == n && forall i :: 0 <= i < n ==> b[i] == 0x30
  {
    seq(n, _ => 0x30)
  }

  /** The id that stands in for the real one while the encoded size is checked. */
  function Placeholder(): (id: Bytes)
    ensures |id| == 71
  {
    SHA256_PREFIX + Zeros(64)
  }

  predicate FixedFieldsValid(c: Content)
  {
    && c.schemaVersion == 1
    && c.executionProfile == EXECUTION_PROFILE
    && c.artifactFormat == ARTIFACT_FORMAT
    && c.artifactPath == ARTIFACT_PATH
    && ValidSha256(c.artifactSha256)
    && ValidText(c.languageName) && ValidText(c.languageVersion) && ValidText(c.languageImplementation)
    && ValidToken(c.toolchainId)
    && ValidPrefixedSha256(c.sourceDigest) && ValidPrefixedSha256(c.lockDigest)
  }

  predicate ListsValid(c: Content)
  {
    && ValidSortedTokens(c.requiredWasmFeatures)
    && ValidToken(c.defaultCommand)
    && ValidSortedTokens(c.availableCommands)
    && c.defaultCommand in c.availableCommands
    && ValidSortedGuestPaths(c.immutable)
    && c.writable == [TMP, WORK]
    && AvoidsWritable(c.immutable)
  }

  /** `validate_identity_fields`. */
  predicate ValidContent(c: Content)
  {
    FixedFieldsValid(c) && ListsValid(c) && |EncodeManifest(Manifest(Placeholder(), c))| <= MAX_MANIFEST_BYTES
  }

  datatype ManifestError = TooLarge | Malformed | UnsupportedSchema | InvalidField | InvalidId | IdMismatch

  function IdOf(lib: Library, c: Content): (id: Bytes)
    requires Fits(c)
    ensures |id| == 71
  {
    SHA256_PREFIX + Hex(lib.hash(Preimage(c)))
  }

  lemma IdIsValid(lib: Library, c: Content)
    requires Fits(c)
    ensures ValidPrefixedSha256(IdOf(lib, c))
  {
    var id := IdOf(lib, c);
    assert id[..7] == SHA256_PREFIX && id[7..] == Hex(lib.hash(Preimage(c)));
  }

  /** `calculate_environment_id`. */
  method CalculateEnvironmentId(lib: Library, c: Content) returns (r: Result<Bytes, ManifestError>)
    requires Fits(c)
    ensures r == if ValidContent(c) then Ok(IdOf(lib, c)) else Err(InvalidField)
  {
    if !ValidContent(c) { return Err(InvalidField); }
    var fed := FeedPreimage(c);
    r := Ok(SHA256_PREFIX + Hex(lib.hash(fed)));
  }

  /** `validate`. */
  function Validate(lib: Library, m: Manifest): (r: Result<Manifest, ManifestError>)
    requires Fits(m.content)
  {
    if !ValidContent(m.content) then Err(InvalidField)
    else if !ValidPrefixedSha256(m.environmentId) then Err(InvalidId)
    else if m.environmentId != IdOf(lib, m.content) then Err(IdMismatch)
    else Ok(m)
  }

  /** What a decoder returns is a Rust value, so its lengths fit. */
  function ValidateDecoded(lib: Library, decoded: Option<Manifest>): (r: Result<Manifest, ManifestError>)
  {
    if decoded.None? || !Fits(decoded.value.content) then Err(Malformed) else Validate(lib, decoded.value)
  }

  /** `from_json`. */
  function FromJson(lib: Library, bytes: Bytes): (r: Result<Manifest, ManifestError>)
  {
    if |bytes| > MAX_MANIFEST_BYTES then Err(TooLarge)
    else if lib.decodeSchemaVersion(bytes).None? then Err(Malformed)
    else if lib.decodeSchemaVersion(bytes).value != 1 then Err(UnsupportedSchema)
    else ValidateDecoded(lib, lib.decodeManifest(bytes))
  }

  // ---------------------------------------------------------------- exactly the canonical manifests

  ghost predicate Printable(text: Bytes)
  {
    0 < |text| <= MAX_TOKEN_BYTES && forall x :: x in text ==> ' ' <= x as char <= '~'
  }

  ghost predicate Token(text: Bytes)
  {
    && 0 < |text| <= MAX_TOKEN_BYTES
    && forall x :: x in text ==> Alphanumeric(x) || x as char in {'.', '_', '-', '+', ':'}
  }

  /** A set of tokens, listed in strict order. */
  ghost predicate TokenSet(values: seq<Bytes>)
  {
    && |values| <= MAX_LIST_ENTRIES
    && (forall v :: v in values ==> Token(v))
    && (forall i, j :: 0 <= i < j < |values| ==> Less(values[i], values[j]))
  }

  ghost predicate Sha256Text(text: Bytes)
  {
    |text| == 64 && forall x :: x in text ==> '0' <= x as char <= '9' || 'a' <= x as char <= 'f'
  }

  /** What a version 1 manifest may say. */
  ghost predicate Canonical(c: Content)
  {
    && c.schemaVersion == 1 && c.executionProfile == EXECUTION_PROFILE
    && c.artifactFormat == ARTIFACT_FORMAT && c.artifactPath == ARTIFACT_PATH && Sha256Text(c.artifactSha256)
    && Printable(c.languageName) && Printable(c.languageVersion) && Printable(c.languageImplementation)
    && Token(c.toolchainId)
    && SHA256_PREFIX <= c.sourceDigest && Sha256Text(c.sourceDigest[7..])
    && SHA256_PREFIX <= c.lockDigest && Sha256Text(c.lockDigest[7..])
    && TokenSet(c.requiredWasmFeatures) && TokenSet(c.availableCommands) && c.defaultCommand in c.availableCommands
    && Policy(c.immutable) && c.writable == [TMP, WORK]
    && |EncodeManifest(Manifest(Placeholder(), c))| <= MAX_MANIFEST_BYTES
  }

  lemma PrintableIff(text: Bytes)
    ensures Printable(text) <==> ValidText(text)
  {
    if Printable(text) {
      forall i | 0 <= i < |text| ensures 0x20 <= text[i] <= 0x7e { assert text[i] in text; }
    }
  }

  lemma TokenIff(text: Bytes)
    ensures Token(text) <==> ValidToken(text)
  {
    if Token(text) {
      forall i | 0 <= i < |text| ensures TokenByte(text[i]) { assert text[i] in text; }
    }
  }

  lemma Sha256TextIff(text: Bytes)
    ensures Sha256Text(text) <==> ValidSha256(text)
  {
    if Sha256Text(text) {
      forall i | 0 <= i < |text| ensures LowerHex(text[i]) { assert text[i] in text; }
    }
  }

  lemma TokenSetIff(values: seq<Bytes>)
    ensures TokenSet(values) <==> ValidSortedTokens(values)
  {
    forall v ensures Token(v) <==> ValidToken(v) { TokenIff(v); }
    if ValidSortedTokens(values) {
      forall i, j | 0 <= i < j < |values| ensures Less(values[i], values[j]) { SortedPairs(values, i, j); }
    }
    if TokenSet(values) {
      forall i | 0 <= i < |values| ensures ValidToken(values[i]) { assert values[i] in values; }
    }
  }

  lemma FixedIff(c: Content)
    requires Canonical(c) || ValidContent(c)
    ensures FixedFieldsValid(c)
    ensures Sha256Text(c.artifactSha256) && Token(c.toolchainId)
    ensures Printable(c.languageName) && Printable(c.languageVersion) && Printable(c.languageImplementation)
    ensures Sha256Text(c.sourceDigest[7..]) && Sha256Text(c.lockDigest[7..])
  {
    Sha256TextIff(c.artifactSha256);
    Sha256TextIff(c.sourceDigest[7..]);
    Sha256TextIff(c.lockDigest[7..]);
    PrintableIff(c.languageName);
    PrintableIff(c.languageVersion);
    PrintableIff(c.languageImplementation);
    TokenIff(c.toolchainId);
  }

  /** `validate_identity_fields` accepts exactly the canonical contents. */
  lemma CanonicalIff(c: Content)
    ensures ValidContent(c) <==> Canonical(c)
  {
    TokenSetIff(c.requiredWasmFeatures);
    TokenSetIff(c.availableCommands);
    TokenIff(c.defaultCommand);
    if ValidContent(c) {
      FixedIff(c);
      AcceptedIsPolicy(c.immutable);
    }
    if Canonical(c) {
      FixedIff(c);
      PolicyIsAccepted(c.immutable);
      assert Token(c.defaultCommand);
    }
  }

  lemma ValidateIff(lib: Library, n: Manifest, m: Manifest)
    requires Fits(n.content)
    ensures Validate(lib, n) == Ok(m) <==> n == m && ValidContent(n.content) && n.environmentId == IdOf(lib, n.content)
  {
    IdIsValid(lib, n.content);
  }

  lemma ParsesIff(lib: Library, bytes: Bytes, m: Manifest)
    ensures FromJson(lib, bytes) == Ok(m) <==>
      && |bytes| <= MAX_MANIFEST_BYTES
      && lib.decodeSchemaVersion(bytes) == Some(1) && lib.decodeManifest(bytes) == Some(m)
      && Fits(m.content) && ValidContent(m.content) && m.environmentId == IdOf(lib, m.content)
  {
    var decoded := lib.decodeManifest(bytes);
    if decoded.Some? && Fits(decoded.value.content) { ValidateIff(lib, decoded.value, m); }
  }

  /** `from_json` accepts exactly the bounded texts that decode to a version 1 manifest with canonical content and its
      own identity. */
  lemma AcceptedIff(lib: Library, bytes: Bytes, m: Manifest)
    ensures FromJson(lib, bytes) == Ok(m) <==>
      && |bytes| <= MAX_MANIFEST_BYTES
      && lib.decodeSchemaVersion(bytes) == Some(1) && lib.decodeManifest(bytes) == Some(m)
      && Fits(m.content) && Canonical(m.content)
      && m.environmentId == SHA256_PREFIX + Hex(lib.hash(Preimage(m.content)))
  {
    ParsesIff(lib, bytes, m);
    CanonicalIff(m.content);
  }

  /** Ids of equal length take equal room: neither needs escaping. */
  lemma IdRoom(id: Bytes)
    requires ValidPrefixedSha256(id)
    ensures |Json.Quote(id)| == |id| + 2
  {
    assert SHA256_PREFIX == [0x73, 0x68, 0x61, 0x32, 0x35, 0x36, 0x3a];
    forall i | 0 <= i < |id| ensures Json.Plain(id[i]) {
      if i < 7 {
        assert id[i] == SHA256_PREFIX[i];
      } else {
        assert id[i] == id[7..][i - 7];
        assert LowerHex(id[7..][i - 7]);
      }
    }
    Json.PlainEscape(id);
  }

  lemma EncodedLength(c: Content, a: Bytes, b: Bytes)
    requires |Json.Quote(a)| == |Json.Quote(b)|
    ensures |EncodeManifest(Manifest(a, c))| == |EncodeManifest(Manifest(b, c))|
  {
  }

  lemma PlaceholderValid()
    ensures ValidPrefixedSha256(Placeholder())
  {
    assert Placeholder()[..7] == SHA256_PREFIX && Placeholder()[7..] == Zeros(64);
  }

  lemma CalculatedFits(lib: Library, c: Content)
    requires Fits(c) && ValidContent(c)
    ensures |EncodeManifest(Manifest(IdOf(lib, c), c))| <= MAX_MANIFEST_BYTES
  {
    PlaceholderValid();
    IdIsValid(lib, c);
    IdRoom(Placeholder());
    IdRoom(IdOf(lib, c));
    EncodedLength(c, IdOf(lib, c), Placeholder());
  }

  /** The decoders give back this manifest from its encoding. */
  predicate Decodes(lib: Library, m: Manifest)
  {
    && lib.decodeManifest(EncodeManifest(m)) == Some(m)
    && lib.decodeSchemaVersion(EncodeManifest(m)) == Some(m.content.schemaVersion)
  }

  /** A manifest that was given its calculated id always parses after encoding: the size was checked with a
      placeholder of the same length. */
  lemma CalculatedManifestParses(lib: Library, c: Content)
    requires Fits(c) && ValidContent(c) && Decodes(lib, Manifest(IdOf(lib, c), c))
    ensures var m := Manifest(IdOf(lib, c), c); FromJson(lib, EncodeManifest(m)) == Ok(m)
  {
    CalculatedFits(lib, c);
    IdIsValid(lib, c);
    var m := Manifest(IdOf(lib, c), c);
    assert Validate(lib, m) == Ok(m);
    assert lib.decodeManifest(EncodeManifest(m)) == Some(m);
  }

  /** Contents with the same id are equal, or their preimages are a collision of SHA-256. */
  lemma SameIdSameContent(lib: Library, x: Content, y: Content)
    requires Fits(x) && Fits(y)
    ensures IdOf(lib, x) == IdOf(lib, y) <==> x == y || Collision(lib.hash, Preimage(x), Preimage(y))
  {
    var hx, hy := lib.hash(Preimage(x)), lib.hash(Preimage(y));
    if IdOf(lib, x) == IdOf(lib, y) {
      SplitEqual(SHA256_PREFIX, Hex(hx), SHA256_PREFIX, Hex(hy));
      HexInjective(hx, hy);
      if Preimage(x) == Preimage(y) { PreimageInjective(x, y); }
    }
  }

  lemma ParsedId(lib: Library, bytes: Bytes)
    requires FromJson(lib, bytes).Ok?
    ensures var m := FromJson(lib, bytes).value; Fits(m.content) && m.environmentId == IdOf(lib, m.content)
  {
  }

  /** Two accepted manifests with the same id are the same manifest, with the same exception. */
  lemma SameIdSameManifest(lib: Library, a: Bytes, b: Bytes)
    requires FromJson(lib, a).Ok? && FromJson(lib, b).Ok?
    ensures var m, n := FromJson(lib, a).value, FromJson(lib, b).value;
      && Fits(m.content) && Fits(n.content)
      && (m.environmentId == n.environmentId <==>
            m == n || Collision(lib.hash, Preimage(m.content), Preimage(n.content)))
  {
    ParsedId(lib, a);
    ParsedId(lib, b);
    SameIdSameContent(lib, FromJson(lib, a).value.content, FromJson(lib, b).value.content);
  }

  // ---------------------------------------------------------------- accepted manifests exist

  function TextsRoom(texts: seq<Bytes>): (n: nat)
  {
    if texts == [] then 0 else 6 * |texts[0]| + 3 + TextsRoom(texts[1..])
  }

  /** An upper bound for the encoded length of a member, and of a list of members. */
  function Room(m: Member): (n: nat)
    decreases m, 1
  {
    6 * |m.name| + 5 +
    match m
    case Str(_, text) => 6 * |text|
    case Arr(_, texts) => TextsRoom(texts)
    case Obj(_, members) => RoomAll(members)
  }

  function RoomAll(members: seq<Member>): (n: nat)
    decreases members, 0
  {
    if members == [] then 0 else Room(members[0]) + 1 + RoomAll(members[1..])
  }

  lemma {:induction false} TextsRoomSuffices(texts: seq<Bytes>)
    ensures |Json.QuotedItems(texts)| <= TextsRoom(texts)
  {
    if texts != [] {
      Json.QuoteLength(texts[0]);
      TextsRoomSuffices(texts[1..]);
    }
  }

  lemma {:induction false} RoomSuffices(m: Member)
    ensures |EncodeMember(m)| <= Room(m)
    decreases m, 1
  {
    Json.QuoteLength(Ascii(m.name));
    match m
    case Str(_, text) => Json.QuoteLength(text);
    case Arr(_, texts) => TextsRoomSuffices(texts);
    case Obj(_, members) => RoomAllSuffices(members);
  }

  lemma {:induction false} RoomAllSuffices(members: seq<Member>)
    ensures |EncodeMembers(members)| <= RoomAll(members)
    decreases members, 0
  {
    if members != [] {
      RoomSuffices(members[0]);
      RoomAllSuffices(members[1..]);
    }
  }

  lemma RoomOfThree(a: Member, b: Member, c: Member)
    ensures RoomAll([b, c]) == Room(b) + Room(c) + 2 && RoomAll([a, b, c]) == Room(a) + Room(b) + Room(c) + 3
  {
    assert [a, b, c][1..] == [b, c] && [b, c][1..] == [c] && [c][1..] == [];
    assert RoomAll([c]) == Room(c) + 1;
  }

  lemma RoomOfSeven(ms: seq<Member>)
    requires |ms| == 7
    ensures RoomAll(ms) ==
      Room(ms[0]) + Room(ms[1]) + Room(ms[2]) + Room(ms[3]) + Room(ms[4]) + Room(ms[5]) + Room(ms[6]) + 7
  {
    RoomOfThree(ms[4], ms[5], ms[6]);
    assert ms[4..] == [ms[4], ms[5], ms[6]];
    assert ms[3..][1..] == ms[4..] && ms[2..][1..] == ms[3..] && ms[1..][1..] == ms[2..];
    assert RoomAll(ms[3..]) == Room(ms[3]) + 1 + RoomAll(ms[4..]);
    assert RoomAll(ms[2..]) == Room(ms[2]) + 1 + RoomAll(ms[3..]);
    assert RoomAll(ms[1..]) == Room(ms[1]) + 1 + RoomAll(ms[2..]);
  }

  /** A small environment. */
  function Small(): (c: Content)
  {
    Content(1, EXECUTION_PROFILE, [0x61], [0x61], [0x61], ARTIFACT_FORMAT, ARTIFACT_PATH, Zeros(64),
            [], [0x61], [[0x61]], [], [TMP, WORK], [0x61], Placeholder(), Placeholder())
  }

  lemma StringsRoom(name: string, x: string, a: Bytes, y: string, b: Bytes, z: string, c: Bytes)
    ensures Room(Obj(name, [Str(x, a), Str(y, b), Str(z, c)])) ==
      6 * (|name| + |x| + |y| + |z| + |a| + |b| + |c|) + 23
  {
    RoomOfThree(Str(x, a), Str(y, b), Str(z, c));
  }

  lemma ListsRoom(name: string, first: Member, y: string, texts: seq<Bytes>)
    ensures Room(Obj(name, [first, Arr(y, texts)])) == 6 * (|name| + |y|) + 12 + Room(first) + TextsRoom(texts)
  {
    RoomOfThree(first, first, Arr(y, texts));
  }

  lemma SmallTexts()
    ensures TextsRoom([]) == 0 && TextsRoom([[0x61]]) == 9 && TextsRoom([TMP, WORK]) == 60
  {
    assert [[0x61]][1..] == [] && [TMP, WORK][1..] == [WORK] && [WORK][1..] == [];
    assert TextsRoom([WORK]) == 6 * 5 + 3;
  }

  lemma SmallRoom()
    ensures RoomAll(Members(Small())) <= 6000
  {
    var c := Small();
    SmallTexts();
    RoomOfSeven(Members(c));
    StringsRoom(KEY_LANGUAGE, KEY_NAME, c.languageName, KEY_VERSION, c.languageVersion, KEY_IMPLEMENTATION,
                c.languageImplementation);
    StringsRoom(KEY_ARTIFACT, KEY_FORMAT, c.artifactFormat, KEY_PATH, c.artifactPath, KEY_SHA256, c.artifactSha256);
    ListsRoom(KEY_COMMANDS, Str(KEY_DEFAULT, c.defaultCommand), KEY_AVAILABLE, c.availableCommands);
    ListsRoom(KEY_FILESYSTEM, Arr(KEY_IMMUTABLE, c.immutable), KEY_WRITABLE, c.writable);
    StringsRoom(KEY_BUILD, KEY_TOOLCHAIN_ID, c.toolchainId, KEY_SOURCE_DIGEST, c.sourceDigest, KEY_LOCK_DIGEST,
                c.lockDigest);
  }

  lemma SmallEncoding()
    ensures |EncodeManifest(Manifest(Placeholder(), Small()))| <= MAX_MANIFEST_BYTES
  {
    SmallRoom();
    RoomAllSuffices(Members(Small()));
    Json.QuoteLength(Ascii(KEY_SCHEMA_VERSION));
    Json.QuoteLength(Ascii(KEY_ENVIRONMENT_ID));
    Json.QuoteLength(Placeholder());
    assert |Json.Decimal(1)| == 1;
  }

  lemma SmallFields()
    ensures FixedFieldsValid(Small())
  {
    PlaceholderValid();
  }

  lemma SmallLists()
    ensures ListsValid(Small())
  {
    assert TokenByte(0x61);
  }

  lemma SmallWidths()
    ensures Fits(Small())
  {
    var fields := Fields(Small());
    forall i | 0 <= i < |fields| ensures FieldFits(fields[i]) {
    }
  }

  lemma SmallIsValid()
    ensures ValidContent(Small()) && Fits(Small())
  {
    SmallEncoding();
    SmallFields();
    SmallLists();
    SmallWidths();
  }

  /** The hypotheses of this module can be met: some manifest is accepted. */
  lemma AcceptedManifest() returns (lib: Library, m: Manifest)
    ensures Fits(m.content) && ValidContent(m.content) && Decodes(lib, m)
    ensures FromJson(lib, EncodeManifest(m)) == Ok(m)
  {
    var digest: Digest := seq(32, _ => 0);
    SmallIsValid();
    var c := Small();
    m := Manifest(SHA256_PREFIX + Hex(digest), c);
    lib := Library(_ => digest, _ => Some(1), _ => Some(m));
    assert c.schemaVersion == 1 && IdOf(lib, c) == m.environmentId;
    CalculatedManifestParses(lib, c);
  }
}
