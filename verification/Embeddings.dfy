/**
 Portable embedding artifacts: canonical JSON lines, one header and one record for each chunk in order
 of chunk ID. Text stands for its UTF-8 bytes; the JSON codec and the norm test are parameters.
 */
module Embeddings {
  import opened Prelude
  import opened Identifiers
  import opened Crypto
  import opened Sorting

  datatype Normalization = Unnormalized | L2 | OtherNormalization(text: string)

  datatype ModelIdentity = ModelIdentity(
    weights: string, tokenizer: string, runtime: string, dimension: int, normalization: Normalization,
    quantization: string)

  /** A number of a vector as it arrives: an integer, a double, or nothing of the kind. A finite double is
      mantissa times two to the exponent. */
  datatype Number = Whole(value: int) | Finite(mantissa: int, exponent: int) | NegativeZero | NotFinite | NotANumber

  /** Each finite double is one pair: the mantissa is odd, or the pair is zero. */
  predicate NormalForm(n: Number) {
    n.Finite? ==> n.mantissa % 2 != 0 || n == Finite(0, 0)
  }

  type Float = n: Number | NormalForm(n) witness Finite(0, 0)

  datatype Chunk = Chunk(id: string, content: string, digest: Digest<string>)

  datatype Binding = Binding(chunkId: string, content: Digest<string>, model: Digest<ModelIdentity>, vector: seq<Float>)

  datatype VectorRecord = VectorRecord(
    chunkId: string, content: Digest<string>, model: Digest<ModelIdentity>, vector: seq<Float>,
    vectorDigest: Digest<Binding>)

  datatype Header = Header(supported: bool, identity: ModelIdentity, identityDigest: Digest<ModelIdentity>, count: int)

  datatype Json = HeaderLine(header: Header) | VectorLine(record: VectorRecord) | OtherLine(tag: nat)

  datatype Artifact = Artifact(identity: ModelIdentity, records: seq<VectorRecord>, aggregate: Digest<string>)

  /** `unit` is the test that a vector has length one up to the tolerance, and `double` turns an integer
      into a double, which is not finite when the integer is too large. */
  datatype Codec = Codec(
    encode: Json -> string, decode: string -> Option<Json>, unit: seq<Float> -> bool, double: int -> Float)

  type Embedder = seq<string> -> seq<seq<Float>>

  // ---------------------------------------------------------------- lines

  /** Where `str.splitlines` breaks: line feed, vertical tab, form feed, carriage return, the file, group and
      record separators, and the three Unicode line separators. */
  predicate IsBoundary(c: char) {
    IsControlBoundary(c) || IsUnicodeSeparator(c)
  }

  predicate IsControlBoundary(c: char) {
    10 <= c as int <= 13 || 28 <= c as int <= 30
  }

  predicate IsUnicodeSeparator(c: char) {
    c as int == 0x85 || c as int == 0x2028 || c as int == 0x2029
  }

  predicate Unbroken(s: string) {
    forall i :: 0 <= i < |s| ==> !IsBoundary(s[i])
  }

  /** The first boundary at or after `i`. */
  function Boundary(s: string, i: nat): (k: nat)
    requires i <= |s|
    ensures i <= k <= |s| && (k < |s| ==> IsBoundary(s[k]))
    ensures forall j :: i <= j < k ==> !IsBoundary(s[j])
    decreases |s| - i
  {
    if i == |s| || IsBoundary(s[i]) then i else Boundary(s, i + 1)
  }

  /** A carriage return and a line feed are one boundary. */
  function BoundaryLength(s: string, k: nat): (n: nat)
    requires k < |s|
    ensures 1 <= n && k + n <= |s|
  {
    if s[k] as int == 13 && k + 1 < |s| && s[k + 1] as int == 10 then 2 else 1
  }

  /** `str.splitlines` */
  function SplitLines(s: string): seq<string>
    decreases |s|
  {
    if s == "" then []
    else
      var k := Boundary(s, 0);
      if k == |s| then [s] else [s[..k]] + SplitLines(s[k + BoundaryLength(s, k)..])
  }

  const LF: char := 10 as char

  /** Each line and a line feed after it. */
  function Join(lines: seq<string>): string {
    if lines == [] then "" else lines[0] + [LF] + Join(lines[1..])
  }

  lemma FirstLine(l: string, rest: string)
    requires Unbroken(l)
    ensures SplitLines(l + [LF] + rest) == [l] + SplitLines(rest)
  {
    var s := l + [LF] + rest;
    var k := Boundary(s, 0);
    assert forall j :: 0 <= j < |l| ==> s[j] == l[j];
    assert s[|l|] == LF;
    assert k == |l|;
    assert s[..k] == l && s[k + 1..] == rest;
  }

  lemma {:induction false} SplitInvertsJoin(lines: seq<string>)
    requires forall i :: 0 <= i < |lines| ==> Unbroken(lines[i])
    ensures SplitLines(Join(lines)) == lines
  {
    if lines != [] {
      SplitInvertsJoin(lines[1..]);
      FirstLine(lines[0], Join(lines[1..]));
    }
  }

  function Boundaries(s: string): nat {
    if s == "" then 0 else (if IsBoundary(s[0]) then 1 else 0) + Boundaries(s[1..])
  }

  lemma {:induction false} BoundariesConcat(a: string, b: string)
    ensures Boundaries(a + b) == Boundaries(a) + Boundaries(b)
  {
    if a == "" {
      assert a + b == b;
    } else {
      assert (a + b)[1..] == a[1..] + b;
      BoundariesConcat(a[1..], b);
    }
  }

  lemma {:induction false} BoundariesZeroIff(s: string)
    ensures Boundaries(s) == 0 <==> Unbroken(s)
  {
    if s != "" {
      BoundariesZeroIff(s[1..]);
      assert forall i :: 0 <= i < |s| - 1 ==> s[1..][i] == s[i + 1];
      if Unbroken(s[1..]) && !IsBoundary(s[0]) {
        forall i | 0 <= i < |s| ensures !IsBoundary(s[i]) {
          assert i > 0 ==> s[i] == s[1..][i - 1];
        }
      }
    }
  }

  predicate NoCarriageReturn(s: string) {
    forall i :: 0 <= i < |s| ==> s[i] as int != 13
  }

  /** The text ends in a boundary and holds no carriage return. */
  predicate Terminated(s: string) {
    NoCarriageReturn(s) && (s != "" ==> IsBoundary(s[|s| - 1]))
  }

  lemma TerminatedRest(s: string, k: nat)
    requires Terminated(s) && k < |s|
    ensures Terminated(s[k + 1..])
  {
    var rest := s[k + 1..];
    assert forall i :: 0 <= i < |rest| ==> rest[i] == s[k + 1 + i];
  }

  lemma FirstBreak(s: string, k: nat)
    requires Terminated(s) && s != "" && k == Boundary(s, 0)
    ensures k < |s| && SplitLines(s) == [s[..k]] + SplitLines(s[k + 1..])
  {
    assert IsBoundary(s[|s| - 1]);
    assert k <= |s| - 1;
    assert BoundaryLength(s, k) == 1;
  }

  lemma FirstBreakCounts(s: string, k: nat)
    requires k < |s| && IsBoundary(s[k]) && forall j :: 0 <= j < k ==> !IsBoundary(s[j])
    ensures Boundaries(s) == 1 + Boundaries(s[k + 1..])
  {
    var rest := s[k + 1..];
    BoundariesConcat(s[..k], [s[k]] + rest);
    BoundariesZeroIff(s[..k]);
    assert s[..k] + ([s[k]] + rest) == s;
    assert ([s[k]] + rest)[1..] == rest;
  }

  /** Without carriage returns, a text that ends in a boundary has as many lines as boundaries. */
  lemma {:induction false} LineCount(s: string)
    requires Terminated(s)
    ensures |SplitLines(s)| == Boundaries(s)
    decreases |s|
  {
    if s != "" {
      var k := Boundary(s, 0);
      FirstBreak(s, k);
      FirstBreakCounts(s, k);
      TerminatedRest(s, k);
      LineCount(s[k + 1..]);
    }
  }

  function BrokenCount(lines: seq<string>): nat {
    if lines == [] then 0 else Boundaries(lines[0]) + BrokenCount(lines[1..])
  }

  lemma {:induction false} JoinBoundaries(lines: seq<string>)
    requires forall i :: 0 <= i < |lines| ==> NoCarriageReturn(lines[i])
    ensures Boundaries(Join(lines)) == |lines| + BrokenCount(lines)
    ensures NoCarriageReturn(Join(lines)) && (lines != [] ==> Join(lines) != "" && Join(lines)[|Join(lines)| - 1] == LF)
  {
    if lines != [] {
      JoinBoundaries(lines[1..]);
      BoundariesConcat(lines[0] + [LF], Join(lines[1..]));
      BoundariesConcat(lines[0], [LF]);
    }
  }

  lemma {:induction false} BrokenCountPositive(lines: seq<string>, i: nat)
    requires i < |lines| && !Unbroken(lines[i])
    ensures BrokenCount(lines) > 0
  {
    BoundariesZeroIff(lines[0]);
    if i > 0 {
      BrokenCountPositive(lines[1..], i - 1);
    }
  }

  // ---------------------------------------------------------------- building

  predicate IdentityOk(m: ModelIdentity) {
    && WellFormedDigest(m.weights) && WellFormedDigest(m.tokenizer) && WellFormedDigest(m.runtime)
    && WellFormedDigest(m.quantization) && m.dimension >= 1 && !m.normalization.OtherNormalization?
  }

  predicate ChunkOk(c: Chunk) {
    c.id != "" && c.digest == Sha256(c.content)
  }

  ghost predicate ChunksOk(cs: seq<Chunk>) {
    (forall c :: c in cs ==> ChunkOk(c)) && DistinctBy(cs, (c: Chunk) => c.id)
  }

  predicate ById(a: Chunk, b: Chunk) {
    StringLe(a.id, b.id)
  }

  function Ordered(cs: seq<Chunk>): seq<Chunk> {
    Sort(cs, ById)
  }

  method NormalizeChunks(cs: seq<Chunk>) returns (r: Option<seq<Chunk>>)
    ensures r.Some? <==> ChunksOk(cs)
    ensures r.Some? ==> r.value == Ordered(cs)
  {
    var seen: set<string> := {};
    for i := 0 to |cs|
      invariant forall k :: 0 <= k < i ==> ChunkOk(cs[k])
      invariant forall j, k :: 0 <= j < k < i ==> cs[j].id != cs[k].id
      invariant seen == set k | 0 <= k < i :: cs[k].id
    {
      if !ChunkOk(cs[i]) {
        return None;
      }
      if cs[i].id in seen {
        var k :| 0 <= k < i && cs[k].id == cs[i].id;
        var key := (c: Chunk) => c.id;
        assert key(cs[k]) == key(cs[i]);
        return None;
      }
      seen := seen + {cs[i].id};
    }
    return Some(Ordered(cs));
  }

  /** An integer becomes a double, and negative zero is zero. */
  function AsDouble(p: Codec, n: Float): Float {
    match n
    case Whole(i) => p.double(i)
    case NegativeZero => Finite(0, 0)
    case _ => n
  }

  function Canonical(p: Codec, v: seq<Float>): (r: seq<Float>)
    ensures |r| == |v| && forall i :: 0 <= i < |v| ==> r[i] == AsDouble(p, v[i])
  {
    seq(|v|, i requires 0 <= i < |v| => AsDouble(p, v[i]))
  }

  predicate VectorOk(p: Codec, m: ModelIdentity, v: seq<Float>) {
    && |v| == m.dimension
    && (forall i :: 0 <= i < |v| ==> AsDouble(p, v[i]).Finite?)
    && (m.normalization == L2 ==> p.unit(Canonical(p, v)))
  }

  function RecordFor(p: Codec, m: ModelIdentity, c: Chunk, v: seq<Float>): VectorRecord {
    VectorRecord(c.id, c.digest, Sha256(m), Canonical(p, v), Sha256(Binding(c.id, c.digest, Sha256(m), Canonical(p, v))))
  }

  function HeaderFor(m: ModelIdentity, count: nat): Header {
    Header(true, m, Sha256(m), count)
  }

  function Contents(cs: seq<Chunk>): seq<string> {
    Map(cs, (c: Chunk) => c.content)
  }

  function VectorsOf(cs: seq<Chunk>, embed: Embedder): seq<seq<Float>> {
    embed(Contents(Ordered(cs)))
  }

  ghost predicate Buildable(p: Codec, cs: seq<Chunk>, m: ModelIdentity, embed: Embedder) {
    && IdentityOk(m) && ChunksOk(cs)
    && |VectorsOf(cs, embed)| == |Ordered(cs)|
    && forall i :: 0 <= i < |VectorsOf(cs, embed)| ==> VectorOk(p, m, VectorsOf(cs, embed)[i])
  }

  function Records(p: Codec, cs: seq<Chunk>, m: ModelIdentity, vectors: seq<seq<Float>>): (r: seq<VectorRecord>)
    requires |vectors| == |cs|
    ensures |r| == |cs| && forall i :: 0 <= i < |r| ==> r[i] == RecordFor(p, m, cs[i], vectors[i])
  {
    seq(|cs|, i requires 0 <= i < |cs| => RecordFor(p, m, cs[i], vectors[i]))
  }

  method BuildEmbeddingRecords(p: Codec, cs: seq<Chunk>, m: ModelIdentity, embed: Embedder)
    returns (r: Option<(Header, seq<VectorRecord>)>)
    ensures r.Some? <==> Buildable(p, cs, m, embed)
    ensures r.Some? ==> r.value == (HeaderFor(m, |Ordered(cs)|), Records(p, Ordered(cs), m, VectorsOf(cs, embed)))
  {
    if !IdentityOk(m) {
      return None;
    }
    var normalized := NormalizeChunks(cs);
    if normalized.None? {
      return None;
    }
    var chunks := normalized.value;
    var vectors := embed(Contents(chunks));
    if |vectors| != |chunks| {
      return None;
    }
    var records: seq<VectorRecord> := [];
    for i := 0 to |chunks|
      invariant |records| == i
      invariant forall k :: 0 <= k < i ==> VectorOk(p, m, vectors[k]) && records[k] == RecordFor(p, m, chunks[k], vectors[k])
    {
      if !VectorOk(p, m, vectors[i]) {
        return None;
      }
      records := records + [RecordFor(p, m, chunks[i], vectors[i])];
    }
    assert records == Records(p, chunks, m, vectors);
    return Some((HeaderFor(m, |records|), records));
  }

  function LinesOf(p: Codec, h: Header, records: seq<VectorRecord>): (r: seq<string>)
    ensures |r| == |records| + 1 && r[0] == p.encode(HeaderLine(h))
    ensures forall k :: 0 <= k < |records| ==> r[k + 1] == p.encode(VectorLine(records[k]))
  {
    [p.encode(HeaderLine(h))] + seq(|records|, k requires 0 <= k < |records| => p.encode(VectorLine(records[k])))
  }

  ghost function Rendered(p: Codec, cs: seq<Chunk>, m: ModelIdentity, embed: Embedder): Option<string> {
    if Buildable(p, cs, m, embed)
    then Some(Join(LinesOf(p, HeaderFor(m, |Ordered(cs)|), Records(p, Ordered(cs), m, VectorsOf(cs, embed)))))
    else None
  }

  method RenderEmbeddingJsonl(p: Codec, cs: seq<Chunk>, m: ModelIdentity, embed: Embedder) returns (text: Option<string>)
    ensures text == Rendered(p, cs, m, embed)
  {
    var built := BuildEmbeddingRecords(p, cs, m, embed);
    if built.None? {
      return None;
    }
    return Some(Join(LinesOf(p, built.value.0, built.value.1)));
  }

  // ---------------------------------------------------------------- reading

  /** A line that is the canonical text of what it decodes to. */
  function ParseLine(p: Codec, line: string): Option<Json> {
    match p.decode(line)
    case Some(v) => if p.encode(v) == line then Some(v) else None
    case None => None
  }

  predicate HeaderOk(h: Header, lines: nat) {
    h.supported && IdentityOk(h.identity) && h.identityDigest == Sha256(h.identity) && h.count == lines - 1
  }

  predicate RecordOk(p: Codec, m: ModelIdentity, r: VectorRecord) {
    && r.chunkId != "" && r.model == Sha256(m) && VectorOk(p, m, r.vector)
    && r.vectorDigest == Sha256(Binding(r.chunkId, r.content, r.model, Canonical(p, r.vector)))
  }

  /** The record on a line, with its vector normalized. */
  function RecordOn(p: Codec, m: ModelIdentity, line: string): Option<VectorRecord> {
    match ParseLine(p, line)
    case Some(VectorLine(r)) => if RecordOk(p, m, r) then Some(r.(vector := Canonical(p, r.vector))) else None
    case _ => None
  }

  predicate IdsIncrease(rs: seq<VectorRecord>) {
    forall i :: 0 < i < |rs| ==> Above(rs[i], rs[i - 1].chunkId)
  }

  predicate Above(r: VectorRecord, id: string) {
    !StringLe(r.chunkId, id)
  }

  predicate HasChunk(cs: seq<Chunk>, r: VectorRecord) {
    exists c :: c in cs && c.id == r.chunkId && c.digest == r.content
  }

  predicate HasRecord(rs: seq<VectorRecord>, c: Chunk) {
    exists r :: r in rs && r.chunkId == c.id
  }

  /** The chunks and the records are the same IDs with the same content digests. */
  ghost predicate MatchChunks(rs: seq<VectorRecord>, cs: seq<Chunk>) {
    && ChunksOk(cs)
    && (forall r :: r in rs ==> HasChunk(cs, r))
    && forall c :: c in cs ==> HasRecord(rs, c)
  }

  /** The first line is the header of this model and of as many records as there are further lines. */
  predicate HeaderReads(p: Codec, text: string, aggregate: Option<Digest<string>>, m: ModelIdentity) {
    && (aggregate.Some? ==> aggregate.value == Sha256(text))
    && text != "" && text[|text| - 1] == LF
    && var lines := SplitLines(text);
       && lines != []
       && match ParseLine(p, lines[0])
          case Some(HeaderLine(h)) => HeaderOk(h, |lines|) && h.identity == m
          case _ => false
  }

  /** The records on the lines, in order, each above the one before it. */
  ghost predicate RecordsOn(p: Codec, m: ModelIdentity, lines: seq<string>, rs: seq<VectorRecord>) {
    && |rs| == |lines|
    && (forall k :: 0 <= k < |rs| ==> RecordOn(p, m, lines[k]) == Some(rs[k]))
    && IdsIncrease(rs)
  }

  /** What `read_embedding_jsonl` accepts, and what it then returns. */
  ghost predicate Reads(p: Codec, text: string, expected: Option<seq<Chunk>>, aggregate: Option<Digest<string>>, a: Artifact) {
    && HeaderReads(p, text, aggregate, a.identity)
    && RecordsOn(p, a.identity, SplitLines(text)[1..], a.records)
    && (expected.Some? ==> MatchChunks(a.records, expected.value))
    && a.aggregate == Sha256(text)
  }

  method ReadHeader(p: Codec, text: string, aggregate: Option<Digest<string>>) returns (identity: Option<ModelIdentity>)
    ensures identity.Some? ==> HeaderReads(p, text, aggregate, identity.value)
    ensures forall m :: HeaderReads(p, text, aggregate, m) ==> identity == Some(m)
  {
    if (aggregate.Some? && aggregate.value != Sha256(text)) || text == "" || text[|text| - 1] != LF {
      return None;
    }
    var lines := SplitLines(text);
    if lines == [] {
      return None;
    }
    var parsed := ParseLine(p, lines[0]);
    if parsed.None? || !parsed.value.HeaderLine? || !HeaderOk(parsed.value.header, |lines|) {
      return None;
    }
    return Some(parsed.value.header.identity);
  }

  lemma RecordsOnPrefix(p: Codec, m: ModelIdentity, lines: seq<string>, n: nat, rs: seq<VectorRecord>)
    requires n <= |lines| && RecordsOn(p, m, lines, rs)
    ensures RecordsOn(p, m, lines[..n], rs[..n])
  {
  }

  lemma RecordsOnUnique(p: Codec, m: ModelIdentity, lines: seq<string>, rs: seq<VectorRecord>, qs: seq<VectorRecord>)
    requires RecordsOn(p, m, lines, rs) && RecordsOn(p, m, lines, qs)
    ensures rs == qs
  {
    forall k | 0 <= k < |rs| ensures rs[k] == qs[k] {
      assert RecordOn(p, m, lines[k]) == Some(rs[k]) && RecordOn(p, m, lines[k]) == Some(qs[k]);
    }
  }

  lemma RecordsOnNext(p: Codec, m: ModelIdentity, lines: seq<string>, i: nat, records: seq<VectorRecord>, rs: seq<VectorRecord>)
    requires i < |lines| && RecordsOn(p, m, lines[..i], records) && RecordsOn(p, m, lines, rs)
    ensures RecordOn(p, m, lines[i]) == Some(rs[i]) && (i > 0 ==> Above(rs[i], records[i - 1].chunkId))
  {
    RecordsOnPrefix(p, m, lines, i, rs);
    RecordsOnUnique(p, m, lines[..i], records, rs[..i]);
    assert i > 0 ==> rs[..i][i - 1] == rs[i - 1];
  }

  method ReadRecords(p: Codec, m: ModelIdentity, lines: seq<string>) returns (r: Option<seq<VectorRecord>>)
    ensures r.Some? ==> RecordsOn(p, m, lines, r.value)
    ensures r.None? ==> forall rs :: !RecordsOn(p, m, lines, rs)
  {
    var records: seq<VectorRecord> := [];
    for i := 0 to |lines|
      invariant RecordsOn(p, m, lines[..i], records)
    {
      var record := RecordOn(p, m, lines[i]);
      if record.None? || (i > 0 && !Above(record.value, records[i - 1].chunkId)) {
        forall rs: seq<VectorRecord> | RecordsOn(p, m, lines, rs)
          ensures RecordOn(p, m, lines[i]) == Some(rs[i]) && (i > 0 ==> Above(rs[i], records[i - 1].chunkId))
        {
          RecordsOnNext(p, m, lines, i, records, rs);
        }
        return None;
      }
      records := records + [record.value];
    }
    assert lines[..|lines|] == lines;
    return Some(records);
  }

  /** Compare the records with the dictionary of the expected chunks. */
  method CheckExpected(rs: seq<VectorRecord>, cs: seq<Chunk>) returns (ok: bool)
    ensures ok <==> MatchChunks(rs, cs)
  {
    var normalized := NormalizeChunks(cs);
    if normalized.None? {
      return false;
    }
    for i := 0 to |rs|
      invariant forall k :: 0 <= k < i ==> HasChunk(cs, rs[k])
    {
      if !HasChunk(cs, rs[i]) {
        assert rs[i] in rs;
        return false;
      }
    }
    assert forall r :: r in rs ==> HasChunk(cs, r);
    return forall c :: c in cs ==> HasRecord(rs, c);
  }

  method ReadEmbeddingJsonl(p: Codec, text: string, expected: Option<seq<Chunk>>, aggregate: Option<Digest<string>>)
    returns (r: Option<Artifact>)
    ensures r.Some? ==> Reads(p, text, expected, aggregate, r.value)
    ensures forall a :: Reads(p, text, expected, aggregate, a) ==> r == Some(a)
  {
    var identity := ReadHeader(p, text, aggregate);
    if identity.None? {
      return None;
    }
    var lines := SplitLines(text)[1..];
    var records := ReadRecords(p, identity.value, lines);
    if records.None? {
      return None;
    }
    forall a | Reads(p, text, expected, aggregate, a) ensures a.records == records.value {
      RecordsOnUnique(p, identity.value, lines, a.records, records.value);
    }
    if expected.Some? {
      var matches := CheckExpected(records.value, expected.value);
      if !matches {
        return None;
      }
    }
    return Some(Artifact(identity.value, records.value, Sha256(text)));
  }
}
