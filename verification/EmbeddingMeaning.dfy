/** What an embedding artifact is: what is built, and what is read, number by number and line by line. */
module EmbeddingMeaning {
  import opened Prelude
  import opened Identifiers
  import opened Crypto
  import opened Sorting
  import opened Embeddings

  /** A complete identity: four digests, a positive dimension, and no normalization or L2. */
  predicate Complete(m: ModelIdentity) {
    && WellFormedDigest(m.weights) && WellFormedDigest(m.tokenizer) && WellFormedDigest(m.runtime)
    && WellFormedDigest(m.quantization) && m.dimension > 0 && (m.normalization == Unnormalized || m.normalization == L2)
  }

  /** The number a vector holds after it is taken in; `None` for what is no finite number. */
  function Taken(p: Codec, n: Float): Option<Float> {
    match n
    case Whole(i) => if p.double(i).Finite? then Some(p.double(i)) else None
    case Finite(_, _) => Some(n)
    case NegativeZero => Some(Finite(0, 0))
    case NotFinite => None
    case NotANumber => None
  }

  /** `kept` is the vector taken in: of the right length, every number finite, of length one where that is declared. */
  predicate TakenIn(p: Codec, m: ModelIdentity, v: seq<Float>, kept: seq<Float>) {
    && |v| == m.dimension == |kept| && (forall i :: 0 <= i < |v| ==> Taken(p, v[i]) == Some(kept[i]))
    && (m.normalization == L2 ==> p.unit(kept))
  }

  lemma VectorOkIff(p: Codec, m: ModelIdentity, v: seq<Float>, kept: seq<Float>)
    ensures TakenIn(p, m, v, kept) <==> VectorOk(p, m, v) && kept == Canonical(p, v)
  {
    if TakenIn(p, m, v, kept) {
      forall i | 0 <= i < |v| ensures kept[i] == AsDouble(p, v[i]) && AsDouble(p, v[i]).Finite? {
        assert Taken(p, v[i]) == Some(kept[i]);
      }
      assert kept == Canonical(p, v);
    }
  }

  /** The chunks have different IDs, none empty, and name the digests of their contents. */
  ghost predicate Wellformed(cs: seq<Chunk>) {
    && (forall i :: 0 <= i < |cs| ==> cs[i].id != "" && cs[i].digest == Sha256(cs[i].content))
    && forall i, j :: 0 <= i < j < |cs| ==> cs[i].id != cs[j].id
  }

  lemma ChunksOkIff(cs: seq<Chunk>)
    ensures ChunksOk(cs) <==> Wellformed(cs)
  {
    var key := (c: Chunk) => c.id;
    assert forall i :: 0 <= i < |cs| ==> cs[i] in cs && key(cs[i]) == cs[i].id;
    if Wellformed(cs) {
      assert DistinctBy(cs, key);
    }
    if ChunksOk(cs) {
      assert DistinctBy(cs, key);
      assert forall i, j :: 0 <= i < j < |cs| ==> key(cs[i]) != key(cs[j]);
    }
  }

  ghost predicate Acceptable(p: Codec, m: ModelIdentity, v: seq<Float>) {
    exists kept :: TakenIn(p, m, v, kept)
  }

  lemma AcceptableIff(p: Codec, m: ModelIdentity, v: seq<Float>)
    ensures VectorOk(p, m, v) <==> Acceptable(p, m, v)
  {
    VectorOkIff(p, m, v, Canonical(p, v));
    if kept :| TakenIn(p, m, v, kept) {
      VectorOkIff(p, m, v, kept);
    }
  }

  /** Something is built exactly of a complete identity, well-formed chunks, and one vector for each chunk that can be
      taken in. */
  lemma BuildableIff(p: Codec, cs: seq<Chunk>, m: ModelIdentity, embed: Embedder)
    ensures Rendered(p, cs, m, embed).Some? <==>
            && Complete(m) && Wellformed(cs)
            && var vectors := embed(Contents(Ordered(cs)));
               |vectors| == |Ordered(cs)| && forall i :: 0 <= i < |vectors| ==> Acceptable(p, m, vectors[i])
  {
    ChunksOkIff(cs);
    var vectors := embed(Contents(Ordered(cs)));
    forall i | 0 <= i < |vectors| ensures VectorOk(p, m, vectors[i]) <==> Acceptable(p, m, vectors[i]) {
      AcceptableIff(p, m, vectors[i]);
    }
  }

  /** The record of a chunk: its ID and content digest, the digest of the model, the vector as taken in, and the digest
      that binds the four. */
  predicate RecordOf(p: Codec, m: ModelIdentity, c: Chunk, v: seq<Float>, r: VectorRecord) {
    && r.chunkId == c.id && r.content == c.digest && r.model == Sha256(m) && TakenIn(p, m, v, r.vector)
    && r.vectorDigest == Sha256(Binding(c.id, c.digest, Sha256(m), r.vector))
  }

  lemma RecordForIs(p: Codec, m: ModelIdentity, c: Chunk, v: seq<Float>, r: VectorRecord)
    requires VectorOk(p, m, v)
    ensures RecordOf(p, m, c, v, r) <==> r == RecordFor(p, m, c, v)
  {
    VectorOkIff(p, m, v, r.vector);
    VectorOkIff(p, m, v, Canonical(p, v));
  }

  /** What is rendered is the line of a header, then one line for each chunk in order of its ID. */
  lemma RenderedOnFields(p: Codec, cs: seq<Chunk>, m: ModelIdentity, embed: Embedder) returns (rs: seq<VectorRecord>)
    requires Rendered(p, cs, m, embed).Some?
    ensures |rs| == |cs| && |Ordered(cs)| == |cs| && |embed(Contents(Ordered(cs)))| == |cs|
    ensures forall i :: 0 <= i < |rs| ==> RecordOf(p, m, Ordered(cs)[i], embed(Contents(Ordered(cs)))[i], rs[i])
    ensures Rendered(p, cs, m, embed).value ==
            Join([p.encode(HeaderLine(Header(true, m, Sha256(m), |cs|)))]
                 + seq(|rs|, i requires 0 <= i < |rs| => p.encode(VectorLine(rs[i]))))
  {
    OrderedLength(cs);
    var vectors := VectorsOf(cs, embed);
    rs := Records(p, Ordered(cs), m, vectors);
    forall i | 0 <= i < |rs| ensures RecordOf(p, m, Ordered(cs)[i], vectors[i], rs[i]) {
      RecordForIs(p, m, Ordered(cs)[i], vectors[i], rs[i]);
    }
    assert LinesOf(p, HeaderFor(m, |cs|), rs) ==
           [p.encode(HeaderLine(Header(true, m, Sha256(m), |cs|)))] + seq(|rs|, i requires 0 <= i < |rs| => p.encode(VectorLine(rs[i])));
  }

  lemma OrderedLength(cs: seq<Chunk>)
    ensures |Ordered(cs)| == |cs|
  {
    SortKeepsLength(cs, ById);
  }

  lemma {:induction false} SortKeepsLength<T>(s: seq<T>, le: (T, T) -> bool)
    ensures |Sort(s, le)| == |s|
  {
    if s != [] {
      SortKeepsLength(s[..|s| - 1], le);
      InsertKeepsLength(Sort(s[..|s| - 1], le), s[|s| - 1], le);
    }
  }

  lemma {:induction false} InsertKeepsLength<T>(s: seq<T>, x: T, le: (T, T) -> bool)
    ensures |Insert(s, x, le)| == |s| + 1
  {
    if s != [] && !le(s[|s| - 1], x) {
      InsertKeepsLength(s[..|s| - 1], x, le);
    }
  }

  // ---------------------------------------------------------------- reading

  /** The line is the canonical text of the value. */
  predicate Stands(p: Codec, line: string, v: Json) {
    p.decode(line) == Some(v) && p.encode(v) == line
  }

  /** The line holds a record of the model; `r` is it with its vector taken in. */
  ghost predicate HoldsRecord(p: Codec, m: ModelIdentity, line: string, r: VectorRecord) {
    exists v: seq<Float> ::
      && Stands(p, line, VectorLine(r.(vector := v))) && TakenIn(p, m, v, r.vector)
      && r.chunkId != "" && r.model == Sha256(m)
      && r.vectorDigest == Sha256(Binding(r.chunkId, r.content, Sha256(m), r.vector))
  }

  lemma RecordOnIff(p: Codec, m: ModelIdentity, line: string, r: VectorRecord)
    ensures RecordOn(p, m, line) == Some(r) <==> HoldsRecord(p, m, line, r)
  {
    if RecordOn(p, m, line) == Some(r) {
      var q := ParseLine(p, line).value.record;
      VectorOkIff(p, m, q.vector, r.vector);
      assert q == r.(vector := q.vector);
    }
    if v: seq<Float> :| Stands(p, line, VectorLine(r.(vector := v))) && TakenIn(p, m, v, r.vector)
                        && r.chunkId != "" && r.model == Sha256(m)
                        && r.vectorDigest == Sha256(Binding(r.chunkId, r.content, Sha256(m), r.vector)) {
      VectorOkIff(p, m, v, r.vector);
      assert r.(vector := v).(vector := r.vector) == r;
    }
  }

  /** The first line holds the header of the artifact. */
  ghost predicate HoldsHeader(p: Codec, line: string, m: ModelIdentity, count: int) {
    Complete(m) && Stands(p, line, HeaderLine(Header(true, m, Sha256(m), count)))
  }

  /** One line a record, in strict order of chunk IDs. */
  ghost predicate HoldRecords(p: Codec, m: ModelIdentity, lines: seq<string>, rs: seq<VectorRecord>) {
    && |lines| == |rs| && (forall i :: 0 <= i < |rs| ==> HoldsRecord(p, m, lines[i], rs[i]))
    && forall i :: 0 < i < |rs| ==> StringLt(rs[i - 1].chunkId, rs[i].chunkId)
  }

  lemma RecordsOnIff(p: Codec, m: ModelIdentity, lines: seq<string>, rs: seq<VectorRecord>)
    ensures RecordsOn(p, m, lines, rs) <==> HoldRecords(p, m, lines, rs)
  {
    forall line, r ensures RecordOn(p, m, line) == Some(r) <==> HoldsRecord(p, m, line, r) {
      RecordOnIff(p, m, line, r);
    }
    forall i | 0 < i < |rs| ensures Above(rs[i], rs[i - 1].chunkId) <==> StringLt(rs[i - 1].chunkId, rs[i].chunkId) {
      StringLeTotal(rs[i].chunkId, rs[i - 1].chunkId);
      StringLeTotal(rs[i].chunkId, rs[i].chunkId);
    }
  }

  /** Well-formed chunks, one of the record's digest for every record and a record for every chunk. */
  ghost predicate Covers(rs: seq<VectorRecord>, cs: seq<Chunk>) {
    && Wellformed(cs)
    && (forall r :: r in rs ==> exists c :: c in cs && c.id == r.chunkId && c.digest == r.content)
    && forall c :: c in cs ==> exists r :: r in rs && r.chunkId == c.id
  }

  lemma CoversIff(rs: seq<VectorRecord>, cs: seq<Chunk>)
    ensures MatchChunks(rs, cs) <==> Covers(rs, cs)
  {
    ChunksOkIff(cs);
  }

  /** Text is read as an artifact exactly when it ends in a line feed, its first line holds the header for as many
      records as there are further lines, these hold the records in strict order of chunk IDs, and digests and
      chunks are the expected ones. */
  lemma ReadsIff(p: Codec, text: string, expected: Option<seq<Chunk>>, aggregate: Option<Digest<string>>, a: Artifact)
    ensures Reads(p, text, expected, aggregate, a) <==>
            && text != "" && text[|text| - 1] == '\n' && a.aggregate == Sha256(text)
            && (aggregate.Some? ==> aggregate.value == Sha256(text))
            && |SplitLines(text)| == |a.records| + 1 && HoldsHeader(p, SplitLines(text)[0], a.identity, |a.records|)
            && HoldRecords(p, a.identity, SplitLines(text)[1..], a.records)
            && (expected.Some? ==> Covers(a.records, expected.value))
  {
    if SplitLines(text) != [] {
      RecordsOnIff(p, a.identity, SplitLines(text)[1..], a.records);
    }
    if expected.Some? {
      CoversIff(a.records, expected.value);
    }
  }
}
