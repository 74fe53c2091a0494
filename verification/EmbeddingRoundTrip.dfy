/** Writer and reader of embedding artifacts invert each other, and exactly when. */
module EmbeddingRoundTrip {
  import opened Prelude
  import opened Crypto
  import opened Sorting
  import opened Embeddings

  /** All numbers of a vector are finite doubles. */
  predicate Plain(v: Json) {
    v.VectorLine? ==> forall i :: 0 <= i < |v.record.vector| ==> v.record.vector[i].Finite?
  }

  /** What canonical JSON promises: decoding inverts encoding on finite doubles; control characters are escaped; of the texts
      in a valid header none and in a record only the chunk ID is free, and the Unicode line separators in
      it are written as they are. */
  ghost predicate Lawful(p: Codec) {
    && (forall v :: Plain(v) ==> p.decode(p.encode(v)) == Some(v))
    && (forall v :: NoControlBoundary(p.encode(v)))
    && (forall h: Header :: IdentityOk(h.identity) ==> NoSeparator(p.encode(HeaderLine(h))))
    && forall r :: NoSeparator(p.encode(VectorLine(r))) <==> NoSeparator(r.chunkId)
  }

  predicate NoControlBoundary(s: string) {
    forall i :: 0 <= i < |s| ==> !IsControlBoundary(s[i])
  }

  predicate NoSeparator(s: string) {
    forall i :: 0 <= i < |s| ==> !IsUnicodeSeparator(s[i])
  }

  // ---------------------------------------------------------------- order of chunks

  lemma ByIdIsPreorder()
    ensures Preorder(ById)
  {
    forall x, y ensures ById(x, y) || ById(y, x) {
      StringLeTotal(x.id, y.id);
    }
    forall x, y, z | ById(x, y) && ById(y, z) ensures ById(x, z) {
      StringLeTransitive(x.id, y.id, z.id);
    }
  }

  lemma DistinctChunksDoNotTie(cs: seq<Chunk>)
    requires DistinctBy(cs, (c: Chunk) => c.id)
    ensures NoTies(cs, ById)
  {
    forall x, y | x in cs && y in cs && ById(x, y) && ById(y, x) ensures x == y {
      StringLeTotal(x.id, y.id);
      SameKeySameElement(cs, (c: Chunk) => c.id, x, y);
    }
  }

  lemma ChunksOkForgetsOrder(a: seq<Chunk>, b: seq<Chunk>)
    requires Permutation(a, b) && ChunksOk(a)
    ensures ChunksOk(b) && Ordered(a) == Ordered(b)
  {
    forall c ensures c in a <==> c in b {
      PermutationMembers(a, b, c);
    }
    PermutationKeepsDistinct(a, b, (c: Chunk) => c.id);
    ByIdIsPreorder();
    DistinctChunksDoNotTie(a);
    SortForgetsOrder(a, b, ById);
  }

  /** Rendering does not depend on the order of the chunks. */
  lemma RenderForgetsOrder(p: Codec, a: seq<Chunk>, b: seq<Chunk>, m: ModelIdentity, embed: Embedder)
    requires Permutation(a, b)
    ensures Rendered(p, a, m, embed) == Rendered(p, b, m, embed)
  {
    if ChunksOk(a) {
      ChunksOkForgetsOrder(a, b);
    }
    if ChunksOk(b) {
      ChunksOkForgetsOrder(b, a);
    }
  }

  // ---------------------------------------------------------------- reading back

  lemma LineIsWhole(p: Codec, r: VectorRecord)
    requires Lawful(p)
    ensures Unbroken(p.encode(VectorLine(r))) <==> NoSeparator(r.chunkId)
  {
    var s := p.encode(VectorLine(r));
    assert NoControlBoundary(s);
    if Unbroken(s) {
      assert forall i :: 0 <= i < |s| ==> !IsUnicodeSeparator(s[i]) by {
        assert forall i :: 0 <= i < |s| ==> !IsBoundary(s[i]);
      }
    }
  }

  lemma HeaderIsWhole(p: Codec, h: Header)
    requires Lawful(p) && IdentityOk(h.identity)
    ensures Unbroken(p.encode(HeaderLine(h)))
  {
    assert NoControlBoundary(p.encode(HeaderLine(h))) && NoSeparator(p.encode(HeaderLine(h)));
  }

  ghost predicate NoSeparators(rs: seq<VectorRecord>) {
    forall k :: 0 <= k < |rs| ==> NoSeparator(rs[k].chunkId)
  }

  /** The text of header and records splits back into their lines exactly when no chunk ID holds a Unicode
      line separator; otherwise it splits into more lines than were written. */
  lemma LinesReadBack(p: Codec, h: Header, rs: seq<VectorRecord>)
    requires Lawful(p) && IdentityOk(h.identity)
    ensures NoSeparators(rs) ==> SplitLines(Join(LinesOf(p, h, rs))) == LinesOf(p, h, rs)
    ensures !NoSeparators(rs) ==> |SplitLines(Join(LinesOf(p, h, rs)))| > |rs| + 1
  {
    var lines := LinesOf(p, h, rs);
    HeaderIsWhole(p, h);
    forall k | 0 <= k < |rs| ensures Unbroken(lines[k + 1]) <==> NoSeparator(rs[k].chunkId) {
      LineIsWhole(p, rs[k]);
    }
    if NoSeparators(rs) {
      assert forall i :: 0 < i < |lines| ==> Unbroken(lines[i]) by {
        forall i | 0 < i < |lines| ensures Unbroken(lines[i]) {
          assert Unbroken(lines[(i - 1) + 1]) <==> NoSeparator(rs[i - 1].chunkId);
        }
      }
      SplitInvertsJoin(lines);
    } else {
      var k :| 0 <= k < |rs| && !NoSeparator(rs[k].chunkId);
      NoReturns(p, h, rs);
      BrokenCountPositive(lines, k + 1);
      JoinBoundaries(lines);
      LineCount(Join(lines));
    }
  }

  lemma NoReturns(p: Codec, h: Header, rs: seq<VectorRecord>)
    requires Lawful(p)
    ensures forall i :: 0 <= i < |LinesOf(p, h, rs)| ==> NoCarriageReturn(LinesOf(p, h, rs)[i])
  {
    var lines := LinesOf(p, h, rs);
    forall i | 0 <= i < |lines| ensures NoCarriageReturn(lines[i]) {
      if i > 0 {
        assert lines[(i - 1) + 1] == p.encode(VectorLine(rs[i - 1]));
      }
      assert NoControlBoundary(lines[i]);
    }
  }

  lemma CanonicalTwice(p: Codec, v: seq<Float>)
    requires forall i :: 0 <= i < |v| ==> AsDouble(p, v[i]).Finite?
    ensures Canonical(p, Canonical(p, v)) == Canonical(p, v)
  {
  }

  lemma BuiltRecordReads(p: Codec, m: ModelIdentity, c: Chunk, v: seq<Float>)
    requires Lawful(p) && ChunkOk(c) && VectorOk(p, m, v)
    ensures RecordOn(p, m, p.encode(VectorLine(RecordFor(p, m, c, v)))) == Some(RecordFor(p, m, c, v))
  {
    CanonicalTwice(p, v);
    assert p.decode(p.encode(VectorLine(RecordFor(p, m, c, v)))) == Some(VectorLine(RecordFor(p, m, c, v)));
  }

  lemma OrderedChunks(cs: seq<Chunk>)
    requires ChunksOk(cs)
    ensures forall c :: c in Ordered(cs) <==> c in cs
    ensures forall i :: 0 < i < |Ordered(cs)| ==> !StringLe(Ordered(cs)[i].id, Ordered(cs)[i - 1].id)
    ensures forall i :: 0 <= i < |Ordered(cs)| ==> ChunkOk(Ordered(cs)[i])
  {
    ByIdIsPreorder();
    SortSorts(cs, ById);
    var key := (c: Chunk) => c.id;
    PermutationKeepsDistinct(cs, Ordered(cs), key);
    forall c ensures c in Ordered(cs) <==> c in cs {
      PermutationMembers(Ordered(cs), cs, c);
    }
    forall i | 0 < i < |Ordered(cs)| ensures !StringLe(Ordered(cs)[i].id, Ordered(cs)[i - 1].id) {
      assert key(Ordered(cs)[i - 1]) != key(Ordered(cs)[i]);
      assert ById(Ordered(cs)[i - 1], Ordered(cs)[i]);
      StringLeTotal(Ordered(cs)[i - 1].id, Ordered(cs)[i].id);
    }
    assert forall i :: 0 <= i < |Ordered(cs)| ==> Ordered(cs)[i] in Ordered(cs);
  }

  /** The artifact a rendering stands for. */
  function ArtifactOf(p: Codec, cs: seq<Chunk>, m: ModelIdentity, embed: Embedder, text: string): Artifact
    requires |VectorsOf(cs, embed)| == |Ordered(cs)|
  {
    Artifact(m, Records(p, Ordered(cs), m, VectorsOf(cs, embed)), Sha256(text))
  }

  lemma RecordsMatchChunks(p: Codec, cs: seq<Chunk>, m: ModelIdentity, vectors: seq<seq<Float>>)
    requires ChunksOk(cs) && |vectors| == |Ordered(cs)|
    ensures MatchChunks(Records(p, Ordered(cs), m, vectors), cs)
  {
    OrderedChunks(cs);
    var rs := Records(p, Ordered(cs), m, vectors);
    forall r | r in rs ensures HasChunk(cs, r) {
      var k :| 0 <= k < |rs| && rs[k] == r;
      assert Ordered(cs)[k] in Ordered(cs);
    }
    forall c | c in cs ensures HasRecord(rs, c) {
      var k :| 0 <= k < |Ordered(cs)| && Ordered(cs)[k] == c;
      assert rs[k] in rs;
    }
  }

  lemma BuiltRecordsRead(p: Codec, cs: seq<Chunk>, m: ModelIdentity, embed: Embedder)
    requires Lawful(p) && Buildable(p, cs, m, embed)
    ensures var rs := Records(p, Ordered(cs), m, VectorsOf(cs, embed));
            && (forall k :: 0 <= k < |rs| ==> RecordOn(p, m, p.encode(VectorLine(rs[k]))) == Some(rs[k]))
            && IdsIncrease(rs)
  {
    OrderedChunks(cs);
    forall k | 0 <= k < |Ordered(cs)|
      ensures RecordOn(p, m, p.encode(VectorLine(RecordFor(p, m, Ordered(cs)[k], VectorsOf(cs, embed)[k]))))
              == Some(RecordFor(p, m, Ordered(cs)[k], VectorsOf(cs, embed)[k]))
    {
      BuiltRecordReads(p, m, Ordered(cs)[k], VectorsOf(cs, embed)[k]);
    }
  }

  /** The round trip. For chunk IDs without Unicode line separators, reading what was rendered, against the
      same chunks in any order or against none, returns exactly the built records in order of chunk ID. */
  lemma ReadInvertsRender(p: Codec, cs: seq<Chunk>, m: ModelIdentity, embed: Embedder, text: string, expected: Option<seq<Chunk>>)
    requires Lawful(p) && Rendered(p, cs, m, embed) == Some(text)
    requires expected.Some? ==> Permutation(cs, expected.value)
    requires forall c :: c in cs ==> NoSeparator(c.id)
    ensures Reads(p, text, expected, Some(Sha256(text)), ArtifactOf(p, cs, m, embed, text))
  {
    var rs := Records(p, Ordered(cs), m, VectorsOf(cs, embed));
    var h := HeaderFor(m, |Ordered(cs)|);
    OrderedChunks(cs);
    assert NoSeparators(rs) by {
      forall k | 0 <= k < |rs| ensures NoSeparator(rs[k].chunkId) {
        assert Ordered(cs)[k] in Ordered(cs);
      }
    }
    LinesReadBack(p, h, rs);
    BuiltRecordsRead(p, cs, m, embed);
    if expected.Some? {
      RecordsMatchChunks(p, cs, m, VectorsOf(cs, embed));
      MatchForgetsOrder(rs, cs, expected.value);
    }
    WholeLinesRead(p, h, rs, text, expected);
  }

  lemma WholeLinesRead(p: Codec, h: Header, rs: seq<VectorRecord>, text: string, expected: Option<seq<Chunk>>)
    requires Lawful(p) && text == Join(LinesOf(p, h, rs)) && SplitLines(text) == LinesOf(p, h, rs)
    requires HeaderOk(h, |rs| + 1) && IdsIncrease(rs)
    requires forall k :: 0 <= k < |rs| ==> RecordOn(p, h.identity, p.encode(VectorLine(rs[k]))) == Some(rs[k])
    requires expected.Some? ==> MatchChunks(rs, expected.value)
    ensures Reads(p, text, expected, Some(Sha256(text)), Artifact(h.identity, rs, Sha256(text)))
  {
    var lines := LinesOf(p, h, rs);
    JoinEnds(lines);
    assert p.decode(p.encode(HeaderLine(h))) == Some(HeaderLine(h));
    RecordLinesRead(p, h.identity, lines[1..], rs);
  }

  lemma RecordLinesRead(p: Codec, m: ModelIdentity, lines: seq<string>, rs: seq<VectorRecord>)
    requires |lines| == |rs| && IdsIncrease(rs)
    requires forall k :: 0 <= k < |rs| ==> lines[k] == p.encode(VectorLine(rs[k]))
    requires forall k :: 0 <= k < |rs| ==> RecordOn(p, m, p.encode(VectorLine(rs[k]))) == Some(rs[k])
    ensures RecordsOn(p, m, lines, rs)
  {
  }

  lemma JoinEnds(lines: seq<string>)
    requires lines != []
    ensures Join(lines) != "" && Join(lines)[|Join(lines)| - 1] == LF
    decreases |lines|
  {
    if |lines| > 1 {
      JoinEnds(lines[1..]);
    } else {
      assert Join(lines[1..]) == "";
    }
  }

  lemma MatchForgetsOrder(rs: seq<VectorRecord>, a: seq<Chunk>, b: seq<Chunk>)
    requires MatchChunks(rs, a) && Permutation(a, b)
    ensures MatchChunks(rs, b)
  {
    ChunksOkForgetsOrder(a, b);
    forall c ensures c in a <==> c in b {
      PermutationMembers(a, b, c);
    }
  }

  /** A rendering whose chunk IDs do hold a Unicode line separator cannot be read at all, so the round trip
      works exactly for IDs without one. */
  lemma SeparatorsCannotBeRead(p: Codec, cs: seq<Chunk>, m: ModelIdentity, embed: Embedder, text: string,
                               expected: Option<seq<Chunk>>, aggregate: Option<Digest<string>>, a: Artifact)
    requires Lawful(p) && Rendered(p, cs, m, embed) == Some(text)
    requires exists c :: c in cs && !NoSeparator(c.id)
    ensures !Reads(p, text, expected, aggregate, a)
  {
    var rs := Records(p, Ordered(cs), m, VectorsOf(cs, embed));
    SeparatorReachesRecords(cs, rs);
    BrokenRecordsCannotBeRead(p, HeaderFor(m, |Ordered(cs)|), rs, text, aggregate, a.identity);
  }

  /** A rendering can be read if and only if no chunk ID holds a Unicode line separator. */
  lemma ReadableIff(p: Codec, cs: seq<Chunk>, m: ModelIdentity, embed: Embedder, text: string)
    requires Lawful(p) && Rendered(p, cs, m, embed) == Some(text)
    ensures (exists a :: Reads(p, text, Some(cs), None, a)) <==> forall c :: c in cs ==> NoSeparator(c.id)
  {
    if forall c :: c in cs ==> NoSeparator(c.id) {
      ReadInvertsRender(p, cs, m, embed, text, Some(cs));
      assert Reads(p, text, Some(cs), None, ArtifactOf(p, cs, m, embed, text));
    } else {
      forall a ensures !Reads(p, text, Some(cs), None, a) {
        SeparatorsCannotBeRead(p, cs, m, embed, text, Some(cs), None, a);
      }
    }
  }

  const DIGEST_TEXT := "sha256:" + seq(64, _ => '0')
  const MODEL := ModelIdentity(DIGEST_TEXT, DIGEST_TEXT, DIGEST_TEXT, 1, Unnormalized, DIGEST_TEXT)
  const SEPARATED := Chunk([0x2028 as char], "", Sha256(""))

  lemma SeparatedIsBuildable(p: Codec, embed: Embedder)
    requires embed([""]) == [[Finite(0, 0)]]
    ensures Buildable(p, [SEPARATED], MODEL, embed) && !NoSeparator(SEPARATED.id)
  {
    SingleIsOrdered(SEPARATED);
    assert Contents([SEPARATED]) == [""];
    assert IsUnicodeSeparator(SEPARATED.id[0]);
  }

  /** One chunk whose ID is a line separator, with the vector (0.0): it is rendered, and the rendering cannot
      be read. */
  lemma SeparatorExample(p: Codec, embed: Embedder, expected: Option<seq<Chunk>>, aggregate: Option<Digest<string>>, a: Artifact)
    requires Lawful(p) && embed([""]) == [[Finite(0, 0)]]
    ensures var text := Rendered(p, [SEPARATED], MODEL, embed); text.Some? && !Reads(p, text.value, expected, aggregate, a)
  {
    SeparatedIsBuildable(p, embed);
    assert SEPARATED in [SEPARATED];
    SeparatorsCannotBeRead(p, [SEPARATED], MODEL, embed, Rendered(p, [SEPARATED], MODEL, embed).value, expected, aggregate, a);
  }

  lemma SingleIsOrdered(c: Chunk)
    ensures Ordered([c]) == [c]
  {
    assert [c][..0] == [];
    assert Sort([c][..0], ById) == [];
  }

  lemma SeparatorReachesRecords(cs: seq<Chunk>, rs: seq<VectorRecord>)
    requires ChunksOk(cs) && |rs| == |Ordered(cs)| && forall k :: 0 <= k < |rs| ==> rs[k].chunkId == Ordered(cs)[k].id
    requires exists c :: c in cs && !NoSeparator(c.id)
    ensures !NoSeparators(rs)
  {
    OrderedChunks(cs);
    var c :| c in cs && !NoSeparator(c.id);
    var k :| 0 <= k < |Ordered(cs)| && Ordered(cs)[k] == c;
    assert !NoSeparator(rs[k].chunkId);
  }

  lemma BrokenRecordsCannotBeRead(p: Codec, h: Header, rs: seq<VectorRecord>, text: string,
                                  aggregate: Option<Digest<string>>, m: ModelIdentity)
    requires Lawful(p) && text == Join(LinesOf(p, h, rs)) && h.count == |rs| && !NoSeparators(rs) && IdentityOk(h.identity)
    ensures !HeaderReads(p, text, aggregate, m)
  {
    LinesReadBack(p, h, rs);
    HeaderReadsBack(p, h, rs);
    TooManyLines(p, h, text, aggregate, m);
  }

  lemma TooManyLines(p: Codec, h: Header, text: string, aggregate: Option<Digest<string>>, m: ModelIdentity)
    requires SplitLines(text) != [] && ParseLine(p, SplitLines(text)[0]) == Some(HeaderLine(h))
    requires |SplitLines(text)| > h.count + 1
    ensures !HeaderReads(p, text, aggregate, m)
  {
  }

  lemma HeaderReadsBack(p: Codec, h: Header, rs: seq<VectorRecord>)
    requires Lawful(p) && IdentityOk(h.identity)
    ensures SplitLines(Join(LinesOf(p, h, rs))) != []
    ensures ParseLine(p, SplitLines(Join(LinesOf(p, h, rs)))[0]) == Some(HeaderLine(h))
  {
    var lines := LinesOf(p, h, rs);
    HeaderIsWhole(p, h);
    FirstLine(lines[0], Join(lines[1..]));
    assert p.decode(p.encode(HeaderLine(h))) == Some(HeaderLine(h));
  }

  // ---------------------------------------------------------------- what reading establishes

  lemma {:induction false} IdsIncreaseStrictly(rs: seq<VectorRecord>, i: nat, j: nat)
    requires IdsIncrease(rs) && i < j < |rs|
    ensures StringLt(rs[i].chunkId, rs[j].chunkId)
    decreases j
  {
    StringLeTotal(rs[j].chunkId, rs[j - 1].chunkId);
    assert Above(rs[j], rs[j - 1].chunkId);
    if i < j - 1 {
      IdsIncreaseStrictly(rs, i, j - 1);
      StringLtTransitive(rs[i].chunkId, rs[j - 1].chunkId, rs[j].chunkId);
    }
  }

  lemma RecordHasChunk(rs: seq<VectorRecord>, cs: seq<Chunk>, i: nat) returns (c: Chunk)
    requires MatchChunks(rs, cs) && i < |rs|
    ensures c in cs && Holds(rs[i], c)
  {
    assert rs[i] in rs && HasChunk(cs, rs[i]);
    c :| c in cs && c.id == rs[i].chunkId && c.digest == rs[i].content;
  }

  lemma ChunkHasRecord(rs: seq<VectorRecord>, cs: seq<Chunk>, c: Chunk) returns (i: nat)
    requires MatchChunks(rs, cs) && c in cs
    ensures i < |rs| && Holds(rs[i], c)
  {
    assert HasRecord(rs, c);
    var r :| r in rs && r.chunkId == c.id;
    i :| 0 <= i < |rs| && rs[i] == r;
    var d := RecordHasChunk(rs, cs, i);
    SameKeySameElement(cs, (x: Chunk) => x.id, c, d);
  }

  lemma RecordIsBound(p: Codec, m: ModelIdentity, line: string, r: VectorRecord)
    requires RecordOn(p, m, line) == Some(r)
    ensures r.vectorDigest == Sha256(Binding(r.chunkId, r.content, Sha256(m), r.vector))
  {
  }

  /** Reading with expected chunks succeeds only if records and chunks are in bijection: each chunk has
      exactly one record and each record exactly one chunk, with the same content digest. */
  lemma ReadMeansBijection(p: Codec, text: string, cs: seq<Chunk>, aggregate: Option<Digest<string>>, a: Artifact)
    requires Reads(p, text, Some(cs), aggregate, a)
    ensures forall i, j :: 0 <= i < j < |a.records| ==> a.records[i].chunkId != a.records[j].chunkId
    ensures forall i :: 0 <= i < |a.records| ==> ForSomeChunk(a.records[i], cs)
    ensures forall c :: c in cs ==> HasItsRecord(c, a.records)
  {
    var rs := a.records;
    forall i, j | 0 <= i < j < |rs| ensures rs[i].chunkId != rs[j].chunkId {
      IdsIncreaseStrictly(rs, i, j);
    }
    forall i | 0 <= i < |rs| ensures ForSomeChunk(rs[i], cs) {
      var c := RecordHasChunk(rs, cs, i);
    }
    forall c | c in cs ensures HasItsRecord(c, rs) {
      var i := ChunkHasRecord(rs, cs, c);
    }
  }

  /** Every vector digest binds its chunk, its content and the model of the artifact. */
  lemma ReadVectorsAreBound(p: Codec, text: string, expected: Option<seq<Chunk>>, aggregate: Option<Digest<string>>,
                            a: Artifact, i: nat)
    requires Reads(p, text, expected, aggregate, a) && i < |a.records|
    ensures a.records[i].vectorDigest
            == Sha256(Binding(a.records[i].chunkId, a.records[i].content, Sha256(a.identity), a.records[i].vector))
  {
    RecordIsBound(p, a.identity, SplitLines(text)[1..][i], a.records[i]);
  }

  predicate ForSomeChunk(r: VectorRecord, cs: seq<Chunk>) {
    exists c :: c in cs && Holds(r, c)
  }

  predicate HasItsRecord(c: Chunk, rs: seq<VectorRecord>) {
    exists i :: 0 <= i < |rs| && Holds(rs[i], c)
  }

  /** The record is of this chunk and its content. */
  predicate Holds(r: VectorRecord, c: Chunk) {
    r.chunkId == c.id && r.content == c.digest == Sha256(c.content)
  }
}
