/** A codec with the laws of `EmbeddingRoundTrip.Lawful`: what the round trip assumes can be met. */
module EmbeddingCodec {
  import opened Prelude
  import opened Crypto
  import opened Encodings
  import opened Embeddings
  import opened EmbeddingRoundTrip

  function OfNormalization(n: Normalization): Tree {
    match n
    case Unnormalized => Leaf(0)
    case L2 => Leaf(1)
    case OtherNormalization(t) => Pair(Leaf(2), OfString(t))
  }

  function OfIdentity(m: ModelIdentity): Tree {
    Pair(OfString(m.weights), Pair(OfString(m.tokenizer), Pair(OfString(m.runtime),
      Pair(OfInt(m.dimension), Pair(OfNormalization(m.normalization), OfString(m.quantization))))))
  }

  function OfFloat(f: Float): Tree {
    match f
    case Whole(i) => Pair(Leaf(0), OfInt(i))
    case Finite(m, e) => Pair(Leaf(1), Pair(OfInt(m), OfInt(e)))
    case NegativeZero => Leaf(0)
    case NotFinite => Leaf(1)
    case NotANumber => Leaf(2)
  }

  function OfVector(v: seq<Float>): Tree {
    OfSeq(v, (f: Float) => OfFloat(f))
  }

  function OfContentDigest(d: Digest<string>): Tree {
    if d.Sha256? then Pair(Leaf(0), OfString(d.preimage)) else Leaf(d.tag)
  }

  function OfModelDigest(d: Digest<ModelIdentity>): Tree {
    if d.Sha256? then Pair(Leaf(0), OfIdentity(d.preimage)) else Leaf(d.tag)
  }

  function OfBinding(b: Binding): Tree {
    Pair(OfString(b.chunkId), Pair(OfContentDigest(b.content), Pair(OfModelDigest(b.model), OfVector(b.vector))))
  }

  function OfBindingDigest(d: Digest<Binding>): Tree {
    if d.Sha256? then Pair(Leaf(0), OfBinding(d.preimage)) else Leaf(d.tag)
  }

  function OfJson(v: Json): Tree {
    match v
    case HeaderLine(h) =>
      Pair(Leaf(0), Pair(Leaf(if h.supported then 1 else 0),
        Pair(OfIdentity(h.identity), Pair(OfModelDigest(h.identityDigest), OfInt(h.count)))))
    case VectorLine(r) =>
      Pair(Leaf(1), Pair(OfBinding(Binding(r.chunkId, r.content, r.model, r.vector)), OfBindingDigest(r.vectorDigest)))
    case OtherLine(tag) => Leaf(tag)
  }

  lemma OfIdentityIsInjective(a: ModelIdentity, b: ModelIdentity)
    ensures OfIdentity(a) == OfIdentity(b) ==> a == b
  {
    OfStringIsInjective(a.weights, b.weights);
    OfStringIsInjective(a.tokenizer, b.tokenizer);
    OfStringIsInjective(a.runtime, b.runtime);
    OfStringIsInjective(a.quantization, b.quantization);
    if a.normalization.OtherNormalization? && b.normalization.OtherNormalization? {
      OfStringIsInjective(a.normalization.text, b.normalization.text);
    }
  }

  lemma OfVectorIsInjective(a: seq<Float>, b: seq<Float>)
    ensures OfVector(a) == OfVector(b) ==> a == b
  {
    if OfVector(a) == OfVector(b) {
      OfSeqIsInjective(a, b, (f: Float) => OfFloat(f));
    }
  }

  lemma OfContentDigestIsInjective(a: Digest<string>, b: Digest<string>)
    ensures OfContentDigest(a) == OfContentDigest(b) ==> a == b
  {
    if a.Sha256? && b.Sha256? {
      OfStringIsInjective(a.preimage, b.preimage);
    }
  }

  lemma OfModelDigestIsInjective(a: Digest<ModelIdentity>, b: Digest<ModelIdentity>)
    ensures OfModelDigest(a) == OfModelDigest(b) ==> a == b
  {
    if a.Sha256? && b.Sha256? {
      OfIdentityIsInjective(a.preimage, b.preimage);
    }
  }

  lemma OfBindingIsInjective(a: Binding, b: Binding)
    ensures OfBinding(a) == OfBinding(b) ==> a == b
  {
    OfStringIsInjective(a.chunkId, b.chunkId);
    OfContentDigestIsInjective(a.content, b.content);
    OfModelDigestIsInjective(a.model, b.model);
    OfVectorIsInjective(a.vector, b.vector);
  }

  lemma OfBindingDigestIsInjective(a: Digest<Binding>, b: Digest<Binding>)
    ensures OfBindingDigest(a) == OfBindingDigest(b) ==> a == b
  {
    if a.Sha256? && b.Sha256? {
      OfBindingIsInjective(a.preimage, b.preimage);
    }
  }

  lemma OfJsonIsInjective(a: Json, b: Json)
    ensures OfJson(a) == OfJson(b) ==> a == b
  {
    if a.HeaderLine? && b.HeaderLine? {
      OfIdentityIsInjective(a.header.identity, b.header.identity);
      OfModelDigestIsInjective(a.header.identityDigest, b.header.identityDigest);
    } else if a.VectorLine? && b.VectorLine? {
      var r, s := a.record, b.record;
      OfBindingIsInjective(Binding(r.chunkId, r.content, r.model, r.vector), Binding(s.chunkId, s.content, s.model, s.vector));
      OfBindingDigestIsInjective(r.vectorDigest, s.vectorDigest);
    }
  }

  /** The Unicode line separators of a text. */
  function Separators(s: string): (r: string)
    ensures forall i :: 0 <= i < |r| ==> IsUnicodeSeparator(r[i])
  {
    if s == "" then ""
    else if IsUnicodeSeparator(s[0]) then [s[0]] + Separators(s[1..])
    else Separators(s[1..])
  }

  lemma {:induction false} SeparatorsEmptyIff(s: string)
    ensures Separators(s) == "" <==> NoSeparator(s)
  {
    if s != "" {
      SeparatorsCons(s);
      SeparatorsEmptyIff(s[1..]);
    }
  }

  lemma SeparatorsCons(s: string)
    requires s != ""
    ensures NoSeparator(s) <==> !IsUnicodeSeparator(s[0]) && NoSeparator(s[1..])
  {
    assert forall i :: 0 < i < |s| ==> s[i] == s[1..][i - 1];
  }

  /** The tree of the value in zeros and ones, and after it the separators of a chunk ID as they are. */
  function Encode(v: Json): string {
    Text(OfJson(v), '0', '1') + if v.VectorLine? then Separators(v.record.chunkId) else ""
  }

  ghost function Decode(s: string): Option<Json> {
    if exists v :: Encode(v) == s then (var v :| Encode(v) == s; Some(v)) else None
  }

  /** A text of zeros and ones before one without any is fixed by the whole. */
  lemma {:induction false} HeadIsFixed(a: string, x: string, b: string, y: string)
    requires a + x == b + y
    requires forall i :: 0 <= i < |a| ==> !IsUnicodeSeparator(a[i])
    requires forall i :: 0 <= i < |b| ==> !IsUnicodeSeparator(b[i])
    requires forall i :: 0 <= i < |x| ==> IsUnicodeSeparator(x[i])
    requires forall i :: 0 <= i < |y| ==> IsUnicodeSeparator(y[i])
    ensures a == b && x == y
  {
    var s, t := a + x, b + y;
    assert a != "" ==> s[0] == a[0] && s[1..] == a[1..] + x;
    assert b != "" ==> t[0] == b[0] && t[1..] == b[1..] + y;
    if a != "" && b != "" {
      HeadIsFixed(a[1..], x, b[1..], y);
      assert a == [a[0]] + a[1..] && b == [b[0]] + b[1..];
    } else {
      assert a == "" ==> s == x;
      assert b == "" ==> t == y;
    }
  }

  lemma EncodeIsInjective(a: Json, b: Json)
    requires Encode(a) == Encode(b)
    ensures a == b
  {
    HeadIsFixed(Text(OfJson(a), '0', '1'), if a.VectorLine? then Separators(a.record.chunkId) else "",
                Text(OfJson(b), '0', '1'), if b.VectorLine? then Separators(b.record.chunkId) else "");
    TextIsInjective(OfJson(a), OfJson(b), '0', '1');
    OfJsonIsInjective(a, b);
  }

  lemma ConcatEscapes(head: string, tail: string)
    requires forall i :: 0 <= i < |head| ==> head[i] == '0' || head[i] == '1'
    requires forall i :: 0 <= i < |tail| ==> IsUnicodeSeparator(tail[i])
    ensures NoControlBoundary(head + tail) && (NoSeparator(head + tail) <==> tail == "")
  {
    var s := head + tail;
    assert forall i :: 0 <= i < |head| ==> s[i] == head[i];
    assert forall i :: |head| <= i < |s| ==> s[i] == tail[i - |head|];
    assert tail != "" ==> s[|head|] == tail[0];
  }

  lemma EncodeEscapes(v: Json)
    ensures NoControlBoundary(Encode(v))
    ensures NoSeparator(Encode(v)) <==> !v.VectorLine? || NoSeparator(v.record.chunkId)
  {
    if v.VectorLine? {
      SeparatorsEmptyIff(v.record.chunkId);
    }
    ConcatEscapes(Text(OfJson(v), '0', '1'), if v.VectorLine? then Separators(v.record.chunkId) else "");
  }

  /** Whatever the test for unit vectors and the conversion of integers, some codec is lawful. */
  lemma LawfulCodecExists(unit: seq<Float> -> bool, double: int -> Float)
    ensures exists p: Codec :: Lawful(p) && p.unit == unit && p.double == double
  {
    var p := Codec(v => Encode(v), s => Decode(s), unit, double);
    forall v ensures p.decode(p.encode(v)) == Some(v) && NoControlBoundary(p.encode(v)) {
      assert Encode(v) == Encode(v);
      EncodeIsInjective(v, Decode(Encode(v)).value);
      EncodeEscapes(v);
    }
    forall h: Header | IdentityOk(h.identity) ensures NoSeparator(p.encode(HeaderLine(h))) {
      EncodeEscapes(HeaderLine(h));
    }
    forall r: VectorRecord ensures NoSeparator(p.encode(VectorLine(r))) <==> NoSeparator(r.chunkId) {
      EncodeEscapes(VectorLine(r));
    }
    assert Lawful(p);
  }
}
