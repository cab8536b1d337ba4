/** The query-string builder of src/Helpers/QueryBuilder.php: an append-only
    list of key/value pairs rendered as `enc(k1)=enc(v1)&enc(k2)=enc(v2)...`
    with `enc` = `urlencode`. Rendering is a function of the pairs alone, so
    rendering twice without an `add` in between gives the same string. */
module QueryBuilder {
  import opened Wrappers
  import opened Bytes
  import opened UrlEncoding

  const Ampersand: Byte := '&' as int
  const EqualsSign: Byte := '=' as int

  datatype Pair = Pair(key: ByteString, value: ByteString)

  datatype Builder = Builder(parts: seq<Pair>)

  /** A freshly constructed builder holds no pairs. */
  const Empty: Builder := Builder([])

  /** `add(key, value)`: one more pair at the end, everything before it kept. */
  function Add(q: Builder, key: ByteString, value: ByteString): (q': Builder)
    ensures |q'.parts| == |q.parts| + 1
    ensures q'.parts[..|q.parts|] == q.parts
    ensures q'.parts[|q.parts|] == Pair(key, value)
  {
    Builder(q.parts + [Pair(key, value)])
  }

  /** `add(key, item)` for every item in order, as the endpoint loops do. */
  function AddEach(q: Builder, key: ByteString, items: seq<ByteString>): (q': Builder)
    ensures |q'.parts| == |q.parts| + |items|
    ensures q'.parts[..|q.parts|] == q.parts
    ensures forall i :: 0 <= i < |items| ==> q'.parts[|q.parts| + i] == Pair(key, items[i])
    decreases |items|
  {
    if items == [] then q else AddEach(Add(q, key, items[0]), key, items[1..])
  }

  /** The rendering of one pair. */
  function Segment(p: Pair): ByteString
  {
    Encode(p.key) + [EqualsSign] + Encode(p.value)
  }

  function Segments(parts: seq<Pair>): (segs: seq<ByteString>)
    ensures |segs| == |parts|
    ensures forall i :: 0 <= i < |parts| ==> segs[i] == Segment(parts[i])
  {
    seq(|parts|, i requires 0 <= i < |parts| => Segment(parts[i]))
  }

  /** The query string the builder converts to: each pair rendered as the
      encoded key, `=` and the encoded value, the pairs separated by `&`. */
  function Render(parts: seq<Pair>): ByteString
  {
    Join(Segments(parts), Ampersand)
  }

  function ToString(q: Builder): ByteString
  {
    Render(q.parts)
  }

  /** `_build` as the source writes it: encode each pair into a list, then
      implode the list with `&`. */
  method Build(q: Builder) returns (s: ByteString)
    ensures s == ToString(q)
  {
    var queryString: seq<ByteString> := [];
    var i := 0;
    while i < |q.parts|
      invariant 0 <= i <= |q.parts|
      invariant |queryString| == i
      invariant forall j :: 0 <= j < i ==> queryString[j] == Segment(q.parts[j])
    {
      var part := q.parts[i];
      var segment := Encode(part.key) + [EqualsSign] + Encode(part.value);
      assert segment == Segment(q.parts[i]);
      queryString := queryString + [segment];
      i := i + 1;
    }
    assert queryString == Segments(q.parts);
    s := Join(queryString, Ampersand);
  }

  /** Neither `&` nor `=` can come out of `urlencode`. */
  lemma SegmentShape(p: Pair)
    ensures Ampersand !in Segment(p)
    ensures Split(Segment(p), EqualsSign) == [Encode(p.key), Encode(p.value)]
    ensures Count(Segment(p), EqualsSign) == 1
  {
    EncodeAvoids(p.key, Ampersand);
    EncodeAvoids(p.value, Ampersand);
    EncodeAvoids(p.key, EqualsSign);
    EncodeAvoids(p.value, EqualsSign);
    SplitJoin([Encode(p.key), Encode(p.value)], EqualsSign);
    CountJoin([Encode(p.key), Encode(p.value)], EqualsSign);
  }

  lemma SegmentsAmpersandFree(parts: seq<Pair>)
    ensures SeparatorFree(Segments(parts), Ampersand)
  {
    forall i | 0 <= i < |parts| ensures Ampersand !in Segments(parts)[i] {
      SegmentShape(parts[i]);
    }
  }

  /** A builder renders to the empty string exactly when it has no pairs. */
  lemma RenderEmpty(parts: seq<Pair>)
    ensures Render(parts) == [] <==> parts == []
  {
    if parts != [] {
      var segs := Segments(parts);
      assert |segs[0]| >= 1;
      if |segs| > 1 {
        assert Join(segs, Ampersand) == segs[0] + [Ampersand] + Join(segs[1..], Ampersand);
      }
    }
  }

  /** Rendering after `add` extends the previous rendering by `&` and the new
      segment; nothing rendered before changes. */
  lemma RenderAdd(q: Builder, key: ByteString, value: ByteString)
    ensures ToString(Add(q, key, value)) ==
      (if q.parts == [] then Segment(Pair(key, value))
       else ToString(q) + [Ampersand] + Segment(Pair(key, value)))
  {
    var parts' := q.parts + [Pair(key, value)];
    assert Segments(parts') == Segments(q.parts) + [Segment(Pair(key, value))];
    if q.parts != [] {
      JoinAppend(Segments(q.parts), Segment(Pair(key, value)), Ampersand);
    }
  }

  /** The rendering, cut at every `&`, gives one segment per pair in
      insertion order, each `enc(key)=enc(value)`. */
  lemma RenderSegments(parts: seq<Pair>)
    requires |parts| >= 1
    ensures Split(Render(parts), Ampersand) == Segments(parts)
    ensures forall i :: 0 <= i < |parts| ==>
      Split(Split(Render(parts), Ampersand)[i], EqualsSign) == [Encode(parts[i].key), Encode(parts[i].value)]
  {
    SegmentsAmpersandFree(parts);
    SplitJoin(Segments(parts), Ampersand);
    forall i | 0 <= i < |parts|
      ensures Split(Segments(parts)[i], EqualsSign) == [Encode(parts[i].key), Encode(parts[i].value)]
    {
      SegmentShape(parts[i]);
    }
  }

  function CountSegments(segs: seq<ByteString>, b: Byte): nat
  {
    if segs == [] then 0 else Count(segs[0], b) + CountSegments(segs[1..], b)
  }

  lemma {:induction false} CountJoinSegments(segs: seq<ByteString>, sep: Byte, b: Byte)
    requires |segs| >= 1
    requires sep != b
    ensures Count(Join(segs, sep), b) == CountSegments(segs, b)
    decreases |segs|
  {
    if |segs| == 1 {
      assert segs[1..] == [];
    } else {
      CountJoinSegments(segs[1..], sep, b);
      CountConcat(segs[0], [sep], b);
      CountConcat(segs[0] + [sep], Join(segs[1..], sep), b);
    }
  }

  lemma {:induction false} CountEqualsInSegments(parts: seq<Pair>)
    ensures CountSegments(Segments(parts), EqualsSign) == |parts|
    decreases |parts|
  {
    if parts != [] {
      SegmentShape(parts[0]);
      CountEqualsInSegments(parts[1..]);
      assert Segments(parts)[1..] == Segments(parts[1..]);
    }
  }

  /** n >= 1 pairs render with exactly n - 1 `&` and n `=`. */
  lemma RenderSeparatorCounts(parts: seq<Pair>)
    requires |parts| >= 1
    ensures Count(Render(parts), Ampersand) == |parts| - 1
    ensures Count(Render(parts), EqualsSign) == |parts|
  {
    SegmentsAmpersandFree(parts);
    CountJoin(Segments(parts), Ampersand);
    CountJoinSegments(Segments(parts), Ampersand, EqualsSign);
    CountEqualsInSegments(parts);
  }

  /** Reads one `key=value` segment: exactly one `=`, both sides decoded. */
  function ParsePair(seg: ByteString): Option<Pair>
  {
    var halves := Split(seg, EqualsSign);
    if |halves| == 2 then Some(Pair(Decode(halves[0]), Decode(halves[1]))) else None
  }

  function ParseSegments(segs: seq<ByteString>): Option<seq<Pair>>
  {
    if segs == [] then Some([])
    else
      match (ParsePair(segs[0]), ParseSegments(segs[1..]))
      case (Some(p), Some(ps)) => Some([p] + ps)
      case _ => None
  }

  /** Reads a query string back into its pairs: the empty string has none,
      any other string is split on `&` into segments. */
  function ParseQuery(s: ByteString): Option<seq<Pair>>
  {
    if s == [] then Some([]) else ParseSegments(Split(s, Ampersand))
  }

  lemma ParseSegment(p: Pair)
    ensures ParsePair(Segment(p)) == Some(p)
  {
    SegmentShape(p);
    DecodeEncode(p.key);
    DecodeEncode(p.value);
  }

  lemma {:induction false} ParseSegmentsOfPairs(parts: seq<Pair>)
    ensures ParseSegments(Segments(parts)) == Some(parts)
    decreases |parts|
  {
    if parts != [] {
      var segs := Segments(parts);
      assert segs[0] == Segment(parts[0]);
      assert segs[1..] == Segments(parts[1..]);
      ParseSegment(parts[0]);
      ParseSegmentsOfPairs(parts[1..]);
      assert ParseSegments(segs) == Some([parts[0]] + parts[1..]);
      assert [parts[0]] + parts[1..] == parts;
    }
  }

  /** Splitting the rendering on `&` and `=` and decoding each side gives
      back the pairs, in order. */
  lemma ParseRender(parts: seq<Pair>)
    ensures ParseQuery(Render(parts)) == Some(parts)
  {
    RenderEmpty(parts);
    if parts != [] {
      RenderSegments(parts);
      ParseSegmentsOfPairs(parts);
    }
  }

  /** Builders with different pairs render differently. */
  lemma RenderInjective(a: seq<Pair>, b: seq<Pair>)
    requires Render(a) == Render(b)
    ensures a == b
  {
    ParseRender(a);
    ParseRender(b);
  }
}
