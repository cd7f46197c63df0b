/**
 How deep BER may nest: among the derivations of the grammar, whatever their nesting, the reader takes
 those with at most 64 levels below the root and refuses every other one as too deep.
 */
module BerDepth {
  import opened Asn1
  import opened Wrappers
  import opened BerGrammar
  import opened BerReader
  import opened BerReaderProofs
  import opened BerNormalizer

  /** What a node that is too high is made of. */
  lemma HighNode(t: Tree, start: nat)
    requires WellShaped(t) && Height(t) > 0
    ensures t.Node? && t.children != [] && ValidHeader(t.id, t.len) && NodeTag(t.id) && WellShapedAll(t.children)
    ensures |LengthOctets(t.len)| > 0 && Height(t) == 1 + HeightAll(t.children)
    ensures Print(t) == t.id + (LengthOctets(t.len) + (PrintAll(t.children) + Closing(ContentEnd(start, t.len))))
    ensures ContentEnd(start, t.len).Some? ==> ContentEnd(start, t.len).value == start + |PrintAll(t.children)|
  {
  }

  /** A constructed encoding whose children cannot be read cannot be read either. */
  lemma BodyFails(data: Bytes, offset: nat, depth: nat, id: Bytes, len: LengthForm, start: nat)
    requires ValidIdentifier(id) && NodeTag(id) && offset + |id| < start <= |data| && At(data, offset, id)
    requires ContentEnd(start, len).Some? ==> ContentEnd(start, len).value <= |data|
    requires ReadChildren(data, start, depth, ContentEnd(start, len)) == ForestErr(TooDeep)
    ensures ReadBody(data, offset, depth, TagNumber(id), offset + |id|, FormValue(len), start, !MinimalLength(len))
         == ObjectErr(TooDeep)
  {
    assert data[offset] == data[offset..offset + |id|][0];
  }

  lemma DepthGuard(data: Bytes, offset: nat, depth: nat)
    requires offset <= |data| && depth > MAX_DEPTH
    ensures Read(data, offset, depth) == ObjectErr(TooDeep)
  {
  }

  lemma ValidParts(id: Bytes, len: LengthForm)
    requires ValidHeader(id, len)
    ensures ValidIdentifier(id)
  {
  }

  lemma {:induction false} TooHigh(t: Tree, depth: nat, data: Bytes, offset: nat)
    requires WellShaped(t) && At(data, offset, Print(t)) && depth + Height(t) > MAX_DEPTH
    ensures offset <= |data| && Read(data, offset, depth) == ObjectErr(TooDeep)
    decreases t, 1
  {
    hide *;
    AtFits(data, offset, Print(t));
    if depth > MAX_DEPTH {
      DepthGuard(data, offset, depth);
    } else {
      var start := offset + |t.id| + |LengthOctets(t.len)|;
      HighNode(t, start);
      var end := ContentEnd(start, t.len);
      var body := PrintAll(t.children) + Closing(end);
      ValidParts(t.id, t.len);
      SplitHeader(data, offset, t.id, LengthOctets(t.len), body);
      HeaderComplete(data, offset, depth, t.id, t.len);
      AtFits(data, start, body);
      TooHighAll(t.children, depth, data, start, end);
      BodyFails(data, offset, depth, t.id, t.len, start);
    }
  }

  lemma ShapedParts(ts: seq<Tree>, end: Option<nat>)
    requires WellShapedAll(ts) && ts != []
    ensures WellShaped(ts[0]) && WellShapedAll(ts[1..])
    ensures PrintAll(ts) + Closing(end) == Print(ts[0]) + (PrintAll(ts[1..]) + Closing(end))
    ensures |PrintAll(ts)| == |Print(ts[0])| + |PrintAll(ts[1..])|
    ensures HeightAll(ts) == Height(ts[0]) || (ts[1..] != [] && HeightAll(ts) == HeightAll(ts[1..]))
    ensures Height(ts[0]) <= HeightAll(ts)
  {
  }

  lemma Started(t: Tree, data: Bytes, offset: nat)
    requires WellShaped(t) && At(data, offset, Print(t))
    ensures |Print(t)| >= 2 && offset + 2 <= |data| && data[offset] != 0
  {
    assert data[offset] == data[offset..offset + |Print(t)|][0] == t.id[0];
  }

  lemma FirstFails(data: Bytes, offset: nat, depth: nat, end: Option<nat>)
    requires offset + 2 <= |data| && data[offset] != 0 && (end.Some? ==> offset < end.value <= |data|)
    requires Read(data, offset, depth + 1) == ObjectErr(TooDeep)
    ensures ReadChildren(data, offset, depth, end) == ForestErr(TooDeep)
  {
  }

  lemma LaterFails(data: Bytes, offset: nat, depth: nat, end: Option<nat>)
    requires offset + 2 <= |data| && data[offset] != 0 && (end.Some? ==> offset < end.value <= |data|)
    requires Read(data, offset, depth + 1).ObjectOk?
    requires end.Some? ==> Read(data, offset, depth + 1).next <= end.value
    requires ReadChildren(data, Read(data, offset, depth + 1).next, depth, end) == ForestErr(TooDeep)
    ensures ReadChildren(data, offset, depth, end) == ForestErr(TooDeep)
  {
  }

  lemma FitsBelow(t: Tree, depth: nat)
    requires WellShaped(t) && depth + Height(t) <= MAX_DEPTH
    ensures WellFormed(t, depth)
  {
  }

  lemma {:induction false} TooHighAll(ts: seq<Tree>, depth: nat, data: Bytes, offset: nat, end: Option<nat>)
    requires WellShapedAll(ts) && At(data, offset, PrintAll(ts) + Closing(end))
    requires end.Some? ==> end.value == offset + |PrintAll(ts)|
    requires ts != [] && depth + 1 + HeightAll(ts) > MAX_DEPTH
    ensures offset <= |data| && (end.Some? ==> offset <= end.value <= |data|)
    ensures ReadChildren(data, offset, depth, end) == ForestErr(TooDeep)
    decreases ts, 0
  {
    hide *;
    ShapedParts(ts, end);
    var rest := PrintAll(ts[1..]) + Closing(end);
    AtConcat(data, offset, Print(ts[0]), rest);
    AtFits(data, offset + |Print(ts[0])|, rest);
    Started(ts[0], data, offset);
    if depth + 1 + Height(ts[0]) > MAX_DEPTH {
      TooHigh(ts[0], depth + 1, data, offset);
      FirstFails(data, offset, depth, end);
    } else {
      FitsBelow(ts[0], depth + 1);
      Complete(ts[0], depth + 1, data, offset);
      TooHighAll(ts[1..], depth, data, offset + |Print(ts[0])|, end);
      LaterFails(data, offset, depth, end);
    }
  }

  /**
   The nesting that is accepted: a SEQUENCE of the grammar that fills the input is normalized exactly when
   at most 64 levels lie below its root, and refused as too deep otherwise.
   */
  lemma NestingLimit(t: Tree, ber: Bytes)
    requires WellShaped(t) && t.Node? && t.id == [48] && Print(t) == ber
    ensures Normalize(ber).Ok? <==> Height(t) <= 64
    ensures Height(t) > 64 ==> Normalize(ber) == Err(TooDeep)
  {
    assert ber[0..0 + |ber|] == ber;
    if Height(t) <= 64 {
      Complete(t, 0, ber, 0);
    } else {
      Started(t, ber, 0);
      TooHigh(t, 0, ber, 0);
    }
  }
}
