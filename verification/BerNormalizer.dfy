/**
 `normalizePKCS12BER` itself: the reader class with its `changed` flag, the entry point, and the
 theorems about what normalization preserves and when it changes anything.
 */
module BerNormalizer {
  import opened Asn1
  import opened Wrappers
  import opened BerGrammar
  import opened BerReader
  import opened BerReaderProofs
  import opened BerWriter

  // ----- canonical objects and their DER tree -----

  /** Objects the reader can return at this depth. */
  predicate Canonical(o: Object, depth: nat)
    decreases o
  {
    && depth <= MAX_DEPTH
    && ValidIdentifier(o.tag)
    && !IsEndOfContents(o.tag)
    && match o {
         case Primitive(tag, _) => !Constructed(tag[0])
         case Structured(tag, children) =>
           && Constructed(tag[0])
           && (Universal(tag[0]) ==> TagNumber(tag) in {16, 17})
           && CanonicalAll(children, depth + 1)
       }
  }

  predicate CanonicalAll(os: seq<Object>, depth: nat)
    decreases os
  {
    os == [] || (Canonical(os[0], depth) && CanonicalAll(os[1..], depth))
  }

  /** The derivation that encodes o with minimal definite lengths only. */
  function DerTree(o: Object): Tree
    decreases o
  {
    match o
    case Primitive(tag, content) => Leaf(tag, ShortestLength(|content|), content)
    case Structured(tag, children) => Node(tag, ShortestLength(|EncodeAll(children)|), DerTrees(children))
  }

  function DerTrees(os: seq<Object>): seq<Tree>
    decreases os
  {
    if os == [] then [] else [DerTree(os[0])] + DerTrees(os[1..])
  }

  /** The writer prints exactly that derivation. */
  lemma {:induction false} WriterPrintsDerTree(o: Object)
    ensures Print(DerTree(o)) == Encode(o)
    decreases o
  {
    if o.Structured? {
      WriterPrintsDerTrees(o.children);
      assert EncodeAll(o.children) + [] == EncodeAll(o.children);
    }
  }

  lemma {:induction false} WriterPrintsDerTrees(os: seq<Object>)
    ensures PrintAll(DerTrees(os)) == EncodeAll(os)
    decreases os
  {
    if os != [] {
      WriterPrintsDerTree(os[0]);
      WriterPrintsDerTrees(os[1..]);
      assert DerTrees(os)[1..] == DerTrees(os[1..]);
    }
  }

  lemma {:induction false} DerTreeIsDistinguished(o: Object, depth: nat)
    requires Canonical(o, depth) && |Encode(o)| <= MAX_INT
    ensures WellFormed(DerTree(o), depth) && Distinguished(DerTree(o)) && Denote(DerTree(o)) == o
    decreases o
  {
    match o
    case Primitive(tag, content) => ShortestLengthIsMinimal(|content|);
    case Structured(tag, children) =>
      ShortestLengthIsMinimal(|EncodeAll(children)|);
      DerTreesAreDistinguished(children, depth + 1);
      WriterPrintsDerTrees(children);
  }

  lemma {:induction false} DerTreesAreDistinguished(os: seq<Object>, depth: nat)
    requires CanonicalAll(os, depth) && |EncodeAll(os)| <= MAX_INT
    ensures WellFormedAll(DerTrees(os), depth) && DistinguishedAll(DerTrees(os)) && DenoteAll(DerTrees(os)) == os
    decreases os
  {
    if os != [] {
      DerTreeIsDistinguished(os[0], depth);
      DerTreesAreDistinguished(os[1..], depth);
      assert DerTrees(os)[1..] == DerTrees(os[1..]);
    }
  }

  lemma {:induction false} DenotesCanonical(t: Tree, depth: nat)
    requires WellFormed(t, depth)
    ensures Canonical(Denote(t), depth)
    decreases t
  {
    hide ChunkContents, PrintAll, ValidLength, LengthValue, Base128, HighTagForm, Chunks;
    if t.Node? {
      ChildrenFormed(t, depth);
      DenoteCanonicals(t.children, depth + 1);
    }
  }

  lemma ChildrenFormed(t: Tree, depth: nat)
    requires WellFormed(t, depth) && t.Node?
    ensures WellFormedAll(t.children, depth + 1)
  {
    hide ValidIdentifier, IsEndOfContents, ValidLength, PrintAll, Chunks;
  }

  lemma {:induction false} DenoteCanonicals(ts: seq<Tree>, depth: nat)
    requires WellFormedAll(ts, depth)
    ensures CanonicalAll(DenoteAll(ts), depth)
    decreases ts
  {
    if ts != [] {
      DenotesCanonical(ts[0], depth);
      DenoteCanonicals(ts[1..], depth);
      assert DenoteAll(ts)[1..] == DenoteAll(ts[1..]);
    }
  }

  /** DER is unique: a distinguished derivation is the one the writer prints. */
  lemma {:induction false} DistinguishedIsDerTree(t: Tree, depth: nat)
    requires WellFormed(t, depth) && Distinguished(t)
    ensures t == DerTree(Denote(t))
    decreases t
  {
    MinimalLengthIsShortest(t.len);
    if t.Node? {
      DistinguishedAreDerTrees(t.children, depth + 1);
      WriterPrintsDerTrees(DenoteAll(t.children));
    }
  }

  lemma {:induction false} DistinguishedAreDerTrees(ts: seq<Tree>, depth: nat)
    requires WellFormedAll(ts, depth) && DistinguishedAll(ts)
    ensures ts == DerTrees(DenoteAll(ts))
    decreases ts
  {
    if ts != [] {
      DistinguishedIsDerTree(ts[0], depth);
      DistinguishedAreDerTrees(ts[1..], depth);
      assert DenoteAll(ts)[1..] == DenoteAll(ts[1..]);
    }
  }

  // ----- reader and writer together -----

  /** Printer then parser: what was written is read back, up to its end, with nothing to change. */
  lemma WrittenIsReadBack(o: Object, depth: nat, before: Bytes, after: Bytes)
    requires Canonical(o, depth) && |Encode(o)| <= MAX_INT
    ensures Read(before + Encode(o) + after, |before|, depth) == ObjectOk(o, |before + Encode(o)|, false)
  {
    var data := before + Encode(o) + after;
    DerTreeIsDistinguished(o, depth);
    WriterPrintsDerTree(o);
    assert data[|before|..|before| + |Encode(o)|] == Encode(o);
    Complete(DerTree(o), depth, data, |before|);
  }

  /** Parser then printer: an unchanged object is written with the very octets it was read from. */
  lemma UnchangedIsWrittenBack(data: Bytes, offset: nat, depth: nat)
    requires offset <= |data| && Read(data, offset, depth).ObjectOk? && !Read(data, offset, depth).changed
    ensures var r := Read(data, offset, depth);
            Encode(r.obj) == data[offset..r.next]
  {
    var t := Sound(data, offset, depth);
    DistinguishedIsDerTree(t, depth);
    WriterPrintsDerTree(Denote(t));
  }

  // ----- size -----

  lemma ShortestLengthSize(len: LengthForm, m: nat)
    requires ValidLength(len) && !len.Indefinite? && m <= 3 * LengthValue(len) && m <= MAX_INT
    ensures |LengthOctets(ShortestLength(m))| <= 3 * |LengthOctets(len)|
    ensures m == 0 ==> |LengthOctets(ShortestLength(m))| == 1
  {
    DigitsCount(m);
    if |LengthOctets(len)| <= 2 {
      if len.Long? {
        assert len.octets[..|len.octets| - 1] == [];
        assert Base256(len.octets) == Base256([]) * 256 + len.octets[0];
      }
      assert LengthValue(len) < 256;
      assert Pow256(2) == 65536;
      DigitsBound(m, 2);
    }
  }

  /** Normalization may lengthen its input (an indefinite length becomes up to nine octets), but not threefold. */
  lemma {:induction false} NormalizationSize(t: Tree, depth: nat)
    requires WellFormed(t, depth) && 3 * |Print(t)| <= MAX_INT
    ensures |Encode(Denote(t))| <= 3 * |Print(t)| - 3
    decreases t
  {
    match t
    case Leaf(id, len, content) => ShortestLengthSize(len, |content|);
    case Node(id, len, children) =>
      var m := if IsOctetString(id) then |ChunkContents(children)| else |EncodeAll(DenoteAll(children))|;
      if IsOctetString(id) {
        ChunkSizes(children);
      } else {
        NormalizationSizes(children, depth + 1);
      }
      if len.Indefinite? {
        DigitsCount(m);
      } else {
        ShortestLengthSize(len, m);
      }
  }

  lemma {:induction false} NormalizationSizes(ts: seq<Tree>, depth: nat)
    requires WellFormedAll(ts, depth) && 3 * |PrintAll(ts)| <= MAX_INT
    ensures |EncodeAll(DenoteAll(ts))| <= 3 * |PrintAll(ts)| - 3 * |ts|
    decreases ts
  {
    if ts != [] {
      NormalizationSize(ts[0], depth);
      NormalizationSizes(ts[1..], depth);
      assert DenoteAll(ts)[1..] == DenoteAll(ts[1..]);
    }
  }

  lemma {:induction false} ChunkSizes(ts: seq<Tree>)
    ensures |ChunkContents(ts)| <= |PrintAll(ts)|
    decreases ts
  {
    if ts != [] {
      if ts[0].Node? {
        ChunkSizes(ts[0].children);
      }
      ChunkSizes(ts[1..]);
    }
  }

  // ----- the reader class -----

  lemma IndefiniteIsChanged(data: Bytes)
    ensures forall offset: nat :: offset <= |data| && ReadLength(data, offset).LengthOk?
                                  && ReadLength(data, offset).length.None? ==>
              ReadLength(data, offset).changed
  {
  }

  class BerParser {
    const data: Bytes
    var changed: bool

    constructor (data: Bytes)
      ensures this.data == data && !changed
    {
      this.data := data;
      changed := false;
    }

    method ParseTag(start: nat) returns (r: TagResult)
      requires start < |data|
      ensures r == ReadTag(data, start)
    {
      var tag: nat := data[start] % 32;
      var offset := start + 1;
      if tag == 31 {
        tag := 0;
        var first := true;
        while true
          invariant start < offset <= |data|
          invariant ReadHighTag(data, offset, tag, first) == ReadHighTag(data, start + 1, 0, true)
          decreases |data| - offset
        {
          if offset >= |data| {
            return TagErr(TruncatedHighTag);
          }
          var b := data[offset];
          offset := offset + 1;
          if first && b == 128 {
            return TagErr(NonMinimalHighTag);
          }
          first := false;
          if tag > (MAX_INT - b % 128) / 128 {
            return TagErr(TagTooLarge);
          }
          tag := tag * 128 + b % 128;
          if b < 128 {
            break;
          }
        }
        if tag < 31 {
          return TagErr(NonMinimalHighTag);
        }
      }
      return TagOk(tag, offset);
    }

    method ParseLength(start: nat) returns (r: Result<(Option<nat>, nat), Error>)
      requires start <= |data|
      modifies this
      ensures r == LengthOnly(ReadLength(data, start))
      ensures r.Ok? ==> changed == (old(changed) || (r.value.0.Some? && ReadLength(data, start).changed))
    {
      if start >= |data| {
        return Err(TruncatedLength);
      }
      var offset := start;
      var firstLengthByte := data[offset];
      offset := offset + 1;
      if firstLengthByte == 128 {
        return Ok((None, offset));
      }
      if firstLengthByte < 128 {
        return Ok((Some(firstLengthByte), offset));
      }
      var numberOfBytes := firstLengthByte % 128;
      if numberOfBytes == 0 || numberOfBytes > INT_BYTES {
        return Err(LengthTooLarge);
      }
      if numberOfBytes > |data| - offset {
        return Err(TruncatedLength);
      }
      if data[offset] == 0 {
        changed := true;
      }
      var length: nat := 0;
      var left := numberOfBytes;
      while left > 0
        invariant 0 <= left <= numberOfBytes && offset == start + 1 + (numberOfBytes - left)
        invariant ReadLengthOctets(data, offset, left, length) == ReadLengthOctets(data, start + 1, numberOfBytes, 0)
      {
        if length > (MAX_INT - data[offset]) / 256 {
          return Err(LengthOverflows);
        }
        length := length * 256 + data[offset];
        offset := offset + 1;
        left := left - 1;
      }
      if length < 128 {
        changed := true;
      }
      return Ok((Some(length), offset));
    }

    /** readObject: on success the flag records exactly whether something was not canonical. */
    method ReadObject(start: nat, depth: nat) returns (r: Result<(Object, nat), Error>)
      requires start <= |data|
      modifies this
      ensures r == ObjectOnly(Read(data, start, depth))
      ensures r.Ok? ==> changed == (old(changed) || Read(data, start, depth).changed)
      decreases |data| - start, 0
    {
      hide ReadTag, ReadLength, Flatten;
      IndefiniteIsChanged(data);
      if depth > MAX_DEPTH {
        return Err(TooDeep);
      }
      if start >= |data| {
        return Err(TruncatedTag);
      }
      var universal, constructed := Universal(data[start]), Constructed(data[start]);
      var tagRead := ParseTag(start);
      if tagRead.TagErr? {
        return Err(tagRead.error);
      }
      var tag, tagEnd := tagRead.number, tagRead.end;
      if universal && tag == 0 {
        return Err(UnexpectedEndOfContents);
      }
      var lengthRead := ParseLength(tagEnd);
      if lengthRead.Err? {
        return Err(lengthRead.error);
      }
      var (length, offset) := lengthRead.value;
      var indefinite := length.None?;
      if indefinite && !constructed {
        return Err(IndefinitePrimitive);
      }
      if indefinite {
        changed := true;
      }
      if constructed && universal && tag != 4 && tag != 16 && tag != 17 {
        return Err(UnsupportedConstructed(tag));
      }
      var tagBytes := data[start..tagEnd];
      if !indefinite && length.value > |data| - offset {
        return Err(ContentExceedsData);
      }
      if !constructed {
        var contentEnd := offset + length.value;
        return Ok((Primitive(tagBytes, data[offset..contentEnd]), contentEnd));
      }

      var forest := ReadForest(offset, depth, if indefinite then None else Some(offset + length.value));
      if forest.Err? {
        return Err(forest.error);
      }
      var (children, next) := forest.value;
      if universal && tag == 4 {
        var content := FlattenOctetStrings(children);
        if content.None? {
          return Err(ChunkNotOctetString);
        }
        tagBytes := tagBytes[0 := tagBytes[0] - 32];
        changed := true;
        return Ok((Primitive(tagBytes, content.value), next));
      }
      return Ok((Structured(tagBytes, children), next));
    }

    /** The loop over the children of a constructed encoding; `next <= offset` never holds in it. */
    method ReadForest(start: nat, depth: nat, end: Option<nat>) returns (r: Result<(seq<Object>, nat), Error>)
      requires start <= |data| && (end.Some? ==> start <= end.value <= |data|)
      modifies this
      ensures r == ForestOnly(ReadChildren(data, start, depth, end))
      ensures r.Ok? ==> changed == (old(changed) || ReadChildren(data, start, depth, end).changed)
      decreases |data| - start, 1
    {
      hide Read;
      var children := [];
      var offset := start;
      ghost var whole := ReadChildren(data, start, depth, end);
      ghost var seen := false;
      while end.None? || offset < end.value
        invariant start <= offset <= |data| && (end.Some? ==> offset <= end.value)
        invariant whole == Prepend(children, seen, ReadChildren(data, offset, depth, end))
        invariant changed == (old(changed) || seen)
        decreases |data| - offset
      {
        if end.None? {
          if offset + 2 > |data| {
            return Err(MissingEndOfContents);
          }
          if data[offset] == 0 && data[offset + 1] == 0 {
            offset := offset + 2;
            break;
          }
        }
        var read := ReadObject(offset, depth + 1);
        if read.Err? {
          return Err(read.error);
        }
        var (child, next) := read.value;
        if next <= offset || (end.Some? && next > end.value) {
          return Err(InvalidBoundary);
        }
        ghost var childChanged := Read(data, offset, depth + 1).changed;
        PrependOne(children, seen, child, childChanged, ReadChildren(data, next, depth, end));
        children := children + [child];
        seen := seen || childChanged;
        offset := next;
      }
      assert children + [] == children;
      return Ok((children, offset));
    }

    static method FlattenOctetStrings(children: seq<Object>) returns (r: Option<Bytes>)
      ensures r == Flatten(children)
    {
      var out := new Buffer();
      var i := 0;
      assert children[0..] == children;
      assert forall b: Bytes {:trigger [] + b} :: [] + b == b;
      while i < |children|
        invariant 0 <= i <= |children|
        invariant Flatten(children) == Glue(out.contents, Flatten(children[i..]))
      {
        var child := children[i];
        if !(child.Primitive? && child.tag == [4]) {
          return None;
        }
        assert children[i..][1..] == children[i + 1..];
        GlueTwice(out.contents, child.content, Flatten(children[i + 1..]));
        out.Write(child.content);
        i := i + 1;
      }
      assert children[i..] == [] && out.contents + [] == out.contents;
      return Some(out.contents);
    }
  }

  /** Content already written, in front of what is still to come. */
  function Glue(written: Bytes, rest: Option<Bytes>): Option<Bytes> {
    if rest.None? then None else Some(written + rest.value)
  }

  lemma GlueTwice(a: Bytes, b: Bytes, rest: Option<Bytes>)
    ensures Glue(a, Glue(b, rest)) == Glue(a + b, rest)
  {
    if rest.Some? {
      assert a + (b + rest.value) == (a + b) + rest.value;
    }
  }

  /** Children already read, in front of those still to come. */
  function Prepend(children: seq<Object>, changed: bool, rest: ForestResult): ForestResult {
    if rest.ForestErr? then rest else ForestOk(children + rest.children, rest.next, changed || rest.changed)
  }

  lemma PrependOne(children: seq<Object>, changed: bool, o: Object, oChanged: bool, rest: ForestResult)
    ensures Prepend(children, changed, Prepend([o], oChanged, rest))
         == Prepend(children + [o], changed || oChanged, rest)
  {
    if rest.ForestOk? {
      assert children + ([o] + rest.children) == (children + [o]) + rest.children;
    }
  }

  // ----- normalizePKCS12BER -----

  /** The whole function: the normalized octets and whether they differ, or the error. */
  function Normalize(ber: Bytes): Result<(Bytes, bool), Error> {
    if ber == [] then Err(EmptyInput)
    else
      match Read(ber, 0, 0)
      case ObjectErr(e) => Err(e)
      case ObjectOk(obj, next, changed) =>
        if next != |ber| then Err(TrailingData)
        else if !(obj.Structured? && obj.tag == [48]) then Err(RootNotSequence)
        else Ok((Encode(obj), changed || Encode(obj) != ber))
  }

  /** The inputs are Go slices; a third of the largest leaves room for the output to be one too. */
  method NormalizePKCS12BER(ber: Bytes) returns (r: Result<(Bytes, bool), Error>)
    requires 3 * |ber| <= MAX_INT
    ensures r == Normalize(ber)
  {
    if |ber| == 0 {
      return Err(EmptyInput);
    }
    var parser := new BerParser(ber);
    var read := parser.ReadObject(0, 0);
    if read.Err? {
      return Err(read.error);
    }
    var (obj, offset) := read.value;
    if offset != |ber| {
      return Err(TrailingData);
    }
    if !(obj.Structured? && obj.tag == [48]) {
      return Err(RootNotSequence);
    }
    ghost var t := Sound(ber, 0, 0);
    assert |Print(t)| == |ber|;
    NormalizationSize(t, 0);
    var out := new Buffer();
    var _ := EncodeTo(obj, out);
    assert [] + Encode(obj) == Encode(obj);
    var der := out.contents;
    return Ok((der, parser.changed || ber != der));
  }

  /** A PKCS#12 file in BER: one SEQUENCE that fills the input. */
  ghost predicate EncodesSequence(t: Tree, ber: Bytes) {
    WellFormed(t, 0) && Print(t) == ber && t.Node? && t.id == [48]
  }

  /**
   Meaning is preserved: normalization succeeds exactly on the SEQUENCEs of the grammar, and then
   input and output derive the same object, the output by a derivation with only minimal definite
   lengths and no constructed OCTET STRING.
   */
  lemma NormalizePreservesMeaning(ber: Bytes)
    requires 3 * |ber| <= MAX_INT
    ensures Normalize(ber).Ok? <==> exists t :: EncodesSequence(t, ber)
    ensures Normalize(ber).Ok? ==>
      exists s, t :: && EncodesSequence(s, ber) && EncodesSequence(t, Normalize(ber).value.0)
                     && Denote(s) == Denote(t) && Distinguished(t)
  {
    forall t | EncodesSequence(t, ber)
      ensures Normalize(ber).Ok?
    {
      assert ber[0..0 + |ber|] == ber;
      Complete(t, 0, ber, 0);
    }
    if Normalize(ber).Ok? {
      var s, t := Derivations(ber);
    }
  }

  lemma Derivations(ber: Bytes) returns (s: Tree, t: Tree)
    requires 3 * |ber| <= MAX_INT && Normalize(ber).Ok?
    ensures EncodesSequence(s, ber) && EncodesSequence(t, Normalize(ber).value.0)
    ensures Denote(s) == Denote(t) && Distinguished(t) && Normalize(ber).value.0 == Encode(Denote(s))
    ensures Canonical(Denote(s), 0) && |Encode(Denote(s))| <= MAX_INT
    ensures Read(ber, 0, 0).changed == !Distinguished(s)
  {
    s := Sound(ber, 0, 0);
    assert ber[0..|ber|] == ber;
    DenotesCanonical(s, 0);
    NormalizationSize(s, 0);
    var o := Denote(s);
    t := DerTree(o);
    DerTreeIsDistinguished(o, 0);
    WriterPrintsDerTree(o);
  }

  lemma EncodingIsRead(o: Object)
    requires Canonical(o, 0) && |Encode(o)| <= MAX_INT
    ensures Read(Encode(o), 0, 0) == ObjectOk(o, |Encode(o)|, false)
  {
    hide *;
    WrittenIsReadBack(o, 0, [], []);
    assert [] + Encode(o) + [] == Encode(o);
  }

  /**
   The flag returned is true exactly when the octets differ, and so is the reader's own flag: the
   comparison adds nothing to it, nor it to the comparison.
   */
  lemma ChangedMeansDifferent(ber: Bytes)
    requires 3 * |ber| <= MAX_INT && Normalize(ber).Ok?
    ensures Normalize(ber).value.1 <==> Normalize(ber).value.0 != ber
    ensures Read(ber, 0, 0).changed <==> Normalize(ber).value.0 != ber
  {
    hide Read, Encode, Denote, Canonical, Distinguished, EncodesSequence;
    var s, t := Derivations(ber);
    if Normalize(ber).value.0 == ber {
      EncodingIsRead(Denote(s));
    }
    if !Read(ber, 0, 0).changed {
      UnchangedIsWrittenBack(ber, 0, 0);
      assert ber[0..|ber|] == ber;
    }
  }

  /** Normalizing twice is normalizing once. */
  lemma NormalizeIdempotent(ber: Bytes)
    requires 3 * |ber| <= MAX_INT && Normalize(ber).Ok?
    ensures Normalize(Normalize(ber).value.0) == Ok((Normalize(ber).value.0, false))
  {
    hide Read, Encode, Denote, Canonical, Distinguished, EncodesSequence;
    var s, t := Derivations(ber);
    EncodingIsRead(Denote(s));
    RootKept(ber, s);
  }

  /** The object written is the one that was read, a SEQUENCE. */
  lemma RootKept(ber: Bytes, s: Tree)
    requires Normalize(ber).Ok? && EncodesSequence(s, ber)
    ensures Denote(s).Structured? && Denote(s).tag == [48] && Encode(Denote(s)) != []
  {
  }

  lemma NormalForm(t: Tree, ber: Bytes)
    requires 3 * |ber| <= MAX_INT && EncodesSequence(t, ber)
    ensures Normalize(ber).Ok? && Normalize(ber).value.0 == Encode(Denote(t))
    ensures Canonical(Denote(t), 0) && |Encode(Denote(t))| <= MAX_INT
  {
    assert ber[0..0 + |ber|] == ber;
    Complete(t, 0, ber, 0);
    DenotesCanonical(t, 0);
    NormalizationSize(t, 0);
  }

  /** The writer is injective on what the reader can return. */
  lemma EncodeInjective(o: Object, p: Object)
    requires Canonical(o, 0) && Canonical(p, 0) && |Encode(o)| <= MAX_INT && Encode(o) == Encode(p)
    ensures o == p
  {
    WrittenIsReadBack(o, 0, [], []);
    WrittenIsReadBack(p, 0, [], []);
  }

  /** Two inputs normalize to the same octets exactly when they mean the same. */
  lemma NormalFormIsCanonical(a: Tree, b: Tree, x: Bytes, y: Bytes)
    requires 3 * |x| <= MAX_INT && 3 * |y| <= MAX_INT && EncodesSequence(a, x) && EncodesSequence(b, y)
    ensures Normalize(x).Ok? && Normalize(y).Ok?
    ensures Normalize(x).value.0 == Normalize(y).value.0 <==> Denote(a) == Denote(b)
  {
    hide *;
    NormalForm(a, x);
    NormalForm(b, y);
    if Encode(Denote(a)) == Encode(Denote(b)) {
      EncodeInjective(Denote(a), Denote(b));
    }
  }
}
