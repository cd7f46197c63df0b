/**
 The reader accepts exactly the grammar: it succeeds at a position if and only if a well-formed
 derivation tree is printed there, and then it returns what that tree denotes.
 */
module BerReaderProofs {
  import opened Asn1
  import opened Wrappers
  import opened BerGrammar
  import opened BerReader

  // ----- octets at a position -----

  predicate At(data: Bytes, offset: nat, s: Bytes) {
    offset + |s| <= |data| && data[offset..offset + |s|] == s
  }

  lemma AtConcat(data: Bytes, offset: nat, a: Bytes, b: Bytes)
    ensures At(data, offset, a + b) <==> At(data, offset, a) && At(data, offset + |a|, b)
  {
    if offset + |a| + |b| <= |data| {
      assert data[offset..offset + |a + b|] ==
             data[offset..offset + |a|] + data[offset + |a|..offset + |a| + |b|];
      if data[offset..offset + |a + b|] == a + b {
        assert (a + b)[..|a|] == a && (a + b)[|a|..] == b;
      }
    }
  }

  // ----- tags -----

  /** The overflow guard fires exactly when the number spelled is no 64-bit int: from 2 to the 63 on. */
  lemma {:induction false} HighTagComplete(data: Bytes, start: nat, s: Bytes, k: nat)
    requires At(data, start, s) && HighTagForm(s) && k < |s|
    requires Base128(s[..k]) <= MAX_INT
    ensures ReadHighTag(data, start + k, Base128(s[..k]), k == 0)
         == if Base128(s) < 0x8000_0000_0000_0000 then TagOk(Base128(s), start + |s|) else TagErr(TagTooLarge)
    decreases |s| - k
  {
    hide Base128, At;
    AtIndex(data, start, s, k);
    Base128Next(s, k);
    Base128Prefix(s, k + 1);
    if Base128(s[..k + 1]) <= MAX_INT {
      if k == |s| - 1 {
        assert s[..k + 1] == s;
      } else {
        HighTagComplete(data, start, s, k + 1);
      }
    }
  }

  lemma Base128Next(s: Bytes, k: nat)
    requires k < |s|
    ensures Base128(s[..k + 1]) == Base128(s[..k]) * 128 + s[k] % 128
  {
    assert s[..k + 1][..k] == s[..k];
  }

  lemma {:induction false} HighTagSound(data: Bytes, start: nat, offset: nat)
    requires start <= offset <= |data|
    requires forall i :: start <= i < offset ==> data[i] >= 128
    requires start < offset ==> data[start] != 128
    requires Base128(data[start..offset]) <= MAX_INT
    ensures var r := ReadHighTag(data, offset, Base128(data[start..offset]), offset == start);
            r.TagOk? ==> var s := data[start..r.end];
                         HighTagForm(s) && Base128(s) == r.number <= MAX_INT
    decreases |data| - offset
  {
    if offset < |data| {
      var b := data[offset];
      var s := data[start..offset + 1];
      assert s[..|s| - 1] == data[start..offset];
      assert Base128(s) == Base128(data[start..offset]) * 128 + b % 128;
      if b >= 128 && !(start == offset && b == 128) && Base128(s) <= MAX_INT {
        HighTagSound(data, start, offset + 1);
      }
    }
  }

  lemma TagSound(data: Bytes, offset: nat)
    requires offset < |data|
    ensures var r := ReadTag(data, offset);
            r.TagOk? ==> var id := data[offset..r.end];
                         ValidIdentifier(id) && TagNumber(id) == r.number
  {
    var r := ReadTag(data, offset);
    if r.TagOk? && data[offset] % 32 == 31 {
      assert data[offset + 1..offset + 1] == [];
      HighTagSound(data, offset + 1, offset + 1);
      assert data[offset..r.end][1..] == data[offset + 1..r.end];
    }
  }

  lemma TagComplete(data: Bytes, offset: nat, id: Bytes)
    requires ValidIdentifier(id) && At(data, offset, id)
    ensures ReadTag(data, offset) == TagOk(TagNumber(id), offset + |id|)
    ensures data[offset] == id[0]
  {
    assert data[offset] == data[offset..offset + |id|][0];
    if id[0] % 32 == 31 {
      var s := id[1..];
      assert id == id[..1] + s;
      AtConcat(data, offset, id[..1], s);
      assert s[..0] == [];
      HighTagComplete(data, offset + 1, s, 0);
    }
  }

  // ----- lengths -----

  /** The overflow guard fires exactly when the number spelled is no 64-bit int: from 2 to the 63 on. */
  lemma {:induction false} LengthOctetsRead(data: Bytes, start: nat, s: Bytes, k: nat)
    requires At(data, start, s) && k <= |s|
    requires Base256(s[..k]) <= MAX_INT
    ensures ReadLengthOctets(data, start + k, |s| - k, Base256(s[..k]))
         == if Base256(s) < 0x8000_0000_0000_0000 then Some(Base256(s)) else None
    decreases |s| - k
  {
    if k == |s| {
      assert s[..k] == s;
    } else {
      var b := data[start + k];
      assert b == data[start..start + |s|][k] == s[k];
      assert s[..k + 1][..k] == s[..k];
      Base256Prefix(s, k + 1);
      if Base256(s[..k + 1]) <= MAX_INT {
        LengthOctetsRead(data, start, s, k + 1);
      }
    }
  }

  function FormValue(len: LengthForm): Option<nat> {
    if len.Indefinite? then None else Some(LengthValue(len))
  }

  lemma LengthComplete(data: Bytes, offset: nat, len: LengthForm)
    requires ValidLength(len) && At(data, offset, LengthOctets(len))
    ensures ReadLength(data, offset)
         == LengthOk(FormValue(len), offset + |LengthOctets(len)|, !MinimalLength(len))
  {
    if len.Long? {
      LongLengthComplete(data, offset, len);
    } else {
      assert data[offset] == data[offset..offset + |LengthOctets(len)|][0];
    }
  }

  lemma AtIndex(data: Bytes, offset: nat, s: Bytes, k: nat)
    requires At(data, offset, s) && k < |s|
    ensures offset + k < |data| && data[offset + k] == s[k]
  {
    assert data[offset..offset + |s|][k] == s[k];
  }

  lemma LongLengthComplete(data: Bytes, offset: nat, len: LengthForm)
    requires len.Long? && ValidLength(len) && At(data, offset, LengthOctets(len))
    ensures ReadLength(data, offset)
              == LengthOk(Some(Base256(len.octets)), offset + |LengthOctets(len)|, !MinimalLength(len))
  {
    hide Base256, ReadLengthOctets, At;
    var head: Bytes := [128 + |len.octets|];
    assert LengthOctets(len) == head + len.octets;
    AtConcat(data, offset, head, len.octets);
    AtIndex(data, offset, head, 0);
    AtIndex(data, offset + 1, len.octets, 0);
    AtFits(data, offset + 1, len.octets);
    OctetsRead(data, offset + 1, len.octets);
  }

  lemma OctetsRead(data: Bytes, start: nat, s: Bytes)
    requires At(data, start, s) && Base256(s) <= MAX_INT
    ensures start + |s| <= |data| && ReadLengthOctets(data, start, |s|, 0) == Some(Base256(s))
  {
    hide Base256, ReadLengthOctets;
    assert s[..0] == [];
    NoOctets();
    LengthOctetsRead(data, start, s, 0);
  }

  lemma NoOctets()
    ensures Base256([]) == 0
  {
  }

  lemma LengthSound(data: Bytes, offset: nat) returns (len: LengthForm)
    requires offset <= |data| && ReadLength(data, offset).LengthOk?
    ensures var r := ReadLength(data, offset);
            && ValidLength(len) && LengthOctets(len) == data[offset..r.end]
            && r.length == FormValue(len) && r.changed == !MinimalLength(len)
  {
    var first := data[offset];
    if first == 128 {
      len := Indefinite;
      assert LengthOctets(len) == data[offset..offset + 1];
    } else if first < 128 {
      len := Short(first);
      assert LengthOctets(len) == data[offset..offset + 1];
    } else {
      len := LongLengthSound(data, offset);
    }
  }

  lemma LongLengthSound(data: Bytes, offset: nat) returns (len: LengthForm)
    requires offset < |data| && data[offset] > 128 && ReadLength(data, offset).LengthOk?
    ensures var r := ReadLength(data, offset);
            && len.Long? && ValidLength(len) && LengthOctets(len) == data[offset..r.end]
            && r.length == Some(Base256(len.octets)) && r.changed == !MinimalLength(len)
  {
    hide Base256, ReadLengthOctets;
    NoOctets();
    var count := data[offset] - 128;
    var octets := data[offset + 1..offset + 1 + count];
    len := Long(octets);
    assert At(data, offset + 1, octets);
    assert octets[..0] == [];
    LengthOctetsRead(data, offset + 1, octets, 0);
    assert octets[0] == data[offset + 1];
    assert data[offset..offset + 1 + count] == [data[offset]] + octets;
  }

  // ----- chunked OCTET STRINGs -----

  lemma {:induction false} FlattenComplete(ts: seq<Tree>)
    requires Chunks(ts) && (forall i :: 0 <= i < |ts| && ts[i].Leaf? ==> ts[i].id == [4])
    ensures Flatten(DenoteAll(ts)) == Some(ChunkContents(ts))
  {
    if ts != [] {
      assert DenoteAll(ts)[1..] == DenoteAll(ts[1..]);
      FlattenComplete(ts[1..]);
      assert IsOctetString(ts[0].id);
    }
  }

  lemma {:induction false} LeafChunks(ts: seq<Tree>, depth: nat)
    requires WellFormedAll(ts, depth) && Chunks(ts)
    ensures forall i :: 0 <= i < |ts| && ts[i].Leaf? ==> ts[i].id == [4]
  {
    if ts != [] {
      LeafChunks(ts[1..], depth);
      assert IsOctetString(ts[0].id);
      if ts[0].Leaf? {
        assert WellShaped(ts[0]);
        LowOctetString(ts[0].id);
      }
    }
  }

  lemma LowOctetString(id: Bytes)
    requires ValidIdentifier(id) && IsOctetString(id)
    ensures id == [if Constructed(id[0]) then 36 else 4]
  {
  }

  lemma {:induction false} FlattenSound(ts: seq<Tree>, depth: nat)
    requires WellFormedAll(ts, depth) && Flatten(DenoteAll(ts)).Some?
    ensures Chunks(ts)
  {
    if ts != [] {
      assert DenoteAll(ts)[1..] == DenoteAll(ts[1..]);
      FlattenSound(ts[1..], depth);
      assert Denote(ts[0]).tag == [4];
      assert IsOctetString(ts[0].id);
      forall i | 0 <= i < |ts|
        ensures IsOctetString(ts[i].id)
      {
        if i > 0 { assert ts[i] == ts[1..][i - 1]; }
      }
    }
  }

  // ----- every well-formed tree is read back -----

  /** What follows the children: nothing in the definite form, two zero octets in the other. */
  function Closing(end: Option<nat>): Bytes {
    if end.None? then END_OF_CONTENTS else []
  }

  function ContentEnd(start: nat, len: LengthForm): Option<nat> {
    if len.Indefinite? then None else Some(start + LengthValue(len))
  }

  predicate ValidHeader(id: Bytes, len: LengthForm) {
    ValidIdentifier(id) && !IsEndOfContents(id) && ValidLength(len)
  }

  predicate LeafTag(id: Bytes) {
    id != [] && !Constructed(id[0])
  }

  predicate NodeTag(id: Bytes) {
    id != [] && Constructed(id[0]) && (Universal(id[0]) ==> TagNumber(id) in {4, 16, 17})
  }

  lemma SplitHeader(data: Bytes, offset: nat, id: Bytes, length: Bytes, body: Bytes)
    requires At(data, offset, id + (length + body))
    ensures At(data, offset, id) && At(data, offset + |id|, length) && At(data, offset + |id| + |length|, body)
  {
    AtConcat(data, offset, id, length + body);
    AtConcat(data, offset + |id|, length, body);
  }

  lemma HeaderComplete(data: Bytes, offset: nat, depth: nat, id: Bytes, len: LengthForm)
    requires depth <= MAX_DEPTH && ValidHeader(id, len)
    requires At(data, offset, id) && At(data, offset + |id|, LengthOctets(len))
    ensures Read(data, offset, depth)
         == ReadBody(data, offset, depth, TagNumber(id), offset + |id|, FormValue(len),
                     offset + |id| + |LengthOctets(len)|, !MinimalLength(len))
  {
    hide ReadTag, ReadLength, ReadBody, LengthOctets, FormValue, MinimalLength, TagNumber, ValidLength;
    TagComplete(data, offset, id);
    LengthComplete(data, offset + |id|, len);
  }

  /** What ReadBody makes of a primitive encoding. */
  lemma LeafBody(data: Bytes, offset: nat, depth: nat, id: Bytes, len: LengthForm, start: nat, content: Bytes)
    requires id != [] && offset + |id| < start && At(data, offset, id) && At(data, start, content)
    requires LeafTag(id) && FormValue(len) == Some(|content|)
    ensures ReadBody(data, offset, depth, TagNumber(id), offset + |id|, FormValue(len), start, !MinimalLength(len))
         == ObjectOk(Primitive(id, content), start + |content|, !MinimalLength(len))
  {
    assert data[offset] == data[offset..offset + |id|][0];
  }

  /** What a constructed encoding yields once its children have been read. */
  function NodeResult(id: Bytes, len: LengthForm, forest: ForestResult): ObjectResult
    requires forest.ForestOk?
  {
    if !IsOctetString(id) then
      ObjectOk(Structured(id, forest.children), forest.next, !MinimalLength(len) || forest.changed)
    else
      match Flatten(forest.children)
      case None => ObjectErr(ChunkNotOctetString)
      case Some(content) => ObjectOk(Primitive([4], content), forest.next, true)
  }

  lemma NodeBody(data: Bytes, offset: nat, depth: nat, id: Bytes, len: LengthForm, start: nat)
    requires ValidIdentifier(id) && NodeTag(id) && offset + |id| < start <= |data| && At(data, offset, id)
    requires !len.Indefinite? ==> start + LengthValue(len) <= |data|
    requires ReadChildren(data, start, depth, ContentEnd(start, len)).ForestOk?
    ensures ReadBody(data, offset, depth, TagNumber(id), offset + |id|, FormValue(len), start, !MinimalLength(len))
         == NodeResult(id, len, ReadChildren(data, start, depth, ContentEnd(start, len)))
  {
    assert data[offset] == data[offset..offset + |id|][0];
    if IsOctetString(id) {
      LowOctetString(id);
      var tag := data[offset..offset + |id|];
      assert tag[0 := tag[0] - 32] == [4];
    }
  }

  lemma LeafParts(t: Tree, depth: nat)
    requires WellFormed(t, depth) && t.Leaf?
    ensures depth <= MAX_DEPTH && ValidHeader(t.id, t.len) && LeafTag(t.id)
    ensures FormValue(t.len) == Some(|t.content|) && |LengthOctets(t.len)| > 0
    ensures Print(t) == t.id + (LengthOctets(t.len) + t.content)
    ensures Denote(t) == Primitive(t.id, t.content) && Distinguished(t) == MinimalLength(t.len)
  {
  }

  lemma NodeParts(t: Tree, depth: nat, start: nat)
    requires WellFormed(t, depth) && t.Node?
    ensures depth <= MAX_DEPTH && ValidHeader(t.id, t.len) && ValidIdentifier(t.id) && NodeTag(t.id)
    ensures WellFormedAll(t.children, depth + 1) && |LengthOctets(t.len)| > 0
    ensures Print(t) == t.id + (LengthOctets(t.len) + (PrintAll(t.children) + Closing(ContentEnd(start, t.len))))
    ensures !t.len.Indefinite? ==> LengthValue(t.len) == |PrintAll(t.children)|
    ensures ContentEnd(start, t.len).Some? ==> ContentEnd(start, t.len).value == start + |PrintAll(t.children)|
  {
  }

  lemma NodeDenotes(t: Tree, depth: nat, next: nat)
    requires WellFormed(t, depth) && t.Node?
    ensures NodeResult(t.id, t.len, ForestOk(DenoteAll(t.children), next, !DistinguishedAll(t.children)))
         == ObjectOk(Denote(t), next, !Distinguished(t))
  {
    if IsOctetString(t.id) {
      LeafChunks(t.children, depth + 1);
      FlattenComplete(t.children);
    }
  }

  lemma {:induction false} Complete(t: Tree, depth: nat, data: Bytes, offset: nat)
    requires WellFormed(t, depth) && At(data, offset, Print(t))
    ensures Read(data, offset, depth) == ObjectOk(Denote(t), offset + |Print(t)|, !Distinguished(t))
    decreases t, 1
  {
    hide *;
    var length := LengthOctets(t.len);
    var start := offset + |t.id| + |length|;
    if t.Leaf? {
      LeafParts(t, depth);
      SplitHeader(data, offset, t.id, length, t.content);
      HeaderComplete(data, offset, depth, t.id, t.len);
      LeafBody(data, offset, depth, t.id, t.len, start, t.content);
    } else {
      var end := ContentEnd(start, t.len);
      var body := PrintAll(t.children) + Closing(end);
      NodeParts(t, depth, start);
      SplitHeader(data, offset, t.id, length, body);
      HeaderComplete(data, offset, depth, t.id, t.len);
      CompleteAll(t.children, depth, data, start, end);
      AtFits(data, start, body);
      NodeBody(data, offset, depth, t.id, t.len, start);
      NodeDenotes(t, depth, start + |body|);
    }
  }

  lemma AtFits(data: Bytes, offset: nat, s: Bytes)
    requires At(data, offset, s)
    ensures offset + |s| <= |data|
  {
  }

  lemma {:induction false} CompleteAll(ts: seq<Tree>, depth: nat, data: Bytes, offset: nat, end: Option<nat>)
    requires WellFormedAll(ts, depth + 1) && At(data, offset, PrintAll(ts) + Closing(end))
    requires end.Some? ==> end.value == offset + |PrintAll(ts)|
    ensures ReadChildren(data, offset, depth, end)
         == ForestOk(DenoteAll(ts), offset + |PrintAll(ts) + Closing(end)|, !DistinguishedAll(ts))
    decreases ts, 0
  {
    hide *;
    if ts == [] {
      ForestEnd(data, offset, depth, end);
    } else {
      ForestParts(ts, depth + 1, end);
      var rest := PrintAll(ts[1..]) + Closing(end);
      AtConcat(data, offset, Print(ts[0]), rest);
      AtFits(data, offset + |Print(ts[0])|, rest);
      Complete(ts[0], depth + 1, data, offset);
      CompleteAll(ts[1..], depth, data, offset + |Print(ts[0])|, end);
      FirstOctets(ts[0], depth + 1, data, offset);
      ReadOneMore(data, offset, depth, end);
    }
  }

  lemma ForestEnd(data: Bytes, offset: nat, depth: nat, end: Option<nat>)
    requires At(data, offset, PrintAll([]) + Closing(end)) && (end.Some? ==> end.value == offset + |PrintAll([])|)
    ensures ReadChildren(data, offset, depth, end)
         == ForestOk(DenoteAll([]), offset + |PrintAll([]) + Closing(end)|, !DistinguishedAll([]))
  {
    assert PrintAll([]) + Closing(end) == Closing(end);
    if end.None? {
      assert data[offset] == END_OF_CONTENTS[0] && data[offset + 1] == END_OF_CONTENTS[1];
    }
  }

  lemma ForestParts(ts: seq<Tree>, depth: nat, end: Option<nat>)
    requires WellFormedAll(ts, depth) && ts != []
    ensures WellFormed(ts[0], depth) && WellFormedAll(ts[1..], depth)
    ensures PrintAll(ts) + Closing(end) == Print(ts[0]) + (PrintAll(ts[1..]) + Closing(end))
    ensures |PrintAll(ts)| == |Print(ts[0])| + |PrintAll(ts[1..])|
    ensures DenoteAll(ts) == [Denote(ts[0])] + DenoteAll(ts[1..])
    ensures DistinguishedAll(ts) == (Distinguished(ts[0]) && DistinguishedAll(ts[1..]))
  {
  }

  /** No encoding starts like the end-of-contents marker. */
  lemma FirstOctets(t: Tree, depth: nat, data: Bytes, offset: nat)
    requires WellFormed(t, depth) && At(data, offset, Print(t))
    ensures |Print(t)| >= 2 && offset + 2 <= |data| && data[offset] != 0
  {
    assert data[offset] == data[offset..offset + |Print(t)|][0] == t.id[0];
  }

  lemma ReadOneMore(data: Bytes, offset: nat, depth: nat, end: Option<nat>)
    requires offset + 2 <= |data| && data[offset] != 0 && (end.Some? ==> offset < end.value <= |data|)
    requires Read(data, offset, depth + 1).ObjectOk?
    requires end.Some? ==> Read(data, offset, depth + 1).next <= end.value
    requires ReadChildren(data, Read(data, offset, depth + 1).next, depth, end).ForestOk?
    ensures var head := Read(data, offset, depth + 1);
            var rest := ReadChildren(data, head.next, depth, end);
            ReadChildren(data, offset, depth, end)
            == ForestOk([head.obj] + rest.children, rest.next, head.changed || rest.changed)
  {
  }

  // ----- everything read is a well-formed tree -----

  lemma HeaderSound(data: Bytes, offset: nat, depth: nat) returns (id: Bytes, len: LengthForm, start: nat)
    requires offset <= |data| && Read(data, offset, depth).ObjectOk?
    ensures depth <= MAX_DEPTH && ValidHeader(id, len) && ValidIdentifier(id)
    ensures offset + |id| < start <= |data| && data[offset..start] == id + LengthOctets(len)
    ensures At(data, offset, id)
    ensures Read(data, offset, depth)
         == ReadBody(data, offset, depth, TagNumber(id), offset + |id|, FormValue(len), start, !MinimalLength(len))
  {
    var tag := ReadTag(data, offset);
    TagSound(data, offset);
    id := data[offset..tag.end];
    len := LengthSound(data, tag.end);
    start := ReadLength(data, tag.end).end;
    assert data[offset..start] == id + data[tag.end..start];
  }

  /** A successful body is a leaf that fits, or a node whose children were all read. */
  lemma BodySound(data: Bytes, offset: nat, depth: nat, id: Bytes, len: LengthForm, start: nat)
    requires ValidIdentifier(id) && offset + |id| < start <= |data| && At(data, offset, id)
    requires ReadBody(data, offset, depth, TagNumber(id), offset + |id|, FormValue(len), start,
               !MinimalLength(len)).ObjectOk?
    ensures !len.Indefinite? ==> start + LengthValue(len) <= |data|
    ensures if Constructed(id[0]) then NodeTag(id) && ReadChildren(data, start, depth, ContentEnd(start, len)).ForestOk?
            else LeafTag(id) && !len.Indefinite?
  {
    assert data[offset] == data[offset..offset + |id|][0];
  }

  lemma {:induction false} Sound(data: Bytes, offset: nat, depth: nat) returns (t: Tree)
    requires offset <= |data| && Read(data, offset, depth).ObjectOk?
    ensures WellFormed(t, depth) && At(data, offset, Print(t))
    ensures Read(data, offset, depth) == ObjectOk(Denote(t), offset + |Print(t)|, !Distinguished(t))
    decreases |data| - offset, 0
  {
    hide *;
    var id, len, start := HeaderSound(data, offset, depth);
    BodySound(data, offset, depth, id, len, start);
    if !Constructed(id[0]) {
      t := LeafSound(data, offset, depth, id, len, start);
    } else {
      var children := SoundAll(data, start, depth, ContentEnd(start, len));
      t := Node(id, len, children);
      NodeSound(t, data, offset, depth, start);
    }
    Complete(t, depth, data, offset);
  }

  lemma LeafSound(data: Bytes, offset: nat, depth: nat, id: Bytes, len: LengthForm, start: nat) returns (t: Tree)
    requires depth <= MAX_DEPTH && ValidHeader(id, len) && LeafTag(id) && !len.Indefinite?
    requires offset + |id| < start && start + LengthValue(len) <= |data|
    requires data[offset..start] == id + LengthOctets(len)
    ensures WellFormed(t, depth) && At(data, offset, Print(t))
  {
    hide LengthOctets, ValidLength, ValidIdentifier;
    var next := start + LengthValue(len);
    t := Leaf(id, len, data[start..next]);
    assert Print(t) == data[offset..start] + data[start..next] == data[offset..next];
  }

  lemma NodeSound(t: Tree, data: Bytes, offset: nat, depth: nat, start: nat)
    requires t.Node? && depth <= MAX_DEPTH && ValidHeader(t.id, t.len) && ValidIdentifier(t.id) && NodeTag(t.id)
    requires !t.len.Indefinite? ==> start + LengthValue(t.len) <= |data|
    requires offset + |t.id| < start <= |data| && data[offset..start] == t.id + LengthOctets(t.len)
    requires At(data, offset, t.id)
    requires WellFormedAll(t.children, depth + 1)
    requires At(data, start, PrintAll(t.children) + Closing(ContentEnd(start, t.len)))
    requires ContentEnd(start, t.len).Some? ==> ContentEnd(start, t.len).value == start + |PrintAll(t.children)|
    requires ReadChildren(data, start, depth, ContentEnd(start, t.len)).ForestOk?
    requires ReadChildren(data, start, depth, ContentEnd(start, t.len)).children == DenoteAll(t.children)
    requires ReadBody(data, offset, depth, TagNumber(t.id), offset + |t.id|, FormValue(t.len), start,
               !MinimalLength(t.len)).ObjectOk?
    ensures WellFormed(t, depth) && At(data, offset, Print(t))
  {
    hide *;
    NodeBody(data, offset, depth, t.id, t.len, start);
    ChunksSound(t, depth, ReadChildren(data, start, depth, ContentEnd(start, t.len)));
    NodeWellFormed(t, depth, start);
    NodePrinted(t, data, offset, start);
  }

  lemma ChunksSound(t: Tree, depth: nat, forest: ForestResult)
    requires t.Node? && WellFormedAll(t.children, depth + 1)
    requires forest.ForestOk? && forest.children == DenoteAll(t.children) && NodeResult(t.id, t.len, forest).ObjectOk?
    ensures IsOctetString(t.id) ==> Chunks(t.children)
  {
    if IsOctetString(t.id) {
      FlattenSound(t.children, depth + 1);
    }
  }

  lemma NodeWellFormed(t: Tree, depth: nat, start: nat)
    requires t.Node? && depth <= MAX_DEPTH && ValidHeader(t.id, t.len) && NodeTag(t.id)
    requires WellFormedAll(t.children, depth + 1) && (IsOctetString(t.id) ==> Chunks(t.children))
    requires ContentEnd(start, t.len).Some? ==> ContentEnd(start, t.len).value == start + |PrintAll(t.children)|
    ensures WellFormed(t, depth)
  {
  }

  lemma NodePrinted(t: Tree, data: Bytes, offset: nat, start: nat)
    requires t.Node? && offset <= start <= |data| && data[offset..start] == t.id + LengthOctets(t.len)
    requires At(data, start, PrintAll(t.children) + Closing(ContentEnd(start, t.len)))
    ensures At(data, offset, Print(t))
  {
    hide LengthOctets, PrintAll;
    var head, body := t.id + LengthOctets(t.len), PrintAll(t.children) + Closing(ContentEnd(start, t.len));
    AtConcat(data, offset, head, body);
    assert Print(t) == head + body;
  }

  lemma {:induction false} SoundAll(data: Bytes, offset: nat, depth: nat, end: Option<nat>) returns (ts: seq<Tree>)
    requires offset <= |data| && (end.Some? ==> offset <= end.value <= |data|)
    requires ReadChildren(data, offset, depth, end).ForestOk?
    ensures WellFormedAll(ts, depth + 1) && At(data, offset, PrintAll(ts) + Closing(end))
    ensures end.Some? ==> end.value == offset + |PrintAll(ts)|
    ensures ReadChildren(data, offset, depth, end).children == DenoteAll(ts)
    decreases |data| - offset, 1
  {
    hide *;
    if AtForestEnd(data, offset, end) {
      ts := [];
      EmptyForestSound(data, offset, depth, end);
    } else {
      ChildSound(data, offset, depth, end);
      var t := Sound(data, offset, depth + 1);
      var rest := SoundAll(data, Read(data, offset, depth + 1).next, depth, end);
      ts := [t] + rest;
      assert ts[0] == t && ts[1..] == rest;
      ForestBuilt(ts, depth + 1, end);
      AtConcat(data, offset, Print(t), PrintAll(rest) + Closing(end));
    }
  }

  predicate AtForestEnd(data: Bytes, offset: nat, end: Option<nat>) {
    if end.Some? then offset >= end.value
    else offset + 2 <= |data| && data[offset] == 0 && data[offset + 1] == 0
  }

  lemma EmptyForestSound(data: Bytes, offset: nat, depth: nat, end: Option<nat>)
    requires offset <= |data| && (end.Some? ==> offset <= end.value <= |data|)
    requires AtForestEnd(data, offset, end)
    ensures WellFormedAll([], depth + 1) && At(data, offset, PrintAll([]) + Closing(end))
    ensures end.Some? ==> end.value == offset + |PrintAll([])|
    ensures ReadChildren(data, offset, depth, end).ForestOk?
    ensures ReadChildren(data, offset, depth, end).children == DenoteAll([])
  {
    assert PrintAll([]) + Closing(end) == Closing(end);
    if end.None? {
      assert data[offset..offset + 2] == END_OF_CONTENTS;
    }
  }

  lemma ChildSound(data: Bytes, offset: nat, depth: nat, end: Option<nat>)
    requires offset <= |data| && (end.Some? ==> offset <= end.value <= |data|)
    requires !AtForestEnd(data, offset, end)
    requires ReadChildren(data, offset, depth, end).ForestOk?
    ensures var head := Read(data, offset, depth + 1);
            && head.ObjectOk? && (end.Some? ==> head.next <= end.value)
            && var rest := ReadChildren(data, head.next, depth, end);
               rest.ForestOk? && ReadChildren(data, offset, depth, end).children == [head.obj] + rest.children
  {
  }

  lemma ForestBuilt(ts: seq<Tree>, depth: nat, end: Option<nat>)
    requires ts != [] && WellFormed(ts[0], depth) && WellFormedAll(ts[1..], depth)
    ensures WellFormedAll(ts, depth)
    ensures PrintAll(ts) + Closing(end) == Print(ts[0]) + (PrintAll(ts[1..]) + Closing(end))
    ensures |PrintAll(ts)| == |Print(ts[0])| + |PrintAll(ts[1..])|
    ensures DenoteAll(ts) == [Denote(ts[0])] + DenoteAll(ts[1..])
  {
  }

  /**
   The reader succeeds with (obj, next, changed) exactly when some well-formed tree is printed at
   offset, ends at next, denotes obj, and is not distinguished if and only if changed.
   */
  lemma ReaderAcceptsExactlyTheGrammar(data: Bytes, offset: nat, depth: nat, obj: Object, next: nat, changed: bool)
    requires offset <= |data|
    ensures Read(data, offset, depth) == ObjectOk(obj, next, changed)
       <==> exists t :: && WellFormed(t, depth) && At(data, offset, Print(t)) && next == offset + |Print(t)|
                        && Denote(t) == obj && changed == !Distinguished(t)
  {
    if Read(data, offset, depth) == ObjectOk(obj, next, changed) {
      var t := Sound(data, offset, depth);
      assert At(data, offset, Print(t));
    }
    forall t | WellFormed(t, depth) && At(data, offset, Print(t)) {
      Complete(t, depth, data, offset);
    }
  }

  /** BER as read here is unambiguous: one string of octets has one meaning. */
  lemma GrammarUnambiguous(s: Tree, t: Tree, depth: nat)
    requires WellFormed(s, depth) && WellFormed(t, depth) && Print(s) <= Print(t)
    ensures Print(s) == Print(t) && Denote(s) == Denote(t)
  {
    var data := Print(t);
    assert data[0..0 + |Print(s)|] == Print(s) && data[0..0 + |Print(t)|] == Print(t);
    Complete(s, depth, data, 0);
    Complete(t, depth, data, 0);
  }
}
