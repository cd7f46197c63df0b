/**
 The reference the normalizer is proved against: BER as a grammar of derivation trees, written
 from X.690 and not from the reader. A tree records every choice an encoder may make (the form of
 each length, the chunking of each OCTET STRING). `Print` gives its octets, `Denote` the object it
 stands for, and `Distinguished` says it makes the DER choice wherever the normalizer
 canonicalizes: definite minimal lengths and primitive OCTET STRINGs.
 */
module BerGrammar {
  import opened Asn1

  datatype Tree =
    | Leaf(id: Bytes, len: LengthForm, content: Bytes)
    | Node(id: Bytes, len: LengthForm, children: seq<Tree>)

  const END_OF_CONTENTS: Bytes := [0, 0]

  /** Lengths agree with contents; tags are those PKCS#12 uses. */
  predicate WellShaped(t: Tree)
    decreases t
  {
    && ValidIdentifier(t.id)
    && !IsEndOfContents(t.id)
    && ValidLength(t.len)
    && match t {
         case Leaf(id, len, content) =>
           && !Constructed(id[0])
           && !len.Indefinite?
           && LengthValue(len) == |content|
         case Node(id, len, children) =>
           && Constructed(id[0])
           && (Universal(id[0]) ==> TagNumber(id) in {4, 16, 17})
           && WellShapedAll(children)
           && (IsOctetString(id) ==> Chunks(children))
           && (!len.Indefinite? ==> LengthValue(len) == |PrintAll(children)|)
       }
  }

  predicate WellShapedAll(ts: seq<Tree>)
    decreases ts
  {
    ts == [] || (WellShaped(ts[0]) && WellShapedAll(ts[1..]))
  }

  /** How many levels lie below the root. */
  function Height(t: Tree): nat
    decreases t
  {
    if t.Leaf? || t.children == [] then 0 else 1 + HeightAll(t.children)
  }

  /** The height of the highest of them. */
  function HeightAll(ts: seq<Tree>): nat
    decreases ts
  {
    if ts == [] then 0
    else if Height(ts[0]) > HeightAll(ts[1..]) then Height(ts[0]) else HeightAll(ts[1..])
  }

  /** Well shaped, and no level of it deeper than MAX_DEPTH when the root is at this depth. */
  predicate WellFormed(t: Tree, depth: nat) {
    WellShaped(t) && depth + Height(t) <= MAX_DEPTH
  }

  predicate WellFormedAll(ts: seq<Tree>, depth: nat) {
    WellShapedAll(ts) && (ts == [] || depth + HeightAll(ts) <= MAX_DEPTH)
  }

  /** X.690 section 8.7.3.2: the segments of a constructed OCTET STRING are OCTET STRINGs. */
  predicate Chunks(ts: seq<Tree>) {
    forall i :: 0 <= i < |ts| ==> IsOctetString(ts[i].id)
  }

  function Print(t: Tree): Bytes
    decreases t
  {
    match t
    case Leaf(id, len, content) => id + (LengthOctets(len) + content)
    case Node(id, len, children) =>
      id + (LengthOctets(len) + (PrintAll(children) + if len.Indefinite? then END_OF_CONTENTS else []))
  }

  function PrintAll(ts: seq<Tree>): Bytes
    decreases ts
  {
    if ts == [] then [] else Print(ts[0]) + PrintAll(ts[1..])
  }

  /** The octets an OCTET STRING carries: the contents of its chunks, in order. */
  function ChunkContent(t: Tree): Bytes
    decreases t
  {
    match t
    case Leaf(_, _, content) => content
    case Node(_, _, children) => ChunkContents(children)
  }

  function ChunkContents(ts: seq<Tree>): Bytes
    decreases ts
  {
    if ts == [] then [] else ChunkContent(ts[0]) + ChunkContents(ts[1..])
  }

  function Denote(t: Tree): Object
    decreases t
  {
    match t
    case Leaf(id, _, content) => Primitive(id, content)
    case Node(id, _, children) =>
      if IsOctetString(id) then Primitive([4], ChunkContents(children)) else Structured(id, DenoteAll(children))
  }

  function DenoteAll(ts: seq<Tree>): seq<Object>
    decreases ts
  {
    if ts == [] then [] else [Denote(ts[0])] + DenoteAll(ts[1..])
  }

  predicate Distinguished(t: Tree)
    decreases t
  {
    && MinimalLength(t.len)
    && (t.Node? ==> !IsOctetString(t.id) && DistinguishedAll(t.children))
  }

  predicate DistinguishedAll(ts: seq<Tree>)
    decreases ts
  {
    ts == [] || (Distinguished(ts[0]) && DistinguishedAll(ts[1..]))
  }
}
