/**
 The reader as functions of (data, offset, depth): each returns what `readObject` of
 internal/foundation/cert/ber.go returns from that position, in the same order of checks.
 */
module BerReader {
  import opened Asn1
  import opened Wrappers

  datatype TagResult = TagOk(number: nat, end: nat) | TagErr(error: Error)

  /** The body of a length field: a definite length, or None for the indefinite form. */
  datatype LengthResult = LengthOk(length: Option<nat>, end: nat, changed: bool) | LengthErr(error: Error)

  datatype ObjectResult = ObjectOk(obj: Object, next: nat, changed: bool) | ObjectErr(error: Error)

  datatype ForestResult = ForestOk(children: seq<Object>, next: nat, changed: bool) | ForestErr(error: Error)

  function ReadHighTag(data: Bytes, offset: nat, tag: nat, first: bool): (r: TagResult)
    requires offset <= |data|
    ensures r.TagOk? ==> offset < r.end <= |data|
    decreases |data| - offset
  {
    if offset >= |data| then TagErr(TruncatedHighTag)
    else
      var b := data[offset];
      if first && b == 128 then TagErr(NonMinimalHighTag)
      else if tag > (MAX_INT - b % 128) / 128 then TagErr(TagTooLarge)
      else
        var tag' := tag * 128 + b % 128;
        if b < 128 then TagOk(tag', offset + 1) else ReadHighTag(data, offset + 1, tag', false)
  }

  function ReadTag(data: Bytes, offset: nat): (r: TagResult)
    requires offset < |data|
    ensures r.TagOk? ==> offset < r.end <= |data|
  {
    var low := data[offset] % 32;
    if low != 31 then TagOk(low, offset + 1)
    else
      var high := ReadHighTag(data, offset + 1, 0, true);
      if high.TagOk? && high.number < 31 then TagErr(NonMinimalHighTag) else high
  }

  /** Reads count octets base 256 on top of length; None when the value would pass MAX_INT. */
  function ReadLengthOctets(data: Bytes, offset: nat, count: nat, length: nat): Option<nat>
    requires offset + count <= |data|
    decreases count
  {
    if count == 0 then Some(length)
    else if length > (MAX_INT - data[offset]) / 256 then None
    else ReadLengthOctets(data, offset + 1, count - 1, length * 256 + data[offset])
  }

  function ReadLength(data: Bytes, offset: nat): (r: LengthResult)
    requires offset <= |data|
    ensures r.LengthOk? ==> offset < r.end <= |data|
  {
    if offset >= |data| then LengthErr(TruncatedLength)
    else
      var first := data[offset];
      if first == 128 then LengthOk(None, offset + 1, true)
      else if first < 128 then LengthOk(Some(first), offset + 1, false)
      else
        var count := first % 128;
        if count == 0 || count > INT_BYTES then LengthErr(LengthTooLarge)
        else if count > |data| - (offset + 1) then LengthErr(TruncatedLength)
        else
          match ReadLengthOctets(data, offset + 1, count, 0)
          case None => LengthErr(LengthOverflows)
          case Some(n) => LengthOk(Some(n), offset + 1 + count, data[offset + 1] == 0 || n < 128)
  }

  /** The concatenated contents of primitive OCTET STRINGs; None when a child is anything else. */
  function Flatten(children: seq<Object>): Option<Bytes> {
    if children == [] then Some([])
    else if !(children[0].Primitive? && children[0].tag == [4]) then None
    else
      match Flatten(children[1..])
      case None => None
      case Some(rest) => Some(children[0].content + rest)
  }

  function Read(data: Bytes, offset: nat, depth: nat): (r: ObjectResult)
    requires offset <= |data|
    ensures r.ObjectOk? ==> offset < r.next <= |data|
    decreases |data| - offset, 0
  {
    if depth > MAX_DEPTH then ObjectErr(TooDeep)
    else if offset >= |data| then ObjectErr(TruncatedTag)
    else
      match ReadTag(data, offset)
      case TagErr(e) => ObjectErr(e)
      case TagOk(number, tagEnd) =>
        if Universal(data[offset]) && number == 0 then ObjectErr(UnexpectedEndOfContents)
        else
          match ReadLength(data, tagEnd)
          case LengthErr(e) => ObjectErr(e)
          case LengthOk(length, start, changed) =>
            ReadBody(data, offset, depth, number, tagEnd, length, start, changed)
  }

  function ReadBody(data: Bytes, offset: nat, depth: nat, number: nat, tagEnd: nat,
                    length: Option<nat>, start: nat, changed: bool): (r: ObjectResult)
    requires offset < tagEnd < start <= |data|
    ensures r.ObjectOk? ==> offset < r.next <= |data|
    decreases |data| - start, 2
  {
    var constructed := Constructed(data[offset]);
    var universal := Universal(data[offset]);
    var tag := data[offset..tagEnd];
    if length.None? && !constructed then ObjectErr(IndefinitePrimitive)
    else if constructed && universal && number != 4 && number != 16 && number != 17 then
      ObjectErr(UnsupportedConstructed(number))
    else if length.Some? && length.value > |data| - start then ObjectErr(ContentExceedsData)
    else if !constructed then
      ObjectOk(Primitive(tag, data[start..start + length.value]), start + length.value, changed)
    else
      match ReadChildren(data, start, depth, if length.Some? then Some(start + length.value) else None)
      case ForestErr(e) => ObjectErr(e)
      case ForestOk(children, next, childrenChanged) =>
        if universal && number == 4 then
          match Flatten(children)
          case None => ObjectErr(ChunkNotOctetString)
          case Some(content) => ObjectOk(Primitive(tag[0 := tag[0] - 32], content), next, true)
        else
          ObjectOk(Structured(tag, children), next, changed || childrenChanged)
  }

  /** Children up to offset `end`, or up to the end-of-contents marker when `end` is None. */
  function ReadChildren(data: Bytes, offset: nat, depth: nat, end: Option<nat>): (r: ForestResult)
    requires offset <= |data| && (end.Some? ==> offset <= end.value <= |data|)
    ensures r.ForestOk? ==> offset <= r.next <= |data|
    ensures r.ForestOk? && end.Some? ==> r.next == end.value
    decreases |data| - offset, 1
  {
    if end.Some? && offset >= end.value then ForestOk([], offset, false)
    else if end.None? && offset + 2 > |data| then ForestErr(MissingEndOfContents)
    else if end.None? && data[offset] == 0 && data[offset + 1] == 0 then ForestOk([], offset + 2, false)
    else
      match Read(data, offset, depth + 1)
      case ObjectErr(e) => ForestErr(e)
      case ObjectOk(child, next, childChanged) =>
        if end.Some? && next > end.value then ForestErr(InvalidBoundary)
        else
          match ReadChildren(data, next, depth, end)
          case ForestErr(e) => ForestErr(e)
          case ForestOk(rest, next', restChanged) => ForestOk([child] + rest, next', childChanged || restChanged)
  }

  // ----- the same results without the flag, which the reader keeps in a field -----

  function LengthOnly(r: LengthResult): Result<(Option<nat>, nat), Error> {
    match r
    case LengthOk(length, end, _) => Ok((length, end))
    case LengthErr(e) => Err(e)
  }

  function ObjectOnly(r: ObjectResult): Result<(Object, nat), Error> {
    match r
    case ObjectOk(obj, next, _) => Ok((obj, next))
    case ObjectErr(e) => Err(e)
  }

  function ForestOnly(r: ForestResult): Result<(seq<Object>, nat), Error> {
    match r
    case ForestOk(children, next, _) => Ok((children, next))
    case ForestErr(e) => Err(e)
  }
}
