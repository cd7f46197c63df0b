/**
 The canonical writer of internal/foundation/cert/ber.go: `encodeTo` of both object kinds and
 `encodeLength`, writing into byte buffers, proved against the function `Encode`.
 */
module BerWriter {
  import opened Asn1

  /** bytes.Buffer, whose writes append and never fail. */
  class Buffer {
    var contents: Bytes

    constructor ()
      ensures contents == []
    {
      contents := [];
    }

    method Write(p: Bytes)
      modifies this
      ensures contents == old(contents) + p
    {
      contents := contents + p;
    }
  }

  function Encode(o: Object): Bytes
    decreases o
  {
    match o
    case Primitive(tag, content) => tag + (LengthOctets(ShortestLength(|content|)) + content)
    case Structured(tag, children) =>
      tag + (LengthOctets(ShortestLength(|EncodeAll(children)|)) + EncodeAll(children))
  }

  function EncodeAll(os: seq<Object>): Bytes
    decreases os
  {
    if os == [] then [] else Encode(os[0]) + EncodeAll(os[1..])
  }

  // ----- encodeLength -----

  /** n >> 8k. */
  function ShiftBytes(n: nat, k: nat): nat {
    if k == 0 then n else ShiftBytes(n, k - 1) / 256
  }

  /** Shifting k bytes out drops the last k digits. */
  lemma {:induction false} DigitsShift(n: nat, k: nat)
    requires k <= |Digits(n)|
    ensures Digits(ShiftBytes(n, k)) == Digits(n)[..|Digits(n)| - k]
  {
    if k > 0 {
      DigitsShift(n, k - 1);
    }
  }

  method CountBytes(length: nat) returns (numberOfBytes: nat)
    ensures numberOfBytes == |Digits(length)|
  {
    numberOfBytes := 0;
    var value := length;
    while value > 0
      invariant |Digits(length)| == numberOfBytes + |Digits(value)|
    {
      value := value / 256;
      numberOfBytes := numberOfBytes + 1;
    }
  }

  /** Writes the bytes of length from the most significant of numberOfBytes down. */
  method WriteBytes(out: Buffer, length: nat, numberOfBytes: nat)
    requires numberOfBytes == |Digits(length)|
    modifies out
    ensures out.contents == old(out.contents) + Digits(length)
  {
    ghost var digits := Digits(length);
    var k := numberOfBytes - 1;
    while k >= 0
      invariant -1 <= k < numberOfBytes
      invariant out.contents == old(out.contents) + digits[..numberOfBytes - 1 - k]
    {
      DigitsShift(length, k);
      var part := ShiftBytes(length, k) % 256;
      assert digits[..numberOfBytes - k] == digits[..numberOfBytes - 1 - k] + [part];
      out.Write([part]);
      k := k - 1;
    }
    assert digits[..numberOfBytes] == digits;
  }

  /** The two loops of the source shift the length eight bits at a time. */
  method EncodeLength(out: Buffer, length: int) returns (ok: bool)
    requires length <= MAX_INT
    modifies out
    ensures ok == (length >= 0)
    ensures out.contents == if ok then old(out.contents) + LengthOctets(ShortestLength(length)) else old(out.contents)
  {
    if length < 0 {
      return false;
    }
    if length < 128 {
      out.Write([length]);
      return true;
    }
    var numberOfBytes := CountBytes(length);
    LongForm(length);
    out.Write([128 + numberOfBytes]);
    WriteBytes(out, length, numberOfBytes);
    assert old(out.contents) + [128 + numberOfBytes] + Digits(length)
        == old(out.contents) + ([128 + numberOfBytes] + Digits(length));
    return true;
  }

  lemma LongForm(length: nat)
    requires 128 <= length <= MAX_INT
    ensures |Digits(length)| <= INT_BYTES
    ensures LengthOctets(ShortestLength(length)) == [128 + |Digits(length)|] + Digits(length)
  {
    DigitsCount(length);
  }

  // ----- encodeTo -----

  lemma {:induction false} EncodePrefix(os: seq<Object>, i: nat)
    requires i < |os|
    ensures EncodeAll(os[..i + 1]) == EncodeAll(os[..i]) + Encode(os[i])
    ensures |EncodeAll(os[..i + 1])| <= |EncodeAll(os)|
  {
    if i == 0 {
      assert os[..1] == [os[0]] && os[..0] == [];
      assert EncodeAll(os[..1][1..]) == [];
    } else {
      assert os[..i + 1][1..] == os[1..][..i] && os[..i][1..] == os[1..][..i - 1];
      assert os[1..][..i - 1 + 1] == os[1..][..i];
      EncodePrefix(os[1..], i - 1);
    }
  }

  lemma Associate(a: Bytes, b: Bytes, c: Bytes, d: Bytes)
    ensures a + b + c + d == a + (b + (c + d))
  {
  }

  /** Writes one object: children go to a buffer of their own first, so their length is known. */
  method EncodeTo(o: Object, out: Buffer) returns (ok: bool)
    requires |Encode(o)| <= MAX_INT
    modifies out
    ensures ok && out.contents == old(out.contents) + Encode(o)
    decreases o
  {
    match o {
      case Primitive(tag, content) =>
        out.Write(tag);
        ok := EncodeLength(out, |content|);
        out.Write(content);
        Associate(old(out.contents), tag, LengthOctets(ShortestLength(|content|)), content);
      case Structured(tag, children) =>
        var inner := EncodeChildren(children);
        out.Write(tag);
        ok := EncodeLength(out, |inner.contents|);
        out.Write(inner.contents);
        Associate(old(out.contents), tag, LengthOctets(ShortestLength(|inner.contents|)), inner.contents);
    }
  }

  method EncodeChildren(children: seq<Object>) returns (inner: Buffer)
    requires |EncodeAll(children)| <= MAX_INT
    ensures fresh(inner) && inner.contents == EncodeAll(children)
    decreases children
  {
    inner := new Buffer();
    var i := 0;
    while i < |children|
      invariant 0 <= i <= |children|
      invariant inner.contents == EncodeAll(children[..i])
    {
      EncodePrefix(children, i);
      var _ := EncodeTo(children[i], inner);
      i := i + 1;
    }
    assert children[..i] == children;
  }
}
