/**
 The byte-level vocabulary of the BER normalizer (internal/foundation/cert/ber.go): identifier
 octets, length octets and the two kinds of object the reader builds.

 A byte is an int below 256. The source's bit tests are written as arithmetic: `b >> 6` is
 `b / 64`, `b & 0x20` is `b / 32 % 2`, `b & 0x1f` is `b % 32`, `b & 0x7f` is `b % 128`.
 */
module Asn1 {

  /** math.MaxInt of a 64-bit build, where strconv.IntSize/8 is 8. */
  const MAX_INT: nat := 0x7fff_ffff_ffff_ffff
  const INT_BYTES: nat := 8
  const MAX_DEPTH: nat := 64

  type Byte = b: int | 0 <= b < 256
  type Bytes = seq<Byte>

  datatype Object =
    | Structured(tag: Bytes, children: seq<Object>)
    | Primitive(tag: Bytes, content: Bytes)

  datatype Error =
    | EmptyInput
    | TrailingData
    | RootNotSequence
    | TooDeep
    | TruncatedTag
    | TruncatedHighTag
    | NonMinimalHighTag
    | TagTooLarge
    | UnexpectedEndOfContents
    | TruncatedLength
    | LengthTooLarge
    | LengthOverflows
    | IndefinitePrimitive
    | UnsupportedConstructed(number: nat)
    | ContentExceedsData
    | MissingEndOfContents
    | InvalidBoundary
    | ChunkNotOctetString
    | NegativeLength

  // ----- identifier octets (X.690 section 8.1.2) -----

  predicate Universal(b: Byte) { b / 64 == 0 }

  predicate Constructed(b: Byte) { b / 32 % 2 == 1 }

  /** The base-128 number in the low seven bits of s, most significant octet first. */
  function Base128(s: Bytes): nat {
    if s == [] then 0 else Base128(s[..|s| - 1]) * 128 + s[|s| - 1] % 128
  }

  /** All octets but the last have bit 8 set, and the first does not only pad with zeros. */
  predicate HighTagForm(s: Bytes) {
    && s != []
    && s[0] != 128
    && s[|s| - 1] < 128
    && forall i :: 0 <= i < |s| - 1 ==> s[i] >= 128
  }

  predicate ValidIdentifier(id: Bytes) {
    && id != []
    && if id[0] % 32 != 31 then |id| == 1 else HighTagForm(id[1..]) && 31 <= Base128(id[1..]) <= MAX_INT
  }

  function TagNumber(id: Bytes): nat
    requires id != []
  {
    if id[0] % 32 != 31 then id[0] % 32 else Base128(id[1..])
  }

  predicate IsEndOfContents(id: Bytes) {
    id != [] && Universal(id[0]) && TagNumber(id) == 0
  }

  predicate IsOctetString(id: Bytes) {
    id != [] && Universal(id[0]) && TagNumber(id) == 4
  }

  /** X.690 figure 3: class in bits 8 and 7, constructed in bit 6, the number in the other five. */
  function IdentifierOctet(tagClass: nat, constructed: bool, number: nat): Byte
    requires tagClass < 4 && number < 32
  {
    tagClass * 64 + (if constructed then 32 else 0) + number
  }

  /** The tests on an identifier octet see the three fields it is made of. */
  lemma IdentifierFields(tagClass: nat, constructed: bool, number: nat)
    requires tagClass < 4 && number < 32
    ensures var b := IdentifierOctet(tagClass, constructed, number);
            && (Universal(b) <==> tagClass == 0) && (Constructed(b) <==> constructed)
            && (number < 31 ==> ValidIdentifier([b]) && TagNumber([b]) == number)
            && (number == 31 ==> !ValidIdentifier([b]))
  {
  }

  // ----- length octets (X.690 section 8.1.3) -----

  datatype LengthForm = Short(n: Byte) | Long(octets: Bytes) | Indefinite

  /** The base-256 number s spells, most significant octet first. */
  function Base256(s: Bytes): nat {
    if s == [] then 0 else Base256(s[..|s| - 1]) * 256 + s[|s| - 1]
  }

  predicate ValidLength(len: LengthForm) {
    match len
    case Short(n) => n < 128
    case Long(octets) => 1 <= |octets| <= INT_BYTES && Base256(octets) <= MAX_INT
    case Indefinite => true
  }

  function LengthValue(len: LengthForm): nat
    requires !len.Indefinite?
  {
    match len
    case Short(n) => n
    case Long(octets) => Base256(octets)
  }

  /** The definite form with the fewest octets, which X.690 section 10.1 demands. */
  predicate MinimalLength(len: LengthForm) {
    match len
    case Short(n) => n < 128
    case Long(octets) => octets != [] && octets[0] != 0 && Base256(octets) >= 128
    case Indefinite => false
  }

  function LengthOctets(len: LengthForm): Bytes {
    match len
    case Short(n) => [n]
    case Long(octets) => [(128 + |octets|) % 256] + octets
    case Indefinite => [128]
  }

  /** The base-256 digits of n without leading zeros; none for 0. */
  function Digits(n: nat): Bytes {
    if n == 0 then [] else Digits(n / 256) + [n % 256]
  }

  function ShortestLength(n: nat): LengthForm {
    if n < 128 then Short(n) else Long(Digits(n))
  }

  // ----- arithmetic of the two positional systems -----

  lemma {:induction false} DigitsSpell(n: nat)
    ensures Base256(Digits(n)) == n
    ensures n > 0 ==> Digits(n) != [] && Digits(n)[0] != 0
  {
    if n > 0 {
      DigitsSpell(n / 256);
      var d := Digits(n);
      assert d[..|d| - 1] == Digits(n / 256);
      if n / 256 == 0 {
        assert Digits(n / 256) == [];
      }
    }
  }

  /** Digits is the only spelling without a leading zero. */
  lemma {:induction false} DigitsUnique(s: Bytes)
    requires s != [] ==> s[0] != 0
    ensures Digits(Base256(s)) == s
  {
    if s != [] {
      var front := s[..|s| - 1];
      DigitsUnique(front);
      var n := Base256(s);
      assert n / 256 == Base256(front) && n % 256 == s[|s| - 1];
      if front == [] {
        assert n > 0;
      } else {
        assert Digits(Base256(front)) == front;
        assert n > 0;
      }
      assert s == front + [s[|s| - 1]];
    }
  }

  lemma {:induction false} DigitsCount(n: nat)
    requires n <= MAX_INT
    ensures |Digits(n)| <= INT_BYTES
  {
    assert MAX_INT < Pow256(8);
    DigitsBound(n, 8);
  }

  function Pow256(k: nat): nat {
    if k == 0 then 1 else 256 * Pow256(k - 1)
  }

  lemma {:induction false} DigitsBound(n: nat, k: nat)
    requires n < Pow256(k)
    ensures |Digits(n)| <= k
  {
    if n > 0 {
      DigitsBound(n / 256, k - 1);
    }
  }

  /** The shortest form is valid and minimal, and it is the only minimal form of its value. */
  lemma ShortestLengthIsMinimal(n: nat)
    requires n <= MAX_INT
    ensures ValidLength(ShortestLength(n)) && MinimalLength(ShortestLength(n))
    ensures !ShortestLength(n).Indefinite? && LengthValue(ShortestLength(n)) == n
  {
    DigitsSpell(n);
    DigitsCount(n);
  }

  lemma MinimalLengthIsShortest(len: LengthForm)
    requires MinimalLength(len)
    ensures len == ShortestLength(LengthValue(len))
  {
    if len.Long? {
      DigitsUnique(len.octets);
    }
  }

  /** A prefix spells no more than the whole. */
  lemma {:induction false} Base128Prefix(s: Bytes, k: nat)
    requires k <= |s|
    ensures Base128(s[..k]) <= Base128(s)
  {
    if k < |s| {
      assert s[..|s| - 1][..k] == s[..k];
      Base128Prefix(s[..|s| - 1], k);
    } else {
      assert s[..k] == s;
    }
  }

  lemma {:induction false} Base256Prefix(s: Bytes, k: nat)
    requires k <= |s|
    ensures Base256(s[..k]) <= Base256(s)
  {
    if k < |s| {
      assert s[..|s| - 1][..k] == s[..k];
      Base256Prefix(s[..|s| - 1], k);
    } else {
      assert s[..k] == s;
    }
  }
}
