/**
 The access key of a document (internal/dfe/accesskey.go): trimming, character sets, the issuer's
 CNPJ slot and the check digit. Text is ASCII here: ToUpper and TrimSpace act on ASCII characters.
 */
module AccessKey {
  import opened Wrappers
  import opened CheckDigits

  const KEY_LENGTH: nat := 44
  const SLOT_START: nat := 6
  const SLOT_END: nat := 20

  predicate IsSpace(c: char) {
    c == ' ' || ('\t' <= c <= '\r')
  }

  function TrimLeft(s: string): string {
    if s != "" && IsSpace(s[0]) then TrimLeft(s[1..]) else s
  }

  function TrimRight(s: string): string {
    if s != "" && IsSpace(s[|s| - 1]) then TrimRight(s[..|s| - 1]) else s
  }

  function TrimSpace(s: string): string {
    TrimRight(TrimLeft(s))
  }

  function Upper(c: char): char {
    if 'a' <= c <= 'z' then (c as int - 32) as char else c
  }

  function ToUpper(s: string): (r: string)
    ensures |r| == |s| && forall i :: 0 <= i < |s| ==> r[i] == Upper(s[i])
  {
    seq(|s|, i requires 0 <= i < |s| => Upper(s[i]))
  }

  /** Digits everywhere; upper-case letters also between slotStart and slotEnd. */
  predicate CharAllowed(c: char, i: nat, slotStart: nat, slotEnd: nat) {
    IsDigit(c) || (slotStart <= i < slotEnd && IsLetter(c))
  }

  /** The first position with a character not allowed there, or -1. */
  method IndexInvalidKeyChar(key: string, slotStart: nat, slotEnd: nat) returns (r: int)
    ensures -1 <= r < |key|
    ensures r == -1 <==> forall j :: 0 <= j < |key| ==> CharAllowed(key[j], j, slotStart, slotEnd)
    ensures r >= 0 ==> !CharAllowed(key[r], r, slotStart, slotEnd)
    ensures r >= 0 ==> forall j :: 0 <= j < r ==> CharAllowed(key[j], j, slotStart, slotEnd)
  {
    var i := 0;
    while i < |key|
      invariant 0 <= i <= |key|
      invariant forall j :: 0 <= j < i ==> CharAllowed(key[j], j, slotStart, slotEnd)
    {
      var c := key[i];
      var inSlot := slotStart <= i < slotEnd;
      if IsDigit(c) || (inSlot && IsLetter(c)) {
        i := i + 1;
        continue;
      }
      return i;
    }
    return -1;
  }

  predicate WellFormedKey(key: string) {
    |key| == KEY_LENGTH && forall j :: 0 <= j < |key| ==> CharAllowed(key[j], j, SLOT_START, SLOT_END)
  }

  predicate HasLetter(s: string) {
    exists i :: 0 <= i < |s| && IsLetter(s[i])
  }

  predicate AllSame(s: string) {
    forall i :: 0 <= i < |s| ==> s[i] == s[0]
  }

  function DigitChar(d: nat): (c: char)
    requires d <= 9
    ensures IsDigit(c) && Value(c) == d
  {
    (d + '0' as int) as char
  }

  /** validateSyntax and hasValidCheckDigits, on text that is already clean. */
  predicate ValidCnpj(s: string) {
    && |s| == 14 && KeyText(s) && IsDigit(s[12]) && IsDigit(s[13])
    && !AllSame(s)
    && var first := DigitOf(WeightedSum(s[..12], FIRST_WEIGHTS, 12));
       var second := DigitOf(WeightedSum(s[..12] + [DigitChar(first)], SECOND_WEIGHTS, 13));
       Value(s[12]) == first && Value(s[13]) == second
  }

  predicate ValidKey(key: string) {
    && WellFormedKey(key)
    && (HasLetter(key[SLOT_START..SLOT_END]) ==> ValidCnpj(key[SLOT_START..SLOT_END]))
    && KeyText(key[..KEY_LENGTH - 1])
    && Value(key[KEY_LENGTH - 1]) == KeyDigit(key[..KEY_LENGTH - 1])
  }

  function ParseAccessKey(raw: string): Option<string> {
    var key := ToUpper(TrimSpace(raw));
    if ValidKey(key) then Some(key) else None
  }

  /** The checks in the source's order; every failure is the one error the caller sees. */
  method Parse(raw: string) returns (r: Option<string>)
    ensures r == ParseAccessKey(raw)
  {
    var key := ToUpper(TrimSpace(raw));
    if |key| != KEY_LENGTH {
      return None;
    }
    var i := IndexInvalidKeyChar(key, SLOT_START, SLOT_END);
    if i >= 0 {
      return None;
    }
    var slot := key[SLOT_START..SLOT_END];
    if HasLetter(slot) {
      if !ValidCnpj(slot) {
        return None;
      }
    }
    var want := AccessKeyCheckDigit(key[..KEY_LENGTH - 1]);
    if Value(key[KEY_LENGTH - 1]) != want {
      return None;
    }
    return Some(key);
  }

  predicate Spaces(s: string) {
    forall i :: 0 <= i < |s| ==> s[i] == ' ' || 9 <= s[i] as int <= 13
  }

  lemma {:induction false} TrimmedLeft(s: string) returns (before: string)
    ensures s == before + TrimLeft(s) && Spaces(before)
    ensures TrimLeft(s) != "" ==> !IsSpace(TrimLeft(s)[0])
  {
    before := "";
    if s != "" && IsSpace(s[0]) {
      before := TrimmedLeft(s[1..]);
      before := [s[0]] + before;
    }
  }

  lemma {:induction false} TrimmedRight(s: string) returns (after: string)
    ensures s == TrimRight(s) + after && Spaces(after)
    ensures TrimRight(s) != "" ==> !IsSpace(TrimRight(s)[|TrimRight(s)| - 1])
  {
    after := "";
    if s != "" && IsSpace(s[|s| - 1]) {
      after := TrimmedRight(s[..|s| - 1]);
      after := after + [s[|s| - 1]];
    }
  }

  /** Cleaning takes the white space off both ends and writes each small letter as the capital of its place. */
  lemma Cleaned(raw: string) returns (before: string, text: string, after: string, clean: string)
    ensures raw == before + text + after && Spaces(before) && Spaces(after)
    ensures text != "" ==> !Spaces(text[..1]) && !Spaces(text[|text| - 1..])
    ensures |clean| == |text| && forall i :: 0 <= i < |text| ==>
              if 'a' <= text[i] <= 'z' then clean[i] as int - 'A' as int == text[i] as int - 'a' as int
              else clean[i] == text[i]
    ensures ParseAccessKey(raw) == ParseAccessKey(clean) && (ParseAccessKey(clean).Some? ==>
              ParseAccessKey(clean) == Some(clean))
  {
    before := TrimmedLeft(raw);
    after := TrimmedRight(TrimLeft(raw));
    text := TrimSpace(raw);
    clean := ToUpper(text);
    if text != "" {
      assert TrimLeft(raw)[0] == text[0] == text[..1][0];
      assert text[|text| - 1..][0] == text[|text| - 1];
    }
    assert TrimSpace(clean) == clean;
    assert ToUpper(clean) == clean;
  }

  /** The keys that are accepted as they stand, field by field. */
  lemma AcceptedKey(key: string)
    ensures ParseAccessKey(key) == Some(key) <==>
              && |key| == 44
              && (forall i :: 0 <= i < 6 ==> '0' <= key[i] <= '9')
              && (forall i :: 6 <= i < 20 ==> '0' <= key[i] <= '9' || 'A' <= key[i] <= 'Z')
              && (forall i :: 20 <= i < 44 ==> '0' <= key[i] <= '9')
              && ((exists i :: 6 <= i < 20 && 'A' <= key[i] <= 'Z') ==> ValidCnpj(key[6..20]))
              && Completes(KeySum(key[..43]), Value(key[43]))
  {
    hide WeightedSum, ValidCnpj, Completes;
    if |key| == 44 && (forall j :: 0 <= j < 44 ==> CharAllowed(key[j], j, 6, 20)) {
      CleanAlready(key);
      assert KeyText(key[..43]);
      DigitCompletes(KeySum(key[..43]), Value(key[43]));
      var slot := key[6..20];
      if HasLetter(slot) {
        var i :| 0 <= i < 14 && IsLetter(slot[i]);
        assert IsLetter(key[6 + i]);
      }
      if i :| 6 <= i < 20 && IsLetter(key[i]) {
        assert IsLetter(slot[i - 6]);
      }
    } else if |key| == 44 {
      var j :| 0 <= j < 44 && !CharAllowed(key[j], j, 6, 20);
      assert !IsDigit(key[j]) && !(6 <= j < 20 && IsLetter(key[j]));
    }
  }

  lemma CleanAlready(key: string)
    requires |key| == 44 && forall j :: 0 <= j < 44 ==> CharAllowed(key[j], j, 6, 20)
    ensures ToUpper(TrimSpace(key)) == key
  {
    assert CharAllowed(key[0], 0, 6, 20) && CharAllowed(key[43], 43, 6, 20);
    assert TrimSpace(key) == key;
    forall j | 0 <= j < |key|
      ensures Upper(key[j]) == key[j]
    {
      assert CharAllowed(key[j], j, 6, 20);
    }
  }

  /** The CNPJ rule is the key's rule applied twice: a CNPJ checks its own two digits. */
  lemma CnpjDigitsAreKeyDigits(s: string)
    requires |s| == 14 && forall i :: 0 <= i < 14 ==> '0' <= s[i] <= '9' || (i < 12 && 'A' <= s[i] <= 'Z')
    ensures ValidCnpj(s) <==> && (exists i :: 0 <= i < 14 && s[i] != s[0])
                              && Completes(KeySum(s[..12]), Value(s[12])) && Completes(KeySum(s[..13]), Value(s[13]))
  {
    DigitCompletes(KeySum(s[..12]), Value(s[12]));
    DigitCompletes(KeySum(s[..13]), Value(s[13]));
    TablesAreTheCycle(s[..12]);
    var first := DigitOf(WeightedSum(s[..12], FIRST_WEIGHTS, 12));
    var base := s[..12] + [DigitChar(first)];
    TablesAreTheCycle(base);
    if Value(s[12]) == first {
      assert s[12] == DigitChar(first);
      assert base == s[..13];
    }
  }

  /** A parsed key parses to itself, so keys compare by their text. */
  lemma ParseIsIdempotent(raw: string)
    requires ParseAccessKey(raw).Some?
    ensures ParseAccessKey(ParseAccessKey(raw).value) == ParseAccessKey(raw)
  {
    var key := ParseAccessKey(raw).value;
    assert CharAllowed(key[0], 0, SLOT_START, SLOT_END) && CharAllowed(key[43], 43, SLOT_START, SLOT_END);
    assert TrimSpace(key) == key;
    forall j | 0 <= j < |key|
      ensures Upper(key[j]) == key[j]
    {
      assert CharAllowed(key[j], j, SLOT_START, SLOT_END);
    }
    assert ToUpper(key) == key;
  }

  /** A valid all-digit key with one base digit changed parses exactly in the blind case. */
  lemma WrongDigitParsesOnlyWhenBlind(key: string, i: nat, c: char)
    requires ParseAccessKey(key) == Some(key) && Digits(key) && i < KEY_LENGTH - 1 && IsDigit(c) && c != key[i]
    ensures ParseAccessKey(key[i := c]).Some? <==>
              Blind(KeySum(key[..KEY_LENGTH - 1]), KeySum(key[i := c][..KEY_LENGTH - 1]))
  {
    var other := key[i := c];
    var a, b := key[..KEY_LENGTH - 1], other[..KEY_LENGTH - 1];
    OneWrongDigit(a, b, i);
    AllDigitKey(key);
    AllDigitKey(other);
  }

  /** And with two unequal neighbours of its base swapped, exactly in that case too. */
  lemma SwappedDigitsParseOnlyWhenBlind(key: string, i: nat)
    requires ParseAccessKey(key) == Some(key) && Digits(key) && i + 1 < KEY_LENGTH - 1 && key[i] != key[i + 1]
    ensures var other := key[i := key[i + 1]][i + 1 := key[i]];
            ParseAccessKey(other).Some? <==> Blind(KeySum(key[..KEY_LENGTH - 1]), KeySum(other[..KEY_LENGTH - 1]))
  {
    var other := key[i := key[i + 1]][i + 1 := key[i]];
    var a, b := key[..KEY_LENGTH - 1], other[..KEY_LENGTH - 1];
    SwappedNeighbours(a, b, i);
    AllDigitKey(key);
    AllDigitKey(other);
  }

  lemma AllDigitKey(key: string)
    requires Digits(key) && |key| == KEY_LENGTH
    ensures KeyText(key[..KEY_LENGTH - 1])
    ensures ParseAccessKey(key).Some? <==> Value(key[KEY_LENGTH - 1]) == KeyDigit(key[..KEY_LENGTH - 1])
  {
    assert IsDigit(key[0]) && IsDigit(key[43]);
    assert TrimSpace(key) == key;
    assert ToUpper(key) == key;
  }
}
