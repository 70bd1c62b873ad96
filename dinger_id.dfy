/** The textual dinger id used in URLs and its datastore key (DingerIdToKey and
    KeyToDingerId). The id is validated against the character class [0-9A-Fa-f],
    then read with Sscanf's %d verb, so the encoding actually used is decimal. */
module DingerId {
  import opened Types

  const DingerKind: string := "Dinger"

  predicate IsHexDigit(c: char) {
    '0' <= c <= '9' || 'a' <= c <= 'f' || 'A' <= c <= 'F'
  }

  predicate IsDecimalDigit(c: char) {
    '0' <= c <= '9'
  }

  /** The regular expression `^[0-9A-Fa-f]+$`. */
  predicate MatchesIdPattern(s: string): (b: bool)
    ensures b <==> s != "" && forall c :: c in s ==> IsHexDigit(c)
  {
    |s| > 0 && forall i :: 0 <= i < |s| ==> IsHexDigit(s[i])
  }

  predicate AllDecimal(s: string) {
    forall i :: 0 <= i < |s| ==> IsDecimalDigit(s[i])
  }

  function DigitValue(c: char): nat
    requires IsDecimalDigit(c)
  {
    c as int - '0' as int
  }

  function DigitChar(d: nat): (c: char)
    requires d < 10
    ensures IsDecimalDigit(c) && DigitValue(c) == d
  {
    ('0' as int + d) as char
  }

  function Pow10(k: nat): (p: nat)
    ensures p > 0
  {
    if k == 0 then 1 else 10 * Pow10(k - 1)
  }

  /** The value of a string of decimal digits, most significant first: below
      10 to the power of its length. */
  function DecimalValue(s: string): (v: nat)
    requires AllDecimal(s)
    ensures v < Pow10(|s|)
  {
    if s == [] then 0
    else
      var front := DecimalValue(s[..|s| - 1]);
      assert front + 1 <= Pow10(|s| - 1);
      10 * front + DigitValue(s[|s| - 1])
  }

  /** Leading zeros do not change the value of a digit string. */
  lemma {:induction false} DecimalValueLeadingZero(s: string)
    requires AllDecimal(s)
    ensures AllDecimal("0" + s) && DecimalValue("0" + s) == DecimalValue(s)
  {
    var z := "0" + s;
    assert AllDecimal(z) by {
      forall i | 0 <= i < |z| ensures IsDecimalDigit(z[i]) {
        if i > 0 {
          assert z[i] == s[i - 1];
        }
      }
    }
    if s != [] {
      var front := s[..|s| - 1];
      assert z[..|z| - 1] == "0" + front;
      DecimalValueLeadingZero(front);
    }
  }

  /** The decimal rendering of a natural number, without leading zeros. */
  function Decimal(n: nat): (r: string)
    ensures |r| > 0 && AllDecimal(r)
    ensures |r| > 1 ==> r[0] != '0'
  {
    (if n < 10 then "" else Decimal(n / 10)) + [DigitChar(n % 10)]
  }

  /** The longest prefix of `s` made of decimal digits: what the %d verb consumes. */
  function LeadingDigits(s: string): (r: string)
    ensures r <= s && AllDecimal(r)
    ensures |r| < |s| ==> !IsDecimalDigit(s[|r|])
  {
    if s == [] || !IsDecimalDigit(s[0]) then "" else [s[0]] + LeadingDigits(s[1..])
  }

  predicate IsDingerKey(k: Key) {
    k.kind == DingerKind && k.stringId == "" && k.parent == None
  }

  function DingerKey(id: int64): (k: Key)
    ensures IsDingerKey(k) && k.intId == id
  {
    Key(DingerKind, "", id, None)
  }

  /** Parse a dinger id into a datastore key: character-class check, then a
      64-bit %d scan of the leading digit run, then a key of kind "Dinger". */
  function DingerIdToKey(s: string): (r: Result<Key>)
    ensures r.Ok? ==> MatchesIdPattern(s) && IsDingerKey(r.value) && r.value.intId >= 0
  {
    if !MatchesIdPattern(s) then Err(InvalidDingerId(s))
    else
      var digits := LeadingDigits(s);
      if digits == "" then Err(DingerIdParse(s, ExpectedInteger))
      else if DecimalValue(digits) > MaxInt64 then Err(DingerIdParse(s, IntegerOverflow))
      else Ok(DingerKey(DecimalValue(digits) as int64))
  }

  /** `fmt.Sprint(key.IntID())`: the signed decimal rendering of the integer id. */
  function KeyToDingerId(k: Key): (r: string)
    ensures k.intId >= 0 ==> AllDecimal(r) && MatchesIdPattern(r)
    ensures k.intId < 0 ==> |r| > 1 && r[0] == '-'
  {
    if k.intId < 0 then "-" + Decimal(-(k.intId as int)) else Decimal(k.intId as int)
  }

  lemma {:induction false} DecimalRoundTrip(n: nat)
    ensures DecimalValue(Decimal(n)) == n
  {
    var front := if n < 10 then "" else Decimal(n / 10);
    var s := front + [DigitChar(n % 10)];
    assert s == Decimal(n);
    assert s[..|s| - 1] == front;
    assert DecimalValue(s) == 10 * DecimalValue(front) + n % 10;
    if n >= 10 {
      DecimalRoundTrip(n / 10);
    }
  }

  lemma LeadingDigitsOfDecimal(s: string)
    requires AllDecimal(s)
    ensures LeadingDigits(s) == s
  {
  }

  /** Every id the encoder produces for a non-negative key decodes back to the
      dinger key with that integer id; for a dinger key this is the key itself. */
  lemma RoundTrip(k: Key)
    requires k.intId >= 0
    ensures DingerIdToKey(KeyToDingerId(k)) == Ok(DingerKey(k.intId))
    ensures IsDingerKey(k) ==> DingerIdToKey(KeyToDingerId(k)) == Ok(k)
  {
    var s := KeyToDingerId(k);
    LeadingDigitsOfDecimal(s);
    DecimalRoundTrip(k.intId as nat);
  }

  /** Distinct integer ids get distinct textual ids. */
  lemma DecimalInjective(m: nat, n: nat)
    requires Decimal(m) == Decimal(n)
    ensures m == n
  {
    DecimalRoundTrip(m);
    DecimalRoundTrip(n);
  }

  lemma EncodeInjective(a: Key, b: Key)
    requires KeyToDingerId(a) == KeyToDingerId(b)
    ensures a.intId == b.intId
  {
    var s := KeyToDingerId(a);
    if a.intId >= 0 && b.intId >= 0 {
      DecimalInjective(a.intId as int, b.intId as int);
    } else if a.intId < 0 && b.intId < 0 {
      assert s[1..] == Decimal(-(a.intId as int)) == Decimal(-(b.intId as int));
      DecimalInjective(-(a.intId as int), -(b.intId as int));
    }
  }

  /** A negative integer id renders with a sign and so never decodes. */
  lemma NegativeIdsDoNotDecode(k: Key)
    requires k.intId < 0
    ensures DingerIdToKey(KeyToDingerId(k)) == Err(InvalidDingerId(KeyToDingerId(k)))
  {
    assert !IsHexDigit(KeyToDingerId(k)[0]);
  }

  /** The character-class check rejects the empty string and any string holding a
      character outside [0-9A-Fa-f] (a sign, a space, an "x"), before any parsing. */
  lemma RejectsOutsidePattern(s: string, i: nat)
    requires s == "" || (i < |s| && !IsHexDigit(s[i]))
    ensures DingerIdToKey(s) == Err(InvalidDingerId(s))
  {
  }

  lemma RejectsExamples()
    ensures DingerIdToKey("") == Err(InvalidDingerId(""))
    ensures DingerIdToKey("-4") == Err(InvalidDingerId("-4"))
    ensures DingerIdToKey("+4") == Err(InvalidDingerId("+4"))
    ensures DingerIdToKey(" 4") == Err(InvalidDingerId(" 4"))
    ensures DingerIdToKey("4 ") == Err(InvalidDingerId("4 "))
    ensures DingerIdToKey("0x1f") == Err(InvalidDingerId("0x1f"))
  {
    RejectsOutsidePattern("-4", 0);
    RejectsOutsidePattern("+4", 0);
    RejectsOutsidePattern(" 4", 0);
    RejectsOutsidePattern("4 ", 1);
    RejectsOutsidePattern("0x1f", 1);
  }

  /** A non-empty string of decimal digits decodes to its value when that fits
      in an int64, and fails with an overflow otherwise. */
  lemma DecodeDecimalString(s: string)
    requires s != "" && AllDecimal(s)
    ensures DecimalValue(s) <= MaxInt64 ==> DingerIdToKey(s) == Ok(DingerKey(DecimalValue(s) as int64))
    ensures DecimalValue(s) > MaxInt64 ==> DingerIdToKey(s) == Err(DingerIdParse(s, IntegerOverflow))
  {
    LeadingDigitsOfDecimal(s);
  }

  /** The largest int64 decodes; one more overflows. */
  lemma Int64Boundary()
    ensures DingerIdToKey(KeyToDingerId(DingerKey(MaxInt64 as int64))) == Ok(DingerKey(MaxInt64 as int64))
    ensures var s := Decimal(MaxInt64 + 1);
            DingerIdToKey(s) == Err(DingerIdParse(s, IntegerOverflow))
  {
    RoundTrip(DingerKey(MaxInt64 as int64));
    DecimalRoundTrip(MaxInt64 + 1);
    DecodeDecimalString(Decimal(MaxInt64 + 1));
  }

  /** A pattern-matching id whose first character is a hex letter has no leading
      decimal digit, and the scan fails. */
  lemma DecodeNeedsLeadingDigit(s: string)
    requires MatchesIdPattern(s) && !IsDecimalDigit(s[0])
    ensures DingerIdToKey(s) == Err(DingerIdParse(s, ExpectedInteger))
  {
  }

  /** An id with a leading zero names the same dinger as the id without it, so
      "007" and "7" decode to the same key. */
  lemma LeadingZeroAlias(s: string)
    requires s != "" && AllDecimal(s)
    ensures DingerIdToKey("0" + s).Ok? <==> DingerIdToKey(s).Ok?
    ensures DingerIdToKey("0" + s).Ok? ==> DingerIdToKey("0" + s) == DingerIdToKey(s)
  {
    DecimalValueLeadingZero(s);
    DecodeDecimalString(s);
    DecodeDecimalString("0" + s);
  }

  /** The scan stops at the first hex letter: an id `s + t` with a decimal run `s`
      followed by a letter decodes exactly as `s` alone does. */
  lemma DecodeReadsLeadingRun(s: string, t: string)
    requires s != "" && AllDecimal(s) && MatchesIdPattern(s + t)
    requires t == "" || !IsDecimalDigit(t[0])
    ensures DingerIdToKey(s + t).Ok? <==> DingerIdToKey(s).Ok?
    ensures DingerIdToKey(s + t).Ok? ==> DingerIdToKey(s + t) == DingerIdToKey(s)
  {
    var st := s + t;
    var r := LeadingDigits(st);
    assert |r| == |s|;
    assert r == st[..|s|] == s;
    LeadingDigitsOfDecimal(s);
  }
}
