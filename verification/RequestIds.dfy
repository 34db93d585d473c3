/** Codex request ids as text: 64-bit integers in decimal, strings as they are. */
module RequestIds {
  import opened Wrappers

  const I64_MIN: int := -0x8000_0000_0000_0000
  const I64_MAX: int := 0x7fff_ffff_ffff_ffff

  predicate InRange(n: int) {
    I64_MIN <= n <= I64_MAX
  }

  datatype RequestId = Integer(n: int) | String(s: string)

  /** An id the protocol can carry. */
  predicate Valid(id: RequestId) {
    id.Integer? ==> InRange(id.n)
  }

  // ---------------------------------------------------------------- decimal text

  function DigitChar(d: nat): (c: char)
    requires d < 10
    ensures '0' <= c <= '9' && c as int - '0' as int == d
  {
    ('0' as int + d) as char
  }

  predicate IsDigits(s: string) {
    s != "" && forall i :: 0 <= i < |s| ==> '0' <= s[i] <= '9'
  }

  function Decimal(n: nat): (s: string)
    ensures IsDigits(s)
    ensures s[0] == '0' ==> n == 0 && |s| == 1
  {
    if n < 10 then [DigitChar(n)] else Decimal(n / 10) + [DigitChar(n % 10)]
  }

  function FormatInt(n: int): (s: string)
    ensures s != ""
  {
    if n < 0 then "-" + Decimal(-n) else Decimal(n)
  }

  function Format(id: RequestId): string {
    match id
    case Integer(n) => FormatInt(n)
    case String(s) => s
  }

  /** Reading digits left to right; a character that is no digit, or a value that leaves the
      range on the way, fails. Below zero the digits are taken away rather than added, so that
      the least integer can be read. */
  function Accumulate(s: string, n: nat, negative: bool): Option<int>
    requires n <= |s|
  {
    if n == 0 then Some(0)
    else
      var before := Accumulate(s, n - 1, negative);
      if before.None? || !('0' <= s[n - 1] <= '9') then None
      else
        var digit := s[n - 1] as int - '0' as int;
        var scaled := before.value * 10;
        var next := if negative then scaled - digit else scaled + digit;
        if InRange(scaled) && InRange(next) then Some(next) else None
  }

  function ParseDigits(s: string, negative: bool): Option<int> {
    if s == "" then None else Accumulate(s, |s|, negative)
  }

  function ParseInt(s: string): Option<int> {
    if s == "" then None
    else if s[0] == '-' then ParseDigits(s[1..], true)
    else if s[0] == '+' then ParseDigits(s[1..], false)
    else ParseDigits(s, false)
  }

  function Parse(s: string): RequestId {
    var n := ParseInt(s);
    if n.Some? then Integer(n.value) else String(s)
  }

  // ---------------------------------------------------------------- what parsing means

  function Value(s: string): nat
    requires forall i :: 0 <= i < |s| ==> '0' <= s[i] <= '9'
  {
    if s == "" then 0 else Value(s[..|s| - 1]) * 10 + (s[|s| - 1] as int - '0' as int)
  }

  function Signed(negative: bool, n: nat): int {
    if negative then 0 - n else n
  }

  lemma {:induction false} AccumulateExact(s: string, n: nat, negative: bool)
    requires n <= |s|
    ensures Accumulate(s, n, negative).Some? <==>
      (forall i :: 0 <= i < n ==> '0' <= s[i] <= '9') && InRange(Signed(negative, Value(s[..n])))
    ensures Accumulate(s, n, negative).Some? ==>
      Accumulate(s, n, negative).value == Signed(negative, Value(s[..n]))
  {
    if n == 0 {
      assert s[..0] == "";
    } else {
      AccumulateExact(s, n - 1, negative);
      assert s[..n][..n - 1] == s[..n - 1];
    }
  }

  lemma ParseDigitsExact(s: string, negative: bool)
    ensures ParseDigits(s, negative).Some? <==> IsDigits(s) && InRange(Signed(negative, Value(s)))
    ensures ParseDigits(s, negative).Some? ==> ParseDigits(s, negative).value == Signed(negative, Value(s))
  {
    AccumulateExact(s, |s|, negative);
    assert s[..|s|] == s;
  }

  /** A signed decimal: at most one sign, then at least one digit, within 64 bits. */
  predicate IsSignedDecimal(s: string) {
    s != "" &&
    if s[0] == '-' || s[0] == '+' then IsDigits(s[1..]) && InRange(Signed(s[0] == '-', Value(s[1..])))
    else IsDigits(s) && InRange(Value(s))
  }

  lemma ParseIntExact(s: string)
    ensures ParseInt(s).Some? <==> IsSignedDecimal(s)
    ensures ParseInt(s).Some? ==> InRange(ParseInt(s).value)
  {
    if s != "" {
      ParseDigitsExact(s[1..], s[0] == '-');
      ParseDigitsExact(s, false);
    }
  }

  lemma {:induction false} ValueOfDecimal(n: nat)
    ensures Value(Decimal(n)) == n
  {
    if n < 10 {
      assert [DigitChar(n)][..0] == "";
    } else {
      ValueOfDecimal(n / 10);
      var s := Decimal(n / 10) + [DigitChar(n % 10)];
      assert s[..|s| - 1] == Decimal(n / 10);
    }
  }

  lemma DecimalAppend(m: nat, d: nat)
    requires 0 < m && d < 10
    ensures Decimal(m * 10 + d) == Decimal(m) + [DigitChar(d)]
  {
  }

  lemma DigitOf(c: char)
    requires '0' <= c <= '9'
    ensures DigitChar(c as int - '0' as int) == c
    ensures Value([c]) == c as int - '0' as int
  {
  }

  /** Without leading zeros, digits are what their value prints as. */
  lemma {:induction false} DecimalOfValue(s: string)
    requires IsDigits(s) && (s[0] == '0' ==> |s| == 1)
    ensures Decimal(Value(s)) == s
    ensures s[0] != '0' ==> Value(s) > 0
    decreases |s|
  {
    var c := s[|s| - 1];
    DigitOf(c);
    if |s| == 1 {
      assert s == [c];
    } else {
      hide Decimal, DigitChar;
      var t := s[..|s| - 1];
      DecimalOfValue(t);
      DecimalAppend(Value(t), c as int - '0' as int);
      assert s == t + [c];
    }
  }

  // ---------------------------------------------------------------- round trips

  /** Every 64-bit integer, the least one included, comes back as itself. */
  lemma IntegersRoundTrip(n: int)
    requires InRange(n)
    ensures Parse(Format(Integer(n))) == Integer(n)
  {
    var text := FormatInt(n);
    if n < 0 {
      assert text[1..] == Decimal(-n);
      ValueOfDecimal(-n);
      ParseDigitsExact(Decimal(-n), true);
    } else {
      ValueOfDecimal(n);
      ParseDigitsExact(Decimal(n), false);
    }
  }

  /** A string comes back as itself exactly when it does not read as a 64-bit decimal. */
  lemma StringsRoundTripExactly(s: string)
    ensures Parse(Format(String(s))) == String(s) <==> !IsSignedDecimal(s)
  {
    ParseIntExact(s);
  }

  /** The one way of writing each integer: no plus sign, no leading zero, no negative zero. */
  predicate IsCanonical(s: string) {
    s != "" && s[0] != '+' &&
    if s[0] == '-' then |s| > 1 && s[1] != '0'
    else s[0] == '0' ==> |s| == 1
  }

  /** Text comes back unchanged exactly when it is no 64-bit decimal or a canonical one. */
  lemma TextRoundTripsExactly(s: string)
    ensures Format(Parse(s)) == s <==> (IsSignedDecimal(s) ==> IsCanonical(s))
  {
    ParseIntExact(s);
    if IsSignedDecimal(s) {
      ReprintsExactly(s);
    }
  }

  lemma ReprintsExactly(s: string)
    requires IsSignedDecimal(s)
    ensures ParseInt(s).Some?
    ensures FormatInt(ParseInt(s).value) == s <==> IsCanonical(s)
  {
    ParseIntExact(s);
    if s[0] == '-' {
      NegativeReprints(s);
    } else if s[0] == '+' {
      PlusNeverPrinted(ParseInt(s).value);
    } else {
      ParseDigitsExact(s, false);
      if IsCanonical(s) {
        DecimalOfValue(s);
      }
    }
  }

  lemma PlusNeverPrinted(n: int)
    ensures FormatInt(n)[0] != '+'
  {
  }

  lemma NegativeReprints(s: string)
    requires IsSignedDecimal(s) && s[0] == '-'
    ensures ParseInt(s).Some?
    ensures FormatInt(ParseInt(s).value) == s <==> IsCanonical(s)
  {
    var digits := s[1..];
    assert s == "-" + digits;
    ParseDigitsExact(digits, true);
    if digits[0] != '0' {
      DecimalOfValue(digits);
    } else if Value(digits) > 0 {
      var n: int := Value(digits);
      assert FormatInt(0 - n) == "-" + Decimal(n);
      assert FormatInt(0 - n)[1] == Decimal(n)[0] != '0';
    } else {
      assert FormatInt(0)[0] != '-';
    }
  }

  /** Two different ids have the same text exactly when one is an integer and the other a string
      that spells it canonically. */
  lemma SameTextExactly(a: RequestId, b: RequestId)
    requires Valid(a) && Valid(b) && a != b
    ensures Format(a) == Format(b) <==>
      (a.Integer? && b == String(FormatInt(a.n))) || (b.Integer? && a == String(FormatInt(b.n)))
  {
    if a.Integer? && b.Integer? {
      IntegersRoundTrip(a.n);
      IntegersRoundTrip(b.n);
    }
  }
}
