/**
 * String helpers the account model relies on: the e-mail normalisation that
 * `create_user` applies before storing an address, and the decimal rendering
 * of an integer that a grocery's display string ends with.
 */
module Text {
  import opened Results

  // ---------------------------------------------------------------------------
  // Lower-casing

  /** Case folding of one character; only the ASCII letters A-Z change. */
  function ToLowerChar(c: char): char
  {
    if 'A' <= c <= 'Z' then (c as int + 32) as char else c
  }

  /** Lower-cases a string character by character. */
  function ToLower(s: string): (r: string)
    ensures |r| == |s|
    ensures forall i :: 0 <= i < |s| ==> r[i] == ToLowerChar(s[i])
  {
    if s == [] then [] else [ToLowerChar(s[0])] + ToLower(s[1..])
  }

  /** Lower-casing twice is lower-casing once. */
  lemma ToLowerIdempotent(s: string)
    ensures ToLower(ToLower(s)) == ToLower(s)
  {
    var once := ToLower(s);
    assert forall i :: 0 <= i < |s| ==> ToLower(once)[i] == once[i];
  }

  /** Lower-casing neither creates nor removes an '@'. */
  lemma ToLowerKeepsAt(s: string)
    ensures '@' in ToLower(s) <==> '@' in s
  {
    var r := ToLower(s);
    if '@' in s {
      var i :| 0 <= i < |s| && s[i] == '@';
      assert r[i] == '@';
    }
    if '@' in r {
      var i :| 0 <= i < |r| && r[i] == '@';
      assert s[i] == '@';
    }
  }

  // ---------------------------------------------------------------------------
  // E-mail normalisation

  /** The position of the last occurrence of `c` in `s`, if any. */
  function LastIndexOf(s: string, c: char): (r: Option<nat>)
    ensures r.Some? ==> r.value < |s| && s[r.value] == c
    ensures r.Some? ==> forall j :: r.value < j < |s| ==> s[j] != c
    ensures r.None? <==> c !in s
  {
    if s == [] then None
    else if s[|s| - 1] == c then Some(|s| - 1)
    else LastIndexOf(s[..|s| - 1], c)
  }

  /**
   * The address as stored: split at the last '@', keep the local part as
   * given and lower-case the domain part; an address without '@' is kept.
   */
  function NormalizeEmail(email: string): (r: string)
    ensures |r| == |email|
    ensures forall i :: 0 <= i < |email| ==> r[i] == email[i] || r[i] == ToLowerChar(email[i])
    ensures '@' !in email ==> r == email
  {
    match LastIndexOf(email, '@')
    case None => email
    case Some(k) =>
      var r := email[..k] + "@" + ToLower(email[k + 1..]);
      assert forall i :: k < i < |email| ==> r[i] == ToLowerChar(email[i]);
      r
  }

  /** An address without '@' is left exactly as given. */
  lemma NormalizeEmailWithoutAt(email: string)
    requires '@' !in email
    ensures NormalizeEmail(email) == email
  {
  }

  /**
   * For an address written `local@domain` whose domain part holds no '@', the
   * normalised form keeps `local` and lower-cases `domain`.
   */
  lemma NormalizeEmailSplits(local: string, domain: string)
    requires '@' !in domain
    ensures NormalizeEmail(local + "@" + domain) == local + "@" + ToLower(domain)
  {
    var s := local + "@" + domain;
    var k := |local|;
    assert s[k] == '@';
    forall j | k < j < |s|
      ensures s[j] != '@'
    {
      assert s[j] == domain[j - k - 1];
    }
    assert LastIndexOf(s, '@') == Some(k);
    assert s[..k] == local;
    assert s[k + 1..] == domain;
  }

  /** Normalising an already normalised address changes nothing. */
  lemma NormalizeEmailIdempotent(email: string)
    ensures NormalizeEmail(NormalizeEmail(email)) == NormalizeEmail(email)
  {
    match LastIndexOf(email, '@')
    case None =>
    case Some(k) =>
      var domain := email[k + 1..];
      forall j | 0 <= j < |domain|
        ensures domain[j] != '@'
      {
        assert domain[j] == email[k + 1 + j];
      }
      ToLowerKeepsAt(domain);
      NormalizeEmailSplits(email[..k], ToLower(domain));
      ToLowerIdempotent(domain);
  }

  /** The example pinned by the model tests: only the domain is lower-cased. */
  lemma NormalizeEmailExample(email: string)
    requires email == "test@TEST.com"
    ensures NormalizeEmail(email) == "test@test.com"
  {
    var domain := email[5..];
    assert email == email[..4] + "@" + domain;
    assert '@' !in domain;
    NormalizeEmailSplits(email[..4], domain);
    var lowered := ToLower(domain);
    assert lowered[0] == 't' && lowered[1] == 'e' && lowered[2] == 's' && lowered[3] == 't';
    assert lowered[4] == '.' && lowered[5] == 'c' && lowered[6] == 'o' && lowered[7] == 'm';
    assert email[..4] + "@" + lowered == "test@test.com";
  }

  // ---------------------------------------------------------------------------
  // Decimal rendering of integers

  predicate IsDigit(c: char)
  {
    '0' <= c <= '9'
  }

  predicate AllDigits(s: string)
  {
    forall i :: 0 <= i < |s| ==> IsDigit(s[i])
  }

  /** A decimal numeral as the integer formatter writes one: digits, no leading zero. */
  predicate IsCanonical(s: string)
  {
    |s| > 0 && AllDigits(s) && (s[0] == '0' ==> |s| == 1)
  }

  function DigitChar(d: nat): char
    requires d < 10
  {
    (d + '0' as int) as char
  }

  function DigitValue(c: char): nat
    requires IsDigit(c)
  {
    c as int - '0' as int
  }

  /** The decimal numeral of a natural number. */
  function NatToDecimal(n: nat): (r: string)
    ensures IsCanonical(r)
    ensures r[0] == '0' <==> n == 0
  {
    if n < 10 then [DigitChar(n)] else NatToDecimal(n / 10) + [DigitChar(n % 10)]
  }

  /** The decimal rendering of an integer: a '-' sign for negative values. */
  function IntToDecimal(i: int): (r: string)
    ensures |r| > 0
    ensures i >= 0 ==> IsCanonical(r)
    ensures i < 0 ==> r[0] == '-' && IsCanonical(r[1..]) && r[1] != '0'
  {
    if i < 0 then "-" + NatToDecimal(-i) else NatToDecimal(i)
  }

  /** The value of a string of decimal digits. */
  function DecimalValue(s: string): nat
    requires AllDigits(s)
  {
    if s == [] then 0 else DecimalValue(s[..|s| - 1]) * 10 + DigitValue(s[|s| - 1])
  }

  /** Reads back an integer written by IntToDecimal; anything else is rejected. */
  function ParseInt(s: string): Option<int>
  {
    if |s| > 0 && s[0] == '-' then
      if IsCanonical(s[1..]) && s[1..] != "0" then Some(0 - DecimalValue(s[1..])) else None
    else if IsCanonical(s) then Some(DecimalValue(s))
    else None
  }

  lemma {:induction false} DecimalValueOfNatToDecimal(n: nat)
    ensures DecimalValue(NatToDecimal(n)) == n
  {
    if n >= 10 {
      DecimalValueOfNatToDecimal(n / 10);
      var s := NatToDecimal(n);
      assert s[..|s| - 1] == NatToDecimal(n / 10);
    }
  }

  lemma {:induction false} DecimalValuePositive(s: string)
    requires |s| > 0 && AllDigits(s) && s[0] != '0'
    ensures DecimalValue(s) > 0
  {
    if |s| > 1 {
      DecimalValuePositive(s[..|s| - 1]);
    }
  }

  /** Every canonical numeral is the rendering of its own value. */
  lemma {:induction false} NatToDecimalOfDecimalValue(s: string)
    requires IsCanonical(s)
    ensures NatToDecimal(DecimalValue(s)) == s
  {
    if |s| > 1 {
      var prefix := s[..|s| - 1];
      assert IsCanonical(prefix);
      NatToDecimalOfDecimalValue(prefix);
      DecimalValuePositive(prefix);
      assert s == prefix + [s[|s| - 1]];
    }
  }

  /** Rendering an integer and reading it back yields the integer. */
  lemma IntToDecimalRoundTrip(i: int)
    ensures ParseInt(IntToDecimal(i)) == Some(i)
  {
    if i < 0 {
      var digits := NatToDecimal(-i);
      assert IntToDecimal(i)[1..] == digits;
      DecimalValueOfNatToDecimal(-i);
    } else {
      DecimalValueOfNatToDecimal(i);
    }
  }

  /** A string ParseInt accepts is exactly the rendering of the value it reads. */
  lemma ParseIntOnlyAcceptsRenderings(s: string, i: int)
    requires ParseInt(s) == Some(i)
    ensures IntToDecimal(i) == s
  {
    if |s| > 0 && s[0] == '-' {
      var digits := s[1..];
      NatToDecimalOfDecimalValue(digits);
      assert DecimalValue(digits) != 0;
      assert s == "-" + digits;
    } else {
      NatToDecimalOfDecimalValue(s);
    }
  }
}
