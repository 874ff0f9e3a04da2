/** The byte-string helpers of Go's strings and strconv packages that the
    repository's parsers rely on. A string is a sequence of bytes. */
module Text {
  import opened Base

  /** strings.Cut on a one-byte separator uses the first occurrence. */
  function IndexOf(s: string, c: char): (i: nat)
    ensures i <= |s|
    ensures i < |s| ==> s[i] == c
    ensures forall k | 0 <= k < i :: s[k] != c
  {
    if s == [] then 0
    else if s[0] == c then 0
    else 1 + IndexOf(s[1..], c)
  }

  datatype CutResult = CutResult(before: string, after: string, found: bool)

  function Cut(s: string, c: char): (r: CutResult)
    ensures c !in r.before
    ensures s == if r.found then r.before + [c] + r.after else r.before
  {
    var i := IndexOf(s, c);
    if i < |s| then CutResult(s[..i], s[i + 1..], true) else CutResult(s, "", false)
  }

  lemma CutUnique(before: string, c: char, after: string)
    requires c !in before
    ensures Cut(before + [c] + after, c) == CutResult(before, after, true)
  {
    var s := before + [c] + after;
    var i := IndexOf(s, c);
    assert s[|before|] == c;
    assert forall k | 0 <= k < |before| :: s[k] == before[k] && before[k] != c;
    assert i == |before|;
    assert s[..i] == before && s[i + 1..] == after;
  }

  lemma CutAbsent(s: string, c: char)
    requires c !in s
    ensures Cut(s, c) == CutResult(s, "", false)
  {
    assert forall k | 0 <= k < |s| :: s[k] in s;
  }

  predicate IsDigit(c: char) { '0' <= c <= '9' }

  predicate IsHex(c: char) { IsDigit(c) || 'a' <= c <= 'f' || 'A' <= c <= 'F' }

  predicate IsLowerHex(c: char) { IsDigit(c) || 'a' <= c <= 'f' }

  predicate AllDigits(s: string) { forall i | 0 <= i < |s| :: IsDigit(s[i]) }

  function DigitOf(n: nat): (c: char)
    requires n < 10
    ensures IsDigit(c)
  {
    ('0' as int + n) as char
  }

  function Digits(n: nat): (s: string)
    ensures |s| > 0 && AllDigits(s)
  {
    if n < 10 then [DigitOf(n)] else Digits(n / 10) + [DigitOf(n % 10)]
  }

  function Itoa(n: int): string {
    if n < 0 then "-" + Digits(-n) else Digits(n)
  }

  function DigitsValue(s: string): nat
    requires AllDigits(s)
  {
    if s == [] then 0
    else 10 * DigitsValue(s[..|s| - 1]) + (s[|s| - 1] as int - '0' as int)
  }

  const MIN_INT64: int := -0x8000_0000_0000_0000
  const MAX_INT64: int := 0x7fff_ffff_ffff_ffff

  /** strconv.Atoi: an optional sign, at least one decimal digit, and a value
      that fits a 64-bit int. */
  function Atoi(s: string): Option<int> {
    var negative := s != [] && s[0] == '-';
    var body := if s != [] && (s[0] == '-' || s[0] == '+') then s[1..] else s;
    if body == [] || !AllDigits(body) then None
    else
      var magnitude: int := DigitsValue(body);
      var n := if negative then -magnitude else magnitude;
      if MIN_INT64 <= n <= MAX_INT64 then Some(n) else None
  }

  lemma {:induction false} DigitsRoundTrip(n: nat)
    ensures DigitsValue(Digits(n)) == n
  {
    if n >= 10 {
      DigitsRoundTrip(n / 10);
      var s := Digits(n);
      assert s[..|s| - 1] == Digits(n / 10);
    } else {
      assert Digits(n)[..0] == [];
    }
  }

  /** Printing an int and reading it back gives the same int, if it fits. */
  lemma AtoiItoa(n: int)
    ensures Atoi(Itoa(n)) == if MIN_INT64 <= n <= MAX_INT64 then Some(n) else None
  {
    var digits := Digits(if n < 0 then -n else n);
    DigitsRoundTrip(if n < 0 then -n else n);
    if n < 0 {
      assert Itoa(n) == "-" + digits && Itoa(n)[1..] == digits;
    } else {
      assert Itoa(n) == digits && IsDigit(digits[0]);
    }
  }

  /** A decimal port in its one canonical spelling: Atoi succeeds, the value is
      in 1..65535, and Itoa gives the very same text back. */
  function ExactPort(s: string): (r: Option<int>)
    ensures r.Some? ==> 1 <= r.value <= 65535 && Itoa(r.value) == s
  {
    match Atoi(s)
    case Some(p) => if 1 <= p <= 65535 && Itoa(p) == s then Some(p) else None
    case None => None
  }

  /** A text is the exact spelling of a port if and only if it is that number printed. */
  lemma ExactPortExactly(s: string, p: int)
    ensures ExactPort(s) == Some(p) <==> 1 <= p <= 65535 && s == Itoa(p)
  {
    if 1 <= p <= 65535 && s == Itoa(p) {
      AtoiItoa(p);
    }
  }

  lemma {:induction false} LeadingZero(s: string)
    requires AllDigits(s)
    ensures AllDigits("0" + s) && DigitsValue("0" + s) == DigitsValue(s)
  {
    var t := "0" + s;
    if s == [] {
      assert t[..0] == [];
    } else {
      assert t[..|t| - 1] == "0" + s[..|s| - 1];
      LeadingZero(s[..|s| - 1]);
    }
  }

  lemma UnsignedAtoi(digits: string)
    requires digits != "" && AllDigits(digits)
    ensures Atoi(digits) == if DigitsValue(digits) <= MAX_INT64 then Some(DigitsValue(digits)) else None
  {
    assert IsDigit(digits[0]);
  }

  lemma PlusAtoi(digits: string)
    requires digits != "" && AllDigits(digits)
    ensures Atoi(['+'] + digits) == Atoi(digits)
  {
    assert (['+'] + digits)[1..] == digits;
    UnsignedAtoi(digits);
  }

  /** Reading forgives a plus sign and leading zeros. */
  lemma AtoiForgives(n: nat)
    ensures Atoi(['+'] + Digits(n)) == Atoi(Digits(n)) == Atoi("0" + Digits(n))
  {
    PlusAtoi(Digits(n));
    LeadingZero(Digits(n));
    UnsignedAtoi(Digits(n));
    UnsignedAtoi("0" + Digits(n));
  }
}
