/**
 * PHP scalar values and the integer conversions the resource code applies to them:
 * the `(int)` cast and `intval` (the same conversion), the decimal text PHP writes for
 * an integer, and the comma-joined list that `implode(',', ...)` builds from it.
 */
module PhpValues {

  /** The scalar values an id or a status argument can hold. */
  datatype PhpValue = PInt(i: int) | PString(s: string) | PBool(b: bool) | PNull

  predicate IsDigit(c: char) { '0' <= c <= '9' }

  /** The characters PHP skips before a leading-numeric string: space, \t, \n, \r, \v, \f. */
  predicate IsSpace(c: char) {
    c == ' ' || c == '\t' || c == '\n' || c == '\r' || c as int == 11 || c as int == 12
  }

  ghost predicate AllDigits(s: string) { forall i :: 0 <= i < |s| ==> IsDigit(s[i]) }

  function DigitValue(c: char): (d: nat)
    requires IsDigit(c)
    ensures d < 10
  {
    c as int - '0' as int
  }

  function DigitChar(d: nat): (c: char)
    requires d < 10
    ensures IsDigit(c) && DigitValue(c) == d
  {
    ('0' as int + d) as char
  }

  /** The value of a string of decimal digits, most significant digit first. */
  function DigitsValue(s: string): nat
    requires AllDigits(s)
  {
    if s == [] then 0 else DigitsValue(s[..|s| - 1]) * 10 + DigitValue(s[|s| - 1])
  }

  /** The longest prefix of `s` made of decimal digits. */
  function DigitPrefix(s: string): (p: string)
    ensures |p| <= |s| && p == s[..|p|]
    ensures AllDigits(p)
    ensures |p| < |s| ==> !IsDigit(s[|p|])
  {
    if s != [] && IsDigit(s[0]) then [s[0]] + DigitPrefix(s[1..]) else []
  }

  /** `s` without its leading whitespace. */
  function TrimLeadingSpace(s: string): (t: string)
    ensures |t| <= |s| && t == s[|s| - |t|..]
    ensures forall i :: 0 <= i < |s| - |t| ==> IsSpace(s[i])
    ensures t != [] ==> !IsSpace(t[0])
  {
    if s != [] && IsSpace(s[0]) then TrimLeadingSpace(s[1..]) else s
  }

  /**
   * PHP's integer reading of a string: leading whitespace is skipped, then an optional
   * sign and the longest run of digits give the value; a string without leading digits reads as 0.
   */
  function LeadingInt(s: string): int
  {
    SignedInt(TrimLeadingSpace(s))
  }

  /** An optional sign followed by the longest run of digits. */
  function SignedInt(t: string): int
  {
    if t != [] && t[0] == '-' then 0 - DigitsValue(DigitPrefix(t[1..]))
    else if t != [] && t[0] == '+' then DigitsValue(DigitPrefix(t[1..]))
    else DigitsValue(DigitPrefix(t))
  }

  /** `(int) $v`, which is also `intval($v)`. */
  function IntVal(v: PhpValue): int
  {
    match v
    case PInt(i) => i
    case PString(s) => LeadingInt(s)
    case PBool(b) => if b then 1 else 0
    case PNull => 0
  }

  /** `array_map('intval', $vs)` on a list. */
  function IntVals(vs: seq<PhpValue>): (r: seq<int>)
    ensures |r| == |vs|
    ensures forall i :: 0 <= i < |vs| ==> r[i] == IntVal(vs[i])
  {
    if vs == [] then [] else [IntVal(vs[0])] + IntVals(vs[1..])
  }

  /** The decimal digits of a natural number, without leading zeros. */
  function NatString(n: nat): (s: string)
    ensures s != [] && AllDigits(s)
  {
    if n < 10 then [DigitChar(n)] else NatString(n / 10) + [DigitChar(n % 10)]
  }

  /** The text PHP writes for an integer when it turns it into a string. */
  function DecimalString(n: int): (s: string)
  {
    if n < 0 then "-" + NatString(-n) else NatString(n)
  }

  lemma {:induction false} DigitsValueOfNatString(n: nat)
    ensures DigitsValue(NatString(n)) == n
  {
    if n >= 10 {
      var s := NatString(n);
      assert s[..|s| - 1] == NatString(n / 10);
      DigitsValueOfNatString(n / 10);
    }
  }

  lemma {:induction false} DigitPrefixOfDigits(s: string)
    requires AllDigits(s)
    ensures DigitPrefix(s) == s
  {
    if s != [] {
      DigitPrefixOfDigits(s[1..]);
    }
  }

  /** Reading back the decimal text of an integer gives the integer: `(int) (string) $n === $n`. */
  lemma LeadingIntOfDecimalString(n: int)
    ensures LeadingInt(DecimalString(n)) == n
  {
    if n < 0 {
      LeadingIntOfNegative(-n);
    } else {
      LeadingIntOfNatString(n);
    }
  }

  lemma LeadingIntOfNatString(m: nat)
    ensures LeadingInt(NatString(m)) == m
  {
    var digits := NatString(m);
    assert IsDigit(digits[0]);
    assert TrimLeadingSpace(digits) == digits;
    DigitPrefixOfDigits(digits);
    DigitsValueOfNatString(m);
  }

  lemma LeadingIntOfNegative(m: nat)
    requires m > 0
    ensures LeadingInt("-" + NatString(m)) == 0 - m
  {
    var digits := NatString(m);
    var s := "-" + digits;
    assert s[0] == '-' && !IsSpace(s[0]);
    assert TrimLeadingSpace(s) == s;
    assert s[1..] == digits;
    DigitPrefixOfDigits(digits);
    DigitsValueOfNatString(m);
    assert SignedInt(s) == 0 - DigitsValue(DigitPrefix(digits));
  }

  lemma NoCommaInDecimalString(n: int)
    ensures ',' !in DecimalString(n)
  {
    var s := NatString(if n < 0 then -n else n);
    assert forall i :: 0 <= i < |s| ==> s[i] != ',';
  }

  /** `implode(',', $parts)`. */
  function Implode(parts: seq<string>): string
  {
    if parts == [] then ""
    else if |parts| == 1 then parts[0]
    else parts[0] + "," + Implode(parts[1..])
  }

  /** `explode(',', $s)`: the pieces between commas; the empty string is one empty piece. */
  function Explode(s: string): (parts: seq<string>)
    ensures |parts| >= 1
  {
    if s == [] then [""]
    else
      var rest := Explode(s[1..]);
      if s[0] == ',' then [""] + rest else [[s[0]] + rest[0]] + rest[1..]
  }

  lemma {:induction false} ExplodeWithoutComma(a: string)
    requires ',' !in a
    ensures Explode(a) == [a]
  {
    if a != [] {
      ExplodeWithoutComma(a[1..]);
      assert [a[0]] + a[1..] == a;
    }
  }

  lemma {:induction false} ExplodeAfterPiece(a: string, b: string)
    requires ',' !in a
    ensures Explode(a + "," + b) == [a] + Explode(b)
  {
    if a == [] {
      assert (a + "," + b)[1..] == b;
    } else {
      assert (a + "," + b)[1..] == a[1..] + "," + b;
      ExplodeAfterPiece(a[1..], b);
      assert [a[0]] + a[1..] == a;
    }
  }

  /** Splitting a joined list of comma-free pieces gives the pieces back. */
  lemma {:induction false} ExplodeImplode(parts: seq<string>)
    requires parts != []
    requires forall i :: 0 <= i < |parts| ==> ',' !in parts[i]
    ensures Explode(Implode(parts)) == parts
  {
    if |parts| == 1 {
      ExplodeWithoutComma(parts[0]);
    } else {
      ExplodeImplode(parts[1..]);
      ExplodeAfterPiece(parts[0], Implode(parts[1..]));
      assert [parts[0]] + parts[1..] == parts;
    }
  }

  /** The decimal text of each integer of a list. */
  function DecimalStrings(xs: seq<int>): (r: seq<string>)
    ensures |r| == |xs|
    ensures forall i :: 0 <= i < |xs| ==> r[i] == DecimalString(xs[i])
  {
    if xs == [] then [] else [DecimalString(xs[0])] + DecimalStrings(xs[1..])
  }

  /** `implode(',', $xs)` for a list of integers. */
  function CommaList(xs: seq<int>): string
  {
    Implode(DecimalStrings(xs))
  }

  /** The integers a comma-separated list of integers stands for, piece by piece. */
  function ReadCommaList(text: string): (r: seq<int>)
  {
    ReadPieces(Explode(text))
  }

  function ReadPieces(pieces: seq<string>): (r: seq<int>)
    ensures |r| == |pieces|
    ensures forall i :: 0 <= i < |pieces| ==> r[i] == LeadingInt(pieces[i])
  {
    if pieces == [] then [] else [LeadingInt(pieces[0])] + ReadPieces(pieces[1..])
  }

  /** The text is empty exactly for the empty list. */
  lemma CommaListEmpty(xs: seq<int>)
    ensures CommaList(xs) == "" <==> xs == []
  {
    if xs != [] {
      var parts := DecimalStrings(xs);
      assert NatString(if xs[0] < 0 then -xs[0] else xs[0]) != [];
      if |parts| > 1 {
        assert |CommaList(xs)| >= |parts[0]| + 1;
      }
    }
  }

  /** The comma-joined text of a non-empty list of integers reads back as that list. */
  lemma ReadCommaListOfCommaList(xs: seq<int>)
    requires xs != []
    ensures ReadCommaList(CommaList(xs)) == xs
  {
    var parts := DecimalStrings(xs);
    forall i | 0 <= i < |parts| ensures ',' !in parts[i] {
      NoCommaInDecimalString(xs[i]);
    }
    ExplodeImplode(parts);
    forall i | 0 <= i < |xs| ensures LeadingInt(parts[i]) == xs[i] {
      LeadingIntOfDecimalString(xs[i]);
    }
  }
}
