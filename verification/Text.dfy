/** Decimal and hexadecimal printing and parsing, as `strconv` does them, and path joining. */
module Text {
  import opened Wrappers

  const MAX_INT64 := 0x7fff_ffff_ffff_ffff
  const MIN_INT64 := -0x8000_0000_0000_0000

  predicate IsInt64(i: int) {
    MIN_INT64 <= i <= MAX_INT64
  }

  /** The characters a printed number can hold. */
  predicate IsNumberChar(c: char) {
    c == '-' || IsDigitChar(c)
  }

  predicate IsDigitChar(c: char) {
    '0' <= c <= '9' || 'a' <= c <= 'f'
  }

  datatype Base = Ten | Sixteen {
    function Value(): (b: nat)
      ensures b == 10 || b == 16
    {
      if Ten? then 10 else 16
    }

    /** All but the last digit of a number. */
    function High(n: nat): nat {
      if Ten? then n / 10 else n / 16
    }

    /** The last digit of a number. */
    function Low(n: nat): nat {
      if Ten? then n % 10 else n % 16
    }

    /** A number put together from its high part and its last digit. */
    function Shift(high: nat, low: nat): nat {
      if Ten? then 10 * high + low else 16 * high + low
    }
  }

  /** The printed character of one digit. */
  function DigitChar(d: nat): (c: char)
    requires d < 16
    ensures IsDigitChar(c) && DigitValue(c) == Some(d)
  {
    if d < 10 then '0' + d as char else 'a' + (d - 10) as char
  }

  function FormatNat(n: nat, base: Base): (s: string)
    ensures |s| > 0
    ensures forall c :: c in s ==> IsDigitChar(c)
  {
    if n < base.Value() then [DigitChar(n)] else FormatNat(base.High(n), base) + [DigitChar(base.Low(n))]
  }

  function FormatInt(i: int, base: Base): (s: string)
    ensures |s| > 0
    ensures forall c :: c in s ==> IsNumberChar(c)
  {
    if i < 0 then "-" + FormatNat(-i, base) else FormatNat(i, base)
  }

  function Itoa(i: int): (s: string)
    ensures |s| > 0
    ensures forall c :: c in s ==> IsNumberChar(c)
  {
    FormatInt(i, Ten)
  }

  function ItoaAll(ints: seq<int>): (texts: seq<string>)
    ensures |texts| == |ints|
    ensures forall k | 0 <= k < |ints| :: texts[k] == Itoa(ints[k])
  {
    if ints == [] then [] else [Itoa(ints[0])] + ItoaAll(ints[1..])
  }

  /** Go reads the letters of both cases as digits above nine, whatever the base. */
  function DigitValue(c: char): Option<nat> {
    if '0' <= c <= '9' then Some(c as nat - '0' as nat)
    else if 'a' <= c <= 'z' then Some(c as nat - 'a' as nat + 10)
    else if 'A' <= c <= 'Z' then Some(c as nat - 'A' as nat + 10)
    else None
  }

  function ParseDigits(s: string, base: Base): Option<nat> {
    if s == "" then Some(0)
    else
      match (ParseDigits(s[..|s| - 1], base), DigitValue(s[|s| - 1]))
      case (Some(high), Some(d)) => if d < base.Value() then Some(base.Shift(high, d)) else None
      case _ => None
  }

  /** The text without its sign. */
  function Unsigned(s: string): string {
    if s != "" && (s[0] == '+' || s[0] == '-') then s[1..] else s
  }

  /** `strconv.ParseInt(s, base, 64)`: None for a syntax or a range error. */
  function ParseInt(s: string, base: Base): (r: Option<int>)
    ensures r.Some? ==> IsInt64(r.value)
  {
    var unsigned := Unsigned(s);
    if unsigned == "" then None
    else
      match ParseDigits(unsigned, base)
      case None => None
      case Some(n) =>
        var i := if s[0] == '-' then 0 - n as int else n as int;
        if IsInt64(i) then Some(i) else None
  }

  lemma {:induction false} DigitsRoundTrip(n: nat, base: Base)
    ensures ParseDigits(FormatNat(n, base), base) == Some(n)
  {
    hide DigitChar, DigitValue, IsDigitChar;
    var s := FormatNat(n, base);
    if n < base.Value() {
      assert s[..|s| - 1] == "";
      assert ParseDigits("", base) == Some(0);
    } else {
      DigitsRoundTrip(base.High(n), base);
      assert s[..|s| - 1] == FormatNat(base.High(n), base);
    }
  }

  const DIGITS := "0123456789abcdef"

  /** The usual digits, most significant first, with a minus in front. */
  lemma PrintedDigits(n: nat, base: Base)
    ensures FormatNat(n, base)[|FormatNat(n, base)| - 1] == DIGITS[n % base.Value()]
    ensures n >= base.Value() ==> FormatNat(n, base) == FormatNat(n / base.Value(), base) + [DIGITS[n % base.Value()]]
  {
    DigitChars();
    hide DigitChar;
  }

  lemma DigitChars()
    ensures forall d | 0 <= d < 16 :: DigitChar(d) == DIGITS[d]
  {
  }

  lemma PrintedNumbers()
    ensures Itoa(120) == "120" && Itoa(-7) == "-7" && FormatInt(-255, Sixteen) == "-ff"
  {
    assert FormatNat(12, Ten) == "1" + "2";
    assert FormatNat(15, Sixteen) == "f";
  }

  /** A digit that the base does not have makes a text unreadable. */
  lemma {:induction false} UnreadableDigit(s: string, base: Base, k: nat)
    requires k < |s| && (DigitValue(s[k]).None? || DigitValue(s[k]).value >= base.Value())
    ensures ParseDigits(s, base).None?
  {
    if k < |s| - 1 {
      UnreadableDigit(s[..|s| - 1], base, k);
    }
  }

  /** Printing then parsing gives back every 64-bit number, negatives included. */
  lemma IntRoundTrip(i: int, base: Base)
    ensures ParseInt(FormatInt(i, base), base) == if IsInt64(i) then Some(i) else None
  {
    var n := if i < 0 then -i else i;
    DigitsRoundTrip(n, base);
    UnsignedOfFormat(i, base);
  }

  lemma UnsignedOfFormat(i: int, base: Base)
    ensures Unsigned(FormatInt(i, base)) == FormatNat(if i < 0 then -i else i, base)
    ensures FormatInt(i, base)[0] == '-' <==> i < 0
  {
    if i >= 0 {
      assert FormatInt(i, base)[0] in FormatNat(i, base);
    }
  }

  lemma FormatIntInjective(i: int, j: int, base: Base)
    requires FormatInt(i, base) == FormatInt(j, base)
    ensures i == j
  {
    UnsignedOfFormat(i, base);
    UnsignedOfFormat(j, base);
    DigitsRoundTrip(if i < 0 then -i else i, base);
    DigitsRoundTrip(if j < 0 then -j else j, base);
  }

  /** Components joined by a separator, as `strings.Join` and the key printers build them. */
  function Join(parts: seq<string>, sep: char): string {
    if |parts| == 0 then ""
    else if |parts| == 1 then parts[0]
    else parts[0] + [sep] + Join(parts[1..], sep)
  }

  /** `strings.Split` on a one-character separator; it never returns an empty slice. */
  function Split(s: string, sep: char): (parts: seq<string>)
    ensures |parts| > 0
    ensures forall part :: part in parts ==> sep !in part
  {
    if s == "" then [""]
    else
      var rest := Split(s[1..], sep);
      if s[0] == sep then [""] + rest else [[s[0]] + rest[0]] + rest[1..]
  }

  lemma {:induction false} SplitPrefix(part: string, rest: string, sep: char)
    requires sep !in part
    ensures Split(part + [sep] + rest, sep) == [part] + Split(rest, sep)
  {
    var s := part + [sep] + rest;
    if part == "" {
      assert s[1..] == rest;
    } else {
      assert s[1..] == part[1..] + [sep] + rest;
      SplitPrefix(part[1..], rest, sep);
      assert [part[0]] + part[1..] == part;
    }
  }

  lemma {:induction false} SplitWhole(part: string, sep: char)
    requires sep !in part
    ensures Split(part, sep) == [part]
  {
    if part != "" {
      SplitWhole(part[1..], sep);
      assert [part[0]] + part[1..] == part;
    }
  }

  /** Splitting undoes joining exactly when no component holds the separator. */
  lemma {:induction false} SplitJoin(parts: seq<string>, sep: char)
    requires |parts| > 0
    ensures Split(Join(parts, sep), sep) == parts <==> forall part :: part in parts ==> sep !in part
  {
    if forall part :: part in parts ==> sep !in part {
      SplitJoinPlain(parts, sep);
    }
  }

  lemma {:induction false} SplitJoinPlain(parts: seq<string>, sep: char)
    requires |parts| > 0
    requires forall part :: part in parts ==> sep !in part
    ensures Split(Join(parts, sep), sep) == parts
  {
    if |parts| == 1 {
      SplitWhole(parts[0], sep);
    } else {
      SplitJoinPlain(parts[1..], sep);
      SplitPrefix(parts[0], Join(parts[1..], sep), sep);
    }
  }

  lemma {:induction false} JoinOnlyHolds(parts: seq<string>, sep: char, c: char)
    requires c in Join(parts, sep)
    ensures c == sep || exists k | 0 <= k < |parts| :: c in parts[k]
  {
    if |parts| > 1 && c !in parts[0] && c != sep {
      JoinOnlyHolds(parts[1..], sep, c);
      var k :| 0 <= k < |parts[1..]| && c in parts[1..][k];
      assert c in parts[k + 1];
    }
  }
}
