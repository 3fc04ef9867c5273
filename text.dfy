/** String helpers the Go code takes from its standard library: byte search, strings.Split,
    strings.HasPrefix/TrimSuffix, and strconv.Atoi with its decimal inverse. */
module Text {
  import opened Wrappers

  /** Position of the first `c` in `s` (strings.IndexByte). */
  function IndexOf(s: string, c: char): (r: Option<nat>)
    ensures r.None? <==> c !in s
    ensures r.Some? ==> r.value < |s| && s[r.value] == c && c !in s[..r.value]
  {
    if |s| == 0 then None
    else if s[0] == c then Some(0)
    else
      match IndexOf(s[1..], c)
      case None => None
      case Some(i) =>
        assert s[..i + 1] == [s[0]] + s[1..][..i];
        Some(i + 1)
  }

  /** Position of the last `c` in `s` (strings.LastIndexByte). */
  function LastIndexOf(s: string, c: char): (r: Option<nat>)
    ensures r.None? <==> c !in s
    ensures r.Some? ==> r.value < |s| && s[r.value] == c && c !in s[r.value + 1..]
  {
    if |s| == 0 then None
    else if s[|s| - 1] == c then Some(|s| - 1)
    else
      var r := LastIndexOf(s[..|s| - 1], c);
      assert s == s[..|s| - 1] + [s[|s| - 1]];
      r
  }

  predicate HasPrefix(s: string, prefix: string) {
    |prefix| <= |s| && s[..|prefix|] == prefix
  }

  predicate HasSuffix(s: string, suffix: string) {
    |suffix| <= |s| && s[|s| - |suffix|..] == suffix
  }

  /** strings.TrimSuffix: drops `suffix` once when `s` ends with it. */
  function TrimSuffix(s: string, suffix: string): (r: string)
    ensures HasSuffix(s, suffix) ==> r + suffix == s
    ensures !HasSuffix(s, suffix) ==> r == s
  {
    if HasSuffix(s, suffix) then
      assert s == s[..|s| - |suffix|] + s[|s| - |suffix|..];
      s[..|s| - |suffix|]
    else s
  }

  /** strings.Split with a one-character separator: the pieces between separators, in order. */
  function Split(s: string, sep: char): (parts: seq<string>)
    ensures |parts| >= 1
    ensures forall i :: 0 <= i < |parts| ==> sep !in parts[i]
    ensures |parts| >= 2 <==> sep in s
    decreases |s|
  {
    match IndexOf(s, sep)
    case None => [s]
    case Some(i) => [s[..i]] + Split(s[i + 1..], sep)
  }

  /** strings.Join with a one-character separator. */
  function Join(parts: seq<string>, sep: char): string {
    if |parts| == 0 then ""
    else if |parts| == 1 then parts[0]
    else parts[0] + [sep] + Join(parts[1..], sep)
  }

  /** Splitting loses nothing: joining the pieces back gives the original text. */
  lemma {:induction false} SplitJoin(s: string, sep: char)
    ensures Join(Split(s, sep), sep) == s
    decreases |s|
  {
    match IndexOf(s, sep)
    case None =>
    case Some(i) =>
      var rest := s[i + 1..];
      SplitJoin(rest, sep);
      assert s == s[..i] + [sep] + rest;
  }

  predicate IsDigit(c: char) {
    '0' <= c <= '9'
  }

  predicate AllDigits(s: string) {
    forall i :: 0 <= i < |s| ==> IsDigit(s[i])
  }

  function DigitChar(d: nat): (c: char)
    requires d < 10
    ensures IsDigit(c) && (c as int) - ('0' as int) == d
  {
    (('0' as int) + d) as char
  }

  /** The value of a run of decimal digits, most significant first. */
  function DigitsValue(ds: string): nat
    requires AllDigits(ds)
  {
    if |ds| == 0 then 0
    else DigitsValue(ds[..|ds| - 1]) * 10 + ((ds[|ds| - 1] as int) - ('0' as int))
  }

  /** Decimal rendering of a natural number without leading zeros (fmt's %d). */
  function DecimalText(n: nat): (s: string)
    ensures |s| >= 1 && AllDigits(s)
    ensures n > 0 ==> s[0] != '0'
  {
    if n < 10 then [DigitChar(n)] else DecimalText(n / 10) + [DigitChar(n % 10)]
  }

  const MinInt64: int := -0x8000_0000_0000_0000
  const MaxInt64: int := 0x7FFF_FFFF_FFFF_FFFF

  /** The text after an optional leading sign. */
  function Unsigned(s: string): (t: string)
    ensures HasPrefix(s, "-") || HasPrefix(s, "+") ==> t == s[1..]
    ensures !(HasPrefix(s, "-") || HasPrefix(s, "+")) ==> t == s
  {
    if |s| >= 1 && (s[0] == '-' || s[0] == '+') then s[1..] else s
  }

  /** The syntax strconv.Atoi accepts: an optional sign, then one or more decimal digits. */
  predicate IsNumber(s: string) {
    |Unsigned(s)| >= 1 && AllDigits(Unsigned(s))
  }

  /** The unbounded value of a well-formed number. */
  function NumberValue(s: string): int
    requires IsNumber(s)
  {
    var mag: int := DigitsValue(Unsigned(s));
    if s[0] == '-' then -mag else mag
  }

  /** strconv.Atoi on a 64-bit platform: a well-formed number whose value fits in int64; anything
      else is an error. */
  function Atoi(s: string): (r: Option<int>)
    ensures r.Some? <==> IsNumber(s) && MinInt64 <= NumberValue(s) <= MaxInt64
    ensures r.Some? ==> MinInt64 <= r.value <= MaxInt64
    ensures r.Some? ==> |s| >= 1 && (IsDigit(s[0]) || s[0] == '+' || s[0] == '-')
    ensures r.Some? && r.value < 0 ==> s[0] == '-'
  {
    if !IsNumber(s) then None
    else
      var v := NumberValue(s);
      if v < MinInt64 || v > MaxInt64 then None else Some(v)
  }

  const MaxUint64: int := 0xFFFF_FFFF_FFFF_FFFF

  /** The longest run of decimal digits at the start of `s`. */
  function LeadingDigits(s: string): (ds: string)
    ensures AllDigits(ds) && HasPrefix(s, ds)
    ensures |ds| < |s| ==> !IsDigit(s[|ds|])
  {
    if |s| >= 1 && IsDigit(s[0]) then [s[0]] + LeadingDigits(s[1..]) else []
  }

  /** ParseUint reads digit by digit and stops with a range error at the first digit that takes
      the value past 2^64 - 1, before it looks at anything after it. */
  predicate DigitsOverflow(s: string) {
    DigitsValue(LeadingDigits(Unsigned(s))) > MaxUint64
  }

  /** The value strconv.Atoi returns beside its error. A digit run that overflows uint64 gives the
      int64 bound of the sign (ParseUint's range error, clamped by ParseInt), whatever follows it;
      otherwise a syntax error gives 0, and a well-formed number out of range the nearest bound.
      Texts shorter than 19 characters, which Atoi parses on its fast path, cannot overflow. */
  function AtoiValue(s: string): (v: int)
    ensures MinInt64 <= v <= MaxInt64
    ensures Atoi(s).Some? ==> v == Atoi(s).value
    ensures DigitsOverflow(s) ==> v == if HasPrefix(s, "-") then MinInt64 else MaxInt64
    ensures !IsNumber(s) && !DigitsOverflow(s) ==> v == 0
    ensures IsNumber(s) && NumberValue(s) > MaxInt64 ==> v == MaxInt64
    ensures IsNumber(s) && NumberValue(s) < MinInt64 ==> v == MinInt64
  {
    if DigitsOverflow(s) then
      assert IsNumber(s) ==> Atoi(s).None? by {
        if IsNumber(s) { LeadingDigitsOfDigits(Unsigned(s)); }
      }
      if HasPrefix(s, "-") then MinInt64 else MaxInt64
    else if !IsNumber(s) then 0
    else
      var n := NumberValue(s);
      assert LeadingDigits(Unsigned(s)) == Unsigned(s) by { LeadingDigitsOfDigits(Unsigned(s)); }
      if n > MaxInt64 then MaxInt64 else if n < MinInt64 then MinInt64 else n
  }

  lemma {:induction false} LeadingDigitsOfDigits(ds: string)
    requires AllDigits(ds)
    ensures LeadingDigits(ds) == ds
  {
    if |ds| >= 1 {
      LeadingDigitsOfDigits(ds[1..]);
      assert ds == [ds[0]] + ds[1..];
    }
  }

  /** A digit run beyond uint64 followed by a non-digit is an error for Atoi, yet the value beside
      the error is the bound of the sign, not 0: "99999999999999999999a" gives MaxInt64 and
      "-18446744073709551616x" gives MinInt64. */
  lemma OverflowBeforeNonDigit(ds: string, tail: string)
    requires AllDigits(ds) && DigitsValue(ds) > MaxUint64
    requires |tail| >= 1 && !IsDigit(tail[0])
    ensures Atoi(ds + tail) == None && AtoiValue(ds + tail) == MaxInt64
    ensures Atoi("-" + ds + tail) == None && AtoiValue("-" + ds + tail) == MinInt64
  {
    LeadingDigitsThrough(ds, tail);
    var neg := "-" + ds + tail;
    assert neg[0] == '-' && neg[1..] == ds + tail;
    assert Unsigned(neg) == ds + tail;
    assert (ds + tail)[|ds|] == tail[0];
    assert |ds| >= 1;
    assert (ds + tail)[0] == ds[0];
  }

  /** The digit run of `ds + tail` stops where `tail` starts with a non-digit. */
  lemma {:induction false} LeadingDigitsThrough(ds: string, tail: string)
    requires AllDigits(ds) && |tail| >= 1 && !IsDigit(tail[0])
    ensures LeadingDigits(ds + tail) == ds
  {
    if |ds| == 0 {
      assert ds + tail == tail;
    } else {
      assert (ds + tail)[1..] == ds[1..] + tail;
      LeadingDigitsThrough(ds[1..], tail);
      assert ds == [ds[0]] + ds[1..];
    }
  }

  lemma {:induction false} DecimalTextValue(n: nat)
    ensures DigitsValue(DecimalText(n)) == n
  {
    if n >= 10 {
      var s := DecimalText(n);
      DecimalTextValue(n / 10);
      assert s[..|s| - 1] == DecimalText(n / 10);
    }
  }

  /** Decimal rendering of an int (fmt's %d): a minus sign before the magnitude when negative. */
  function IntText(i: int): (s: string)
    ensures |s| >= 1
    ensures i < 0 <==> s[0] == '-'
    ensures 0 <= i ==> s == DecimalText(i)
  {
    if i < 0 then "-" + DecimalText(-i) else DecimalText(i)
  }

  /** Atoi reads back every int64 that %d prints. */
  lemma AtoiIntText(i: int)
    requires MinInt64 <= i <= MaxInt64
    ensures Atoi(IntText(i)) == Some(i)
  {
    var s := IntText(i);
    if i < 0 {
      assert s[0] == '-' && s[1..] == DecimalText(-i);
      assert Unsigned(s) == DecimalText(-i);
      DecimalTextValue(-i);
    } else {
      assert IsDigit(s[0]) && Unsigned(s) == s;
      DecimalTextValue(i);
    }
  }

  /** Atoi reads back every id that %d prints. */
  lemma AtoiDecimalText(n: nat)
    requires n <= MaxInt64
    ensures Atoi(DecimalText(n)) == Some(n)
  {
    var s := DecimalText(n);
    assert IsDigit(s[0]) && Unsigned(s) == s;
    DecimalTextValue(n);
  }
}
