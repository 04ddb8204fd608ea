/** The string operations the operator relies on: cutting at a separator, ordering
    and printing and reading 64-bit decimals. */
module Text {
  // ---------------------------------------------------------------- Cut

  datatype CutResult = CutResult(before: string, after: string, found: bool)

  /** Splits `s` around the first '/', as Go's strings.Cut(s, "/"). */
  function Cut(s: string): (r: CutResult)
    ensures '/' !in r.before
    ensures r.found <==> '/' in s
    ensures !r.found ==> r.before == s && r.after == ""
  {
    if s == "" then CutResult("", "", false)
    else if s[0] == '/' then CutResult("", s[1..], true)
    else
      var rest := Cut(s[1..]);
      CutResult([s[0]] + rest.before, rest.after, rest.found)
  }

  /** Nothing is lost: the two parts and the separator make up the text. */
  lemma {:induction false} CutSplits(s: string)
    requires Cut(s).found
    ensures s == Cut(s).before + "/" + Cut(s).after
  {
    if s[0] != '/' {
      CutSplits(s[1..]);
    }
  }

  /** The part of an address before the prefix length. */
  function Bare(address: string): string {
    Cut(address).before
  }

  /** Cutting a joined text gives back the parts when the first has no separator. */
  lemma {:induction false} CutJoined(before: string, after: string)
    requires '/' !in before
    ensures Cut(before + "/" + after) == CutResult(before, after, true)
  {
    var s := before + "/" + after;
    if before == "" {
      assert s[1..] == after;
    } else {
      assert s[0] == before[0] && s[1..] == before[1..] + "/" + after;
      CutJoined(before[1..], after);
    }
  }

  // ---------------------------------------------------------------- Order

  /** Three-way lexicographic comparison, as strings.Compare. */
  function Compare(a: string, b: string): int {
    if a == [] && b == [] then 0
    else if a == [] then -1
    else if b == [] then 1
    else if a[0] < b[0] then -1
    else if b[0] < a[0] then 1
    else Compare(a[1..], b[1..])
  }

  lemma {:induction false} CompareZero(a: string, b: string)
    ensures Compare(a, b) == 0 <==> a == b
  {
    if a != [] && b != [] {
      CompareZero(a[1..], b[1..]);
      assert a == [a[0]] + a[1..] && b == [b[0]] + b[1..];
    }
  }

  lemma {:induction false} CompareFlip(a: string, b: string)
    ensures Compare(a, b) == -Compare(b, a)
  {
    if a != [] && b != [] {
      CompareFlip(a[1..], b[1..]);
    }
  }

  lemma {:induction false} CompareChain(a: string, b: string, c: string)
    requires Compare(a, b) <= 0 && Compare(b, c) <= 0
    ensures Compare(a, c) <= 0
    ensures Compare(a, b) < 0 || Compare(b, c) < 0 ==> Compare(a, c) < 0
  {
    if a != [] && b != [] && c != [] && a[0] == b[0] == c[0] {
      CompareChain(a[1..], b[1..], c[1..]);
    }
  }

  // ---------------------------------------------------------------- Decimals

  const MIN_INT64: int := -0x8000_0000_0000_0000
  const MAX_INT64: int := 0x7fff_ffff_ffff_ffff
  const MAX_UINT64: int := 0xffff_ffff_ffff_ffff

  predicate IsInt64(n: int) {
    MIN_INT64 <= n <= MAX_INT64
  }

  predicate IsDigit(c: char) {
    '0' <= c <= '9'
  }

  function DigitChar(d: int): (c: char)
    requires 0 <= d < 10
    ensures IsDigit(c) && c as int - '0' as int == d
  {
    "0123456789"[d]
  }

  function FormatNat(n: nat): (s: string)
    ensures |s| > 0 && IsDigit(s[0])
  {
    if n < 10 then [DigitChar(n)] else FormatNat(n / 10) + [DigitChar(n % 10)]
  }

  /** strconv.FormatInt(n, 10). */
  function FormatInt(n: int): string {
    if n < 0 then "-" + FormatNat(-n) else FormatNat(n)
  }

  datatype Scan = Value(n: int) | BadSyntax | TooLarge

  /** Reads digits from the left; stops at the first digit that leaves the unsigned
      64-bit range, before it looks at the rest. */
  function ScanDigits(s: string, acc: nat): (r: Scan)
    ensures r.Value? ==> acc <= r.n
  {
    if s == [] then Value(acc)
    else if !IsDigit(s[0]) then BadSyntax
    else
      var next := acc * 10 + (s[0] as int - '0' as int);
      if next > MAX_UINT64 then TooLarge else ScanDigits(s[1..], next)
  }

  /** The value strconv.ParseInt(s, 10, 64) returns beside its error: 0 when the text is
      not a number, the nearest bound when it is out of range. */
  function ParseInt(s: string): (n: int)
    ensures IsInt64(n)
  {
    var negative := s != [] && s[0] == '-';
    var digits := if s != [] && (s[0] == '-' || s[0] == '+') then s[1..] else s;
    if digits == [] then 0
    else
      match ScanDigits(digits, 0)
      case BadSyntax => 0
      case TooLarge => if negative then MIN_INT64 else MAX_INT64
      case Value(n) =>
        if negative then (if -n < MIN_INT64 then MIN_INT64 else -n)
        else (if n > MAX_INT64 then MAX_INT64 else n)
  }

  lemma {:induction false} ScanAppend(s: string, d: int, acc: nat)
    requires 0 <= d < 10
    requires ScanDigits(s, acc).Value?
    requires ScanDigits(s, acc).n * 10 + d <= MAX_UINT64
    ensures ScanDigits(s + [DigitChar(d)], acc) == Value(ScanDigits(s, acc).n * 10 + d)
  {
    var t := s + [DigitChar(d)];
    if s == [] {
      assert t[1..] == [];
    } else {
      var next := acc * 10 + (s[0] as int - '0' as int);
      assert t[0] == s[0] && t[1..] == s[1..] + [DigitChar(d)];
      ScanAppend(s[1..], d, next);
    }
  }

  lemma {:induction false} ScanFormatted(n: nat)
    requires n <= MAX_UINT64
    ensures ScanDigits(FormatNat(n), 0) == Value(n)
  {
    if n < 10 {
      assert FormatNat(n)[1..] == [];
      assert ScanDigits([], n) == Value(n);
    } else {
      ScanFormatted(n / 10);
      ScanAppend(FormatNat(n / 10), n % 10, 0);
    }
  }

  /** Printing a 64-bit integer and reading it back is the identity. */
  lemma ParseFormatted(n: int)
    requires IsInt64(n)
    ensures ParseInt(FormatInt(n)) == n
  {
    if n < 0 {
      ScanFormatted(-n);
      assert FormatInt(n)[1..] == FormatNat(-n);
    } else {
      ScanFormatted(n);
    }
  }
}
