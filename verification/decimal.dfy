/** Decimal text of unsigned ids: `strconv.ParseUint(s, 10, 64)` and `fmt.Sprintf("%d", id)`. */
module Decimal {
  import opened Records

  const MaxUint64: nat := 0xFFFF_FFFF_FFFF_FFFF

  predicate IsDigit(c: char) { '0' <= c <= '9' }

  function DigitValue(c: char): (v: nat)
    requires IsDigit(c)
    ensures v < 10
  {
    (c as int - '0' as int) as nat
  }

  function DigitChar(v: nat): (c: char)
    requires v < 10
    ensures IsDigit(c) && DigitValue(c) == v
  {
    ('0' as int + v) as char
  }

  predicate AllDigits(s: string) { forall k :: 0 <= k < |s| ==> IsDigit(s[k]) }

  /** The value of a string of decimal digits, most significant first. */
  function ValueOf(s: string): nat
    requires AllDigits(s)
  {
    if s == [] then 0 else ValueOf(s[..|s| - 1]) * 10 + DigitValue(s[|s| - 1])
  }

  /** `strconv.ParseUint(s, 10, 64)`: fails on the empty string, a non-digit, or a value above 2^64 - 1. */
  function ParseUint(s: string): (r: Option<nat>)
    ensures r.Some? <==> s != [] && AllDigits(s) && ValueOf(s) <= MaxUint64
    ensures r.Some? ==> r.value == ValueOf(s) && r.value <= MaxUint64
  {
    if s != [] && AllDigits(s) && ValueOf(s) <= MaxUint64 then Some(ValueOf(s)) else None
  }

  /** `%d` of a non-negative id: its shortest decimal text. */
  function FormatUint(n: nat): (s: string)
    ensures s != [] && AllDigits(s)
    decreases n
  {
    if n < 10 then [DigitChar(n)] else FormatUint(n / 10) + [DigitChar(n % 10)]
  }

  lemma {:induction false} FormatUintValue(n: nat)
    ensures ValueOf(FormatUint(n)) == n
    decreases n
  {
    var s := FormatUint(n);
    if n < 10 {
      assert s[..|s| - 1] == [];
    } else {
      FormatUintValue(n / 10);
      assert s[..|s| - 1] == FormatUint(n / 10);
    }
  }

  /** Parsing the text the server prints for an id gives the id back. */
  lemma ParseFormatRoundTrip(n: nat)
    requires n <= MaxUint64
    ensures ParseUint(FormatUint(n)) == Some(n)
  {
    FormatUintValue(n);
  }

  lemma RejectsNonDigits()
    ensures ParseUint("") == None
    ensures ParseUint("-1") == None
    ensures ParseUint("+1") == None
    ensures ParseUint("1a") == None
  {
    assert !IsDigit("-1"[0]);
    assert !IsDigit("+1"[0]);
    assert !IsDigit("1a"[1]);
  }
}
