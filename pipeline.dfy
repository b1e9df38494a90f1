/**
 * The chain-of-responsibility base converter: each `DecimalConverter`
 * holds a prefix, a base and an optional successor. A request that starts
 * with the converter's prefix is read by `int(request, base)`; any other
 * request is passed on unchanged, and the last converter raises
 * `RuntimeError`. The chain of the tests tries binary, then octal, then
 * hexadecimal.
 */
module Pipeline {
  import opened Outcomes

  /** A `DecimalConverter` with its `successor` (set once, before any request). */
  datatype Converter = Converter(prefix: string, base: nat, successor: Option<Converter>)

  /** The exceptions `handle_request` can raise. */
  datatype ConvertError =
    | UnknownSystem // `RuntimeError`: no converter of the chain matched
    | BadDigits     // `ValueError` from `int`: the text is not a numeral in the base

  /** `re.match(f'^{prefix}', request)` for a prefix without regex metacharacters. */
  predicate StartsWith(s: string, prefix: string)
  {
    |prefix| <= |s| && s[..|prefix|] == prefix
  }

  // ---------------------------------------------------------------------
  // `int(text, base)` for bases 2, 8 and 16

  /** The value of one digit character: decimal digits and letters a-f in either case. */
  function DigitValue(c: char): (v: Option<nat>)
    ensures v.Some? ==> v.value < 16
  {
    if '0' <= c <= '9' then Some(c as int - '0' as int)
    else if 'a' <= c <= 'f' then Some(c as int - 'a' as int + 10)
    else if 'A' <= c <= 'F' then Some(c as int - 'A' as int + 10)
    else None
  }

  /** A digit of the base. */
  predicate IsDigitOf(c: char, base: nat)
  {
    DigitValue(c).Some? && DigitValue(c).value < base
  }

  /** A non-empty run of digits of the base. */
  predicate IsNumeralOf(t: string, base: nat)
  {
    |t| > 0 && forall i | 0 <= i < |t| :: IsDigitOf(t[i], base)
  }

  /** The value of a run of digits, most significant first. */
  function ValueOf(t: string, base: nat): int
    requires forall i | 0 <= i < |t| :: IsDigitOf(t[i], base)
  {
    if t == [] then 0
    else
      assert IsDigitOf(t[|t| - 1], base);
      ValueOf(t[..|t| - 1], base) * base + DigitValue(t[|t| - 1]).value
  }

  /** The letter `int` accepts after '0' to mark the base. */
  function BaseLetter(base: nat): char
  {
    if base == 2 then 'b' else if base == 8 then 'o' else if base == 16 then 'x' else '?'
  }

  /** `int(text, base)` drops a leading '0b', '0o' or '0x' (either case) that names the same base. */
  function Unprefixed(s: string, base: nat): (t: string)
    ensures t == s || (|s| >= 2 && s[0] == '0' && base in {2, 8, 16} && t == s[2..]
                       && (s[1] == BaseLetter(base) || s[1] as int == BaseLetter(base) as int - 32))
  {
    if |s| >= 2 && s[0] == '0' && (s[1] == BaseLetter(base) || s[1] as int == BaseLetter(base) as int - 32)
       && base in {2, 8, 16}
    then s[2..]
    else s
  }

  /** `int(text, base)` for base 2, 8 or 16: an optional base prefix, then one or more digits. */
  function IntOf(s: string, base: nat): (r: Result<int, ConvertError>)
    ensures r.Ok? <==> IsNumeralOf(Unprefixed(s, base), base)
  {
    var t := Unprefixed(s, base);
    if IsNumeralOf(t, base) then Ok(ValueOf(t, base)) else Err(BadDigits)
  }

  // ---------------------------------------------------------------------
  // `handle_request`

  /** `handle_request`: read the request here if the prefix matches, else pass it on. */
  function Handle(c: Converter, request: string): (r: Result<int, ConvertError>)
    ensures r == Err(UnknownSystem) <==> FirstMatch(Links(c), request).None?
  {
    if StartsWith(request, c.prefix) then IntOf(request, c.base)
    else
      match c.successor
      case None => Err(UnknownSystem)
      case Some(next) =>
        assert ([c] + Links(next))[1..] == Links(next);
        Handle(next, request)
  }

  /** The converters along the successor links, starting with `c`. */
  function Links(c: Converter): (l: seq<Converter>)
    ensures |l| > 0 && l[0] == c
  {
    match c.successor
    case None => [c]
    case Some(next) => [c] + Links(next)
  }

  /** The position of the first converter whose prefix starts the request. */
  function FirstMatch(l: seq<Converter>, request: string): (r: Option<nat>)
    ensures r.Some? ==> (r.value < |l| && StartsWith(request, l[r.value].prefix)
      && forall k | 0 <= k < r.value :: !StartsWith(request, l[k].prefix))
    ensures r.None? ==> forall k | 0 <= k < |l| :: !StartsWith(request, l[k].prefix)
  {
    if l == [] then None
    else if StartsWith(request, l[0].prefix) then Some(0)
    else
      match FirstMatch(l[1..], request)
      case None => None
      case Some(k) => Some(k + 1)
  }

  /**
   * A request is read by the first converter along the chain whose prefix
   * matches it, in that converter's base; none matching raises
   * `RuntimeError`.
   */
  lemma {:induction false} HandleFirstMatch(c: Converter, request: string)
    ensures Handle(c, request) ==
      match FirstMatch(Links(c), request)
      case None => Err(UnknownSystem)
      case Some(k) => IntOf(request, Links(c)[k].base)
  {
    match c.successor
    case None =>
    case Some(next) =>
      HandleFirstMatch(next, request);
      assert ([c] + Links(next))[1..] == Links(next);
  }

  // ---------------------------------------------------------------------
  // The chain of the tests

  const Hex := Converter("0x", 16, None)
  const Oct := Converter("0o", 8, Some(Hex))
  const Bin := Converter("0b", 2, Some(Oct))

  /** The chain tries binary, then octal, then hexadecimal, and ends there. */
  lemma ChainOrder()
    ensures |Links(Bin)| == 3
    ensures Links(Bin)[0].base == 2 && Links(Bin)[1].base == 8 && Links(Bin)[2].base == 16
    ensures Links(Bin)[0].prefix == "0b" && Links(Bin)[1].prefix == "0o" && Links(Bin)[2].prefix == "0x"
  {
    assert Links(Hex) == [Hex];
    assert Links(Oct) == [Oct, Hex];
  }

  // ---------------------------------------------------------------------
  // Python's `bin`, `oct` and `hex` of a natural number

  /** The lower-case digit character of a value below 16. */
  function DigitChar(d: nat): (c: char)
    requires d < 16
    ensures DigitValue(c) == Some(d)
  {
    if d < 10 then ('0' as int + d) as char else ('a' as int + d - 10) as char
  }

  /** The digits of `n` in the base, most significant first, without leading zeros. */
  function Numeral(n: nat, base: nat): (t: string)
    requires base in {2, 8, 16}
    ensures |t| > 0
    ensures forall i | 0 <= i < |t| :: IsDigitOf(t[i], base)
    decreases n
  {
    var last := [DigitChar(n % base)];
    if n < base then last else Numeral(Quotient(n, base), base) + last
  }

  /** `n // base`, with the facts the digit recursion needs. */
  function Quotient(n: nat, base: nat): (q: nat)
    requires base in {2, 8, 16}
    ensures n >= base ==> q < n
    ensures n == q * base + n % base
  {
    if base == 2 then n / 2 else if base == 8 then n / 8 else n / 16
  }

  /** Reading the digits back gives the number. */
  lemma {:induction false} NumeralValue(n: nat, base: nat)
    requires base in {2, 8, 16}
    ensures ValueOf(Numeral(n, base), base) == n
    decreases n
  {
    var t := Numeral(n, base);
    if n >= base {
      var q := Quotient(n, base);
      var front := Numeral(q, base);
      assert t == front + [DigitChar(n % base)];
      assert t[..|t| - 1] == front;
      NumeralValue(q, base);
    }
  }

  /** `bin(n)`, `oct(n)` or `hex(n)`: the base prefix and the digits. */
  function Rendered(n: nat, base: nat): string
    requires base in {2, 8, 16}
  {
    ['0', BaseLetter(base)] + Numeral(n, base)
  }

  /** What a converter of the base reads back from `bin`, `oct` or `hex` of `n` is `n`. */
  lemma IntOfRendered(n: nat, base: nat)
    requires base in {2, 8, 16}
    ensures IntOf(Rendered(n, base), base) == Ok(n)
  {
    var s := Rendered(n, base);
    assert s[0] == '0' && s[1] == BaseLetter(base);
    assert s[2..] == Numeral(n, base);
    NumeralValue(n, base);
  }

  /** `bin(n)` goes to the binary converter and comes back as `n`. */
  lemma BinaryRoundTrip(n: nat)
    ensures Handle(Bin, Rendered(n, 2)) == Ok(n)
  {
    var s := Rendered(n, 2);
    assert s[..2] == "0b";
    IntOfRendered(n, 2);
  }

  /** `oct(n)` is passed on by the binary converter and read by the octal one. */
  lemma OctalRoundTrip(n: nat)
    ensures Handle(Bin, Rendered(n, 8)) == Ok(n)
  {
    var s := Rendered(n, 8);
    assert s[..2] == "0o";
    assert !StartsWith(s, "0b") by { assert s[..2][1] == 'o'; }
    IntOfRendered(n, 8);
  }

  /** `hex(n)` is passed on twice and read by the hexadecimal converter. */
  lemma HexadecimalRoundTrip(n: nat)
    ensures Handle(Bin, Rendered(n, 16)) == Ok(n)
  {
    var s := Rendered(n, 16);
    assert s[..2] == "0x";
    assert !StartsWith(s, "0b") by { assert s[..2][1] == 'x'; }
    assert !StartsWith(s, "0o") by { assert s[..2][1] == 'x'; }
    assert Handle(Oct, s) == Handle(Hex, s);
    IntOfRendered(n, 16);
  }

  /** The first test: `bin(42)` is '0b101010', which the chain reads as 42. */
  lemma BinaryFortyTwo()
    ensures Rendered(42, 2) == "0b101010" && Handle(Bin, "0b101010") == Ok(42)
  {
    BinaryRoundTrip(42);
  }

  /** The second test: `oct(42)` is '0o52', which the chain reads as 42. */
  lemma OctalFortyTwo()
    ensures Rendered(42, 8) == "0o52" && Handle(Bin, "0o52") == Ok(42)
  {
    OctalRoundTrip(42);
  }

  /** The third test: `hex(42)` is '0x2a', which the chain reads as 42. */
  lemma HexadecimalFortyTwo()
    ensures Rendered(42, 16) == "0x2a" && Handle(Bin, "0x2a") == Ok(42)
  {
    HexadecimalRoundTrip(42);
  }

  /** A request no converter recognises fails through the whole chain with `RuntimeError`. */
  lemma UnknownRequest()
    ensures Handle(Bin, "0p9Hx7$") == Err(UnknownSystem)
  {
    var s := "0p9Hx7$";
    assert s[..2] == "0p";
    assert !StartsWith(s, "0b") && !StartsWith(s, "0o") && !StartsWith(s, "0x");
  }

  /** A matched prefix is final: '0b12' goes to the binary converter, whose `int` rejects the '2'; no successor is tried. */
  lemma MatchedButMalformed()
    ensures Handle(Bin, "0b12") == Err(BadDigits)
  {
    var s := "0b12";
    assert s[..2] == "0b";
    assert Unprefixed(s, 2) == "12";
    assert !IsDigitOf("12"[1], 2);
  }
}
