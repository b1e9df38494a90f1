/**
 * The Roman-numeral Interpreter demo: four levels (thousands, hundreds,
 * tens, units) each read a prefix of the numeral into a running decimal.
 * A level first tries its nine, four and five patterns, in that order, and
 * takes the first that matches; then it reads its one-symbol as often as it
 * repeats.
 */
module Roman {

  /** The four `AbstractExpression` subclasses. */
  datatype Level = Thousand | Hundred | Ten | Base

  /** `one()`: the symbol worth one unit of the level. */
  function One(l: Level): char
  {
    match l
    case Thousand => 'M'
    case Hundred => 'C'
    case Ten => 'X'
    case Base => 'I'
  }

  /** `four()`; the thousand level has a single space in its place. */
  function Four(l: Level): string
  {
    match l
    case Thousand => " "
    case Hundred => "CD"
    case Ten => "XL"
    case Base => "IV"
  }

  /** `five()`; a single space for the thousand level. */
  function Five(l: Level): string
  {
    match l
    case Thousand => " "
    case Hundred => "D"
    case Ten => "L"
    case Base => "V"
  }

  /** `nine()`; a single space for the thousand level. */
  function Nine(l: Level): string
  {
    match l
    case Thousand => " "
    case Hundred => "CM"
    case Ten => "XC"
    case Base => "IX"
  }

  /** `multiplier()`. */
  function Multiplier(l: Level): nat
  {
    match l
    case Thousand => 1000
    case Hundred => 100
    case Ten => 10
    case Base => 1
  }

  /** `roman[n:]`: Python slicing gives the empty string past the end. */
  function Drop(s: string, n: nat): (r: string)
    ensures |s| <= n ==> r == []
    ensures n <= |s| ==> r == s[n..]
  {
    if n <= |s| then s[n..] else []
  }

  /** What one level does to a numeral: the value it adds and the text it leaves. */
  datatype Step = Step(gain: int, rest: string)

  /**
   * The pattern part of `interpret`: the first of the nine, four and five
   * patterns that is a prefix of the numeral adds nine, four or five units
   * and drops two, two or one characters; if none is, nothing changes.
   */
  function Head(l: Level, s: string): (r: Step)
    ensures r.gain in {0, 4 * Multiplier(l), 5 * Multiplier(l), 9 * Multiplier(l)}
    ensures r.rest == s || r.rest == Drop(s, 1) || r.rest == Drop(s, 2)
  {
    if Nine(l) <= s then Step(9 * Multiplier(l), Drop(s, 2))
    else if Four(l) <= s then Step(4 * Multiplier(l), Drop(s, 2))
    else if Five(l) <= s then Step(5 * Multiplier(l), Drop(s, 1))
    else Step(0, s)
  }

  /**
   * How many times `c` repeats at the start of `s`: every one of them is
   * `c`, and the character after them, if any, is not.
   */
  function Run(c: char, s: string): (k: nat)
    ensures k <= |s|
  {
    if |s| > 0 && s[0] == c then 1 + Run(c, s[1..]) else 0
  }

  /** Every character of the run is `c`, and the character after it, if any, is not. */
  lemma {:induction false} RunSpec(c: char, s: string)
    ensures forall i | 0 <= i < Run(c, s) :: s[i] == c
    ensures Run(c, s) == |s| || s[Run(c, s)] != c
  {
    if |s| > 0 && s[0] == c {
      RunSpec(c, s[1..]);
    }
  }

  /** `interpret` of one level, as a value: nothing happens to an empty numeral. */
  function Interpretation(l: Level, s: string): (r: Step)
    ensures |s| == 0 ==> r == Step(0, s)
    ensures r.gain >= 0
  {
    if |s| == 0 then Step(0, s)
    else
      var h := Head(l, s);
      var k := Run(One(l), h.rest);
      Step(h.gain + k * Multiplier(l), h.rest[k..])
  }

  /** What a level leaves is what it was given, less a consumed prefix. */
  lemma InterpretationSuffix(l: Level, s: string)
    ensures var r := Interpretation(l, s);
      |r.rest| <= |s| && r.rest == s[|s| - |r.rest|..]
  {
    if |s| > 0 {
      var h := Head(l, s);
      var k := Run(One(l), h.rest);
      assert h.rest == s[|s| - |h.rest|..];
      assert h.rest[k..] == s[|s| - |h.rest| + k..];
    }
  }

  /** `Context`: the numeral still to read and the decimal read so far. */
  class Context {
    var roman: string
    var decimal: int

    constructor (numeral: string)
      ensures roman == numeral && decimal == 0
    {
      roman := numeral;
      decimal := 0;
    }
  }

  /** `re.match(pattern, roman)` for the literal patterns of the levels. */
  function Matches(pattern: string, s: string): (b: bool)
    ensures b <==> |pattern| <= |s| && s[..|pattern|] == pattern
  {
    pattern <= s
  }

  /**
   * `AbstractExpression.interpret`: adds the level's value to the decimal
   * and consumes what it read; the decimal never decreases.
   */
  method Interpret(l: Level, context: Context)
    modifies context
    ensures context.decimal == old(context.decimal) + Interpretation(l, old(context.roman)).gain
    ensures context.roman == Interpretation(l, old(context.roman)).rest
    ensures context.decimal >= old(context.decimal)
  {
    if |context.roman| == 0 {
      return;
    }
    ReadPattern(l, context);
    ReadOnes(l, context);
  }

  /** The `if`/`elif` chain of `interpret`: at most one of the nine, four and five patterns. */
  method ReadPattern(l: Level, context: Context)
    modifies context
    ensures context.decimal == old(context.decimal) + Head(l, old(context.roman)).gain
    ensures context.roman == Head(l, old(context.roman)).rest
  {
    if Matches(Nine(l), context.roman) {
      context.decimal := context.decimal + 9 * Multiplier(l);
      context.roman := Drop(context.roman, 2);
    } else if Matches(Four(l), context.roman) {
      context.decimal := context.decimal + 4 * Multiplier(l);
      context.roman := Drop(context.roman, 2);
    } else if Matches(Five(l), context.roman) {
      context.decimal := context.decimal + 5 * Multiplier(l);
      context.roman := Drop(context.roman, 1);
    }
  }

  /** The `while` loop of `interpret`: one unit for every leading one-symbol. */
  method ReadOnes(l: Level, context: Context)
    modifies context
    ensures context.decimal == old(context.decimal) + Run(One(l), old(context.roman)) * Multiplier(l)
    ensures context.roman == old(context.roman)[Run(One(l), old(context.roman))..]
  {
    ghost var k := Run(One(l), context.roman);
    while Matches([One(l)], context.roman)
      invariant context.roman[Run(One(l), context.roman)..] == old(context.roman)[k..]
      invariant context.decimal + Run(One(l), context.roman) * Multiplier(l) == old(context.decimal) + k * Multiplier(l)
      decreases |context.roman|
    {
      RunStep(One(l), context.roman);
      context.decimal := context.decimal + 1 * Multiplier(l);
      context.roman := context.roman[1..];
    }
  }

  /** One more leading `c`: the run is one longer and ends at the same place. */
  lemma RunStep(c: char, s: string)
    requires |s| > 0 && s[0] == c
    ensures Run(c, s) == 1 + Run(c, s[1..])
    ensures s[Run(c, s)..] == s[1..][Run(c, s[1..])..]
  {
  }

  /** The levels `Client.main` appends to its list, in the order it applies them. */
  const Levels: seq<Level> := [Thousand] + ([Hundred] + ([Ten] + [Base]))

  /** The levels applied one after the other: the total value and what is left over. */
  function Apply(levels: seq<Level>, s: string): Step
    decreases |levels|
  {
    if levels == [] then Step(0, s)
    else
      var first := Interpretation(levels[0], s);
      var after := Apply(levels[1..], first.rest);
      Step(first.gain + after.gain, after.rest)
  }

  lemma ApplyOne(levels: seq<Level>, s: string, i: nat)
    requires i < |levels|
    ensures var a := Apply(levels[..i], s);
      var b := Interpretation(levels[i], a.rest);
      Apply(levels[..i + 1], s) == Step(a.gain + b.gain, b.rest)
    decreases i
  {
    if i > 0 {
      assert levels[..i + 1][1..] == levels[1..][..i];
      assert levels[..i][1..] == levels[1..][..i - 1];
      ApplyOne(levels[1..], Interpretation(levels[0], s).rest, i - 1);
    }
  }

  /**
   * The loop of `Client.main`: every level interprets the same context in
   * turn; the result is the decimal and the characters no level consumed.
   */
  method Evaluate(numeral: string) returns (decimal: int, leftover: string)
    ensures decimal >= 0 && Step(decimal, leftover) == Apply(Levels, numeral)
  {
    var context := new Context(numeral);
    var tree := Levels;
    for i := 0 to |tree|
      invariant context.decimal >= 0 && Apply(tree[..i], numeral) == Step(context.decimal, context.roman)
    {
      ApplyOne(tree, numeral, i);
      Interpret(tree[i], context);
    }
    assert tree[..|tree|] == tree;
    decimal, leftover := context.decimal, context.roman;
  }

  // ---------------------------------------------------------------------
  // The thousand level

  /** On a numeral that does not start with a space, the thousand level only counts leading 'M's. */
  lemma ThousandSpaceFree(s: string)
    requires s == [] || s[0] != ' '
    ensures Interpretation(Thousand, s) == Step(1000 * Run('M', s), s[Run('M', s)..])
  {
    if s != [] {
      assert !(" " <= s);
    }
  }

  /** A leading space matches the thousand level's nine pattern: 9000, and two characters dropped. */
  lemma ThousandSpace(s: string)
    requires s != [] && s[0] == ' '
    ensures var t := Drop(s, 2);
      Interpretation(Thousand, s) == Step(9000 + 1000 * Run('M', t), t[Run('M', t)..])
  {
    assert [s[0]] == " " && s[..1] == [s[0]];
  }

  // ---------------------------------------------------------------------
  // Numerals in the usual form

  /** `k` copies of `c`. */
  function Repeat(c: char, k: nat): (r: string)
    ensures |r| == k
  {
    if k == 0 then [] else [c] + Repeat(c, k - 1)
  }

  /** The usual spelling of decimal digit `d` at a level below the thousands. */
  function Digit(l: Level, d: nat): string
    requires l != Thousand && d <= 9
  {
    if d == 9 then Nine(l)
    else if d == 4 then Four(l)
    else if d >= 5 then Five(l) + Repeat(One(l), d - 5)
    else Repeat(One(l), d)
  }

  /** The usual Roman spelling of `n`, with as many leading 'M's as there are thousands. */
  function RomanOf(n: nat): string
  {
    Repeat('M', n / 1000) + (Digit(Hundred, n / 100 % 10) + (Digit(Ten, n / 10 % 10) + Digit(Base, n % 10)))
  }

  /** The characters the spelling of a level's digits may hold. */
  function Symbols(l: Level): set<char>
  {
    match l
    case Thousand => {'M', ' '}
    case Hundred => {'C', 'D', 'M'}
    case Ten => {'X', 'L', 'C'}
    case Base => {'I', 'V', 'X'}
  }

  /** The shape the patterns of the three lower levels share. */
  lemma Regular(l: Level)
    requires l != Thousand
    ensures |Nine(l)| == 2 && |Four(l)| == 2 && |Five(l)| == 1
    ensures Nine(l)[0] == One(l) && Four(l)[0] == One(l) && Four(l)[1] == Five(l)[0]
    ensures One(l) != Five(l)[0] && One(l) != Nine(l)[1] && Five(l)[0] != Nine(l)[1]
    ensures Symbols(l) == {One(l), Five(l)[0], Nine(l)[1]}
  {
  }

  /** `Run` stops exactly after the copies of `c`. */
  lemma {:induction false} RunRepeat(c: char, k: nat, t: string)
    requires t == [] || t[0] != c
    ensures Run(c, Repeat(c, k) + t) == k && (Repeat(c, k) + t)[k..] == t
  {
    if k > 0 {
      var s := Repeat(c, k) + t;
      assert s[1..] == Repeat(c, k - 1) + t;
      RunRepeat(c, k - 1, t);
    } else {
      assert Repeat(c, k) + t == t;
    }
  }

  /** A digit spelled in the usual way, followed by text foreign to the level, gives that digit. */
  lemma DigitStep(l: Level, d: nat, t: string)
    requires l != Thousand && d <= 9 && (t == [] || t[0] !in Symbols(l))
    ensures Interpretation(l, Digit(l, d) + t) == Step(d * Multiplier(l), t)
  {
    Regular(l);
    if d == 9 {
      PairStep(l, Nine(l), 9, t);
    } else if d == 4 {
      PairStep(l, Four(l), 4, t);
    } else if d >= 5 {
      FiveStep(l, d - 5, t);
      assert (d - 5) * Multiplier(l) + 5 * Multiplier(l) == d * Multiplier(l);
    } else {
      OnesStep(l, d, t);
    }
  }

  /** The nine or the four pattern, alone before foreign text. */
  lemma PairStep(l: Level, p: string, d: nat, t: string)
    requires l != Thousand && (t == [] || t[0] !in Symbols(l))
    requires (p == Nine(l) && d == 9) || (p == Four(l) && d == 4)
    ensures Interpretation(l, p + t) == Step(d * Multiplier(l), t)
  {
    Regular(l);
    var s := p + t;
    assert s[..2] == p;
    assert Drop(s, 2) == t;
    RunRepeat(One(l), 0, t);
    assert Repeat(One(l), 0) + t == t;
  }

  /** The five pattern and up to three one-symbols, before foreign text. */
  lemma FiveStep(l: Level, j: nat, t: string)
    requires l != Thousand && (t == [] || t[0] !in Symbols(l))
    ensures Interpretation(l, Five(l) + Repeat(One(l), j) + t) == Step(5 * Multiplier(l) + j * Multiplier(l), t)
  {
    Regular(l);
    var rest := Repeat(One(l), j) + t;
    var s := Five(l) + Repeat(One(l), j) + t;
    assert s == Five(l) + rest;
    assert s[0] == Five(l)[0] && s[1..] == rest;
    Mismatch(Nine(l), s, 0);
    Mismatch(Four(l), s, 0);
    assert Head(l, s) == Step(5 * Multiplier(l), rest);
    RunRepeat(One(l), j, t);
  }

  /** Up to three one-symbols, before foreign text. */
  lemma OnesStep(l: Level, j: nat, t: string)
    requires l != Thousand && j <= 3 && (t == [] || t[0] !in Symbols(l))
    ensures Interpretation(l, Repeat(One(l), j) + t) == Step(j * Multiplier(l), t)
  {
    Regular(l);
    var c := One(l);
    var s := Repeat(c, j) + t;
    RunRepeat(c, j, t);
    if s != [] {
      assert s[0] == c || (j == 0 && s[0] == t[0]);
      assert |s| >= 2 ==> s[1] == c || s[1] == t[0] || (j == 0 && s[1] == t[1]);
      if j == 0 {
        assert s == t;
      }
      assert !(Five(l) <= s);
      assert !(Nine(l) <= s) && !(Four(l) <= s);
    }
  }

  /** The usual thousands, followed by anything but an 'M' or a space. */
  lemma ThousandStep(k: nat, t: string)
    requires t == [] || (t[0] != 'M' && t[0] != ' ')
    ensures Interpretation(Thousand, Repeat('M', k) + t) == Step(1000 * k, t)
  {
    var s := Repeat('M', k) + t;
    RunRepeat('M', k, t);
    if k > 0 {
      assert s[0] == 'M';
    } else {
      assert s == t;
    }
    ThousandSpaceFree(s);
  }

  /** The first character of a spelled digit is the level's one- or five-symbol. */
  lemma DigitLead(l: Level, d: nat)
    requires l != Thousand && d <= 9
    ensures Digit(l, d) == [] <==> d == 0
    ensures Digit(l, d) != [] ==> Digit(l, d)[0] == One(l) || Digit(l, d)[0] == Five(l)[0]
  {
    Regular(l);
  }

  /** The first of the levels, then the others on what it leaves. */
  lemma ApplyCons(l: Level, more: seq<Level>, s: string)
    ensures var a := Interpretation(l, s);
      var b := Apply(more, a.rest);
      Apply([l] + more, s) == Step(a.gain + b.gain, b.rest)
  {
    assert ([l] + more)[1..] == more;
  }

  /** The four levels of `Client.main`, one after the other. */
  lemma ApplyLevels(s: string)
    ensures var a := Interpretation(Thousand, s);
      var b := Interpretation(Hundred, a.rest);
      var c := Interpretation(Ten, b.rest);
      var d := Interpretation(Base, c.rest);
      Apply(Levels, s) == Step(a.gain + b.gain + c.gain + d.gain, d.rest)
  {
    var a := Interpretation(Thousand, s);
    var b := Interpretation(Hundred, a.rest);
    var c := Interpretation(Ten, b.rest);
    var d := Interpretation(Base, c.rest);
    assert [Base][1..] == [];
    ApplyCons(Ten, [Base], b.rest);
    ApplyCons(Hundred, [Ten] + [Base], a.rest);
    ApplyCons(Thousand, [Hundred] + ([Ten] + [Base]), s);
  }

  lemma DecimalDigits(n: nat)
    ensures 1000 * (n / 1000) + 100 * (n / 100 % 10) + 10 * (n / 10 % 10) + n % 10 == n
  {
    var q := n / 10;
    assert n == 10 * q + n % 10;
    var r := q / 10;
    assert q == 10 * r + q % 10;
    assert n / 100 == r;
    assert r == 10 * (r / 10) + r % 10;
    assert n / 1000 == r / 10;
  }

  /** The units spelled in the usual way: read by the unit level, starting with 'I' or 'V'. */
  lemma Units(u: nat)
    requires u <= 9
    ensures Interpretation(Base, Digit(Base, u)) == Step(u * 1, [])
    ensures Digit(Base, u) == [] || Digit(Base, u)[0] in {'I', 'V'}
  {
    DigitLead(Base, u);
    assert Digit(Base, u) + [] == Digit(Base, u);
    DigitStep(Base, u, []);
  }

  /** Tens before units: read by the ten level, starting with 'X', 'L', 'I' or 'V'. */
  lemma Tens(x: nat, base: string)
    requires x <= 9 && (base == [] || base[0] in {'I', 'V'})
    ensures Interpretation(Ten, Digit(Ten, x) + base) == Step(x * 10, base)
    ensures var ten := Digit(Ten, x) + base; ten == [] || ten[0] in {'X', 'L', 'I', 'V'}
  {
    DigitLead(Ten, x);
    DigitStep(Ten, x, base);
  }

  /** Hundreds before tens: read by the hundred level, and never starting with 'M' or a space. */
  lemma Hundreds(h: nat, ten: string)
    requires h <= 9 && (ten == [] || ten[0] in {'X', 'L', 'I', 'V'})
    ensures Interpretation(Hundred, Digit(Hundred, h) + ten) == Step(h * 100, ten)
    ensures var hundred := Digit(Hundred, h) + ten; hundred == [] || (hundred[0] != 'M' && hundred[0] != ' ')
  {
    DigitLead(Hundred, h);
    DigitStep(Hundred, h, ten);
  }

  /** Digits spelled in the usual way are read back level by level, with nothing left over. */
  lemma Spelled(k: nat, h: nat, x: nat, u: nat)
    requires h <= 9 && x <= 9 && u <= 9
    ensures Apply(Levels, Repeat('M', k) + (Digit(Hundred, h) + (Digit(Ten, x) + Digit(Base, u))))
      == Step(1000 * k + 100 * h + 10 * x + u, [])
  {
    var base := Digit(Base, u);
    var ten := Digit(Ten, x) + base;
    var hundred := Digit(Hundred, h) + ten;
    Units(u);
    Tens(x, base);
    Hundreds(h, ten);
    ThousandStep(k, hundred);
    var s := Repeat('M', k) + hundred;
    ApplyLevels(s);
    assert Interpretation(Thousand, s) == Step(1000 * k, hundred);
  }

  /**
   * Every number spelled in the usual way is read back by the four levels,
   * with nothing left over.
   */
  lemma RomanRoundTrip(n: nat)
    ensures Apply(Levels, RomanOf(n)) == Step(n, [])
  {
    Spelled(n / 1000, n / 100 % 10, n / 10 % 10, n % 10);
    DecimalDigits(n);
  }

  /** The one-symbol may repeat any number of times: `k` copies are worth `k` units. */
  lemma Unbounded(l: Level, k: nat)
    ensures Interpretation(l, Repeat(One(l), k)) == Step(k * Multiplier(l), [])
  {
    var s := Repeat(One(l), k);
    RunRepeat(One(l), k, []);
    assert s + [] == s;
    if k > 0 {
      assert s[0] == One(l);
      assert k >= 2 ==> s[1] == One(l);
      assert !(Nine(l) <= s) && !(Four(l) <= s) && !(Five(l) <= s);
    }
  }

  /** The numeral of `Client.main`: 'MCMLXXXVII' is 1987, with nothing left over. */
  lemma ClientNumeral()
    ensures Apply(Levels, "MCMLXXXVII") == Step(1987, [])
  {
    Spelled(1, 9, 8, 7);
    ClientSpelling();
  }

  lemma ClientSpelling()
    ensures Repeat('M', 1) + (Digit(Hundred, 9) + (Digit(Ten, 8) + Digit(Base, 7))) == "MCMLXXXVII"
  {
    assert Repeat('M', 1) == "M";
    assert Digit(Hundred, 9) == "CM";
    assert Repeat('X', 3) == "XXX";
    assert Digit(Ten, 8) == "LXXX";
    assert Repeat('I', 2) == "II";
    assert Digit(Base, 7) == "VII";
    assert "M" + ("CM" + ("LXXX" + "VII")) == "MCMLXXXVII";
  }

  /** A pattern is not a prefix of a text it differs from at some position they share. */
  lemma Mismatch(p: string, s: string, i: nat)
    requires i < |p| && i < |s| && p[i] != s[i]
    ensures !(p <= s)
  {
  }

  /** What no level reads is left over: in 'XM' the 'M' comes after the tens. */
  lemma Leftover()
    ensures Apply(Levels, "XM") == Step(10, "M")
  {
    ApplyLevels("XM");
    LeftoverThousand();
    LeftoverHundred();
    LeftoverTen();
    LeftoverBase();
  }

  /** 'XM' holds no thousands. */
  lemma LeftoverThousand()
    ensures Interpretation(Thousand, "XM") == Step(0, "XM")
  {
    var s := "XM";
    assert s[0] == 'X';
    ThousandSpaceFree(s);
    assert Run('M', s) == 0;
  }

  /** 'XM' holds no hundreds. */
  lemma LeftoverHundred()
    ensures Interpretation(Hundred, "XM") == Step(0, "XM")
  {
    var s := "XM";
    assert s[0] == 'X';
    Mismatch("CM", s, 0);
    Mismatch("CD", s, 0);
    Mismatch("D", s, 0);
  }

  /** The tens of 'XM' are its 'X'. */
  lemma LeftoverTen()
    ensures Interpretation(Ten, "XM") == Step(10, "M")
  {
    var s := "XM";
    assert s[0] == 'X' && s[1] == 'M' && s[1..] == "M";
    Mismatch("XC", s, 1);
    Mismatch("XL", s, 1);
    Mismatch("L", s, 0);
    assert Head(Ten, s) == Step(0, s);
    RunStep('X', s);
    assert Run('X', "M") == 0;
  }

  /** 'M' holds no units. */
  lemma LeftoverBase()
    ensures Interpretation(Base, "M") == Step(0, "M")
  {
    Mismatch("IX", "M", 0);
    Mismatch("IV", "M", 0);
    Mismatch("V", "M", 0);
  }
}
