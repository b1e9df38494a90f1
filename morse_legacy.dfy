/**
 * The older Interpreter demo: the same Morse tree, with lower-case letters,
 * decoded by `AbstractExpression.interpret`. It differs from the newer
 * decoder only at separators: any two leading spaces are consumed together,
 * where the newer decoder consumes two only out of three.
 */
module MorseLegacy {
  import opened Outcomes
  import Morse

  /** Lower-case for the capital letters; every other character is kept. */
  function LowerCase(c: char): (l: char)
    ensures 'A' <= c <= 'Z' ==> 'a' <= l <= 'z' && l as int - c as int == 32
    ensures !('A' <= c <= 'Z') ==> l == c
  {
    if 'A' <= c <= 'Z' then (c as int + 32) as char else c
  }

  function LowerText(s: string): (r: string)
    ensures |r| == |s| && forall i | 0 <= i < |s| :: r[i] == LowerCase(s[i])
  {
    seq(|s|, i requires 0 <= i < |s| => LowerCase(s[i]))
  }

  function LowerLabel(l: Morse.Label): Morse.Label
  {
    match l
    case Char(c) => Morse.Char(LowerCase(c))
    case Unknown => Morse.Unknown
  }

  /** The same tree with its letters in lower case. */
  function Lower(e: Morse.Expression): (r: Morse.Expression)
    ensures r.Terminal? == e.Terminal? && r.symbol == LowerLabel(e.symbol)
  {
    match e
    case Terminal(s) => Morse.Terminal(LowerLabel(s))
    case NonTerminal(s, d, a) => Morse.NonTerminal(LowerLabel(s), Lower(d), Lower(a))
  }

  /**
   * The tree `Client.main` builds: node for node the tree of the newer demo,
   * with the characters 'a' to 'z' in place of 'A' to 'Z'.
   */
  const Tree: Morse.Expression := Lower(Morse.Root)

  /** `re.match('  ', morse)`: the text starts with two spaces. */
  predicate DoubleBlank(m: string)
  {
    |m| >= 2 && m[..2] == "  "
  }

  /**
   * `interpret` on node `e`: every dot or dash is consumed and moves to a
   * child; the end of the text, two spaces (both consumed) or one space
   * emits the node's character; any other character is a syntax error.
   */
  function Interpretation(e: Morse.Expression, m: string): (r: Result<Morse.Scan, Morse.MorseError>)
    ensures r.Ok? ==> |r.value.rest| <= |m| && r.value.rest == m[|m| - |r.value.rest|..]
    ensures r.Ok? && |m| > 0 ==> |r.value.rest| < |m|
    ensures r.Err? ==> r.error == Morse.SyntaxError
    decreases |m|
  {
    if |m| == 0 then Ok(Morse.Scan(Morse.Text(e.symbol), m))
    else if m[0] == ' ' then
      if DoubleBlank(m) then Ok(Morse.Scan(Morse.Text(e.symbol), m[2..]))
      else Ok(Morse.Scan(Morse.Text(e.symbol), m[1..]))
    else if m[0] == '.' then
      var r := Interpretation(Morse.Left(e), m[1..]);
      assert r.Ok? ==> r.value.rest == m[1..][|m[1..]| - |r.value.rest|..] == m[|m| - |r.value.rest|..];
      r
    else if m[0] == '-' then
      var r := Interpretation(Morse.Right(e), m[1..]);
      assert r.Ok? ==> r.value.rest == m[1..][|m[1..]| - |r.value.rest|..] == m[|m| - |r.value.rest|..];
      r
    else Err(Morse.SyntaxError)
  }

  /** What one separator leaves: two spaces go together, one goes alone. */
  function AfterBlank(t: string): string
  {
    if t == [] then t else if DoubleBlank(t) then t[2..] else t[1..]
  }

  /** The text the decode loop of `Client.main` produces: `interpret` from the root until no Morse is left. */
  function Decoding(m: string): (r: Result<string, Morse.MorseError>)
    ensures r.Err? ==> r.error == Morse.SyntaxError
    decreases |m|
  {
    if |m| == 0 then Ok("")
    else match Interpretation(Tree, m)
      case Err(e) => Err(e)
      case Ok(s) => Morse.Prefix(s.emitted, Decoding(s.rest))
  }

  // ---------------------------------------------------------------------
  // The context and the interpreter

  /** The `Context`: the Morse text still to read and the text produced so far. */
  class Context {
    var input: string
    var output: string

    constructor (morse: string)
      ensures input == morse && output == ""
    {
      input := morse;
      output := "";
    }
  }

  /** `interpret` on node `e`: consumes Morse text and appends one character, or fails. */
  method Interpret(e: Morse.Expression, context: Context) returns (r: Result<(), Morse.MorseError>)
    modifies context
    ensures var s := Interpretation(e, old(context.input));
      if s.Ok? then r == Ok(()) && context.output == old(context.output) + s.value.emitted && context.input == s.value.rest
      else r == Err(s.error) && context.output == old(context.output)
    decreases |context.input|
  {
    if |context.input| == 0 {
      context.output := context.output + Morse.Text(e.symbol);
      return Ok(());
    }
    if context.input[0] == ' ' {
      if DoubleBlank(context.input) {
        context.input := context.input[2..];
        context.output := context.output + Morse.Text(e.symbol);
      } else {
        context.input := context.input[1..];
        context.output := context.output + Morse.Text(e.symbol);
      }
      return Ok(());
    }
    if context.input[0] == '.' {
      context.input := context.input[1..];
      r := Interpret(Morse.Left(e), context);
      return;
    }
    if context.input[0] == '-' {
      context.input := context.input[1..];
      r := Interpret(Morse.Right(e), context);
      return;
    }
    return Err(Morse.SyntaxError);
  }

  /** One `interpret` from the root, seen from the whole decoding. */
  lemma DecodeStep(out: string, m: string)
    requires |m| > 0
    ensures var s := Interpretation(Tree, m);
      if s.Ok? then Morse.Prefix(out, Decoding(m)) == Morse.Prefix(out + s.value.emitted, Decoding(s.value.rest))
      else Morse.Prefix(out, Decoding(m)) == Err(s.error)
  {
    var s := Interpretation(Tree, m);
    if s.Ok? {
      Morse.PrefixPrefix(out, s.value.emitted, Decoding(s.value.rest));
    }
  }

  /**
   * The decode loop of `Client.main`, for any message (the demo fixes
   * '... --- ...'): `interpret` from the root until the Morse text is used up.
   */
  method Decode(message: string) returns (r: Result<string, Morse.MorseError>)
    ensures r == Decoding(message)
  {
    var root := Tree;
    var context := new Context(message);
    Morse.PrefixNothing(Decoding(message));
    while |context.input| > 0
      invariant Morse.Prefix(context.output, Decoding(context.input)) == Decoding(message)
      decreases |context.input|
    {
      DecodeStep(context.output, context.input);
      var step := Interpret(root, context);
      if step.Err? {
        return Err(step.error);
      }
    }
    assert context.output + "" == context.output;
    return Ok(context.output);
  }

  // ---------------------------------------------------------------------
  // Walks and separators

  /**
   * Dots and dashes walk the tree; the end of the text or a separator then
   * emits the character of the node reached.
   */
  lemma {:induction false} Walk(e: Morse.Expression, p: string, t: string)
    requires Morse.IsCode(p) && (t == [] || t[0] == ' ')
    ensures Interpretation(e, p + t) == Ok(Morse.Scan(Morse.Text(Morse.Follow(e, p).symbol), AfterBlank(t)))
    decreases |p|
  {
    if p == [] {
      assert p + t == t;
    } else {
      var m := p + t;
      var next := if p[0] == '.' then Morse.Left(e) else Morse.Right(e);
      assert m[0] == p[0] && m[1..] == p[1..] + t;
      assert Interpretation(e, m) == Interpretation(next, m[1..]);
      Walk(next, p[1..], t);
    }
  }

  /** A character other than a dot, a dash or a space, reached by the walk, is a syntax error. */
  lemma {:induction false} Rejects(e: Morse.Expression, p: string, c: char, t: string)
    requires Morse.IsCode(p) && c != '.' && c != '-' && c != ' '
    ensures Interpretation(e, p + [c] + t) == Err(Morse.SyntaxError)
    decreases |p|
  {
    var m := p + [c] + t;
    if p == [] {
      assert m[0] == c;
    } else {
      assert m[0] == p[0] && m[1..] == p[1..] + [c] + t;
      Rejects(if p[0] == '.' then Morse.Left(e) else Morse.Right(e), p[1..], c, t);
    }
  }

  /** Two or more spaces: two are consumed. One space alone: it is consumed. */
  lemma BlankRuns(e: Morse.Expression, m: string)
    requires |m| > 0 && m[0] == ' '
    ensures |m| >= 2 && m[1] == ' ' ==> Interpretation(e, m) == Ok(Morse.Scan(Morse.Text(e.symbol), m[2..]))
    ensures (|m| == 1 || m[1] != ' ') ==> Interpretation(e, m) == Ok(Morse.Scan(Morse.Text(e.symbol), m[1..]))
  {
    if |m| >= 2 && m[1] == ' ' {
      assert m[..2] == "  ";
    } else if |m| >= 2 {
      assert m[..2][1] == m[1];
    }
  }

  /** Walking the lower-cased tree reaches the lower-cased node. */
  lemma {:induction false} FollowLower(e: Morse.Expression, p: string)
    ensures Morse.Follow(Lower(e), p) == Lower(Morse.Follow(e, p))
    decreases |p|
  {
    if p != [] {
      var next := if p[0] == '.' then Morse.Left(e) else Morse.Right(e);
      assert (if p[0] == '.' then Morse.Left(Lower(e)) else Morse.Right(Lower(e))) == Lower(next);
      FollowLower(next, p[1..]);
    }
  }

  // ---------------------------------------------------------------------
  // The demo's message

  /** The letter a dot/dash code reaches in the lower-cased tree. */
  lemma LowerLetter(p: string, c: char)
    requires Morse.IsCode(p) && Morse.Follow(Morse.Root, p).symbol == Morse.Char(c)
    ensures Morse.Follow(Tree, p).symbol == Morse.Char(LowerCase(c))
  {
    FollowLower(Morse.Root, p);
  }

  /** A code the tree knows, alone: the end of the text emits its letter. */
  lemma LetterEnd(p: string, c: char)
    requires |p| > 0 && Morse.IsCode(p) && Morse.Follow(Tree, p).symbol == Morse.Char(c)
    ensures Decoding(p) == Ok([c])
  {
    Walk(Tree, p, []);
    assert p + [] == p;
    assert Decoding(p) == Morse.Prefix([c], Decoding([]));
    assert [c] + "" == [c];
  }

  /** A code, one space and then more Morse: the letter comes first. */
  lemma LetterThen(p: string, c: char, rest: string, x: string)
    requires Morse.IsCode(p) && Morse.Follow(Tree, p).symbol == Morse.Char(c)
    requires (rest == [] || rest[0] != ' ') && Decoding(rest) == Ok(x)
    ensures Decoding(p + " " + rest) == Ok([c] + x)
  {
    var t := " " + rest;
    assert p + " " + rest == p + t;
    assert !DoubleBlank(t) by {
      if |t| >= 2 { assert t[..2][1] == t[1]; }
    }
    assert AfterBlank(t) == rest;
    Walk(Tree, p, t);
    assert |p + t| > 0;
  }

  lemma Associate(p: string, q: string, r: string)
    ensures p + " " + (q + " " + r) == p + " " + q + " " + r
  {
  }

  /** Three letters separated by single spaces. */
  lemma ThreeLetters(p: string, a: char, q: string, b: char, r: string, c: char)
    requires Morse.IsCode(p) && Morse.Follow(Tree, p).symbol == Morse.Char(a)
    requires Morse.IsCode(q) && Morse.Follow(Tree, q).symbol == Morse.Char(b)
    requires Morse.IsCode(r) && Morse.Follow(Tree, r).symbol == Morse.Char(c) && |q| > 0 && |r| > 0
    ensures Decoding(p + " " + q + " " + r) == Ok([a, b, c])
  {
    LetterEnd(r, c);
    LetterThen(q, b, r, [c]);
    var tail := q + " " + r;
    assert tail[0] == q[0];
    LetterThen(p, a, tail, [b] + [c]);
    Associate(p, q, r);
    assert [a] + ([b] + [c]) == [a, b, c];
  }

  /** The message of `Client.main` decodes to 'sos'. */
  lemma SosMessage()
    ensures Decoding("..." + " " + "---" + " " + "...") == Ok("sos")
  {
    Morse.DecodesS();
    Morse.DecodesO();
    LowerLetter("...", 'S');
    LowerLetter("---", 'O');
    ThreeLetters("...", 's', "---", 'o', "...", 's');
  }
}
