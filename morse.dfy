/**
 * The newer Interpreter demo: Morse code decoded by walking a binary tree of
 * expressions (a dot goes to the left child, a dash to the right one) and
 * encoded by a depth-first search for a letter's path. A `Context` carries
 * the Morse text and the plain text being converted.
 *
 * Text framing is the demo's own: one space between letter codes and three
 * spaces between words.
 */
module Morse {
  import opened Outcomes

  /**
   * The exceptions the interpreter raises: `Exception('Syntax error')`, and
   * the `IndexError` of `interpret_abc` on an empty text.
   */
  datatype MorseError = SyntaxError | IndexError

  /**
   * A node of the syntax tree. A `Terminal` is its own dot and dash child; a
   * `NonTerminal` holds the character of the letter it stands for.
   */
  datatype Expression =
    | Terminal(symbol: Label)
    | NonTerminal(symbol: Label, dot: Expression, dash: Expression)

  /**
   * The `char` of a node: one character, or the mark `'<?>'` of a terminal
   * built without one. A single character never equals the mark.
   */
  datatype Label = Char(c: char) | Unknown

  /** The text a label stands for. */
  function Text(l: Label): (s: string)
    ensures l.Char? ==> s == [l.c]
    ensures l.Unknown? ==> s == "<?>"
  {
    match l
    case Char(c) => [c]
    case Unknown => "<?>"
  }

  /** The child a missing dot or dash defaults to: the terminal `'<?>'`. */
  const Missing: Expression := Terminal(Unknown)

  /** The `left` property: a terminal answers itself. */
  function Left(e: Expression): Expression
  {
    match e
    case Terminal(_) => e
    case NonTerminal(_, d, _) => d
  }

  /** The `right` property: a terminal answers itself. */
  function Right(e: Expression): Expression
  {
    match e
    case Terminal(_) => e
    case NonTerminal(_, _, a) => a
  }

  // ---------------------------------------------------------------------
  // The tree built by the client

  /** A letter node built with only a character: both children default. */
  function Tip(c: char): Expression
  {
    NonTerminal(Char(c), Missing, Missing)
  }

  const NodeG: Expression := NonTerminal(Char('G'), Tip('Z'), Tip('Q'))
  const NodeK: Expression := NonTerminal(Char('K'), Tip('C'), Tip('Y'))
  const NodeD: Expression := NonTerminal(Char('D'), Tip('B'), Tip('X'))
  const NodeW: Expression := NonTerminal(Char('W'), Tip('P'), Tip('J'))
  const NodeR: Expression := NonTerminal(Char('R'), Tip('L'), Missing)
  const NodeU: Expression := NonTerminal(Char('U'), Tip('F'), Missing)
  const NodeS: Expression := NonTerminal(Char('S'), Tip('H'), Tip('V'))
  const NodeM: Expression := NonTerminal(Char('M'), NodeG, Tip('O'))
  const NodeN: Expression := NonTerminal(Char('N'), NodeD, NodeK)
  const NodeA: Expression := NonTerminal(Char('A'), NodeR, NodeW)
  const NodeI: Expression := NonTerminal(Char('I'), NodeS, NodeU)
  const NodeT: Expression := NonTerminal(Char('T'), NodeN, NodeM)
  const NodeE: Expression := NonTerminal(Char('E'), NodeI, NodeA)

  /** The root: a blank character, with E on the dot side and T on the dash side. */
  const Root: Expression := NonTerminal(Char(' '), NodeE, NodeT)

  /**
   * The letter table of International Morse Code (ITU-R Recommendation
   * M.1677-1, Part I, section 1.1.1), for the 26 letters.
   */
  function ItuCode(c: char): Option<string>
  {
    match c
    case 'A' => Some(".-")    case 'B' => Some("-...")  case 'C' => Some("-.-.")
    case 'D' => Some("-..")   case 'E' => Some(".")     case 'F' => Some("..-.")
    case 'G' => Some("--.")   case 'H' => Some("....")  case 'I' => Some("..")
    case 'J' => Some(".---")  case 'K' => Some("-.-")   case 'L' => Some(".-..")
    case 'M' => Some("--")    case 'N' => Some("-.")    case 'O' => Some("---")
    case 'P' => Some(".--.")  case 'Q' => Some("--.-")  case 'R' => Some(".-.")
    case 'S' => Some("...")   case 'T' => Some("-")     case 'U' => Some("..-")
    case 'V' => Some("...-")  case 'W' => Some(".--")   case 'X' => Some("-..-")
    case 'Y' => Some("-.--")  case 'Z' => Some("--..")
    case _ => None
  }

  predicate IsLetter(c: char)
  {
    'A' <= c <= 'Z'
  }

  /** A string made only of dots and dashes. */
  predicate IsCode(p: string)
  {
    forall i | 0 <= i < |p| :: p[i] == '.' || p[i] == '-'
  }

  /** The node reached from `e` by following the dots and dashes of `p`. */
  function Follow(e: Expression, p: string): Expression
    decreases |p|
  {
    if p == [] then e
    else Follow(if p[0] == '.' then Left(e) else Right(e), p[1..])
  }

  // ---------------------------------------------------------------------
  // Decoding

  /** `re.match('   ', morse)`: the text starts with a word separator. */
  predicate WordGap(m: string)
  {
    |m| >= 3 && m[..3] == "   "
  }

  /** One call of `interpret_morse`: the character appended and the Morse text left. */
  datatype Scan = Scan(emitted: string, rest: string)

  /**
   * `interpret_morse` on node `e`: every dot or dash is consumed and moves to
   * a child; the end of the text, a word separator (of which two spaces are
   * consumed) or a single space emits the node's character; any other
   * character is a syntax error.
   */
  function Interpretation(e: Expression, m: string): (r: Result<Scan, MorseError>)
    ensures r.Ok? ==> |r.value.rest| <= |m| && (|m| > 0 ==> |r.value.rest| < |m|)
    ensures r.Ok? ==> r.value.rest == m[|m| - |r.value.rest|..]
    ensures r.Err? ==> r.error == SyntaxError
    decreases |m|
  {
    if |m| == 0 then Ok(Scan(Text(e.symbol), m))
    else if WordGap(m) then Ok(Scan(Text(e.symbol), m[2..]))
    else if m[0] == ' ' then Ok(Scan(Text(e.symbol), m[1..]))
    else if m[0] == '.' then
      var r := Interpretation(Left(e), m[1..]);
      assert r.Ok? ==> m[1..][|m[1..]| - |r.value.rest|..] == m[|m| - |r.value.rest|..];
      r
    else if m[0] == '-' then
      var r := Interpretation(Right(e), m[1..]);
      assert r.Ok? ==> m[1..][|m[1..]| - |r.value.rest|..] == m[|m| - |r.value.rest|..];
      r
    else Err(SyntaxError)
  }

  /** What remains after the separator at the head of `t` is consumed. */
  function AfterGap(t: string): string
  {
    if t == [] then t else if WordGap(t) then t[2..] else t[1..]
  }

  /** The text `MorseClient.decode` produces: `interpret_morse` from the root until no Morse is left. */
  function Decoding(m: string): (r: Result<string, MorseError>)
    ensures r.Err? ==> r.error == SyntaxError
    decreases |m|
  {
    if |m| == 0 then Ok("")
    else match Interpretation(Root, m)
      case Err(e) => Err(e)
      case Ok(s) => Prefix(s.emitted, Decoding(s.rest))
  }

  /** Puts `s` in front of a successful result; an error passes through. */
  function Prefix(s: string, r: Result<string, MorseError>): Result<string, MorseError>
  {
    if r.Ok? then Ok(s + r.value) else r
  }

  // ---------------------------------------------------------------------
  // Encoding

  /** Every terminal of the tree is an unknown one, so `encode` never loops. */
  predicate Searchable(e: Expression)
  {
    match e
    case Terminal(s) => s == Unknown
    case NonTerminal(_, d, a) => Searchable(d) && Searchable(a)
  }

  /**
   * `MorseEncoder.encode(char, node, seq)`: a space encodes as a space; a
   * node holding the character gives the path walked so far; otherwise the
   * search goes to each child not labelled unknown, dot side first, and
   * keeps the first non-empty answer (Python's `left or right`).
   */
  function Search(c: char, e: Expression, path: string): (r: Option<string>)
    requires Searchable(e)
  {
    if c == ' ' then Some(" ")
    else if e.symbol == Char(c) then Some(path)
    else match e
      case Terminal(_) => None
      case NonTerminal(_, d, a) =>
        var left := if d.symbol != Unknown then Search(c, d, path + ".") else None;
        var right := if a.symbol != Unknown then Search(c, a, path + "-") else None;
        if left.Some? && left.value != "" then left else right
  }

  /** `MorseEncoder(root).encode(c)`. */
  function EncodeChar(c: char): Option<string>
  {
    assert Searchable(Root);
    Search(c, Root, "")
  }

  /**
   * The Morse text `MorseClient.encode` produces: each character's code,
   * followed by one space unless it is the last; a character without a code
   * is a syntax error.
   */
  function Encoding(m: string): (r: Result<string, MorseError>)
    ensures r.Err? ==> r.error == SyntaxError
    decreases |m|
  {
    if |m| == 0 then Ok("")
    else match EncodeChar(m[0])
      case None => Err(SyntaxError)
      case Some(code) => Prefix(code + (if |m| > 1 then " " else ""), Encoding(m[1..]))
  }

  /**
   * The dot/dash path from `e` to the node holding `c`, found in the order
   * `encode` searches: the node itself, then the dot side, then the dash side.
   */
  function Locate(c: char, e: Expression): Option<string>
  {
    if e.symbol == Char(c) then Some("")
    else match e
      case Terminal(_) => None
      case NonTerminal(_, d, a) =>
        var left := if d.symbol != Unknown then Locate(c, d) else None;
        var right := if a.symbol != Unknown then Locate(c, a) else None;
        if left.Some? then Some("." + left.value)
        else if right.Some? then Some("-" + right.value)
        else None
  }

  /** `encode` started with path `path` answers that path followed by the located one. */
  lemma {:induction false} SearchLocate(c: char, e: Expression, path: string)
    requires Searchable(e) && c != ' '
    ensures Search(c, e, path) == if Locate(c, e).Some? then Some(path + Locate(c, e).value) else None
  {
    if e.symbol == Char(c) {
      assert path + "" == path;
    } else if e.NonTerminal? {
      SearchLocate(c, e.dot, path + ".");
      SearchLocate(c, e.dash, path + "-");
      var l := Locate(c, e.dot);
      var r := Locate(c, e.dash);
      if e.dot.symbol != Unknown && l.Some? {
        assert (path + ".") + l.value == path + ("." + l.value);
      } else if e.dash.symbol != Unknown && r.Some? {
        assert (path + "-") + r.value == path + ("-" + r.value);
      }
    }
  }

  /** A located path is made of dots and dashes and leads to a node holding the character. */
  lemma {:induction false} LocateSound(c: char, e: Expression)
    requires Locate(c, e).Some?
    ensures IsCode(Locate(c, e).value)
    ensures Follow(e, Locate(c, e).value).symbol == Char(c)
  {
    var p := Locate(c, e).value;
    if e.symbol != Char(c) {
      var d, a := e.dot, e.dash;
      if d.symbol != Unknown && Locate(c, d).Some? {
        LocateSound(c, d);
        assert p == "." + Locate(c, d).value;
        assert p[1..] == Locate(c, d).value;
      } else {
        LocateSound(c, a);
        assert p == "-" + Locate(c, a).value;
        assert p[1..] == Locate(c, a).value;
      }
    }
  }

  /**
   * The shape of every tree the client builds: terminals are unknown marks
   * and every non-terminal holds a character.
   */
  predicate Built(e: Expression)
  {
    match e
    case Terminal(s) => s == Unknown
    case NonTerminal(s, d, a) => s.Char? && Built(d) && Built(a)
  }

  /** In a built tree, `encode`'s search finds every character some walk reaches. */
  lemma {:induction false} LocateComplete(c: char, e: Expression, p: string)
    requires Built(e) && IsCode(p) && Follow(e, p).symbol == Char(c)
    ensures Locate(c, e).Some?
    decreases |p|
  {
    FollowTerminal(e, p);
    if e.symbol != Char(c) {
      var next := if p[0] == '.' then e.dot else e.dash;
      FollowTerminal(next, p[1..]);
      LocateComplete(c, next, p[1..]);
    }
  }

  // ---------------------------------------------------------------------
  // Decoding walks

  /**
   * Dots and dashes walk the tree; the end of the text or a separator then
   * emits the character of the node reached.
   */
  lemma {:induction false} InterpretWalk(e: Expression, p: string, t: string)
    requires IsCode(p) && (t == [] || t[0] == ' ')
    ensures Interpretation(e, p + t) == Ok(Scan(Text(Follow(e, p).symbol), AfterGap(t)))
    decreases |p|
  {
    if p == [] {
      assert p + t == t;
    } else {
      var m := p + t;
      var next := if p[0] == '.' then Left(e) else Right(e);
      assert m[0] == p[0] && m[1..] == p[1..] + t;
      assert !WordGap(m) by { if |m| >= 3 { assert m[..3][0] == p[0]; } }
      assert Interpretation(e, m) == Interpretation(next, m[1..]);
      InterpretWalk(next, p[1..], t);
    }
  }

  /** A character other than a dot, a dash or a space, reached by the walk, is a syntax error. */
  lemma {:induction false} InterpretRejects(e: Expression, p: string, c: char, t: string)
    requires IsCode(p) && c != '.' && c != '-' && c != ' '
    ensures Interpretation(e, p + [c] + t) == Err(SyntaxError)
    decreases |p|
  {
    var m := p + [c] + t;
    if p == [] {
      assert m[0] == c;
      assert !WordGap(m) by { if |m| >= 3 { assert m[..3][0] == c; } }
    } else {
      assert m[0] == p[0] && m[1..] == p[1..] + [c] + t;
      assert !WordGap(m) by { if |m| >= 3 { assert m[..3][0] == p[0]; } }
      InterpretRejects(if p[0] == '.' then Left(e) else Right(e), p[1..], c, t);
    }
  }

  /** The characters `interpret_morse` accepts. */
  predicate IsMorseChar(c: char)
  {
    c == '.' || c == '-' || c == ' '
  }

  /** A text of accepted characters is read without error, whatever the node. */
  lemma {:induction false} InterpretAccepts(e: Expression, m: string)
    requires forall i | 0 <= i < |m| :: IsMorseChar(m[i])
    ensures Interpretation(e, m).Ok?
    decreases |m|
  {
    if |m| > 0 && !WordGap(m) && m[0] != ' ' {
      InterpretAccepts(if m[0] == '.' then Left(e) else Right(e), m[1..]);
    }
  }

  /** What one successful call consumed holds only accepted characters. */
  lemma {:induction false} InterpretConsumed(e: Expression, m: string)
    requires Interpretation(e, m).Ok?
    ensures forall i | 0 <= i < |m| - |Interpretation(e, m).value.rest| :: IsMorseChar(m[i])
    decreases |m|
  {
    if |m| > 0 && !WordGap(m) && m[0] != ' ' {
      var next := if m[0] == '.' then Left(e) else Right(e);
      assert Interpretation(e, m) == Interpretation(next, m[1..]);
      InterpretConsumed(next, m[1..]);
      forall i | 0 < i < |m| - |Interpretation(e, m).value.rest|
        ensures IsMorseChar(m[i])
      {
        assert m[i] == m[1..][i - 1];
      }
    } else if WordGap(m) {
      assert m[..3][1] == m[1];
    }
  }

  /**
   * Decoding fails exactly when the message holds a character other than
   * a dot, a dash or a space.
   */
  lemma {:induction false} DecodingSucceeds(m: string)
    ensures Decoding(m).Ok? <==> forall i | 0 <= i < |m| :: IsMorseChar(m[i])
    decreases |m|
  {
    if |m| > 0 {
      if forall i | 0 <= i < |m| :: IsMorseChar(m[i]) {
        InterpretAccepts(Root, m);
      }
      var s := Interpretation(Root, m);
      if s.Ok? {
        var rest := s.value.rest;
        var k := |m| - |rest|;
        assert forall i | 0 <= i < |rest| :: rest[i] == m[k + i];
        DecodingSucceeds(rest);
        InterpretConsumed(Root, m);
        if Decoding(m).Ok? {
          forall i | k <= i < |m|
            ensures IsMorseChar(m[i])
          {
            assert m[i] == rest[i - k];
          }
        }
      }
    }
  }

  // ---------------------------------------------------------------------
  // The context and the interpreter

  /** The `Context`: the plain text and the Morse text being converted. */
  class Context {
    var abc: string
    var morse: string

    constructor (abc: string, morse: string)
      ensures this.abc == abc && this.morse == morse
    {
      this.abc := abc;
      this.morse := morse;
    }
  }

  /**
   * `interpret_morse` on node `e`: consumes Morse text from the context and
   * appends one character to its plain text, or fails with a syntax error.
   */
  method InterpretMorse(e: Expression, context: Context) returns (r: Result<(), MorseError>)
    modifies context
    ensures var s := Interpretation(e, old(context.morse));
      if s.Ok? then r == Ok(()) && context.abc == old(context.abc) + s.value.emitted && context.morse == s.value.rest
      else r == Err(s.error) && context.abc == old(context.abc)
    decreases |context.morse|
  {
    if |context.morse| == 0 {
      context.abc := context.abc + Text(e.symbol);
      return Ok(());
    }
    if WordGap(context.morse) {
      context.morse := context.morse[2..];
      context.abc := context.abc + Text(e.symbol);
      return Ok(());
    }
    if context.morse[0] == ' ' {
      context.morse := context.morse[1..];
      context.abc := context.abc + Text(e.symbol);
      return Ok(());
    }
    if context.morse[0] == '.' {
      context.morse := context.morse[1..];
      r := InterpretMorse(Left(e), context);
      return;
    }
    if context.morse[0] == '-' {
      context.morse := context.morse[1..];
      r := InterpretMorse(Right(e), context);
      return;
    }
    return Err(SyntaxError);
  }

  /**
   * `interpret_abc` on node `e`: encodes the first plain character with an
   * encoder rooted at `e`, drops it, and appends its code and, unless the
   * plain text is now empty, one space. A character without a code drops
   * the character and fails; an empty plain text fails before anything
   * changes.
   */
  method InterpretAbc(e: Expression, context: Context) returns (r: Result<(), MorseError>)
    requires Searchable(e)
    modifies context
    ensures old(context.abc) == [] ==> r == Err(IndexError) && context.abc == old(context.abc) && context.morse == old(context.morse)
    ensures old(context.abc) != [] ==> context.abc == old(context.abc)[1..]
    ensures old(context.abc) != [] ==>
      var code := Search(old(context.abc)[0], e, "");
      if code.Some? then
        r == Ok(()) && context.morse == old(context.morse) + code.value + (if |context.abc| > 0 then " " else "")
      else r == Err(SyntaxError) && context.morse == old(context.morse)
  {
    if |context.abc| == 0 {
      return Err(IndexError);
    }
    var code := Search(context.abc[0], e, "");
    context.abc := context.abc[1..];
    if code.None? {
      return Err(SyntaxError);
    }
    context.morse := context.morse + code.value;
    if |context.abc| > 0 {
      context.morse := context.morse + " ";
    }
    return Ok(());
  }

  lemma PrefixNothing(r: Result<string, MorseError>)
    ensures Prefix("", r) == r
  {
    if r.Ok? {
      assert "" + r.value == r.value;
    }
  }

  lemma PrefixPrefix(s: string, u: string, r: Result<string, MorseError>)
    ensures Prefix(s, Prefix(u, r)) == Prefix(s + u, r)
  {
    if r.Ok? {
      assert s + (u + r.value) == (s + u) + r.value;
    }
  }

  /** One `interpret_morse` from the root, seen from the whole decoding. */
  lemma DecodeStep(abc: string, m: string)
    requires |m| > 0
    ensures var s := Interpretation(Root, m);
      if s.Ok? then Prefix(abc, Decoding(m)) == Prefix(abc + s.value.emitted, Decoding(s.value.rest))
      else Prefix(abc, Decoding(m)) == Err(s.error)
  {
    var s := Interpretation(Root, m);
    if s.Ok? {
      PrefixPrefix(abc, s.value.emitted, Decoding(s.value.rest));
    }
  }

  /** One `interpret_abc` from the root, seen from the whole encoding. */
  lemma EncodeStep(morse: string, abc: string)
    requires |abc| > 0
    ensures var code := EncodeChar(abc[0]);
      if code.Some? then
        Prefix(morse, Encoding(abc)) == Prefix(morse + code.value + (if |abc| > 1 then " " else ""), Encoding(abc[1..]))
      else Prefix(morse, Encoding(abc)) == Err(SyntaxError)
  {
    var code := EncodeChar(abc[0]);
    if code.Some? {
      var sep := if |abc| > 1 then " " else "";
      PrefixPrefix(morse, code.value + sep, Encoding(abc[1..]));
      assert morse + (code.value + sep) == morse + code.value + sep;
    }
  }

  /** `MorseClient`: the tree, and the two conversions that loop until their input is used up. */
  class MorseClient {
    const root: Expression := Root

    constructor ()
    {
    }

    /** `decode`: the plain text of a Morse message, or the syntax error it contains. */
    method Decode(message: string) returns (r: Result<string, MorseError>)
      ensures r == Decoding(message)
    {
      var context := new Context("", message);
      PrefixNothing(Decoding(message));
      while |context.morse| > 0
        invariant Prefix(context.abc, Decoding(context.morse)) == Decoding(message)
        decreases |context.morse|
      {
        DecodeStep(context.abc, context.morse);
        var step := InterpretMorse(root, context);
        if step.Err? {
          return Err(step.error);
        }
      }
      assert context.abc + "" == context.abc;
      return Ok(context.abc);
    }

    /** `encode`: the Morse text of a plain message, or a syntax error. */
    method Encode(message: string) returns (r: Result<string, MorseError>)
      ensures r == Encoding(message)
    {
      var context := new Context(message, "");
      PrefixNothing(Encoding(message));
      while |context.abc| > 0
        invariant Prefix(context.morse, Encoding(context.abc)) == Encoding(message)
        decreases |context.abc|
      {
        EncodeStep(context.morse, context.abc);
        var step := InterpretAbc(root, context);
        if step.Err? {
          return Err(step.error);
        }
      }
      assert context.morse + "" == context.morse;
      return Ok(context.morse);
    }
  }

  // ---------------------------------------------------------------------
  // The tree against ITU-R M.1677-1

  /** `p + q` regrouped around the first character of `q`. */
  lemma Behind(p: string, q: string)
    requires |q| > 0
    ensures (p + [q[0]]) + q[1..] == p + q
  {
  }

  /** One step of a walk: the first dot or dash picks the child, the rest walks on from it. */
  lemma FollowStep(e: Expression, q: string)
    requires IsCode(q) && |q| > 0
    ensures IsCode(q[1..]) && (q[0] == '.' || q[0] == '-')
    ensures Follow(e, q) == Follow(if q[0] == '.' then Left(e) else Right(e), q[1..])
  {
    assert forall i | 0 <= i < |q[1..]| :: q[1..][i] == q[i + 1];
  }

  /** A terminal is its own dot and dash child, so every walk from it stays put. */
  lemma {:induction false} FollowTerminal(e: Expression, p: string)
    ensures e.Terminal? ==> Follow(e, p) == e
    decreases |p|
  {
    if p != [] {
      FollowTerminal(if p[0] == '.' then Left(e) else Right(e), p[1..]);
    }
  }

  /** A leaf letter `x` sits at its ITU code `path`; nothing lies below it but unknowns. */
  lemma OnlyAtTip(x: char, path: string, q: string, c: char)
    requires ItuCode(x) == Some(path)
    requires IsCode(q) && Follow(Tip(x), q).symbol == Char(c)
    ensures ItuCode(c) == Some(path + q)
  {
    if q == [] {
      assert path + q == path;
    } else {
      FollowStep(Tip(x), q);
      FollowTerminal(Missing, q[1..]);
      assert false;
    }
  }

  /** Below G, at `--.`, a walk that reaches a letter spells its ITU code. */
  lemma OnlyAtG(q: string, c: char)
    requires IsCode(q) && Follow(NodeG, q).symbol == Char(c)
    ensures ItuCode(c) == Some("--." + q)
  {
    if q == [] {
      assert "--." + q == "--.";
    } else if q[0] == '.' {
      FollowStep(NodeG, q);
      OnlyAtTip('Z', "--..", q[1..], c);
      Behind("--.", q);
      assert "--." + "." == "--..";
    } else {
      FollowStep(NodeG, q);
      OnlyAtTip('Q', "--.-", q[1..], c);
      Behind("--.", q);
      assert "--." + "-" == "--.-";
    }
  }

  /** Below K, at `-.-`, a walk that reaches a letter spells its ITU code. */
  lemma OnlyAtK(q: string, c: char)
    requires IsCode(q) && Follow(NodeK, q).symbol == Char(c)
    ensures ItuCode(c) == Some("-.-" + q)
  {
    if q == [] {
      assert "-.-" + q == "-.-";
    } else if q[0] == '.' {
      FollowStep(NodeK, q);
      OnlyAtTip('C', "-.-.", q[1..], c);
      Behind("-.-", q);
      assert "-.-" + "." == "-.-.";
    } else {
      FollowStep(NodeK, q);
      OnlyAtTip('Y', "-.--", q[1..], c);
      Behind("-.-", q);
      assert "-.-" + "-" == "-.--";
    }
  }

  /** Below D, at `-..`, a walk that reaches a letter spells its ITU code. */
  lemma OnlyAtD(q: string, c: char)
    requires IsCode(q) && Follow(NodeD, q).symbol == Char(c)
    ensures ItuCode(c) == Some("-.." + q)
  {
    if q == [] {
      assert "-.." + q == "-..";
    } else if q[0] == '.' {
      FollowStep(NodeD, q);
      OnlyAtTip('B', "-...", q[1..], c);
      Behind("-..", q);
      assert "-.." + "." == "-...";
    } else {
      FollowStep(NodeD, q);
      OnlyAtTip('X', "-..-", q[1..], c);
      Behind("-..", q);
      assert "-.." + "-" == "-..-";
    }
  }

  /** Below W, at `.--`, a walk that reaches a letter spells its ITU code. */
  lemma OnlyAtW(q: string, c: char)
    requires IsCode(q) && Follow(NodeW, q).symbol == Char(c)
    ensures ItuCode(c) == Some(".--" + q)
  {
    if q == [] {
      assert ".--" + q == ".--";
    } else if q[0] == '.' {
      FollowStep(NodeW, q);
      OnlyAtTip('P', ".--.", q[1..], c);
      Behind(".--", q);
      assert ".--" + "." == ".--.";
    } else {
      FollowStep(NodeW, q);
      OnlyAtTip('J', ".---", q[1..], c);
      Behind(".--", q);
      assert ".--" + "-" == ".---";
    }
  }

  /** Below R, at `.-.`, a walk that reaches a letter spells its ITU code. */
  lemma OnlyAtR(q: string, c: char)
    requires IsCode(q) && Follow(NodeR, q).symbol == Char(c)
    ensures ItuCode(c) == Some(".-." + q)
  {
    if q == [] {
      assert ".-." + q == ".-.";
    } else if q[0] == '.' {
      FollowStep(NodeR, q);
      OnlyAtTip('L', ".-..", q[1..], c);
      Behind(".-.", q);
      assert ".-." + "." == ".-..";
    } else {
      FollowStep(NodeR, q);
      FollowTerminal(Missing, q[1..]);
      assert false;
    }
  }

  /** Below U, at `..-`, a walk that reaches a letter spells its ITU code. */
  lemma OnlyAtU(q: string, c: char)
    requires IsCode(q) && Follow(NodeU, q).symbol == Char(c)
    ensures ItuCode(c) == Some("..-" + q)
  {
    if q == [] {
      assert "..-" + q == "..-";
    } else if q[0] == '.' {
      FollowStep(NodeU, q);
      OnlyAtTip('F', "..-.", q[1..], c);
      Behind("..-", q);
      assert "..-" + "." == "..-.";
    } else {
      FollowStep(NodeU, q);
      FollowTerminal(Missing, q[1..]);
      assert false;
    }
  }

  /** Below S, at `...`, a walk that reaches a letter spells its ITU code. */
  lemma OnlyAtS(q: string, c: char)
    requires IsCode(q) && Follow(NodeS, q).symbol == Char(c)
    ensures ItuCode(c) == Some("..." + q)
  {
    if q == [] {
      assert "..." + q == "...";
    } else if q[0] == '.' {
      FollowStep(NodeS, q);
      OnlyAtTip('H', "....", q[1..], c);
      Behind("...", q);
      assert "..." + "." == "....";
    } else {
      FollowStep(NodeS, q);
      OnlyAtTip('V', "...-", q[1..], c);
      Behind("...", q);
      assert "..." + "-" == "...-";
    }
  }

  /** Below M, at `--`, a walk that reaches a letter spells its ITU code. */
  lemma OnlyAtM(q: string, c: char)
    requires IsCode(q) && Follow(NodeM, q).symbol == Char(c)
    ensures ItuCode(c) == Some("--" + q)
  {
    if q == [] {
      assert "--" + q == "--";
    } else if q[0] == '.' {
      FollowStep(NodeM, q);
      OnlyAtG(q[1..], c);
      Behind("--", q);
      assert "--" + "." == "--.";
    } else {
      FollowStep(NodeM, q);
      OnlyAtTip('O', "---", q[1..], c);
      Behind("--", q);
      assert "--" + "-" == "---";
    }
  }

  /** Below N, at `-.`, a walk that reaches a letter spells its ITU code. */
  lemma OnlyAtN(q: string, c: char)
    requires IsCode(q) && Follow(NodeN, q).symbol == Char(c)
    ensures ItuCode(c) == Some("-." + q)
  {
    if q == [] {
      assert "-." + q == "-.";
    } else if q[0] == '.' {
      FollowStep(NodeN, q);
      OnlyAtD(q[1..], c);
      Behind("-.", q);
      assert "-." + "." == "-..";
    } else {
      FollowStep(NodeN, q);
      OnlyAtK(q[1..], c);
      Behind("-.", q);
      assert "-." + "-" == "-.-";
    }
  }

  /** Below A, at `.-`, a walk that reaches a letter spells its ITU code. */
  lemma OnlyAtA(q: string, c: char)
    requires IsCode(q) && Follow(NodeA, q).symbol == Char(c)
    ensures ItuCode(c) == Some(".-" + q)
  {
    if q == [] {
      assert ".-" + q == ".-";
    } else if q[0] == '.' {
      FollowStep(NodeA, q);
      OnlyAtR(q[1..], c);
      Behind(".-", q);
      assert ".-" + "." == ".-.";
    } else {
      FollowStep(NodeA, q);
      OnlyAtW(q[1..], c);
      Behind(".-", q);
      assert ".-" + "-" == ".--";
    }
  }

  /** Below I, at `..`, a walk that reaches a letter spells its ITU code. */
  lemma OnlyAtI(q: string, c: char)
    requires IsCode(q) && Follow(NodeI, q).symbol == Char(c)
    ensures ItuCode(c) == Some(".." + q)
  {
    if q == [] {
      assert ".." + q == "..";
    } else if q[0] == '.' {
      FollowStep(NodeI, q);
      OnlyAtS(q[1..], c);
      Behind("..", q);
      assert ".." + "." == "...";
    } else {
      FollowStep(NodeI, q);
      OnlyAtU(q[1..], c);
      Behind("..", q);
      assert ".." + "-" == "..-";
    }
  }

  /** Below T, at `-`, a walk that reaches a letter spells its ITU code. */
  lemma OnlyAtT(q: string, c: char)
    requires IsCode(q) && Follow(NodeT, q).symbol == Char(c)
    ensures ItuCode(c) == Some("-" + q)
  {
    if q == [] {
      assert "-" + q == "-";
    } else if q[0] == '.' {
      FollowStep(NodeT, q);
      OnlyAtN(q[1..], c);
      Behind("-", q);
      assert "-" + "." == "-.";
    } else {
      FollowStep(NodeT, q);
      OnlyAtM(q[1..], c);
      Behind("-", q);
      assert "-" + "-" == "--";
    }
  }

  /** Below E, at `.`, a walk that reaches a letter spells its ITU code. */
  lemma OnlyAtE(q: string, c: char)
    requires IsCode(q) && Follow(NodeE, q).symbol == Char(c)
    ensures ItuCode(c) == Some("." + q)
  {
    if q == [] {
      assert "." + q == ".";
    } else if q[0] == '.' {
      FollowStep(NodeE, q);
      OnlyAtI(q[1..], c);
      Behind(".", q);
      assert "." + "." == "..";
    } else {
      FollowStep(NodeE, q);
      OnlyAtA(q[1..], c);
      Behind(".", q);
      assert "." + "-" == ".-";
    }
  }

  /** A walk from the root that reaches a character other than the blank spells that character's ITU code. */
  lemma OnlyAtRoot(q: string, c: char)
    requires c != ' ' && IsCode(q) && Follow(Root, q).symbol == Char(c)
    ensures ItuCode(c) == Some("" + q)
  {
    if q == [] {
      assert false;
    } else if q[0] == '.' {
      FollowStep(Root, q);
      OnlyAtE(q[1..], c);
      Behind("", q);
      assert "" + "." == ".";
    } else {
      FollowStep(Root, q);
      OnlyAtT(q[1..], c);
      Behind("", q);
      assert "" + "-" == "-";
    }
  }

  lemma DecodesA()
    ensures IsCode(".-") && Follow(Root, ".-").symbol == Char('A')
  {
  }

  lemma DecodesB()
    ensures IsCode("-...") && Follow(Root, "-...").symbol == Char('B')
  {
  }

  lemma DecodesC()
    ensures IsCode("-.-.") && Follow(Root, "-.-.").symbol == Char('C')
  {
  }

  lemma DecodesD()
    ensures IsCode("-..") && Follow(Root, "-..").symbol == Char('D')
  {
  }

  lemma DecodesE()
    ensures IsCode(".") && Follow(Root, ".").symbol == Char('E')
  {
  }

  lemma DecodesF()
    ensures IsCode("..-.") && Follow(Root, "..-.").symbol == Char('F')
  {
  }

  lemma DecodesG()
    ensures IsCode("--.") && Follow(Root, "--.").symbol == Char('G')
  {
  }

  lemma DecodesH()
    ensures IsCode("....") && Follow(Root, "....").symbol == Char('H')
  {
  }

  lemma DecodesI()
    ensures IsCode("..") && Follow(Root, "..").symbol == Char('I')
  {
  }

  lemma DecodesJ()
    ensures IsCode(".---") && Follow(Root, ".---").symbol == Char('J')
  {
  }

  lemma DecodesK()
    ensures IsCode("-.-") && Follow(Root, "-.-").symbol == Char('K')
  {
  }

  lemma DecodesL()
    ensures IsCode(".-..") && Follow(Root, ".-..").symbol == Char('L')
  {
  }

  lemma DecodesM()
    ensures IsCode("--") && Follow(Root, "--").symbol == Char('M')
  {
  }

  lemma DecodesN()
    ensures IsCode("-.") && Follow(Root, "-.").symbol == Char('N')
  {
  }

  lemma DecodesO()
    ensures IsCode("---") && Follow(Root, "---").symbol == Char('O')
  {
  }

  lemma DecodesP()
    ensures IsCode(".--.") && Follow(Root, ".--.").symbol == Char('P')
  {
  }

  lemma DecodesQ()
    ensures IsCode("--.-") && Follow(Root, "--.-").symbol == Char('Q')
  {
  }

  lemma DecodesR()
    ensures IsCode(".-.") && Follow(Root, ".-.").symbol == Char('R')
  {
  }

  lemma DecodesS()
    ensures IsCode("...") && Follow(Root, "...").symbol == Char('S')
  {
  }

  lemma DecodesT()
    ensures IsCode("-") && Follow(Root, "-").symbol == Char('T')
  {
  }

  lemma DecodesU()
    ensures IsCode("..-") && Follow(Root, "..-").symbol == Char('U')
  {
  }

  lemma DecodesV()
    ensures IsCode("...-") && Follow(Root, "...-").symbol == Char('V')
  {
  }

  lemma DecodesW()
    ensures IsCode(".--") && Follow(Root, ".--").symbol == Char('W')
  {
  }

  lemma DecodesX()
    ensures IsCode("-..-") && Follow(Root, "-..-").symbol == Char('X')
  {
  }

  lemma DecodesY()
    ensures IsCode("-.--") && Follow(Root, "-.--").symbol == Char('Y')
  {
  }

  lemma DecodesZ()
    ensures IsCode("--..") && Follow(Root, "--..").symbol == Char('Z')
  {
  }

  /** Walking a letter's ITU code from the root reaches that letter. */
  lemma DecodeTable(c: char)
    requires IsLetter(c)
    ensures ItuCode(c).Some? && IsCode(ItuCode(c).value) && Follow(Root, ItuCode(c).value).symbol == Char(c)
  {
    if c == 'A' {
      DecodesA();
    } else if c == 'B' {
      DecodesB();
    } else if c == 'C' {
      DecodesC();
    } else if c == 'D' {
      DecodesD();
    } else if c == 'E' {
      DecodesE();
    } else if c == 'F' {
      DecodesF();
    } else if c == 'G' {
      DecodesG();
    } else if c == 'H' {
      DecodesH();
    } else if c == 'I' {
      DecodesI();
    } else if c == 'J' {
      DecodesJ();
    } else if c == 'K' {
      DecodesK();
    } else if c == 'L' {
      DecodesL();
    } else if c == 'M' {
      DecodesM();
    } else if c == 'N' {
      DecodesN();
    } else if c == 'O' {
      DecodesO();
    } else if c == 'P' {
      DecodesP();
    } else if c == 'Q' {
      DecodesQ();
    } else if c == 'R' {
      DecodesR();
    } else if c == 'S' {
      DecodesS();
    } else if c == 'T' {
      DecodesT();
    } else if c == 'U' {
      DecodesU();
    } else if c == 'V' {
      DecodesV();
    } else if c == 'W' {
      DecodesW();
    } else if c == 'X' {
      DecodesX();
    } else if c == 'Y' {
      DecodesY();
    } else {
      DecodesZ();
    }
  }

  /** For every letter, the encoder's search finds exactly its ITU code. */
  lemma LocateTable(c: char)
    requires IsLetter(c)
    ensures Locate(c, Root).Some? && Locate(c, Root) == ItuCode(c)
  {
    DecodeTable(c);
    assert Built(Root);
    LocateComplete(c, Root, ItuCode(c).value);
    LocateSound(c, Root);
    OnlyAtRoot(Locate(c, Root).value, c);
    assert "" + Locate(c, Root).value == Locate(c, Root).value;
  }

  /** Apart from the blank, only a letter can be located in the tree. */
  lemma LocateOnlyLetters(c: char)
    requires c != ' '
    ensures Locate(c, Root).Some? ==> IsLetter(c)
  {
    if Locate(c, Root).Some? {
      LocateSound(c, Root);
      OnlyAtRoot(Locate(c, Root).value, c);
      ItuLetters(c);
    }
  }

  /** The ITU table covers exactly the 26 capital letters. */
  lemma ItuLetters(c: char)
    ensures ItuCode(c).Some? <==> IsLetter(c)
  {
  }

  /**
   * `encode` answers a space for a space, the ITU code for a capital letter
   * and nothing for any other character.
   */
  lemma EncodeCharTable(c: char)
    ensures EncodeChar(c) == if c == ' ' then Some(" ") else ItuCode(c)
  {
    if c != ' ' {
      SearchLocate(c, Root, "");
      if IsLetter(c) {
        LocateTable(c);
        assert "" + ItuCode(c).value == ItuCode(c).value;
      } else {
        LocateOnlyLetters(c);
        ItuLetters(c);
      }
    }
  }

  // ---------------------------------------------------------------------
  // Encoding, then decoding

  /** The characters `MorseClient.encode` accepts: capital letters and the space. */
  predicate Encodable(c: char)
  {
    c == ' ' || IsLetter(c)
  }

  /** Encoding fails exactly when the message holds a character outside the tree. */
  lemma {:induction false} EncodingSucceeds(m: string)
    ensures Encoding(m).Ok? <==> forall i | 0 <= i < |m| :: Encodable(m[i])
    decreases |m|
  {
    if |m| > 0 {
      EncodeCharTable(m[0]);
      ItuLetters(m[0]);
      EncodingSucceeds(m[1..]);
      assert forall i | 0 < i < |m| :: m[i] == m[1..][i - 1];
    }
  }

  /** A letter's code walks to the letter; the separator that follows then emits it. */
  lemma LetterScan(c: char, t: string)
    requires IsLetter(c) && (t == [] || t[0] == ' ')
    ensures EncodeChar(c).Some? && |EncodeChar(c).value| > 0 && EncodeChar(c).value[0] != ' '
    ensures Interpretation(Root, EncodeChar(c).value + t) == Ok(Scan([c], AfterGap(t)))
  {
    EncodeCharTable(c);
    DecodeTable(c);
    InterpretWalk(Root, ItuCode(c).value, t);
  }

  /** At the root a space emits the root's blank character. */
  lemma SpaceScan(t: string)
    requires |t| > 0 && t[0] == ' '
    ensures Interpretation(Root, t) == Ok(Scan(" ", AfterGap(t)))
  {
  }

  /** The Morse text of a message that starts with a letter starts with a dot or a dash. */
  lemma LetterFirst(m: string)
    requires |m| > 0 && IsLetter(m[0]) && Encoding(m).Ok?
    ensures |Encoding(m).value| > 0 && Encoding(m).value[0] != ' '
  {
    LetterScan(m[0], []);
    var code := EncodeChar(m[0]).value;
    assert Encoding(m[1..]).Ok?;
    EncodeCons(m);
    var tail := (if |m| > 1 then " " else "") + Encoding(m[1..]).value;
    HeadOfJoin(code, tail);
  }

  /** A non-empty front decides the first character of a concatenation. */
  lemma HeadOfJoin(code: string, tail: string)
    requires |code| > 0
    ensures |code + tail| > 0 && (code + tail)[0] == code[0]
  {
  }

  /** A scan from the root followed by the decoding of what it leaves. */
  lemma ScanThen(m: string, emitted: string, rest: string, x: string)
    requires |m| > 0 && Interpretation(Root, m) == Ok(Scan(emitted, rest)) && Decoding(rest) == Ok(x)
    ensures Decoding(m) == Ok(emitted + x)
  {
  }

  /** The first character's code, its separator, then the Morse text of the rest. */
  lemma EncodeCons(m: string)
    requires |m| > 0 && EncodeChar(m[0]).Some? && Encoding(m[1..]).Ok?
    ensures Encoding(m) == Ok(EncodeChar(m[0]).value + ((if |m| > 1 then " " else "") + Encoding(m[1..]).value))
  {
    var sep := if |m| > 1 then " " else "";
    assert EncodeChar(m[0]).value + sep + Encoding(m[1..]).value
      == EncodeChar(m[0]).value + (sep + Encoding(m[1..]).value);
  }

  /** A message is its first character in front of the rest. */
  lemma Split(m: string)
    requires |m| > 0
    ensures [m[0]] + m[1..] == m
  {
  }

  lemma EncodableTail(m: string)
    requires |m| > 0 && forall i | 0 <= i < |m| :: Encodable(m[i])
    ensures forall i | 0 <= i < |m[1..]| :: Encodable(m[1..][i])
  {
    assert forall i | 0 <= i < |m[1..]| :: m[1..][i] == m[i + 1];
  }

  /** A single space is encoded as itself and decoded as itself. */
  lemma LoneSpace()
    ensures Encoding(" ") == Ok(" ") && Decoding(" ") == Ok(" ")
  {
    EncodeCharTable(' ');
    assert " "[1..] == [];
    EncodeCons(" ");
    assert " " + ("" + "") == " ";
    SpaceScan(" ");
    assert AfterGap(" ") == [];
    ScanThen(" ", " ", [], "");
    assert " " + "" == " ";
  }

  /** After one space in front of a letter's code, the code is what is left. */
  lemma AfterSpace(er: string)
    requires |er| > 0 && er[0] != ' '
    ensures AfterGap(" " + er) == er
  {
    assert !WordGap(" " + er) by { assert (" " + er)[1] == er[0]; }
  }

  /** Of a word separator, two spaces are consumed. */
  lemma AfterWordGap(e: string)
    ensures AfterGap("   " + e) == " " + e
  {
    assert ("   " + e)[..3] == "   ";
    assert ("   " + e)[2..] == " " + e;
  }

  /** A letter's code with nothing behind it. */
  lemma {:induction false} LetterAlone(m: string)
    requires |m| == 1 && IsLetter(m[0])
    ensures Encoding(m).Ok? && Decoding(Encoding(m).value) == Ok(m)
  {
    LetterScan(m[0], []);
    var code := EncodeChar(m[0]).value;
    assert m[1..] == [];
    EncodeCons(m);
    assert code + ("" + "") == code + [];
    ScanThen(code, [m[0]], [], "");
    assert [m[0]] + "" == m;
  }

  /** A letter followed by a message that starts with a letter: one space between them. */
  lemma {:induction false} LetterLetter(m: string)
    requires |m| >= 2 && IsLetter(m[0]) && IsLetter(m[1]) && forall i | 0 <= i < |m| :: Encodable(m[i])
    ensures Encoding(m).Ok? && Decoding(Encoding(m).value) == Ok(m)
    decreases |m|, 0
  {
    var rest := m[1..];
    EncodableTail(m);
    RoundTripLetter(rest);
    LetterFirst(rest);
    var er := Encoding(rest).value;
    AfterSpace(er);
    LetterScan(m[0], " " + er);
    var code := EncodeChar(m[0]).value;
    EncodeCons(m);
    ScanThen(code + (" " + er), [m[0]], er, rest);
    Split(m);
  }

  /** A letter followed by one space at the end: the two spaces leave one for the root. */
  lemma {:induction false} LetterSpaceEnd(m: string)
    requires |m| == 2 && IsLetter(m[0]) && m[1] == ' '
    ensures Encoding(m).Ok? && Decoding(Encoding(m).value) == Ok(m)
  {
    assert m[1..] == " ";
    LoneSpace();
    LetterScan(m[0], "  ");
    var code := EncodeChar(m[0]).value;
    EncodeCons(m);
    assert " " + " " == "  ";
    assert AfterGap("  ") == " ";
    ScanThen(code + "  ", [m[0]], " ", " ");
    assert [m[0]] + " " == m;
  }

  /** A letter, a space and more: a word separator of three spaces follows the code. */
  lemma {:induction false} LetterGap(m: string)
    requires |m| >= 3 && IsLetter(m[0]) && m[1] == ' ' && forall i | 0 <= i < |m| :: Encodable(m[i])
    ensures Encoding(m).Ok? && Decoding(Encoding(m).value) == Ok(m)
    decreases |m|, 0
  {
    var rest := m[1..];
    EncodableTail(m);
    var r2 := rest[1..];
    EncodableTail(rest);
    EncodingSucceeds(r2);
    var e2 := Encoding(r2).value;
    EncodeCharTable(' ');
    EncodeCons(rest);
    assert Encoding(rest) == Ok(" " + (" " + e2));
    LetterScan(m[0], " " + (" " + (" " + e2)));
    var code := EncodeChar(m[0]).value;
    EncodeCons(m);
    assert " " + (" " + (" " + e2)) == "   " + e2;
    AfterWordGap(e2);
    RoundTripSpaced(r2);
    ScanThen(code + ("   " + e2), [m[0]], " " + e2, " " + r2);
    Split(m);
    Split(rest);
  }

  /**
   * Round trip for a message that starts with a letter: one space after a
   * letter's code is consumed there, three are split into the letter's two
   * and a blank from the root.
   */
  lemma {:induction false} RoundTripLetter(m: string)
    requires |m| > 0 && IsLetter(m[0]) && forall i | 0 <= i < |m| :: Encodable(m[i])
    ensures Encoding(m).Ok? && Decoding(Encoding(m).value) == Ok(m)
    decreases |m|, 1
  {
    if |m| == 1 {
      LetterAlone(m);
    } else if IsLetter(m[1]) {
      LetterLetter(m);
    } else if |m| == 2 {
      LetterSpaceEnd(m);
    } else {
      LetterGap(m);
    }
  }

  /** Behind a space, a message that starts with a letter: the space emits the root's blank. */
  lemma {:induction false} SpacedLetter(r: string)
    requires |r| > 0 && IsLetter(r[0]) && forall i | 0 <= i < |r| :: Encodable(r[i])
    ensures Encoding(r).Ok? && Decoding(" " + Encoding(r).value) == Ok(" " + r)
    decreases |r|, 2
  {
    RoundTripLetter(r);
    LetterFirst(r);
    var er := Encoding(r).value;
    AfterSpace(er);
    SpaceScan(" " + er);
    ScanThen(" " + er, " ", er, r);
  }

  /** Behind a space, one more space at the end. */
  lemma SpacedSpaceEnd(r: string)
    requires r == " "
    ensures Encoding(r).Ok? && Decoding(" " + Encoding(r).value) == Ok(" " + r)
  {
    LoneSpace();
    assert " " + " " == "  ";
    SpaceScan("  ");
    assert AfterGap("  ") == " ";
    ScanThen("  ", " ", " ", " ");
  }

  /** Behind a space, a space and more: a word separator. */
  lemma {:induction false} SpacedGap(r: string)
    requires |r| >= 2 && r[0] == ' ' && forall i | 0 <= i < |r| :: Encodable(r[i])
    ensures Encoding(r).Ok? && Decoding(" " + Encoding(r).value) == Ok(" " + r)
    decreases |r|, 0
  {
    var r1 := r[1..];
    EncodableTail(r);
    EncodingSucceeds(r1);
    var e1 := Encoding(r1).value;
    EncodeCharTable(' ');
    EncodeCons(r);
    var t := " " + Encoding(r).value;
    assert t == "   " + e1;
    SpaceScan(t);
    AfterWordGap(e1);
    RoundTripSpaced(r1);
    ScanThen(t, " ", " " + e1, " " + r1);
    Split(r);
  }

  /** Round trip behind a space: a space followed by the Morse text of any message. */
  lemma {:induction false} RoundTripSpaced(r: string)
    requires |r| > 0 && forall i | 0 <= i < |r| :: Encodable(r[i])
    ensures Encoding(r).Ok? && Decoding(" " + Encoding(r).value) == Ok(" " + r)
    decreases |r|, 3
  {
    if IsLetter(r[0]) {
      SpacedLetter(r);
    } else if |r| == 1 {
      SpacedSpaceEnd(r);
    } else {
      SpacedGap(r);
    }
  }

  /**
   * Decoding undoes encoding for every message of capital letters and
   * spaces that does not start with a space, whatever the runs of spaces
   * inside it or at its end.
   */
  lemma RoundTrip(m: string)
    requires forall i | 0 <= i < |m| :: Encodable(m[i])
    requires m == [] || m[0] != ' '
    ensures Encoding(m).Ok? && Decoding(Encoding(m).value) == Ok(m)
  {
    if m != [] {
      RoundTripLetter(m);
    }
  }

  // ---------------------------------------------------------------------
  // The messages of the test suite

  /** The Morse text of a message written with the ITU table instead of the tree search. */
  function TableEncoding(m: string): Result<string, MorseError>
    decreases |m|
  {
    if |m| == 0 then Ok("")
    else match Symbol(m[0])
      case None => Err(SyntaxError)
      case Some(code) => Prefix(code + (if |m| > 1 then " " else ""), TableEncoding(m[1..]))
  }

  /** `MorseClient.encode` writes every message as the ITU table does. */
  lemma {:induction false} EncodingIsTable(m: string)
    ensures Encoding(m) == TableEncoding(m)
    decreases |m|
  {
    if |m| > 0 {
      EncodeCharTable(m[0]);
      EncodingIsTable(m[1..]);
    }
  }

  /** The table's code for one character: a space for the space, the ITU code for a letter. */
  function Symbol(c: char): Option<string>
  {
    if c == ' ' then Some(" ") else ItuCode(c)
  }

  /** The first character's code, its separator, then the table encoding of the rest. */
  lemma TableCons(w: string, code: string, x: string)
    requires |w| > 0 && Symbol(w[0]) == Some(code) && TableEncoding(w[1..]) == Ok(x)
    ensures TableEncoding(w) == Ok(code + (if |w| > 1 then " " else "") + x)
  {
  }

  /** A single character is encoded by its code alone. */
  lemma TableOne(c: char, code: string)
    requires Symbol(c) == Some(code)
    ensures TableEncoding([c]) == Ok(code)
  {
    assert [c][0] == c && [c][1..] == [];
    TableCons([c], code, "");
    assert code + "" + "" == code;
  }

  /** Two nonempty messages side by side: their encodings with one space between. */
  lemma {:induction false} TableJoin(a: string, b: string, x: string, y: string)
    requires |a| > 0 && |b| > 0 && TableEncoding(a) == Ok(x) && TableEncoding(b) == Ok(y)
    ensures TableEncoding(a + b) == Ok(x + " " + y)
    decreases |a|
  {
    if |a| == 1 {
      TableJoinOne(a, b, x, y);
    } else {
      var a0 := Symbol(a[0]).value;
      var x' := TableEncoding(a[1..]).value;
      TableCons(a, a0, x');
      TableJoin(a[1..], b, x', y);
      assert (a + b)[0] == a[0] && (a + b)[1..] == a[1..] + b;
      TableCons(a + b, a0, x' + " " + y);
      assert a0 + " " + (x' + " " + y) == x + " " + y;
    }
  }

  lemma TableJoinOne(a: string, b: string, x: string, y: string)
    requires |a| == 1 && |b| > 0 && TableEncoding(a) == Ok(x) && TableEncoding(b) == Ok(y)
    ensures TableEncoding(a + b) == Ok(x + " " + y)
  {
    var a0 := Symbol(a[0]).value;
    assert a[1..] == [];
    TableCons(a, a0, "");
    assert (a + b)[0] == a[0] && (a + b)[1..] == b;
    assert a0 + "" + "" == a0;
    assert x == a0;
    assert |a + b| > 1;
    TableCons(a + b, a0, y);
  }

  /** Two words with a space between: their encodings with a word separator of three spaces. */
  lemma WordJoin(a: string, b: string, x: string, y: string)
    requires |a| > 0 && |b| > 0 && TableEncoding(a) == Ok(x) && TableEncoding(b) == Ok(y)
    ensures TableEncoding(a + " " + b) == Ok(x + "   " + y)
  {
    TableOne(' ', " ");
    TableJoin(a, " ", x, " ");
    TableJoin(a + " ", b, x + " " + " ", y);
    SpacesAfter(x);
  }

  /** Three single spaces after a text are the word separator after it. */
  lemma SpacesAfter(x: string)
    ensures x + " " + " " + " " == x + "   "
  {
    assert " " + " " + " " == "   ";
    assert x + " " + " " + " " == x + (" " + " " + " ");
  }

  /** Every character of two words and the space between them is encodable. */
  lemma EncodableJoin(a: string, b: string)
    requires forall i | 0 <= i < |a| :: Encodable(a[i])
    requires forall i | 0 <= i < |b| :: Encodable(b[i])
    ensures forall i | 0 <= i < |a + " " + b| :: Encodable((a + " " + b)[i])
  {
    var m := a + " " + b;
    forall i | 0 <= i < |m| ensures Encodable(m[i]) {
      if i < |a| {
        assert m[i] == a[i];
      } else if i > |a| {
        assert m[i] == b[i - |a| - 1];
      }
    }
  }

  /** The table encoding of "SOS". */
  lemma SosTable()
    ensures TableEncoding("SOS") == Ok("... --- ...")
  {
    TableOne('S', "...");
    TableOne('O', "---");
    TableJoin("S", "O", "...", "---");
    assert "S" + "O" == "SO" && "..." + " " + "---" == "... ---";
    TableJoin("SO", "S", "... ---", "...");
    assert "SO" + "S" == "SOS" && "... ---" + " " + "..." == "... --- ...";
  }

  /** `encode('SOS')` and the decoding of its result. */
  lemma SosMessage()
    ensures Encoding("SOS") == Ok("... --- ...")
    ensures Decoding("... --- ...") == Ok("SOS")
  {
    SosTable();
    EncodingIsTable("SOS");
    RoundTrip("SOS");
  }

  /** The table encodings of the words "KA" and "DE". */
  lemma KaDeTables()
    ensures TableEncoding("KA") == Ok("-.- .-")
    ensures TableEncoding("DE") == Ok("-.. .")
  {
    TableOne('K', "-.-");
    TableOne('A', ".-");
    TableJoin("K", "A", "-.-", ".-");
    assert "K" + "A" == "KA" && "-.-" + " " + ".-" == "-.- .-";
    TableOne('D', "-..");
    TableOne('E', ".");
    TableJoin("D", "E", "-..", ".");
    assert "D" + "E" == "DE" && "-.." + " " + "." == "-.. .";
  }

  /** The table encoding of the first half of the word "RCAVAZ". */
  lemma RcaTable()
    ensures TableEncoding("RCA") == Ok(".-. -.-. .-")
  {
    TableOne('R', ".-.");
    TableOne('C', "-.-.");
    TableOne('A', ".-");
    TableJoin("R", "C", ".-.", "-.-.");
    assert "R" + "C" == "RC" && ".-." + " " + "-.-." == ".-. -.-.";
    TableJoin("RC", "A", ".-. -.-.", ".-");
    assert "RC" + "A" == "RCA" && ".-. -.-." + " " + ".-" == ".-. -.-. .-";
  }

  /** The table encoding of the second half of the word "RCAVAZ". */
  lemma VazTable()
    ensures TableEncoding("VAZ") == Ok("...- .- --..")
  {
    TableOne('A', ".-");
    TableOne('V', "...-");
    TableOne('Z', "--..");
    TableJoin("V", "A", "...-", ".-");
    assert "V" + "A" == "VA" && "...-" + " " + ".-" == "...- .-";
    TableJoin("VA", "Z", "...- .-", "--..");
    assert "VA" + "Z" == "VAZ" && "...- .-" + " " + "--.." == "...- .- --..";
  }

  /** The table encoding of the word "RCAVAZ". */
  lemma RcavazTable()
    ensures TableEncoding("RCAVAZ") == Ok(".-. -.-. .- ...- .- --..")
  {
    RcaTable();
    VazTable();
    TableJoin("RCA", "VAZ", ".-. -.-. .-", "...- .- --..");
    assert "RCA" + "VAZ" == "RCAVAZ";
    assert ".-. -.-. .-" + " " + "...- .- --.." == ".-. -.-. .- ...- .- --..";
  }

  /**
   * `encode('KA DE RCAVAZ')` and the decoding of its result, written word by
   * word: the expected text of the test is "-.- .-   -.. .   .-. -.-. .- ...- .- --..".
   */
  lemma KaDeMessage()
    ensures Encoding("KA" + " " + "DE" + " " + "RCAVAZ") == Ok("-.- .-" + "   " + "-.. ." + "   " + ".-. -.-. .- ...- .- --..")
    ensures Decoding("-.- .-" + "   " + "-.. ." + "   " + ".-. -.-. .- ...- .- --..") == Ok("KA" + " " + "DE" + " " + "RCAVAZ")
  {
    KaDeTables();
    RcavazTable();
    WordJoin("KA", "DE", "-.- .-", "-.. .");
    WordJoin("KA" + " " + "DE", "RCAVAZ", "-.- .-" + "   " + "-.. .", ".-. -.-. .- ...- .- --..");
    var m := "KA" + " " + "DE" + " " + "RCAVAZ";
    EncodingIsTable(m);
    EncodableJoin("KA", "DE");
    EncodableJoin("KA" + " " + "DE", "RCAVAZ");
    assert m[0] == 'K';
    RoundTrip(m);
  }

  /** A dot/dash path that leaves the tree decodes to the unknown marker. */
  lemma OffTheTree()
    ensures Decoding("..--") == Ok("<?>")
  {
    assert IsCode("..--");
    InterpretWalk(Root, "..--", "");
    assert "..--" + "" == "..--";
    assert Follow(Root, "..--") == Missing;
    ScanThen("..--", "<?>", "", "");
    assert "<?>" + "" == "<?>";
  }

  /** The code of `E` on its own. */
  lemma LoneE()
    ensures Decoding(".") == Ok("E")
  {
    assert IsCode(".");
    InterpretWalk(Root, ".", "");
    assert "." + "" == ".";
    ScanThen(".", "E", [], "");
    assert "E" + "" == "E";
  }

  /**
   * Why `RoundTrip` excludes a leading space: the space's code and its
   * separator are two spaces, which decode as two blanks.
   */
  lemma LeadingSpace()
    ensures Encoding(" E") == Ok("  .") && Decoding("  .") == Ok("  E")
  {
    TableOne(' ', " ");
    TableOne('E', ".");
    TableJoin(" ", "E", " ", ".");
    assert " " + "E" == " E" && " " + " " + "." == "  .";
    EncodingIsTable(" E");
    BlanksBeforeE();
  }

  /** Two spaces before the code of `E`: each emits the root's blank. */
  lemma BlanksBeforeE()
    ensures Decoding("  .") == Ok("  E")
  {
    LoneE();
    AfterSpace(".");
    BlankBefore(".", "E");
    assert " " + "." == " ." && " " + "E" == " E";
    assert AfterGap("  .") == " ." by {
      assert "  ."[..3][2] == '.';
    }
    assert " " + " ." == "  .";
    BlankBefore(" .", " E");
    assert " " + " E" == "  E";
  }

  /** A space the root reads as a single separator emits the root's blank in front of the rest's decoding. */
  lemma BlankBefore(m: string, x: string)
    requires AfterGap(" " + m) == m && Decoding(m) == Ok(x)
    ensures Decoding(" " + m) == Ok(" " + x)
  {
    SpaceScan(" " + m);
    ScanThen(" " + m, " ", m, x);
  }
}
