/**
 * The calculator Interpreter demo: an expression string is cut into digit
 * runs and operator characters, the digit runs become numbers, every
 * innermost parenthesised group is collapsed into one subtree, and the
 * operators are then combined in the fixed order '*', '/', '+', '-', each
 * pass going left to right. The resulting tree is interpreted recursively.
 */
module Calc {
  import opened Outcomes

  /** The four `MathExpression` subclasses. */
  datatype Operator = Times | Divide | Plus | Minus

  /**
   * An entry of the context's list: a string left by the tokenizer (a digit
   * run or a one-character symbol), a `NumericExpression`, or a
   * `MathExpression` over two entries.
   */
  datatype Item =
    | Digits(text: string)
    | Sym(symbol: char)
    | Number(value: int)
    | Binary(op: Operator, a: Item, b: Item)

  /** The exceptions that can escape, with the one case where the source never returns. */
  datatype CalcError =
    | IndexError      // a list index out of range
    | NotAnExpression // `interpret` called on a string left in the tree
    | TrueDivision    // `/` yields a float, outside this integer model
    | Unbalanced      // a '(' with no ')' after it: `__parse_operations` loops forever

  /** The character that names the operator in the expression. */
  function Symbol(op: Operator): char
  {
    match op
    case Times => '*'
    case Divide => '/'
    case Plus => '+'
    case Minus => '-'
  }

  const Open: Item := Sym('(')
  const Close: Item := Sym(')')

  /** The order in which `__build_tree` combines the operators. */
  const Order: seq<Operator> := [Times, Divide, Plus, Minus]

  // ---------------------------------------------------------------------
  // The tokenizer of `Context`

  predicate IsDigit(c: char)
  {
    '0' <= c <= '9'
  }

  /** The single characters the tokenizer keeps: the four operators and the parentheses. */
  predicate IsSymbol(c: char)
  {
    c == '*' || c == '/' || c == '+' || c == '-' || c == '(' || c == ')'
  }

  /** The length of the digit run at the start of `s`. */
  function DigitRun(s: string): (k: nat)
    ensures k <= |s|
    ensures forall i | 0 <= i < k :: IsDigit(s[i])
    ensures k == |s| || !IsDigit(s[k])
  {
    if |s| > 0 && IsDigit(s[0]) then 1 + DigitRun(s[1..]) else 0
  }

  /**
   * `re.findall(r'(?:[0-9]+)|(?:\*|/|\+|-|\(|\))', expression)`: maximal
   * digit runs and single operator or parenthesis characters, in order;
   * every other character is skipped.
   */
  function Tokenize(s: string): (r: seq<Item>)
    ensures |r| <= |s|
    ensures forall k | 0 <= k < |r| :: IsToken(r[k])
    decreases |s|
  {
    if s == [] then []
    else if IsDigit(s[0]) then
      var k := DigitRun(s);
      [Digits(s[..k])] + Tokenize(s[k..])
    else if IsSymbol(s[0]) then [Sym(s[0])] + Tokenize(s[1..])
    else Tokenize(s[1..])
  }

  /** The characters of `s` the tokenizer keeps, in order. */
  function Kept(s: string): string
  {
    if s == [] then []
    else if IsDigit(s[0]) || IsSymbol(s[0]) then [s[0]] + Kept(s[1..])
    else Kept(s[1..])
  }

  /** A token as the tokenizer makes them: a non-empty digit run, or one kept symbol. */
  predicate IsToken(x: Item)
  {
    (x.Digits? && IsNumeral(x.text)) || (x.Sym? && IsSymbol(x.symbol))
  }

  /** What `int` accepts among the tokens: a non-empty run of decimal digits. */
  predicate IsNumeral(t: string)
  {
    |t| > 0 && forall i | 0 <= i < |t| :: IsDigit(t[i])
  }

  /** The tokens' texts, one after the other. */
  function Render(ts: seq<Item>): string
  {
    if ts == [] then []
    else
      match ts[0]
      case Digits(t) => t + Render(ts[1..])
      case Sym(c) => [c] + Render(ts[1..])
      case _ => Render(ts[1..])
  }

  /** A run of digits is kept whole. */
  lemma {:induction false} KeptDigits(s: string, k: nat)
    requires k <= |s| && forall i | 0 <= i < k :: IsDigit(s[i])
    ensures Kept(s) == s[..k] + Kept(s[k..])
    decreases k
  {
    if k > 0 {
      assert IsDigit(s[0]);
      KeptDigits(s[1..], k - 1);
      assert s[1..][..k - 1] == s[1..k] && s[1..][k - 1..] == s[k..];
      assert s[..k] == [s[0]] + s[1..k];
    }
  }

  /**
   * The tokenizer loses nothing it keeps and invents nothing: the tokens'
   * texts spell the kept characters in order.
   */
  lemma {:induction false} TokenizeKept(s: string)
    ensures Render(Tokenize(s)) == Kept(s)
    decreases |s|
  {
    if s != [] {
      if IsDigit(s[0]) {
        var k := DigitRun(s);
        var x := Digits(s[..k]);
        var rest := Tokenize(s[k..]);
        TokenizeKept(s[k..]);
        KeptDigits(s, k);
        assert ([x] + rest)[0] == x && ([x] + rest)[1..] == rest;
        assert IsToken(x);
      } else if IsSymbol(s[0]) {
        var x := Sym(s[0]);
        var rest := Tokenize(s[1..]);
        TokenizeKept(s[1..]);
        assert ([x] + rest)[0] == x && ([x] + rest)[1..] == rest;
      } else {
        TokenizeKept(s[1..]);
      }
    }
  }

  // ---------------------------------------------------------------------
  // `__parse_numbers`

  /** `int(text)` for a run of decimal digits. */
  function DecimalValue(t: string): nat
    requires forall i | 0 <= i < |t| :: IsDigit(t[i])
  {
    if t == [] then 0
    else
      assert IsDigit(t[|t| - 1]);
      10 * DecimalValue(t[..|t| - 1]) + (t[|t| - 1] as int - '0' as int)
  }

  /** `NumericExpression(c[i])`: a digit token becomes a number; `int` of anything else fails and the entry stays. */
  function Numeral(x: Item): Item
  {
    if x.Digits? && IsNumeral(x.text) then Number(DecimalValue(x.text)) else x
  }

  function Numbers(c: seq<Item>): (r: seq<Item>)
    ensures |r| == |c| && forall i | 0 <= i < |c| :: r[i] == Numeral(c[i])
  {
    seq(|c|, i requires 0 <= i < |c| => Numeral(c[i]))
  }

  /**
   * `__parse_numbers`: `int` of an operator or parenthesis token raises
   * `ValueError`, which the loop catches, so after it the tokenizer's list
   * holds only numbers, and the operator and parenthesis tokens in their places.
   */
  lemma NumbersOfTokens(s: string)
    ensures var c := Tokenize(s); var d := Numbers(c);
      |d| == |c| && forall k | 0 <= k < |d| :: d[k].Number? || (d[k].Sym? && d[k] == c[k])
  {
    var c := Tokenize(s);
    assert forall k | 0 <= k < |c| :: IsToken(c[k]);
  }

  // ---------------------------------------------------------------------
  // `__build_tree`

  /** `list.index(x)`: the first position of `x`. */
  function IndexOf(c: seq<Item>, x: Item): (i: nat)
    requires x in c
    ensures i < |c| && c[i] == x && forall j | 0 <= j < i :: c[j] != x
  {
    if c[0] == x then 0 else 1 + IndexOf(c[1..], x)
  }

  /**
   * One combination at the operator found at `i`: the entries at `i - 1`
   * and `i + 1` become the operands, the result is stored at `i - 1` and
   * `del context[i:i+2]` removes the operator and the right operand. As in
   * Python, position `-1` is the last entry, and `context[i + 1]` past the
   * end raises `IndexError`.
   */
  function Combine(c: seq<Item>, i: nat, op: Operator): (r: Result<seq<Item>, CalcError>)
    requires i < |c|
    ensures r.Err? <==> i + 1 == |c|
    ensures r.Ok? ==> |r.value| == |c| - 2
  {
    if i + 1 == |c| then Err(IndexError)
    else
      var a := if i == 0 then |c| - 1 else i - 1;
      var u := c[a := Binary(op, c[a], c[i + 1])];
      Ok(u[..i] + u[i + 2..])
  }

  /** The token of an operator. */
  function OpToken(op: Operator): Item
  {
    Sym(Symbol(op))
  }

  /** The `while len(context) > 1` loop for one operator: combine at its first occurrence until none is left. */
  function Pass(c: seq<Item>, op: Operator): (r: Result<seq<Item>, CalcError>)
    ensures r.Ok? ==> |r.value| <= |c| && (|r.value| <= 1 || OpToken(op) !in r.value)
    ensures r.Err? ==> r.error == IndexError
    decreases |c|
  {
    if |c| <= 1 || OpToken(op) !in c then Ok(c)
    else
      match Combine(c, IndexOf(c, OpToken(op)), op)
      case Err(e) => Err(e)
      case Ok(d) => Pass(d, op)
  }

  /** The passes for the operators of `ops`, one after the other. */
  function Passes(c: seq<Item>, ops: seq<Operator>): (r: Result<seq<Item>, CalcError>)
    ensures r.Ok? ==> |r.value| <= |c|
    ensures r.Err? ==> r.error == IndexError
    decreases |ops|
  {
    if ops == [] then Ok(c)
    else
      match Pass(c, ops[0])
      case Err(e) => Err(e)
      case Ok(d) => Passes(d, ops[1..])
  }

  /**
   * `__build_tree`: the list once every pass is done, which must hold an
   * entry for `return context[0]`.
   */
  function Reduced(c: seq<Item>): (r: Result<seq<Item>, CalcError>)
    ensures r.Ok? ==> 0 < |r.value| <= |c|
    ensures r.Err? ==> r.error == IndexError
  {
    match Passes(c, Order)
    case Err(e) => Err(e)
    case Ok(d) => if |d| == 0 then Err(IndexError) else Ok(d)
  }

  /** The tree `__build_tree` returns; a list of one entry is its own tree. */
  function TreeOf(c: seq<Item>): (r: Result<Item, CalcError>)
    ensures c == [] ==> r == Err(IndexError)
    ensures |c| == 1 ==> r == Ok(c[0])
    ensures r.Err? ==> r.error == IndexError
  {
    match Reduced(c)
    case Err(e) => Err(e)
    case Ok(d) => Ok(d[0])
  }

  // ---------------------------------------------------------------------
  // `__parse_operations`

  /**
   * The inner scan of `__parse_operations`, at position `i` with `j` the
   * last '(' seen: the first ')' ends the scan, and the group is the one
   * opened by the nearest '(' before it. Neither parenthesis occurs inside
   * the group; with no ')' left there is no group.
   */
  function ScanGroup(c: seq<Item>, i: nat, j: nat): (r: Option<(nat, nat)>)
    requires j < i <= |c| && c[j] == Open
    requires forall m | j < m < i :: c[m] != Open && c[m] != Close
    ensures r.Some? ==> var (g, k) := r.value;
      j <= g < k < |c| && i <= k && c[g] == Open && c[k] == Close
      && forall m | g < m < k :: c[m] != Open && c[m] != Close
    ensures r.Some? ==> forall m | i <= m < r.value.1 :: c[m] != Close
    ensures r.None? ==> forall m | i <= m < |c| :: c[m] != Close
    decreases |c| - i
  {
    if i == |c| then None
    else if c[i] == Open then ScanGroup(c, i + 1, i)
    else if c[i] == Close then Some((j, i))
    else ScanGroup(c, i + 1, j)
  }

  /**
   * `__parse_operations` from list `c`: while a '(' is left, the innermost
   * group found by the scan is built and put in place of the group and its
   * parentheses; a failure while building it falls back (the bare `except`)
   * to building the whole list; with no '(' left the whole list is built.
   */
  /** What one round of `__parse_operations` does with list `c`. */
  datatype Round =
    | Finished                  // no '(' left: build the whole list
    | Stuck                     // a '(' with no ')' after it: the loop never ends
    | Fallback                  // the group failed to build: build the whole list
    | Collapsed(next: seq<Item>) // the group, parentheses included, replaced by its tree

  /** One round of `__parse_operations` on list `c`. */
  function NextRound(c: seq<Item>): (r: Round)
    ensures r.Finished? <==> Open !in c
    ensures r.Collapsed? ==> |r.next| < |c|
  {
    if Open !in c then Finished
    else
      var i := IndexOf(c, Open);
      match ScanGroup(c, i + 1, i)
      case None => Stuck
      case Some(g) =>
        var (j, k) := g;
        match TreeOf(c[j + 1..k])
        case Err(_) => Fallback
        case Ok(t) => Collapsed(c[..j] + [t] + c[k + 1..])
  }

  /** `__parse_operations` from list `c`: rounds until one builds the whole list or gets stuck. */
  function Operations(c: seq<Item>): (r: Result<seq<Item>, CalcError>)
    ensures r.Ok? ==> |r.value| > 0
    ensures r.Err? ==> r.error == IndexError || r.error == Unbalanced
    decreases |c|
  {
    match NextRound(c)
    case Finished => Reduced(c)
    case Stuck => Err(Unbalanced)
    case Fallback => Reduced(c)
    case Collapsed(d) => Operations(d)
  }

  // ---------------------------------------------------------------------
  // `interpret`

  /** A tree `interpret` computes: numbers, joined by '*', '+' and '-'. */
  predicate Computes(x: Item)
  {
    match x
    case Number(_) => true
    case Binary(op, a, b) => op != Divide && Computes(a) && Computes(b)
    case _ => false
  }

  /** The arithmetic of the three integer operators. */
  function Apply(op: Operator, u: int, w: int): int
    requires op != Divide
  {
    match op
    case Times => u * w
    case Plus => u + w
    case Minus => u - w
  }

  /**
   * `interpret` of an entry: numbers are their value, the three integer
   * operators compute; a string left in the tree and '/' fail.
   */
  function Value(x: Item): (r: Result<int, CalcError>)
    ensures r.Ok? <==> Computes(x)
    ensures r.Err? ==> r.error == NotAnExpression || r.error == TrueDivision
  {
    match x
    case Digits(_) => Err(NotAnExpression)
    case Sym(_) => Err(NotAnExpression)
    case Number(v) => Ok(v)
    case Binary(op, a, b) =>
      match Value(a)
      case Err(e) => Err(e)
      case Ok(u) =>
        match Value(b)
        case Err(e) => Err(e)
        case Ok(w) =>
          match op
          case Times => Ok(u * w)
          case Plus => Ok(u + w)
          case Minus => Ok(u - w)
          case Divide => Err(TrueDivision)
  }

  /** The whole pipeline of `Client`: the list it ends with. */
  function Parse(expression: string): Result<seq<Item>, CalcError>
  {
    Operations(Numbers(Tokenize(expression)))
  }

  /** `Client(expression).solve()`: it succeeds exactly when the pipeline leaves a computable tree first. */
  function Solution(expression: string): (r: Result<int, CalcError>)
    ensures r.Ok? <==> Parse(expression).Ok? && Computes(Parse(expression).value[0])
  {
    match Parse(expression)
    case Err(e) => Err(e)
    case Ok(l) => if |l| == 0 then Err(IndexError) else Value(l[0])
  }

  // ---------------------------------------------------------------------
  // The client

  /** An expression that builds a single tree solves to that tree's value. */
  lemma SolutionOfTree(expression: string, t: Item)
    requires Parse(expression) == Ok([t])
    ensures Solution(expression) == Value(t)
  {
  }

  /** With no '(' left, `__parse_operations` builds the whole list. */
  lemma {:induction false} OperationsDone(c: seq<Item>)
    requires Open !in c
    ensures Operations(c) == Reduced(c)
  {
  }

  /** The group `__parse_operations` collapses next, if there is one. */
  function NextGroup(c: seq<Item>): Option<(nat, nat)>
    requires Open in c
  {
    ScanGroup(c, IndexOf(c, Open) + 1, IndexOf(c, Open))
  }

  /** A '(' with no ')' after the first '(': the source loops forever. */
  lemma {:induction false} OperationsUnbalanced(c: seq<Item>)
    requires Open in c && NextGroup(c).None?
    ensures Operations(c) == Err(Unbalanced)
  {
  }

  /** A group that fails to build: the bare `except` builds the whole list. */
  lemma {:induction false} OperationsFallback(c: seq<Item>, j: nat, k: nat)
    requires Open in c && NextGroup(c) == Some((j, k)) && TreeOf(c[j + 1..k]).Err?
    ensures Operations(c) == Reduced(c)
  {
    assert NextRound(c) == Fallback;
  }

  /** A group that builds is replaced by its tree, and the list is shorter. */
  lemma {:induction false} OperationsCollapse(c: seq<Item>, j: nat, k: nat, t: Item)
    requires Open in c && NextGroup(c) == Some((j, k)) && TreeOf(c[j + 1..k]) == Ok(t)
    ensures |c[..j] + [t] + c[k + 1..]| < |c|
    ensures Operations(c) == Operations(c[..j] + [t] + c[k + 1..])
  {
    assert NextRound(c) == Collapsed(c[..j] + [t] + c[k + 1..]);
  }

  /** `Passes` one operator further. */
  lemma PassesSnoc(c: seq<Item>, ops: seq<Operator>, op: Operator)
    ensures Passes(c, ops + [op]) ==
      match Passes(c, ops)
      case Err(e) => Err(e)
      case Ok(d) => Pass(d, op)
    decreases |ops|
  {
    if ops == [] {
      assert ops + [op] == [op];
      assert [op][1..] == [];
    } else {
      assert (ops + [op])[1..] == ops[1..] + [op];
      match Pass(c, ops[0])
      case Err(_) =>
      case Ok(d) => PassesSnoc(d, ops[1..], op);
    }
  }

  /** A pass either stops at its first occurrence of the operator or goes on from the combined list. */
  lemma PassAt(c: seq<Item>, op: Operator, i: nat)
    requires |c| > 1 && OpToken(op) in c && i == IndexOf(c, OpToken(op))
    ensures i < |c|
    ensures i + 1 == |c| ==> Pass(c, op) == Err(IndexError)
    ensures i + 1 < |c| ==> Pass(c, op) == Pass(Combine(c, i, op).value, op)
  {
  }

  /** A failing pass for the operator at position `n` of the order makes the whole build fail. */
  lemma PassFailsAt(context: seq<Item>, n: nat, start: seq<Item>)
    requires n < |Order| && Passes(context, Order[..n]) == Ok(start) && Pass(start, Order[n]) == Err(IndexError)
    ensures Reduced(context) == Err(IndexError) && TreeOf(context) == Err(IndexError)
  {
    PassesSnoc(context, Order[..n], Order[n]);
    assert Order[..n + 1] == Order[..n] + [Order[n]];
    PassesFail(context, Order, n + 1);
  }

  /** A pass that ends extends the passes done so far by one operator. */
  lemma PassDone(context: seq<Item>, n: nat, start: seq<Item>, c: seq<Item>)
    requires n < |Order| && Passes(context, Order[..n]) == Ok(start)
    requires !(|c| > 1 && OpToken(Order[n]) in c) && Pass(start, Order[n]) == Pass(c, Order[n])
    ensures Passes(context, Order[..n + 1]) == Ok(c)
  {
    PassesSnoc(context, Order[..n], Order[n]);
    assert Order[..n + 1] == Order[..n] + [Order[n]];
  }

  /** Once a pass fails, the later passes are not reached. */
  lemma PassesFail(c: seq<Item>, ops: seq<Operator>, n: nat)
    requires n <= |ops| && Passes(c, ops[..n]).Err?
    ensures Passes(c, ops) == Passes(c, ops[..n])
    decreases n
  {
    assert n > 0;
    assert ops[..n][0] == ops[0] && ops[..n][1..] == ops[1..][..n - 1];
    match Pass(c, ops[0])
    case Err(_) =>
    case Ok(d) => PassesFail(d, ops[1..], n - 1);
  }

  // ---------------------------------------------------------------------
  // What `__build_tree` makes of a list of operands and operators

  /** An operator token as the tokenizer leaves it. */
  predicate IsOperatorToken(x: Item)
  {
    x == OpToken(Times) || x == OpToken(Divide) || x == OpToken(Plus) || x == OpToken(Minus)
  }

  /** An entry `interpret` can be called on. */
  predicate IsOperand(x: Item)
  {
    x.Number? || x.Binary?
  }

  /** A parenthesis-free expression after `__parse_numbers`: operands at even positions, operators between them. */
  predicate Flat(c: seq<Item>)
  {
    |c| % 2 == 1
    && (forall i | 0 <= i < |c| && i % 2 == 0 :: IsOperand(c[i]))
    && (forall i | 0 <= i < |c| && i % 2 == 1 :: IsOperatorToken(c[i]))
  }

  /** Combining at an inner position: the entries before the left operand stay, the pair becomes one tree, the rest move down by two. */
  lemma CombineAt(c: seq<Item>, i: nat, op: Operator)
    requires 1 <= i && i + 1 < |c|
    ensures Combine(c, i, op).Ok?
    ensures var d := Combine(c, i, op).value;
      forall m {:trigger d[m]} | 0 <= m < |d| ::
        d[m] == if m < i - 1 then c[m] else if m == i - 1 then Binary(op, c[i - 1], c[i + 1]) else c[m + 2]
  {
    var u := c[i - 1 := Binary(op, c[i - 1], c[i + 1])];
    var d := u[..i] + u[i + 2..];
    assert Combine(c, i, op) == Ok(d);
    forall m | 0 <= m < |d|
      ensures d[m] == if m < i - 1 then c[m] else if m == i - 1 then Binary(op, c[i - 1], c[i + 1]) else c[m + 2]
    {
      if m < i { assert d[m] == u[m]; } else { assert d[m] == u[m + 2]; }
    }
  }

  /** A list made from a flat one by putting an operand in place of an inner operand, operator, operand triple is flat and has no new operator. */
  lemma FlatAfter(c: seq<Item>, i: nat, x: Item, d: seq<Item>)
    requires Flat(c) && i % 2 == 1 && i + 1 < |c| && IsOperand(x) && |d| == |c| - 2
    requires forall m {:trigger d[m]} | 0 <= m < |d| :: d[m] == if m < i - 1 then c[m] else if m == i - 1 then x else c[m + 2]
    ensures Flat(d)
    ensures forall o | OpToken(o) !in c :: OpToken(o) !in d
  {
    forall m | 0 <= m < |d| && m % 2 == 0
      ensures IsOperand(d[m])
    {
      if m < i - 1 {
        assert d[m] == c[m] && IsOperand(c[m]);
      } else if m > i - 1 {
        assert d[m] == c[m + 2] && (m + 2) % 2 == 0 && IsOperand(c[m + 2]);
      }
    }
    forall m | 0 <= m < |d| && m % 2 == 1
      ensures IsOperatorToken(d[m])
    {
      if m < i - 1 {
        assert d[m] == c[m] && IsOperatorToken(c[m]);
      } else {
        assert d[m] == c[m + 2] && (m + 2) % 2 == 1 && IsOperatorToken(c[m + 2]);
      }
    }
    forall o | OpToken(o) !in c
      ensures OpToken(o) !in d
    {
      forall m | 0 <= m < |d|
        ensures d[m] != OpToken(o)
      {
        if m < i - 1 {
          assert d[m] == c[m];
        } else if m > i - 1 {
          assert d[m] == c[m + 2];
        }
      }
    }
  }

  /** In a flat list an operator is found between two operands, and combining there keeps the list flat. */
  lemma CombineFlat(c: seq<Item>, op: Operator)
    requires Flat(c) && OpToken(op) in c
    ensures var i := IndexOf(c, OpToken(op));
      i % 2 == 1 && i + 1 < |c| && Combine(c, i, op).Ok? && Flat(Combine(c, i, op).value)
      && Combine(c, i, op).value[i - 1] == Binary(op, c[i - 1], c[i + 1])
      && forall o | OpToken(o) !in c :: OpToken(o) !in Combine(c, i, op).value
  {
    var i := IndexOf(c, OpToken(op));
    assert i % 2 == 0 ==> IsOperand(c[i]);
    CombineAt(c, i, op);
    var d := Combine(c, i, op).value;
    assert d[i - 1] == Binary(op, c[i - 1], c[i + 1]);
    FlatAfter(c, i, Binary(op, c[i - 1], c[i + 1]), d);
  }

  /** One operator's pass over a flat list succeeds, leaves it flat and without that operator. */
  lemma {:induction false} PassFlat(c: seq<Item>, op: Operator)
    requires Flat(c)
    ensures Pass(c, op).Ok? && Flat(Pass(c, op).value) && OpToken(op) !in Pass(c, op).value
    ensures forall o | OpToken(o) !in c :: OpToken(o) !in Pass(c, op).value
    decreases |c|
  {
    if |c| <= 1 {
      assert IsOperand(c[0]);
    } else if OpToken(op) in c {
      CombineFlat(c, op);
      PassFlat(Combine(c, IndexOf(c, OpToken(op)), op).value, op);
    }
  }

  /** A flat list with none of the four operators left is a single operand. */
  lemma Single(c: seq<Item>)
    requires Flat(c)
    requires OpToken(Times) !in c && OpToken(Divide) !in c && OpToken(Plus) !in c && OpToken(Minus) !in c
    ensures |c| == 1
  {
    assert |c| > 1 ==> IsOperatorToken(c[1]);
  }

  /** `Passes` over the four operators, spelled out. */
  lemma PassesOrder(c: seq<Item>)
    ensures Passes(c, Order) ==
      match Pass(c, Times)
      case Err(e) => Err(e)
      case Ok(d1) =>
        match Pass(d1, Divide)
        case Err(e) => Err(e)
        case Ok(d2) =>
          match Pass(d2, Plus)
          case Err(e) => Err(e)
          case Ok(d3) => Pass(d3, Minus)
  {
    assert Order[1..][1..][1..][1..] == [];
  }

  /** Every operator of a flat list gets combined: `__build_tree` ends with exactly one tree and raises nothing. */
  lemma ReducedFlat(c: seq<Item>)
    requires Flat(c)
    ensures Reduced(c).Ok? && |Reduced(c).value| == 1 && IsOperand(TreeOf(c).value)
  {
    PassesOrder(c);
    PassFlat(c, Times);
    var d1 := Pass(c, Times).value;
    PassFlat(d1, Divide);
    var d2 := Pass(d1, Divide).value;
    PassFlat(d2, Plus);
    var d3 := Pass(d2, Plus).value;
    PassFlat(d3, Minus);
    var d4 := Pass(d3, Minus).value;
    Single(d4);
    assert IsOperand(d4[0]);
  }

  /** The operators and operands after a first operand: `op y0 op y1 ...`. */
  function Chain(op: Operator, ys: seq<Item>): (r: seq<Item>)
    ensures |r| == 2 * |ys|
  {
    if ys == [] then [] else [OpToken(op), ys[0]] + Chain(op, ys[1..])
  }

  /** The tree that nests to the left: `((x op y0) op y1) ...`. */
  function LeftNested(x: Item, op: Operator, ys: seq<Item>): Item
    decreases |ys|
  {
    if ys == [] then x else LeftNested(Binary(op, x, ys[0]), op, ys[1..])
  }

  /** The numbers of `ws` as entries of the list. */
  function NumberItems(ws: seq<int>): (r: seq<Item>)
    ensures |r| == |ws| && forall k | 0 <= k < |ws| :: r[k] == Number(ws[k]) && IsOperand(r[k])
  {
    if ws == [] then [] else [Number(ws[0])] + NumberItems(ws[1..])
  }

  /** `((u op w0) op w1) ...` computed on integers. */
  function FoldLeft(u: int, op: Operator, ws: seq<int>): int
    requires op != Divide
    decreases |ws|
  {
    if ws == [] then u else FoldLeft(Apply(op, u, ws[0]), op, ws[1..])
  }

  /** A left-nested chain of numbers over one integer operator interprets as the left fold of its numbers. */
  lemma {:induction false} ChainValue(x: Item, u: int, op: Operator, ws: seq<int>)
    requires op != Divide && Value(x) == Ok(u)
    ensures Value(LeftNested(x, op, NumberItems(ws))) == Ok(FoldLeft(u, op, ws))
    decreases |ws|
  {
    if ws != [] {
      var ys := NumberItems(ws);
      assert ys[1..] == NumberItems(ws[1..]);
      ChainValue(Binary(op, x, Number(ws[0])), Apply(op, u, ws[0]), op, ws[1..]);
    }
  }

  /**
   * An expression whose numbers are joined by one integer operator, with no
   * parentheses, solves to the left fold of its numbers.
   */
  lemma ChainSolution(expression: string, u: int, op: Operator, ws: seq<int>)
    requires op != Divide && Numbers(Tokenize(expression)) == [Number(u)] + Chain(op, NumberItems(ws))
    ensures Solution(expression) == Ok(FoldLeft(u, op, ws))
  {
    OperationsChain(Number(u), op, NumberItems(ws));
    ChainValue(Number(u), u, op, ws);
  }

  /** A chain holds only its operator and its operands. */
  lemma {:induction false} ChainAvoids(op: Operator, ys: seq<Item>, z: Item)
    requires z != OpToken(op) && !IsOperand(z) && forall k | 0 <= k < |ys| :: IsOperand(ys[k])
    ensures z !in Chain(op, ys)
    decreases |ys|
  {
    if ys != [] {
      ChainAvoids(op, ys[1..], z);
      assert IsOperand(ys[0]);
    }
  }

  /** Each pass combines left to right, so a chain of one operator nests to the left. */
  lemma {:induction false} PassChain(x: Item, op: Operator, ys: seq<Item>)
    requires IsOperand(x) && forall k | 0 <= k < |ys| :: IsOperand(ys[k])
    ensures Pass([x] + Chain(op, ys), op) == Ok([LeftNested(x, op, ys)])
    decreases |ys|
  {
    if ys == [] {
      assert [x] + Chain(op, ys) == [x];
    } else {
      var c := [x] + Chain(op, ys);
      assert c[0] == x && c[1] == OpToken(op) && c[2] == ys[0];
      assert IndexOf(c, OpToken(op)) == 1;
      var y := Binary(op, x, ys[0]);
      var u := c[0 := y];
      var rest := Chain(op, ys[1..]);
      assert c == [x, OpToken(op), ys[0]] + rest;
      assert u[..1] == [y] && u[3..] == c[3..] == rest;
      assert Combine(c, 1, op) == Ok([y] + Chain(op, ys[1..]));
      assert |c| > 1 && OpToken(op) in c;
      PassChain(y, op, ys[1..]);
    }
  }

  /** With no '(' and one operator, `__build_tree` returns the left-nested tree. */
  lemma TreeOfChain(x: Item, op: Operator, ys: seq<Item>)
    requires IsOperand(x) && forall k | 0 <= k < |ys| :: IsOperand(ys[k])
    ensures Reduced([x] + Chain(op, ys)) == Ok([LeftNested(x, op, ys)])
    ensures TreeOf([x] + Chain(op, ys)) == Ok(LeftNested(x, op, ys))
  {
    var c := [x] + Chain(op, ys);
    var t := LeftNested(x, op, ys);
    PassesOrder(c);
    forall o | o != op
      ensures OpToken(o) !in c
    {
      ChainAvoids(op, ys, OpToken(o));
    }
    PassChain(x, op, ys);
    assert Pass([t], Minus) == Ok([t]) && Pass([t], Plus) == Ok([t]) && Pass([t], Divide) == Ok([t]);
  }

  /** The '+' pass over 'x - y + z' combines 'y + z'; the '*' and '/' passes change nothing. */
  lemma MixedPasses(x: Item, y: Item, z: Item)
    requires IsOperand(x) && IsOperand(y) && IsOperand(z)
    ensures var c := [x, OpToken(Minus), y, OpToken(Plus), z];
      Pass(c, Times) == Ok(c) && Pass(c, Divide) == Ok(c)
      && Pass(c, Plus) == Ok([x, OpToken(Minus), Binary(Plus, y, z)])
  {
    var c := [x, OpToken(Minus), y, OpToken(Plus), z];
    var d := [x, OpToken(Minus), Binary(Plus, y, z)];
    assert OpToken(Times) !in c && OpToken(Divide) !in c;
    assert IndexOf(c, OpToken(Plus)) == 3;
    CombineAt(c, 3, Plus);
    var r := Combine(c, 3, Plus).value;
    assert r[0] == x && r[1] == OpToken(Minus) && r[2] == Binary(Plus, y, z);
    assert r == d;
    assert OpToken(Plus) !in d;
  }

  /** The passes go by operator, not by position: in 'x - y + z' the '+' is combined first. */
  lemma PlusBeforeMinus(x: Item, y: Item, z: Item)
    requires IsOperand(x) && IsOperand(y) && IsOperand(z)
    ensures Reduced([x, OpToken(Minus), y, OpToken(Plus), z]) == Ok([Binary(Minus, x, Binary(Plus, y, z))])
  {
    var s := Binary(Plus, y, z);
    PassesOrder([x, OpToken(Minus), y, OpToken(Plus), z]);
    MixedPasses(x, y, z);
    assert [x, OpToken(Minus), s] == [x] + Chain(Minus, [s]);
    PassChain(x, Minus, [s]);
  }

  // ---------------------------------------------------------------------
  // The two tests of the calculator

  lemma TokenizeDigit(d: char, rest: string)
    requires IsDigit(d) && (rest == [] || !IsDigit(rest[0]))
    ensures Tokenize([d] + rest) == [Digits([d])] + Tokenize(rest)
  {
    var s := [d] + rest;
    assert DigitRun(s) == 1 by { assert s[1..] == rest; }
    assert s[..1] == [d] && s[1..] == rest;
  }

  lemma TokenizeSymbol(c: char, rest: string)
    requires IsSymbol(c)
    ensures Tokenize([c] + rest) == [Sym(c)] + Tokenize(rest)
  {
    assert ([c] + rest)[1..] == rest;
  }

  /** One digit as `int` reads it. */
  lemma DigitValue(d: char)
    requires IsDigit(d)
    ensures Numeral(Digits([d])) == Number(d as int - '0' as int)
  {
    assert IsNumeral([d]);
    assert [d][..0] == [];
    assert DecimalValue([d]) == 10 * DecimalValue([]) + (d as int - '0' as int);
  }

  /** The tokens of '1+2+3'. */
  lemma SumTokens()
    ensures Tokenize("1+2+3") == [Digits("1"), Sym('+'), Digits("2"), Sym('+'), Digits("3")]
  {
    assert "1+2+3" == ['1'] + "+2+3";
    assert "+2+3" == ['+'] + "2+3";
    assert "2+3" == ['2'] + "+3";
    assert "+3" == ['+'] + "3";
    assert "3" == ['3'] + [];
    TokenizeDigit('3', []);
    TokenizeSymbol('+', "3");
    TokenizeDigit('2', "+3");
    TokenizeSymbol('+', "2+3");
    TokenizeDigit('1', "+2+3");
  }

  /** The tokens of '(1+2)*3'. */
  lemma GroupTokens()
    ensures Tokenize("(1+2)*3") == [Sym('('), Digits("1"), Sym('+'), Digits("2"), Sym(')'), Sym('*'), Digits("3")]
  {
    var tail := [Digits("2"), Sym(')'), Sym('*'), Digits("3")];
    assert [Sym('(')] + ([Digits("1")] + ([Sym('+')] + tail))
      == [Sym('('), Digits("1"), Sym('+'), Digits("2"), Sym(')'), Sym('*'), Digits("3")];
    assert "(1+2)*3" == ['('] + "1+2)*3";
    assert "1+2)*3" == ['1'] + "+2)*3";
    assert "+2)*3" == ['+'] + "2)*3";
    GroupTokensMiddle();
    TokenizeSymbol('+', "2)*3");
    TokenizeDigit('1', "+2)*3");
    TokenizeSymbol('(', "1+2)*3");
  }

  /** The tokens of '2)*3'. */
  lemma GroupTokensMiddle()
    ensures Tokenize("2)*3") == [Digits("2"), Sym(')'), Sym('*'), Digits("3")]
  {
    assert "2)*3" == ['2'] + ")*3";
    GroupTokensTail();
    TokenizeDigit('2', ")*3");
  }

  /** The tokens of ')*3', the end of '(1+2)*3'. */
  lemma GroupTokensTail()
    ensures Tokenize(")*3") == [Sym(')'), Sym('*'), Digits("3")]
  {
    assert ")*3" == [')'] + "*3";
    assert "*3" == ['*'] + "3";
    assert "3" == ['3'] + [];
    TokenizeDigit('3', []);
    TokenizeSymbol('*', "3");
    TokenizeSymbol(')', "*3");
  }

  /** The list '1+2+3' leaves once `__parse_numbers` is done. */
  lemma SumNumbers()
    ensures Numbers([Digits("1"), Sym('+'), Digits("2"), Sym('+'), Digits("3")])
      == [Number(1), OpToken(Plus), Number(2), OpToken(Plus), Number(3)]
  {
    DigitValue('1');
    DigitValue('2');
    DigitValue('3');
  }

  /** The list '(1+2)*3' leaves once `__parse_numbers` is done. */
  lemma GroupNumbers()
    ensures Numbers([Sym('('), Digits("1"), Sym('+'), Digits("2"), Sym(')'), Sym('*'), Digits("3")])
      == [Open, Number(1), OpToken(Plus), Number(2), Close, OpToken(Times), Number(3)]
  {
    DigitValue('1');
    DigitValue('2');
    DigitValue('3');
  }

  /** One step of the scan at position `i`, which is inside the list. */
  lemma ScanStep(c: seq<Item>, i: nat, j: nat)
    requires j < i < |c| && c[j] == Open
    requires forall m | j < m < i :: c[m] != Open && c[m] != Close
    ensures c[i] == Open ==> ScanGroup(c, i, j) == ScanGroup(c, i + 1, i)
    ensures c[i] == Close ==> ScanGroup(c, i, j) == Some((j, i))
    ensures c[i] != Open && c[i] != Close ==> ScanGroup(c, i, j) == ScanGroup(c, i + 1, j)
  {
  }

  /** The scan from inside a group with no parenthesis in it ends at its ')'. */
  lemma {:induction false} ScanReaches(c: seq<Item>, i: nat, j: nat, k: nat)
    requires j < i <= k < |c| && c[j] == Open && c[k] == Close
    requires forall m | j < m < k :: c[m] != Open && c[m] != Close
    ensures ScanGroup(c, i, j) == Some((j, k))
    decreases k - i
  {
    if i < k {
      ScanReaches(c, i + 1, j, k);
    }
  }

  /** A parenthesis-free chain of one operator: `__parse_operations` builds it at once, nested to the left. */
  lemma OperationsChain(x: Item, op: Operator, ys: seq<Item>)
    requires IsOperand(x) && forall k | 0 <= k < |ys| :: IsOperand(ys[k])
    ensures Operations([x] + Chain(op, ys)) == Ok([LeftNested(x, op, ys)])
  {
    ChainAvoids(op, ys, Open);
    TreeOfChain(x, op, ys);
    OperationsDone([x] + Chain(op, ys));
  }

  /** '(x op1 y) op2 z': the scan finds the group at positions 0 to 4, holding `x op1 y`. */
  lemma GroupScan(x: Item, op1: Operator, y: Item, op2: Operator, z: Item)
    requires IsOperand(x) && IsOperand(y)
    ensures var c := [Open, x, OpToken(op1), y, Close, OpToken(op2), z];
      Open in c && NextGroup(c) == Some((0, 4)) && c[1..4] == [x] + Chain(op1, [y])
      && c[..0] + [Binary(op1, x, y)] + c[5..] == [Binary(op1, x, y)] + Chain(op2, [z])
  {
    var c := [Open, x, OpToken(op1), y, Close, OpToken(op2), z];
    forall m | 0 < m < 4
      ensures c[m] != Open && c[m] != Close
    {
      if m == 1 {
        assert c[m] == x;
      } else if m == 2 {
        assert c[m] == OpToken(op1);
      } else {
        assert c[m] == y;
      }
    }
    ScanReaches(c, 1, 0, 4);
    assert c[1..4] == [x] + Chain(op1, [y]);
    assert Chain(op2, [z]) == [OpToken(op2), z];
    assert c[..0] == [] && c[5..] == [OpToken(op2), z];
  }

  /** A first group 'x op y' at positions 1 to 3 is replaced by its tree. */
  lemma CollapseGroup(c: seq<Item>, x: Item, op: Operator, y: Item, rest: seq<Item>)
    requires IsOperand(x) && IsOperand(y)
    requires Open in c && NextGroup(c) == Some((0, 4)) && c[1..4] == [x] + Chain(op, [y])
    requires c[..0] + [Binary(op, x, y)] + c[5..] == rest
    ensures NextRound(c) == Collapsed(rest)
  {
    var t := Binary(op, x, y);
    TreeOfChain(x, op, [y]);
    assert LeftNested(x, op, [y]) == t;
    assert TreeOf(c[1..4]) == Ok(t);
    var i := IndexOf(c, Open);
    assert ScanGroup(c, i + 1, i) == Some((0, 4));
    assert NextRound(c) == Collapsed(c[..0] + [t] + c[5..]);
  }

  /** '(x op1 y) op2 z': the first round puts the group's tree in place of the group. */
  lemma GroupRound(x: Item, op1: Operator, y: Item, op2: Operator, z: Item)
    requires IsOperand(x) && IsOperand(y) && IsOperand(z)
    ensures NextRound([Open, x, OpToken(op1), y, Close, OpToken(op2), z])
      == Collapsed([Binary(op1, x, y)] + Chain(op2, [z]))
  {
    GroupScan(x, op1, y, op2, z);
    CollapseGroup([Open, x, OpToken(op1), y, Close, OpToken(op2), z], x, op1, y, [Binary(op1, x, y)] + Chain(op2, [z]));
  }

  /** '(x op1 y) op2 z': the group is built first and becomes the left operand of `op2`. */
  lemma OperationsGroup(x: Item, op1: Operator, y: Item, op2: Operator, z: Item)
    requires IsOperand(x) && IsOperand(y) && IsOperand(z)
    ensures Operations([Open, x, OpToken(op1), y, Close, OpToken(op2), z])
      == Ok([Binary(op2, Binary(op1, x, y), z)])
  {
    GroupRound(x, op1, y, op2, z);
    OperationsChain(Binary(op1, x, y), op2, [z]);
  }

  /** Any expression with the tokens of '1+2+3' builds a sum whose left operand is a sum. */
  lemma SumTest(expression: string)
    requires Tokenize(expression) == [Digits("1"), Sym('+'), Digits("2"), Sym('+'), Digits("3")]
    ensures Parse(expression) == Ok([Binary(Plus, Binary(Plus, Number(1), Number(2)), Number(3))])
  {
    SumNumbers();
    var c := [Number(1), OpToken(Plus), Number(2), OpToken(Plus), Number(3)];
    assert c == [Number(1)] + Chain(Plus, [Number(2), Number(3)]);
    OperationsChain(Number(1), Plus, [Number(2), Number(3)]);
  }

  /** An expression that builds the tree of '1+2+3' solves to 6. */
  lemma SumSolution(expression: string)
    requires Parse(expression) == Ok([Binary(Plus, Binary(Plus, Number(1), Number(2)), Number(3))])
    ensures Solution(expression) == Ok(6)
  {
    SolutionOfTree(expression, Binary(Plus, Binary(Plus, Number(1), Number(2)), Number(3)));
    assert Value(Binary(Plus, Binary(Plus, Number(1), Number(2)), Number(3))) == Ok(6);
  }

  /** Any expression with the tokens of '(1+2)*3' builds a product over the sum of the group. */
  lemma GroupTest(expression: string)
    requires Tokenize(expression) == [Sym('('), Digits("1"), Sym('+'), Digits("2"), Sym(')'), Sym('*'), Digits("3")]
    ensures Parse(expression) == Ok([Binary(Times, Binary(Plus, Number(1), Number(2)), Number(3))])
  {
    GroupNumbers();
    OperationsGroup(Number(1), Plus, Number(2), Times, Number(3));
  }

  /** An expression that builds the tree of '(1+2)*3' solves to 9. */
  lemma GroupSolution(expression: string)
    requires Parse(expression) == Ok([Binary(Times, Binary(Plus, Number(1), Number(2)), Number(3))])
    ensures Solution(expression) == Ok(9)
  {
    SolutionOfTree(expression, Binary(Times, Binary(Plus, Number(1), Number(2)), Number(3)));
    assert Value(Binary(Times, Binary(Plus, Number(1), Number(2)), Number(3))) == Ok(9);
  }

  /** The first test: '1+2+3' builds a sum over a sum and solves to 6. */
  lemma SumExpression()
    ensures Parse("1+2+3") == Ok([Binary(Plus, Binary(Plus, Number(1), Number(2)), Number(3))])
    ensures Solution("1+2+3") == Ok(6)
  {
    SumTokens();
    SumTest("1+2+3");
    SumSolution("1+2+3");
  }

  /** The second test: '(1+2)*3' builds `Multiply(Sum(1, 2), 3)` and solves to 9. */
  lemma GroupExpression()
    ensures Parse("(1+2)*3") == Ok([Binary(Times, Binary(Plus, Number(1), Number(2)), Number(3))])
    ensures Solution("(1+2)*3") == Ok(9)
  {
    GroupTokens();
    GroupTest("(1+2)*3");
    GroupSolution("(1+2)*3");
  }

  /**
   * `Client`: the context's list, rewritten in place by the parse steps,
   * and the exception, if any, that the constructor lets escape.
   */
  class Client {
    var output: seq<Item>
    var failure: Option<CalcError>

    /** `Client(expression)`: tokenize, then `__parse_numbers` and `__parse_operations`. */
    constructor (expression: string)
      ensures Parse(expression).Ok? ==> failure == None && output == Parse(expression).value
      ensures Parse(expression).Err? ==> failure == Some(Parse(expression).error)
      ensures failure == None ==> Solve() == Solution(expression)
    {
      output := Tokenize(expression);
      failure := None;
      new;
      ParseNumbers();
      var r := ParseOperations();
      if r.Err? {
        failure := Some(r.error);
      }
    }

    /** `__parse_numbers`: each entry that `int` accepts is replaced, in place, by its number. */
    method ParseNumbers()
      modifies this
      ensures output == Numbers(old(output)) && failure == old(failure)
    {
      for i := 0 to |output|
        invariant |output| == |old(output)| && failure == old(failure)
        invariant forall k | 0 <= k < i :: output[k] == Numeral(old(output)[k])
        invariant forall k | i <= k < |output| :: output[k] == old(output)[k]
      {
        if output[i].Digits? && IsNumeral(output[i].text) {
          output := output[i := Number(DecimalValue(output[i].text))];
        }
      }
      assert output == Numbers(old(output));
    }

    /**
     * `__build_tree`: for each operator in turn, combine at its first
     * occurrence while more than one entry is left; the list it ends with
     * is returned beside the tree.
     */
    method BuildTree(context: seq<Item>) returns (r: Result<Item, CalcError>, after: seq<Item>)
      ensures r == TreeOf(context)
      ensures Reduced(context).Ok? ==> r.Ok? && after == Reduced(context).value
      ensures Reduced(context).Err? ==> r == Err(Reduced(context).error)
    {
      var c := context;
      var order := Order;
      for n := 0 to |order|
        invariant Passes(context, order[..n]) == Ok(c)
      {
        var op := order[n];
        ghost var start := c;
        while |c| > 1 && OpToken(op) in c
          invariant Pass(c, op) == Pass(start, op)
          decreases |c|
        {
          var i := IndexOf(c, OpToken(op));
          PassAt(c, op, i);
          if i + 1 == |c| {
            PassFailsAt(context, n, start);
            return Err(IndexError), c;
          }
          ghost var before := c;
          var a := if i == 0 then |c| - 1 else i - 1;
          c := c[a := Binary(op, c[a], c[i + 1])];
          c := c[..i] + c[i + 2..];
          assert c == Combine(before, i, op).value;
        }
        PassDone(context, n, start, c);
      }
      assert order[..|order|] == order;
      if |c| == 0 {
        return Err(IndexError), c;
      }
      return Ok(c[0]), c;
    }

    /**
     * `__parse_operations`: while a '(' is left, build the innermost group
     * and put the tree in place of it; if building it fails, build the
     * whole list instead and stop; with no '(' left, build the whole list.
     */
    method ParseOperations() returns (r: Result<(), CalcError>)
      modifies this
      ensures failure == old(failure)
      ensures Operations(old(output)).Ok? ==> r == Ok(()) && output == Operations(old(output)).value
      ensures Operations(old(output)).Err? ==> r == Err(Operations(old(output)).error)
    {
      ghost var goal := Operations(output);
      while Open in output
        invariant Operations(output) == goal && failure == old(failure)
        decreases |output|
      {
        var i := IndexOf(output, Open);
        var g := ScanFrom(output, i);
        if g.None? {
          OperationsUnbalanced(output);
          return Err(Unbalanced);
        }
        var (j, k) := g.value;
        var tree, _ := BuildTree(output[j + 1..k]);
        if tree.Err? {
          OperationsFallback(output, j, k);
          var t, after := BuildTree(output);
          output := after;
          return if t.Ok? then Ok(()) else Err(t.error);
        }
        OperationsCollapse(output, j, k, tree.value);
        output := output[..j] + [tree.value] + output[k + 1..];
      }
      OperationsDone(output);
      var t, after := BuildTree(output);
      output := after;
      return if t.Ok? then Ok(()) else Err(t.error);
    }

    /**
     * The inner loop of `__parse_operations`, from the first '(' at `first`:
     * `j` follows the '(' seen last, and the first ')' ends the group.
     */
    method ScanFrom(c: seq<Item>, first: nat) returns (g: Option<(nat, nat)>)
      requires first < |c| && c[first] == Open
      ensures g == ScanGroup(c, first + 1, first)
    {
      var i := first;
      var j := 0;
      while i < |c|
        invariant first <= i <= |c|
        invariant i == first || (j < i && c[j] == Open && forall m | j < m < i :: c[m] != Open && c[m] != Close)
        invariant i > first ==> ScanGroup(c, i, j) == ScanGroup(c, first + 1, first)
        decreases |c| - i
      {
        if i > first {
          ScanStep(c, i, j);
        }
        if c[i] == Open {
          j := i;
        } else if c[i] == Close {
          return Some((j, i));
        }
        i := i + 1;
      }
      return None;
    }

    /** `solve`: interpret the first entry of the list. */
    function Solve(): (v: Result<int, CalcError>)
      reads this
    {
      if |output| == 0 then Err(IndexError) else Value(output[0])
    }
  }
}
