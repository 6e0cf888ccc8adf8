/**
 Expressions as they are written: the concrete syntax of the expression rules, with its parentheses
 (bootstrap/parser.c:238-270), and how it reads in a stream with newlines strewn in.
 */
module Printing {
  import opened Basics
  import opened Tokens
  import opened Ast
  import opened Grammar
  import opened Engine

  /** A written expression: a leaf is a number, a boolean or a name. */
  datatype Cst =
    | Leaf(kind: TokenKind, text: string)
    | Paren(inner: Cst)
    | IfElse(cond: Cst, thenArm: Cst, elseArm: Cst)
    | Neg(operand: Cst)
    | Bin(op: TokenKind, left: Cst, right: Cst)

  /** The expression rules from the tightest to the loosest: factor, unary, term and prime. */
  type Level = n: nat | n <= 3

  const FACTOR: Level := 0
  const UNARY: Level := 1
  const TERM: Level := 2
  const PRIME: Level := 3

  function RuleOf(lvl: Level): RuleId {
    if lvl == FACTOR then ExprFactor else if lvl == UNARY then ExprUnary
    else if lvl == TERM then ExprTerm else ExprPrime
  }

  /** The operators that a level chains. */
  predicate Chains(lvl: Level, op: TokenKind) {
    if lvl == TERM then op == TokStar || op == TokSlash else lvl == PRIME && (op == TokPlus || op == TokMinus)
  }

  /** The last thing written is the `else` arm of an `if`, which takes in every operator that follows. */
  predicate EndsOpen(c: Cst) {
    match c
    case Leaf(_, _) => false
    case Paren(_) => false
    case IfElse(_, _, _) => true
    case Neg(e) => EndsOpen(e)
    case Bin(_, _, r) => EndsOpen(r)
  }

  /** The written expression has the parentheses that the precedence level needs. */
  predicate IsAt(lvl: Level, c: Cst)
    decreases c, lvl
  {
    if lvl == FACTOR then
      match c
      case Leaf(kind, _) => kind in {TokNumberL, TokBoolL, TokId}
      case Paren(e) => IsAt(PRIME, e)
      case IfElse(e, t, f) => IsAt(PRIME, e) && IsAt(PRIME, t) && IsAt(PRIME, f)
      case _ => false
    else if lvl == UNARY then
      if c.Neg? then IsAt(FACTOR, c.operand) else IsAt(FACTOR, c)
    else if c.Bin? && Chains(lvl, c.op) then
      IsAt(lvl, c.left) && !EndsOpen(c.left) && IsAt(lvl - 1, c.right)
    else
      IsAt(lvl - 1, c)
  }

  function Print(c: Cst): (w: seq<Token>)
    ensures w != []
  {
    match c
    case Leaf(kind, text) => [Token(kind, text)]
    case Paren(e) => [Token(TokLParen, "")] + Print(e) + [Token(TokRParen, "")]
    case IfElse(e, t, f) =>
      [Token(TokIf, "")] + Print(e) + [Token(TokThen, "")] + Print(t) + [Token(TokElse, "")] + Print(f)
    case Neg(e) => [Token(TokMinus, "")] + Print(e)
    case Bin(op, l, r) => Print(l) + [Token(op, "")] + Print(r)
  }

  // ----- reading through newlines -----

  /** Only literals and names carry text. */
  predicate Spells(kind: TokenKind, text: string, w: Token) {
    kind == w.kind && kind != TokNewline && kind != TokUndef
    && (kind in {TokNumberL, TokBoolL, TokId} ==> text == w.text)
  }

  /** The tokens from `pos` on, whatever newlines stand before or between them, are `w`. */
  predicate Reads(toks: Stream, pos: nat, w: seq<Token>)
    decreases |w|
  {
    w == [] || (
      var q := NextSolid(toks, pos);
      Spells(KindAt(toks, q), TextAt(toks, q), w[0]) && Reads(toks, q + 1, w[1..]))
  }

  /** The position just behind the next `n` tokens that are not newlines. */
  function After(toks: Stream, pos: nat, n: nat): (q: nat)
    ensures pos + n <= q
    decreases n
  {
    if n == 0 then pos else After(toks, NextSolid(toks, pos) + 1, n - 1)
  }

  function End(toks: Stream, pos: nat, c: Cst): (q: nat)
    ensures q > pos
  {
    After(toks, pos, |Print(c)|)
  }

  lemma {:induction false} AfterJoins(toks: Stream, pos: nat, m: nat, n: nat)
    ensures After(toks, pos, m + n) == After(toks, After(toks, pos, m), n)
    decreases m
  {
    if m > 0 {
      AfterJoins(toks, NextSolid(toks, pos) + 1, m - 1, n);
    }
  }

  lemma {:induction false} ReadsJoins(toks: Stream, pos: nat, u: seq<Token>, v: seq<Token>)
    ensures Reads(toks, pos, u + v) <==> Reads(toks, pos, u) && Reads(toks, After(toks, pos, |u|), v)
    decreases |u|
  {
    if u == [] {
      assert u + v == v;
    } else {
      assert (u + v)[1..] == u[1..] + v;
      ReadsJoins(toks, NextSolid(toks, pos) + 1, u[1..], v);
    }
  }

  lemma {:induction false} ReadsWithin(toks: Stream, pos: nat, w: seq<Token>)
    requires Reads(toks, pos, w) && w != []
    ensures After(toks, pos, |w|) <= |toks|
    decreases |w|
  {
    if |w| > 1 {
      ReadsWithin(toks, NextSolid(toks, pos) + 1, w[1..]);
    }
  }

  lemma ReadsWord(toks: Stream, pos: nat, w: Token, v: seq<Token>)
    ensures Reads(toks, pos, [w] + v) ==>
      KindAt(toks, NextSolid(toks, pos)) == w.kind && Reads(toks, NextSolid(toks, pos) + 1, v)
    ensures After(toks, pos, |[w] + v|) == After(toks, NextSolid(toks, pos) + 1, |v|)
  {
    assert ([w] + v)[1..] == v;
  }

  lemma ReadsAnd(toks: Stream, pos: nat, u: seq<Token>, v: seq<Token>)
    ensures Reads(toks, pos, u + v) <==> Reads(toks, pos, u) && Reads(toks, After(toks, pos, |u|), v)
    ensures After(toks, pos, |u + v|) == After(toks, After(toks, pos, |u|), |v|)
  {
    ReadsJoins(toks, pos, u, v);
    AfterJoins(toks, pos, |u|, |v|);
  }

  lemma ReadsLast(toks: Stream, pos: nat, w: Token)
    ensures Reads(toks, pos, [w]) ==> KindAt(toks, NextSolid(toks, pos)) == w.kind
    ensures After(toks, pos, 1) == NextSolid(toks, pos) + 1
  {
  }

  // Where the pieces of a written expression stand.

  lemma ParenPieces(toks: Stream, pos: nat, c: Cst)
    requires c.Paren? && Reads(toks, pos, Print(c))
    ensures
      var p := NextSolid(toks, pos) + 1;
      var q := NextSolid(toks, End(toks, p, c.inner)) + 1;
      && KindAt(toks, p - 1) == TokLParen && Reads(toks, p, Print(c.inner))
      && KindAt(toks, q - 1) == TokRParen && End(toks, pos, c) == q
  {
    hide Reads, After;
    var close := [Token(TokRParen, "")];
    assert Print(c) == [Token(TokLParen, "")] + (Print(c.inner) + close);
    ReadsWord(toks, pos, Token(TokLParen, ""), Print(c.inner) + close);
    var p := NextSolid(toks, pos) + 1;
    ReadsAnd(toks, p, Print(c.inner), close);
    ReadsLast(toks, End(toks, p, c.inner), close[0]);
  }

  lemma NegPieces(toks: Stream, pos: nat, c: Cst)
    requires c.Neg? && Reads(toks, pos, Print(c))
    ensures
      var p := NextSolid(toks, pos) + 1;
      && KindAt(toks, p - 1) == TokMinus && Reads(toks, p, Print(c.operand))
      && End(toks, pos, c) == End(toks, p, c.operand)
  {
    ReadsWord(toks, pos, Token(TokMinus, ""), Print(c.operand));
  }

  lemma BinPieces(toks: Stream, pos: nat, c: Cst)
    requires c.Bin? && Reads(toks, pos, Print(c))
    ensures
      var p := NextSolid(toks, End(toks, pos, c.left)) + 1;
      && Reads(toks, pos, Print(c.left)) && KindAt(toks, p - 1) == c.op && Reads(toks, p, Print(c.right))
      && End(toks, pos, c) == End(toks, p, c.right)
  {
    hide Reads, After;
    var rest := [Token(c.op, "")] + Print(c.right);
    assert Print(c) == Print(c.left) + rest;
    ReadsAnd(toks, pos, Print(c.left), rest);
    ReadsWord(toks, End(toks, pos, c.left), Token(c.op, ""), Print(c.right));
  }

  lemma IfElsePrints(e: Cst, t: Cst, f: Cst)
    ensures
      var fromThen := [Token(TokThen, "")] + (Print(t) + ([Token(TokElse, "")] + Print(f)));
      Print(IfElse(e, t, f)) == [Token(TokIf, "")] + (Print(e) + fromThen)
  {
  }

  lemma IfElsePieces(toks: Stream, pos: nat, c: Cst)
    requires c.IfElse? && Reads(toks, pos, Print(c))
    ensures
      var p := NextSolid(toks, pos) + 1;
      var q := NextSolid(toks, End(toks, p, c.cond)) + 1;
      var r := NextSolid(toks, End(toks, q, c.thenArm)) + 1;
      && KindAt(toks, p - 1) == TokIf && Reads(toks, p, Print(c.cond))
      && KindAt(toks, q - 1) == TokThen && Reads(toks, q, Print(c.thenArm))
      && KindAt(toks, r - 1) == TokElse && Reads(toks, r, Print(c.elseArm))
      && End(toks, pos, c) == End(toks, r, c.elseArm)
  {
    hide Reads, After, NextSolid, Print;
    var (e, t, f) := (c.cond, c.thenArm, c.elseArm);
    IfElsePrints(e, t, f);
    var fromElse := [Token(TokElse, "")] + Print(f);
    var fromThen := [Token(TokThen, "")] + (Print(t) + fromElse);
    ReadsWord(toks, pos, Token(TokIf, ""), Print(e) + fromThen);
    var p := NextSolid(toks, pos) + 1;
    ReadsAnd(toks, p, Print(e), fromThen);
    ReadsWord(toks, End(toks, p, e), Token(TokThen, ""), Print(t) + fromElse);
    var q := NextSolid(toks, End(toks, p, e)) + 1;
    ReadsAnd(toks, q, Print(t), fromElse);
    ReadsWord(toks, End(toks, q, t), Token(TokElse, ""), Print(f));
  }

  // ----- the tree that is read -----

  /** The tree of a written expression, each node marked with the token that it takes its position from. */
  function Built(toks: Stream, pos: nat, c: Cst): Tree
    decreases c
  {
    var q := NextSolid(toks, pos);
    match c
    case Leaf(kind, text) =>
      if kind == TokId then Id(q, text)
      else Value(q, if kind == TokBoolL then BoolValue else IntegerValue, text)
    case Paren(e) => Built(toks, q + 1, e)
    case IfElse(e, t, f) =>
      var p := NextSolid(toks, End(toks, q + 1, e)) + 1;
      var r := NextSolid(toks, End(toks, p, t)) + 1;
      IfExpr(q, Built(toks, q + 1, e), Built(toks, p, t), Some(Built(toks, r, f)))
    case Neg(e) => UExpr(q, TokMinus, Built(toks, q + 1, e))
    case Bin(op, l, r) =>
      var p := NextSolid(toks, End(toks, pos, l));
      Expr(p, op, Built(toks, pos, l), Built(toks, p + 1, r))
  }

  /** How deep the rules recurse for a written expression, at the loosest level. */
  function Room(c: Cst): (n: nat)
    ensures n >= 4
  {
    match c
    case Leaf(_, _) => 4
    case Paren(e) => 4 + Room(e)
    case IfElse(e, t, f) => 5 + Max(Room(e), Max(Room(t), Room(f)))
    case Neg(e) => Room(e)
    case Bin(_, l, r) => Max(Room(l), Room(r))
  }
}
