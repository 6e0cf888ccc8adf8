/**
 What printing and parsing keep: the tree without its positions. Every expression tree has a written
 form with no more parentheses than precedence and open ends ask for, and parsing it gives the tree back.
 */
module RoundTrip {
  import opened Basics
  import opened Tokens
  import opened Ast
  import opened Grammar
  import opened Engine
  import opened Printing
  import PrintParse

  /** A tree without positions. */
  type BareTree = Node<()>

  function Bare(n: Tree): BareTree {
    match n
    case Value(_, kind, text) => Value((), kind, text)
    case Id(_, name) => Id((), name)
    case Expr(_, op, l, r) => Expr((), op, Bare(l), Bare(r))
    case UExpr(_, op, e) => UExpr((), op, Bare(e))
    case IfExpr(_, c, t, e) => IfExpr((), Bare(c), Bare(t), if e.Some? then Some(Bare(e.value)) else None)
    case IfStmt(_, c, t, e) => IfStmt((), Bare(c), Bare(t), if e.Some? then Some(Bare(e.value)) else None)
    case Echo(_, e) => Echo((), Bare(e))
    case Define(_, i, e) => Define((), Bare(i), Bare(e))
    case Assign(_, l, e) => Assign((), Bare(l), Bare(e))
    case Block(_, ss) => Block((), seq(|ss|, i requires 0 <= i < |ss| => Bare(ss[i])))
  }

  /** What a written expression means: parentheses leave no trace. */
  function Meaning(c: Cst): BareTree {
    match c
    case Leaf(kind, text) =>
      if kind == TokId then Id((), text) else Value((), if kind == TokBoolL then BoolValue else IntegerValue, text)
    case Paren(e) => Meaning(e)
    case IfElse(e, t, f) => IfExpr((), Meaning(e), Meaning(t), Some(Meaning(f)))
    case Neg(e) => UExpr((), TokMinus, Meaning(e))
    case Bin(op, l, r) => Expr((), op, Meaning(l), Meaning(r))
  }

  lemma {:induction false} BuiltMeans(toks: Stream, pos: nat, c: Cst)
    ensures Bare(Built(toks, pos, c)) == Meaning(c)
    decreases c
  {
    BuiltNode(toks, pos, c);
    MeaningNode(c);
    BareNode(Built(toks, pos, c));
    hide NextSolid, End, Bare, Built, Meaning;
    var q := NextSolid(toks, pos);
    match c
    case Leaf(_, _) =>
    case Paren(e) => BuiltMeans(toks, q + 1, e);
    case IfElse(e, t, f) =>
      PrintParse.BuiltIf(toks, c, pos);
      var p := NextSolid(toks, End(toks, q + 1, e)) + 1;
      BuiltMeans(toks, q + 1, e);
      BuiltMeans(toks, p, t);
      BuiltMeans(toks, NextSolid(toks, End(toks, p, t)) + 1, f);
    case Neg(e) => BuiltMeans(toks, q + 1, e);
    case Bin(op, l, r) =>
      BuiltMeans(toks, pos, l);
      BuiltMeans(toks, NextSolid(toks, End(toks, pos, l)) + 1, r);
  }

  // One step of each of the recursions over a tree.

  lemma BuiltNode(toks: Stream, pos: nat, c: Cst)
    ensures c.Leaf? ==>
      var q := NextSolid(toks, pos);
      Built(toks, pos, c) ==
      if c.kind == TokId then Id(q, c.text)
      else Value(q, if c.kind == TokBoolL then BoolValue else IntegerValue, c.text)
    ensures c.Paren? ==> Built(toks, pos, c) == Built(toks, NextSolid(toks, pos) + 1, c.inner)
    ensures c.Neg? ==>
      var q := NextSolid(toks, pos);
      Built(toks, pos, c) == UExpr(q, TokMinus, Built(toks, q + 1, c.operand))
    ensures c.Bin? ==>
      var p := NextSolid(toks, End(toks, pos, c.left));
      Built(toks, pos, c) == Expr(p, c.op, Built(toks, pos, c.left), Built(toks, p + 1, c.right))
  {
    hide NextSolid, End;
  }

  lemma MeaningNode(c: Cst)
    ensures c.Leaf? ==>
      Meaning(c) ==
      if c.kind == TokId then Id((), c.text)
      else Value((), if c.kind == TokBoolL then BoolValue else IntegerValue, c.text)
    ensures c.Paren? ==> Meaning(c) == Meaning(c.inner)
    ensures c.Neg? ==> Meaning(c) == UExpr((), TokMinus, Meaning(c.operand))
    ensures c.Bin? ==> Meaning(c) == Expr((), c.op, Meaning(c.left), Meaning(c.right))
    ensures c.IfElse? ==> Meaning(c) == IfExpr((), Meaning(c.cond), Meaning(c.thenArm), Some(Meaning(c.elseArm)))
  {
  }

  lemma BareNode(n: Tree)
    ensures n.Value? ==> Bare(n) == Value((), n.kind, n.text)
    ensures n.Id? ==> Bare(n) == Id((), n.name)
    ensures n.UExpr? ==> Bare(n) == UExpr((), n.op, Bare(n.operand))
    ensures n.Expr? ==> Bare(n) == Expr((), n.op, Bare(n.op1), Bare(n.op2))
    ensures n.IfExpr? && n.elseArm.Some? ==>
      Bare(n) == IfExpr((), Bare(n.cond), Bare(n.thenArm), Some(Bare(n.elseArm.value)))
  {
  }

  /** The next significant token cannot continue an expression. */
  predicate Stops(toks: Stream, pos: nat) {
    !IsArithmetic(KindAt(toks, NextSolid(toks, pos)))
  }

  /**
   The main theorem. Wherever a printed expression stands, whatever newlines stand before and between
   its tokens, if no operator follows then the parser returns exactly its tree, has read exactly its
   tokens (a newline run behind it is not read) and fails only when, and always when, the recursion
   limit leaves no room for it.
   */
  lemma PrintedExpressionParses(toks: Stream, c: Cst, pos: nat, depth: nat)
    requires IsAt(PRIME, c) && Reads(toks, pos, Print(c)) && Stops(toks, End(toks, pos, c))
    ensures ParseRule(Language, toks, ExprPrime, pos, depth) ==
            if depth + Room(c) <= MAX_PARSE_DEPTH then Reduced(NodeArg(Built(toks, pos, c)), End(toks, pos, c))
            else TooDeep
  {
    hide IsAt, Reads, Room, Built, ParseRule, Print, End, NextSolid;
    PrintParse.LevelParses(Language, toks, PRIME, c, pos, depth);
  }

  /** Newlines are transparent: two layouts of one expression parse to trees that differ in positions only. */
  lemma NewlinesAreTransparent(s: Stream, p: nat, t: Stream, q: nat, c: Cst, depth: nat)
    requires IsAt(PRIME, c)
    requires Reads(s, p, Print(c)) && Stops(s, End(s, p, c))
    requires Reads(t, q, Print(c)) && Stops(t, End(t, q, c))
    ensures
      var (r1, r2) := (ParseRule(Language, s, ExprPrime, p, depth), ParseRule(Language, t, ExprPrime, q, depth));
      if depth + Room(c) > MAX_PARSE_DEPTH then r1 == TooDeep == r2
      else
        && r1.Reduced? && r2.Reduced? && r1.arg.NodeArg? && r2.arg.NodeArg?
        && Bare(r1.arg.node) == Bare(r2.arg.node) && r1.pos == End(s, p, c) && r2.pos == End(t, q, c)
  {
    hide IsAt, Reads, Room, Built, ParseRule, Print, End, NextSolid, Bare, Meaning;
    PrintedExpressionParses(s, c, p, depth);
    PrintedExpressionParses(t, c, q, depth);
    BuiltMeans(s, p, c);
    BuiltMeans(t, q, c);
  }

  // ----- every expression tree can be written -----

  function LevelOf(op: TokenKind): Level {
    if op == TokStar || op == TokSlash then TERM else PRIME
  }

  /** Parentheses go where the operator binds too loosely for the level, or an open `if` must not be continued. */
  function Write<A>(n: Node<A>, lvl: Level, closed: bool): Cst
    requires IsExpr(n)
    decreases n
  {
    match n
    case Value(_, kind, text) => Leaf(if kind == BoolValue then TokBoolL else TokNumberL, text)
    case Id(_, name) => Leaf(TokId, name)
    case IfExpr(_, c, t, e) =>
      var w := IfElse(Write(c, PRIME, false), Write(t, PRIME, false), Write(e.value, PRIME, false));
      if closed then Paren(w) else w
    case UExpr(_, _, e) =>
      if lvl == FACTOR then Paren(Neg(Write(e, FACTOR, false))) else Neg(Write(e, FACTOR, closed))
    case Expr(_, op, l, r) =>
      var own := LevelOf(op);
      if lvl < own then Paren(Bin(op, Write(l, own, true), Write(r, own - 1, false)))
      else Bin(op, Write(l, own, true), Write(r, own - 1, closed))
  }

  lemma {:induction false} WritesAt(n: Tree, lvl: Level, closed: bool)
    requires IsExpr(n)
    ensures IsAt(lvl, Write(n, lvl, closed))
    ensures closed ==> !EndsOpen(Write(n, lvl, closed))
    decreases n
  {
    match n
    case Value(_, kind, text) => FactorsFit(Write(n, lvl, closed), lvl);
    case Id(_, name) => FactorsFit(Write(n, lvl, closed), lvl);
    case IfExpr(_, c, t, e) =>
      WritesAt(c, PRIME, false);
      WritesAt(t, PRIME, false);
      WritesAt(e.value, PRIME, false);
      var w := IfElse(Write(c, PRIME, false), Write(t, PRIME, false), Write(e.value, PRIME, false));
      FactorsFit(w, PRIME);
      FactorsFit(Write(n, lvl, closed), lvl);
    case UExpr(_, _, e) =>
      WritesAt(e, FACTOR, lvl != FACTOR && closed);
      UnaryFits(Neg(Write(e, FACTOR, lvl != FACTOR && closed)), if lvl == FACTOR then PRIME else lvl);
      if lvl == FACTOR {
        FactorsFit(Write(n, lvl, closed), lvl);
      }
    case Expr(_, op, l, r) =>
      var own := LevelOf(op);
      var shut := lvl >= own && closed;
      WritesAt(l, own, true);
      WritesAt(r, own - 1, shut);
      BinFits(Bin(op, Write(l, own, true), Write(r, own - 1, shut)), own, if lvl < own then PRIME else lvl);
      if lvl < own {
        FactorsFit(Write(n, lvl, closed), lvl);
      }
  }

  lemma {:induction false} FactorsFit(c: Cst, lvl: Level)
    requires IsAt(FACTOR, c)
    ensures IsAt(lvl, c)
  {
    if lvl > FACTOR {
      FactorsFit(c, lvl - 1);
    }
  }

  lemma {:induction false} UnaryFits(c: Cst, lvl: Level)
    requires IsAt(UNARY, c) && lvl >= UNARY && c.Neg?
    ensures IsAt(lvl, c)
  {
    if lvl > UNARY {
      UnaryFits(c, lvl - 1);
    }
  }

  lemma {:induction false} BinFits(c: Cst, own: Level, lvl: Level)
    requires c.Bin? && own >= TERM && Chains(own, c.op) && lvl >= own
    requires IsAt(own, c.left) && !EndsOpen(c.left) && IsAt(own - 1, c.right)
    ensures IsAt(lvl, c)
  {
    if lvl > own {
      BinFits(c, own, lvl - 1);
    }
  }

  lemma {:induction false} WriteMeans(n: Tree, lvl: Level, closed: bool)
    requires IsExpr(n)
    ensures Meaning(Write(n, lvl, closed)) == Bare(n)
    decreases n
  {
    BareNode(n);
    var w := Unwrapped(n, lvl, closed);
    WriteNode(n, lvl, closed);
    MeaningNode(w);
    MeaningNode(Write(n, lvl, closed));
    hide Bare, Meaning, Write;
    match n
    case Value(_, _, _) =>
    case Id(_, _) =>
    case IfExpr(_, c, t, e) =>
      WriteMeans(c, PRIME, false);
      WriteMeans(t, PRIME, false);
      WriteMeans(e.value, PRIME, false);
    case UExpr(_, _, e) =>
      WriteMeans(e, FACTOR, lvl != FACTOR && closed);
    case Expr(_, op, l, r) =>
      WriteMeans(l, LevelOf(op), true);
      WriteMeans(r, LevelOf(op) - 1, lvl >= LevelOf(op) && closed);
  }

  /** The written form inside the outermost parentheses, if it has any. */
  function Unwrapped<A>(n: Node<A>, lvl: Level, closed: bool): Cst
    requires IsExpr(n)
  {
    match n
    case Value(_, kind, text) => Leaf(if kind == BoolValue then TokBoolL else TokNumberL, text)
    case Id(_, name) => Leaf(TokId, name)
    case IfExpr(_, c, t, e) => IfElse(Write(c, PRIME, false), Write(t, PRIME, false), Write(e.value, PRIME, false))
    case UExpr(_, _, e) => Neg(Write(e, FACTOR, lvl != FACTOR && closed))
    case Expr(_, op, l, r) =>
      Bin(op, Write(l, LevelOf(op), true), Write(r, LevelOf(op) - 1, lvl >= LevelOf(op) && closed))
  }

  lemma WriteNode(n: Tree, lvl: Level, closed: bool)
    requires IsExpr(n)
    ensures Write(n, lvl, closed) == Unwrapped(n, lvl, closed) ||
            Write(n, lvl, closed) == Paren(Unwrapped(n, lvl, closed))
  {
  }

  /** Every expression tree is what the parser makes of its written form. */
  lemma EveryExpressionRoundTrips(toks: Stream, n: Tree, pos: nat, depth: nat)
    requires IsExpr(n) && Reads(toks, pos, Print(Write(n, PRIME, false)))
    requires Stops(toks, End(toks, pos, Write(n, PRIME, false)))
    requires depth + Room(Write(n, PRIME, false)) <= MAX_PARSE_DEPTH
    ensures
      var r := ParseRule(Language, toks, ExprPrime, pos, depth);
      && r.Reduced? && r.arg.NodeArg? && Bare(r.arg.node) == Bare(n)
      && r.pos == End(toks, pos, Write(n, PRIME, false))
  {
    hide IsAt, Reads, Room, Built, ParseRule, Print, End, NextSolid, Bare, Meaning, Write;
    var c := Write(n, PRIME, false);
    WritesAt(n, PRIME, false);
    PrintedExpressionParses(toks, c, pos, depth);
    BuiltMeans(toks, pos, c);
    WriteMeans(n, PRIME, false);
  }

  // ----- no writing takes less room -----

  /** One pair of parentheses is all that a tighter level and a closed end can ask for. */
  lemma {:induction false} WrapsOnce<A>(n: Node<A>, lvl: Level, loose: Level, closed: bool)
    requires IsExpr(n) && lvl <= loose
    ensures Room(Write(n, lvl, closed)) <= 4 + Room(Write(n, loose, false))
    decreases n
  {
    match n
    case UExpr(_, _, e) => WrapsOnce(e, FACTOR, FACTOR, closed);
    case Expr(_, op, _, r) => WrapsOnce(r, LevelOf(op) - 1, LevelOf(op) - 1, closed);
    case _ =>
  }

  lemma RoomNode(c: Cst)
    ensures c.Leaf? ==> Room(c) == 4
    ensures c.Paren? ==> Room(c) == 4 + Room(c.inner)
    ensures c.IfElse? ==> Room(c) == 5 + Max(Room(c.cond), Max(Room(c.thenArm), Room(c.elseArm)))
    ensures c.Neg? ==> Room(c) == Room(c.operand)
    ensures c.Bin? ==> Room(c) == Max(Room(c.left), Room(c.right))
  {
  }

  /** The room of a written form at a level that its operator binds tightly enough for. */
  lemma WriteRoom<A>(n: Node<A>, lvl: Level, closed: bool)
    requires IsExpr(n)
    ensures n.Value? || n.Id? ==> Room(Write(n, lvl, closed)) == 4
    ensures n.IfExpr? && !closed ==>
      Room(Write(n, lvl, closed)) == 5 + Max(Room(Write(n.cond, PRIME, false)),
        Max(Room(Write(n.thenArm, PRIME, false)), Room(Write(n.elseArm.value, PRIME, false))))
    ensures n.UExpr? && lvl != FACTOR ==> Room(Write(n, lvl, closed)) == Room(Write(n.operand, FACTOR, closed))
    ensures n.Expr? && lvl >= LevelOf(n.op) ==>
      Room(Write(n, lvl, closed)) ==
      Max(Room(Write(n.op1, LevelOf(n.op), true)), Room(Write(n.op2, LevelOf(n.op) - 1, closed)))
  {
  }

  lemma IfLeast<A>(n: Node<A>, c: Cst, lvl: Level)
    requires n.IfExpr? && IsExpr(n) && c.IfElse?
    requires Room(Write(n.cond, PRIME, false)) <= Room(c.cond)
    requires Room(Write(n.thenArm, PRIME, false)) <= Room(c.thenArm)
    requires Room(Write(n.elseArm.value, PRIME, false)) <= Room(c.elseArm)
    ensures Room(Write(n, lvl, false)) <= Room(c)
  {
    RoomNode(c);
    WriteRoom(n, lvl, false);
    hide Room, Write, IsExpr;
  }

  lemma BinLeast<A>(n: Node<A>, c: Cst, lvl: Level, closed: bool)
    requires n.Expr? && IsExpr(n) && c.Bin? && lvl >= LevelOf(n.op)
    requires Room(Write(n.op1, LevelOf(n.op), true)) <= Room(c.left)
    requires Room(Write(n.op2, LevelOf(n.op) - 1, closed)) <= Room(c.right)
    ensures Room(Write(n, lvl, closed)) <= Room(c)
  {
    RoomNode(c);
    WriteRoom(n, lvl, closed);
    hide Room, Write, IsExpr, LevelOf;
  }

  /**
   However an expression is written, the parser recurses at least as deep as for the form that `Write`
   gives its tree.
   */
  lemma {:induction false} WritesLeast(n: Tree, c: Cst, lvl: Level, closed: bool)
    requires IsAt(lvl, c) && (closed ==> !EndsOpen(c)) && Bare(n) == Meaning(c)
    ensures IsExpr(n) && Room(Write(n, lvl, closed)) <= Room(c)
    decreases c
  {
    BareSame(n, c);
    RoomNode(c);
    match c
    case Leaf(_, _) =>
      FactorPieces(c, lvl);
      WriteRoom(n, lvl, closed);
    case Paren(e) =>
      hide Write, Room, IsAt, IsExpr, EndsOpen, Bare, Meaning;
      FactorPieces(c, lvl);
      WritesLeast(n, e, PRIME, false);
      WrapsOnce(n, lvl, PRIME, closed);
    case IfElse(e, t, f) =>
      hide Write, Room, IsAt, EndsOpen, Bare, Meaning;
      FactorPieces(c, lvl);
      WritesLeast(n.cond, e, PRIME, false);
      WritesLeast(n.thenArm, t, PRIME, false);
      WritesLeast(n.elseArm.value, f, PRIME, false);
      IfLeast(n, c, lvl);
    case Neg(e) =>
      hide Write, Room, IsAt, EndsOpen, Bare, Meaning;
      NegAt(c, lvl);
      WritesLeast(n.operand, e, FACTOR, closed);
      WriteRoom(n, lvl, closed);
    case Bin(op, l, r) =>
      hide Write, Room, IsAt, EndsOpen, Bare, Meaning;
      BinAt(c, lvl);
      WritesLeast(n.op1, l, LevelOf(op), true);
      WritesLeast(n.op2, r, LevelOf(op) - 1, closed);
      BinLeast(n, c, lvl, closed);
  }

  /** A tree with the meaning of a written expression has its parts, with their meanings. */
  lemma BareSame(n: Tree, c: Cst)
    requires Bare(n) == Meaning(c)
    ensures c.Leaf? ==> n.Id? || (n.Value? && n.kind in {IntegerValue, BoolValue})
    ensures c.Paren? ==> Bare(n) == Meaning(c.inner)
    ensures c.IfElse? ==>
      && n.IfExpr? && n.elseArm.Some? && Bare(n.cond) == Meaning(c.cond)
      && Bare(n.thenArm) == Meaning(c.thenArm) && Bare(n.elseArm.value) == Meaning(c.elseArm)
    ensures c.Neg? ==> n.UExpr? && n.op == TokMinus && Bare(n.operand) == Meaning(c.operand)
    ensures c.Bin? ==> n.Expr? && n.op == c.op && Bare(n.op1) == Meaning(c.left) && Bare(n.op2) == Meaning(c.right)
  {
  }

  // What a written expression is at its own level.

  lemma {:induction false} FactorPieces(c: Cst, lvl: Level)
    requires IsAt(lvl, c) && (c.Leaf? || c.Paren? || c.IfElse?)
    ensures c.Paren? ==> IsAt(PRIME, c.inner) && !EndsOpen(c)
    ensures c.IfElse? ==> IsAt(PRIME, c.cond) && IsAt(PRIME, c.thenArm) && IsAt(PRIME, c.elseArm) && EndsOpen(c)
  {
    if lvl > FACTOR {
      FactorPieces(c, lvl - 1);
    }
  }

  lemma {:induction false} NegAt(c: Cst, lvl: Level)
    requires IsAt(lvl, c) && c.Neg?
    ensures lvl >= UNARY && IsAt(FACTOR, c.operand) && EndsOpen(c) == EndsOpen(c.operand)
  {
    if lvl > UNARY {
      NegAt(c, lvl - 1);
    }
  }

  lemma {:induction false} BinAt(c: Cst, lvl: Level)
    requires IsAt(lvl, c) && c.Bin?
    ensures IsArithmetic(c.op) && LevelOf(c.op) <= lvl
    ensures IsAt(LevelOf(c.op), c.left) && !EndsOpen(c.left) && IsAt(LevelOf(c.op) - 1, c.right)
    ensures EndsOpen(c) == EndsOpen(c.right)
  {
    if !Chains(lvl, c.op) {
      BinAt(c, lvl - 1);
    }
  }

  predicate AllSpelled(w: seq<Token>) {
    forall i :: 0 <= i < |w| ==> w[i].kind != TokNewline && w[i].kind != TokUndef
  }

  lemma {:induction false} PrintSpelled(c: Cst, lvl: Level)
    requires IsAt(lvl, c)
    ensures AllSpelled(Print(c))
    decreases c, lvl
  {
    if lvl > FACTOR && !(lvl == UNARY && c.Neg?) && !(c.Bin? && Chains(lvl, c.op)) {
      PrintSpelled(c, lvl - 1);
    } else {
      match c
      case Leaf(_, _) =>
      case Paren(e) => PrintSpelled(e, PRIME);
      case IfElse(e, t, f) =>
        PrintSpelled(e, PRIME);
        PrintSpelled(t, PRIME);
        PrintSpelled(f, PRIME);
      case Neg(e) => PrintSpelled(e, FACTOR);
      case Bin(op, l, r) =>
        PrintSpelled(l, lvl);
        PrintSpelled(r, lvl - 1);
    }
  }

  lemma {:induction false} SpelledReads(toks: Stream, pos: nat, n: nat)
    requires AllSpelled(toks) && pos + n == |toks|
    ensures Reads(toks, pos, toks[pos..]) && After(toks, pos, n) == |toks|
    decreases n
  {
    if n > 0 {
      SpelledReads(toks, pos + 1, n - 1);
      assert toks[pos..][1..] == toks[pos + 1..];
    }
  }

  /** The written form is unambiguous: what reads the same means the same. */
  lemma WritingIsUnambiguous(c1: Cst, c2: Cst)
    requires IsAt(PRIME, c1) && IsAt(PRIME, c2) && Print(c1) == Print(c2) && Room(c1) <= MAX_PARSE_DEPTH
    ensures Meaning(c1) == Meaning(c2)
  {
    var toks := Print(c1);
    PrintSpelled(c1, PRIME);
    SpelledReads(toks, 0, |toks|);
    assert toks[0..] == toks;
    assert Stops(toks, |toks|) && End(toks, 0, c1) == |toks| && End(toks, 0, c2) == |toks|;
    hide IsAt, Reads, Room, Built, ParseRule, Print, End, NextSolid, Bare, Meaning;
    PrintedExpressionParses(toks, c1, 0, 0);
    PrintedExpressionParses(toks, c2, 0, 0);
    BuiltMeans(toks, 0, c1);
    BuiltMeans(toks, 0, c2);
  }
}
