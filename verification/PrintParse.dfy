/**
 Parsing what was printed: on a written expression, whatever newlines are strewn in, the interpreter
 of grammar tables returns exactly its tree and stops right behind it, or finds it too deep.
 */
module PrintParse {
  import opened Basics
  import opened Tokens
  import opened Ast
  import opened Grammar
  import opened Engine
  import opened Printing

  // ----- the tables of the expression rules -----

  /** The grammar has the language's expression rules. */
  predicate Speaks(g: Grammar) {
    && g(IfTail) == IfTailRule()
    && g(ExprFactor) == FactorRule()
    && g(ExprUnary) == UnaryRule()
    && g(ExprTerm) == ChainRule(ExprUnary, TokStar, TokSlash)
    && g(ExprPrime) == ChainRule(ExprTerm, TokPlus, TokMinus)
  }

  predicate Skips(g: Grammar, id: RuleId) {
    g(id).skipNewLine
  }

  /** The terminals that the five productions of a factor begin with. */
  function FactorStart(i: nat): TokenKind {
    if i == 0 then TokNumberL else if i == 1 then TokBoolL else if i == 2 then TokLParen
    else if i == 3 then TokIf else TokId
  }

  lemma FactorTable(g: Grammar, i: nat)
    requires Speaks(g) && i < 5
    ensures Skips(g, ExprFactor) && !Exists(g, ExprFactor, 5)
    ensures Exists(g, ExprFactor, i) && NodeAt(g, ExprFactor, i, 0) == Some(Term(FactorStart(i)))
    ensures FoldsAt(g, ExprFactor, i) == -1 && (Shared(g, ExprFactor, i, 0) <==> i < 4)
  {
  }

  lemma FactorRest(g: Grammar)
    requires Speaks(g)
    ensures NodeAt(g, ExprFactor, 0, 1) == Some(Reduce(ReduceNumber))
    ensures NodeAt(g, ExprFactor, 1, 1) == Some(Reduce(ReduceBool))
    ensures NodeAt(g, ExprFactor, 2, 1) == Some(Rule(ExprPrime))
    ensures NodeAt(g, ExprFactor, 2, 2) == Some(Term(TokRParen))
    ensures NodeAt(g, ExprFactor, 2, 3) == Some(Reduce(ReduceTriple))
    ensures NodeAt(g, ExprFactor, 3, 1) == Some(Rule(IfTail))
    ensures NodeAt(g, ExprFactor, 3, 2) == Some(Reduce(ReduceIfExpr))
    ensures NodeAt(g, ExprFactor, 4, 1) == Some(Reduce(ReduceId))
  {
  }

  lemma IfTailTable(g: Grammar)
    requires Speaks(g)
    ensures Skips(g, IfTail) && Exists(g, IfTail, 0) && FoldsAt(g, IfTail, 0) == -1
    ensures NodeAt(g, IfTail, 0, 0) == Some(Rule(ExprPrime))
    ensures NodeAt(g, IfTail, 0, 1) == Some(Term(TokThen))
    ensures NodeAt(g, IfTail, 0, 2) == Some(Rule(ExprPrime))
    ensures NodeAt(g, IfTail, 0, 3) == Some(Term(TokElse))
    ensures NodeAt(g, IfTail, 0, 4) == Some(Rule(ExprPrime))
    ensures NodeAt(g, IfTail, 0, 5) == Some(Reduce(ReduceIfThenElse))
  {
  }

  lemma UnaryTable(g: Grammar)
    requires Speaks(g)
    ensures Skips(g, ExprUnary) && Exists(g, ExprUnary, 0) && Exists(g, ExprUnary, 1)
    ensures !Exists(g, ExprUnary, 2) && !Shared(g, ExprUnary, 1, 0)
    ensures FoldsAt(g, ExprUnary, 0) == -1 && FoldsAt(g, ExprUnary, 1) == -1
    ensures NodeAt(g, ExprUnary, 0, 0) == Some(Rule(ExprFactor))
    ensures NodeAt(g, ExprUnary, 0, 1) == Some(Reduce(ReduceSingle))
    ensures NodeAt(g, ExprUnary, 1, 0) == Some(Term(TokMinus))
    ensures NodeAt(g, ExprUnary, 1, 1) == Some(Rule(ExprFactor))
    ensures NodeAt(g, ExprUnary, 1, 2) == Some(Reduce(ReduceMinus))
  {
  }

  function FirstOp(lvl: Level): TokenKind {
    if lvl == TERM then TokStar else TokPlus
  }

  function SecondOp(lvl: Level): TokenKind {
    if lvl == TERM then TokSlash else TokMinus
  }

  lemma ChainTable(g: Grammar, lvl: Level)
    requires Speaks(g) && lvl >= TERM
    ensures
      var id, sub := RuleOf(lvl), RuleOf(lvl - 1);
      && Skips(g, id) && Exists(g, id, 0) && Exists(g, id, 1) && Exists(g, id, 2)
      && FoldsAt(g, id, 0) == 1 && FoldsAt(g, id, 1) == 1 && FoldsAt(g, id, 2) == -1
      && Shared(g, id, 0, 1) && Shared(g, id, 1, 1)
      && NodeAt(g, id, 0, 0) == Some(Rule(sub)) && NodeAt(g, id, 0, 1) == Some(Term(FirstOp(lvl)))
      && NodeAt(g, id, 0, 2) == Some(Rule(sub)) && NodeAt(g, id, 0, 3) == Some(Reduce(ReduceExprOpExpr))
      && NodeAt(g, id, 1, 1) == Some(Term(SecondOp(lvl)))
      && NodeAt(g, id, 1, 2) == Some(Rule(sub)) && NodeAt(g, id, 1, 3) == Some(Reduce(ReduceExprOpExpr))
      && NodeAt(g, id, 2, 1) == Some(Reduce(ReduceSingle))
      && NodeAt(g, id, 1, 0) == Some(Rule(sub)) && NodeAt(g, id, 2, 0) == Some(Rule(sub)) && !Exists(g, id, 3)
  {
    var id := RuleOf(lvl);
    assert FirstTerm(g(id).productions[0].nodes, 1) == 1;
    assert FirstTerm(g(id).productions[1].nodes, 1) == 1;
  }

  // ----- single steps of the interpreter -----

  lemma Enters(g: Grammar, toks: Stream, id: RuleId, pos: nat, depth: nat)
    ensures ParseRule(g, toks, id, pos, depth) ==
            if depth >= MAX_PARSE_DEPTH then TooDeep else Run(g, toks, Start(id, pos), depth + 1)
  {
    hide Run;
  }

  lemma Accepts(g: Grammar, toks: Stream, fr: Frame, depth: nat, kind: TokenKind)
    requires Exists(g, fr.id, fr.i) && NodeAt(g, fr.id, fr.i, fr.j) == Some(Term(kind)) && Skips(g, fr.id)
    requires KindAt(toks, NextSolid(toks, fr.pos)) == kind
    ensures
      var q := NextSolid(toks, fr.pos);
      Run(g, toks, fr, depth) == Run(g, toks, Collect(fr, TokenArg(q), q + 1), depth)
  {
    hide NextSolid;
  }

  /** A terminal that does not match hands over to the next production where it begins with the same nodes. */
  lemma HandsOver(g: Grammar, toks: Stream, fr: Frame, depth: nat, kind: TokenKind)
    requires Exists(g, fr.id, fr.i) && NodeAt(g, fr.id, fr.i, fr.j) == Some(Term(kind)) && Skips(g, fr.id)
    requires KindAt(toks, NextSolid(toks, fr.pos)) != kind && Shared(g, fr.id, fr.i, fr.j)
    ensures Run(g, toks, fr, depth) == Run(g, toks, HandOver(fr), depth)
  {
    hide NextSolid, Shared;
  }

  lemma GivesUp(g: Grammar, toks: Stream, fr: Frame, depth: nat, kind: TokenKind)
    requires Exists(g, fr.id, fr.i) && NodeAt(g, fr.id, fr.i, fr.j) == Some(Term(kind)) && Skips(g, fr.id)
    requires KindAt(toks, NextSolid(toks, fr.pos)) != kind && !Shared(g, fr.id, fr.i, fr.j) && !fr.folded
    ensures Run(g, toks, fr, depth) == Run(g, toks, RollBack(fr), depth)
  {
    hide NextSolid, Shared;
  }

  lemma Exhausts(g: Grammar, toks: Stream, fr: Frame, depth: nat)
    requires !Exists(g, fr.id, fr.i)
    ensures Run(g, toks, fr, depth) == Refused(fr.pos)
  {
  }

  lemma CallsRule(g: Grammar, toks: Stream, fr: Frame, depth: nat, id: RuleId, r: Outcome)
    requires Exists(g, fr.id, fr.i) && NodeAt(g, fr.id, fr.i, fr.j) == Some(Rule(id))
    requires r == ParseRule(g, toks, id, fr.pos, depth)
    ensures r.Reduced? ==> Run(g, toks, fr, depth) == Run(g, toks, Collect(fr, r.arg, r.pos), depth)
    ensures r.Refused? && !fr.folded ==> Run(g, toks, fr, depth) == Run(g, toks, RollBack(fr), depth)
    ensures r.TooDeep? ==> Run(g, toks, fr, depth) == TooDeep
  {
    hide ParseRule;
  }

  lemma Reduces(g: Grammar, toks: Stream, fr: Frame, depth: nat, f: Reducer, v: Arg)
    requires Exists(g, fr.id, fr.i) && NodeAt(g, fr.id, fr.i, fr.j) == Some(Reduce(f))
    requires FoldsAt(g, fr.id, fr.i) == -1 && Apply(f, toks, fr.args) == Some(v)
    ensures Run(g, toks, fr, depth) == Reduced(v, fr.pos)
  {
    hide Apply, FoldsAt;
  }

  lemma Folds(g: Grammar, toks: Stream, fr: Frame, depth: nat, f: Reducer, v: Arg, op: nat)
    requires Exists(g, fr.id, fr.i) && NodeAt(g, fr.id, fr.i, fr.j) == Some(Reduce(f))
    requires FoldsAt(g, fr.id, fr.i) == op > 0 && Apply(f, toks, fr.args) == Some(v)
    requires fr.floor < fr.pos <= |toks|
    ensures Run(g, toks, fr, depth) == Run(g, toks, Refold(fr, v, op), depth)
  {
    hide Apply, FoldsAt;
  }

  /** Productions of a factor whose first terminal does not match are passed over. */
  lemma {:induction false} PassesOver(g: Grammar, toks: Stream, pos: nat, i: nat, n: nat, depth: nat)
    requires Speaks(g) && i <= n <= 4
    requires forall k :: i <= k < n ==> FactorStart(k) != KindAt(toks, NextSolid(toks, pos))
    ensures Run(g, toks, Start(ExprFactor, pos).(i := i), depth) == Run(g, toks, Start(ExprFactor, pos).(i := n), depth)
    decreases n - i
  {
    hide Run, Speaks, Skips, Exists, NodeAt, Shared, FoldsAt, NextSolid;
    if i < n {
      FactorTable(g, i);
      HandsOver(g, toks, Start(ExprFactor, pos).(i := i), depth, FactorStart(i));
      PassesOver(g, toks, pos, i + 1, n, depth);
    }
  }

  /** The production of a factor that begins with the next significant token has taken that token. */
  function FactorOpen(toks: Stream, pos: nat, i: nat): Frame {
    var q := NextSolid(toks, pos);
    Frame(ExprFactor, i, 1, [TokenArg(q)], false, pos, pos, q + 1)
  }

  lemma FactorOpens(g: Grammar, toks: Stream, pos: nat, i: nat, depth: nat)
    requires Speaks(g) && i < 5 && KindAt(toks, NextSolid(toks, pos)) == FactorStart(i)
    ensures Run(g, toks, Start(ExprFactor, pos), depth) == Run(g, toks, FactorOpen(toks, pos, i), depth)
    ensures FactorOpen(toks, pos, i).args == [TokenArg(NextSolid(toks, pos))]
  {
    hide Run, ParseRule, Speaks, Skips, Exists, NodeAt, Shared, FoldsAt, NextSolid;
    FactorTable(g, i);
    PassesOver(g, toks, pos, 0, i, depth);
    var fr := Start(ExprFactor, pos).(i := i);
    Accepts(g, toks, fr, depth, FactorStart(i));
    var q := NextSolid(toks, pos);
    assert Collect(fr, TokenArg(q), q + 1) == FactorOpen(toks, pos, i);
  }

  // ----- what is expected -----

  /** Exactly when the recursion has room for it, the expression is reduced to its tree and nothing else is read. */
  function Expected(toks: Stream, lvl: Level, c: Cst, pos: nat, depth: nat): Outcome {
    if depth + Room(c) <= MAX_PARSE_DEPTH + (PRIME - lvl)
    then Reduced(NodeArg(Built(toks, pos, c)), End(toks, pos, c))
    else TooDeep
  }

  /** The next significant token does not continue an expression of this level. */
  predicate Ends(toks: Stream, lvl: Level, c: Cst, pos: nat) {
    var next := KindAt(toks, NextSolid(toks, End(toks, pos, c)));
    && (lvl >= TERM ==> next != TokStar && next != TokSlash)
    && (lvl == PRIME ==> next != TokPlus && next != TokMinus)
    && (EndsOpen(c) ==> !IsArithmetic(next))
  }

  /** The expression stands here, properly parenthesised for the level. */
  predicate Stands(toks: Stream, lvl: Level, c: Cst, pos: nat) {
    IsAt(lvl, c) && Reads(toks, pos, Print(c))
  }

  // ----- factors -----

  lemma FactorParses(g: Grammar, toks: Stream, c: Cst, pos: nat, depth: nat)
    requires Speaks(g) && Stands(toks, FACTOR, c, pos) && Ends(toks, FACTOR, c, pos)
    ensures ParseRule(g, toks, ExprFactor, pos, depth) == Expected(toks, FACTOR, c, pos, depth)
    decreases c, FACTOR, 1
  {
    hide Run, ParseRule, Speaks, Skips, Exists, NodeAt, Shared, FoldsAt, NextSolid;
    hide IsAt, Reads, Built, Print;
    Enters(g, toks, ExprFactor, pos, depth);
    if depth < MAX_PARSE_DEPTH {
      StandsWithin(toks, c, pos);
      match c
      case Leaf(_, _) =>
        LeafPieces(toks, c, pos);
        LeafParses(g, toks, c, pos, depth);
      case Paren(e) =>
        LevelParses(g, toks, PRIME, e, NextSolid(toks, pos) + 1, depth + 1);
        ParenPieces(toks, pos, c);
        ParenParses(g, toks, c, pos, depth);
      case IfElse(_, _, _) =>
        IfTailParses(g, toks, c, pos, depth);
        IfElsePieces(toks, pos, c);
        IfParses(g, toks, c, pos, depth);
    }
  }

  /** The parts of a factor stand where they should, each followed by what ends it. */
  lemma StandsWithin(toks: Stream, c: Cst, pos: nat)
    requires Stands(toks, FACTOR, c, pos) && Ends(toks, FACTOR, c, pos)
    ensures c.Leaf? || c.Paren? || c.IfElse?
    ensures c.Paren? ==>
      Stands(toks, PRIME, c.inner, NextSolid(toks, pos) + 1) && Ends(toks, PRIME, c.inner, NextSolid(toks, pos) + 1)
    ensures c.IfElse? ==>
      var p := NextSolid(toks, pos) + 1;
      var q := NextSolid(toks, End(toks, p, c.cond)) + 1;
      var r := NextSolid(toks, End(toks, q, c.thenArm)) + 1;
      && Stands(toks, PRIME, c.cond, p) && Ends(toks, PRIME, c.cond, p)
      && Stands(toks, PRIME, c.thenArm, q) && Ends(toks, PRIME, c.thenArm, q)
      && Stands(toks, PRIME, c.elseArm, r) && Ends(toks, PRIME, c.elseArm, r)
  {
    hide Reads, NextSolid, End, Print;
    match c
    case Leaf(_, _) =>
    case Paren(e) => ParenPieces(toks, pos, c);
    case IfElse(_, _, _) => IfElsePieces(toks, pos, c);
  }

  lemma IfElseStands(toks: Stream, c: Cst, pos: nat)
    requires c.IfElse? && Stands(toks, FACTOR, c, pos)
    ensures
      var p := NextSolid(toks, pos) + 1;
      var q := NextSolid(toks, End(toks, p, c.cond)) + 1;
      var r := NextSolid(toks, End(toks, q, c.thenArm)) + 1;
      KindAt(toks, q - 1) == TokThen && KindAt(toks, r - 1) == TokElse && End(toks, pos, c) == End(toks, r, c.elseArm)
  {
    IfElsePieces(toks, pos, c);
  }

  function LeafReducer(kind: TokenKind): Reducer {
    if kind == TokNumberL then ReduceNumber else if kind == TokBoolL then ReduceBool else ReduceId
  }

  predicate LeafStands(toks: Stream, pos: nat, c: Cst) {
    && c.Leaf? && c.kind in {TokNumberL, TokBoolL, TokId}
    && KindAt(toks, NextSolid(toks, pos)) == c.kind && TextAt(toks, NextSolid(toks, pos)) == c.text
    && End(toks, pos, c) == NextSolid(toks, pos) + 1
  }

  lemma LeafPieces(toks: Stream, c: Cst, pos: nat)
    requires c.Leaf? && Stands(toks, FACTOR, c, pos)
    ensures LeafStands(toks, pos, c)
  {
    ReadsLast(toks, pos, Token(c.kind, c.text));
  }

  lemma LeafParses(g: Grammar, toks: Stream, c: Cst, pos: nat, depth: nat)
    requires Speaks(g) && depth < MAX_PARSE_DEPTH && LeafStands(toks, pos, c)
    ensures Run(g, toks, Start(ExprFactor, pos), depth + 1) == Expected(toks, FACTOR, c, pos, depth)
  {
    hide Run, ParseRule, Speaks, Skips, Exists, NodeAt, Shared, FoldsAt, NextSolid;
    hide Apply;
    var n := if c.kind == TokNumberL then 0 else if c.kind == TokBoolL then 1 else 4;
    FactorTable(g, n);
    FactorRest(g);
    FactorOpens(g, toks, pos, n, depth + 1);
    AppliesLeaf(toks, c, pos);
    Reduces(g, toks, FactorOpen(toks, pos, n), depth + 1, LeafReducer(c.kind), NodeArg(Built(toks, pos, c)));
  }

  lemma AppliesLeaf(toks: Stream, c: Cst, pos: nat)
    requires LeafStands(toks, pos, c)
    ensures Apply(LeafReducer(c.kind), toks, [TokenArg(NextSolid(toks, pos))]) == Some(NodeArg(Built(toks, pos, c)))
  {
    hide NextSolid;
  }

  predicate ParenStands(toks: Stream, pos: nat, c: Cst) {
    c.Paren? && (
      var p := NextSolid(toks, pos) + 1;
      var q := NextSolid(toks, End(toks, p, c.inner)) + 1;
      KindAt(toks, p - 1) == TokLParen && KindAt(toks, q - 1) == TokRParen && End(toks, pos, c) == q)
  }

  lemma ParenParses(g: Grammar, toks: Stream, c: Cst, pos: nat, depth: nat)
    requires Speaks(g) && depth < MAX_PARSE_DEPTH && ParenStands(toks, pos, c)
    requires
      var p := NextSolid(toks, pos) + 1;
      ParseRule(g, toks, ExprPrime, p, depth + 1) == Expected(toks, PRIME, c.inner, p, depth + 1)
    ensures Run(g, toks, Start(ExprFactor, pos), depth + 1) == Expected(toks, FACTOR, c, pos, depth)
  {
    hide Run, ParseRule, Speaks, Skips, Exists, NodeAt, Shared, FoldsAt, NextSolid;
    hide End, Apply, Built, Room, Expected;
    FactorTable(g, 2);
    FactorRest(g);
    FactorOpens(g, toks, pos, 2, depth + 1);
    ExpectedParen(toks, c, pos, depth);
    var p := NextSolid(toks, pos) + 1;
    var fr1 := FactorOpen(toks, pos, 2);
    CallsRule(g, toks, fr1, depth + 1, ExprPrime, Expected(toks, PRIME, c.inner, p, depth + 1));
    if depth + 1 + Room(c.inner) <= MAX_PARSE_DEPTH {
      var v := NodeArg(Built(toks, p, c.inner));
      var fr2 := Collect(fr1, v, End(toks, p, c.inner));
      Accepts(g, toks, fr2, depth + 1, TokRParen);
      var q := NextSolid(toks, fr2.pos);
      var fr3 := Collect(fr2, TokenArg(q), q + 1);
      assert fr3.args == [TokenArg(p - 1), v, TokenArg(q)];
      AppliesTriple(toks, fr3.args);
      Reduces(g, toks, fr3, depth + 1, ReduceTriple, v);
    }
  }

  lemma AppliesTriple(toks: Stream, args: seq<Arg>)
    requires |args| == 3
    ensures Apply(ReduceTriple, toks, args) == Some(args[1])
  {
  }

  lemma ExpectedParen(toks: Stream, c: Cst, pos: nat, depth: nat)
    requires c.Paren?
    ensures
      var p := NextSolid(toks, pos) + 1;
      && Expected(toks, PRIME, c.inner, p, depth + 1) ==
         (if depth + 1 + Room(c.inner) <= MAX_PARSE_DEPTH
          then Reduced(NodeArg(Built(toks, p, c.inner)), End(toks, p, c.inner)) else TooDeep)
      && Expected(toks, FACTOR, c, pos, depth) ==
         (if depth + 1 + Room(c.inner) <= MAX_PARSE_DEPTH
          then Reduced(NodeArg(Built(toks, p, c.inner)), End(toks, pos, c)) else TooDeep)
  {
    hide End, NextSolid;
  }

  /** What `if_tail` yields, called at depth `depth` right behind the `if` at `pos`. */
  function ExpectedTail(toks: Stream, c: Cst, pos: nat, depth: nat): Outcome
    requires c.IfElse?
  {
    var n := Built(toks, pos, c);
    if depth + Room(c) <= MAX_PARSE_DEPTH + 4
    then Reduced(PartsArg(n.cond, n.thenArm, n.elseArm), End(toks, pos, c))
    else TooDeep
  }

  /** `IF if_tail`, given what `if_tail` does. */
  lemma IfParses(g: Grammar, toks: Stream, c: Cst, pos: nat, depth: nat)
    requires Speaks(g) && depth < MAX_PARSE_DEPTH && c.IfElse?
    requires KindAt(toks, NextSolid(toks, pos)) == TokIf
    requires ParseRule(g, toks, IfTail, NextSolid(toks, pos) + 1, depth + 1) == ExpectedTail(toks, c, pos, depth + 1)
    ensures Run(g, toks, Start(ExprFactor, pos), depth + 1) == Expected(toks, FACTOR, c, pos, depth)
  {
    hide Run, ParseRule, Speaks, Skips, Exists, NodeAt, Shared, FoldsAt, NextSolid;
    hide End, Apply, Room, Built, Expected, ExpectedTail;
    FactorTable(g, 3);
    FactorRest(g);
    FactorOpens(g, toks, pos, 3, depth + 1);
    ExpectedIf(toks, c, pos, depth);
    var fr1 := FactorOpen(toks, pos, 3);
    CallsRule(g, toks, fr1, depth + 1, IfTail, ExpectedTail(toks, c, pos, depth + 1));
    var n := Built(toks, pos, c);
    if ExpectedTail(toks, c, pos, depth + 1).Reduced? {
      var parts := PartsArg(n.cond, n.thenArm, n.elseArm);
      var fr2 := Collect(fr1, parts, End(toks, pos, c));
      assert fr2.args == [TokenArg(n.at), parts];
      AppliesIfExpr(toks, n, fr2.args);
      Reduces(g, toks, fr2, depth + 1, ReduceIfExpr, NodeArg(n));
    }
  }

  lemma AppliesIfExpr(toks: Stream, n: Tree, args: seq<Arg>)
    requires n.IfExpr? && args == [TokenArg(n.at), PartsArg(n.cond, n.thenArm, n.elseArm)]
    ensures Apply(ReduceIfExpr, toks, args) == Some(NodeArg(n))
  {
  }

  lemma ExpectedIf(toks: Stream, c: Cst, pos: nat, depth: nat)
    requires c.IfElse?
    ensures
      var n := Built(toks, pos, c);
      && n.IfExpr? && n.at == NextSolid(toks, pos)
      && (depth + Room(c) <= MAX_PARSE_DEPTH + 3 ==>
           && Expected(toks, FACTOR, c, pos, depth) == Reduced(NodeArg(n), End(toks, pos, c))
           && ExpectedTail(toks, c, pos, depth + 1) ==
             Reduced(PartsArg(n.cond, n.thenArm, n.elseArm), End(toks, pos, c)))
      && (depth + Room(c) > MAX_PARSE_DEPTH + 3 ==>
           Expected(toks, FACTOR, c, pos, depth) == TooDeep == ExpectedTail(toks, c, pos, depth + 1))
  {
    hide End, NextSolid, Room;
  }

  lemma IfTailParses(g: Grammar, toks: Stream, c: Cst, pos: nat, depth: nat)
    requires Speaks(g) && c.IfElse? && Stands(toks, FACTOR, c, pos) && Ends(toks, FACTOR, c, pos)
    ensures ParseRule(g, toks, IfTail, NextSolid(toks, pos) + 1, depth + 1) == ExpectedTail(toks, c, pos, depth + 1)
    decreases c, FACTOR, 0
  {
    hide Run, ParseRule, Speaks, Skips, Exists, NodeAt, Shared, FoldsAt, NextSolid;
    hide IsAt, Reads, End, Print, Expected, ExpectedTail, Stands, Ends, Built, Room;
    var p := NextSolid(toks, pos) + 1;
    Enters(g, toks, IfTail, p, depth + 1);
    ExpectedTailIs(toks, c, pos, depth + 1);
    if depth + 1 < MAX_PARSE_DEPTH {
      IfElseStands(toks, c, pos);
      StandsWithin(toks, c, pos);
      var d := depth + 2;
      var q := NextSolid(toks, End(toks, p, c.cond)) + 1;
      var r := NextSolid(toks, End(toks, q, c.thenArm)) + 1;
      LevelParses(g, toks, PRIME, c.cond, p, d);
      LevelParses(g, toks, PRIME, c.thenArm, q, d);
      LevelParses(g, toks, PRIME, c.elseArm, r, d);
      ExpectedIs(toks, PRIME, c.cond, p, d);
      ExpectedIs(toks, PRIME, c.thenArm, q, d);
      ExpectedIs(toks, PRIME, c.elseArm, r, d);
      IfTailSteps(g, toks, d, p, q, r, Expected(toks, PRIME, c.cond, p, d),
                  Expected(toks, PRIME, c.thenArm, q, d), Expected(toks, PRIME, c.elseArm, r, d));
    }
  }

  predicate NodeOrTooDeep(r: Outcome) {
    r.TooDeep? || (r.Reduced? && r.arg.NodeArg?)
  }

  /** The first production of `if_tail`, given what its three expressions reduce to. */
  lemma IfTailSteps(g: Grammar, toks: Stream, d: nat, p: nat, q: nat, r: nat, c: Outcome, t: Outcome, e: Outcome)
    requires Speaks(g) && 0 < q && 0 < r
    requires NodeOrTooDeep(c) && c == ParseRule(g, toks, ExprPrime, p, d)
    requires NodeOrTooDeep(t) && t == ParseRule(g, toks, ExprPrime, q, d)
    requires NodeOrTooDeep(e) && e == ParseRule(g, toks, ExprPrime, r, d)
    requires c.Reduced? ==> q == NextSolid(toks, c.pos) + 1 && KindAt(toks, q - 1) == TokThen
    requires t.Reduced? ==> r == NextSolid(toks, t.pos) + 1 && KindAt(toks, r - 1) == TokElse
    ensures Run(g, toks, Start(IfTail, p), d) ==
            if c.Reduced? && t.Reduced? && e.Reduced?
            then Reduced(PartsArg(c.arg.node, t.arg.node, Some(e.arg.node)), e.pos)
            else TooDeep
  {
    hide Run, ParseRule, Speaks, Skips, Exists, NodeAt, Shared, FoldsAt, NextSolid;
    hide Apply;
    IfTailTable(g);
    var fr := Start(IfTail, p);
    CallsRule(g, toks, fr, d, ExprPrime, c);
    if c.Reduced? {
      var fr1 := Collect(fr, c.arg, c.pos);
      Accepts(g, toks, fr1, d, TokThen);
      var fr2 := Collect(fr1, TokenArg(q - 1), q);
      CallsRule(g, toks, fr2, d, ExprPrime, t);
      if t.Reduced? {
        var fr3 := Collect(fr2, t.arg, t.pos);
        Accepts(g, toks, fr3, d, TokElse);
        var fr4 := Collect(fr3, TokenArg(r - 1), r);
        CallsRule(g, toks, fr4, d, ExprPrime, e);
        if e.Reduced? {
          var fr5 := Collect(fr4, e.arg, e.pos);
          assert fr5.args == [c.arg, TokenArg(q - 1), t.arg, TokenArg(r - 1), e.arg];
          AppliesIf(toks, fr5.args);
          Reduces(g, toks, fr5, d, ReduceIfThenElse, PartsArg(c.arg.node, t.arg.node, Some(e.arg.node)));
        }
      }
    }
  }

  lemma ExpectedTailIs(toks: Stream, c: Cst, pos: nat, depth: nat)
    requires c.IfElse?
    ensures
      var p := NextSolid(toks, pos) + 1;
      var q := NextSolid(toks, End(toks, p, c.cond)) + 1;
      var r := NextSolid(toks, End(toks, q, c.thenArm)) + 1;
      var d := depth + 1;
      ExpectedTail(toks, c, pos, depth) ==
      if d + Room(c.cond) <= MAX_PARSE_DEPTH && d + Room(c.thenArm) <= MAX_PARSE_DEPTH
         && d + Room(c.elseArm) <= MAX_PARSE_DEPTH
      then Reduced(PartsArg(Built(toks, p, c.cond), Built(toks, q, c.thenArm), Some(Built(toks, r, c.elseArm))),
                   End(toks, pos, c))
      else TooDeep
  {
    hide End, NextSolid, Built;
    BuiltIf(toks, c, pos);
    RoomIf(c, MAX_PARSE_DEPTH - (depth + 1));
    hide Room;
  }

  lemma BuiltIf(toks: Stream, c: Cst, pos: nat)
    requires c.IfElse?
    ensures
      var p := NextSolid(toks, pos) + 1;
      var q := NextSolid(toks, End(toks, p, c.cond)) + 1;
      var r := NextSolid(toks, End(toks, q, c.thenArm)) + 1;
      Built(toks, pos, c) ==
      IfExpr(p - 1, Built(toks, p, c.cond), Built(toks, q, c.thenArm), Some(Built(toks, r, c.elseArm)))
  {
    hide End, NextSolid;
  }

  lemma RoomIf(c: Cst, n: int)
    requires c.IfElse?
    ensures Room(c) <= n + 5 <==> Room(c.cond) <= n && Room(c.thenArm) <= n && Room(c.elseArm) <= n
  {
  }

  lemma AppliesIf(toks: Stream, args: seq<Arg>)
    requires |args| == 5 && args[0].NodeArg? && args[2].NodeArg? && args[4].NodeArg?
    ensures Apply(ReduceIfThenElse, toks, args) == Some(PartsArg(args[0].node, args[2].node, Some(args[4].node)))
  {
  }

  // ----- unary minus -----

  predicate StartsFactor(kind: TokenKind) {
    exists i :: 0 <= i < 5 && FactorStart(i) == kind
  }

  lemma FactorRefuses(g: Grammar, toks: Stream, pos: nat, depth: nat)
    requires Speaks(g) && depth < MAX_PARSE_DEPTH && !StartsFactor(KindAt(toks, NextSolid(toks, pos)))
    ensures ParseRule(g, toks, ExprFactor, pos, depth) == Refused(pos)
  {
    hide Run, ParseRule, Speaks, Skips, Exists, NodeAt, Shared, FoldsAt, NextSolid;
    FactorTable(g, 4);
    Enters(g, toks, ExprFactor, pos, depth);
    PassesOver(g, toks, pos, 0, 4, depth + 1);
    var fr := Start(ExprFactor, pos).(i := 4);
    assert FactorStart(4) == TokId;
    GivesUp(g, toks, fr, depth + 1, TokId);
    Exhausts(g, toks, RollBack(fr), depth + 1);
  }

  lemma UnaryParses(g: Grammar, toks: Stream, c: Cst, pos: nat, depth: nat)
    requires Speaks(g) && Stands(toks, UNARY, c, pos) && Ends(toks, UNARY, c, pos)
    ensures ParseRule(g, toks, ExprUnary, pos, depth) == Expected(toks, UNARY, c, pos, depth)
    decreases c, UNARY, 2
  {
    hide Run, ParseRule, Speaks, Skips, Exists, NodeAt, Shared, FoldsAt, NextSolid;
    hide Reads, End, Print;
    Enters(g, toks, ExprUnary, pos, depth);
    if depth < MAX_PARSE_DEPTH {
      if c.Neg? {
        NegPieces(toks, pos, c);
        if depth + 1 < MAX_PARSE_DEPTH {
          FactorRefuses(g, toks, pos, depth + 1);
        } else {
          Enters(g, toks, ExprFactor, pos, depth + 1);
        }
        FactorParses(g, toks, c.operand, NextSolid(toks, pos) + 1, depth + 1);
        NegParses(g, toks, c, pos, depth);
      } else {
        FactorParses(g, toks, c, pos, depth + 1);
        AloneParses(g, toks, c, pos, depth);
      }
    }
  }

  lemma NegParses(g: Grammar, toks: Stream, c: Cst, pos: nat, depth: nat)
    requires Speaks(g) && depth < MAX_PARSE_DEPTH && c.Neg?
    requires
      var p := NextSolid(toks, pos) + 1;
      KindAt(toks, p - 1) == TokMinus && End(toks, pos, c) == End(toks, p, c.operand)
    requires
      ParseRule(g, toks, ExprFactor, pos, depth + 1) ==
      if depth + 1 < MAX_PARSE_DEPTH then Refused(pos) else TooDeep
    requires
      var p := NextSolid(toks, pos) + 1;
      ParseRule(g, toks, ExprFactor, p, depth + 1) == Expected(toks, FACTOR, c.operand, p, depth + 1)
    ensures Run(g, toks, Start(ExprUnary, pos), depth + 1) == Expected(toks, UNARY, c, pos, depth)
  {
    hide Run, ParseRule, Speaks, Skips, Exists, NodeAt, Shared, FoldsAt, NextSolid;
    hide End, Apply, Expected, Built, Room;
    ExpectedNeg(toks, c, pos, depth);
    UnaryTable(g);
    var fr := Start(ExprUnary, pos);
    CallsRule(g, toks, fr, depth + 1, ExprFactor, ParseRule(g, toks, ExprFactor, pos, depth + 1));
    if depth + 1 < MAX_PARSE_DEPTH {
      var fr1 := RollBack(fr);
      Accepts(g, toks, fr1, depth + 1, TokMinus);
      var p := NextSolid(toks, pos) + 1;
      var fr2 := Collect(fr1, TokenArg(p - 1), p);
      CallsRule(g, toks, fr2, depth + 1, ExprFactor, Expected(toks, FACTOR, c.operand, p, depth + 1));
      if depth + 1 + Room(c.operand) <= MAX_PARSE_DEPTH + 3 {
        var v := NodeArg(Built(toks, p, c.operand));
        var fr3 := Collect(fr2, v, End(toks, p, c.operand));
        assert fr3.args == [TokenArg(p - 1), v];
        AppliesNeg(toks, fr3.args);
        Reduces(g, toks, fr3, depth + 1, ReduceMinus, NodeArg(Built(toks, pos, c)));
      }
    }
  }

  lemma AppliesNeg(toks: Stream, args: seq<Arg>)
    requires |args| == 2 && IsToken(toks, args[0], TokMinus) && args[1].NodeArg?
    ensures Apply(ReduceMinus, toks, args) == Some(NodeArg(UExpr(args[0].at, TokMinus, args[1].node)))
  {
  }

  lemma ExpectedNeg(toks: Stream, c: Cst, pos: nat, depth: nat)
    requires c.Neg?
    ensures
      var p := NextSolid(toks, pos) + 1;
      && Built(toks, pos, c) == UExpr(p - 1, TokMinus, Built(toks, p, c.operand))
      && Expected(toks, FACTOR, c.operand, p, depth + 1) ==
         (if depth + 1 + Room(c.operand) <= MAX_PARSE_DEPTH + 3
          then Reduced(NodeArg(Built(toks, p, c.operand)), End(toks, p, c.operand)) else TooDeep)
      && Expected(toks, UNARY, c, pos, depth) ==
         (if depth + 1 + Room(c.operand) <= MAX_PARSE_DEPTH + 3
          then Reduced(NodeArg(Built(toks, pos, c)), End(toks, pos, c)) else TooDeep)
  {
    hide End, NextSolid;
  }

  /** A factor alone is a unary expression. */
  lemma AloneParses(g: Grammar, toks: Stream, c: Cst, pos: nat, depth: nat)
    requires Speaks(g) && depth < MAX_PARSE_DEPTH
    requires ParseRule(g, toks, ExprFactor, pos, depth + 1) == Expected(toks, FACTOR, c, pos, depth + 1)
    ensures Run(g, toks, Start(ExprUnary, pos), depth + 1) == Expected(toks, UNARY, c, pos, depth)
  {
    hide Run, ParseRule, Speaks, Skips, Exists, NodeAt, Shared, FoldsAt, NextSolid;
    hide End, Built, Room;
    UnaryTable(g);
    var fr := Start(ExprUnary, pos);
    CallsRule(g, toks, fr, depth + 1, ExprFactor, Expected(toks, FACTOR, c, pos, depth + 1));
    if depth + 1 + Room(c) <= MAX_PARSE_DEPTH + 3 {
      var v := NodeArg(Built(toks, pos, c));
      var fr1 := Collect(fr, v, End(toks, pos, c));
      assert fr1.args == [v];
      Reduces(g, toks, fr1, depth + 1, ReduceSingle, v);
    }
  }

  // ----- chains of operators -----

  predicate IsChain(lvl: Level, c: Cst) {
    c.Bin? && Chains(lvl, c.op)
  }

  /** Where the loop stands with a left operand collected, about to try the operators. */
  function AtOperator(toks: Stream, lvl: Level, c: Cst, pos: nat): Frame {
    var v, end := NodeArg(Built(toks, pos, c)), End(toks, pos, c);
    if IsChain(lvl, c) then Frame(RuleOf(lvl), 0, 1, [v], true, end, end, end)
    else Frame(RuleOf(lvl), 0, 1, [v], false, pos, pos, end)
  }

  /** Between its operands stands the operator. */
  predicate BinStands(toks: Stream, pos: nat, c: Cst) {
    c.Bin? && (
      var p := NextSolid(toks, End(toks, pos, c.left));
      KindAt(toks, p) == c.op && End(toks, pos, c) == End(toks, p + 1, c.right) <= |toks|)
  }

  /** A chain is folded to the left, operator by operator, each fold in place of the left operand. */
  lemma ChainRuns(g: Grammar, toks: Stream, lvl: Level, c: Cst, pos: nat, depth: nat)
    requires Speaks(g) && depth < MAX_PARSE_DEPTH && lvl >= TERM
    requires Stands(toks, lvl, c, pos) && Ends(toks, lvl - 1, c, pos)
    ensures Run(g, toks, Start(RuleOf(lvl), pos), depth + 1) ==
            if depth + Room(c) <= MAX_PARSE_DEPTH + (PRIME - lvl)
            then Run(g, toks, AtOperator(toks, lvl, c, pos), depth + 1)
            else TooDeep
    decreases c, lvl, 0
  {
    hide Run, ParseRule, Speaks, Skips, Exists, NodeAt, Shared, FoldsAt, NextSolid;
    hide Reads, End, Built, AtOperator, RuleOf;
    if IsChain(lvl, c) {
      BinPieces(toks, pos, c);
      EndsWithin(toks, pos, c);
      hide Print;
      var p := NextSolid(toks, End(toks, pos, c.left)) + 1;
      ChainRuns(g, toks, lvl, c.left, pos, depth);
      LevelParses(g, toks, lvl - 1, c.right, p, depth + 1);
      ChainStep(g, toks, lvl, c, pos, depth + 1);
    } else {
      LevelParses(g, toks, lvl - 1, c, pos, depth + 1);
      ChainStarts(g, toks, lvl, c, pos, depth + 1);
    }
  }

  lemma ChainStarts(g: Grammar, toks: Stream, lvl: Level, c: Cst, pos: nat, d: nat)
    requires Speaks(g) && 0 < d <= MAX_PARSE_DEPTH && lvl >= TERM && !IsChain(lvl, c)
    requires ParseRule(g, toks, RuleOf(lvl - 1), pos, d) == Expected(toks, lvl - 1, c, pos, d)
    ensures Run(g, toks, Start(RuleOf(lvl), pos), d) ==
            if d + Room(c) <= MAX_PARSE_DEPTH + (PRIME - lvl + 1)
            then Run(g, toks, AtOperator(toks, lvl, c, pos), d)
            else TooDeep
  {
    hide Run, ParseRule, Speaks, Skips, Exists, NodeAt, Shared, FoldsAt, NextSolid;
    hide Built, End, Room, RuleOf;
    ChainTable(g, lvl);
    var fr := Start(RuleOf(lvl), pos);
    CallsRule(g, toks, fr, d, RuleOf(lvl - 1), Expected(toks, lvl - 1, c, pos, d));
    assert Collect(fr, NodeArg(Built(toks, pos, c)), End(toks, pos, c)) == AtOperator(toks, lvl, c, pos);
  }

  lemma ChainStep(g: Grammar, toks: Stream, lvl: Level, c: Cst, pos: nat, d: nat)
    requires Speaks(g) && 0 < d <= MAX_PARSE_DEPTH && lvl >= TERM && IsChain(lvl, c) && BinStands(toks, pos, c)
    requires
      var p := NextSolid(toks, End(toks, pos, c.left)) + 1;
      ParseRule(g, toks, RuleOf(lvl - 1), p, d) == Expected(toks, lvl - 1, c.right, p, d)
    ensures Run(g, toks, AtOperator(toks, lvl, c.left, pos), d) ==
            if d + Room(c.right) <= MAX_PARSE_DEPTH + (PRIME - lvl + 1)
            then Run(g, toks, AtOperator(toks, lvl, c, pos), d)
            else TooDeep
  {
    hide Run, ParseRule, Speaks, Skips, Exists, NodeAt, Shared, FoldsAt, NextSolid;
    hide End, Print, Apply, Expected, Room, RuleOf, Built, BehindOperator;
    var fr := AtOperator(toks, lvl, c.left, pos);
    var p := NextSolid(toks, fr.pos) + 1;
    FindsOperator(g, toks, lvl, fr, c.op, d);
    var fr1 := BehindOperator(lvl, fr, c.op, p);
    var v := NodeArg(Built(toks, p, c.right));
    StaysBehind(lvl, fr, c.op, p, v);
    RightOperand(g, toks, lvl, c, fr1, p, d);
    AppliesOperator(toks, c, pos, fr1.args + [v]);
  }

  /** The frame behind the operator: the second operator is found by the second production. */
  function BehindOperator(lvl: Level, fr: Frame, op: TokenKind, p: nat): Frame
    requires p > 0
  {
    Collect(if op == SecondOp(lvl) then HandOver(fr) else fr, TokenArg(p - 1), p)
  }

  lemma StaysBehind(lvl: Level, fr: Frame, op: TokenKind, p: nat, v: Arg)
    requires p > 0 && |fr.args| == 1 && fr.i == 0 && fr.j == 1
    ensures
      var fr1 := BehindOperator(lvl, fr, op, p);
      && fr1.id == fr.id && fr1.i <= 1 && fr1.j == 2 && fr1.pos == p && fr1.floor == fr.floor
      && fr1.args + [v] == [fr.args[0], TokenArg(p - 1), v]
  {
  }

  lemma FindsOperator(g: Grammar, toks: Stream, lvl: Level, fr: Frame, op: TokenKind, d: nat)
    requires Speaks(g) && lvl >= TERM && Chains(lvl, op) && fr.id == RuleOf(lvl) && fr.i == 0 && fr.j == 1
    requires KindAt(toks, NextSolid(toks, fr.pos)) == op
    ensures Run(g, toks, fr, d) == Run(g, toks, BehindOperator(lvl, fr, op, NextSolid(toks, fr.pos) + 1), d)
  {
    hide Run, ParseRule, Speaks, Skips, Exists, NodeAt, Shared, FoldsAt, NextSolid;
    hide RuleOf;
    ChainTable(g, lvl);
    if op == SecondOp(lvl) {
      HandsOver(g, toks, fr, d, FirstOp(lvl));
      Accepts(g, toks, HandOver(fr), d, op);
    } else {
      Accepts(g, toks, fr, d, op);
    }
  }

  /** The right operand is parsed and the operation folded in place of the left one. */
  lemma RightOperand(g: Grammar, toks: Stream, lvl: Level, c: Cst, fr: Frame, p: nat, d: nat)
    requires Speaks(g) && lvl >= TERM && IsChain(lvl, c) && fr.id == RuleOf(lvl) && fr.i <= 1 && fr.j == 2
    requires fr.pos == p && fr.floor < End(toks, p, c.right) <= |toks|
    requires ParseRule(g, toks, RuleOf(lvl - 1), p, d) == Expected(toks, lvl - 1, c.right, p, d)
    ensures
      var v, end := NodeArg(Built(toks, p, c.right)), End(toks, p, c.right);
      var w := Apply(ReduceExprOpExpr, toks, fr.args + [v]);
      && (d + Room(c.right) > MAX_PARSE_DEPTH + (PRIME - lvl + 1) ==> Run(g, toks, fr, d) == TooDeep)
      && (d + Room(c.right) <= MAX_PARSE_DEPTH + (PRIME - lvl + 1) && w.Some? ==>
            Run(g, toks, fr, d) == Run(g, toks, Frame(fr.id, 0, 1, [w.value], true, end, end, end), d))
  {
    hide Run, ParseRule, Speaks, Skips, Exists, NodeAt, Shared, FoldsAt, NextSolid;
    hide Room, RuleOf, Built, End, Apply, Expected;
    ChainTable(g, lvl);
    ExpectedIs(toks, lvl - 1, c.right, p, d);
    CallsRule(g, toks, fr, d, RuleOf(lvl - 1), Expected(toks, lvl - 1, c.right, p, d));
    var v := NodeArg(Built(toks, p, c.right));
    var fr1 := Collect(fr, v, End(toks, p, c.right));
    var w := Apply(ReduceExprOpExpr, toks, fr1.args);
    if d + Room(c.right) <= MAX_PARSE_DEPTH + (PRIME - lvl + 1) && w.Some? {
      Folds(g, toks, fr1, d, ReduceExprOpExpr, w.value, 1);
    }
  }

  lemma AppliesOperator(toks: Stream, c: Cst, pos: nat, args: seq<Arg>)
    requires c.Bin?
    requires
      var p := NextSolid(toks, End(toks, pos, c.left));
      && KindAt(toks, p) == c.op
      && args == [NodeArg(Built(toks, pos, c.left)), TokenArg(p), NodeArg(Built(toks, p + 1, c.right))]
    ensures Apply(ReduceExprOpExpr, toks, args) == Some(NodeArg(Built(toks, pos, c)))
  {
    hide End, NextSolid;
  }

  lemma ExpectedIs(toks: Stream, lvl: Level, c: Cst, pos: nat, depth: nat)
    ensures Expected(toks, lvl, c, pos, depth) ==
            if depth + Room(c) <= MAX_PARSE_DEPTH + (PRIME - lvl)
            then Reduced(NodeArg(Built(toks, pos, c)), End(toks, pos, c))
            else TooDeep
  {
    hide Built, End, Room;
  }

  lemma EndsWithin(toks: Stream, pos: nat, c: Cst)
    requires Reads(toks, pos, Print(c))
    ensures End(toks, pos, c) <= |toks|
  {
    ReadsWithin(toks, pos, Print(c));
  }

  /** Where no operator follows, the third production returns the left operand alone. */
  lemma ChainEnds(g: Grammar, toks: Stream, lvl: Level, c: Cst, pos: nat, d: nat)
    requires Speaks(g) && lvl >= TERM && Ends(toks, lvl, c, pos)
    ensures Run(g, toks, AtOperator(toks, lvl, c, pos), d) == Reduced(NodeArg(Built(toks, pos, c)), End(toks, pos, c))
  {
    hide Run, ParseRule, Speaks, Skips, Exists, NodeAt, Shared, FoldsAt, NextSolid;
    hide Built, End, RuleOf;
    ChainTable(g, lvl);
    var fr := AtOperator(toks, lvl, c, pos);
    HandsOver(g, toks, fr, d, FirstOp(lvl));
    HandsOver(g, toks, HandOver(fr), d, SecondOp(lvl));
    Reduces(g, toks, HandOver(HandOver(fr)), d, ReduceSingle, fr.args[0]);
  }

  // ----- levels -----

  lemma LevelParses(g: Grammar, toks: Stream, lvl: Level, c: Cst, pos: nat, depth: nat)
    requires Speaks(g) && Stands(toks, lvl, c, pos) && Ends(toks, lvl, c, pos)
    ensures ParseRule(g, toks, RuleOf(lvl), pos, depth) == Expected(toks, lvl, c, pos, depth)
    decreases c, lvl, 3
  {
    hide Run, ParseRule, Speaks, Skips, Exists, NodeAt, Shared, FoldsAt, NextSolid;
    hide Stands, AtOperator, Built, End, Room;
    if lvl == FACTOR {
      FactorParses(g, toks, c, pos, depth);
    } else if lvl == UNARY {
      UnaryParses(g, toks, c, pos, depth);
    } else {
      Enters(g, toks, RuleOf(lvl), pos, depth);
      if depth < MAX_PARSE_DEPTH {
        ChainRuns(g, toks, lvl, c, pos, depth);
        ChainEnds(g, toks, lvl, c, pos, depth + 1);
      }
    }
  }
}
