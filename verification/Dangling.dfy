/**
 The dangling operator: behind a folded chain, an operator without a right operand is read and dropped
 (bootstrap/parser.c:512-527). So what the parser accepts is more than what can be written, and some of
 it takes less room than the printed form of what was parsed.
 */
module Dangling {
  import opened Basics
  import opened Tokens
  import opened Ast
  import opened Grammar
  import opened Engine
  import opened Printing
  import opened Refusals
  import opened Programs
  import opened RoundTrip
  import opened ProgramRoundTrip
  import PrintParse
  import ProgramParse

  /** An operator of the level stands behind the expression, and behind that no operand. */
  predicate BehindIsOperator(toks: Stream, lvl: Level, c: Cst, pos: nat) {
    var p := NextSolid(toks, End(toks, pos, c));
    && lvl >= TERM && !EndsOpen(c)
    && Chains(lvl, KindAt(toks, p)) && !StartsExpr(KindAt(toks, NextSolid(toks, p + 1)))
  }

  /** The expression is a chain of one operation or more. */
  predicate Dangles(toks: Stream, lvl: Level, c: Cst, pos: nat) {
    BehindIsOperator(toks, lvl, c, pos) && PrintParse.IsChain(lvl, c)
  }

  /** The operator is read, and the chain before it is the result. */
  lemma DanglingOperatorIsDropped(g: Grammar, toks: Stream, lvl: Level, c: Cst, pos: nat, depth: nat)
    requires IsLanguage(g) && IsAt(lvl, c) && Reads(toks, pos, Print(c)) && Dangles(toks, lvl, c, pos)
    ensures
      ParseRule(g, toks, RuleOf(lvl), pos, depth) ==
      if depth + Room(c) <= MAX_PARSE_DEPTH + (PRIME - lvl)
      then Reduced(NodeArg(Built(toks, pos, c)), NextSolid(toks, End(toks, pos, c)) + 1)
      else TooDeep
  {
    hide Run, ParseRule, NextSolid, IsLanguage, StartsExpr, PrintParse.Speaks;
    hide IsAt, Reads, Built, End, Print, Room, RuleOf, PrintParse.Ends;
    LanguageSpeaks(g);
    OperatorEnds(toks, lvl, c, pos);
    PrintParse.Enters(g, toks, RuleOf(lvl), pos, depth);
    if depth < MAX_PARSE_DEPTH {
      PrintParse.ChainRuns(g, toks, lvl, c, pos, depth);
      if depth + Room(c) <= MAX_PARSE_DEPTH + (PRIME - lvl) {
        DropsOperator(g, toks, lvl, PrintParse.AtOperator(toks, lvl, c, pos), depth + 1);
      }
    }
  }

  lemma DropsOperator(g: Grammar, toks: Stream, lvl: Level, fr: Frame, d: nat)
    requires IsLanguage(g) && lvl >= TERM && fr.id == RuleOf(lvl) && fr.i == 0 && fr.j == 1 && fr.folded
    requires |fr.args| == 1
    requires d + lvl <= MAX_PARSE_DEPTH
    requires
      var p := NextSolid(toks, fr.pos);
      Chains(lvl, KindAt(toks, p)) && !StartsExpr(KindAt(toks, NextSolid(toks, p + 1)))
    ensures Run(g, toks, fr, d) == Reduced(fr.args[0], NextSolid(toks, fr.pos) + 1)
  {
    hide Run, ParseRule, Exists, NodeAt, Shared, FoldsAt, NextSolid, IsLanguage, StartsExpr, PrintParse.Speaks, RuleOf;
    LanguageSpeaks(g);
    var p := NextSolid(toks, fr.pos) + 1;
    var op := KindAt(toks, p - 1);
    PrintParse.FindsOperator(g, toks, lvl, fr, op, d);
    var fr1 := PrintParse.BehindOperator(lvl, fr, op, p);
    PrintParse.StaysBehind(lvl, fr, op, p, NullArg);
    PrintParse.ChainTable(g, lvl);
    LevelRefuses(g, toks, lvl - 1, p, d);
    RuleStep(g, toks, fr1, d, RuleOf(lvl - 1), Refused(p));
  }

  lemma OperatorEnds(toks: Stream, lvl: Level, c: Cst, pos: nat)
    requires BehindIsOperator(toks, lvl, c, pos)
    ensures PrintParse.Ends(toks, lvl - 1, c, pos)
  {
    hide NextSolid, End;
  }

  /** A lone operand takes its operator back from the first production of its level. */
  lemma FirstOperatorIsGivenBack(g: Grammar, toks: Stream, lvl: Level, c: Cst, pos: nat, d: nat)
    requires IsLanguage(g) && BehindIsOperator(toks, lvl, c, pos) && !PrintParse.IsChain(lvl, c)
    requires d + lvl <= MAX_PARSE_DEPTH
    requires KindAt(toks, NextSolid(toks, End(toks, pos, c))) == PrintParse.FirstOp(lvl)
    requires ParseRule(g, toks, RuleOf(lvl - 1), pos, d) == Reduced(NodeArg(Built(toks, pos, c)), End(toks, pos, c))
    ensures
      Run(g, toks, PrintParse.AtOperator(toks, lvl, c, pos), d) ==
      Reduced(NodeArg(Built(toks, pos, c)), End(toks, pos, c))
  {
    hide Run, ParseRule, Exists, NodeAt, Shared, FoldsAt, NextSolid, IsLanguage, StartsExpr, PrintParse.Speaks, RuleOf;
    hide Built, End, Apply;
    LanguageSpeaks(g);
    PrintParse.ChainTable(g, lvl);
    var v, end := NodeArg(Built(toks, pos, c)), End(toks, pos, c);
    var fr, p := PrintParse.AtOperator(toks, lvl, c, pos), NextSolid(toks, end) + 1;
    PrintParse.Accepts(g, toks, fr, d, PrintParse.FirstOp(lvl));
    var fr1 := Collect(fr, TokenArg(p - 1), p);
    LevelRefuses(g, toks, lvl - 1, p, d);
    PrintParse.CallsRule(g, toks, fr1, d, RuleOf(lvl - 1), Refused(p));
    var fr2 := RollBack(fr1);
    PrintParse.CallsRule(g, toks, fr2, d, RuleOf(lvl - 1), Reduced(v, end));
    var fr3 := Collect(fr2, v, end);
    PrintParse.HandsOver(g, toks, fr3, d, PrintParse.SecondOp(lvl));
    assert fr3.args == [v];
    ProgramParse.AppliesSingle(toks, fr3.args);
    PrintParse.Reduces(g, toks, HandOver(fr3), d, ReduceSingle, v);
  }

  /**
   The second operator is reached by a hand-over, which takes the checkpoint behind the operand: so the
   last production looks for an operand at the operator, and the whole rule refuses from there.
   */
  lemma SecondOperatorRefuses(g: Grammar, toks: Stream, lvl: Level, c: Cst, pos: nat, d: nat)
    requires IsLanguage(g) && BehindIsOperator(toks, lvl, c, pos) && !PrintParse.IsChain(lvl, c)
    requires d + lvl <= MAX_PARSE_DEPTH
    requires KindAt(toks, NextSolid(toks, End(toks, pos, c))) == PrintParse.SecondOp(lvl)
    ensures Run(g, toks, PrintParse.AtOperator(toks, lvl, c, pos), d) == Refused(End(toks, pos, c))
  {
    hide Run, ParseRule, Exists, NodeAt, Shared, FoldsAt, NextSolid, IsLanguage, StartsExpr, PrintParse.Speaks, RuleOf;
    hide Built, End, Apply;
    LanguageSpeaks(g);
    PrintParse.ChainTable(g, lvl);
    var end := End(toks, pos, c);
    var fr, p := PrintParse.AtOperator(toks, lvl, c, pos), NextSolid(toks, end) + 1;
    PrintParse.HandsOver(g, toks, fr, d, PrintParse.FirstOp(lvl));
    PrintParse.Accepts(g, toks, HandOver(fr), d, PrintParse.SecondOp(lvl));
    var fr1 := Collect(HandOver(fr), TokenArg(p - 1), p);
    LevelRefuses(g, toks, lvl - 1, p, d);
    PrintParse.CallsRule(g, toks, fr1, d, RuleOf(lvl - 1), Refused(p));
    var fr2 := RollBack(fr1);
    OperatorIsNoOperand(g, toks, lvl, end, d);
    PrintParse.CallsRule(g, toks, fr2, d, RuleOf(lvl - 1), Refused(end));
    RunsOut(g, toks, RollBack(fr2), d);
  }

  /** At its second operator, a level finds no operand; a minus is one only if a factor follows. */
  lemma OperatorIsNoOperand(g: Grammar, toks: Stream, lvl: Level, pos: nat, d: nat)
    requires IsLanguage(g) && lvl >= TERM && d + lvl <= MAX_PARSE_DEPTH
    requires
      var p := NextSolid(toks, pos);
      KindAt(toks, p) == PrintParse.SecondOp(lvl) && !StartsExpr(KindAt(toks, NextSolid(toks, p + 1)))
    ensures ParseRule(g, toks, RuleOf(lvl - 1), pos, d) == Refused(pos)
  {
    if lvl == TERM {
      assert !StartsExpr(TokSlash);
      hide Run, ParseRule, IsLanguage, NextSolid, StartsExpr;
      LevelRefuses(g, toks, UNARY, pos, d);
    } else {
      hide Run, ParseRule, IsLanguage, NextSolid, PrintParse.Speaks, PrintParse.StartsFactor;
      LanguageSpeaks(g);
      MinusAloneRefuses(g, toks, pos, d + 1);
      PrintParse.Enters(g, toks, ExprTerm, pos, d);
      ChainRefuses(g, toks, TERM, pos, d);
    }
  }

  lemma MinusAloneRefuses(g: Grammar, toks: Stream, pos: nat, depth: nat)
    requires IsLanguage(g) && depth + 1 < MAX_PARSE_DEPTH
    requires
      var p := NextSolid(toks, pos);
      KindAt(toks, p) == TokMinus && !PrintParse.StartsFactor(KindAt(toks, NextSolid(toks, p + 1)))
    ensures ParseRule(g, toks, ExprUnary, pos, depth) == Refused(pos)
  {
    MinusIsNoFactor();
    hide Run, ParseRule, Exists, NodeAt, Shared, FoldsAt, NextSolid, IsLanguage, PrintParse.Speaks;
    hide PrintParse.StartsFactor;
    LanguageSpeaks(g);
    PrintParse.UnaryTable(g);
    PrintParse.Enters(g, toks, ExprUnary, pos, depth);
    var fr, d, p := Start(ExprUnary, pos), depth + 1, NextSolid(toks, pos);
    PrintParse.FactorRefuses(g, toks, pos, d);
    PrintParse.CallsRule(g, toks, fr, d, ExprFactor, Refused(pos));
    PrintParse.Accepts(g, toks, RollBack(fr), d, TokMinus);
    var fr1 := Collect(RollBack(fr), TokenArg(p), p + 1);
    PrintParse.FactorRefuses(g, toks, p + 1, d);
    PrintParse.CallsRule(g, toks, fr1, d, ExprFactor, Refused(p + 1));
    RunsOut(g, toks, RollBack(fr1), d);
  }

  lemma LoneOperandIs(g: Grammar, toks: Stream, lvl: Level, c: Cst, pos: nat, d: nat)
    requires IsLanguage(g) && BehindIsOperator(toks, lvl, c, pos) && !PrintParse.IsChain(lvl, c)
    requires d + lvl <= MAX_PARSE_DEPTH
    requires ParseRule(g, toks, RuleOf(lvl - 1), pos, d) == Reduced(NodeArg(Built(toks, pos, c)), End(toks, pos, c))
    ensures
      var v, end := NodeArg(Built(toks, pos, c)), End(toks, pos, c);
      Run(g, toks, PrintParse.AtOperator(toks, lvl, c, pos), d) ==
      if KindAt(toks, NextSolid(toks, end)) == PrintParse.FirstOp(lvl) then Reduced(v, end) else Refused(end)
  {
    hide Run, ParseRule, NextSolid, IsLanguage, StartsExpr, Built, End, RuleOf;
    if KindAt(toks, NextSolid(toks, End(toks, pos, c))) == PrintParse.FirstOp(lvl) {
      FirstOperatorIsGivenBack(g, toks, lvl, c, pos, d);
    } else {
      SecondOperatorRefuses(g, toks, lvl, c, pos, d);
    }
  }

  /**
   All that can become of an operator without a right operand. Behind a chain it is dropped. Behind a lone
   operand the first operator of the level is given back, and the second one makes the rule refuse.
   */
  lemma DanglingOperatorIs(g: Grammar, toks: Stream, lvl: Level, c: Cst, pos: nat, depth: nat)
    requires IsLanguage(g) && IsAt(lvl, c) && Reads(toks, pos, Print(c)) && BehindIsOperator(toks, lvl, c, pos)
    ensures
      var v, end := NodeArg(Built(toks, pos, c)), End(toks, pos, c);
      ParseRule(g, toks, RuleOf(lvl), pos, depth) ==
      if depth + Room(c) > MAX_PARSE_DEPTH + (PRIME - lvl) then TooDeep
      else if PrintParse.IsChain(lvl, c) then Reduced(v, NextSolid(toks, end) + 1)
      else if KindAt(toks, NextSolid(toks, end)) == PrintParse.FirstOp(lvl) then Reduced(v, end)
      else Refused(end)
  {
    hide Run, ParseRule, NextSolid, IsLanguage, StartsExpr, PrintParse.Speaks;
    hide Reads, Built, End, Print, Room, RuleOf, PrintParse.Ends;
    if PrintParse.IsChain(lvl, c) {
      DanglingOperatorIsDropped(g, toks, lvl, c, pos, depth);
    } else {
      hide BehindIsOperator;
      LanguageSpeaks(g);
      OperatorEnds(toks, lvl, c, pos);
      AboveTerm(toks, lvl, c, pos);
      PrintParse.Enters(g, toks, RuleOf(lvl), pos, depth);
      if depth < MAX_PARSE_DEPTH {
        PrintParse.ChainRuns(g, toks, lvl, c, pos, depth);
        PrintParse.LevelParses(g, toks, lvl - 1, c, pos, depth + 1);
        PrintParse.ExpectedIs(toks, lvl - 1, c, pos, depth + 1);
        if depth + Room(c) <= MAX_PARSE_DEPTH + (PRIME - lvl) {
          LoneOperandIs(g, toks, lvl, c, pos, depth + 1);
        }
      }
    }
  }

  lemma AboveTerm(toks: Stream, lvl: Level, c: Cst, pos: nat)
    requires BehindIsOperator(toks, lvl, c, pos)
    ensures lvl >= TERM
  {
  }

  /** Where there is room, the operator is dropped exactly behind a chain. */
  lemma DroppedIff(g: Grammar, toks: Stream, lvl: Level, c: Cst, pos: nat, depth: nat)
    requires IsLanguage(g) && IsAt(lvl, c) && Reads(toks, pos, Print(c)) && BehindIsOperator(toks, lvl, c, pos)
    requires depth + Room(c) <= MAX_PARSE_DEPTH + (PRIME - lvl)
    ensures
      var r := ParseRule(g, toks, RuleOf(lvl), pos, depth);
      r.Reduced? && r.pos > NextSolid(toks, End(toks, pos, c)) <==> PrintParse.IsChain(lvl, c)
  {
    hide ParseRule, NextSolid, IsLanguage, IsAt, Reads, Built, End, Print, Room, RuleOf, BehindIsOperator;
    DanglingOperatorIs(g, toks, lvl, c, pos, depth);
  }

  // ----- single steps, given what the parts reduce to -----

  lemma GroupParses(g: Grammar, toks: Stream, pos: nat, depth: nat, room: nat, v: Arg, end: nat)
    requires IsLanguage(g) && KindAt(toks, pos) == TokLParen && KindAt(toks, end) == TokRParen && room > 0
    requires ParseRule(g, toks, ExprPrime, pos + 1, depth + 1) == Within(depth + 1, room, v, end)
    ensures ParseRule(g, toks, ExprFactor, pos, depth) == Within(depth, 1 + room, v, end + 1)
  {
    hide Run, ParseRule, Exists, NodeAt, Shared, FoldsAt, NextSolid, IsLanguage, Apply, PrintParse.Speaks;
    hide PrintParse.Skips;
    ProgramParse.Solid(toks, pos);
    ProgramParse.Solid(toks, end);
    LanguageSpeaks(g);
    PrintParse.FactorTable(g, 2);
    PrintParse.FactorRest(g);
    PrintParse.Enters(g, toks, ExprFactor, pos, depth);
    PrintParse.FactorOpens(g, toks, pos, 2, depth + 1);
    var fr := PrintParse.FactorOpen(toks, pos, 2);
    PrintParse.CallsRule(g, toks, fr, depth + 1, ExprPrime, Within(depth + 1, room, v, end));
    var fr1 := Collect(fr, v, end);
    PrintParse.Accepts(g, toks, fr1, depth + 1, TokRParen);
    var fr2 := Collect(fr1, TokenArg(end), end + 1);
    assert fr2.args == [TokenArg(pos), v, TokenArg(end)];
    PrintParse.AppliesTriple(toks, fr2.args);
    PrintParse.Reduces(g, toks, fr2, depth + 1, ReduceTriple, v);
  }

  lemma MinusParses(g: Grammar, toks: Stream, pos: nat, depth: nat, room: nat, n: Tree, end: nat)
    requires IsLanguage(g) && KindAt(toks, pos) == TokMinus && room > 0
    requires ParseRule(g, toks, ExprFactor, pos + 1, depth + 1) == Within(depth + 1, room, NodeArg(n), end)
    ensures ParseRule(g, toks, ExprUnary, pos, depth) == Within(depth, 1 + room, NodeArg(UExpr(pos, TokMinus, n)), end)
  {
    hide Run, ParseRule, Exists, NodeAt, Shared, FoldsAt, NextSolid, IsLanguage, Apply, PrintParse.Speaks;
    hide PrintParse.Skips;
    hide PrintParse.StartsFactor;
    ProgramParse.Solid(toks, pos);
    LanguageSpeaks(g);
    MinusIsNoFactor();
    PrintParse.UnaryTable(g);
    PrintParse.Enters(g, toks, ExprUnary, pos, depth);
    PrintParse.Enters(g, toks, ExprFactor, pos, depth + 1);
    var fr, d := Start(ExprUnary, pos), depth + 1;
    if d < MAX_PARSE_DEPTH {
      PrintParse.FactorRefuses(g, toks, pos, d);
    }
    PrintParse.CallsRule(g, toks, fr, d, ExprFactor, ParseRule(g, toks, ExprFactor, pos, d));
    PrintParse.Accepts(g, toks, RollBack(fr), d, TokMinus);
    var fr1 := Collect(RollBack(fr), TokenArg(pos), pos + 1);
    PrintParse.CallsRule(g, toks, fr1, d, ExprFactor, Within(d, room, NodeArg(n), end));
    var fr2 := Collect(fr1, NodeArg(n), end);
    assert fr2.args == [TokenArg(pos), NodeArg(n)];
    PrintParse.AppliesNeg(toks, fr2.args);
    PrintParse.Reduces(g, toks, fr2, d, ReduceMinus, NodeArg(UExpr(pos, TokMinus, n)));
  }

  lemma MinusIsNoFactor()
    ensures !PrintParse.StartsFactor(TokMinus)
  {
  }

  /** A minus before parentheses. */
  lemma NegatedParses(g: Grammar, toks: Stream, pos: nat, depth: nat, room: nat, n: Tree, end: nat)
    requires IsLanguage(g) && KindAt(toks, pos) == TokMinus && KindAt(toks, pos + 1) == TokLParen
    requires KindAt(toks, end) == TokRParen && !IsArithmetic(KindAt(toks, NextSolid(toks, end + 1))) && room > 0
    requires ParseRule(g, toks, ExprPrime, pos + 2, depth + 4) == Within(depth + 4, room, NodeArg(n), end)
    ensures
      ParseRule(g, toks, ExprPrime, pos, depth) == Within(depth, 4 + room, NodeArg(UExpr(pos, TokMinus, n)), end + 1)
  {
    hide ParseRule, IsLanguage, NextSolid;
    var v := NodeArg(UExpr(pos, TokMinus, n));
    GroupParses(g, toks, pos + 1, depth + 3, room, NodeArg(n), end);
    MinusParses(g, toks, pos, depth + 2, 1 + room, n, end + 1);
    ProgramParse.Lifts(g, toks, TERM, pos, depth + 1, 2 + room, v, end + 1);
    ProgramParse.Lifts(g, toks, PRIME, pos, depth, 3 + room, v, end + 1);
  }

  // ----- a program that is read but, printed, is too deep -----

  /** The sum of the `else` arm, with its dangling operator: `c + d +`. */
  function Sum(): Cst {
    Bin(TokPlus, Leaf(TokId, "c"), Leaf(TokId, "d"))
  }

  /** `if a then b else c + d + * e` */
  function Core(): (w: seq<Token>)
    ensures |w| == 11
  {
    [
      Token(TokIf, ""), Token(TokId, "a"), Token(TokThen, ""), Token(TokId, "b"), Token(TokElse, ""),
      Token(TokId, "c"), Token(TokPlus, ""), Token(TokId, "d"), Token(TokPlus, ""), Token(TokStar, ""),
      Token(TokId, "e")
    ]
  }

  /**
   The dropped operator leaves the condition as the left operand of `*`, which no writing can do without
   parentheses.
   */
  function CoreTree(pos: nat): Tree {
    var sum := Expr(pos + 6, TokPlus, Id(pos + 5, "c"), Id(pos + 7, "d"));
    Expr(pos + 9, TokStar, IfExpr(pos, Id(pos + 1, "a"), Id(pos + 3, "b"), Some(sum)), Id(pos + 10, "e"))
  }

  predicate Name(toks: Stream, pos: nat, name: string) {
    KindAt(toks, pos) == TokId && TextAt(toks, pos) == name
  }

  predicate SumStands(toks: Stream, pos: nat) {
    && Name(toks, pos, "c") && KindAt(toks, pos + 1) == TokPlus && Name(toks, pos + 2, "d")
    && KindAt(toks, pos + 3) == TokPlus && KindAt(toks, pos + 4) == TokStar
  }

  predicate CoreStands(toks: Stream, pos: nat) {
    && KindAt(toks, pos) == TokIf && Name(toks, pos + 1, "a") && KindAt(toks, pos + 2) == TokThen
    && Name(toks, pos + 3, "b")
    && KindAt(toks, pos + 4) == TokElse && SumStands(toks, pos + 5) && Name(toks, pos + 10, "e")
  }

  lemma SumReads(toks: Stream, p: nat)
    requires SumStands(toks, p)
    ensures Reads(toks, p, Print(Sum())) && End(toks, p, Sum()) == p + 3
    ensures Built(toks, p, Sum()) == Expr(p + 1, TokPlus, Id(p, "c"), Id(p + 2, "d"))
  {
    var l, r := Leaf(TokId, "c"), Leaf(TokId, "d");
    var op := Token(TokPlus, "");
    var rest := [op] + Print(r);
    ProgramParse.NamePlace(toks, "c", p);
    ProgramParse.NamePlace(toks, "d", p + 2);
    ProgramParse.Solid(toks, p + 1);
    assert Print(Sum()) == Print(l) + rest;
    assert rest[1..] == Print(r);
    assert Reads(toks, p + 1, rest);
    hide Reads, After, Built, Print, NextSolid, Room, IsAt;
    ReadsAnd(toks, p, Print(l), rest);
    ReadsWord(toks, p + 1, op, Print(r));
    BuiltNode(toks, p, Sum());
  }

  lemma SumIsChain()
    ensures IsAt(PRIME, Sum()) && PrintParse.IsChain(PRIME, Sum()) && !EndsOpen(Sum()) && Room(Sum()) == 4
  {
    var l, r := Leaf(TokId, "c"), Leaf(TokId, "d");
    assert IsAt(FACTOR, l) && IsAt(UNARY, l) && IsAt(TERM, l) && IsAt(PRIME, l);
    assert IsAt(FACTOR, r) && IsAt(UNARY, r) && IsAt(TERM, r);
  }

  lemma SumDangles(toks: Stream, p: nat)
    requires SumStands(toks, p)
    ensures Reads(toks, p, Print(Sum())) && IsAt(PRIME, Sum()) && Dangles(toks, PRIME, Sum(), p)
    ensures NextSolid(toks, End(toks, p, Sum())) == p + 3 && Room(Sum()) == 4
  {
    hide Reads, End, Built, Print, NextSolid, Room, IsAt, Sum, StartsExpr, EndsOpen;
    SumReads(toks, p);
    SumIsChain();
    StarStartsNothing();
    ProgramParse.Solid(toks, p + 3);
    ProgramParse.Solid(toks, p + 4);
  }

  lemma StarStartsNothing()
    ensures !StartsExpr(TokStar)
  {
  }

  /** The arm is the sum, and the operator behind it is gone. */
  lemma SumParses(g: Grammar, toks: Stream, p: nat, depth: nat)
    requires IsLanguage(g) && SumStands(toks, p)
    ensures
      ParseRule(g, toks, ExprPrime, p, depth) ==
      Within(depth, 4, NodeArg(Expr(p + 1, TokPlus, Id(p, "c"), Id(p + 2, "d"))), p + 4)
  {
    hide Reads, End, Built, Print, NextSolid, Room, IsAt, Sum, ParseRule, IsLanguage, Dangles;
    SumReads(toks, p);
    SumDangles(toks, p);
    DanglingOperatorIsDropped(g, toks, PRIME, Sum(), p, depth);
  }

  /** What is read behind the `if`. */
  function CoreTail(pos: nat): Tail {
    var n := CoreTree(pos).op1;
    Tail(n.cond, n.thenArm, n.elseArm, pos + 9, 5)
  }

  lemma CoreTailParses(g: Grammar, toks: Stream, pos: nat, depth: nat)
    requires IsLanguage(g) && CoreStands(toks, pos)
    ensures
      var t := CoreTail(pos);
      ParseRule(g, toks, IfTail, pos + 1, depth) == Within(depth, 5, ProgramParse.Parts(t), t.end)
  {
    hide Run, ParseRule, NextSolid, IsLanguage, PrintParse.Speaks, SumStands;
    LanguageSpeaks(g);
    PrintParse.Enters(g, toks, IfTail, pos + 1, depth);
    var d := depth + 1;
    ProgramParse.NameParses(g, toks, "a", pos + 1, d, TokThen);
    ProgramParse.NameParses(g, toks, "b", pos + 3, d, TokElse);
    SumParses(g, toks, pos + 5, d);
    PrintParse.IfTailSteps(g, toks, d, pos + 1, pos + 3, pos + 5,
      ParseRule(g, toks, ExprPrime, pos + 1, d), ParseRule(g, toks, ExprPrime, pos + 3, d),
      ParseRule(g, toks, ExprPrime, pos + 5, d));
  }

  lemma CoreEnd(toks: Stream, pos: nat)
    requires CoreStands(toks, pos)
    ensures KindAt(toks, pos + 9) == TokStar && pos + 11 <= |toks| && Name(toks, pos + 10, "e")
  {
  }

  lemma CoreParses(g: Grammar, toks: Stream, pos: nat, depth: nat)
    requires IsLanguage(g) && CoreStands(toks, pos) && !IsArithmetic(KindAt(toks, NextSolid(toks, pos + 11)))
    ensures ParseRule(g, toks, ExprPrime, pos, depth) == Within(depth, 9, NodeArg(CoreTree(pos)), pos + 11)
  {
    hide ParseRule, NextSolid, IsLanguage, SumStands;
    var t, n := CoreTail(pos), CoreTree(pos);
    CoreTailParses(g, toks, pos, depth + 4);
    ProgramParse.IfFactorParses(g, toks, pos, depth + 3, t);
    ProgramParse.Lifts(g, toks, UNARY, pos, depth + 2, 6, NodeArg(n.op1), pos + 9);
    CoreEnd(toks, pos);
    NameIsUnary(g, toks, pos + 10, "e", depth + 2);
    CoreTermParses(g, toks, pos, depth + 1);
    ProgramParse.Lifts(g, toks, PRIME, pos, depth, 8, NodeArg(n), pos + 11);
  }

  lemma NameIsUnary(g: Grammar, toks: Stream, pos: nat, name: string, depth: nat)
    requires IsLanguage(g) && KindAt(toks, pos) == TokId && TextAt(toks, pos) == name
    requires !IsArithmetic(KindAt(toks, NextSolid(toks, pos + 1)))
    ensures ParseRule(g, toks, ExprUnary, pos, depth) == Within(depth, 2, NodeArg(Id(pos, name)), pos + 1)
  {
    LanguageSpeaks(g);
    ProgramParse.NamePlace(toks, name, pos);
    var c := Leaf(TokId, name);
    assert IsAt(UNARY, c);
    hide ParseRule, NextSolid, IsLanguage, PrintParse.Speaks, Reads, IsAt, Print;
    PrintParse.LevelParses(g, toks, UNARY, c, pos, depth);
  }

  /** The `*` behind the condition is taken by the level that the condition stands at. */
  lemma CoreTermParses(g: Grammar, toks: Stream, pos: nat, depth: nat)
    requires IsLanguage(g) && KindAt(toks, pos + 9) == TokStar && pos + 11 <= |toks|
    requires !IsArithmetic(KindAt(toks, NextSolid(toks, pos + 11)))
    requires
      ParseRule(g, toks, ExprUnary, pos, depth + 1) == Within(depth + 1, 7, NodeArg(CoreTree(pos).op1), pos + 9)
    requires
      ParseRule(g, toks, ExprUnary, pos + 10, depth + 1) == Within(depth + 1, 2, NodeArg(CoreTree(pos).op2), pos + 11)
    ensures ParseRule(g, toks, ExprTerm, pos, depth) == Within(depth, 8, NodeArg(CoreTree(pos)), pos + 11)
  {
    hide Run, ParseRule, Exists, NodeAt, Shared, FoldsAt, NextSolid, IsLanguage, Apply, KindAt;
    hide PrintParse.Speaks, PrintParse.Skips;
    StarIsSolid(toks, pos + 9);
    LanguageSpeaks(g);
    var n, d := CoreTree(pos), depth + 1;
    var (l, op, r) := (NodeArg(n.op1), TokenArg(pos + 9), NodeArg(n.op2));
    PrintParse.ChainTable(g, TERM);
    PrintParse.Enters(g, toks, ExprTerm, pos, depth);
    var fr := Start(ExprTerm, pos);
    PrintParse.CallsRule(g, toks, fr, d, ExprUnary, Within(d, 7, l, pos + 9));
    var fr1 := Collect(fr, l, pos + 9);
    PrintParse.Accepts(g, toks, fr1, d, TokStar);
    var fr2 := Collect(fr1, op, pos + 10);
    PrintParse.CallsRule(g, toks, fr2, d, ExprUnary, Within(d, 2, r, pos + 11));
    var fr3 := Collect(fr2, r, pos + 11);
    assert fr3.args == [l, op, r];
    StarApplies(toks, pos);
    PrintParse.Folds(g, toks, fr3, d, ReduceExprOpExpr, NodeArg(n), 1);
    TermIsOver(g, toks, Refold(fr3, NodeArg(n), 1), d);
  }

  lemma StarIsSolid(toks: Stream, pos: nat)
    requires KindAt(toks, pos) == TokStar
    ensures NextSolid(toks, pos) == pos
  {
  }

  /** No operator follows: the product is the result. */
  lemma TermIsOver(g: Grammar, toks: Stream, fr: Frame, d: nat)
    requires IsLanguage(g) && fr.id == ExprTerm && fr.i == 0 && fr.j == 1 && |fr.args| == 1
    requires !IsArithmetic(KindAt(toks, NextSolid(toks, fr.pos)))
    ensures Run(g, toks, fr, d) == Reduced(fr.args[0], fr.pos)
  {
    hide Run, ParseRule, Exists, NodeAt, Shared, FoldsAt, NextSolid, IsLanguage, Apply, KindAt;
    hide PrintParse.Speaks, PrintParse.Skips;
    LanguageSpeaks(g);
    PrintParse.ChainTable(g, TERM);
    PrintParse.HandsOver(g, toks, fr, d, TokStar);
    PrintParse.HandsOver(g, toks, HandOver(fr), d, TokSlash);
    ProgramParse.AppliesSingle(toks, fr.args);
    PrintParse.Reduces(g, toks, HandOver(HandOver(fr)), d, ReduceSingle, fr.args[0]);
  }

  lemma StarApplies(toks: Stream, pos: nat)
    requires KindAt(toks, pos + 9) == TokStar
    ensures
      var n := CoreTree(pos);
      Apply(ReduceExprOpExpr, toks, [NodeArg(n.op1), TokenArg(pos + 9), NodeArg(n.op2)]) == Some(NodeArg(n))
  {
  }

  /** The core, under `k` minuses: `-(-(...))`. */
  function Nested(k: nat): (w: seq<Token>)
    ensures |w| == 11 + 3 * k
  {
    if k == 0 then Core()
    else [Token(TokMinus, ""), Token(TokLParen, "")] + (Nested(k - 1) + [Token(TokRParen, "")])
  }

  function NestedTree(pos: nat, k: nat): Tree
    decreases k
  {
    if k == 0 then CoreTree(pos) else UExpr(pos, TokMinus, NestedTree(pos + 2, k - 1))
  }

  lemma {:induction false} NestedParses(g: Grammar, toks: Stream, pos: nat, k: nat, depth: nat)
    requires IsLanguage(g) && Sits(toks, pos, Nested(k))
    requires !IsArithmetic(KindAt(toks, NextSolid(toks, pos + |Nested(k)|)))
    ensures
      ParseRule(g, toks, ExprPrime, pos, depth) ==
      Within(depth, 9 + 4 * k, NodeArg(NestedTree(pos, k)), pos + |Nested(k)|)
    decreases k
  {
    hide ParseRule, NextSolid, IsLanguage, PrintParse.Speaks, CoreStands, CoreTree;
    if k == 0 {
      CoreSits(toks, pos);
      CoreParses(g, toks, pos, depth);
    } else {
      NestedSits(toks, pos, k);
      var end := pos + 2 + |Nested(k - 1)|;
      ProgramParse.Solid(toks, end);
      NestedParses(g, toks, pos + 2, k - 1, depth + 4);
      NegatedParses(g, toks, pos, depth, 5 + 4 * k, NestedTree(pos + 2, k - 1), end);
    }
  }

  lemma SitsAt(toks: Stream, pos: nat, w: seq<Token>, i: nat)
    requires Sits(toks, pos, w) && i < |w|
    ensures pos + i < |toks| && KindAt(toks, pos + i) == w[i].kind && TextAt(toks, pos + i) == w[i].text
  {
    assert toks[pos..pos + |w|][i] == toks[pos + i];
  }

  lemma CoreTokens()
    ensures
      var w := Core();
      && w[0].kind == TokIf && w[1] == Token(TokId, "a") && w[2].kind == TokThen && w[3] == Token(TokId, "b")
      && w[4].kind == TokElse && w[5] == Token(TokId, "c") && w[6].kind == TokPlus && w[7] == Token(TokId, "d")
      && w[8].kind == TokPlus && w[9].kind == TokStar && w[10] == Token(TokId, "e")
  {
  }

  lemma CoreSits(toks: Stream, pos: nat)
    requires Sits(toks, pos, Core())
    ensures CoreStands(toks, pos)
  {
    hide Sits, KindAt, TextAt, Core;
    CoreTokens();
    forall i | 0 <= i < 11
      ensures KindAt(toks, pos + i) == Core()[i].kind && TextAt(toks, pos + i) == Core()[i].text
    {
      SitsAt(toks, pos, Core(), i);
    }
  }

  lemma NestedSits(toks: Stream, pos: nat, k: nat)
    requires k > 0 && Sits(toks, pos, Nested(k))
    ensures KindAt(toks, pos) == TokMinus && KindAt(toks, pos + 1) == TokLParen
    ensures Sits(toks, pos + 2, Nested(k - 1)) && KindAt(toks, pos + 2 + |Nested(k - 1)|) == TokRParen
  {
    var open, close := [Token(TokMinus, ""), Token(TokLParen, "")], [Token(TokRParen, "")];
    SitsAnd(toks, pos, open, Nested(k - 1) + close);
    SitsFirst(toks, pos, open);
    assert open == open[..1] + open[1..];
    SitsAnd(toks, pos, open[..1], open[1..]);
    SitsFirst(toks, pos + 1, open[1..]);
    SitsAnd(toks, pos + 2, Nested(k - 1), close);
    SitsFirst(toks, pos + 2 + |Nested(k - 1)|, close);
  }

  /** Printed, every minus takes the same room, but the condition needs its parentheses. */
  lemma {:induction false} NestedRoom(pos: nat, k: nat)
    ensures IsExpr(NestedTree(pos, k))
    ensures Room(Write(NestedTree(pos, k), PRIME, false)) == 13 + 4 * k
    ensures Room(Write(NestedTree(pos, k), FACTOR, false)) == 17 + 4 * k
    decreases k
  {
    if k == 0 {
      CoreRoom(pos);
    } else {
      NestedRoom(pos + 2, k - 1);
    }
  }

  lemma CoreRoom(pos: nat)
    ensures IsExpr(CoreTree(pos))
    ensures Room(Write(CoreTree(pos), PRIME, false)) == 13 && Room(Write(CoreTree(pos), FACTOR, false)) == 17
  {
    var n := CoreTree(pos);
    var c := n.op1;
    var sum := c.elseArm.value;
    CoreIsExpr(pos);
    SumRoom(sum);
    ProductRoom(n);
    hide Write, Room, IsExpr;
    WriteRoom(c.cond, PRIME, false);
    WriteRoom(c.thenArm, PRIME, false);
    WriteRoom(c, PRIME, false);
  }

  lemma CoreIsExpr(pos: nat)
    ensures
      var n := CoreTree(pos);
      IsExpr(n) && IsExpr(n.op1) && IsExpr(n.op1.cond) && IsExpr(n.op1.thenArm) && IsExpr(n.op1.elseArm.value)
  {
    var n := CoreTree(pos);
    assert IsExpr(n.op1.elseArm.value) && IsExpr(n.op1.cond) && IsExpr(n.op1.thenArm);
    assert IsExpr(n.op1) && IsExpr(n.op2);
  }

  lemma SumRoom(n: Tree)
    requires IsExpr(n) && n.Expr? && n.op == TokPlus && n.op1.Id? && n.op2.Id?
    ensures Room(Write(n, PRIME, false)) == 4
  {
    assert Write(n, PRIME, false) == Bin(TokPlus, Write(n.op1, PRIME, true), Write(n.op2, TERM, false));
  }

  /** A condition that is a left operand is written in parentheses. */
  lemma ProductRoom(n: Tree)
    requires IsExpr(n) && n.Expr? && n.op == TokStar && n.op1.IfExpr? && n.op2.Id?
    ensures Room(Write(n, PRIME, false)) == 4 + Room(Write(n.op1, PRIME, false))
    ensures Room(Write(n, FACTOR, false)) == 8 + Room(Write(n.op1, PRIME, false))
  {
    var c := n.op1;
    assert Write(n.op2, UNARY, false) == Leaf(TokId, n.op2.name);
    assert Write(c, TERM, true) == Paren(Write(c, PRIME, false));
    assert Write(n, PRIME, false) == Bin(TokStar, Write(c, TERM, true), Write(n.op2, UNARY, false));
    assert Write(n, FACTOR, false) == Paren(Write(n, PRIME, false));
  }

  function NestedProgram(k: nat): Stream {
    [Token(TokEcho, "")] + Nested(k)
  }

  function NestedProgramTree(k: nat): Tree {
    Block(0, [Echo(0, NestedTree(1, k))])
  }

  /** The program is read with four levels of recursion less than its printed form needs. */
  lemma NestedProgramParses(g: Grammar, k: nat)
    requires IsLanguage(g)
    ensures
      ParseRule(g, NestedProgram(k), Prog, 0, 0) ==
      Within(0, 13 + 4 * k, NodeArg(NestedProgramTree(k)), |NestedProgram(k)|)
  {
    SitsWhole(NestedProgram(k), k);
    hide NestedProgram, Nested, NestedTree, ParseRule, IsLanguage;
    EchoIsProgram(g, NestedProgram(k), k, NestedTree(1, k));
  }

  lemma NothingBehind(toks: Stream)
    ensures KindAt(toks, |toks|) == TokUndef && NextSolid(toks, |toks|) == |toks| == SepsEnd(toks, |toks|)
    ensures !IsSep(KindAt(toks, 0)) ==> SepsEnd(toks, 0) == 0
  {
  }

  lemma EchoIsProgram(g: Grammar, toks: Stream, k: nat, n: Tree)
    requires IsLanguage(g) && Sits(toks, 1, Nested(k)) && KindAt(toks, 0) == TokEcho && |toks| == 1 + |Nested(k)|
    requires n == NestedTree(1, k)
    ensures ParseRule(g, toks, Prog, 0, 0) == Within(0, 13 + 4 * k, NodeArg(Block(0, [Echo(0, n)])), |toks|)
  {
    hide ParseRule, IsLanguage, NextSolid, SepsEnd, Nested, NestedTree;
    NothingBehind(toks);
    NestedParses(g, toks, 1, k, 4);
    EchoParses(g, toks, 0, 3, Place(n, |toks|, 9 + 4 * k));
    StmtIsProgram(g, toks, Place(Echo(0, n), |toks|, 10 + 4 * k));
  }

  lemma ListIsOver(g: Grammar, toks: Stream, depth: nat)
    requires IsLanguage(g)
    ensures ParseList(g, toks, StmtNext, |toks|, [], depth) == Within(depth, 3, NullArg, |toks|)
  {
    hide ParseRule, ParseList, IsLanguage, NextSolid, SepsEnd;
    NothingBehind(toks);
    ListEnds(g, toks, StmtNext, |toks|, [], depth, ParseRule(g, toks, StmtNext, |toks|, depth));
    ProgramParse.NextRefuses(g, toks, |toks|, depth);
  }

  /** One statement up to the end of the input is a program. */
  lemma StmtIsProgram(g: Grammar, toks: Stream, p: Place)
    requires IsLanguage(g) && IsStmtNode(p.tree) && p.end == |toks| && !IsSep(KindAt(toks, 0)) && p.room >= 5
    requires ParseRule(g, toks, Stmt, 0, 3) == Within(3, p.room, NodeArg(p.tree), p.end)
    ensures ParseRule(g, toks, Prog, 0, 0) == Within(0, 3 + p.room, NodeArg(Block(0, [p.tree])), |toks|)
  {
    hide ParseRule, ParseList, IsLanguage, NextSolid, SepsEnd, IsSep, KindAt;
    NothingBehind(toks);
    var end, r := |toks|, Places([], |toks|, 3);
    assert [p.tree] + r.trees == [p.tree];
    ListIsOver(g, toks, 3);
    ProgramParse.StmtsRun(g, toks, 0, 2, p, r);
    ProgramParse.BlockRuns(g, toks, 0, 1, Places([p.tree], end, 1 + p.room));
    ProgramParse.ProgRuns(g, toks, 0, 0, Place(Block(0, [p.tree]), end, 2 + p.room));
  }

  lemma SitsWhole(toks: Stream, k: nat)
    requires toks == NestedProgram(k)
    ensures Sits(toks, 1, Nested(k)) && KindAt(toks, 0) == TokEcho && |toks| == 1 + |Nested(k)|
  {
    hide Nested;
    assert toks[1..1 + |Nested(k)|] == Nested(k);
  }

  lemma NestedProgramRoom(k: nat)
    ensures WritableBlock(NestedProgramTree(k)) && 1 + BlockRoom(WriteBlock(NestedProgramTree(k))) == 17 + 4 * k
  {
    NestedRoom(1, k);
    var n := NestedProgramTree(k);
    var s := n.stmts[0];
    hide NestedTree, IsExpr, Write, Room;
    assert WritableStmt(s) && StmtRoom(WriteStmt(s)) == 14 + 4 * k;
    assert WriteBlock(n) == [WriteStmt(s)];
  }

  lemma EchoParses(g: Grammar, toks: Stream, pos: nat, depth: nat, p: Place)
    requires IsLanguage(g) && KindAt(toks, pos) == TokEcho && p.room > 0
    requires ParseRule(g, toks, ExprPrime, pos + 1, depth + 1) == Within(depth + 1, p.room, NodeArg(p.tree), p.end)
    ensures ParseRule(g, toks, Stmt, pos, depth) == Within(depth, 1 + p.room, NodeArg(Echo(pos, p.tree)), p.end)
  {
    hide Run, ParseRule, Exists, NodeAt, Shared, FoldsAt, NextSolid, IsLanguage, Apply, PrintParse.Speaks;
    PrintParse.Enters(g, toks, Stmt, pos, depth);
    StmtTable(g);
    TermStep(g, toks, Start(Stmt, pos), depth + 1, TokEcho);
    ProgramParse.EchoRuns(g, toks, pos, depth + 1, p);
  }

  /**
   That a program is read does not show that it can be read again once it is printed: with 1020 minuses
   the limit of 4096 leaves room for the first parse and not for the second.
   */
  lemma OneParseIsNotEnough()
    ensures
      var toks, n := NestedProgram(1020), NestedProgramTree(1020);
      && ParseRule(Language, toks, Prog, 0, 0) == Reduced(NodeArg(n), |toks|)
      && WritableBlock(n) && ParseRule(Language, Lines(WriteBlock(n)), Prog, 0, 0) == TooDeep
  {
    hide ParseRule, NestedProgram, NestedProgramTree, Lines, WriteBlock, BlockRoom, WritableBlock;
    NestedProgramParses(Language, 1020);
    NestedProgramRoom(1020);
    EveryProgramRoundTrips(NestedProgramTree(1020));
  }
}
