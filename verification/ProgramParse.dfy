/**
 Parsing written programs: the interpreter of grammar tables on statements, blocks and whole programs.
 */
module ProgramParse {
  import opened Basics
  import opened Tokens
  import opened Ast
  import opened Grammar
  import opened Engine
  import opened Printing
  import opened Refusals
  import opened Programs
  import PrintParse
  import ParserSafety

  // ----- the tables of the statement rules -----

  lemma StmtRest(g: Grammar)
    requires IsLanguage(g)
    ensures NodeAt(g, Stmt, 0, 1) == Some(Rule(ExprPrime)) && NodeAt(g, Stmt, 0, 2) == Some(Reduce(ReduceEcho))
    ensures NodeAt(g, Stmt, 1, 1) == Some(Rule(IfTail)) && NodeAt(g, Stmt, 1, 2) == Some(Reduce(ReduceIfStmt))
    ensures NodeAt(g, Stmt, 2, 1) == Some(Term(TokDefine)) && NodeAt(g, Stmt, 2, 2) == Some(Rule(ExprPrime))
    ensures NodeAt(g, Stmt, 2, 3) == Some(Reduce(ReduceDefine)) && !Shared(g, Stmt, 2, 1)
    ensures NodeAt(g, Stmt, 3, 1) == Some(Term(TokAssign)) && NodeAt(g, Stmt, 3, 2) == Some(Rule(ExprPrime))
    ensures NodeAt(g, Stmt, 3, 3) == Some(Reduce(ReduceAssign))
    ensures FoldsAt(g, Stmt, 0) == FoldsAt(g, Stmt, 1) == FoldsAt(g, Stmt, 2) == FoldsAt(g, Stmt, 3) == -1
  {
    assert g(Stmt) == Language(Stmt);
    var a, b := g(Stmt).productions[2].nodes, g(Stmt).productions[3].nodes;
    assert a[..1][0] != b[..1][0];
  }

  lemma IfTailRest(g: Grammar)
    requires IsLanguage(g)
    ensures Exists(g, IfTail, 1) && Exists(g, IfTail, 2) && Exists(g, IfTail, 3)
    ensures NodeAt(g, IfTail, 1, 0) == Some(Rule(ExprPrime)) && NodeAt(g, IfTail, 1, 1) == Some(Term(TokThen))
    ensures NodeAt(g, IfTail, 1, 2) == Some(Rule(Stmt)) && NodeAt(g, IfTail, 1, 3) == Some(Reduce(ReduceIfThen))
    ensures NodeAt(g, IfTail, 2, 1) == Some(Rule(BracedBlock)) && NodeAt(g, IfTail, 2, 2) == Some(Term(TokElse))
    ensures NodeAt(g, IfTail, 2, 3) == Some(Rule(BracedBlock))
    ensures NodeAt(g, IfTail, 2, 4) == Some(Reduce(ReduceIfBlocks))
    ensures NodeAt(g, IfTail, 3, 2) == Some(Reduce(ReduceIfBlock))
    ensures FoldsAt(g, IfTail, 1) == FoldsAt(g, IfTail, 2) == FoldsAt(g, IfTail, 3) == -1
  {
    assert g(IfTail) == Language(IfTail);
  }

  lemma IfTailShares(g: Grammar)
    requires IsLanguage(g)
    ensures Shared(g, IfTail, 0, 1) && Shared(g, IfTail, 1, 1) && Shared(g, IfTail, 2, 2) && !Shared(g, IfTail, 0, 3)
  {
    assert g(IfTail) == Language(IfTail);
    var a, b := g(IfTail).productions[0].nodes, g(IfTail).productions[1].nodes;
    assert a[..3][2] != b[..3][2];
  }

  lemma ListTables(g: Grammar)
    requires IsLanguage(g)
    ensures Exists(g, StmtNext, 0) && !Exists(g, StmtNext, 1) && FoldsAt(g, StmtNext, 0) == -1
    ensures NodeAt(g, StmtNext, 0, 0) == Some(Rule(StmtSeps)) && NodeAt(g, StmtNext, 0, 1) == Some(Rule(Stmt))
    ensures NodeAt(g, StmtNext, 0, 2) == Some(Reduce(ReducePeekSecond))
    ensures NodeAt(g, Stmts, 0, 1) == Some(List(StmtNext)) && NodeAt(g, Stmts, 0, 2) == Some(Reduce(ReduceStmtStmts))
  {
    assert g(StmtNext) == Language(StmtNext) && g(Stmts) == Language(Stmts);
  }

  lemma BraceTables(g: Grammar)
    requires IsLanguage(g)
    ensures PrintParse.Skips(g, BracedBlock) && Exists(g, BracedBlock, 0) && FoldsAt(g, BracedBlock, 0) == -1
    ensures NodeAt(g, BracedBlock, 0, 0) == Some(Term(TokLBrace))
    ensures NodeAt(g, BracedBlock, 0, 1) == Some(Rule(BlockRule))
    ensures NodeAt(g, BracedBlock, 0, 2) == Some(Term(TokRBrace))
    ensures NodeAt(g, BracedBlock, 0, 3) == Some(Reduce(ReduceTriple))
    ensures Exists(g, Prog, 0) && FoldsAt(g, Prog, 0) == -1
    ensures NodeAt(g, Prog, 0, 0) == Some(Rule(BlockRule)) && NodeAt(g, Prog, 0, 1) == Some(Reduce(ReduceSingle))
  {
    assert g(BracedBlock) == Language(BracedBlock) && g(Prog) == Language(Prog);
  }

  // ----- what may follow -----

  lemma {:induction false} SolidOrSep(toks: Stream, pos: nat)
    ensures KindAt(toks, NextSolid(toks, pos)) == TokSemicolon || NextSolid(toks, pos) == SepsEnd(toks, pos)
    decreases |toks| - pos
  {
    if KindAt(toks, pos) == TokNewline {
      SolidOrSep(toks, pos + 1);
    }
  }

  /** Past any separators, what begins a statement or ends a block may follow a statement. */
  lemma SepsFollow(toks: Stream, pos: nat)
    requires !IsArithmetic(KindAt(toks, SepsEnd(toks, pos))) && KindAt(toks, SepsEnd(toks, pos)) != TokElse
    ensures Follows(toks, pos)
  {
    hide NextSolid, SepsEnd;
    SolidOrSep(toks, pos);
  }

  lemma StartsWritten(toks: Stream, pos: nat, s: Written)
    requires StmtPlace(toks, pos, s).Some?
    ensures KindAt(toks, pos) == TokEcho || KindAt(toks, pos) == TokId || KindAt(toks, pos) == TokIf
  {
    hide ExprPlace, TailPlace;
  }

  // ----- expressions in statements -----

  lemma ExprParses(g: Grammar, toks: Stream, e: Cst, pos: nat, depth: nat)
    requires IsLanguage(g) && ExprPlace(toks, pos, e).Some?
    requires !IsArithmetic(KindAt(toks, NextSolid(toks, ExprPlace(toks, pos, e).value.end)))
    ensures
      var p := ExprPlace(toks, pos, e).value;
      ParseRule(g, toks, ExprPrime, pos, depth) == Within(depth, p.room, NodeArg(p.tree), p.end)
  {
    hide IsAt, Reads, Room, Built, ParseRule, Print, End, NextSolid, IsLanguage;
    LanguageSpeaks(g);
    PrintParse.LevelParses(g, toks, PRIME, e, pos, depth);
  }

  /** What a rule of expressions reduces to, the looser rules reduce to, if no operator follows. */
  lemma Lifts(g: Grammar, toks: Stream, lvl: Level, pos: nat, depth: nat, room: nat, v: Arg, end: nat)
    requires IsLanguage(g) && lvl > FACTOR && room > 0
    requires lvl == UNARY || !IsArithmetic(KindAt(toks, NextSolid(toks, end)))
    requires ParseRule(g, toks, RuleOf(lvl - 1), pos, depth + 1) == Within(depth + 1, room, v, end)
    ensures ParseRule(g, toks, RuleOf(lvl), pos, depth) == Within(depth, 1 + room, v, end)
  {
    hide Run, ParseRule, Exists, NodeAt, Shared, FoldsAt, NextSolid, IsLanguage, Apply, PrintParse.Speaks;
    hide PrintParse.Skips;
    LanguageSpeaks(g);
    PrintParse.Enters(g, toks, RuleOf(lvl), pos, depth);
    var fr, d := Start(RuleOf(lvl), pos), depth + 1;
    var r := ParseRule(g, toks, RuleOf(lvl - 1), pos, d);
    var fr1 := Collect(fr, v, end);
    assert fr1.args == [v];
    AppliesSingle(toks, fr1.args);
    if lvl == UNARY {
      PrintParse.UnaryTable(g);
      PrintParse.CallsRule(g, toks, fr, d, ExprFactor, r);
      PrintParse.Reduces(g, toks, fr1, d, ReduceSingle, v);
    } else {
      PrintParse.ChainTable(g, lvl);
      PrintParse.CallsRule(g, toks, fr, d, RuleOf(lvl - 1), r);
      PrintParse.HandsOver(g, toks, fr1, d, PrintParse.FirstOp(lvl));
      PrintParse.HandsOver(g, toks, HandOver(fr1), d, PrintParse.SecondOp(lvl));
      PrintParse.Reduces(g, toks, HandOver(HandOver(fr1)), d, ReduceSingle, v);
    }
  }

  lemma AppliesSingle(toks: Stream, args: seq<Arg>)
    requires |args| == 1
    ensures Apply(ReduceSingle, toks, args) == Some(args[0])
  {
  }

  // ----- statements -----

  /** An echo, a definition or an assignment. */
  lemma SimpleParses(g: Grammar, toks: Stream, s: Written, pos: nat, depth: nat)
    requires IsLanguage(g) && !IsIf(s) && StmtPlace(toks, pos, s).Some?
    requires Follows(toks, StmtPlace(toks, pos, s).value.end)
    ensures
      var p := StmtPlace(toks, pos, s).value;
      ParseRule(g, toks, Stmt, pos, depth) == Within(depth, p.room, NodeArg(p.tree), p.end)
  {
    hide Run, ParseRule, Exists, NodeAt, Shared, FoldsAt, NextSolid, IsLanguage, Apply, ExprPlace, Room;
    PrintParse.Enters(g, toks, Stmt, pos, depth);
    StmtTable(g);
    StmtRest(g);
    var fr, d := Start(Stmt, pos), depth + 1;
    TermStep(g, toks, fr, d, TokEcho);
    if s.EchoOf? {
      ExprParses(g, toks, s.expr, pos + 1, d);
      EchoRuns(g, toks, pos, d, ExprPlace(toks, pos + 1, s.expr).value);
    } else {
      TermStep(g, toks, HandOver(fr), d, TokIf);
      TermStep(g, toks, HandOver(HandOver(fr)), d, TokId);
      var fr1 := Collect(HandOver(HandOver(fr)), TokenArg(pos), pos + 1);
      assert fr1 == Named(pos);
      TermStep(g, toks, fr1, d, TokDefine);
      ExprParses(g, toks, s.expr, pos + 2, d);
      if s.DefineOf? {
        DefineRuns(g, toks, s.name, pos, d, ExprPlace(toks, pos + 2, s.expr).value);
      } else {
        AssignRuns(g, toks, s.name, pos, d, ExprPlace(toks, pos + 2, s.expr).value);
      }
    }
  }

  lemma EchoRuns(g: Grammar, toks: Stream, pos: nat, d: nat, p: Place)
    requires IsLanguage(g) && KindAt(toks, pos) == TokEcho
    requires ParseRule(g, toks, ExprPrime, pos + 1, d) == Within(d, p.room, NodeArg(p.tree), p.end)
    ensures
      Run(g, toks, Collect(Start(Stmt, pos), TokenArg(pos), pos + 1), d) ==
      Within(d, p.room, NodeArg(Echo(pos, p.tree)), p.end)
  {
    hide Run, ParseRule, Exists, NodeAt, Shared, FoldsAt, IsLanguage;
    StmtTable(g);
    StmtRest(g);
    var fr := Collect(Start(Stmt, pos), TokenArg(pos), pos + 1);
    RuleStep(g, toks, fr, d, ExprPrime, Within(d, p.room, NodeArg(p.tree), p.end));
    var fr1 := Collect(fr, NodeArg(p.tree), p.end);
    assert fr1.args == [TokenArg(pos), NodeArg(p.tree)];
    ReduceStep(g, toks, fr1, d, ReduceEcho);
  }

  /** A statement's leading name is read. */
  function Named(pos: nat): Frame {
    Frame(Stmt, 2, 1, [TokenArg(pos)], false, pos, pos, pos + 1)
  }

  lemma DefineRuns(g: Grammar, toks: Stream, name: string, pos: nat, d: nat, p: Place)
    requires IsLanguage(g) && KindAt(toks, pos) == TokId && TextAt(toks, pos) == name
    requires KindAt(toks, pos + 1) == TokDefine
    requires ParseRule(g, toks, ExprPrime, pos + 2, d) == Within(d, p.room, NodeArg(p.tree), p.end)
    ensures
      Run(g, toks, Collect(Named(pos), TokenArg(pos + 1), pos + 2), d) ==
      Within(d, p.room, NodeArg(Define(pos + 1, Id(pos, name), p.tree)), p.end)
  {
    hide Run, ParseRule, Exists, NodeAt, Shared, FoldsAt, IsLanguage;
    StmtTable(g);
    StmtRest(g);
    var fr := Collect(Named(pos), TokenArg(pos + 1), pos + 2);
    RuleStep(g, toks, fr, d, ExprPrime, Within(d, p.room, NodeArg(p.tree), p.end));
    var fr1 := Collect(fr, NodeArg(p.tree), p.end);
    assert fr1.args == [TokenArg(pos), TokenArg(pos + 1), NodeArg(p.tree)];
    ReduceStep(g, toks, fr1, d, ReduceDefine);
  }

  /** The name is given back, and read again as an expression. */
  lemma AssignRuns(g: Grammar, toks: Stream, name: string, pos: nat, d: nat, p: Place)
    requires IsLanguage(g) && KindAt(toks, pos) == TokId && TextAt(toks, pos) == name
    requires KindAt(toks, pos + 1) == TokAssign
    requires ParseRule(g, toks, ExprPrime, pos + 2, d) == Within(d, p.room, NodeArg(p.tree), p.end) && p.room >= 4
    ensures
      Run(g, toks, RollBack(Named(pos)), d) ==
      Within(d, p.room, NodeArg(Assign(pos + 1, Id(pos, name), p.tree)), p.end)
  {
    hide Run, ParseRule, Exists, NodeAt, Shared, FoldsAt, NextSolid, IsLanguage, Apply;
    StmtTable(g);
    StmtRest(g);
    var fr := RollBack(Named(pos));
    NameParses(g, toks, name, pos, d, TokAssign);
    var target := NodeArg(Id(pos, name));
    RuleStep(g, toks, fr, d, ExprPrime, Within(d, 4, target, pos + 1));
    var fr1 := Collect(fr, target, pos + 1);
    TermStep(g, toks, fr1, d, TokAssign);
    var fr2 := Collect(fr1, TokenArg(pos + 1), pos + 2);
    RuleStep(g, toks, fr2, d, ExprPrime, Within(d, p.room, NodeArg(p.tree), p.end));
    var fr3 := Collect(fr2, NodeArg(p.tree), p.end);
    assert fr3.args == [target, TokenArg(pos + 1), NodeArg(p.tree)];
    ReduceStep(g, toks, fr3, d, ReduceAssign);
    AppliesAssign(toks, pos, name, p.tree);
  }

  lemma AppliesAssign(toks: Stream, pos: nat, name: string, value: Tree)
    requires KindAt(toks, pos + 1) == TokAssign
    ensures
      Apply(ReduceAssign, toks, [NodeArg(Id(pos, name)), TokenArg(pos + 1), NodeArg(value)]) ==
      Some(NodeArg(Assign(pos + 1, Id(pos, name), value)))
  {
  }

  lemma NameParses(g: Grammar, toks: Stream, name: string, pos: nat, depth: nat, next: TokenKind)
    requires IsLanguage(g) && KindAt(toks, pos) == TokId && TextAt(toks, pos) == name && KindAt(toks, pos + 1) == next
    requires !IsArithmetic(next) && next != TokNewline
    ensures ParseRule(g, toks, ExprPrime, pos, depth) == Within(depth, 4, NodeArg(Id(pos, name)), pos + 1)
    ensures NextSolid(toks, pos + 1) == pos + 1
  {
    hide ParseRule, IsLanguage;
    NamePlace(toks, name, pos);
    ExprParses(g, toks, Leaf(TokId, name), pos, depth);
  }

  lemma NamePlace(toks: Stream, name: string, pos: nat)
    requires KindAt(toks, pos) == TokId && TextAt(toks, pos) == name
    ensures ExprPlace(toks, pos, Leaf(TokId, name)) == Some(Place(Id(pos, name), pos + 1, 4))
  {
    var c := Leaf(TokId, name);
    assert NextSolid(toks, pos) == pos;
    ReadsLast(toks, pos, Token(TokId, name));
    var w := [Token(TokId, name)];
    assert Print(c) == w && w[1..] == [];
    assert Reads(toks, pos, w);
    assert IsAt(FACTOR, c) && IsAt(UNARY, c) && IsAt(TERM, c) && IsAt(PRIME, c);
    assert Built(toks, pos, c) == Id(pos, name);
    assert End(toks, pos, c) == After(toks, pos, 1);
  }

  // ----- conditions, given what their parts reduce to -----

  function Parts(t: Tail): Arg {
    PartsArg(t.cond, t.thenArm, t.elseArm)
  }

  lemma IfStmtParses(g: Grammar, toks: Stream, pos: nat, depth: nat, t: Tail)
    requires IsLanguage(g) && KindAt(toks, pos) == TokIf
    requires ParseRule(g, toks, IfTail, pos + 1, depth + 1) == Within(depth + 1, t.room, Parts(t), t.end)
    ensures
      ParseRule(g, toks, Stmt, pos, depth) ==
      Within(depth, 1 + t.room, NodeArg(IfStmt(pos, t.cond, t.thenArm, t.elseArm)), t.end)
  {
    hide Run, ParseRule, Exists, NodeAt, Shared, FoldsAt, IsLanguage;
    PrintParse.Enters(g, toks, Stmt, pos, depth);
    StmtTable(g);
    StmtRest(g);
    var fr, d := Start(Stmt, pos), depth + 1;
    TermStep(g, toks, fr, d, TokEcho);
    TermStep(g, toks, HandOver(fr), d, TokIf);
    var fr1 := Collect(HandOver(fr), TokenArg(pos), pos + 1);
    RuleStep(g, toks, fr1, d, IfTail, Within(d, t.room, Parts(t), t.end));
    var fr2 := Collect(fr1, Parts(t), t.end);
    assert fr2.args == [TokenArg(pos), Parts(t)];
    ReduceStep(g, toks, fr2, d, ReduceIfStmt);
  }

  lemma Solid(toks: Stream, pos: nat)
    requires KindAt(toks, pos) != TokNewline
    ensures NextSolid(toks, pos) == pos
  {
  }

  lemma IfFactorParses(g: Grammar, toks: Stream, pos: nat, depth: nat, t: Tail)
    requires IsLanguage(g) && KindAt(toks, pos) == TokIf
    requires ParseRule(g, toks, IfTail, pos + 1, depth + 1) == Within(depth + 1, t.room, Parts(t), t.end)
    ensures
      ParseRule(g, toks, ExprFactor, pos, depth) ==
      Within(depth, 1 + t.room, NodeArg(IfExpr(pos, t.cond, t.thenArm, t.elseArm)), t.end)
  {
    hide Run, ParseRule, Exists, NodeAt, Shared, FoldsAt, IsLanguage, NextSolid, PrintParse.Speaks, Apply;
    Solid(toks, pos);
    LanguageSpeaks(g);
    PrintParse.FactorTable(g, 3);
    PrintParse.FactorRest(g);
    PrintParse.Enters(g, toks, ExprFactor, pos, depth);
    PrintParse.FactorOpens(g, toks, pos, 3, depth + 1);
    var n := IfExpr(pos, t.cond, t.thenArm, t.elseArm);
    var fr := PrintParse.FactorOpen(toks, pos, 3);
    PrintParse.CallsRule(g, toks, fr, depth + 1, IfTail, Within(depth + 1, t.room, Parts(t), t.end));
    var fr1 := Collect(fr, Parts(t), t.end);
    assert fr1.args == [TokenArg(pos), Parts(t)];
    PrintParse.AppliesIfExpr(toks, n, fr1.args);
    PrintParse.Reduces(g, toks, fr1, depth + 1, ReduceIfExpr, NodeArg(n));
  }

  /** Read as an expression, a condition is an expression all the same. */
  lemma IfExprParses(g: Grammar, toks: Stream, pos: nat, depth: nat, t: Tail)
    requires IsLanguage(g) && KindAt(toks, pos) == TokIf && Follows(toks, t.end)
    requires ParseRule(g, toks, IfTail, pos + 1, depth + 4) == Within(depth + 4, t.room, Parts(t), t.end)
    ensures
      ParseRule(g, toks, ExprPrime, pos, depth) ==
      Within(depth, 4 + t.room, NodeArg(IfExpr(pos, t.cond, t.thenArm, t.elseArm)), t.end)
  {
    hide ParseRule, IsLanguage, NextSolid;
    var v := NodeArg(IfExpr(pos, t.cond, t.thenArm, t.elseArm));
    IfFactorParses(g, toks, pos, depth + 3, t);
    Lifts(g, toks, UNARY, pos, depth + 2, 1 + t.room, v, t.end);
    Lifts(g, toks, TERM, pos, depth + 1, 2 + t.room, v, t.end);
    Lifts(g, toks, PRIME, pos, depth, 3 + t.room, v, t.end);
  }

  /** An arm behind `then` is not an expression followed by `else`. */
  predicate NoExprArm(toks: Stream, r: Outcome) {
    r.Refused? || (r.Reduced? && KindAt(toks, NextSolid(toks, r.pos)) != TokElse)
  }

  /** The room that the arm takes when it is tried as an expression. */
  function TriedRoom(arm: Written, room: nat): nat {
    if IsIf(arm) then 3 + room else 4
  }

  lemma ThenRuns(g: Grammar, toks: Stream, pos: nat, d: nat, c: Place, a: Place, tried: nat)
    requires IsLanguage(g) && KindAt(toks, NextSolid(toks, c.end)) == TokThen
    requires ParseRule(g, toks, ExprPrime, pos, d) == Within(d, c.room, NodeArg(c.tree), c.end)
    requires
      var q := NextSolid(toks, c.end) + 1;
      var r := ParseRule(g, toks, ExprPrime, q, d);
      && (if d + tried <= MAX_PARSE_DEPTH then NoExprArm(toks, r) else r == TooDeep)
      && ParseRule(g, toks, Stmt, q, d) == Within(d, a.room, NodeArg(a.tree), a.end)
    ensures
      Run(g, toks, Start(IfTail, pos), d) ==
      Within(d, Max(c.room, Max(tried, a.room)), PartsArg(c.tree, a.tree, None), a.end)
  {
    hide Run, ParseRule, Exists, NodeAt, Shared, FoldsAt, IsLanguage, NextSolid, PrintParse.Speaks, PrintParse.Skips;
    hide Apply;
    LanguageSpeaks(g);
    PrintParse.IfTailTable(g);
    IfTailRest(g);
    IfTailShares(g);
    var fr, q := Start(IfTail, pos), NextSolid(toks, c.end) + 1;
    var rc, r := Within(d, c.room, NodeArg(c.tree), c.end), ParseRule(g, toks, ExprPrime, q, d);
    PrintParse.CallsRule(g, toks, fr, d, ExprPrime, rc);
    if rc.Reduced? {
      var fr1 := Collect(fr, NodeArg(c.tree), c.end);
      PrintParse.Accepts(g, toks, fr1, d, TokThen);
      var fr2 := Collect(fr1, TokenArg(q - 1), q);
      PrintParse.CallsRule(g, toks, fr2, d, ExprPrime, r);
      if r.Reduced? {
        PrintParse.GivesUp(g, toks, Collect(fr2, r.arg, r.pos), d, TokElse);
      }
      ThenArmRuns(g, toks, RollBack(fr), d, c, a);
    }
  }

  lemma ThenArmRuns(g: Grammar, toks: Stream, fr: Frame, d: nat, c: Place, a: Place)
    requires IsLanguage(g) && KindAt(toks, NextSolid(toks, c.end)) == TokThen
    requires fr.id == IfTail && fr.i == 1 && fr.j == 0 && fr.args == [] && !fr.folded
    requires ParseRule(g, toks, ExprPrime, fr.pos, d) == Reduced(NodeArg(c.tree), c.end)
    requires ParseRule(g, toks, Stmt, NextSolid(toks, c.end) + 1, d) == Within(d, a.room, NodeArg(a.tree), a.end)
    ensures Run(g, toks, fr, d) == Within(d, a.room, PartsArg(c.tree, a.tree, None), a.end)
  {
    hide Run, ParseRule, Exists, NodeAt, Shared, FoldsAt, IsLanguage, NextSolid, PrintParse.Speaks, PrintParse.Skips;
    LanguageSpeaks(g);
    PrintParse.IfTailTable(g);
    IfTailRest(g);
    var q := NextSolid(toks, c.end) + 1;
    PrintParse.CallsRule(g, toks, fr, d, ExprPrime, Reduced(NodeArg(c.tree), c.end));
    var fr1 := Collect(fr, NodeArg(c.tree), c.end);
    PrintParse.Accepts(g, toks, fr1, d, TokThen);
    var fr2 := Collect(fr1, TokenArg(q - 1), q);
    PrintParse.CallsRule(g, toks, fr2, d, Stmt, Within(d, a.room, NodeArg(a.tree), a.end));
    var fr3 := Collect(fr2, NodeArg(a.tree), a.end);
    assert fr3.args == [NodeArg(c.tree), TokenArg(q - 1), NodeArg(a.tree)];
    ReduceStep(g, toks, fr3, d, ReduceIfThen);
  }

  /** The condition and the block behind it are read, `else` may follow. */
  function Braced(pos: nat, c: Place, a: Place): Frame {
    Frame(IfTail, 2, 2, [NodeArg(c.tree), NodeArg(a.tree)], false, pos, c.end, a.end)
  }

  /** Behind a condition without `then`, the productions with braces take over. */
  lemma BraceRuns(g: Grammar, toks: Stream, pos: nat, d: nat, c: Place, a: Place)
    requires IsLanguage(g) && KindAt(toks, NextSolid(toks, c.end)) != TokThen
    requires ParseRule(g, toks, ExprPrime, pos, d) == Within(d, c.room, NodeArg(c.tree), c.end)
    requires ParseRule(g, toks, BracedBlock, c.end, d) == Within(d, a.room, NodeArg(a.tree), a.end)
    ensures
      Run(g, toks, Start(IfTail, pos), d) ==
      if d + Max(c.room, a.room) <= MAX_PARSE_DEPTH then Run(g, toks, Braced(pos, c, a), d) else TooDeep
  {
    hide Run, ParseRule, Exists, NodeAt, Shared, FoldsAt, IsLanguage, NextSolid, PrintParse.Speaks, PrintParse.Skips;
    LanguageSpeaks(g);
    PrintParse.IfTailTable(g);
    IfTailRest(g);
    IfTailShares(g);
    var fr0 := Start(IfTail, pos);
    PrintParse.CallsRule(g, toks, fr0, d, ExprPrime, Within(d, c.room, NodeArg(c.tree), c.end));
    var fr1 := Collect(fr0, NodeArg(c.tree), c.end);
    PrintParse.HandsOver(g, toks, fr1, d, TokThen);
    PrintParse.HandsOver(g, toks, HandOver(fr1), d, TokThen);
    var fr2 := HandOver(HandOver(fr1));
    PrintParse.CallsRule(g, toks, fr2, d, BracedBlock, Within(d, a.room, NodeArg(a.tree), a.end));
    assert Collect(fr2, NodeArg(a.tree), a.end).args == [NodeArg(c.tree), NodeArg(a.tree)];
    assert Collect(fr2, NodeArg(a.tree), a.end) == Braced(pos, c, a);
  }

  lemma OneBlockRuns(g: Grammar, toks: Stream, pos: nat, d: nat, c: Place, a: Place)
    requires IsLanguage(g) && KindAt(toks, NextSolid(toks, a.end)) != TokElse
    ensures Run(g, toks, Braced(pos, c, a), d) == Reduced(PartsArg(c.tree, a.tree, None), a.end)
  {
    hide Run, Exists, NodeAt, Shared, FoldsAt, IsLanguage, NextSolid, PrintParse.Speaks, PrintParse.Skips;
    LanguageSpeaks(g);
    PrintParse.IfTailTable(g);
    IfTailRest(g);
    IfTailShares(g);
    var fr := Braced(pos, c, a);
    PrintParse.HandsOver(g, toks, fr, d, TokElse);
    ReduceStep(g, toks, HandOver(fr), d, ReduceIfBlock);
  }

  lemma TwoBlocksRun(g: Grammar, toks: Stream, pos: nat, d: nat, c: Place, a: Place, b: Place)
    requires IsLanguage(g) && KindAt(toks, NextSolid(toks, a.end)) == TokElse
    requires ParseRule(g, toks, BracedBlock, NextSolid(toks, a.end) + 1, d) == Within(d, b.room, NodeArg(b.tree), b.end)
    ensures Run(g, toks, Braced(pos, c, a), d) == Within(d, b.room, PartsArg(c.tree, a.tree, Some(b.tree)), b.end)
  {
    hide Run, ParseRule, Exists, NodeAt, Shared, FoldsAt, IsLanguage, NextSolid, PrintParse.Speaks, PrintParse.Skips;
    LanguageSpeaks(g);
    PrintParse.IfTailTable(g);
    IfTailRest(g);
    var fr, q := Braced(pos, c, a), NextSolid(toks, a.end) + 1;
    PrintParse.Accepts(g, toks, fr, d, TokElse);
    var fr1 := Collect(fr, TokenArg(q - 1), q);
    PrintParse.CallsRule(g, toks, fr1, d, BracedBlock, Within(d, b.room, NodeArg(b.tree), b.end));
    var fr2 := Collect(fr1, NodeArg(b.tree), b.end);
    assert fr2.args == [NodeArg(c.tree), NodeArg(a.tree), TokenArg(q - 1), NodeArg(b.tree)];
    ReduceStep(g, toks, fr2, d, ReduceIfBlocks);
  }

  // ----- blocks, given what their parts reduce to -----

  /** The end of a block or of the input. */
  predicate Closes(kind: TokenKind) {
    kind == TokRBrace || kind == TokUndef
  }

  lemma ClosesNoStmt(kind: TokenKind)
    requires Closes(kind)
    ensures !StartsStmt(kind) && !IsArithmetic(kind) && kind != TokElse && kind != TokNewline
  {
  }

  lemma NextParses(g: Grammar, toks: Stream, pos: nat, depth: nat, room: nat, v: Arg, end: nat)
    requires IsLanguage(g) && room >= 5 && IsSep(KindAt(toks, pos))
    requires ParseRule(g, toks, Stmt, SepsEnd(toks, pos), depth + 1) == Within(depth + 1, room, v, end)
    ensures ParseRule(g, toks, StmtNext, pos, depth) == Within(depth, 1 + room, v, end)
    ensures depth + 1 + room <= MAX_PARSE_DEPTH ==> pos < end <= |toks|
  {
    hide Run, ParseRule, Exists, NodeAt, Shared, FoldsAt, IsLanguage, ParserSafety.Fits;
    PrintParse.Enters(g, toks, StmtNext, pos, depth);
    ListTables(g);
    var fr, d := Start(StmtNext, pos), depth + 1;
    SepsParse(g, toks, pos, d);
    RuleStep(g, toks, fr, d, StmtSeps, ParseRule(g, toks, StmtSeps, pos, d));
    var fr1 := Collect(fr, NullArg, SepsEnd(toks, pos));
    RuleStep(g, toks, fr1, d, Stmt, Within(d, room, v, end));
    var fr2 := Collect(fr1, v, end);
    assert fr2.args == [NullArg, v];
    ReduceStep(g, toks, fr2, d, ReducePeekSecond);
    ParserSafety.ParseRuleIsSafe(g, toks, StmtNext, pos, depth);
  }

  /** The end of a list: behind separators one more statement is looked for. */
  lemma NextRefuses(g: Grammar, toks: Stream, pos: nat, depth: nat)
    requires IsLanguage(g) && Closes(KindAt(toks, SepsEnd(toks, pos)))
    ensures
      var r := ParseRule(g, toks, StmtNext, pos, depth);
      if depth + (if IsSep(KindAt(toks, pos)) then 6 else 3) <= MAX_PARSE_DEPTH then r.Refused? else r == TooDeep
  {
    hide Run, ParseRule, Exists, NodeAt, Shared, FoldsAt, IsLanguage, SepsEnd, StartsStmt;
    PrintParse.Enters(g, toks, StmtNext, pos, depth);
    ListTables(g);
    var fr, d, q := Start(StmtNext, pos), depth + 1, SepsEnd(toks, pos);
    SepsParse(g, toks, pos, d);
    RuleStep(g, toks, fr, d, StmtSeps, ParseRule(g, toks, StmtSeps, pos, d));
    if IsSep(KindAt(toks, pos)) {
      ClosesNoStmt(KindAt(toks, q));
      StmtRefuses(g, toks, q, d);
      RuleStep(g, toks, Collect(fr, NullArg, q), d, Stmt, ParseRule(g, toks, Stmt, q, d));
      RunsOut(g, toks, RollBack(Collect(fr, NullArg, q)), d);
    } else {
      RunsOut(g, toks, RollBack(fr), d);
    }
  }

  /** The statements of a block behind the first, as they are gathered. */
  function Gathered(done: seq<Tree>): Arg {
    if done == [] then NullArg else NodeArg(Block(0, done))
  }

  lemma StmtsRun(g: Grammar, toks: Stream, pos: nat, depth: nat, p: Place, r: Places)
    requires IsLanguage(g) && IsStmtNode(p.tree) && p.room > 0
    requires ParseRule(g, toks, Stmt, pos, depth + 1) == Within(depth + 1, p.room, NodeArg(p.tree), p.end)
    requires
      ParseList(g, toks, StmtNext, p.end, [], depth + 1) == Within(depth + 1, r.room, Gathered(r.trees), r.end)
    ensures
      ParseRule(g, toks, Stmts, pos, depth) ==
      Within(depth, 1 + Max(p.room, r.room), NodeArg(Block(0, [p.tree] + r.trees)), r.end)
  {
    hide Run, ParseRule, ParseList, Exists, NodeAt, Shared, FoldsAt, IsLanguage;
    PrintParse.Enters(g, toks, Stmts, pos, depth);
    StmtsTable(g);
    ListTables(g);
    var fr, d := Start(Stmts, pos), depth + 1;
    RuleStep(g, toks, fr, d, Stmt, Within(d, p.room, NodeArg(p.tree), p.end));
    var fr1 := Collect(fr, NodeArg(p.tree), p.end);
    ListStep(g, toks, fr1, d, StmtNext, Within(d, r.room, Gathered(r.trees), r.end));
    var fr2 := Collect(fr1, Gathered(r.trees), r.end);
    assert fr2.args == [NodeArg(p.tree), Gathered(r.trees)];
    ReduceStep(g, toks, fr2, d, ReduceStmtStmts);
  }

  lemma BlockRuns(g: Grammar, toks: Stream, pos: nat, depth: nat, l: Places)
    requires IsLanguage(g) && l.room >= 6
    requires
      ParseRule(g, toks, Stmts, SepsEnd(toks, pos), depth + 1) ==
      Within(depth + 1, l.room, NodeArg(Block(0, l.trees)), l.end)
    ensures
      ParseRule(g, toks, BlockRule, pos, depth) ==
      Within(depth, 1 + l.room, NodeArg(Block(0, l.trees)), SepsEnd(toks, l.end))
  {
    hide Run, ParseRule, Exists, NodeAt, Shared, FoldsAt, IsLanguage, SepsEnd;
    PrintParse.Enters(g, toks, BlockRule, pos, depth);
    StmtsTable(g);
    var fr, d, q, n := Start(BlockRule, pos), depth + 1, SepsEnd(toks, pos), NodeArg(Block(0, l.trees));
    OptSepsParse(g, toks, pos, d);
    RuleStep(g, toks, fr, d, StmtOptSeps, ParseRule(g, toks, StmtOptSeps, pos, d));
    var fr1 := Collect(fr, NullArg, q);
    RuleStep(g, toks, fr1, d, Stmts, Within(d, l.room, n, l.end));
    var fr2 := Collect(fr1, n, l.end);
    OptSepsParse(g, toks, l.end, d);
    RuleStep(g, toks, fr2, d, StmtOptSeps, ParseRule(g, toks, StmtOptSeps, l.end, d));
    var fr3 := Collect(fr2, NullArg, SepsEnd(toks, l.end));
    assert fr3.args == [NullArg, n, NullArg];
    ReduceStep(g, toks, fr3, d, ReduceTriple);
  }

  lemma BracedRuns(g: Grammar, toks: Stream, pos: nat, depth: nat, p: Place)
    requires IsLanguage(g) && KindAt(toks, NextSolid(toks, pos)) == TokLBrace && KindAt(toks, p.end) == TokRBrace
    requires
      ParseRule(g, toks, BlockRule, NextSolid(toks, pos) + 1, depth + 1) ==
      Within(depth + 1, p.room, NodeArg(p.tree), p.end)
    ensures ParseRule(g, toks, BracedBlock, pos, depth) == Within(depth, 1 + p.room, NodeArg(p.tree), p.end + 1)
  {
    hide Run, ParseRule, Exists, NodeAt, Shared, FoldsAt, IsLanguage, NextSolid, PrintParse.Skips, Apply;
    Solid(toks, p.end);
    PrintParse.Enters(g, toks, BracedBlock, pos, depth);
    BraceTables(g);
    var fr, d, q := Start(BracedBlock, pos), depth + 1, NextSolid(toks, pos) + 1;
    PrintParse.Accepts(g, toks, fr, d, TokLBrace);
    var fr1 := Collect(fr, TokenArg(q - 1), q);
    PrintParse.CallsRule(g, toks, fr1, d, BlockRule, Within(d, p.room, NodeArg(p.tree), p.end));
    var fr2 := Collect(fr1, NodeArg(p.tree), p.end);
    PrintParse.Accepts(g, toks, fr2, d, TokRBrace);
    var fr3 := Collect(fr2, TokenArg(p.end), p.end + 1);
    assert fr3.args == [TokenArg(q - 1), NodeArg(p.tree), TokenArg(p.end)];
    PrintParse.AppliesTriple(toks, fr3.args);
    PrintParse.Reduces(g, toks, fr3, d, ReduceTriple, NodeArg(p.tree));
  }

  // ----- everything that is written -----

  /** Wherever a written statement stands, the parser returns exactly its tree, or finds exactly no room for it. */
  lemma StmtParses(g: Grammar, toks: Stream, s: Written, pos: nat, depth: nat)
    requires IsLanguage(g) && StmtPlace(toks, pos, s).Some?
    requires Follows(toks, StmtPlace(toks, pos, s).value.end)
    ensures
      var p := StmtPlace(toks, pos, s).value;
      ParseRule(g, toks, Stmt, pos, depth) == Within(depth, p.room, NodeArg(p.tree), p.end)
    decreases s, 3
  {
    hide ParseRule, IsLanguage, ExprPlace, Follows, TailPlace;
    if IsIf(s) {
      TailParses(g, toks, s, pos + 1, depth + 1);
      IfStmtParses(g, toks, pos, depth, TailPlace(toks, pos + 1, s).value);
    } else {
      SimpleParses(g, toks, s, pos, depth);
    }
  }

  lemma ArmIsNoExpr(g: Grammar, toks: Stream, s: Written, pos: nat, depth: nat)
    requires IsLanguage(g) && StmtPlace(toks, pos, s).Some? && Follows(toks, StmtPlace(toks, pos, s).value.end)
    ensures
      var r := ParseRule(g, toks, ExprPrime, pos, depth);
      if depth + TriedRoom(s, StmtPlace(toks, pos, s).value.room) <= MAX_PARSE_DEPTH then NoExprArm(toks, r)
      else r == TooDeep
    decreases s, 3
  {
    hide ParseRule, IsLanguage, ExprPlace, TailPlace, Follows;
    if IsIf(s) {
      var t := TailPlace(toks, pos + 1, s).value;
      TailParses(g, toks, s, pos + 1, depth + 4);
      IfExprParses(g, toks, pos, depth, t);
      FollowsNoElse(toks, t.end);
    } else {
      SimpleIsNoExpr(g, toks, s, pos, depth);
    }
  }

  lemma FollowsNoElse(toks: Stream, pos: nat)
    requires Follows(toks, pos)
    ensures KindAt(toks, NextSolid(toks, pos)) != TokElse
  {
    hide NextSolid;
  }

  lemma SimpleIsNoExpr(g: Grammar, toks: Stream, s: Written, pos: nat, depth: nat)
    requires IsLanguage(g) && StmtPlace(toks, pos, s).Some? && !IsIf(s)
    ensures
      var r := ParseRule(g, toks, ExprPrime, pos, depth);
      if depth + 4 <= MAX_PARSE_DEPTH then NoExprArm(toks, r) else r == TooDeep
  {
    hide ParseRule, IsLanguage, ExprPlace;
    match s
    case EchoOf(_) =>
      assert NextSolid(toks, pos) == pos && !StartsExpr(TokEcho);
      LevelRefuses(g, toks, PRIME, pos, depth);
    case DefineOf(name, _) => NameParses(g, toks, name, pos, depth, TokDefine);
    case AssignTo(name, _) => NameParses(g, toks, name, pos, depth, TokAssign);
  }

  lemma TailParses(g: Grammar, toks: Stream, s: Written, pos: nat, depth: nat)
    requires IsLanguage(g) && IsIf(s) && TailPlace(toks, pos, s).Some?
    requires Follows(toks, TailPlace(toks, pos, s).value.end)
    ensures
      var t := TailPlace(toks, pos, s).value;
      ParseRule(g, toks, IfTail, pos, depth) == Within(depth, t.room, Parts(t), t.end)
    decreases s, 2
  {
    hide Run, ParseRule, IsLanguage, ExprPlace, StmtPlace, BracePlace, NextSolid, Follows;
    PrintParse.Enters(g, toks, IfTail, pos, depth);
    var d := depth + 1;
    var c := ExprPlace(toks, pos, s.cond).value;
    match s
    case IfThen(_, arm) =>
      var q := NextSolid(toks, c.end) + 1;
      ArmIsNoExpr(g, toks, arm, q, d);
      StmtParses(g, toks, arm, q, d);
      ThenTail(g, toks, s, pos, d);
    case IfBlock(_, body) =>
      BraceParses(g, toks, body, c.end, d);
      OneBlockTail(g, toks, s, pos, d);
    case IfBlocks(_, body, others) =>
      BraceParses(g, toks, body, c.end, d);
      BraceParses(g, toks, others, NextSolid(toks, BracePlace(toks, c.end, body).value.end) + 1, d);
      TwoBlocksTail(g, toks, s, pos, d);
  }

  lemma ThenTail(g: Grammar, toks: Stream, s: Written, pos: nat, d: nat)
    requires IsLanguage(g) && s.IfThen? && TailPlace(toks, pos, s).Some?
    requires
      var q := NextSolid(toks, ExprPlace(toks, pos, s.cond).value.end) + 1;
      var a := StmtPlace(toks, q, s.arm).value;
      var r := ParseRule(g, toks, ExprPrime, q, d);
      && (if d + TriedRoom(s.arm, a.room) <= MAX_PARSE_DEPTH then NoExprArm(toks, r) else r == TooDeep)
      && ParseRule(g, toks, Stmt, q, d) == Within(d, a.room, NodeArg(a.tree), a.end)
    ensures
      var t := TailPlace(toks, pos, s).value;
      Run(g, toks, Start(IfTail, pos), d) == Within(d, t.room - 1, Parts(t), t.end)
  {
    hide Run, ParseRule, IsLanguage, ExprPlace, StmtPlace, NextSolid, NoExprArm;
    var c := ExprPlace(toks, pos, s.cond).value;
    var a := StmtPlace(toks, NextSolid(toks, c.end) + 1, s.arm).value;
    ThenIsNoOperator(toks, c.end);
    ExprParses(g, toks, s.cond, pos, d);
    ThenRuns(g, toks, pos, d, c, a, TriedRoom(s.arm, a.room));
  }

  lemma ThenIsNoOperator(toks: Stream, pos: nat)
    ensures KindAt(toks, NextSolid(toks, pos)) in {TokThen, TokLBrace} ==>
      !IsArithmetic(KindAt(toks, NextSolid(toks, pos)))
  {
    hide NextSolid;
  }

  lemma OneBlockTail(g: Grammar, toks: Stream, s: Written, pos: nat, d: nat)
    requires IsLanguage(g) && s.IfBlock? && TailPlace(toks, pos, s).Some?
    requires Follows(toks, TailPlace(toks, pos, s).value.end)
    requires
      var c := ExprPlace(toks, pos, s.cond).value;
      var a := BracePlace(toks, c.end, s.body).value;
      ParseRule(g, toks, BracedBlock, c.end, d) == Within(d, a.room, NodeArg(a.tree), a.end)
    ensures
      var t := TailPlace(toks, pos, s).value;
      Run(g, toks, Start(IfTail, pos), d) == Within(d, t.room - 1, Parts(t), t.end)
  {
    hide Run, ParseRule, IsLanguage, ExprPlace, BracePlace, NextSolid;
    var c := ExprPlace(toks, pos, s.cond).value;
    var a := BracePlace(toks, c.end, s.body).value;
    BraceBegins(toks, c.end, s.body);
    ThenIsNoOperator(toks, c.end);
    ExprParses(g, toks, s.cond, pos, d);
    BraceRuns(g, toks, pos, d, c, a);
    OneBlockRuns(g, toks, pos, d, c, a);
  }

  lemma TwoBlocksTail(g: Grammar, toks: Stream, s: Written, pos: nat, d: nat)
    requires IsLanguage(g) && s.IfBlocks? && TailPlace(toks, pos, s).Some?
    requires
      var c := ExprPlace(toks, pos, s.cond).value;
      var a := BracePlace(toks, c.end, s.body).value;
      var q := NextSolid(toks, a.end) + 1;
      var b := BracePlace(toks, q, s.others).value;
      && ParseRule(g, toks, BracedBlock, c.end, d) == Within(d, a.room, NodeArg(a.tree), a.end)
      && ParseRule(g, toks, BracedBlock, q, d) == Within(d, b.room, NodeArg(b.tree), b.end)
    ensures
      var t := TailPlace(toks, pos, s).value;
      Run(g, toks, Start(IfTail, pos), d) == Within(d, t.room - 1, Parts(t), t.end)
  {
    hide Run, ParseRule, IsLanguage, ExprPlace, BracePlace, NextSolid;
    var c := ExprPlace(toks, pos, s.cond).value;
    var a := BracePlace(toks, c.end, s.body).value;
    BraceBegins(toks, c.end, s.body);
    ThenIsNoOperator(toks, c.end);
    ExprParses(g, toks, s.cond, pos, d);
    BraceRuns(g, toks, pos, d, c, a);
    var b := BracePlace(toks, NextSolid(toks, a.end) + 1, s.others).value;
    TwoBlocksRun(g, toks, pos, d, c, a, b);
  }

  lemma BraceBegins(toks: Stream, pos: nat, b: seq<Written>)
    requires BracePlace(toks, pos, b).Some?
    ensures KindAt(toks, NextSolid(toks, pos)) == TokLBrace
  {
  }

  lemma BraceParses(g: Grammar, toks: Stream, b: seq<Written>, pos: nat, depth: nat)
    requires IsLanguage(g) && BracePlace(toks, pos, b).Some?
    ensures
      var p := BracePlace(toks, pos, b).value;
      ParseRule(g, toks, BracedBlock, pos, depth) == Within(depth, p.room, NodeArg(p.tree), p.end)
    decreases b, 3
  {
    hide ParseRule, IsLanguage, BlockPlace, NextSolid;
    var q := NextSolid(toks, pos) + 1;
    BlockParses(g, toks, b, q, depth + 1);
    BracedRuns(g, toks, pos, depth, BlockPlace(toks, q, b).value);
  }

  /** A block, up to a closing brace or the end of the input. */
  lemma BlockParses(g: Grammar, toks: Stream, b: seq<Written>, pos: nat, depth: nat)
    requires IsLanguage(g) && BlockPlace(toks, pos, b).Some?
    requires Closes(KindAt(toks, BlockPlace(toks, pos, b).value.end))
    ensures
      var p := BlockPlace(toks, pos, b).value;
      ParseRule(g, toks, BlockRule, pos, depth) == Within(depth, p.room, NodeArg(p.tree), p.end)
    decreases b, 2
  {
    hide ParseRule, IsLanguage, StmtPlace, RestPlace, StartsStmt, SepsEnd;
    var q := SepsEnd(toks, pos);
    if b == [] {
      SepsEndOnce(toks, pos);
      ClosesNoStmt(KindAt(toks, q));
      EmptyBlockParses(g, toks, pos, depth);
    } else {
      var p := StmtPlace(toks, q, b[0]).value;
      var r := RestPlace(toks, p.end, b[1..]).value;
      RestFollows(toks, p.end, b[1..]);
      StmtParses(g, toks, b[0], q, depth + 2);
      RestParses(g, toks, b[1..], p.end, [], depth + 2);
      StmtPlaced(toks, q, b[0]);
      assert [] + r.trees == r.trees;
      StmtsRun(g, toks, q, depth + 1, p, r);
      BlockRuns(g, toks, pos, depth, ListPlace(toks, q, b).value);
    }
  }

  lemma SepsEndOnce(toks: Stream, pos: nat)
    ensures SepsEnd(toks, SepsEnd(toks, pos)) == SepsEnd(toks, pos)
  {
  }

  lemma StmtPlaced(toks: Stream, pos: nat, s: Written)
    requires StmtPlace(toks, pos, s).Some?
    ensures IsStmtNode(StmtPlace(toks, pos, s).value.tree)
  {
    hide ExprPlace, TailPlace;
  }

  /** Behind a statement of a block stands nothing that would continue it. */
  lemma RestFollows(toks: Stream, pos: nat, b: seq<Written>)
    requires RestPlace(toks, pos, b).Some? && Closes(KindAt(toks, SepsEnd(toks, RestPlace(toks, pos, b).value.end)))
    ensures Follows(toks, pos)
  {
    hide Follows, StmtPlace;
    if b != [] {
      StartsWritten(toks, SepsEnd(toks, pos), b[0]);
    }
    SepsFollow(toks, pos);
  }

  lemma RestParses(g: Grammar, toks: Stream, b: seq<Written>, pos: nat, done: seq<Tree>, depth: nat)
    requires IsLanguage(g) && RestPlace(toks, pos, b).Some?
    requires Closes(KindAt(toks, SepsEnd(toks, RestPlace(toks, pos, b).value.end)))
    ensures
      var r := RestPlace(toks, pos, b).value;
      ParseList(g, toks, StmtNext, pos, done, depth) == Within(depth, r.room, Gathered(done + r.trees), r.end)
    decreases b, 0
  {
    hide ParseRule, ParseList, IsLanguage, StmtPlace, SepsEnd, StartsStmt;
    ListEnds(g, toks, StmtNext, pos, done, depth, ParseRule(g, toks, StmtNext, pos, depth));
    if b == [] {
      NextRefuses(g, toks, pos, depth);
      assert done + [] == done;
    } else {
      var q := SepsEnd(toks, pos);
      var p := StmtPlace(toks, q, b[0]).value;
      var r := RestPlace(toks, p.end, b[1..]).value;
      RestFollows(toks, p.end, b[1..]);
      StmtParses(g, toks, b[0], q, depth + 1);
      NextParses(g, toks, pos, depth, p.room, NodeArg(p.tree), p.end);
      RestParses(g, toks, b[1..], p.end, done + [p.tree], depth);
      assert done + [p.tree] + r.trees == done + ([p.tree] + r.trees);
    }
  }

  lemma ProgRuns(g: Grammar, toks: Stream, pos: nat, depth: nat, p: Place)
    requires IsLanguage(g) && p.room > 0
    requires ParseRule(g, toks, BlockRule, pos, depth + 1) == Within(depth + 1, p.room, NodeArg(p.tree), p.end)
    ensures ParseRule(g, toks, Prog, pos, depth) == Within(depth, 1 + p.room, NodeArg(p.tree), p.end)
  {
    hide Run, ParseRule, Exists, NodeAt, Shared, FoldsAt, IsLanguage, Apply;
    PrintParse.Enters(g, toks, Prog, pos, depth);
    BraceTables(g);
    var fr := Start(Prog, pos);
    PrintParse.CallsRule(g, toks, fr, depth + 1, BlockRule, Within(depth + 1, p.room, NodeArg(p.tree), p.end));
    var fr1 := Collect(fr, NodeArg(p.tree), p.end);
    assert fr1.args == [NodeArg(p.tree)];
    AppliesSingle(toks, fr1.args);
    PrintParse.Reduces(g, toks, fr1, depth + 1, ReduceSingle, NodeArg(p.tree));
  }
}
