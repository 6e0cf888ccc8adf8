/**
 Where rules refuse: separators, and statements and blocks that are not there (bootstrap/parser.c:272-312).
 */
module Refusals {
  import opened Basics
  import opened Tokens
  import opened Ast
  import opened Grammar
  import opened Engine
  import opened Printing
  import PrintParse

  predicate IsLanguage(g: Grammar) {
    forall id :: g(id) == Language(id)
  }

  lemma LanguageSpeaks(g: Grammar)
    requires IsLanguage(g)
    ensures PrintParse.Speaks(g)
  {
    assert g(IfTail) == Language(IfTail) && g(ExprFactor) == Language(ExprFactor);
    assert g(ExprUnary) == Language(ExprUnary);
    assert g(ExprTerm) == Language(ExprTerm) && g(ExprPrime) == Language(ExprPrime);
  }

  // ----- separators -----

  predicate IsSep(kind: TokenKind) {
    kind == TokNewline || kind == TokSemicolon
  }

  /** The first token at or after `pos` that is no separator. */
  function SepsEnd(toks: Stream, pos: nat): (q: nat)
    ensures pos <= q && !IsSep(KindAt(toks, q))
    ensures q > pos ==> q <= |toks| && IsSep(KindAt(toks, pos))
    decreases |toks| - pos
  {
    if IsSep(KindAt(toks, pos)) then SepsEnd(toks, pos + 1) else pos
  }

  lemma SepTable(g: Grammar)
    requires IsLanguage(g)
    ensures !g(StmtSep).skipNewLine && Exists(g, StmtSep, 0) && Exists(g, StmtSep, 1) && !Exists(g, StmtSep, 2)
    ensures NodeAt(g, StmtSep, 0, 0) == Some(Term(TokNewline)) && NodeAt(g, StmtSep, 0, 1) == Some(Reduce(ReduceSep))
    ensures NodeAt(g, StmtSep, 1, 0) == Some(Term(TokSemicolon)) && NodeAt(g, StmtSep, 1, 1) == Some(Reduce(ReduceSep))
    ensures Shared(g, StmtSep, 0, 0) && !Shared(g, StmtSep, 1, 0)
    ensures FoldsAt(g, StmtSep, 0) == -1 && FoldsAt(g, StmtSep, 1) == -1
  {
    assert g(StmtSep) == Language(StmtSep);
  }

  lemma SepsTable(g: Grammar)
    requires IsLanguage(g)
    ensures Exists(g, StmtSeps, 0) && !Exists(g, StmtSeps, 1) && FoldsAt(g, StmtSeps, 0) == -1
    ensures NodeAt(g, StmtSeps, 0, 0) == Some(Rule(StmtSep)) && NodeAt(g, StmtSeps, 0, 1) == Some(List(StmtSep))
    ensures NodeAt(g, StmtSeps, 0, 2) == Some(Reduce(ReduceSepSeps))
    ensures Exists(g, StmtOptSeps, 0) && Exists(g, StmtOptSeps, 1)
    ensures FoldsAt(g, StmtOptSeps, 0) == -1 && FoldsAt(g, StmtOptSeps, 1) == -1
    ensures NodeAt(g, StmtOptSeps, 0, 0) == Some(Rule(StmtSeps))
    ensures NodeAt(g, StmtOptSeps, 0, 1) == Some(Reduce(ReduceSep))
    ensures NodeAt(g, StmtOptSeps, 1, 0) == Some(Reduce(ReduceEmpty))
  {
    assert g(StmtSeps) == Language(StmtSeps) && g(StmtOptSeps) == Language(StmtOptSeps);
  }

  lemma SepParses(g: Grammar, toks: Stream, pos: nat, depth: nat)
    requires IsLanguage(g)
    ensures ParseRule(g, toks, StmtSep, pos, depth) ==
            if depth >= MAX_PARSE_DEPTH then TooDeep
            else if IsSep(KindAt(toks, pos)) then Reduced(NullArg, pos + 1)
            else Refused(pos)
  {
    hide Run, IsLanguage, Exists, NodeAt, Shared, FoldsAt;
    if depth < MAX_PARSE_DEPTH {
      SepTable(g);
      var fr := Start(StmtSep, pos);
      var d := depth + 1;
      TermStep(g, toks, fr, d, TokNewline);
      if KindAt(toks, pos) == TokNewline {
        ReduceStep(g, toks, Collect(fr, TokenArg(pos), pos + 1), d, ReduceSep);
      } else {
        var fr1 := HandOver(fr);
        TermStep(g, toks, fr1, d, TokSemicolon);
        if KindAt(toks, pos) == TokSemicolon {
          ReduceStep(g, toks, Collect(fr1, TokenArg(pos), pos + 1), d, ReduceSep);
        } else {
          RunsOut(g, toks, RollBack(fr1), d);
        }
      }
    }
  }

  lemma {:induction false} SepListParses(g: Grammar, toks: Stream, pos: nat, depth: nat)
    requires IsLanguage(g) && depth < MAX_PARSE_DEPTH
    ensures ParseList(g, toks, StmtSep, pos, [], depth) == Reduced(NullArg, SepsEnd(toks, pos))
    decreases |toks| - pos
  {
    hide ParseRule, ParseList, IsLanguage;
    ListEnds(g, toks, StmtSep, pos, [], depth, ParseRule(g, toks, StmtSep, pos, depth));
    SepParses(g, toks, pos, depth);
    if IsSep(KindAt(toks, pos)) {
      SepListParses(g, toks, pos + 1, depth);
    }
  }

  lemma SepsParse(g: Grammar, toks: Stream, pos: nat, depth: nat)
    requires IsLanguage(g)
    ensures ParseRule(g, toks, StmtSeps, pos, depth) ==
            if depth + 1 >= MAX_PARSE_DEPTH then TooDeep
            else if IsSep(KindAt(toks, pos)) then Reduced(NullArg, SepsEnd(toks, pos))
            else Refused(pos)
  {
    hide Run, ParseRule, ParseList, IsLanguage, Exists, NodeAt, Shared, FoldsAt;
    PrintParse.Enters(g, toks, StmtSeps, pos, depth);
    if depth < MAX_PARSE_DEPTH {
      SepsTable(g);
      var fr, d := Start(StmtSeps, pos), depth + 1;
      SepParses(g, toks, pos, d);
      RuleStep(g, toks, fr, d, StmtSep, ParseRule(g, toks, StmtSep, pos, d));
      if d < MAX_PARSE_DEPTH {
        if IsSep(KindAt(toks, pos)) {
          SepListParses(g, toks, pos + 1, d);
          var fr1 := Collect(fr, NullArg, pos + 1);
          ListStep(g, toks, fr1, d, StmtSep, ParseList(g, toks, StmtSep, pos + 1, [], d));
          var fr2 := Collect(fr1, NullArg, SepsEnd(toks, pos + 1));
          ReduceStep(g, toks, fr2, d, ReduceSepSeps);
        } else {
          RunsOut(g, toks, RollBack(fr), d);
        }
      }
    }
  }

  /** Optional separators never refuse: they read every separator there is. */
  lemma OptSepsParse(g: Grammar, toks: Stream, pos: nat, depth: nat)
    requires IsLanguage(g)
    ensures ParseRule(g, toks, StmtOptSeps, pos, depth) ==
            if depth + 2 >= MAX_PARSE_DEPTH then TooDeep else Reduced(NullArg, SepsEnd(toks, pos))
  {
    hide Run, ParseRule, IsLanguage, Exists, NodeAt, Shared, FoldsAt;
    PrintParse.Enters(g, toks, StmtOptSeps, pos, depth);
    if depth < MAX_PARSE_DEPTH {
      SepsTable(g);
      var fr, d := Start(StmtOptSeps, pos), depth + 1;
      SepsParse(g, toks, pos, d);
      RuleStep(g, toks, fr, d, StmtSeps, ParseRule(g, toks, StmtSeps, pos, d));
      if d + 1 < MAX_PARSE_DEPTH {
        if IsSep(KindAt(toks, pos)) {
          ReduceStep(g, toks, Collect(fr, NullArg, SepsEnd(toks, pos)), d, ReduceSep);
        } else {
          ReduceStep(g, toks, RollBack(fr), d, ReduceEmpty);
        }
      }
    }
  }

  // ----- expressions that are not there -----

  /** The tokens that an expression begins with. */
  predicate StartsExpr(kind: TokenKind) {
    PrintParse.StartsFactor(kind) || kind == TokMinus
  }

  lemma {:induction false} LevelRefuses(g: Grammar, toks: Stream, lvl: Level, pos: nat, depth: nat)
    requires IsLanguage(g) && !StartsExpr(KindAt(toks, NextSolid(toks, pos)))
    ensures ParseRule(g, toks, RuleOf(lvl), pos, depth) ==
            if depth + lvl >= MAX_PARSE_DEPTH then TooDeep else Refused(pos)
    decreases lvl
  {
    hide Run, ParseRule, Exists, NodeAt, Shared, FoldsAt, NextSolid, IsLanguage;
    LanguageSpeaks(g);
    PrintParse.Enters(g, toks, RuleOf(lvl), pos, depth);
    if depth < MAX_PARSE_DEPTH {
      if lvl == FACTOR {
        PrintParse.FactorRefuses(g, toks, pos, depth);
      } else {
        LevelRefuses(g, toks, lvl - 1, pos, depth + 1);
        if lvl == UNARY {
          UnaryRefuses(g, toks, pos, depth);
        } else {
          ChainRefuses(g, toks, lvl, pos, depth);
        }
      }
    }
  }

  lemma UnaryRefuses(g: Grammar, toks: Stream, pos: nat, depth: nat)
    requires PrintParse.Speaks(g) && depth < MAX_PARSE_DEPTH && KindAt(toks, NextSolid(toks, pos)) != TokMinus
    requires
      ParseRule(g, toks, ExprFactor, pos, depth + 1) ==
      if depth + 1 >= MAX_PARSE_DEPTH then TooDeep else Refused(pos)
    ensures
      Run(g, toks, Start(ExprUnary, pos), depth + 1) ==
      if depth + 1 >= MAX_PARSE_DEPTH then TooDeep else Refused(pos)
  {
    hide Run, ParseRule, Exists, NodeAt, Shared, FoldsAt, NextSolid, PrintParse.Speaks, PrintParse.Skips;
    PrintParse.UnaryTable(g);
    var fr, d := Start(ExprUnary, pos), depth + 1;
    PrintParse.CallsRule(g, toks, fr, d, ExprFactor, ParseRule(g, toks, ExprFactor, pos, d));
    if d < MAX_PARSE_DEPTH {
      PrintParse.GivesUp(g, toks, RollBack(fr), d, TokMinus);
      RunsOut(g, toks, RollBack(RollBack(fr)), d);
    }
  }

  lemma ChainRefuses(g: Grammar, toks: Stream, lvl: Level, pos: nat, depth: nat)
    requires PrintParse.Speaks(g) && lvl >= TERM && depth < MAX_PARSE_DEPTH
    requires ParseRule(g, toks, RuleOf(lvl - 1), pos, depth + 1) == TooDeep ||
             ParseRule(g, toks, RuleOf(lvl - 1), pos, depth + 1) == Refused(pos)
    ensures Run(g, toks, Start(RuleOf(lvl), pos), depth + 1) == ParseRule(g, toks, RuleOf(lvl - 1), pos, depth + 1)
  {
    hide Run, ParseRule, Exists, NodeAt, Shared, FoldsAt, PrintParse.Speaks, PrintParse.Skips, RuleOf;
    PrintParse.ChainTable(g, lvl);
    var fr, d := Start(RuleOf(lvl), pos), depth + 1;
    var r := ParseRule(g, toks, RuleOf(lvl - 1), pos, d);
    PrintParse.CallsRule(g, toks, fr, d, RuleOf(lvl - 1), r);
    PrintParse.CallsRule(g, toks, RollBack(fr), d, RuleOf(lvl - 1), r);
    PrintParse.CallsRule(g, toks, RollBack(RollBack(fr)), d, RuleOf(lvl - 1), r);
    RunsOut(g, toks, RollBack(RollBack(RollBack(fr))), d);
  }

  // ----- statements and blocks that are not there -----

  /** The tokens that a statement begins with. */
  predicate StartsStmt(kind: TokenKind) {
    StartsExpr(kind) || kind == TokEcho || kind == TokIf || kind == TokId
  }

  lemma StmtTable(g: Grammar)
    requires IsLanguage(g)
    ensures !g(Stmt).skipNewLine && Exists(g, Stmt, 0) && Exists(g, Stmt, 1) && Exists(g, Stmt, 2) && Exists(g, Stmt, 3)
    ensures !Exists(g, Stmt, 4)
    ensures NodeAt(g, Stmt, 0, 0) == Some(Term(TokEcho)) && NodeAt(g, Stmt, 1, 0) == Some(Term(TokIf))
    ensures NodeAt(g, Stmt, 2, 0) == Some(Term(TokId)) && NodeAt(g, Stmt, 3, 0) == Some(Rule(ExprPrime))
    ensures Shared(g, Stmt, 0, 0) && Shared(g, Stmt, 1, 0) && Shared(g, Stmt, 2, 0)
  {
    assert g(Stmt) == Language(Stmt);
  }

  lemma NotAStart(kind: TokenKind)
    requires !StartsStmt(kind)
    ensures !StartsExpr(kind) && kind != TokEcho && kind != TokIf && kind != TokId
  {
  }

  lemma StmtRefuses(g: Grammar, toks: Stream, pos: nat, depth: nat)
    requires IsLanguage(g) && !StartsStmt(KindAt(toks, pos)) && KindAt(toks, pos) != TokNewline
    ensures ParseRule(g, toks, Stmt, pos, depth) == if depth + 4 >= MAX_PARSE_DEPTH then TooDeep else Refused(pos)
  {
    assert NextSolid(toks, pos) == pos;
    NotAStart(KindAt(toks, pos));
    hide StartsStmt, StartsExpr, Run, ParseRule, Exists, NodeAt, Shared, FoldsAt, NextSolid, IsLanguage;
    PrintParse.Enters(g, toks, Stmt, pos, depth);
    if depth < MAX_PARSE_DEPTH {
      StmtTable(g);
      var fr, d := Start(Stmt, pos), depth + 1;
      TermStep(g, toks, fr, d, TokEcho);
      TermStep(g, toks, HandOver(fr), d, TokIf);
      TermStep(g, toks, HandOver(HandOver(fr)), d, TokId);
      var fr1 := HandOver(HandOver(HandOver(fr)));
      LevelRefuses(g, toks, PRIME, pos, d);
      RuleStep(g, toks, fr1, d, ExprPrime, ParseRule(g, toks, ExprPrime, pos, d));
      RunsOut(g, toks, RollBack(fr1), d);
    }
  }

  lemma StmtsTable(g: Grammar)
    requires IsLanguage(g)
    ensures Exists(g, Stmts, 0) && Exists(g, Stmts, 1) && FoldsAt(g, Stmts, 0) == -1 && FoldsAt(g, Stmts, 1) == -1
    ensures NodeAt(g, Stmts, 0, 0) == Some(Rule(Stmt)) && NodeAt(g, Stmts, 1, 0) == Some(Reduce(ReduceEmptyBlock))
    ensures Exists(g, BlockRule, 0) && FoldsAt(g, BlockRule, 0) == -1
    ensures NodeAt(g, BlockRule, 0, 0) == Some(Rule(StmtOptSeps)) && NodeAt(g, BlockRule, 0, 1) == Some(Rule(Stmts))
    ensures NodeAt(g, BlockRule, 0, 2) == Some(Rule(StmtOptSeps))
    ensures NodeAt(g, BlockRule, 0, 3) == Some(Reduce(ReduceTriple))
  {
    assert g(Stmts) == Language(Stmts) && g(BlockRule) == Language(BlockRule);
  }

  lemma NoStmtsParse(g: Grammar, toks: Stream, pos: nat, depth: nat)
    requires IsLanguage(g) && !StartsStmt(KindAt(toks, pos)) && KindAt(toks, pos) != TokNewline
    ensures ParseRule(g, toks, Stmts, pos, depth) ==
            if depth + 5 >= MAX_PARSE_DEPTH then TooDeep else Reduced(NodeArg(Block(0, [])), pos)
  {
    hide Run, ParseRule, Exists, NodeAt, Shared, FoldsAt, IsLanguage;
    PrintParse.Enters(g, toks, Stmts, pos, depth);
    if depth < MAX_PARSE_DEPTH {
      StmtsTable(g);
      var fr, d := Start(Stmts, pos), depth + 1;
      StmtRefuses(g, toks, pos, d);
      RuleStep(g, toks, fr, d, Stmt, ParseRule(g, toks, Stmt, pos, d));
      if d + 4 < MAX_PARSE_DEPTH {
        ReduceStep(g, toks, RollBack(fr), d, ReduceEmptyBlock);
      }
    }
  }

  /** A block of nothing but separators. */
  lemma EmptyBlockParses(g: Grammar, toks: Stream, pos: nat, depth: nat)
    requires IsLanguage(g) && !StartsStmt(KindAt(toks, SepsEnd(toks, pos)))
    ensures ParseRule(g, toks, BlockRule, pos, depth) ==
            if depth + 6 >= MAX_PARSE_DEPTH then TooDeep else Reduced(NodeArg(Block(0, [])), SepsEnd(toks, pos))
  {
    hide Run, ParseRule, Exists, NodeAt, Shared, FoldsAt, IsLanguage;
    PrintParse.Enters(g, toks, BlockRule, pos, depth);
    if depth < MAX_PARSE_DEPTH {
      StmtsTable(g);
      var fr, d, end := Start(BlockRule, pos), depth + 1, SepsEnd(toks, pos);
      OptSepsParse(g, toks, pos, d);
      RuleStep(g, toks, fr, d, StmtOptSeps, ParseRule(g, toks, StmtOptSeps, pos, d));
      if d + 2 < MAX_PARSE_DEPTH {
        var fr1 := Collect(fr, NullArg, end);
        NoStmtsParse(g, toks, end, d);
        RuleStep(g, toks, fr1, d, Stmts, ParseRule(g, toks, Stmts, end, d));
        if d + 5 < MAX_PARSE_DEPTH {
          var fr2 := Collect(fr1, NodeArg(Block(0, [])), end);
          OptSepsParse(g, toks, end, d);
          RuleStep(g, toks, fr2, d, StmtOptSeps, ParseRule(g, toks, StmtOptSeps, end, d));
          var fr3 := Collect(fr2, NullArg, end);
          assert fr3.args == [NullArg, NodeArg(Block(0, [])), NullArg];
          ReduceStep(g, toks, fr3, d, ReduceTriple);
        }
      }
    }
  }
}
