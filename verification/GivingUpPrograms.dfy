/**
 Giving up whole programs: when the parse of a written program is given up at the depth limit, exactly when
 does some activation release nodes twice (bootstrap/parser.c:272-318, 512-564)? Only the rules of expressions
 fold, so the question is which expression the limit cuts off, and that is decided by the program and its layout.
 */
module GivingUpPrograms {
  import opened Basics
  import opened Tokens
  import opened Ast
  import opened Grammar
  import opened Engine
  import opened Printing
  import opened PrintParse
  import opened Refusals
  import opened Programs
  import opened GivingUp
  import opened ProgramRoundTrip
  import ProgramParse

  // ----- single steps outside the chains -----

  lemma CallsOnce(g: Grammar, toks: Stream, fr: Frame, depth: nat, id: RuleId, r: Outcome)
    requires Exists(g, fr.id, fr.i) && NodeAt(g, fr.id, fr.i, fr.j) == Some(Rule(id)) && !fr.folded
    requires r == ParseRule(g, toks, id, fr.pos, depth)
    ensures
      TwiceFrom(g, toks, fr, depth) <==>
      if r.Reduced? then TwiceFrom(g, toks, Collect(fr, r.arg, r.pos), depth)
      else if r.Refused? then TwiceFrom(g, toks, RollBack(fr), depth)
      else r.TooDeep? && TwiceByRule(g, toks, id, fr.pos, depth)
  {
    hide TwiceFrom, TwiceByRule, ParseRule, ReleasesTwice;
    ReleasesTwiceIff(fr);
    RuleTwice(g, toks, fr, depth, id, r);
  }

  lemma ListOnce(g: Grammar, toks: Stream, fr: Frame, depth: nat, id: RuleId, r: Outcome)
    requires Exists(g, fr.id, fr.i) && NodeAt(g, fr.id, fr.i, fr.j) == Some(List(id))
    requires r == ParseList(g, toks, id, fr.pos, [], depth)
    ensures
      TwiceFrom(g, toks, fr, depth) <==>
      if r.Reduced? then TwiceFrom(g, toks, Collect(fr, r.arg, r.pos), depth)
      else r.TooDeep? && TwiceInList(g, toks, id, fr.pos, [], depth)
  {
    hide ParseList, TwiceInList;
  }

  lemma ListGoesOn(g: Grammar, toks: Stream, id: RuleId, pos: nat, stmts: seq<Tree>, depth: nat, r: Outcome)
    requires r == ParseRule(g, toks, id, pos, depth)
    ensures
      TwiceInList(g, toks, id, pos, stmts, depth) <==>
      if r.Reduced? then
        && pos < r.pos <= |toks| && !r.arg.TokenArg? && !r.arg.PartsArg?
        && TwiceInList(g, toks, id, r.pos, if r.arg.NullArg? then stmts else stmts + [r.arg.node], depth)
      else r.TooDeep? && TwiceByRule(g, toks, id, pos, depth)
  {
    hide ParseRule, TwiceByRule;
  }

  /** A terminal of a rule that does not look through newlines. */
  lemma TermOnce(g: Grammar, toks: Stream, fr: Frame, depth: nat, kind: TokenKind)
    requires Exists(g, fr.id, fr.i) && NodeAt(g, fr.id, fr.i, fr.j) == Some(Term(kind)) && !g(fr.id).skipNewLine
    requires !fr.folded
    ensures
      TwiceFrom(g, toks, fr, depth) <==>
      if KindAt(toks, fr.pos) == kind then TwiceFrom(g, toks, Collect(fr, TokenArg(fr.pos), fr.pos + 1), depth)
      else if Shared(g, fr.id, fr.i, fr.j) then TwiceFrom(g, toks, HandOver(fr), depth)
      else TwiceFrom(g, toks, RollBack(fr), depth)
  {
    hide Shared;
  }

  lemma OutOnce(g: Grammar, toks: Stream, fr: Frame, depth: nat)
    requires !Exists(g, fr.id, fr.i)
    ensures !TwiceFrom(g, toks, fr, depth)
  {
  }

  lemma EntersOnce(g: Grammar, toks: Stream, id: RuleId, pos: nat, depth: nat)
    ensures
      TwiceByRule(g, toks, id, pos, depth) <==>
      depth < MAX_PARSE_DEPTH && TwiceFrom(g, toks, Start(id, pos), depth + 1)
  {
    hide TwiceFrom;
  }

  // ----- rules that release nothing twice -----

  predicate IsSepRule(id: RuleId) {
    id in {StmtSep, StmtSeps, StmtOptSeps}
  }

  lemma SepRules(g: Grammar, id: RuleId, i: nat, j: nat)
    requires IsLanguage(g) && IsSepRule(id)
    ensures FoldsAt(g, id, i) == -1
    ensures
      match NodeAt(g, id, i, j)
      case Some(Rule(sub)) => IsSepRule(sub)
      case Some(List(sub)) => IsSepRule(sub)
      case _ => true
  {
    assert g(id) == Language(id);
  }

  lemma {:induction false} SepsOnce(g: Grammar, toks: Stream, id: RuleId, pos: nat, depth: nat)
    requires IsLanguage(g) && IsSepRule(id)
    ensures !TwiceByRule(g, toks, id, pos, depth)
    decreases MAX_PARSE_DEPTH - depth, 0
  {
    hide TwiceFrom, IsLanguage;
    if depth < MAX_PARSE_DEPTH {
      SepsFrom(g, toks, Start(id, pos), depth + 1);
    }
  }

  lemma {:induction false} SepsFrom(g: Grammar, toks: Stream, fr: Frame, depth: nat)
    requires IsLanguage(g) && IsSepRule(fr.id) && !fr.folded
    ensures !TwiceFrom(g, toks, fr, depth)
    decreases MAX_PARSE_DEPTH - depth, 2, |toks| - fr.floor, |g(fr.id).productions| - fr.i, NodesLeft(g, fr)
  {
    hide ParseRule, ParseList, Shared, Look, Apply, FoldsAt, TwiceByRule, TwiceInList, IsLanguage, IsSepRule;
    SepRules(g, fr.id, fr.i, fr.j);
    ReleasesTwiceIff(fr);
    hide ReleasesTwice;
    if Exists(g, fr.id, fr.i) {
      match NodeAt(g, fr.id, fr.i, fr.j)
      case None => SepsFrom(g, toks, RollBack(fr), depth);
      case Some(Term(kind)) =>
        var q := Look(toks, fr.pos, g(fr.id).skipNewLine);
        if KindAt(toks, q) == kind {
          SepsFrom(g, toks, Collect(fr, TokenArg(q), q + 1), depth);
        } else if Shared(g, fr.id, fr.i, fr.j) {
          SepsFrom(g, toks, HandOver(fr), depth);
        } else {
          SepsFrom(g, toks, RollBack(fr), depth);
        }
      case Some(Rule(id)) =>
        var r := ParseRule(g, toks, id, fr.pos, depth);
        if r.Reduced? {
          SepsFrom(g, toks, Collect(fr, r.arg, r.pos), depth);
        } else if r.Refused? {
          SepsFrom(g, toks, RollBack(fr), depth);
        } else if r.TooDeep? {
          SepsOnce(g, toks, id, fr.pos, depth);
        }
      case Some(List(id)) =>
        var r := ParseList(g, toks, id, fr.pos, [], depth);
        if r.Reduced? {
          SepsFrom(g, toks, Collect(fr, r.arg, r.pos), depth);
        } else {
          SepListOnce(g, toks, id, fr.pos, [], depth);
        }
      case Some(Reduce(f)) =>
    }
  }

  lemma {:induction false} SepListOnce(g: Grammar, toks: Stream, id: RuleId, pos: nat, stmts: seq<Tree>, depth: nat)
    requires IsLanguage(g) && IsSepRule(id)
    ensures !TwiceInList(g, toks, id, pos, stmts, depth)
    decreases MAX_PARSE_DEPTH - depth, 1, |toks| - pos
  {
    hide ParseRule, TwiceByRule, IsLanguage, IsSepRule;
    var r := ParseRule(g, toks, id, pos, depth);
    if r.Reduced? && pos < r.pos <= |toks| && !r.arg.TokenArg? && !r.arg.PartsArg? {
      SepListOnce(g, toks, id, r.pos, if r.arg.NullArg? then stmts else stmts + [r.arg.node], depth);
    } else if r.TooDeep? {
      SepsOnce(g, toks, id, pos, depth);
    }
  }

  /** Where no expression begins. */
  lemma {:induction false} LevelOnce(g: Grammar, toks: Stream, lvl: Level, pos: nat, depth: nat)
    requires IsLanguage(g) && !StartsExpr(KindAt(toks, NextSolid(toks, pos)))
    ensures !TwiceByRule(g, toks, RuleOf(lvl), pos, depth)
    decreases lvl
  {
    hide TwiceFrom, TwiceByRule, IsLanguage, StartsExpr, NextSolid, ParseRule;
    EntersOnce(g, toks, RuleOf(lvl), pos, depth);
    if depth < MAX_PARSE_DEPTH {
      LanguageSpeaks(g);
      NoFactorStarts(KindAt(toks, NextSolid(toks, pos)));
      if lvl == FACTOR {
        NoFactorOnce(g, toks, pos, depth + 1);
      } else {
        LevelOnce(g, toks, lvl - 1, pos, depth + 1);
        LevelRefuses(g, toks, lvl - 1, pos, depth + 1);
        if lvl == UNARY {
          NoUnaryOnce(g, toks, pos, depth + 1);
        } else {
          NoChainOnce(g, toks, lvl, pos, depth + 1);
        }
      }
    }
  }

  lemma NoFactorOnce(g: Grammar, toks: Stream, pos: nat, d: nat)
    requires Speaks(g) && forall k :: 0 <= k < 5 ==> FactorStart(k) != KindAt(toks, NextSolid(toks, pos))
    ensures !TwiceFrom(g, toks, Start(ExprFactor, pos), d)
  {
    hide TwiceFrom, Exists, NodeAt, Shared, FoldsAt, NextSolid, Speaks, Skips, FactorStart;
    FactorTable(g, 4);
    PassesOverTwice(g, toks, pos, 0, 4, d);
    var fr := Start(ExprFactor, pos).(i := 4);
    TermTwice(g, toks, fr, d, FactorStart(4));
    OutOnce(g, toks, RollBack(fr), d);
  }

  lemma NoUnaryOnce(g: Grammar, toks: Stream, pos: nat, d: nat)
    requires Speaks(g) && KindAt(toks, NextSolid(toks, pos)) != TokMinus && !TwiceByRule(g, toks, ExprFactor, pos, d)
    requires ParseRule(g, toks, ExprFactor, pos, d) == TooDeep || ParseRule(g, toks, ExprFactor, pos, d) == Refused(pos)
    ensures !TwiceFrom(g, toks, Start(ExprUnary, pos), d)
  {
    hide TwiceFrom, TwiceByRule, ParseRule, Exists, NodeAt, Shared, FoldsAt, NextSolid, Speaks, Skips;
    UnaryTable(g);
    var fr := Start(ExprUnary, pos);
    CallsOnce(g, toks, fr, d, ExprFactor, ParseRule(g, toks, ExprFactor, pos, d));
    TermTwice(g, toks, RollBack(fr), d, TokMinus);
    OutOnce(g, toks, RollBack(RollBack(fr)), d);
  }

  lemma NoChainOnce(g: Grammar, toks: Stream, lvl: Level, pos: nat, d: nat)
    requires Speaks(g) && lvl >= TERM && !TwiceByRule(g, toks, RuleOf(lvl - 1), pos, d)
    requires
      var r := ParseRule(g, toks, RuleOf(lvl - 1), pos, d);
      r == TooDeep || r == Refused(pos)
    ensures !TwiceFrom(g, toks, Start(RuleOf(lvl), pos), d)
  {
    hide TwiceFrom, TwiceByRule, ParseRule, Exists, NodeAt, Shared, FoldsAt, Speaks, Skips, RuleOf;
    ChainTable(g, lvl);
    var fr, sub := Start(RuleOf(lvl), pos), RuleOf(lvl - 1);
    var r := ParseRule(g, toks, sub, pos, d);
    CallsOnce(g, toks, fr, d, sub, r);
    CallsOnce(g, toks, RollBack(fr), d, sub, r);
    CallsOnce(g, toks, RollBack(RollBack(fr)), d, sub, r);
    OutOnce(g, toks, RollBack(RollBack(RollBack(fr))), d);
  }

  lemma NoFactorStarts(kind: TokenKind)
    requires !StartsExpr(kind)
    ensures kind != TokMinus && forall k :: 0 <= k < 5 ==> FactorStart(k) != kind
  {
  }

  /** Where no statement begins. */
  lemma StmtOnce(g: Grammar, toks: Stream, pos: nat, depth: nat)
    requires IsLanguage(g) && !StartsStmt(KindAt(toks, pos)) && KindAt(toks, pos) != TokNewline
    ensures !TwiceByRule(g, toks, Stmt, pos, depth)
  {
    hide StartsStmt, StartsExpr, ParseRule, TwiceFrom, TwiceByRule, NextSolid, IsLanguage;
    ProgramParse.Solid(toks, pos);
    NotAStart(KindAt(toks, pos));
    EntersOnce(g, toks, Stmt, pos, depth);
    LevelRefuses(g, toks, PRIME, pos, depth + 1);
    LevelOnce(g, toks, PRIME, pos, depth + 1);
    NoStmtOnce(g, toks, pos, depth + 1, ParseRule(g, toks, ExprPrime, pos, depth + 1));
  }

  lemma NoStmtOnce(g: Grammar, toks: Stream, pos: nat, d: nat, r: Outcome)
    requires IsLanguage(g) && KindAt(toks, pos) !in {TokEcho, TokIf, TokId}
    requires r == ParseRule(g, toks, ExprPrime, pos, d) && (r.Refused? || r.TooDeep?)
    requires !TwiceByRule(g, toks, ExprPrime, pos, d)
    ensures !TwiceFrom(g, toks, Start(Stmt, pos), d)
  {
    hide ParseRule, TwiceFrom, TwiceByRule, Exists, NodeAt, Shared, FoldsAt, IsLanguage;
    StmtTable(g);
    var fr := Start(Stmt, pos);
    TermOnce(g, toks, fr, d, TokEcho);
    TermOnce(g, toks, HandOver(fr), d, TokIf);
    TermOnce(g, toks, HandOver(HandOver(fr)), d, TokId);
    var fr1 := HandOver(HandOver(HandOver(fr)));
    CallsOnce(g, toks, fr1, d, ExprPrime, r);
    OutOnce(g, toks, RollBack(fr1), d);
  }

  // ----- calls of a rule, by what the rule makes of the input -----

  /** A production that ends with this rule: all that is released twice is released inside. */
  lemma LastOnce(g: Grammar, toks: Stream, fr: Frame, depth: nat, id: RuleId, f: Reducer)
    requires Exists(g, fr.id, fr.i) && FoldsAt(g, fr.id, fr.i) == -1 && !fr.folded
    requires NodeAt(g, fr.id, fr.i, fr.j) == Some(Rule(id)) && NodeAt(g, fr.id, fr.i, fr.j + 1) == Some(Reduce(f))
    requires !ParseRule(g, toks, id, fr.pos, depth).Refused?
    ensures TwiceFrom(g, toks, fr, depth) <==> TwiceByRule(g, toks, id, fr.pos, depth)
  {
    hide TwiceFrom, TwiceByRule, ParseRule, Exists, NodeAt, FoldsAt;
    var r := ParseRule(g, toks, id, fr.pos, depth);
    CallsOnce(g, toks, fr, depth, id, r);
    NotIfTooDeep(g, toks, id, fr.pos, depth);
    if r.Reduced? {
      CompletedOnce(g, toks, Collect(fr, r.arg, r.pos), depth, f);
    }
  }

  /** What a tighter rule of expressions releases while it is given up, the looser one releases. */
  lemma UpOnce(g: Grammar, toks: Stream, lvl: Level, pos: nat, depth: nat)
    requires IsLanguage(g) && lvl > FACTOR && ParseRule(g, toks, RuleOf(lvl - 1), pos, depth + 1) == TooDeep
    ensures ParseRule(g, toks, RuleOf(lvl), pos, depth) == TooDeep
    ensures
      TwiceByRule(g, toks, RuleOf(lvl), pos, depth) <==> TwiceByRule(g, toks, RuleOf(lvl - 1), pos, depth + 1)
  {
    hide Run, TwiceFrom, ParseRule, Exists, NodeAt, FoldsAt, Shared, IsLanguage, Speaks, Skips;
    LanguageSpeaks(g);
    Enters(g, toks, RuleOf(lvl), pos, depth);
    if lvl == UNARY {
      UnaryTable(g);
    } else {
      ChainTable(g, lvl);
    }
    CallsRule(g, toks, Start(RuleOf(lvl), pos), depth + 1, RuleOf(lvl - 1), TooDeep);
    CallsOnce(g, toks, Start(RuleOf(lvl), pos), depth + 1, RuleOf(lvl - 1), TooDeep);
  }

  // ----- the part that the limit cuts off -----

  /**
   The parts of a written statement, in the order in which they are read: the first one that the limit
   leaves no room for is an expression, and is cut off behind the second operator of a chain or a later one.
   */
  predicate LateStmt(toks: Stream, pos: nat, s: Written, depth: nat)
    requires StmtPlace(toks, pos, s).Some?
    decreases s, 2
  {
    match s
    case EchoOf(e) => LateInChain(PRIME, e, depth + 1)
    case DefineOf(_, e) => LateInChain(PRIME, e, depth + 1)
    case AssignTo(_, e) => LateInChain(PRIME, e, depth + 1)
    case _ => LateTail(toks, pos + 1, s, depth + 1)
  }

  /** Behind `then`, a condition is tried as an expression first, and takes three levels more. */
  predicate LateTail(toks: Stream, pos: nat, s: Written, depth: nat)
    requires IsIf(s) && TailPlace(toks, pos, s).Some?
    decreases s, 1
  {
    var c, d := ExprPlace(toks, pos, s.cond).value, depth + 1;
    if d + c.room > MAX_PARSE_DEPTH then LateInChain(PRIME, s.cond, d)
    else
      match s
      case IfThen(_, arm) =>
        var q := NextSolid(toks, c.end) + 1;
        if IsIf(arm) && d + 3 + StmtPlace(toks, q, arm).value.room > MAX_PARSE_DEPTH
        then LateTail(toks, q + 1, arm, d + 4)
        else LateStmt(toks, q, arm, d)
      case IfBlock(_, body) => LateBrace(toks, c.end, body, d)
      case IfBlocks(_, body, others) =>
        var a := BracePlace(toks, c.end, body).value;
        if d + a.room > MAX_PARSE_DEPTH then LateBrace(toks, c.end, body, d)
        else LateBrace(toks, NextSolid(toks, a.end) + 1, others, d)
  }

  predicate LateBrace(toks: Stream, pos: nat, b: seq<Written>, depth: nat)
    requires BracePlace(toks, pos, b).Some?
    decreases b, 3
  {
    LateBlock(toks, NextSolid(toks, pos) + 1, b, depth + 1)
  }

  predicate LateBlock(toks: Stream, pos: nat, b: seq<Written>, depth: nat)
    requires BlockPlace(toks, pos, b).Some?
    decreases b, 2
  {
    b != [] && (
      var q := SepsEnd(toks, pos);
      assert ListPlace(toks, q, b).Some?;
      var p := StmtPlace(toks, q, b[0]).value;
      if depth + 2 + p.room > MAX_PARSE_DEPTH then LateStmt(toks, q, b[0], depth + 2)
      else LateRest(toks, p.end, b[1..], depth + 2))
  }

  predicate LateRest(toks: Stream, pos: nat, b: seq<Written>, depth: nat)
    requires RestPlace(toks, pos, b).Some?
    decreases b, 0
  {
    b != [] && (
      var q := SepsEnd(toks, pos);
      var p := StmtPlace(toks, q, b[0]).value;
      if depth + 1 + p.room > MAX_PARSE_DEPTH then LateStmt(toks, q, b[0], depth + 1)
      else LateRest(toks, p.end, b[1..], depth))
  }

  // Where not even a name has room, the limit cuts everything off before the first operator.

  lemma {:induction false} NoRoomForExpr(lvl: Level, c: Cst, depth: nat)
    requires depth + 4 > MAX_PARSE_DEPTH + (PRIME - lvl)
    ensures !LateInChain(lvl, c, depth)
    decreases c, lvl
  {
    hide Room;
    if lvl == UNARY {
      NoRoomForExpr(FACTOR, if c.Neg? then c.operand else c, depth + 1);
    } else if lvl >= TERM {
      if IsChain(lvl, c) {
        NoRoomFits(lvl, c.left, depth);
        NoRoomForExpr(lvl, c.left, depth);
      } else {
        NoRoomForExpr(lvl - 1, c, depth + 1);
      }
    }
  }

  lemma NoRoomFits(lvl: Level, c: Cst, depth: nat)
    requires depth + 4 > MAX_PARSE_DEPTH + (PRIME - lvl)
    ensures !Fits(lvl, c, depth)
  {
  }

  lemma NoRoomForTail(toks: Stream, pos: nat, s: Written, depth: nat)
    requires IsIf(s) && TailPlace(toks, pos, s).Some? && depth + 5 > MAX_PARSE_DEPTH
    ensures !LateTail(toks, pos, s, depth)
  {
    hide LateInChain, ExprPlace, StmtPlace, BracePlace, LateStmt, LateBrace;
    NoRoomForExpr(PRIME, s.cond, depth + 1);
  }

  lemma NoRoomForStmt(toks: Stream, pos: nat, s: Written, depth: nat)
    requires StmtPlace(toks, pos, s).Some? && depth + 5 > MAX_PARSE_DEPTH
    ensures !LateStmt(toks, pos, s, depth)
  {
    hide LateInChain, ExprPlace, TailPlace, LateTail;
    match s
    case EchoOf(e) => NoRoomForExpr(PRIME, e, depth + 1);
    case DefineOf(_, e) => NoRoomForExpr(PRIME, e, depth + 1);
    case AssignTo(_, e) => NoRoomForExpr(PRIME, e, depth + 1);
    case _ => NoRoomForTail(toks, pos + 1, s, depth + 1);
  }

  // ----- expressions and simple statements -----

  lemma ExprTwice(g: Grammar, toks: Stream, e: Cst, pos: nat, depth: nat)
    requires IsLanguage(g) && ExprPlace(toks, pos, e).Some?
    requires !IsArithmetic(KindAt(toks, NextSolid(toks, ExprPlace(toks, pos, e).value.end)))
    ensures TwiceByRule(g, toks, ExprPrime, pos, depth) <==> LateInChain(PRIME, e, depth)
  {
    hide IsAt, Reads, Room, Built, Print, End, NextSolid, IsLanguage, TwiceByRule, LateInChain;
    LanguageSpeaks(g);
    TwiceIff(g, toks, PRIME, e, pos, depth);
  }

  lemma SimpleTwice(g: Grammar, toks: Stream, s: Written, pos: nat, depth: nat)
    requires IsLanguage(g) && !IsIf(s) && StmtPlace(toks, pos, s).Some?
    requires Follows(toks, StmtPlace(toks, pos, s).value.end)
    ensures TwiceByRule(g, toks, Stmt, pos, depth) <==> LateStmt(toks, pos, s, depth)
  {
    hide TwiceFrom, TwiceByRule, ParseRule, Exists, NodeAt, Shared, FoldsAt, NextSolid, IsLanguage, ExprPlace;
    hide LateInChain;
    EntersOnce(g, toks, Stmt, pos, depth);
    StmtTable(g);
    ProgramParse.StmtRest(g);
    var fr, d := Start(Stmt, pos), depth + 1;
    if depth >= MAX_PARSE_DEPTH {
      NoRoomForStmt(toks, pos, s, depth);
    } else {
      TermOnce(g, toks, fr, d, TokEcho);
      if s.EchoOf? {
        ProgramParse.ExprParses(g, toks, s.expr, pos + 1, d);
        ExprTwice(g, toks, s.expr, pos + 1, d);
        LastOnce(g, toks, Collect(fr, TokenArg(pos), pos + 1), d, ExprPrime, ReduceEcho);
      } else {
        TermOnce(g, toks, HandOver(fr), d, TokIf);
        TermOnce(g, toks, HandOver(HandOver(fr)), d, TokId);
        var fr1 := ProgramParse.Named(pos);
        assert Collect(HandOver(HandOver(fr)), TokenArg(pos), pos + 1) == fr1;
        TermOnce(g, toks, fr1, d, TokDefine);
        ProgramParse.ExprParses(g, toks, s.expr, pos + 2, d);
        ExprTwice(g, toks, s.expr, pos + 2, d);
        if s.DefineOf? {
          LastOnce(g, toks, Collect(fr1, TokenArg(pos + 1), pos + 2), d, ExprPrime, ReduceDefine);
        } else {
          AssignTwice(g, toks, s.name, s.expr, pos, d);
        }
      }
    }
  }

  /** The name is tried as an expression, and nothing of it is released twice. */
  lemma AssignTwice(g: Grammar, toks: Stream, name: string, e: Cst, pos: nat, d: nat)
    requires IsLanguage(g) && KindAt(toks, pos) == TokId && TextAt(toks, pos) == name
    requires KindAt(toks, pos + 1) == TokAssign
    requires !ParseRule(g, toks, ExprPrime, pos + 2, d).Refused?
    requires TwiceByRule(g, toks, ExprPrime, pos + 2, d) <==> LateInChain(PRIME, e, d)
    ensures TwiceFrom(g, toks, RollBack(ProgramParse.Named(pos)), d) <==> LateInChain(PRIME, e, d)
  {
    hide TwiceFrom, TwiceByRule, ParseRule, Exists, NodeAt, Shared, FoldsAt, NextSolid, IsLanguage, LateInChain;
    StmtTable(g);
    ProgramParse.StmtRest(g);
    ProgramParse.NameParses(g, toks, name, pos, d, TokAssign);
    NameOnce(g, toks, name, pos, d, TokAssign);
    var fr, r := RollBack(ProgramParse.Named(pos)), ParseRule(g, toks, ExprPrime, pos, d);
    CallsOnce(g, toks, fr, d, ExprPrime, r);
    if r.Reduced? {
      var fr1 := Collect(fr, r.arg, r.pos);
      TermOnce(g, toks, fr1, d, TokAssign);
      LastOnce(g, toks, Collect(fr1, TokenArg(pos + 1), pos + 2), d, ExprPrime, ReduceAssign);
    } else {
      NoRoomForExpr(PRIME, e, d);
    }
  }

  lemma NameOnce(g: Grammar, toks: Stream, name: string, pos: nat, depth: nat, next: TokenKind)
    requires IsLanguage(g) && KindAt(toks, pos) == TokId && TextAt(toks, pos) == name && KindAt(toks, pos + 1) == next
    requires !IsArithmetic(next) && next != TokNewline
    ensures !TwiceByRule(g, toks, ExprPrime, pos, depth)
  {
    hide TwiceByRule, IsLanguage, ExprPlace, ParseRule, LateInChain;
    var c := Leaf(TokId, name);
    ProgramParse.NamePlace(toks, name, pos);
    ExprTwice(g, toks, c, pos, depth);
    NameNeverLate(c, depth);
  }

  lemma NameNeverLate(c: Cst, depth: nat)
    requires c.Leaf?
    ensures !LateInChain(PRIME, c, depth)
  {
    assert !LateInChain(FACTOR, c, depth + 3);
    assert !LateInChain(UNARY, c, depth + 2);
    assert !LateInChain(TERM, c, depth + 1);
  }

  // ----- conditions -----

  /** Given up behind `then`: first in the trial as an expression, then as the statement that it is. */
  lemma ThenTwice(g: Grammar, toks: Stream, pos: nat, d: nat, c: Place, tried: Outcome)
    requires IsLanguage(g) && KindAt(toks, NextSolid(toks, c.end)) == TokThen
    requires ParseRule(g, toks, ExprPrime, pos, d) == Reduced(NodeArg(c.tree), c.end)
    requires tried == ParseRule(g, toks, ExprPrime, NextSolid(toks, c.end) + 1, d)
    requires ProgramParse.NoExprArm(toks, tried) || tried.TooDeep?
    requires !ParseRule(g, toks, Stmt, NextSolid(toks, c.end) + 1, d).Refused?
    ensures
      var q := NextSolid(toks, c.end) + 1;
      TwiceFrom(g, toks, Start(IfTail, pos), d) <==>
      if tried.TooDeep? then TwiceByRule(g, toks, ExprPrime, q, d) else TwiceByRule(g, toks, Stmt, q, d)
  {
    hide TwiceFrom, TwiceByRule, ParseRule, Exists, NodeAt, Shared, FoldsAt, NextSolid, IsLanguage, Speaks, Skips;
    LanguageSpeaks(g);
    IfTailTable(g);
    ProgramParse.IfTailRest(g);
    ProgramParse.IfTailShares(g);
    var fr, q := Start(IfTail, pos), NextSolid(toks, c.end) + 1;
    var rc := Reduced(NodeArg(c.tree), c.end);
    CallsOnce(g, toks, fr, d, ExprPrime, rc);
    var fr1 := Collect(fr, NodeArg(c.tree), c.end);
    TermTwice(g, toks, fr1, d, TokThen);
    var fr2 := Collect(fr1, TokenArg(q - 1), q);
    CallsOnce(g, toks, fr2, d, ExprPrime, tried);
    if tried.Reduced? {
      TermTwice(g, toks, Collect(fr2, tried.arg, tried.pos), d, TokElse);
    }
    var fr3 := RollBack(fr);
    CallsOnce(g, toks, fr3, d, ExprPrime, rc);
    var fr4 := Collect(fr3, NodeArg(c.tree), c.end);
    TermTwice(g, toks, fr4, d, TokThen);
    LastOnce(g, toks, Collect(fr4, TokenArg(q - 1), q), d, Stmt, ReduceIfThen);
  }

  /** Behind a condition without `then`. */
  lemma BraceOnce(g: Grammar, toks: Stream, pos: nat, d: nat, c: Place, r: Outcome)
    requires IsLanguage(g) && KindAt(toks, NextSolid(toks, c.end)) != TokThen
    requires ParseRule(g, toks, ExprPrime, pos, d) == Reduced(NodeArg(c.tree), c.end)
    requires r == ParseRule(g, toks, BracedBlock, c.end, d) && (r.TooDeep? || (r.Reduced? && r.arg.NodeArg?))
    ensures
      TwiceFrom(g, toks, Start(IfTail, pos), d) <==>
      if r.TooDeep? then TwiceByRule(g, toks, BracedBlock, c.end, d)
      else TwiceFrom(g, toks, ProgramParse.Braced(pos, c, Place(r.arg.node, r.pos, 0)), d)
  {
    hide TwiceFrom, TwiceByRule, ParseRule, Exists, NodeAt, Shared, FoldsAt, NextSolid, IsLanguage, Speaks, Skips;
    LanguageSpeaks(g);
    IfTailTable(g);
    ProgramParse.IfTailRest(g);
    ProgramParse.IfTailShares(g);
    var fr := Start(IfTail, pos);
    CallsOnce(g, toks, fr, d, ExprPrime, Reduced(NodeArg(c.tree), c.end));
    var fr1 := Collect(fr, NodeArg(c.tree), c.end);
    TermTwice(g, toks, fr1, d, TokThen);
    TermTwice(g, toks, HandOver(fr1), d, TokThen);
    var fr2 := HandOver(HandOver(fr1));
    CallsOnce(g, toks, fr2, d, BracedBlock, r);
    if r.Reduced? {
      assert Collect(fr2, r.arg, r.pos).args == [NodeArg(c.tree), r.arg];
    }
  }

  lemma OneBlockOnce(g: Grammar, toks: Stream, pos: nat, d: nat, c: Place, a: Place)
    requires IsLanguage(g) && KindAt(toks, NextSolid(toks, a.end)) != TokElse
    ensures !TwiceFrom(g, toks, ProgramParse.Braced(pos, c, a), d)
  {
    hide TwiceFrom, Exists, NodeAt, Shared, FoldsAt, NextSolid, IsLanguage, Speaks, Skips;
    LanguageSpeaks(g);
    IfTailTable(g);
    ProgramParse.IfTailRest(g);
    ProgramParse.IfTailShares(g);
    var fr := ProgramParse.Braced(pos, c, a);
    TermTwice(g, toks, fr, d, TokElse);
    CompletedOnce(g, toks, HandOver(fr), d, ReduceIfBlock);
  }

  lemma TwoBlocksTwice(g: Grammar, toks: Stream, pos: nat, d: nat, c: Place, a: Place)
    requires IsLanguage(g) && KindAt(toks, NextSolid(toks, a.end)) == TokElse
    requires !ParseRule(g, toks, BracedBlock, NextSolid(toks, a.end) + 1, d).Refused?
    ensures
      TwiceFrom(g, toks, ProgramParse.Braced(pos, c, a), d) <==>
      TwiceByRule(g, toks, BracedBlock, NextSolid(toks, a.end) + 1, d)
  {
    hide TwiceFrom, TwiceByRule, ParseRule, Exists, NodeAt, Shared, FoldsAt, NextSolid, IsLanguage, Speaks, Skips;
    LanguageSpeaks(g);
    IfTailTable(g);
    ProgramParse.IfTailRest(g);
    var fr, q := ProgramParse.Braced(pos, c, a), NextSolid(toks, a.end) + 1;
    TermTwice(g, toks, fr, d, TokElse);
    LastOnce(g, toks, Collect(fr, TokenArg(q - 1), q), d, BracedBlock, ReduceIfBlocks);
  }

  /** The condition itself is too deep. */
  lemma CondTwice(g: Grammar, toks: Stream, pos: nat, d: nat)
    requires IsLanguage(g) && ParseRule(g, toks, ExprPrime, pos, d) == TooDeep
    ensures TwiceFrom(g, toks, Start(IfTail, pos), d) <==> TwiceByRule(g, toks, ExprPrime, pos, d)
  {
    hide TwiceFrom, TwiceByRule, ParseRule, Exists, NodeAt, Shared, FoldsAt, IsLanguage, Speaks, Skips;
    LanguageSpeaks(g);
    IfTailTable(g);
    CallsOnce(g, toks, Start(IfTail, pos), d, ExprPrime, TooDeep);
  }

  lemma IfStmtTwice(g: Grammar, toks: Stream, pos: nat, depth: nat)
    requires IsLanguage(g) && KindAt(toks, pos) == TokIf && depth < MAX_PARSE_DEPTH
    requires !ParseRule(g, toks, IfTail, pos + 1, depth + 1).Refused?
    ensures TwiceByRule(g, toks, Stmt, pos, depth) <==> TwiceByRule(g, toks, IfTail, pos + 1, depth + 1)
  {
    hide TwiceFrom, ParseRule, Exists, NodeAt, Shared, FoldsAt, IsLanguage;
    StmtTable(g);
    ProgramParse.StmtRest(g);
    var fr, d := Start(Stmt, pos), depth + 1;
    TermOnce(g, toks, fr, d, TokEcho);
    TermOnce(g, toks, HandOver(fr), d, TokIf);
    LastOnce(g, toks, Collect(HandOver(fr), TokenArg(pos), pos + 1), d, IfTail, ReduceIfStmt);
  }

  lemma IfFactorTwice(g: Grammar, toks: Stream, pos: nat, depth: nat)
    requires IsLanguage(g) && KindAt(toks, pos) == TokIf
    requires ParseRule(g, toks, IfTail, pos + 1, depth + 1) == TooDeep
    ensures ParseRule(g, toks, ExprFactor, pos, depth) == TooDeep
    ensures TwiceByRule(g, toks, ExprFactor, pos, depth) <==> TwiceByRule(g, toks, IfTail, pos + 1, depth + 1)
  {
    hide Run, TwiceFrom, ParseRule, Exists, NodeAt, Shared, FoldsAt, IsLanguage, NextSolid, Speaks, Skips;
    ProgramParse.Solid(toks, pos);
    LanguageSpeaks(g);
    FactorTable(g, 3);
    FactorRest(g);
    Enters(g, toks, ExprFactor, pos, depth);
    FactorOpens(g, toks, pos, 3, depth + 1);
    FactorOpensTwice(g, toks, pos, 3, depth + 1);
    CallsRule(g, toks, FactorOpen(toks, pos, 3), depth + 1, IfTail, TooDeep);
    CallsOnce(g, toks, FactorOpen(toks, pos, 3), depth + 1, IfTail, TooDeep);
  }

  /** A condition that is too deep as an expression. */
  lemma IfExprTwice(g: Grammar, toks: Stream, pos: nat, depth: nat)
    requires IsLanguage(g) && KindAt(toks, pos) == TokIf
    requires ParseRule(g, toks, IfTail, pos + 1, depth + 4) == TooDeep
    ensures TwiceByRule(g, toks, ExprPrime, pos, depth) <==> TwiceByRule(g, toks, IfTail, pos + 1, depth + 4)
  {
    hide TwiceByRule, ParseRule, IsLanguage;
    IfFactorTwice(g, toks, pos, depth + 3);
    UpOnce(g, toks, UNARY, pos, depth + 2);
    UpOnce(g, toks, TERM, pos, depth + 1);
    UpOnce(g, toks, PRIME, pos, depth);
  }

  // ----- blocks -----

  /** A statement behind separators. */
  lemma NextTwice(g: Grammar, toks: Stream, pos: nat, depth: nat)
    requires IsLanguage(g) && IsSep(KindAt(toks, pos)) && depth + 2 < MAX_PARSE_DEPTH
    requires !ParseRule(g, toks, Stmt, SepsEnd(toks, pos), depth + 1).Refused?
    ensures
      TwiceByRule(g, toks, StmtNext, pos, depth) <==> TwiceByRule(g, toks, Stmt, SepsEnd(toks, pos), depth + 1)
  {
    hide TwiceFrom, ParseRule, Exists, NodeAt, Shared, FoldsAt, IsLanguage, SepsEnd;
    ProgramParse.ListTables(g);
    var fr, d := Start(StmtNext, pos), depth + 1;
    SepsParse(g, toks, pos, d);
    CallsOnce(g, toks, fr, d, StmtSeps, ParseRule(g, toks, StmtSeps, pos, d));
    LastOnce(g, toks, Collect(fr, NullArg, SepsEnd(toks, pos)), d, Stmt, ReducePeekSecond);
  }

  /** Too deep for separators. */
  lemma NextOnce(g: Grammar, toks: Stream, pos: nat, depth: nat)
    requires IsLanguage(g) && depth + 2 >= MAX_PARSE_DEPTH
    ensures !TwiceByRule(g, toks, StmtNext, pos, depth)
  {
    hide TwiceFrom, ParseRule, Exists, NodeAt, Shared, FoldsAt, IsLanguage, TwiceByRule;
    EntersOnce(g, toks, StmtNext, pos, depth);
    ProgramParse.ListTables(g);
    var fr, d := Start(StmtNext, pos), depth + 1;
    SepsParse(g, toks, pos, d);
    SepsOnce(g, toks, StmtSeps, pos, d);
    CallsOnce(g, toks, fr, d, StmtSeps, TooDeep);
  }

  /** Behind the last statement one more is looked for. */
  lemma LastNextOnce(g: Grammar, toks: Stream, pos: nat, depth: nat)
    requires IsLanguage(g) && ProgramParse.Closes(KindAt(toks, SepsEnd(toks, pos)))
    ensures !TwiceByRule(g, toks, StmtNext, pos, depth)
  {
    hide TwiceFrom, TwiceByRule, ParseRule, Exists, NodeAt, Shared, FoldsAt, IsLanguage, SepsEnd, StartsStmt;
    EntersOnce(g, toks, StmtNext, pos, depth);
    ProgramParse.ListTables(g);
    var fr, d, q := Start(StmtNext, pos), depth + 1, SepsEnd(toks, pos);
    SepsParse(g, toks, pos, d);
    SepsOnce(g, toks, StmtSeps, pos, d);
    CallsOnce(g, toks, fr, d, StmtSeps, ParseRule(g, toks, StmtSeps, pos, d));
    OutOnce(g, toks, RollBack(fr), d);
    ProgramParse.ClosesNoStmt(KindAt(toks, q));
    StmtOnce(g, toks, q, d);
    StmtRefuses(g, toks, q, d);
    var fr1 := Collect(fr, NullArg, q);
    CallsOnce(g, toks, fr1, d, Stmt, ParseRule(g, toks, Stmt, q, d));
    OutOnce(g, toks, RollBack(fr1), d);
  }

  lemma StmtsTwice(g: Grammar, toks: Stream, pos: nat, depth: nat, r: Outcome)
    requires IsLanguage(g) && depth < MAX_PARSE_DEPTH
    requires r == ParseRule(g, toks, Stmt, pos, depth + 1) && !r.Refused?
    requires r.Reduced? ==> !ParseList(g, toks, StmtNext, r.pos, [], depth + 1).Refused?
    ensures
      TwiceByRule(g, toks, Stmts, pos, depth) <==>
      if r.Reduced? then TwiceInList(g, toks, StmtNext, r.pos, [], depth + 1)
      else TwiceByRule(g, toks, Stmt, pos, depth + 1)
  {
    hide TwiceFrom, ParseRule, ParseList, Exists, NodeAt, Shared, FoldsAt, IsLanguage, TwiceInList;
    StmtsTable(g);
    ProgramParse.ListTables(g);
    var fr, d := Start(Stmts, pos), depth + 1;
    NotIfTooDeep(g, toks, Stmt, pos, d);
    CallsOnce(g, toks, fr, d, Stmt, r);
    if r.Reduced? {
      var fr1 := Collect(fr, r.arg, r.pos);
      var l := ParseList(g, toks, StmtNext, r.pos, [], d);
      ListOnce(g, toks, fr1, d, StmtNext, l);
      NotInList(g, toks, StmtNext, r.pos, [], d);
      if l.Reduced? {
        CompletedOnce(g, toks, Collect(fr1, l.arg, l.pos), d, ReduceStmtStmts);
      }
    }
  }

  lemma {:induction false} NotInList(g: Grammar, toks: Stream, id: RuleId, pos: nat, stmts: seq<Tree>, depth: nat)
    ensures ParseList(g, toks, id, pos, stmts, depth) != TooDeep ==> !TwiceInList(g, toks, id, pos, stmts, depth)
    decreases |toks| - pos
  {
    hide ParseRule, ParseList, TwiceByRule, TwiceInList;
    var r := ParseRule(g, toks, id, pos, depth);
    ListEnds(g, toks, id, pos, stmts, depth, r);
    ListGoesOn(g, toks, id, pos, stmts, depth, r);
    if r.Reduced? && pos < r.pos <= |toks| && !r.arg.TokenArg? && !r.arg.PartsArg? {
      NotInList(g, toks, id, r.pos, if r.arg.NullArg? then stmts else stmts + [r.arg.node], depth);
    }
  }

  /** No statement at all. */
  lemma NoStmtsOnce(g: Grammar, toks: Stream, pos: nat, depth: nat)
    requires IsLanguage(g) && !StartsStmt(KindAt(toks, pos)) && KindAt(toks, pos) != TokNewline
    ensures !TwiceByRule(g, toks, Stmts, pos, depth)
  {
    hide TwiceFrom, TwiceByRule, ParseRule, Exists, NodeAt, Shared, FoldsAt, IsLanguage, StartsStmt;
    EntersOnce(g, toks, Stmts, pos, depth);
    StmtsTable(g);
    var fr, d := Start(Stmts, pos), depth + 1;
    StmtRefuses(g, toks, pos, d);
    StmtOnce(g, toks, pos, d);
    CallsOnce(g, toks, fr, d, Stmt, ParseRule(g, toks, Stmt, pos, d));
    CompletedOnce(g, toks, RollBack(fr), d, ReduceEmptyBlock);
  }

  /** Around the statements of a block only separators are read. */
  lemma BlockOnce(g: Grammar, toks: Stream, pos: nat, depth: nat, r: Outcome)
    requires IsLanguage(g) && r == ParseRule(g, toks, Stmts, SepsEnd(toks, pos), depth + 1) && !r.Refused?
    ensures
      TwiceByRule(g, toks, BlockRule, pos, depth) <==>
      depth + 3 < MAX_PARSE_DEPTH && TwiceByRule(g, toks, Stmts, SepsEnd(toks, pos), depth + 1)
  {
    hide TwiceFrom, TwiceByRule, ParseRule, Exists, NodeAt, Shared, FoldsAt, IsLanguage, SepsEnd;
    EntersOnce(g, toks, BlockRule, pos, depth);
    StmtsTable(g);
    var fr, d, q := Start(BlockRule, pos), depth + 1, SepsEnd(toks, pos);
    OptSepsParse(g, toks, pos, d);
    SepsOnce(g, toks, StmtOptSeps, pos, d);
    CallsOnce(g, toks, fr, d, StmtOptSeps, ParseRule(g, toks, StmtOptSeps, pos, d));
    var fr1 := Collect(fr, NullArg, q);
    CallsOnce(g, toks, fr1, d, Stmts, r);
    NotIfTooDeep(g, toks, Stmts, q, d);
    if r.Reduced? {
      var fr2 := Collect(fr1, r.arg, r.pos);
      OptSepsParse(g, toks, r.pos, d);
      SepsOnce(g, toks, StmtOptSeps, r.pos, d);
      LastOnce(g, toks, fr2, d, StmtOptSeps, ReduceTriple);
    }
  }

  lemma BracedTwice(g: Grammar, toks: Stream, pos: nat, depth: nat, r: Outcome)
    requires IsLanguage(g) && KindAt(toks, NextSolid(toks, pos)) == TokLBrace && depth < MAX_PARSE_DEPTH
    requires r == ParseRule(g, toks, BlockRule, NextSolid(toks, pos) + 1, depth + 1) && !r.Refused?
    requires r.Reduced? ==> KindAt(toks, r.pos) == TokRBrace
    ensures
      TwiceByRule(g, toks, BracedBlock, pos, depth) <==>
      TwiceByRule(g, toks, BlockRule, NextSolid(toks, pos) + 1, depth + 1)
  {
    hide TwiceFrom, ParseRule, Exists, NodeAt, Shared, FoldsAt, IsLanguage, NextSolid, Skips;
    ProgramParse.BraceTables(g);
    var fr, d, q := Start(BracedBlock, pos), depth + 1, NextSolid(toks, pos) + 1;
    TermTwice(g, toks, fr, d, TokLBrace);
    var fr1 := Collect(fr, TokenArg(q - 1), q);
    CallsOnce(g, toks, fr1, d, BlockRule, r);
    NotIfTooDeep(g, toks, BlockRule, q, d);
    if r.Reduced? {
      ProgramParse.Solid(toks, r.pos);
      var fr2 := Collect(fr1, r.arg, r.pos);
      TermTwice(g, toks, fr2, d, TokRBrace);
      CompletedOnce(g, toks, Collect(fr2, TokenArg(r.pos), r.pos + 1), d, ReduceTriple);
    }
  }

  // ----- everything that is written -----

  /** Parsing a written statement releases nodes twice exactly if the limit cuts it off late in a chain. */
  lemma StmtTwice(g: Grammar, toks: Stream, s: Written, pos: nat, depth: nat)
    requires IsLanguage(g) && StmtPlace(toks, pos, s).Some?
    requires Follows(toks, StmtPlace(toks, pos, s).value.end)
    ensures TwiceByRule(g, toks, Stmt, pos, depth) <==> LateStmt(toks, pos, s, depth)
    decreases s, 3
  {
    hide TwiceFrom, ParseRule, IsLanguage, ExprPlace, Follows, TailPlace, LateTail, LateInChain;
    if !IsIf(s) {
      SimpleTwice(g, toks, s, pos, depth);
    } else if depth >= MAX_PARSE_DEPTH {
      NoRoomForStmt(toks, pos, s, depth);
    } else {
      TailTwice(g, toks, s, pos + 1, depth + 1);
      ProgramParse.TailParses(g, toks, s, pos + 1, depth + 1);
      IfStmtTwice(g, toks, pos, depth);
    }
  }

  lemma TailTwice(g: Grammar, toks: Stream, s: Written, pos: nat, depth: nat)
    requires IsLanguage(g) && IsIf(s) && TailPlace(toks, pos, s).Some?
    requires Follows(toks, TailPlace(toks, pos, s).value.end)
    ensures TwiceByRule(g, toks, IfTail, pos, depth) <==> LateTail(toks, pos, s, depth)
    decreases s, 2
  {
    hide TwiceFrom, TwiceByRule, ParseRule, IsLanguage, ExprPlace, StmtPlace, BracePlace, NextSolid, Follows;
    hide LateInChain, LateBrace, LateStmt;
    EntersOnce(g, toks, IfTail, pos, depth);
    if depth >= MAX_PARSE_DEPTH {
      NoRoomForTail(toks, pos, s, depth);
    } else {
      CondEnds(toks, pos, s);
      var c, d := ExprPlace(toks, pos, s.cond).value, depth + 1;
      CondParts(g, toks, s.cond, pos, d);
      if d + c.room <= MAX_PARSE_DEPTH {
        match s
        case IfThen(_, arm) => ThenArmTwice(g, toks, arm, pos, d, c);
        case IfBlock(_, body) => OneBlockTwice(g, toks, body, pos, d, c);
        case IfBlocks(_, _, _) => BothBlocksTwice(g, toks, s, pos, d, c);
      }
    }
  }

  /** The condition is read, or given up. */
  lemma CondParts(g: Grammar, toks: Stream, e: Cst, pos: nat, d: nat)
    requires IsLanguage(g) && ExprPlace(toks, pos, e).Some?
    requires !IsArithmetic(KindAt(toks, NextSolid(toks, ExprPlace(toks, pos, e).value.end)))
    ensures
      var c := ExprPlace(toks, pos, e).value;
      if d + c.room <= MAX_PARSE_DEPTH then ParseRule(g, toks, ExprPrime, pos, d) == Reduced(NodeArg(c.tree), c.end)
      else TwiceFrom(g, toks, Start(IfTail, pos), d) <==> LateInChain(PRIME, e, d)
  {
    hide TwiceFrom, TwiceByRule, ParseRule, IsLanguage, ExprPlace, NextSolid, LateInChain;
    ProgramParse.ExprParses(g, toks, e, pos, d);
    if d + ExprPlace(toks, pos, e).value.room > MAX_PARSE_DEPTH {
      ExprTwice(g, toks, e, pos, d);
      CondTwice(g, toks, pos, d);
    }
  }

  lemma ThenArmTwice(g: Grammar, toks: Stream, arm: Written, pos: nat, d: nat, c: Place)
    requires IsLanguage(g) && ParseRule(g, toks, ExprPrime, pos, d) == Reduced(NodeArg(c.tree), c.end)
    requires KindAt(toks, NextSolid(toks, c.end)) == TokThen
    requires
      var a := StmtPlace(toks, NextSolid(toks, c.end) + 1, arm);
      a.Some? && Follows(toks, a.value.end)
    ensures
      var q := NextSolid(toks, c.end) + 1;
      TwiceFrom(g, toks, Start(IfTail, pos), d) <==>
      if IsIf(arm) && d + 3 + StmtPlace(toks, q, arm).value.room > MAX_PARSE_DEPTH
      then LateTail(toks, q + 1, arm, d + 4)
      else LateStmt(toks, q, arm, d)
    decreases arm, 5
  {
    hide TwiceFrom, TwiceByRule, ParseRule, IsLanguage, StmtPlace, NextSolid, Follows, LateStmt, LateTail;
    hide ProgramParse.NoExprArm;
    var q := NextSolid(toks, c.end) + 1;
    ProgramParse.ArmIsNoExpr(g, toks, arm, q, d);
    ProgramParse.StmtParses(g, toks, arm, q, d);
    ThenTwice(g, toks, pos, d, c, ParseRule(g, toks, ExprPrime, q, d));
    ArmTwice(g, toks, arm, q, d);
  }

  lemma OneBlockTwice(g: Grammar, toks: Stream, b: seq<Written>, pos: nat, d: nat, c: Place)
    requires IsLanguage(g) && ParseRule(g, toks, ExprPrime, pos, d) == Reduced(NodeArg(c.tree), c.end)
    requires KindAt(toks, NextSolid(toks, c.end)) != TokThen
    requires BracePlace(toks, c.end, b).Some? && Follows(toks, BracePlace(toks, c.end, b).value.end)
    ensures TwiceFrom(g, toks, Start(IfTail, pos), d) <==> LateBrace(toks, c.end, b, d)
    decreases b, 4
  {
    hide TwiceFrom, TwiceByRule, ParseRule, IsLanguage, BracePlace, NextSolid, Follows, LateBrace;
    var a := BracePlace(toks, c.end, b).value;
    BraceTwice(g, toks, b, c.end, d);
    ProgramParse.BraceParses(g, toks, b, c.end, d);
    NotIfTooDeep(g, toks, BracedBlock, c.end, d);
    BraceOnce(g, toks, pos, d, c, ParseRule(g, toks, BracedBlock, c.end, d));
    ProgramParse.FollowsNoElse(toks, a.end);
    OneBlockOnce(g, toks, pos, d, c, Place(a.tree, a.end, 0));
  }

  lemma BothBlocksTwice(g: Grammar, toks: Stream, s: Written, pos: nat, d: nat, c: Place)
    requires IsLanguage(g) && s.IfBlocks? && ParseRule(g, toks, ExprPrime, pos, d) == Reduced(NodeArg(c.tree), c.end)
    requires KindAt(toks, NextSolid(toks, c.end)) != TokThen && BracePlace(toks, c.end, s.body).Some?
    requires
      var q := NextSolid(toks, BracePlace(toks, c.end, s.body).value.end) + 1;
      KindAt(toks, q - 1) == TokElse && BracePlace(toks, q, s.others).Some?
    ensures
      var a := BracePlace(toks, c.end, s.body).value;
      TwiceFrom(g, toks, Start(IfTail, pos), d) <==>
      if d + a.room > MAX_PARSE_DEPTH then LateBrace(toks, c.end, s.body, d)
      else LateBrace(toks, NextSolid(toks, a.end) + 1, s.others, d)
    decreases s, 1
  {
    hide TwiceFrom, TwiceByRule, ParseRule, IsLanguage, BracePlace, NextSolid, LateBrace;
    var a := BracePlace(toks, c.end, s.body).value;
    var q := NextSolid(toks, a.end) + 1;
    BraceTwice(g, toks, s.body, c.end, d);
    ProgramParse.BraceParses(g, toks, s.body, c.end, d);
    BraceOnce(g, toks, pos, d, c, ParseRule(g, toks, BracedBlock, c.end, d));
    BraceTwice(g, toks, s.others, q, d);
    ProgramParse.BraceParses(g, toks, s.others, q, d);
    TwoBlocksTwice(g, toks, pos, d, c, Place(a.tree, a.end, 0));
  }

  lemma CondEnds(toks: Stream, pos: nat, s: Written)
    requires IsIf(s) && TailPlace(toks, pos, s).Some?
    ensures
      var next := KindAt(toks, NextSolid(toks, ExprPlace(toks, pos, s.cond).value.end));
      !IsArithmetic(next) && (next == TokThen <==> s.IfThen?) && (next == TokLBrace <==> !s.IfThen?)
  {
    hide ExprPlace, StmtPlace, BlockPlace, NextSolid;
  }

  /** The arm behind `then`, in whichever of its two readings it is given up. */
  lemma ArmTwice(g: Grammar, toks: Stream, arm: Written, pos: nat, d: nat)
    requires IsLanguage(g) && StmtPlace(toks, pos, arm).Some? && Follows(toks, StmtPlace(toks, pos, arm).value.end)
    ensures
      (if ParseRule(g, toks, ExprPrime, pos, d).TooDeep? then TwiceByRule(g, toks, ExprPrime, pos, d)
       else TwiceByRule(g, toks, Stmt, pos, d)) <==>
      if IsIf(arm) && d + 3 + StmtPlace(toks, pos, arm).value.room > MAX_PARSE_DEPTH
      then LateTail(toks, pos + 1, arm, d + 4)
      else LateStmt(toks, pos, arm, d)
    decreases arm, 4
  {
    hide TwiceByRule, ParseRule, IsLanguage, ExprPlace, Follows, TailPlace, LateTail, LateStmt;
    ProgramParse.ArmIsNoExpr(g, toks, arm, pos, d);
    StmtTwice(g, toks, arm, pos, d);
    if IsIf(arm) {
      if d + 3 + StmtPlace(toks, pos, arm).value.room > MAX_PARSE_DEPTH {
        ProgramParse.TailParses(g, toks, arm, pos + 1, d + 4);
        TailTwice(g, toks, arm, pos + 1, d + 4);
        IfExprTwice(g, toks, pos, d);
      }
    } else if d + 4 > MAX_PARSE_DEPTH {
      SimpleOnce(g, toks, arm, pos, d);
      NoRoomForStmt(toks, pos, arm, d);
    }
  }

  /** Tried as an expression, no other statement releases anything twice. */
  lemma SimpleOnce(g: Grammar, toks: Stream, s: Written, pos: nat, depth: nat)
    requires IsLanguage(g) && !IsIf(s) && StmtPlace(toks, pos, s).Some?
    ensures !TwiceByRule(g, toks, ExprPrime, pos, depth)
  {
    hide TwiceByRule, IsLanguage, ExprPlace;
    match s
    case EchoOf(_) =>
      assert NextSolid(toks, pos) == pos && !StartsExpr(TokEcho);
      LevelOnce(g, toks, PRIME, pos, depth);
    case DefineOf(name, _) => NameOnce(g, toks, name, pos, depth, TokDefine);
    case AssignTo(name, _) => NameOnce(g, toks, name, pos, depth, TokAssign);
  }

  lemma BraceTwice(g: Grammar, toks: Stream, b: seq<Written>, pos: nat, depth: nat)
    requires IsLanguage(g) && BracePlace(toks, pos, b).Some?
    ensures TwiceByRule(g, toks, BracedBlock, pos, depth) <==> LateBrace(toks, pos, b, depth)
    decreases b, 3
  {
    hide TwiceFrom, ParseRule, IsLanguage, BlockPlace, NextSolid, LateBlock;
    var q := NextSolid(toks, pos) + 1;
    if depth >= MAX_PARSE_DEPTH {
      NoRoomForBlock(toks, q, b, depth + 1);
    } else {
      ProgramParse.BlockParses(g, toks, b, q, depth + 1);
      BlockTwice(g, toks, b, q, depth + 1);
      BracedTwice(g, toks, pos, depth, ParseRule(g, toks, BlockRule, q, depth + 1));
    }
  }

  lemma NoRoomForBlock(toks: Stream, pos: nat, b: seq<Written>, depth: nat)
    requires BlockPlace(toks, pos, b).Some? && depth + 7 > MAX_PARSE_DEPTH
    ensures !LateBlock(toks, pos, b, depth)
  {
    hide StmtPlace, RestPlace, SepsEnd, LateStmt, LateRest;
    if b != [] {
      var q := SepsEnd(toks, pos);
      assert ListPlace(toks, q, b).Some?;
      NoRoomForStmt(toks, q, b[0], depth + 2);
    }
  }

  /** A block, up to a closing brace or the end of the input. */
  lemma BlockTwice(g: Grammar, toks: Stream, b: seq<Written>, pos: nat, depth: nat)
    requires IsLanguage(g) && BlockPlace(toks, pos, b).Some?
    requires ProgramParse.Closes(KindAt(toks, BlockPlace(toks, pos, b).value.end))
    ensures TwiceByRule(g, toks, BlockRule, pos, depth) <==> LateBlock(toks, pos, b, depth)
    decreases b, 2
  {
    hide TwiceByRule, ParseRule, IsLanguage, StmtPlace, RestPlace, StartsStmt, SepsEnd, LateStmt, LateRest;
    var q, d := SepsEnd(toks, pos), depth + 1;
    if b == [] {
      ProgramParse.SepsEndOnce(toks, pos);
      ProgramParse.ClosesNoStmt(KindAt(toks, q));
      NoStmtsParse(g, toks, q, d);
      NoStmtsOnce(g, toks, q, d);
      BlockOnce(g, toks, pos, depth, ParseRule(g, toks, Stmts, q, d));
    } else {
      AllTwice(g, toks, b, q, d);
      BlockOnce(g, toks, pos, depth, ParseRule(g, toks, Stmts, q, d));
      if depth + 3 >= MAX_PARSE_DEPTH {
        NoRoomForBlock(toks, pos, b, depth);
      }
    }
  }

  /** The first statement of a block and the rest of them. */
  lemma AllTwice(g: Grammar, toks: Stream, b: seq<Written>, pos: nat, depth: nat)
    requires IsLanguage(g) && b != [] && ListPlace(toks, pos, b).Some?
    requires ProgramParse.Closes(KindAt(toks, SepsEnd(toks, ListPlace(toks, pos, b).value.end)))
    ensures !ParseRule(g, toks, Stmts, pos, depth).Refused?
    ensures
      depth < MAX_PARSE_DEPTH ==>
        (TwiceByRule(g, toks, Stmts, pos, depth) <==>
         var p := StmtPlace(toks, pos, b[0]).value;
         if depth + 1 + p.room > MAX_PARSE_DEPTH then LateStmt(toks, pos, b[0], depth + 1)
         else LateRest(toks, p.end, b[1..], depth + 1))
    decreases b, 1
  {
    hide TwiceByRule, TwiceInList, ParseRule, ParseList, IsLanguage, StmtPlace, RestPlace, SepsEnd, LateStmt, LateRest;
    var p, d := StmtPlace(toks, pos, b[0]).value, depth + 1;
    var r := RestPlace(toks, p.end, b[1..]).value;
    ProgramParse.RestFollows(toks, p.end, b[1..]);
    ProgramParse.StmtParses(g, toks, b[0], pos, d);
    ProgramParse.RestParses(g, toks, b[1..], p.end, [], d);
    ProgramParse.StmtPlaced(toks, pos, b[0]);
    assert [] + r.trees == r.trees;
    ProgramParse.StmtsRun(g, toks, pos, depth, p, r);
    if depth < MAX_PARSE_DEPTH {
      StmtTwice(g, toks, b[0], pos, d);
      RestTwice(g, toks, b[1..], p.end, [], d);
      StmtsTwice(g, toks, pos, depth, ParseRule(g, toks, Stmt, pos, d));
    }
  }

  lemma RestTwice(g: Grammar, toks: Stream, b: seq<Written>, pos: nat, done: seq<Tree>, depth: nat)
    requires IsLanguage(g) && RestPlace(toks, pos, b).Some?
    requires ProgramParse.Closes(KindAt(toks, SepsEnd(toks, RestPlace(toks, pos, b).value.end)))
    ensures TwiceInList(g, toks, StmtNext, pos, done, depth) <==> LateRest(toks, pos, b, depth)
    decreases b, 0
  {
    hide TwiceByRule, TwiceInList, ParseRule, IsLanguage, StmtPlace, SepsEnd, StartsStmt, LateStmt, Follows;
    hide IsSep, ProgramParse.Closes;
    ListGoesOn(g, toks, StmtNext, pos, done, depth, ParseRule(g, toks, StmtNext, pos, depth));
    if b == [] {
      ProgramParse.NextRefuses(g, toks, pos, depth);
      LastNextOnce(g, toks, pos, depth);
    } else {
      var q := SepsEnd(toks, pos);
      var p := StmtPlace(toks, q, b[0]).value;
      ProgramParse.RestFollows(toks, p.end, b[1..]);
      ProgramParse.StmtParses(g, toks, b[0], q, depth + 1);
      StmtTwice(g, toks, b[0], q, depth + 1);
      ProgramParse.NextParses(g, toks, pos, depth, p.room, NodeArg(p.tree), p.end);
      if depth + 2 >= MAX_PARSE_DEPTH {
        NextOnce(g, toks, pos, depth);
        NoRoomForStmt(toks, q, b[0], depth + 1);
      } else {
        NextTwice(g, toks, pos, depth);
        RestTwice(g, toks, b[1..], p.end, done + [p.tree], depth);
      }
    }
  }

  /**
   Parsing a written program, in any layout, releases nodes twice exactly if the first part that the limit
   leaves no room for is cut off behind the second operator, or a later one, of a chain of operators.
   */
  lemma ProgTwiceIff(toks: Stream, b: seq<Written>)
    requires BlockPlace(toks, 0, b).Some? && BlockPlace(toks, 0, b).value.end == |toks|
    ensures TwiceByRule(Language, toks, Prog, 0, 0) <==> LateBlock(toks, 0, b, 1)
  {
    hide BlockPlace, ParseRule, TwiceFrom, TwiceByRule, Exists, NodeAt, FoldsAt, LateBlock;
    EntersOnce(Language, toks, Prog, 0, 0);
    ProgramParse.BlockParses(Language, toks, b, 0, 1);
    BlockTwice(Language, toks, b, 0, 1);
    ProgramParse.BraceTables(Language);
    LastOnce(Language, toks, Start(Prog, 0), 1, BlockRule, ReduceSingle);
  }

  /** The program `echo x + x + ((...))` with 1023 pairs of parentheses or more. */
  lemma EchoReleasesTwice(k: nat)
    requires k >= 1023
    ensures TwiceByRule(Language, Lines([EchoOf(DeepThird(k))]), Prog, 0, 0)
  {
    hide TwiceByRule, BlockPlace, Lines, LateInChain, IsAt, DeepThird, Room, Print;
    var e := DeepThird(k);
    var s := EchoOf(e);
    var toks := Lines([s]);
    DeepThirdIsAt(k);
    ThirdButNotSecond(k, 4);
    assert Proper(s) && toks[0..|toks|] == toks;
    BlockSits(toks, 0, [s]);
    ProgTwiceIff(toks, [s]);
    EchoFirst(toks, s);
  }

  lemma EchoFirst(toks: Stream, s: Written)
    requires s.EchoOf? && BlockPlace(toks, 0, [s]).Some? && LateInChain(PRIME, s.expr, 4)
    ensures LateBlock(toks, 0, [s], 1)
  {
    hide ExprPlace, RestPlace, SepsEnd, LateInChain, Room, LateRest;
    var q := SepsEnd(toks, 0);
    assert ListPlace(toks, q, [s]).Some?;
    assert StmtPlace(toks, q, [s][0]).Some?;
    LateIsTooDeep(s.expr, 4);
    RoomOf(toks, q + 1, s.expr);
    assert LateStmt(toks, q, s, 3);
  }

  lemma LateIsTooDeep(e: Cst, depth: nat)
    requires LateInChain(PRIME, e, depth)
    ensures depth + Room(e) > MAX_PARSE_DEPTH
  {
    hide Room;
  }

  lemma RoomOf(toks: Stream, pos: nat, e: Cst)
    requires ExprPlace(toks, pos, e).Some?
    ensures ExprPlace(toks, pos, e).value.room == Room(e)
  {
    hide IsAt, Reads, Built, Print, Room;
  }
}
