/**
 What becomes of the nodes a parse has built when it is given up at the depth limit: every activation of
 the interpreter releases the arguments it has collected, one index further than it has filled
 (bootstrap/parser.c:512-518). A fold leaves the old right operand at that index, though it is part of the
 new left operand by then. Here is exactly when the same nodes are released twice for that.
 */
module GivingUp {
  import opened Basics
  import opened Tokens
  import opened Ast
  import opened Grammar
  import opened Engine
  import opened Printing
  import opened PrintParse
  import Refusals
  import RoundTrip

  // ----- the argument array of one activation -----

  /** `OldOperand` is the right operand of the last fold: it belongs to the argument at index 0 now. */
  datatype Holds = Nothing | AToken | Argument | OldOperand

  function HoldsAt(fr: Frame, k: nat): Holds {
    if k < |fr.args| then (if fr.args[k].TokenArg? then AToken else Argument)
    else if fr.folded && k == 1 then AToken
    else if fr.folded && k == 2 then OldOperand
    else Nothing
  }

  /** The loop over the array, up to and including the first index that is not filled. */
  predicate ReleasesTwice(fr: Frame) {
    exists k: nat :: k <= |fr.args| && HoldsAt(fr, k) == OldOperand
  }

  lemma ReleasesTwiceIff(fr: Frame)
    ensures ReleasesTwice(fr) <==> fr.folded && |fr.args| == 2
  {
    if fr.folded && |fr.args| == 2 {
      assert HoldsAt(fr, 2) == OldOperand;
    }
  }

  // ----- all activations of a parse -----

  /** A parse by this rule is given up, and some activation of it releases nodes twice. */
  predicate TwiceByRule(g: Grammar, toks: Stream, id: RuleId, pos: nat, depth: nat)
    decreases MAX_PARSE_DEPTH - depth, 0
  {
    depth < MAX_PARSE_DEPTH && TwiceFrom(g, toks, Start(id, pos), depth + 1)
  }

  /** The same from where `fr` stands. */
  predicate TwiceFrom(g: Grammar, toks: Stream, fr: Frame, depth: nat)
    decreases MAX_PARSE_DEPTH - depth, 2, |toks| - fr.floor, |g(fr.id).productions| - fr.i, NodesLeft(g, fr)
  {
    Exists(g, fr.id, fr.i) &&
    match NodeAt(g, fr.id, fr.i, fr.j)
    case None => TwiceFrom(g, toks, RollBack(fr), depth)
    case Some(Term(kind)) =>
      var q := Look(toks, fr.pos, g(fr.id).skipNewLine);
      if KindAt(toks, q) == kind then TwiceFrom(g, toks, Collect(fr, TokenArg(q), q + 1), depth)
      else if Shared(g, fr.id, fr.i, fr.j) then TwiceFrom(g, toks, HandOver(fr), depth)
      else !fr.folded && TwiceFrom(g, toks, RollBack(fr), depth)
    case Some(Rule(id)) => (
      match ParseRule(g, toks, id, fr.pos, depth)
      case Reduced(v, pos) => TwiceFrom(g, toks, Collect(fr, v, pos), depth)
      case Refused(_) => !fr.folded && TwiceFrom(g, toks, RollBack(fr), depth)
      case TooDeep => ReleasesTwice(fr) || TwiceByRule(g, toks, id, fr.pos, depth)
      case Broken => false
    )
    case Some(List(id)) => (
      match ParseList(g, toks, id, fr.pos, [], depth)
      case Reduced(v, pos) => TwiceFrom(g, toks, Collect(fr, v, pos), depth)
      case TooDeep => TwiceInList(g, toks, id, fr.pos, [], depth)
      case _ => false
    )
    case Some(Reduce(f)) => (
      match Apply(f, toks, fr.args)
      case None => false
      case Some(v) =>
        var op := FoldsAt(g, fr.id, fr.i);
        op > 0 && fr.floor < fr.pos <= |toks| && TwiceFrom(g, toks, Refold(fr, v, op), depth)
    )
  }

  predicate TwiceInList(g: Grammar, toks: Stream, id: RuleId, pos: nat, stmts: seq<Tree>, depth: nat)
    decreases MAX_PARSE_DEPTH - depth, 1, |toks| - pos
  {
    match ParseRule(g, toks, id, pos, depth)
    case Reduced(v, next) =>
      && pos < next <= |toks| && !v.TokenArg? && !v.PartsArg?
      && TwiceInList(g, toks, id, next, if v.NullArg? then stmts else stmts + [v.node], depth)
    case TooDeep => TwiceByRule(g, toks, id, pos, depth)
    case _ => false
  }

  /** Only a parse that is given up releases anything twice. */
  lemma {:induction false} OnlyIfGivenUp(g: Grammar, toks: Stream, id: RuleId, pos: nat, depth: nat)
    requires TwiceByRule(g, toks, id, pos, depth)
    ensures ParseRule(g, toks, id, pos, depth) == TooDeep
    decreases MAX_PARSE_DEPTH - depth, 0
  {
    hide Run, TwiceFrom;
    FromGivenUp(g, toks, Start(id, pos), depth + 1);
  }

  lemma {:induction false} FromGivenUp(g: Grammar, toks: Stream, fr: Frame, depth: nat)
    requires TwiceFrom(g, toks, fr, depth)
    ensures Run(g, toks, fr, depth) == TooDeep
    decreases MAX_PARSE_DEPTH - depth, 2, |toks| - fr.floor, |g(fr.id).productions| - fr.i, NodesLeft(g, fr)
  {
    hide ParseRule, ParseList, Shared, Look, Apply, FoldsAt, ReleasesTwice, TwiceByRule, TwiceInList;
    match NodeAt(g, fr.id, fr.i, fr.j)
    case None => FromGivenUp(g, toks, RollBack(fr), depth);
    case Some(Term(kind)) =>
      var q := Look(toks, fr.pos, g(fr.id).skipNewLine);
      if KindAt(toks, q) == kind {
        FromGivenUp(g, toks, Collect(fr, TokenArg(q), q + 1), depth);
      } else if Shared(g, fr.id, fr.i, fr.j) {
        FromGivenUp(g, toks, HandOver(fr), depth);
      } else {
        FromGivenUp(g, toks, RollBack(fr), depth);
      }
    case Some(Rule(id)) =>
      var r := ParseRule(g, toks, id, fr.pos, depth);
      if r.Reduced? {
        FromGivenUp(g, toks, Collect(fr, r.arg, r.pos), depth);
      } else if r.Refused? {
        FromGivenUp(g, toks, RollBack(fr), depth);
      }
    case Some(List(id)) =>
      var r := ParseList(g, toks, id, fr.pos, [], depth);
      if r.Reduced? {
        FromGivenUp(g, toks, Collect(fr, r.arg, r.pos), depth);
      }
    case Some(Reduce(f)) =>
      FromGivenUp(g, toks, Refold(fr, Apply(f, toks, fr.args).value, FoldsAt(g, fr.id, fr.i)), depth);
  }

  // ----- single steps -----

  lemma TermTwice(g: Grammar, toks: Stream, fr: Frame, depth: nat, kind: TokenKind)
    requires Exists(g, fr.id, fr.i) && NodeAt(g, fr.id, fr.i, fr.j) == Some(Term(kind)) && Skips(g, fr.id)
    ensures
      var q := NextSolid(toks, fr.pos);
      TwiceFrom(g, toks, fr, depth) <==>
      if KindAt(toks, q) == kind then TwiceFrom(g, toks, Collect(fr, TokenArg(q), q + 1), depth)
      else if Shared(g, fr.id, fr.i, fr.j) then TwiceFrom(g, toks, HandOver(fr), depth)
      else !fr.folded && TwiceFrom(g, toks, RollBack(fr), depth)
  {
    hide NextSolid, Shared;
  }

  lemma RuleTwice(g: Grammar, toks: Stream, fr: Frame, depth: nat, id: RuleId, r: Outcome)
    requires Exists(g, fr.id, fr.i) && NodeAt(g, fr.id, fr.i, fr.j) == Some(Rule(id))
    requires r == ParseRule(g, toks, id, fr.pos, depth)
    ensures
      TwiceFrom(g, toks, fr, depth) <==>
      if r.Reduced? then TwiceFrom(g, toks, Collect(fr, r.arg, r.pos), depth)
      else if r.Refused? then !fr.folded && TwiceFrom(g, toks, RollBack(fr), depth)
      else r.TooDeep? && (ReleasesTwice(fr) || TwiceByRule(g, toks, id, fr.pos, depth))
  {
    hide ParseRule, TwiceByRule, ReleasesTwice;
  }

  lemma ReduceTwice(g: Grammar, toks: Stream, fr: Frame, depth: nat, f: Reducer)
    requires Exists(g, fr.id, fr.i) && NodeAt(g, fr.id, fr.i, fr.j) == Some(Reduce(f))
    ensures
      var v, op := Apply(f, toks, fr.args), FoldsAt(g, fr.id, fr.i);
      TwiceFrom(g, toks, fr, depth) <==>
      v.Some? && op > 0 && fr.floor < fr.pos <= |toks| && TwiceFrom(g, toks, Refold(fr, v.value, op), depth)
  {
    hide Apply, FoldsAt;
  }

  // ----- written expressions -----

  predicate Fits(lvl: Level, c: Cst, depth: nat) {
    depth + Room(c) <= MAX_PARSE_DEPTH + (PRIME - lvl)
  }

  /**
   Reading from left to right, the first part that the limit leaves no room for stands behind the second
   operator, or a later one, of a chain that it is an operand of, at any level of nesting.
   */
  predicate LateInChain(lvl: Level, c: Cst, depth: nat)
    decreases c, lvl
  {
    && depth < MAX_PARSE_DEPTH && !Fits(lvl, c, depth)
    && if lvl == FACTOR then
         match c
         case Paren(e) => LateInChain(PRIME, e, depth + 1)
         case IfElse(e, t, f) =>
           if !Fits(PRIME, e, depth + 2) then LateInChain(PRIME, e, depth + 2)
           else if !Fits(PRIME, t, depth + 2) then LateInChain(PRIME, t, depth + 2)
           else LateInChain(PRIME, f, depth + 2)
         case _ => false
       else if lvl == UNARY then
         LateInChain(FACTOR, if c.Neg? then c.operand else c, depth + 1)
       else if IsChain(lvl, c) then
         if !Fits(lvl, c.left, depth) then LateInChain(lvl, c.left, depth)
         else IsChain(lvl, c.left) || LateInChain(lvl - 1, c.right, depth + 1)
       else
         LateInChain(lvl - 1, c, depth + 1)
  }

  lemma {:induction false} PassesOverTwice(g: Grammar, toks: Stream, pos: nat, i: nat, n: nat, depth: nat)
    requires Speaks(g) && i <= n <= 4
    requires forall k :: i <= k < n ==> FactorStart(k) != KindAt(toks, NextSolid(toks, pos))
    ensures
      TwiceFrom(g, toks, Start(ExprFactor, pos).(i := i), depth) <==>
      TwiceFrom(g, toks, Start(ExprFactor, pos).(i := n), depth)
    decreases n - i
  {
    hide TwiceFrom, Speaks, Skips, Exists, NodeAt, Shared, FoldsAt, NextSolid;
    if i < n {
      FactorTable(g, i);
      TermTwice(g, toks, Start(ExprFactor, pos).(i := i), depth, FactorStart(i));
      PassesOverTwice(g, toks, pos, i + 1, n, depth);
    }
  }

  lemma FactorOpensTwice(g: Grammar, toks: Stream, pos: nat, i: nat, depth: nat)
    requires Speaks(g) && i < 5 && KindAt(toks, NextSolid(toks, pos)) == FactorStart(i)
    ensures TwiceFrom(g, toks, Start(ExprFactor, pos), depth) <==> TwiceFrom(g, toks, FactorOpen(toks, pos, i), depth)
  {
    hide TwiceFrom, Speaks, Skips, Exists, NodeAt, Shared, FoldsAt, NextSolid;
    FactorTable(g, i);
    PassesOverTwice(g, toks, pos, 0, i, depth);
    var fr, q := Start(ExprFactor, pos).(i := i), NextSolid(toks, pos);
    TermTwice(g, toks, fr, depth, FactorStart(i));
    assert Collect(fr, TokenArg(q), q + 1) == FactorOpen(toks, pos, i);
  }

  /** A production that is completed and does not fold releases nothing. */
  lemma CompletedOnce(g: Grammar, toks: Stream, fr: Frame, depth: nat, f: Reducer)
    requires Exists(g, fr.id, fr.i) && NodeAt(g, fr.id, fr.i, fr.j) == Some(Reduce(f)) && FoldsAt(g, fr.id, fr.i) == -1
    ensures !TwiceFrom(g, toks, fr, depth)
  {
    hide TwiceFrom, Apply, FoldsAt;
    ReduceTwice(g, toks, fr, depth, f);
  }

  lemma FactorTwice(g: Grammar, toks: Stream, c: Cst, pos: nat, depth: nat)
    requires Speaks(g) && Stands(toks, FACTOR, c, pos) && Ends(toks, FACTOR, c, pos)
    ensures TwiceByRule(g, toks, ExprFactor, pos, depth) <==> LateInChain(FACTOR, c, depth)
    decreases c, FACTOR, 1
  {
    hide Run, ParseRule, TwiceFrom, Speaks, Skips, Exists, NodeAt, Shared, FoldsAt, NextSolid;
    hide IsAt, Reads, Built, Print, LateInChain, Room;
    LateFactor(c, depth);
    if depth < MAX_PARSE_DEPTH {
      StandsWithin(toks, c, pos);
      match c
      case Leaf(_, _) =>
        LeafPieces(toks, c, pos);
        LeafOnce(g, toks, c, pos, depth);
      case Paren(e) =>
        var p := NextSolid(toks, pos) + 1;
        TwiceIff(g, toks, PRIME, e, p, depth + 1);
        LevelParses(g, toks, PRIME, e, p, depth + 1);
        ParenPieces(toks, pos, c);
        ParenTwice(g, toks, c, pos, depth);
      case IfElse(_, _, _) =>
        TailTwice(g, toks, c, pos, depth);
        IfTailParses(g, toks, c, pos, depth);
        IfElsePieces(toks, pos, c);
        IfTwice(g, toks, c, pos, depth);
    }
  }

  lemma LateFactor(c: Cst, depth: nat)
    ensures
      LateInChain(FACTOR, c, depth) <==>
      && depth < MAX_PARSE_DEPTH
      && match c
         case Paren(e) => !Fits(PRIME, e, depth + 1) && LateInChain(PRIME, e, depth + 1)
         case IfElse(e, t, f) =>
           if !Fits(PRIME, e, depth + 2) then LateInChain(PRIME, e, depth + 2)
           else if !Fits(PRIME, t, depth + 2) then LateInChain(PRIME, t, depth + 2)
           else !Fits(PRIME, f, depth + 2) && LateInChain(PRIME, f, depth + 2)
         case _ => false
  {
  }

  lemma LeafOnce(g: Grammar, toks: Stream, c: Cst, pos: nat, depth: nat)
    requires Speaks(g) && LeafStands(toks, pos, c)
    ensures !TwiceFrom(g, toks, Start(ExprFactor, pos), depth + 1)
  {
    hide TwiceFrom, Speaks, Skips, Exists, NodeAt, Shared, FoldsAt, NextSolid, End;
    var i := if c.kind == TokNumberL then 0 else if c.kind == TokBoolL then 1 else 4;
    FactorTable(g, i);
    FactorRest(g);
    FactorOpensTwice(g, toks, pos, i, depth + 1);
    CompletedOnce(g, toks, FactorOpen(toks, pos, i), depth + 1, LeafReducer(c.kind));
  }

  lemma ParenTwice(g: Grammar, toks: Stream, c: Cst, pos: nat, depth: nat)
    requires Speaks(g) && c.Paren? && KindAt(toks, NextSolid(toks, pos)) == TokLParen
    requires
      var p := NextSolid(toks, pos) + 1;
      && KindAt(toks, NextSolid(toks, End(toks, p, c.inner))) == TokRParen
      && ParseRule(g, toks, ExprPrime, p, depth + 1) == Expected(toks, PRIME, c.inner, p, depth + 1)
    ensures
      TwiceFrom(g, toks, Start(ExprFactor, pos), depth + 1) <==>
      !Fits(PRIME, c.inner, depth + 1) && TwiceByRule(g, toks, ExprPrime, NextSolid(toks, pos) + 1, depth + 1)
  {
    hide TwiceFrom, TwiceByRule, ParseRule, Speaks, Skips, Exists, NodeAt, Shared, FoldsAt, NextSolid, End, Built, Room;
    hide ReleasesTwice, Expected;
    FactorTable(g, 2);
    FactorRest(g);
    FactorOpensTwice(g, toks, pos, 2, depth + 1);
    var p, fr := NextSolid(toks, pos) + 1, FactorOpen(toks, pos, 2);
    var r := Expected(toks, PRIME, c.inner, p, depth + 1);
    ExpectedIs(toks, PRIME, c.inner, p, depth + 1);
    ReleasesTwiceIff(fr);
    RuleTwice(g, toks, fr, depth + 1, ExprPrime, r);
    if r.Reduced? {
      var fr1 := Collect(fr, r.arg, r.pos);
      var q := NextSolid(toks, fr1.pos);
      TermTwice(g, toks, fr1, depth + 1, TokRParen);
      CompletedOnce(g, toks, Collect(fr1, TokenArg(q), q + 1), depth + 1, ReduceTriple);
    }
  }

  lemma IfTwice(g: Grammar, toks: Stream, c: Cst, pos: nat, depth: nat)
    requires Speaks(g) && c.IfElse? && KindAt(toks, NextSolid(toks, pos)) == TokIf
    requires
      ParseRule(g, toks, IfTail, NextSolid(toks, pos) + 1, depth + 1) == ExpectedTail(toks, c, pos, depth + 1)
    ensures
      TwiceFrom(g, toks, Start(ExprFactor, pos), depth + 1) <==>
      TwiceByRule(g, toks, IfTail, NextSolid(toks, pos) + 1, depth + 1)
  {
    hide TwiceFrom, ParseRule, Speaks, Skips, Exists, NodeAt, Shared, FoldsAt, NextSolid, End, Built, Room;
    hide ReleasesTwice, TwiceByRule;
    FactorTable(g, 3);
    FactorRest(g);
    FactorOpensTwice(g, toks, pos, 3, depth + 1);
    var p, fr := NextSolid(toks, pos) + 1, FactorOpen(toks, pos, 3);
    var r := ExpectedTail(toks, c, pos, depth + 1);
    ReleasesTwiceIff(fr);
    RuleTwice(g, toks, fr, depth + 1, IfTail, r);
    if r.Reduced? {
      CompletedOnce(g, toks, Collect(fr, r.arg, r.pos), depth + 1, ReduceIfExpr);
      NotIfTooDeep(g, toks, IfTail, p, depth + 1);
    }
  }

  lemma NotIfTooDeep(g: Grammar, toks: Stream, id: RuleId, pos: nat, depth: nat)
    ensures ParseRule(g, toks, id, pos, depth) != TooDeep ==> !TwiceByRule(g, toks, id, pos, depth)
  {
    hide TwiceByRule, ParseRule;
    if TwiceByRule(g, toks, id, pos, depth) {
      OnlyIfGivenUp(g, toks, id, pos, depth);
    }
  }

  lemma TailTwice(g: Grammar, toks: Stream, c: Cst, pos: nat, depth: nat)
    requires Speaks(g) && c.IfElse? && Stands(toks, FACTOR, c, pos) && Ends(toks, FACTOR, c, pos)
    ensures
      TwiceByRule(g, toks, IfTail, NextSolid(toks, pos) + 1, depth + 1) <==>
      if !Fits(PRIME, c.cond, depth + 2) then LateInChain(PRIME, c.cond, depth + 2)
      else if !Fits(PRIME, c.thenArm, depth + 2) then LateInChain(PRIME, c.thenArm, depth + 2)
      else !Fits(PRIME, c.elseArm, depth + 2) && LateInChain(PRIME, c.elseArm, depth + 2)
    decreases c, FACTOR, 0
  {
    hide Run, ParseRule, TwiceFrom, Speaks, Skips, Exists, NodeAt, Shared, FoldsAt, NextSolid;
    hide IsAt, Reads, End, Print, Expected, Stands, Ends, Built, Room, LateInChain;
    var d, p := depth + 2, NextSolid(toks, pos) + 1;
    var q := NextSolid(toks, End(toks, p, c.cond)) + 1;
    var r := NextSolid(toks, End(toks, q, c.thenArm)) + 1;
    IfElseStands(toks, c, pos);
    StandsWithin(toks, c, pos);
    LevelParses(g, toks, PRIME, c.cond, p, d);
    LevelParses(g, toks, PRIME, c.thenArm, q, d);
    LevelParses(g, toks, PRIME, c.elseArm, r, d);
    TwiceIff(g, toks, PRIME, c.cond, p, d);
    TwiceIff(g, toks, PRIME, c.thenArm, q, d);
    TwiceIff(g, toks, PRIME, c.elseArm, r, d);
    ExpectedIs(toks, PRIME, c.cond, p, d);
    ExpectedIs(toks, PRIME, c.thenArm, q, d);
    ExpectedIs(toks, PRIME, c.elseArm, r, d);
    if depth + 1 < MAX_PARSE_DEPTH {
      TailSteps(g, toks, d, p, q, r, Expected(toks, PRIME, c.cond, p, d),
                Expected(toks, PRIME, c.thenArm, q, d), Expected(toks, PRIME, c.elseArm, r, d));
    } else {
      NeverLate(c.cond, d);
    }
  }

  /** Beyond the limit no activation begins. */
  lemma NeverLate(c: Cst, depth: nat)
    requires depth >= MAX_PARSE_DEPTH
    ensures !Fits(PRIME, c, depth) && !LateInChain(PRIME, c, depth)
  {
  }

  lemma TailSteps(g: Grammar, toks: Stream, d: nat, p: nat, q: nat, r: nat, c: Outcome, t: Outcome, e: Outcome)
    requires Speaks(g) && 0 < q && 0 < r
    requires NodeOrTooDeep(c) && c == ParseRule(g, toks, ExprPrime, p, d)
    requires NodeOrTooDeep(t) && t == ParseRule(g, toks, ExprPrime, q, d)
    requires NodeOrTooDeep(e) && e == ParseRule(g, toks, ExprPrime, r, d)
    requires c.Reduced? ==> q == NextSolid(toks, c.pos) + 1 && KindAt(toks, q - 1) == TokThen
    requires t.Reduced? ==> r == NextSolid(toks, t.pos) + 1 && KindAt(toks, r - 1) == TokElse
    ensures
      TwiceFrom(g, toks, Start(IfTail, p), d) <==>
      if c.TooDeep? then TwiceByRule(g, toks, ExprPrime, p, d)
      else if t.TooDeep? then TwiceByRule(g, toks, ExprPrime, q, d)
      else e.TooDeep? && TwiceByRule(g, toks, ExprPrime, r, d)
  {
    hide ParseRule, TwiceFrom, TwiceByRule, Speaks, Skips, Exists, NodeAt, Shared, FoldsAt, NextSolid, ReleasesTwice;
    IfTailTable(g);
    var fr := Start(IfTail, p);
    ReleasesTwiceIff(fr);
    RuleTwice(g, toks, fr, d, ExprPrime, c);
    if c.Reduced? {
      var fr1 := Collect(fr, c.arg, c.pos);
      TermTwice(g, toks, fr1, d, TokThen);
      var fr2 := Collect(fr1, TokenArg(q - 1), q);
      ReleasesTwiceIff(fr2);
      RuleTwice(g, toks, fr2, d, ExprPrime, t);
      if t.Reduced? {
        var fr3 := Collect(fr2, t.arg, t.pos);
        TermTwice(g, toks, fr3, d, TokElse);
        var fr4 := Collect(fr3, TokenArg(r - 1), r);
        ReleasesTwiceIff(fr4);
        RuleTwice(g, toks, fr4, d, ExprPrime, e);
        if e.Reduced? {
          CompletedOnce(g, toks, Collect(fr4, e.arg, e.pos), d, ReduceIfThenElse);
        }
      }
    }
  }

  lemma UnaryTwice(g: Grammar, toks: Stream, c: Cst, pos: nat, depth: nat)
    requires Speaks(g) && Stands(toks, UNARY, c, pos) && Ends(toks, UNARY, c, pos)
    ensures TwiceByRule(g, toks, ExprUnary, pos, depth) <==> LateInChain(UNARY, c, depth)
    decreases c, UNARY, 2
  {
    hide Run, ParseRule, TwiceFrom, Speaks, Skips, Exists, NodeAt, Shared, FoldsAt, NextSolid;
    hide Reads, End, Print, LateInChain, Room, Built, ReleasesTwice, Apply;
    LateUnary(c, depth);
    if depth < MAX_PARSE_DEPTH {
      UnaryTable(g);
      var fr, d := Start(ExprUnary, pos), depth + 1;
      ReleasesTwiceIff(fr);
      if c.Neg? {
        NegPieces(toks, pos, c);
        var p := NextSolid(toks, pos) + 1;
        FactorTwice(g, toks, c.operand, p, d);
        FactorParses(g, toks, c.operand, p, d);
        NegTwice(g, toks, c, pos, d);
      } else {
        FactorTwice(g, toks, c, pos, d);
        FactorParses(g, toks, c, pos, d);
        ExpectedIs(toks, FACTOR, c, pos, d);
        var r := Expected(toks, FACTOR, c, pos, d);
        RuleTwice(g, toks, fr, d, ExprFactor, r);
        if r.Reduced? {
          CompletedOnce(g, toks, Collect(fr, r.arg, r.pos), d, ReduceSingle);
        }
      }
    }
  }

  lemma LateUnary(c: Cst, depth: nat)
    ensures
      LateInChain(UNARY, c, depth) <==>
      var e := if c.Neg? then c.operand else c;
      depth < MAX_PARSE_DEPTH && !Fits(FACTOR, e, depth + 1) && LateInChain(FACTOR, e, depth + 1)
  {
  }

  lemma NegTwice(g: Grammar, toks: Stream, c: Cst, pos: nat, d: nat)
    requires Speaks(g) && c.Neg? && KindAt(toks, NextSolid(toks, pos)) == TokMinus
    requires
      var p := NextSolid(toks, pos) + 1;
      ParseRule(g, toks, ExprFactor, p, d) == Expected(toks, FACTOR, c.operand, p, d)
    ensures
      TwiceFrom(g, toks, Start(ExprUnary, pos), d) <==>
      !Fits(FACTOR, c.operand, d) && TwiceByRule(g, toks, ExprFactor, NextSolid(toks, pos) + 1, d)
  {
    hide Run, ParseRule, TwiceFrom, TwiceByRule, Speaks, Skips, Exists, NodeAt, Shared, FoldsAt, NextSolid;
    hide End, Built, Room, ReleasesTwice, Expected, StartsFactor;
    UnaryTable(g);
    MinusNoFactor(g, toks, pos, d);
    var fr, p := Start(ExprUnary, pos), NextSolid(toks, pos) + 1;
    ReleasesTwiceIff(fr);
    RuleTwice(g, toks, fr, d, ExprFactor, ParseRule(g, toks, ExprFactor, pos, d));
    if d < MAX_PARSE_DEPTH {
      TermTwice(g, toks, RollBack(fr), d, TokMinus);
      var fr1 := Collect(RollBack(fr), TokenArg(p - 1), p);
      var r := Expected(toks, FACTOR, c.operand, p, d);
      ExpectedIs(toks, FACTOR, c.operand, p, d);
      ReleasesTwiceIff(fr1);
      RuleTwice(g, toks, fr1, d, ExprFactor, r);
      if r.Reduced? {
        CompletedOnce(g, toks, Collect(fr1, r.arg, r.pos), d, ReduceMinus);
      }
    } else {
      BeyondOnce(g, toks, pos, d);
      BeyondOnce(g, toks, p, d);
    }
  }

  lemma BeyondOnce(g: Grammar, toks: Stream, pos: nat, d: nat)
    requires d >= MAX_PARSE_DEPTH
    ensures !TwiceByRule(g, toks, ExprFactor, pos, d)
  {
  }

  lemma MinusNoFactor(g: Grammar, toks: Stream, pos: nat, d: nat)
    requires Speaks(g) && KindAt(toks, NextSolid(toks, pos)) == TokMinus
    ensures ParseRule(g, toks, ExprFactor, pos, d) == if d < MAX_PARSE_DEPTH then Refused(pos) else TooDeep
  {
    Enters(g, toks, ExprFactor, pos, d);
    assert !StartsFactor(TokMinus);
    hide Run, ParseRule, Speaks, NextSolid, StartsFactor;
    if d < MAX_PARSE_DEPTH {
      FactorRefuses(g, toks, pos, d);
    }
  }

  /** A chain up to its last operand that has room. */
  lemma ChainTwice(g: Grammar, toks: Stream, lvl: Level, c: Cst, pos: nat, depth: nat)
    requires Speaks(g) && depth < MAX_PARSE_DEPTH && lvl >= TERM
    requires Stands(toks, lvl, c, pos) && Ends(toks, lvl - 1, c, pos)
    ensures
      TwiceFrom(g, toks, Start(RuleOf(lvl), pos), depth + 1) <==>
      if Fits(lvl, c, depth) then TwiceFrom(g, toks, AtOperator(toks, lvl, c, pos), depth + 1)
      else LateInChain(lvl, c, depth)
    decreases c, lvl, 0
  {
    hide Run, ParseRule, TwiceFrom, TwiceByRule, Speaks, Skips, Exists, NodeAt, Shared, FoldsAt, NextSolid;
    hide Reads, End, Built, AtOperator, RuleOf, LateInChain, Room;
    LateChain(lvl, c, depth);
    if IsChain(lvl, c) {
      BinPieces(toks, pos, c);
      EndsWithin(toks, pos, c);
      hide Print;
      var p := NextSolid(toks, End(toks, pos, c.left)) + 1;
      ChainTwice(g, toks, lvl, c.left, pos, depth);
      LevelParses(g, toks, lvl - 1, c.right, p, depth + 1);
      TwiceIff(g, toks, lvl - 1, c.right, p, depth + 1);
      OperandTwice(g, toks, lvl, c, pos, depth + 1);
    } else {
      LevelParses(g, toks, lvl - 1, c, pos, depth + 1);
      TwiceIff(g, toks, lvl - 1, c, pos, depth + 1);
      FirstTwice(g, toks, lvl, c, pos, depth + 1);
    }
  }

  lemma LateChain(lvl: Level, c: Cst, depth: nat)
    requires lvl >= TERM && depth < MAX_PARSE_DEPTH
    ensures !IsChain(lvl, c) ==>
      && (Fits(lvl, c, depth) <==> Fits(lvl - 1, c, depth + 1))
      && (!Fits(lvl, c, depth) ==> (LateInChain(lvl, c, depth) <==> LateInChain(lvl - 1, c, depth + 1)))
    ensures IsChain(lvl, c) ==>
      && (Fits(lvl, c, depth) <==> Fits(lvl, c.left, depth) && Fits(lvl - 1, c.right, depth + 1))
      && (!Fits(lvl, c.left, depth) ==> (LateInChain(lvl, c, depth) <==> LateInChain(lvl, c.left, depth)))
      && (Fits(lvl, c.left, depth) && !Fits(lvl, c, depth) ==>
            (LateInChain(lvl, c, depth) <==> IsChain(lvl, c.left) || LateInChain(lvl - 1, c.right, depth + 1)))
  {
  }

  /** The first operand. */
  lemma FirstTwice(g: Grammar, toks: Stream, lvl: Level, c: Cst, pos: nat, d: nat)
    requires Speaks(g) && lvl >= TERM && !IsChain(lvl, c)
    requires ParseRule(g, toks, RuleOf(lvl - 1), pos, d) == Expected(toks, lvl - 1, c, pos, d)
    ensures
      TwiceFrom(g, toks, Start(RuleOf(lvl), pos), d) <==>
      if Fits(lvl - 1, c, d) then TwiceFrom(g, toks, AtOperator(toks, lvl, c, pos), d)
      else TwiceByRule(g, toks, RuleOf(lvl - 1), pos, d)
  {
    hide Run, ParseRule, TwiceFrom, TwiceByRule, Speaks, Skips, Exists, NodeAt, Shared, FoldsAt, NextSolid;
    hide Built, End, Room, RuleOf, ReleasesTwice, Expected;
    ChainTable(g, lvl);
    ExpectedIs(toks, lvl - 1, c, pos, d);
    var fr := Start(RuleOf(lvl), pos);
    ReleasesTwiceIff(fr);
    RuleTwice(g, toks, fr, d, RuleOf(lvl - 1), Expected(toks, lvl - 1, c, pos, d));
    assert Collect(fr, NodeArg(Built(toks, pos, c)), End(toks, pos, c)) == AtOperator(toks, lvl, c, pos);
  }

  /** A right operand: behind a fold, giving it up releases the operand before it twice. */
  lemma OperandTwice(g: Grammar, toks: Stream, lvl: Level, c: Cst, pos: nat, d: nat)
    requires Speaks(g) && lvl >= TERM && IsChain(lvl, c) && BinStands(toks, pos, c)
    requires
      var p := NextSolid(toks, End(toks, pos, c.left)) + 1;
      ParseRule(g, toks, RuleOf(lvl - 1), p, d) == Expected(toks, lvl - 1, c.right, p, d)
    ensures
      TwiceFrom(g, toks, AtOperator(toks, lvl, c.left, pos), d) <==>
      if Fits(lvl - 1, c.right, d) then TwiceFrom(g, toks, AtOperator(toks, lvl, c, pos), d)
      else
        var p := NextSolid(toks, End(toks, pos, c.left)) + 1;
        IsChain(lvl, c.left) || TwiceByRule(g, toks, RuleOf(lvl - 1), p, d)
  {
    hide Run, ParseRule, TwiceFrom, TwiceByRule, Speaks, Skips, Exists, NodeAt, Shared, FoldsAt, NextSolid;
    hide End, Print, Apply, Expected, Room, RuleOf, Built, ReleasesTwice;
    var fr := AtOperator(toks, lvl, c.left, pos);
    var p := NextSolid(toks, fr.pos) + 1;
    OperatorTwice(g, toks, lvl, fr, c.op, d);
    var fr1 := BehindOperator(lvl, fr, c.op, p);
    var v := NodeArg(Built(toks, p, c.right));
    StaysBehind(lvl, fr, c.op, p, v);
    ReleasesTwiceIff(fr1);
    ChainTable(g, lvl);
    ExpectedIs(toks, lvl - 1, c.right, p, d);
    RuleTwice(g, toks, fr1, d, RuleOf(lvl - 1), Expected(toks, lvl - 1, c.right, p, d));
    if Fits(lvl - 1, c.right, d) {
      var fr2 := Collect(fr1, v, End(toks, p, c.right));
      AppliesOperator(toks, c, pos, fr2.args);
      ReduceTwice(g, toks, fr2, d, ReduceExprOpExpr);
      assert Refold(fr2, NodeArg(Built(toks, pos, c)), 1) == AtOperator(toks, lvl, c, pos);
    }
  }

  lemma OperatorTwice(g: Grammar, toks: Stream, lvl: Level, fr: Frame, op: TokenKind, d: nat)
    requires Speaks(g) && lvl >= TERM && Chains(lvl, op) && fr.id == RuleOf(lvl) && fr.i == 0 && fr.j == 1
    requires KindAt(toks, NextSolid(toks, fr.pos)) == op
    ensures
      TwiceFrom(g, toks, fr, d) <==>
      TwiceFrom(g, toks, BehindOperator(lvl, fr, op, NextSolid(toks, fr.pos) + 1), d)
  {
    hide TwiceFrom, Speaks, Skips, Exists, NodeAt, Shared, FoldsAt, NextSolid, RuleOf;
    ChainTable(g, lvl);
    TermTwice(g, toks, fr, d, FirstOp(lvl));
    if op == SecondOp(lvl) {
      TermTwice(g, toks, HandOver(fr), d, op);
    }
  }

  /** No operator follows: nothing is released. */
  lemma ChainEndsOnce(g: Grammar, toks: Stream, lvl: Level, c: Cst, pos: nat, d: nat)
    requires Speaks(g) && lvl >= TERM && Ends(toks, lvl, c, pos)
    ensures !TwiceFrom(g, toks, AtOperator(toks, lvl, c, pos), d)
  {
    hide TwiceFrom, Speaks, Skips, Exists, NodeAt, Shared, FoldsAt, NextSolid, Built, End, RuleOf;
    ChainTable(g, lvl);
    var fr := AtOperator(toks, lvl, c, pos);
    TermTwice(g, toks, fr, d, FirstOp(lvl));
    TermTwice(g, toks, HandOver(fr), d, SecondOp(lvl));
    CompletedOnce(g, toks, HandOver(HandOver(fr)), d, ReduceSingle);
  }

  /**
   Parsing a written expression releases nodes twice exactly if it is given up at a part that stands behind
   the second operator, or a later one, of a chain around it.
   */
  lemma TwiceIff(g: Grammar, toks: Stream, lvl: Level, c: Cst, pos: nat, depth: nat)
    requires Speaks(g) && Stands(toks, lvl, c, pos) && Ends(toks, lvl, c, pos)
    ensures TwiceByRule(g, toks, RuleOf(lvl), pos, depth) <==> LateInChain(lvl, c, depth)
    decreases c, lvl, 3
  {
    hide Run, ParseRule, TwiceFrom, Speaks, Skips, Exists, NodeAt, Shared, FoldsAt, NextSolid;
    hide Stands, AtOperator, Built, End, Room;
    if lvl == FACTOR {
      FactorTwice(g, toks, c, pos, depth);
    } else if lvl == UNARY {
      UnaryTwice(g, toks, c, pos, depth);
    } else if depth < MAX_PARSE_DEPTH {
      ChainTwice(g, toks, lvl, c, pos, depth);
      ChainEndsOnce(g, toks, lvl, c, pos, depth + 1);
    }
  }

  // ----- inputs -----

  /** A name in `k` pairs of parentheses. */
  function Nested(k: nat): Cst {
    if k == 0 then Leaf(TokId, "x") else Paren(Nested(k - 1))
  }

  lemma {:induction false} NestedIs(k: nat)
    ensures IsAt(FACTOR, Nested(k)) && Room(Nested(k)) == 4 + 4 * k && !EndsOpen(Nested(k))
  {
    if k > 0 {
      NestedIs(k - 1);
      FactorAtAll(Nested(k - 1));
    }
  }

  lemma FactorAtAll(c: Cst)
    requires IsAt(FACTOR, c) && !c.Neg? && !c.Bin?
    ensures IsAt(UNARY, c) && IsAt(TERM, c) && IsAt(PRIME, c)
  {
    assert IsAt(UNARY, c);
    assert IsAt(TERM, c);
  }

  /** `x + x + ((...))` */
  function DeepThird(k: nat): Cst {
    Bin(TokPlus, Bin(TokPlus, Nested(0), Nested(0)), Nested(k))
  }

  /** `x + ((...))` */
  function DeepSecond(k: nat): Cst {
    Bin(TokPlus, Nested(0), Nested(k))
  }

  /** Too deep a third operand is released badly, too deep a second one is not. */
  lemma ThirdButNotSecond(k: nat, depth: nat)
    requires depth + 4 <= MAX_PARSE_DEPTH < depth + 4 + 4 * k
    ensures LateInChain(PRIME, DeepThird(k), depth) && !LateInChain(PRIME, DeepSecond(k), depth)
  {
    NestedIs(0);
    NestedIs(k);
    NestedNeverLate(k, TERM, depth + 1);
  }

  lemma {:induction false} NestedNeverLate(k: nat, lvl: Level, depth: nat)
    ensures !LateInChain(lvl, Nested(k), depth)
    decreases k, lvl
  {
    if lvl > FACTOR {
      NestedNeverLate(k, lvl - 1, depth + 1);
    } else if k > 0 {
      NestedNeverLate(k - 1, PRIME, depth + 1);
    }
  }

  lemma DeepThirdIsAt(k: nat)
    ensures IsAt(PRIME, DeepThird(k))
  {
    NestedIs(0);
    NestedIs(k);
    FactorAtAll(Nested(0));
    FactorAtAll(Nested(k));
    assert IsAt(PRIME, Bin(TokPlus, Nested(0), Nested(0)));
  }

  /** The parser, run on `x + x + ((...))` with 1024 pairs of parentheses or more, releases the second `x` twice. */
  lemma ThirdOperandIsReleasedTwice(k: nat)
    requires k >= 1024
    ensures TwiceByRule(Language, Print(DeepThird(k)), ExprPrime, 0, 0)
  {
    hide Nested, LateInChain, IsAt, Print, TwiceByRule, DeepThird, Reads, NextSolid, EndsOpen;
    var c := DeepThird(k);
    var toks := Print(c);
    DeepThirdIsAt(k);
    ThirdButNotSecond(k, 0);
    RoundTrip.PrintSpelled(c, PRIME);
    RoundTrip.SpelledReads(toks, 0, |toks|);
    assert toks[0..] == toks;
    NothingFollows(toks);
    Refusals.LanguageSpeaks(Language);
    TwiceIff(Language, toks, PRIME, c, 0, 0);
  }

  lemma NothingFollows(toks: Stream)
    ensures KindAt(toks, NextSolid(toks, |toks|)) == TokUndef
  {
  }
}
