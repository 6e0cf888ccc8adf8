/**
 Which operator binds tighter (bootstrap-olg/parser.c:777-844, 895-912): the rungs of the ladder by the
 operators they name, and what the parser makes of two operators between three operands.
 */
module LadderLaws {
  import opened Basics
  import opened Ladder

  /** The operators of the rungs that chain, tightest first; `??` comes behind them all. */
  const RUNGS: seq<seq<Op>> := [
    [Star, Slash, Percent],
    [Plus, Minus],
    [Shl, Shr, Ushr, ShlCy, ShrCy],
    [RangeLe, RangeLt],
    [Lt, Gt, Le, Ge],
    [Eq, Ne],
    [Amp],
    [Caret],
    [Pipe],
    [And],
    [Or]
  ]

  lemma RungIs(i: nat, op: Op)
    requires i < |RUNGS| && op in RUNGS[i]
    ensures LevelOf(op) == 3 + i && UNARY < LevelOf(op) < FALLBACK
  {
  }

  /** What the rules for prefix operators read from `pos` up to `end`. */
  predicate Operand(toks: seq<Token>, pos: nat, x: Node, end: nat) {
    Parse(toks, pos, UNARY) == Some((x, end))
  }

  /** An operator stands at `pos`, and behind it an operand up to `end`. */
  predicate Then(toks: seq<Token>, pos: nat, op: Op, y: Node, end: nat) {
    KindAt(toks, pos) == OpKind(op) && Operand(toks, pos + 1, y, end)
  }

  /** Nothing that continues an expression. */
  predicate Over(k: Kind) {
    !k.OpKind? && k != LBrace && k != Bang && k != Quest && k != LParen && k != LBracket && k != Dot
  }

  lemma OperatorStands(toks: seq<Token>, pos: nat, op: Op, y: Node, end: nat, lvl: Level)
    requires Then(toks, pos, op, y, end)
    ensures pos < |toks| && toks[pos].kind == OpKind(op) && !Descends(toks, pos)
    ensures LevelOf(op) > lvl ==> Stops(toks, pos, lvl)
  {
    if Descends(toks, pos) {
      NoOperand(toks, pos + 1);
    }
  }

  lemma NoOperand(toks: seq<Token>, pos: nat)
    requires IsRangeOp(KindAt(toks, pos))
    ensures Parse(toks, pos, UNARY) == None
  {
    assert Parse(toks, pos, PRIMARY) == None;
    assert Parse(toks, pos, POSTFIX) == None;
  }

  lemma OverStops(toks: seq<Token>, pos: nat, lvl: Level)
    requires Over(KindAt(toks, pos))
    ensures Stops(toks, pos, lvl)
  {
  }

  /** An operand, read at the level below an operator that follows it. */
  lemma OperandAt(toks: seq<Token>, pos: nat, x: Node, end: nat, lvl: Level)
    requires Operand(toks, pos, x, end) && UNARY <= lvl && Stops(toks, end, lvl)
    ensures Parse(toks, pos, lvl) == Some((x, end))
  {
    hide Parse, Stops;
    Lifts(toks, pos, UNARY, lvl, x, end);
  }

  /** One operation on its own rung, with whatever is folded so far to its left. */
  lemma RungStep(toks: seq<Token>, left: Node, pos: nat, op: Op, y: Node, end: nat)
    requires UNARY < LevelOf(op) < FALLBACK && Then(toks, pos, op, y, end) && Stops(toks, end, LevelOf(op) - 1)
    ensures Loop(toks, left, pos, LevelOf(op)) == Loop(toks, Binary(op, left, y), end, LevelOf(op))
  {
    hide Parse, Loop, Stops, Descends;
    OperatorStands(toks, pos, op, y, end, 0);
    OperandAt(toks, pos + 1, y, end, LevelOf(op) - 1);
    LoopStep(toks, left, pos, LevelOf(op), y, end);
  }

  /** One operation between two operands, as its rung reads it, up to what that rung does with the rest. */
  lemma OneOperation(toks: seq<Token>, pos: nat, x: Node, m1: nat, p: Op, y: Node, m2: nat)
    requires UNARY < LevelOf(p) < FALLBACK && Operand(toks, pos, x, m1) && Then(toks, m1, p, y, m2)
    requires Stops(toks, m2, LevelOf(p) - 1)
    ensures Parse(toks, pos, LevelOf(p)) == Loop(toks, Binary(p, x, y), m2, LevelOf(p))
  {
    hide Parse, Loop, Stops, Descends;
    var lvl := LevelOf(p);
    OperatorStands(toks, m1, p, y, m2, lvl - 1);
    OperandAt(toks, pos, x, m1, lvl - 1);
    ParseIs(toks, pos, lvl, x, m1);
    RungStep(toks, x, m1, p, y, m2);
  }

  /** What a rung has read is what every looser level reads, up to an operator that is looser still. */
  lemma Rises(toks: seq<Token>, pos: nat, own: Level, lvl: Level, n: Node, end: nat)
    requires UNARY < own <= lvl && own < FALLBACK
    requires Parse(toks, pos, own) == Loop(toks, n, end, own) && Stops(toks, end, lvl)
    ensures Parse(toks, pos, lvl) == Some((n, end))
  {
    hide Parse, Loop, Stops;
    StopsLower(toks, end, lvl, own);
    LoopsStop(toks, n, end, own);
    Lifts(toks, pos, own, lvl, n, end);
  }

  /** The tighter operator stands first: it takes the operand in the middle. */
  lemma TighterFirst(toks: seq<Token>, pos: nat, i: nat, j: nat, x: Node, m1: nat, p: Op, y: Node, m2: nat,
          q: Op, z: Node, end: nat)
    requires i < j < |RUNGS| && p in RUNGS[i] && q in RUNGS[j]
    requires Operand(toks, pos, x, m1) && Then(toks, m1, p, y, m2) && Then(toks, m2, q, z, end)
    requires Over(KindAt(toks, end))
    ensures Parse(toks, pos, FALLBACK) == Some((Binary(q, Binary(p, x, y), z), end))
  {
    hide Parse, Loop, Stops, Descends, LevelOf;
    RungIs(i, p);
    RungIs(j, q);
    var lvl := LevelOf(q);
    OperatorStands(toks, m2, q, z, end, lvl - 1);
    StopsLower(toks, m2, lvl - 1, LevelOf(p) - 1);
    OneOperation(toks, pos, x, m1, p, y, m2);
    Rises(toks, pos, LevelOf(p), lvl - 1, Binary(p, x, y), m2);
    ParseIs(toks, pos, lvl, Binary(p, x, y), m2);
    OverStops(toks, end, lvl - 1);
    RungStep(toks, Binary(p, x, y), m2, q, z, end);
    OverStops(toks, end, FALLBACK);
    Rises(toks, pos, lvl, FALLBACK, Binary(q, Binary(p, x, y), z), end);
  }

  /** The looser operator stands first: the tighter one takes the operand in the middle all the same. */
  lemma TighterLast(toks: seq<Token>, pos: nat, i: nat, j: nat, x: Node, m1: nat, q: Op, y: Node, m2: nat,
          p: Op, z: Node, end: nat)
    requires i < j < |RUNGS| && p in RUNGS[i] && q in RUNGS[j]
    requires Operand(toks, pos, x, m1) && Then(toks, m1, q, y, m2) && Then(toks, m2, p, z, end)
    requires Over(KindAt(toks, end))
    ensures Parse(toks, pos, FALLBACK) == Some((Binary(q, x, Binary(p, y, z)), end))
  {
    hide Parse, Loop, Stops, Descends, LevelOf;
    RungIs(i, p);
    RungIs(j, q);
    var lvl := LevelOf(q);
    OverStops(toks, end, LevelOf(p) - 1);
    OneOperation(toks, m1 + 1, y, m2, p, z, end);
    OverStops(toks, end, lvl - 1);
    Rises(toks, m1 + 1, LevelOf(p), lvl - 1, Binary(p, y, z), end);
    OperatorStands(toks, m1, q, y, m2, lvl - 1);
    OperandAt(toks, pos, x, m1, lvl - 1);
    ParseIs(toks, pos, lvl, x, m1);
    LoopStep(toks, x, m1, lvl, Binary(p, y, z), end);
    OverStops(toks, end, FALLBACK);
    Rises(toks, pos, lvl, FALLBACK, Binary(q, x, Binary(p, y, z)), end);
  }

  /** Two operators of one rung group to the left. */
  lemma SameRung(toks: seq<Token>, pos: nat, i: nat, x: Node, m1: nat, p: Op, y: Node, m2: nat,
          q: Op, z: Node, end: nat)
    requires i < |RUNGS| && p in RUNGS[i] && q in RUNGS[i]
    requires Operand(toks, pos, x, m1) && Then(toks, m1, p, y, m2) && Then(toks, m2, q, z, end)
    requires Over(KindAt(toks, end))
    ensures Parse(toks, pos, FALLBACK) == Some((Binary(q, Binary(p, x, y), z), end))
  {
    hide Parse, Loop, Stops, Descends, LevelOf;
    RungIs(i, p);
    RungIs(i, q);
    var lvl := LevelOf(p);
    OperatorStands(toks, m2, q, z, end, lvl - 1);
    OneOperation(toks, pos, x, m1, p, y, m2);
    OverStops(toks, end, lvl - 1);
    RungStep(toks, Binary(p, x, y), m2, q, z, end);
    OverStops(toks, end, FALLBACK);
    Rises(toks, pos, lvl, FALLBACK, Binary(q, Binary(p, x, y), z), end);
  }

  /** `??` binds looser than every rung: behind another operator, */
  lemma FallbackBehind(toks: seq<Token>, pos: nat, i: nat, x: Node, m1: nat, p: Op, y: Node, m2: nat,
          z: Node, end: nat)
    requires i < |RUNGS| && p in RUNGS[i]
    requires Operand(toks, pos, x, m1) && Then(toks, m1, p, y, m2) && Then(toks, m2, QuestQuest, z, end)
    requires Over(KindAt(toks, end))
    ensures Parse(toks, pos, FALLBACK) == Some((Binary(QuestQuest, Binary(p, x, y), z), end))
  {
    hide Parse, Loop, Stops, Descends;
    RungIs(i, p);
    OverStops(toks, end, OR);
    OperatorStands(toks, m2, QuestQuest, z, end, OR);
    StopsLower(toks, m2, OR, LevelOf(p) - 1);
    OneOperation(toks, pos, x, m1, p, y, m2);
    Rises(toks, pos, LevelOf(p), OR, Binary(p, x, y), m2);
    OperandAt(toks, m2 + 1, z, end, OR);
    ParseIs(toks, pos, FALLBACK, Binary(p, x, y), m2);
  }

  /** and before it. */
  lemma FallbackBefore(toks: seq<Token>, pos: nat, i: nat, x: Node, m1: nat, y: Node, m2: nat,
          q: Op, z: Node, end: nat)
    requires i < |RUNGS| && q in RUNGS[i]
    requires Operand(toks, pos, x, m1) && Then(toks, m1, QuestQuest, y, m2) && Then(toks, m2, q, z, end)
    requires Over(KindAt(toks, end))
    ensures Parse(toks, pos, FALLBACK) == Some((Binary(QuestQuest, x, Binary(q, y, z)), end))
  {
    hide Parse, Loop, Stops, Descends;
    RungIs(i, q);
    OverStops(toks, end, OR);
    StopsLower(toks, end, OR, LevelOf(q) - 1);
    OneOperation(toks, m1 + 1, y, m2, q, z, end);
    Rises(toks, m1 + 1, LevelOf(q), OR, Binary(q, y, z), end);
    OperatorStands(toks, m1, QuestQuest, y, m2, OR);
    OperandAt(toks, pos, x, m1, OR);
    ParseIs(toks, pos, FALLBACK, x, m1);
  }

  /** A second `??` is not read: the expression ends before it. */
  lemma FallbackOnce(toks: seq<Token>, pos: nat, x: Node, m1: nat, y: Node, m2: nat, z: Node, end: nat)
    requires Operand(toks, pos, x, m1) && Then(toks, m1, QuestQuest, y, m2) && Then(toks, m2, QuestQuest, z, end)
    ensures Parse(toks, pos, FALLBACK) == Some((Binary(QuestQuest, x, y), m2))
  {
    hide Parse, Loop, Stops, Descends;
    OperatorStands(toks, m1, QuestQuest, y, m2, OR);
    OperatorStands(toks, m2, QuestQuest, z, end, OR);
    OperandAt(toks, pos, x, m1, OR);
    OperandAt(toks, m1 + 1, y, m2, OR);
    ParseIs(toks, pos, FALLBACK, x, m1);
  }

  /** The prefix operators bind tighter than every rung and group to the right; `&` and `-` are operators, too. */
  lemma PrefixIsTighter(toks: seq<Token>, pos: nat, x: Node, end: nat)
    requires pos < |toks| && Operand(toks, pos + 1, x, end)
    requires toks[pos].kind in {OpKind(Minus), OpKind(Amp), Bang, Tilde, Recv}
    ensures Operand(toks, pos, Unary(toks[pos].kind, x), end)
  {
    hide Parse;
    PrefixIs(toks, pos);
  }

  lemma GreaterStops(toks: seq<Token>, pos: nat)
    requires KindAt(toks, pos) == OpKind(Gt)
    ensures Stops(toks, pos, RANGE - 1)
  {
  }

  /** `>` right before `..=` or `..<` is one operator of the range rung. */
  lemma DescendingRange(toks: seq<Token>, pos: nat, x: Node, m1: nat, op: Op, y: Node, end: nat)
    requires Operand(toks, pos, x, m1) && m1 < |toks| && toks[m1].kind == OpKind(Gt) && toks[m1].joined
    requires Then(toks, m1 + 1, op, y, end) && (op == RangeLe || op == RangeLt) && Over(KindAt(toks, end))
    ensures Parse(toks, pos, FALLBACK) == Some((Binary(op, x, y), end))
  {
    hide Parse, Stops;
    GreaterStops(toks, m1);
    OverStops(toks, end, RANGE - 1);
    OverStops(toks, end, FALLBACK);
    OperandAt(toks, pos, x, m1, RANGE - 1);
    OperandAt(toks, m1 + 2, y, end, RANGE - 1);
    ParseIs(toks, pos, RANGE, x, m1);
    Rises(toks, pos, RANGE, FALLBACK, Binary(op, x, y), end);
  }

  // ----- five tokens -----

  /** A name is an operand, whatever operator follows it, and so it is at the end. */
  lemma NameIsOperand(toks: seq<Token>, pos: nat)
    requires pos < |toks| && toks[pos].kind == Ident
    requires KindAt(toks, pos + 1).OpKind? || KindAt(toks, pos + 1) == EndOfFile
    ensures Operand(toks, pos, Name(toks[pos].text), pos + 1)
  {
    var x := Name(toks[pos].text);
    assert ParsePrimary(toks, pos) == Some((x, pos + 1));
    assert PostfixLoop(toks, x, pos + 1) == Some((x, pos + 1));
    hide ParsePrimary, PostfixLoop, Loop, ParseFallback;
    assert Parse(toks, pos, PRIMARY) == Some((x, pos + 1));
    assert Parse(toks, pos, POSTFIX) == Some((x, pos + 1));
  }

  /** Names `x`, `y` and `z` with an operator of any two rungs between them, tightest rung first in `RUNGS`. */
  lemma {:induction false} FiveTokens(toks: seq<Token>, i: nat, j: nat, p: Op, q: Op)
    requires i < |RUNGS| && j < |RUNGS| && p in RUNGS[i] && q in RUNGS[j]
    requires |toks| == 5 && toks[0].kind == toks[2].kind == toks[4].kind == Ident
    requires toks[1].kind == OpKind(p) && toks[3].kind == OpKind(q)
    ensures
      var x, y, z := Name(toks[0].text), Name(toks[2].text), Name(toks[4].text);
      ParseExpr(toks, 0) ==
      Some((if i <= j then Binary(q, Binary(p, x, y), z) else Binary(p, x, Binary(q, y, z)), 5))
  {
    hide Parse, Operand;
    NameIsOperand(toks, 0);
    NameIsOperand(toks, 2);
    NameIsOperand(toks, 4);
    var x, y, z := Name(toks[0].text), Name(toks[2].text), Name(toks[4].text);
    if i < j {
      TighterFirst(toks, 0, i, j, x, 1, p, y, 3, q, z, 5);
    } else if i == j {
      SameRung(toks, 0, i, x, 1, p, y, 3, q, z, 5);
    } else {
      TighterLast(toks, 0, j, i, x, 1, p, y, 3, q, z, 5);
    }
  }
}
