/**
 Two corners of the control flow, each for all programs and at an input: a labelled `continue`, and the
 step of a counting loop (bootstrap-olg/exec.c:1849-1869, 1973-1979, bootstrap-olg/parser.c:1671-1688).
 */
module FlowCases {
  import opened Basics
  import opened FlowLanguage
  import opened FlowSemantics

  // ----- labelled loops -----

  /** What a label makes of the loop it names. */
  function Labelling(name: string, r: Outcome): Outcome {
    if r.end == Broke(Some(name)) || r.end == Continued(Some(name)) then Outcome(Went(VoidVal), r.w) else Valueless(r)
  }

  /** A continue with the loop's own label ends it, as a break with or without the label does. */
  predicate EndsLabelled(name: string, end: Ending) {
    end in {Broke(None), Broke(Some(name)), Continued(Some(name))}
  }

  /** A labelled loop of any kind is its iterations, seen through the label. */
  lemma LabelledIs(name: string, s: Stmt, w: World, cur: nat, depth: nat, fuel: nat)
    requires depth + 2 <= DEPTH_MAX
    ensures s.LoopUntil? || s.While? ==>
      Exec(Labelled(name, s), w, cur, depth, fuel) == Labelling(name, Loop(s, w, cur, depth + 2, fuel))
    ensures s.For? ==>
      var i := Eval(s.init, w, cur, depth + 2, fuel);
      Exec(Labelled(name, s), w, cur, depth, fuel) ==
      if i.end.Went? then Labelling(name, Loop(s, Bind(i.w, cur, s.name, i.end.val), cur, depth + 2, fuel)) else i
    ensures s.In? ==>
      var c := Eval(s.coll, w, cur, depth + 2, fuel);
      Exec(Labelled(name, s), w, cur, depth, fuel) ==
      if !c.end.Went? then c
      else if !c.end.val.RangeVal? then Outcome(Died(NotARange), c.w)
      else Labelling(name, Each(s.ordinal, s.name, Elements(c.end.val.span), s.body, c.w, cur, depth + 2, fuel))
  {
    hide Loop, Each, Eval, Elements;
    assert Exec(s, w, cur, depth + 1, fuel) == ExecInner(s, w, cur, depth + 2, fuel);
  }

  /**
   One iteration of a labelled loop, whatever its condition or step: once the body has run, the loop is over
   if the body ended in a break without a label or in anything with the loop's own label; it reaches its end
   condition or step exactly if the body ended normally or in a continue without a label; and everything else
   leaves the loop as it is.
   */
  lemma LabelledIteration(name: string, s: Stmt, w: World, cur: nat, depth: nat, fuel: nat, c: Outcome, r: Outcome)
    requires IsLoop(s) && fuel > 0
    requires c == LoopHead(s, w, cur, depth, fuel) && c.end == Went(BoolVal(true))
    requires r == LoopBody(s, c.w, cur, depth, fuel)
    ensures
      Labelling(name, Loop(s, w, cur, depth, fuel)) ==
      if EndsLabelled(name, r.end) then Outcome(Went(VoidVal), r.w)
      else if !GoesOn(r.end) then r
      else
        var t := LoopTail(s, r.w, cur, depth, fuel);
        if !t.end.Went? then t
        else if t.end.val == BoolVal(true) then Outcome(Went(VoidVal), t.w)
        else Labelling(name, Loop(s, t.w, cur, depth, fuel - 1))
  {
    hide LoopHead, LoopBody, LoopTail;
    TailLeavesNothing(s, r.w, cur, depth, fuel);
  }

  lemma TailLeavesNothing(s: Stmt, w: World, cur: nat, depth: nat, fuel: nat)
    requires IsLoop(s)
    ensures NoFlow(LoopTail(s, w, cur, depth, fuel).end)
  {
    hide Exec;
  }

  /** The same of a loop over a range. */
  lemma LabelledRange(label0: string, ordinal: Option<string>, name: string, els: seq<int>, body: Stmt, w: World,
          cur: nat, depth: nat, fuel: nat, r: Outcome)
    requires els != [] && r == EachBody(ordinal, name, els[0], body, w, cur, depth, fuel)
    ensures
      Labelling(label0, Each(ordinal, name, els, body, w, cur, depth, fuel)) ==
      if EndsLabelled(label0, r.end) then Outcome(Went(VoidVal), r.w)
      else if !GoesOn(r.end) then r
      else Labelling(label0, Each(ordinal, name, els[1..], body, r.w, cur, depth, fuel))
  {
    hide EachBody;
  }

  /** A loop that does nothing but continue. */
  function Continuing(target: Option<string>): Stmt {
    LoopUntil([Continue(target)], None)
  }

  /** With its own label the loop is over after one iteration; without a label it never ends, whatever the fuel. */
  lemma {:induction false} ContinueByLabelEnds(name: string, w: World, cur: nat, depth: nat, fuel: nat)
    requires depth + 3 <= DEPTH_MAX
    ensures fuel > 0 ==> Exec(Labelled(name, Continuing(Some(name))), w, cur, depth, fuel).end == Went(VoidVal)
    ensures Exec(Labelled(name, Continuing(None)), w, cur, depth, fuel).end.Starved?
    decreases fuel
  {
    LabelledIs(name, Continuing(Some(name)), w, cur, depth, fuel);
    LabelledIs(name, Continuing(None), w, cur, depth, fuel);
    if fuel > 0 {
      ContinuingIterates(name, Some(name), w, cur, depth + 2, fuel);
      ContinuingIterates(name, None, w, cur, depth + 2, fuel);
      var r := ExecBlock([Continue(None)], w, cur, depth + 2, fuel);
      ContinueByLabelEnds(name, r.w, cur, depth, fuel - 1);
      LabelledIs(name, Continuing(None), r.w, cur, depth, fuel - 1);
    }
  }

  lemma ContinuingIterates(name: string, target: Option<string>, w: World, cur: nat, depth: nat, fuel: nat)
    requires depth < DEPTH_MAX && fuel > 0 && (target == None || target == Some(name))
    ensures
      var r := ExecBlock([Continue(target)], w, cur, depth, fuel);
      Labelling(name, Loop(Continuing(target), w, cur, depth, fuel)) ==
      if target.Some? then Outcome(Went(VoidVal), r.w)
      else Labelling(name, Loop(Continuing(target), r.w, cur, depth, fuel - 1))
  {
    hide Loop, ExecBlock;
    JustContinues(target, w, cur, depth, fuel);
    var s := Continuing(target);
    var c := LoopHead(s, w, cur, depth, fuel);
    LabelledIteration(name, s, w, cur, depth, fuel, c, LoopBody(s, c.w, cur, depth, fuel));
  }

  lemma JustContinues(target: Option<string>, w: World, cur: nat, depth: nat, fuel: nat)
    requires depth < DEPTH_MAX
    ensures ExecBlock([Continue(target)], w, cur, depth, fuel).end == Continued(target)
  {
    var w1 := Push(w, Env(Some(cur), []));
    assert Exec(Continue(target), w1, |w.envs|, depth, fuel) == Outcome(Continued(target), w1);
  }

  // ----- the step of a counting loop -----

  /** A return, break or continue. */
  predicate LeavesFlag(end: Ending) {
    end.Returned? || end.Broke? || end.Continued?
  }

  /** The expression is a `match`, or an `if` one arm of which may come down to one. */
  predicate MayRun(e: Expr) {
    match e
    case IfThenElse(_, t, f) => MayRun(t) || MayRun(f)
    case MatchOf(_, _) => true
    case _ => false
  }

  /** The arm that a step comes down to, with the world and depth it runs in. */
  datatype Spot = Spot(body: Stmt, w: World, depth: nat)

  /** The arm that an expression, executed as it stands, hands on to; `None` where it does not get to one. */
  function ArmOf(e: Expr, w: World, cur: nat, depth: nat, fuel: nat): Option<Spot>
    decreases e
  {
    if depth >= DEPTH_MAX then None
    else
      match e
      case IfThenElse(cond, t, f) =>
        var c := EvalCond(cond, w, cur, depth + 1, fuel);
        if !c.end.Went? then None
        else if c.end.val == BoolVal(true) then ArmOf(t, c.w, cur, depth + 1, fuel)
        else ArmOf(f, c.w, cur, depth + 1, fuel)
      case MatchOf(subject, arms) =>
        var r := Eval(subject, w, cur, depth + 1, fuel);
        if r.end.Went? then ArmFor(r.end.val, arms, r.w, cur, depth + 1, fuel) else None
      case _ => None
  }

  function ArmFor(v: Val, arms: seq<Arm>, w: World, cur: nat, depth: nat, fuel: nat): Option<Spot>
    decreases |arms|
  {
    if arms == [] then None
    else
      var m := MatchAny(v, arms[0].pats, w, cur, depth, fuel);
      if !m.end.Went? then None
      else if m.end.val == BoolVal(true) then Some(Spot(arms[0].body, m.w, depth))
      else ArmFor(v, arms[1..], m.w, cur, depth, fuel)
  }

  /** Executed as it stands, an expression is the arm it comes down to, or ends the run. */
  lemma {:induction false} BareIsItsArm(e: Expr, w: World, cur: nat, depth: nat, fuel: nat)
    ensures
      var r, spot := Exec(Bare(e), w, cur, depth, fuel), ArmOf(e, w, cur, depth, fuel);
      if spot.Some? then r == Valueless(Exec(spot.value.body, spot.value.w, cur, spot.value.depth, fuel))
      else NoFlow(r.end) && !r.end.Went?
    decreases e
  {
    hide Eval, EvalCond, MatchArms, ArmFor;
    if depth < DEPTH_MAX {
      assert Exec(Bare(e), w, cur, depth, fuel) == ExecBare(e, w, cur, depth + 1, fuel);
      match e
      case IfThenElse(cond, t, f) =>
        var c := EvalCond(cond, w, cur, depth + 1, fuel);
        if c.end.Went? {
          BareIsItsArm(if c.end.val == BoolVal(true) then t else f, c.w, cur, depth + 1, fuel);
        }
      case MatchOf(subject, arms) =>
        var r := Eval(subject, w, cur, depth + 1, fuel);
        if r.end.Went? {
          ArmForRuns(r.end.val, arms, r.w, cur, depth + 1, fuel);
        }
      case _ =>
    }
  }

  lemma {:induction false} ArmForRuns(v: Val, arms: seq<Arm>, w: World, cur: nat, depth: nat, fuel: nat)
    ensures
      var r, spot := MatchArms(v, arms, w, cur, depth, fuel), ArmFor(v, arms, w, cur, depth, fuel);
      if spot.Some? then r == Valueless(Exec(spot.value.body, spot.value.w, cur, spot.value.depth, fuel))
      else NoFlow(r.end) && !r.end.Went?
    decreases |arms|
  {
    hide Exec, MatchAny;
    if arms != [] {
      var m := MatchAny(v, arms[0].pats, w, cur, depth, fuel);
      if m.end.Went? && m.end.val != BoolVal(true) {
        ArmForRuns(v, arms[1..], m.w, cur, depth, fuel);
      }
    }
  }

  lemma {:induction false} OnlyMatchesHaveArms(e: Expr, w: World, cur: nat, depth: nat, fuel: nat)
    requires ArmOf(e, w, cur, depth, fuel).Some?
    ensures MayRun(e)
    decreases e
  {
    hide Eval, EvalCond, ArmFor;
    if e.IfThenElse? {
      var c := EvalCond(e.cond, w, cur, depth + 1, fuel);
      OnlyMatchesHaveArms(if c.end.val == BoolVal(true) then e.thenVal else e.elseVal, c.w, cur, depth + 1, fuel);
    }
  }

  /** A step after which the loop goes on: an assignment whose parts are there, or an arm that ends normally. */
  predicate StepGoesOn(p: Step, w: World, cur: nat, depth: nat, fuel: nat) {
    match p
    case SetTo(name, e) =>
      depth < DEPTH_MAX && FindCell(w.envs, cur, name).Some? && Eval(e, w, cur, depth + 1, fuel).end.Went?
    case JustExpr(e) =>
      var spot := ArmOf(e, w, cur, depth, fuel);
      spot.Some? && Exec(spot.value.body, spot.value.w, cur, spot.value.depth, fuel).end.Went?
  }

  /** A step that leaves a flag pending: an arm of a `match` that returns, breaks or continues. */
  predicate StepLeavesFlag(p: Step, w: World, cur: nat, depth: nat, fuel: nat) {
    p.JustExpr? && (
      var spot := ArmOf(p.expr, w, cur, depth, fuel);
      spot.Some? && LeavesFlag(Exec(spot.value.body, spot.value.w, cur, spot.value.depth, fuel).end))
  }

  /**
   What the form of the step decides, once the condition held and the body is through: the loop goes on
   exactly behind an assignment whose parts evaluate or an arm that ends normally; it dies at its next
   condition exactly if an arm leaves a flag pending; and otherwise the step itself ends it.
   */
  lemma StepDecides(s: Stmt, w: World, cur: nat, depth: nat, fuel: nat, c: Outcome, r: Outcome)
    requires s.For? && s.post.Some? && fuel > 0
    requires c == EvalCond(s.cond, w, cur, depth, fuel) && c.end == Went(BoolVal(true))
    requires r == Exec(s.body, c.w, cur, depth, fuel) && GoesOn(r.end)
    ensures
      var t := Exec(StepStmt(s.post.value), r.w, cur, depth, fuel);
      if StepGoesOn(s.post.value, r.w, cur, depth, fuel) then
        t.end.Went? && Loop(s, w, cur, depth, fuel) == Loop(s, t.w, cur, depth, fuel - 1)
      else if StepLeavesFlag(s.post.value, r.w, cur, depth, fuel) then
        Loop(s, w, cur, depth, fuel) == Outcome(Died(NotACondition), t.w)
      else
        Loop(s, w, cur, depth, fuel) == t && (t.end.Raised? || t.end.Died? || t.end.Starved?)
  {
    hide Exec, EvalCond, ArmOf, Eval;
    StepEnds(s.post.value, r.w, cur, depth, fuel);
  }

  lemma StepEnds(p: Step, w: World, cur: nat, depth: nat, fuel: nat)
    ensures
      var t := Exec(StepStmt(p), w, cur, depth, fuel);
      && (t.end.Went? <==> StepGoesOn(p, w, cur, depth, fuel))
      && (LeavesFlag(t.end) <==> StepLeavesFlag(p, w, cur, depth, fuel))
  {
    hide ArmOf, Eval, ExecBare;
    match p
    case SetTo(name, e) =>
      if depth < DEPTH_MAX {
        assert Exec(StepStmt(p), w, cur, depth, fuel) == ExecInner(Assign(name, e), w, cur, depth + 1, fuel);
      }
    case JustExpr(e) => BareIsItsArm(e, w, cur, depth, fuel);
  }

  /**
   A step that is neither an assignment nor may come down to a `match`, a call say, never lets a loop
   reach a second iteration, in whatever world: the loop ends with its condition, in its first body, or dead.
   */
  lemma ExpressionStepsRunOnce(s: Stmt, w: World, cur: nat, depth: nat, fuel: nat)
    requires s.For? && s.post.Some? && s.post.value.JustExpr? && !MayRun(s.post.value.expr) && fuel > 0
    ensures
      var c := EvalCond(s.cond, w, cur, depth, fuel);
      var r := Exec(s.body, c.w, cur, depth, fuel);
      var l := Loop(s, w, cur, depth, fuel);
      if !c.end.Went? then l == c
      else if c.end.val != BoolVal(true) then l == Outcome(Went(VoidVal), c.w)
      else if !GoesOn(r.end) then l == LoopEnd(r)
      else l.end.Raised? || l.end.Died? || l.end.Starved?
  {
    hide Exec, EvalCond, ArmOf;
    var c := EvalCond(s.cond, w, cur, depth, fuel);
    if c.end == Went(BoolVal(true)) {
      var r := Exec(s.body, c.w, cur, depth, fuel);
      if GoesOn(r.end) {
        StepDecides(s, w, cur, depth, fuel, c, r);
        if ArmOf(s.post.value.expr, r.w, cur, depth, fuel).Some? {
          OnlyMatchesHaveArms(s.post.value.expr, r.w, cur, depth, fuel);
        }
      }
    }
  }

  // ----- inputs -----

  /** `loop i := 0; true; step { }` */
  function Stepping(step: Expr): Stmt {
    For("i", IntLit(0), BoolLit(true), Some(JustExpr(step)), BlockOf([]))
  }

  /** The world at the first step of that loop: `i` is bound, and the frame of the body lies in the arena. */
  function AtStep(): World {
    Push(Bind(World([Env(None, [])], []), 0, "i", IntVal(0)), Env(Some(0), []))
  }

  /** At the top level, the loop gets to its step. */
  lemma SteppingSteps(step: Expr, fuel: nat)
    requires fuel > 0
    ensures
      var w0 := World([Env(None, [])], []);
      var w := Bind(w0, 0, "i", IntVal(0));
      Exec(Stepping(step), w0, 0, 0, fuel) == Loop(Stepping(step), w, 0, 1, fuel)
      && EvalCond(BoolLit(true), w, 0, 1, fuel) == Outcome(Went(BoolVal(true)), w)
      && Exec(BlockOf([]), w, 0, 1, fuel) == Outcome(Went(VoidVal), AtStep())
  {
    var w0 := World([Env(None, [])], []);
    var w := Bind(w0, 0, "i", IntVal(0));
    assert Eval(IntLit(0), w0, 0, 1, fuel) == Outcome(Went(IntVal(0)), w0);
    assert Eval(BoolLit(true), w, 0, 1, fuel) == Outcome(Went(BoolVal(true)), w);
    assert ExecList([], VoidVal, AtStep(), 1, 2, fuel) == Outcome(Went(VoidVal), AtStep());
    assert Exec(BlockOf([]), w, 0, 1, fuel) == ExecInner(BlockOf([]), w, 0, 2, fuel) == ExecBlock([], w, 0, 2, fuel);
    assert Exec(Stepping(step), w0, 0, 0, fuel) == ExecInner(Stepping(step), w0, 0, 1, fuel);
  }

  /** `loop i := 0; true; f() { }`: a call is no statement, whatever `f` is; it is not even looked up. */
  lemma CallStepDies(fuel: nat)
    requires fuel > 0
    ensures Program([Loose(Stepping(Call(Name("f"), [])))], fuel) == (Failed(NotAStatement), [])
  {
    var step := Call(Name("f"), []);
    SteppingSteps(step, fuel);
    var w := Bind(World([Env(None, [])], []), 0, "i", IntVal(0));
    assert Exec(Bare(step), AtStep(), 0, 1, fuel) == ExecBare(step, AtStep(), 0, 2, fuel) ==
           Outcome(Died(NotAStatement), AtStep());
    StepDecides(Stepping(step), w, 0, 1, fuel, EvalCond(BoolLit(true), w, 0, 1, fuel),
                Exec(BlockOf([]), w, 0, 1, fuel));
    OneLoose(Stepping(step), fuel);
  }

  /** `match 0 { _ => break }` */
  function Breaker(): Expr {
    MatchOf(IntLit(0), [Arm([NamePat("_")], ListOf([Break(None)]))])
  }

  /**
   `loop i := 0; true; match 0 { _ => break } { }`: the break does not end the loop, the next condition
   finds nothing.
   */
  lemma BreakingStepDies(fuel: nat)
    requires fuel > 0
    ensures Program([Loose(Stepping(Breaker()))], fuel) == (Failed(NotACondition), [])
  {
    var s := Stepping(Breaker());
    SteppingSteps(Breaker(), fuel);
    var w := Bind(World([Env(None, [])], []), 0, "i", IntVal(0));
    BreakerBreaks(AtStep(), fuel);
    StepDecides(s, w, 0, 1, fuel, EvalCond(BoolLit(true), w, 0, 1, fuel), Exec(BlockOf([]), w, 0, 1, fuel));
    OneLoose(s, fuel);
  }

  lemma BreakerBreaks(w: World, fuel: nat)
    ensures ArmOf(Breaker(), w, 0, 1, fuel) == Some(Spot(ListOf([Break(None)]), w, 2))
    ensures Exec(ListOf([Break(None)]), w, 0, 2, fuel) == Outcome(Broke(None), w)
    ensures Exec(Bare(Breaker()), w, 0, 1, fuel) == Outcome(Broke(None), w)
  {
    assert Eval(IntLit(0), w, 0, 2, fuel) == Outcome(Went(IntVal(0)), w);
    assert MatchOne(IntVal(0), NamePat("_"), w, 0, 2, fuel) == Outcome(Went(BoolVal(true)), w);
    assert Exec(Break(None), w, 0, 3, fuel) == Outcome(Broke(None), w);
    assert ExecList([Break(None)], VoidVal, w, 0, 3, fuel) == Outcome(Broke(None), w);
    assert Exec(ListOf([Break(None)]), w, 0, 2, fuel) == ExecInner(ListOf([Break(None)]), w, 0, 3, fuel);
    BareIsItsArm(Breaker(), w, 0, 1, fuel);
  }

  /** A program of one statement that dies there. */
  lemma OneLoose(s: Stmt, fuel: nat)
    ensures
      var r := Exec(s, World([Env(None, [])], []), 0, 0, fuel);
      r.end.Died? ==> Program([Loose(s)], fuel) == (Failed(r.end.why), r.w.out)
  {
    hide Exec;
    assert [Loose(s)][0] == Loose(s);
  }
}
