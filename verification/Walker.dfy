/**
 The explicit-stack tree walker (bootstrap/walker.c, bootstrap/walker.h).

 One loop keeps a stack of tasks; a task is a node with a phase counter. Every table of operations
 runs on the same loop: the executor, the checker, the printer and the deallocator are tables.
 The module gives the loop as a step machine, the plain recursive traversal it replaces, and proves
 that the two agree for every table, every tree and every context, in `2 * height - 1` task slots.
 */
module Walker {
  import opened Basics
  import opened Ast

  /** The operations of a table, and `Load`: the loop reading the node of the task on top. */
  datatype Op =
    | ValueOf | IdentifierRef | Identifier | Unary | Binary
    | IfCond | DecideThen | DecideElse | IfPost | IfExprPost
    | ApplyDefine | ApplyAssign | ApplyEcho
    | ScopePush | ScopePop
    | Enter | Leave | Load

  datatype Fault =
    | TaskOverflow | UnknownReference
    // the executor
    | StackUnderflow | StackOverflow | UndefinedName | UnknownOperator | DivisionByZero
    | LiteralRange | UnsupportedValue | NameRedefinition | BadReference | NoScope
    // the checker
    | TypeError
    // the printer
    | PrintUnderflow
    // the deallocator
    | UseAfterFree | DoubleFree

  /** An operation changes the context; the two decisions also answer yes or no. */
  datatype Outcome<+C> = Go(ctx: C, yes: bool) | Stop(ctx: C, fault: Fault) {
    predicate IsFailure() {
      Stop?
    }

    function PropagateFailure(): Outcome<C>
      requires Stop?
    {
      this
    }

    function Extract(): C
      requires Go?
    {
      ctx
    }
  }

  /** An operation table. A NULL node is passed to `Enter` and `Leave` only. */
  type Table<!C> = (Op, Option<Tree>, C) -> Outcome<C>

  datatype Mode = Eval | Reference

  datatype Task = Task(node: Option<Tree>, mode: Mode, phase: nat)

  /** What the loop does with the task on top, for its node's kind and its phase. */
  datatype Action =
    | Descend(child: Option<Tree>, mode: Mode)
    | Apply(op: Op)
    | Arms(thenArm: Tree, elseArm: Option<Tree>)
    | Finish(op: Op)
    | NextStmt(stmt: Tree, open: bool)   // `open`: the first visit of a block pushes a scope
    | CloseBlock(open: bool)
    | Reject

  function ActionOf(n: Tree, mode: Mode, phase: nat): Action {
    if mode == Reference then
      if n.Id? then Finish(IdentifierRef) else Reject
    else
      match n
      case Value(_, _, _) => Finish(ValueOf)
      case Id(_, _) => Finish(Identifier)
      case Expr(_, _, l, r) =>
        if phase == 0 then Descend(Some(l), Eval) else if phase == 1 then Descend(Some(r), Eval) else Finish(Binary)
      case UExpr(_, _, e) =>
        if phase == 0 then Descend(Some(e), Eval) else Finish(Unary)
      case IfStmt(_, c, t, e) =>
        if phase == 0 then Descend(Some(c), Eval) else if phase == 1 then Apply(IfCond)
        else if phase == 2 then Arms(t, e) else Finish(IfPost)
      case IfExpr(_, c, t, e) =>
        if phase == 0 then Descend(Some(c), Eval) else if phase == 1 then Apply(IfCond)
        else if phase == 2 then Arms(t, e) else Finish(IfExprPost)
      case Echo(_, e) =>
        if phase == 0 then Descend(Some(e), Eval) else Finish(ApplyEcho)
      case Define(_, _, e) =>
        if phase == 0 then Descend(Some(e), Eval) else Finish(ApplyDefine)
      case Assign(_, l, e) =>
        if phase == 0 then Descend(Some(e), Eval) else if phase == 1 then Descend(Some(l), Reference)
        else Finish(ApplyAssign)
      case Block(_, ss) =>
        if phase < |ss| then NextStmt(ss[phase], phase == 0) else CloseBlock(phase == 0)
  }

  // ----- the step machine -----

  datatype Machine<+C> = Running(tasks: seq<Task>, ctx: C) | Halted(ctx: C, fault: Fault)

  function PushTask<C>(ops: Table<C>, slots: nat, m: Machine<C>, node: Option<Tree>, mode: Mode): Machine<C> {
    match m
    case Halted(_, _) => m
    case Running(tasks, c) =>
      if |tasks| >= slots then Halted(c, TaskOverflow)
      else
        match ops(Enter, node, c)
        case Go(c', _) => Running(tasks + [Task(node, mode, 0)], c')
        case Stop(c', f) => Halted(c', f)
  }

  function PopTask<C>(ops: Table<C>, base: seq<Task>, t: Task, c: C): Machine<C> {
    match ops(Leave, t.node, c)
    case Go(c', _) => Running(base, c')
    case Stop(c', f) => Halted(c', f)
  }

  function ApplyThenPop<C>(ops: Table<C>, op: Op, base: seq<Task>, t: Task, c: C): Machine<C> {
    match ops(op, t.node, c)
    case Go(c', _) => PopTask(ops, base, t, c')
    case Stop(c', f) => Halted(c', f)
  }

  /** The chosen arms of an `if`: the else-arm goes below the then-arm. */
  function PushArms<C>(ops: Table<C>, slots: nat, m: Machine<C>, thenArm: Tree, elseArm: Option<Tree>,
                       doThen: bool, doElse: bool): Machine<C> {
    var m1 := if doElse then PushTask(ops, slots, m, elseArm, Eval) else m;
    if doThen then PushTask(ops, slots, m1, Some(thenArm), Eval) else m1
  }

  function OpenBlock<C>(ops: Table<C>, open: bool, c: C): Outcome<C> {
    if open then ops(ScopePush, None, c) else Go(c, true)
  }

  /** One iteration of the loop of walker_run: `t` is the task on top, `base` the stack below it. */
  function Step<C>(ops: Table<C>, slots: nat, base: seq<Task>, t: Task, c: C): Machine<C> {
    if t.node.None? then PopTask(ops, base, t, c)
    else
      match ops(Load, t.node, c)
      case Stop(c', f) => Halted(c', f)
      case Go(c', _) => Perform(ops, slots, base, t, ActionOf(t.node.value, t.mode, t.phase), c')
  }

  function Perform<C>(ops: Table<C>, slots: nat, base: seq<Task>, t: Task, action: Action, c: C): Machine<C> {
    var advanced := base + [t.(phase := t.phase + 1)];
    match action
    case Reject => Halted(c, UnknownReference)
    case Descend(child, mode) => PushTask(ops, slots, Running(advanced, c), child, mode)
    case Apply(op) =>
      (match ops(op, t.node, c)
       case Go(c', _) => Running(advanced, c')
       case Stop(c', f) => Halted(c', f))
    case Finish(op) => ApplyThenPop(ops, op, base, t, c)
    case Arms(th, el) =>
      (match ops(DecideThen, None, c)
       case Stop(c1, f) => Halted(c1, f)
       case Go(c1, doThen) =>
         match ops(DecideElse, None, c1)
         case Stop(c2, f) => Halted(c2, f)
         case Go(c2, doElse) => PushArms(ops, slots, Running(advanced, c2), th, el, doThen, doElse))
    case NextStmt(stmt, open) =>
      (match OpenBlock(ops, open, c)
       case Stop(c', f) => Halted(c', f)
       case Go(c', _) => PushTask(ops, slots, Running(advanced, c'), Some(stmt), Eval))
    case CloseBlock(open) =>
      (match OpenBlock(ops, open, c)
       case Stop(c', f) => Halted(c', f)
       case Go(c', _) => ApplyThenPop(ops, ScopePop, base, t, c'))
  }

  // ----- termination: the work a task still has, whatever the table answers -----

  function Work(n: Tree): (w: nat)
    ensures w >= 1
    decreases n, 1
  {
    match n
    case Value(_, _, _) => 1
    case Id(_, _) => 1
    case Expr(_, _, l, r) => 3 + Work(l) + Work(r)
    case UExpr(_, _, e) => 2 + Work(e)
    case IfStmt(_, c, t, e) => 4 + Work(c) + Work(t) + (if e.Some? then Work(e.value) else 1)
    case IfExpr(_, c, t, e) => 4 + Work(c) + Work(t) + (if e.Some? then Work(e.value) else 1)
    case Echo(_, e) => 2 + Work(e)
    case Define(_, _, e) => 2 + Work(e)
    case Assign(_, l, e) => 3 + Work(l) + Work(e)
    case Block(_, ss) => 1 + ListWork(ss)
  }

  function ListWork(ss: seq<Tree>): nat
    decreases ss, 0
  {
    if ss == [] then 0 else 1 + Work(ss[0]) + ListWork(ss[1..])
  }

  function WorkOpt(n: Option<Tree>): (w: nat)
    ensures w >= 1
  {
    if n.Some? then Work(n.value) else 1
  }

  /** Iterations that a task can still cause, its children's included. */
  function Remaining(t: Task): (w: nat)
    ensures w >= 1
    ensures t.phase == 0 ==> w <= WorkOpt(t.node)
  {
    if t.node.None? || t.mode == Reference then 1
    else
      match t.node.value
      case Value(_, _, _) => 1
      case Id(_, _) => 1
      case Expr(_, _, l, r) =>
        if t.phase == 0 then 3 + Work(l) + Work(r) else if t.phase == 1 then 2 + Work(r) else 1
      case UExpr(_, _, e) => if t.phase == 0 then 2 + Work(e) else 1
      case IfStmt(_, c, th, el) =>
        if t.phase == 0 then 4 + Work(c) + Work(th) + WorkOpt(el)
        else if t.phase == 1 then 3 + Work(th) + WorkOpt(el)
        else if t.phase == 2 then 2 + Work(th) + WorkOpt(el) else 1
      case IfExpr(_, c, th, el) =>
        if t.phase == 0 then 4 + Work(c) + Work(th) + WorkOpt(el)
        else if t.phase == 1 then 3 + Work(th) + WorkOpt(el)
        else if t.phase == 2 then 2 + Work(th) + WorkOpt(el) else 1
      case Echo(_, e) => if t.phase == 0 then 2 + Work(e) else 1
      case Define(_, _, e) => if t.phase == 0 then 2 + Work(e) else 1
      case Assign(_, l, e) =>
        if t.phase == 0 then 3 + Work(l) + Work(e) else if t.phase == 1 then 2 + Work(l) else 1
      case Block(_, ss) =>
        if t.phase < |ss| then
          assert t.phase == 0 ==> ss[t.phase..] == ss;
          1 + ListWork(ss[t.phase..])
        else 1
  }

  function TotalWork(tasks: seq<Task>): nat {
    if tasks == [] then 0 else TotalWork(tasks[..|tasks| - 1]) + Remaining(tasks[|tasks| - 1])
  }

  lemma TotalWorkSnoc(tasks: seq<Task>, t: Task)
    ensures TotalWork(tasks + [t]) == TotalWork(tasks) + Remaining(t)
  {
    SnocSplit(tasks, t);
  }

  /** The work an action hands out to the tasks it pushes. */
  function Handed(action: Action): nat {
    match action
    case Descend(child, m) => Remaining(Task(child, m, 0))
    case Arms(th, el) => Work(th) + WorkOpt(el)
    case NextStmt(s, _) => Work(s)
    case _ => 0
  }

  /** The advance of the phase pays for the work an action hands out. */
  lemma ActionCost(n: Tree, mode: Mode, phase: nat)
    ensures
      var action := ActionOf(n, mode, phase);
      !action.Finish? && !action.CloseBlock? && !action.Reject? ==>
        Remaining(Task(Some(n), mode, phase)) > Remaining(Task(Some(n), mode, phase + 1)) + Handed(action)
  {
    if mode == Eval && n.Block? && phase < |n.stmts| {
      assert n.stmts[phase..][1..] == n.stmts[phase + 1..];
    }
  }

  lemma PushWork<C>(ops: Table<C>, slots: nat, m: Machine<C>, node: Option<Tree>, mode: Mode)
    ensures
      var m' := PushTask(ops, slots, m, node, mode);
      m'.Running? ==> m.Running? && TotalWork(m'.tasks) == TotalWork(m.tasks) + Remaining(Task(node, mode, 0))
  {
    if m.Running? {
      TotalWorkSnoc(m.tasks, Task(node, mode, 0));
    }
  }

  lemma PushArmsWork<C>(ops: Table<C>, slots: nat, m: Machine<C>, th: Tree, el: Option<Tree>, doThen: bool,
          doElse: bool)
    ensures
      var m' := PushArms(ops, slots, m, th, el, doThen, doElse);
      m'.Running? ==> m.Running? && TotalWork(m'.tasks) <= TotalWork(m.tasks) + Work(th) + WorkOpt(el)
  {
    PushWork(ops, slots, m, el, Eval);
    PushWork(ops, slots, if doElse then PushTask(ops, slots, m, el, Eval) else m, Some(th), Eval);
  }

  lemma PerformWork<C>(ops: Table<C>, slots: nat, base: seq<Task>, t: Task, action: Action, c: C)
    ensures
      var m := Perform(ops, slots, base, t, action, c);
      m.Running? ==>
        if action.Finish? || action.CloseBlock? then m.tasks == base
        else
          && !action.Reject?
          && TotalWork(m.tasks) <= TotalWork(base) + Remaining(t.(phase := t.phase + 1)) + Handed(action)
  {
    hide TotalWork, PushTask, PushArms, Remaining, OpenBlock, ActionOf;
    var t' := t.(phase := t.phase + 1);
    TotalWorkSnoc(base, t');
    match action {
      case Descend(child, mode) => PushWork(ops, slots, Running(base + [t'], c), child, mode);
      case NextStmt(s, open) =>
        var r := OpenBlock(ops, open, c);
        PushWork(ops, slots, Running(base + [t'], r.ctx), Some(s), Eval);
      case Arms(th, el) =>
        var r1 := ops(DecideThen, None, c);
        var r2 := ops(DecideElse, None, r1.ctx);
        if r1.Go? && r2.Go? {
          PushArmsWork(ops, slots, Running(base + [t'], r2.ctx), th, el, r1.yes, r2.yes);
        }
      case _ =>
    }
  }

  lemma PerformDecreases<C>(ops: Table<C>, slots: nat, base: seq<Task>, t: Task, action: Action, c: C)
    requires
      !action.Finish? && !action.CloseBlock? && !action.Reject? ==>
        Remaining(t) > Remaining(t.(phase := t.phase + 1)) + Handed(action)
    ensures
      var m := Perform(ops, slots, base, t, action, c);
      m.Running? ==> TotalWork(m.tasks) < TotalWork(base) + Remaining(t)
  {
    PerformWork(ops, slots, base, t, action, c);
  }

  /** Every iteration that does not halt leaves strictly less work, so the loop terminates. */
  lemma StepDecreases<C>(ops: Table<C>, slots: nat, base: seq<Task>, t: Task, c: C)
    ensures
      var m := Step(ops, slots, base, t, c);
      m.Running? ==> TotalWork(m.tasks) < TotalWork(base + [t])
  {
    TotalWorkSnoc(base, t);
    if t.node.Some? && ops(Load, t.node, c).Go? {
      ActionCost(t.node.value, t.mode, t.phase);
      PerformDecreases(ops, slots, base, t, ActionOf(t.node.value, t.mode, t.phase), ops(Load, t.node, c).ctx);
    }
  }

  /** The loop of walker_run, from a given stack to the end of the run. */
  function Drive<C>(ops: Table<C>, slots: nat, tasks: seq<Task>, c: C): Outcome<C>
    decreases TotalWork(tasks)
  {
    if tasks == [] then Go(c, true)
    else
      var base, t := tasks[..|tasks| - 1], tasks[|tasks| - 1];
      assert tasks == base + [t];
      StepDecreases(ops, slots, base, t, c);
      match Step(ops, slots, base, t, c)
      case Halted(c', f) => Stop(c', f)
      case Running(tasks', c') => Drive(ops, slots, tasks', c')
  }

  // ----- one task's share of a run -----

  /** What a run does from the moment `t` is on top until it is popped; it never mentions the stack. */
  function Run<C>(ops: Table<C>, t: Task, c: C): Outcome<C>
    decreases Remaining(t), 1
  {
    if t.node.None? then ops(Leave, None, c)
    else
      var c1 :- ops(Load, t.node, c);
      ActionCost(t.node.value, t.mode, t.phase);
      RunAction(ops, t, ActionOf(t.node.value, t.mode, t.phase), c1)
  }

  /** A node from its push to its pop. */
  function Visit<C>(ops: Table<C>, node: Option<Tree>, mode: Mode, c: C): Outcome<C>
    decreases Remaining(Task(node, mode, 0)), 2
  {
    var c1 :- ops(Enter, node, c);
    Run(ops, Task(node, mode, 0), c1)
  }

  function RunAction<C>(ops: Table<C>, t: Task, action: Action, c: C): Outcome<C>
    requires
      !action.Finish? && !action.CloseBlock? && !action.Reject? ==>
        Remaining(t) > Remaining(t.(phase := t.phase + 1)) + Handed(action)
    decreases Remaining(t), 0
  {
    var next := t.(phase := t.phase + 1);
    match action
    case Reject => Stop(c, UnknownReference)
    case Finish(op) =>
      var c1 :- ops(op, t.node, c);
      ops(Leave, t.node, c1)
    case Apply(op) =>
      var c1 :- ops(op, t.node, c);
      Run(ops, next, c1)
    case Descend(child, mode) =>
      var c1 :- Visit(ops, child, mode, c);
      Run(ops, next, c1)
    case NextStmt(stmt, open) =>
      var c1 :- OpenBlock(ops, open, c);
      var c2 :- Visit(ops, Some(stmt), Eval, c1);
      Run(ops, next, c2)
    case CloseBlock(open) =>
      var c1 :- OpenBlock(ops, open, c);
      var c2 :- ops(ScopePop, t.node, c1);
      ops(Leave, t.node, c2)
    case Arms(th, el) =>
      var d1 := ops(DecideThen, None, c);
      var c1 :- d1;
      var d2 := ops(DecideElse, None, c1);
      var c2 :- d2;
      var c3 :- if d2.yes then ops(Enter, el, c2) else Go(c2, true);
      var c4 :- if d1.yes then ops(Enter, Some(th), c3) else Go(c3, true);
      var c5 :- if d1.yes then Run(ops, Task(Some(th), Eval, 0), c4) else Go(c4, true);
      var c6 :- if d2.yes then Run(ops, Task(el, Eval, 0), c5) else Go(c5, true);
      Run(ops, next, c6)
  }

  /** Task slots that a node and everything it pushes may hold at once. */
  function Slots(n: Option<Tree>): nat {
    if n.Some? then 2 * Height(n.value) - 1 else 1
  }

  /** Continues a run below a finished task. */
  function Resume<C>(ops: Table<C>, slots: nat, base: seq<Task>, r: Outcome<C>): Outcome<C> {
    if r.Go? then Drive(ops, slots, base, r.ctx) else r
  }

  function Outcomes<C>(ops: Table<C>, slots: nat, m: Machine<C>): Outcome<C> {
    match m
    case Halted(c, f) => Stop(c, f)
    case Running(tasks, c) => Drive(ops, slots, tasks, c)
  }

  lemma DriveStep<C>(ops: Table<C>, slots: nat, base: seq<Task>, t: Task, c: C)
    ensures Drive(ops, slots, base + [t], c) == Outcomes(ops, slots, Step(ops, slots, base, t, c))
  {
    SnocSplit(base, t);
  }

  lemma ChildrenAreLower(n: Tree, mode: Mode, phase: nat)
    ensures
      match ActionOf(n, mode, phase)
      case Descend(child, m) => Slots(child) + 1 <= Slots(Some(n))
      case Arms(th, el) => Slots(Some(th)) + 2 <= Slots(Some(n)) && Slots(el) + 1 <= Slots(Some(n))
      case NextStmt(s, _) => Slots(Some(s)) + 1 <= Slots(Some(n))
      case _ => true
  {
  }

  /**
   The loop, run on a stack with `t` on top, first does exactly `t`'s share and then goes on with
   the stack below: the stack bound 2 * height - 1 is enough, for any table whatever it decides.
   */
  lemma {:induction false} DriveRun<C>(ops: Table<C>, slots: nat, base: seq<Task>, t: Task, c: C)
    requires |base| + Slots(t.node) <= slots
    ensures Drive(ops, slots, base + [t], c) == Resume(ops, slots, base, Run(ops, t, c))
    decreases Remaining(t), 2
  {
    DriveStep(ops, slots, base, t, c);
    if t.node.Some? && ops(Load, t.node, c).Go? {
      ActionCost(t.node.value, t.mode, t.phase);
      ChildrenAreLower(t.node.value, t.mode, t.phase);
      DriveAction(ops, slots, base, t, ActionOf(t.node.value, t.mode, t.phase), ops(Load, t.node, c).ctx);
    }
  }

  lemma {:induction false} DriveAction<C>(ops: Table<C>, slots: nat, base: seq<Task>, t: Task, action: Action, c: C)
    requires |base| + Slots(t.node) <= slots
    requires
      !action.Finish? && !action.CloseBlock? && !action.Reject? ==>
        Remaining(t) > Remaining(t.(phase := t.phase + 1)) + Handed(action)
    requires
      match action
      case Descend(child, m) => Slots(child) + 1 <= Slots(t.node)
      case Arms(th, el) => Slots(Some(th)) + 2 <= Slots(t.node) && Slots(el) + 1 <= Slots(t.node)
      case NextStmt(s, _) => Slots(Some(s)) + 1 <= Slots(t.node)
      case _ => true
    ensures
      Outcomes(ops, slots, Perform(ops, slots, base, t, action, c)) ==
      Resume(ops, slots, base, RunAction(ops, t, action, c))
    decreases Remaining(t), 1
  {
    var next := t.(phase := t.phase + 1);
    match action {
      case Descend(child, mode) =>
        DriveChild(ops, slots, base, t, child, mode, c);
      case Apply(op) =>
        DriveRun(ops, slots, base, next, ops(op, t.node, c).ctx);
      case NextStmt(stmt, open) =>
        DriveChild(ops, slots, base, t, Some(stmt), Eval, OpenBlock(ops, open, c).ctx);
      case Arms(th, el) =>
        DriveArms(ops, slots, base, t, th, el, c);
      case _ =>
    }
  }

  /** Pushing a child and running until it is popped and its parent has finished, too. */
  lemma {:induction false} DriveChild<C>(ops: Table<C>, slots: nat, base: seq<Task>, t: Task, child: Option<Tree>,
          mode: Mode, c: C)
    requires |base| + Slots(t.node) <= slots
    requires Remaining(t) > Remaining(t.(phase := t.phase + 1)) + Remaining(Task(child, mode, 0))
    requires Slots(child) + 1 <= Slots(t.node)
    ensures
      var next := t.(phase := t.phase + 1);
      var r := Visit(ops, child, mode, c);
      Outcomes(ops, slots, PushTask(ops, slots, Running(base + [next], c), child, mode)) ==
      Resume(ops, slots, base, if r.Go? then Run(ops, next, r.ctx) else r)
    decreases Remaining(t), 0
  {
    var next := t.(phase := t.phase + 1);
    var r := ops(Enter, child, c);
    if r.Go? {
      DriveRun(ops, slots, base + [next], Task(child, mode, 0), r.ctx);
      var r' := Run(ops, Task(child, mode, 0), r.ctx);
      if r'.Go? {
        DriveRun(ops, slots, base, next, r'.ctx);
      }
    }
  }

  lemma {:induction false} DriveArms<C>(ops: Table<C>, slots: nat, base: seq<Task>, t: Task, th: Tree,
          el: Option<Tree>, c: C)
    requires |base| + Slots(t.node) <= slots
    requires Remaining(t) > Remaining(t.(phase := t.phase + 1)) + Work(th) + WorkOpt(el)
    requires Slots(Some(th)) + 2 <= Slots(t.node) && Slots(el) + 1 <= Slots(t.node)
    ensures
      Outcomes(ops, slots, Perform(ops, slots, base, t, Arms(th, el), c)) ==
      Resume(ops, slots, base, RunAction(ops, t, Arms(th, el), c))
    decreases Remaining(t), 0
  {
    var next := t.(phase := t.phase + 1);
    var d1 := ops(DecideThen, None, c);
    var d2 := ops(DecideElse, None, d1.ctx);
    if d1.Go? && d2.Go? {
      var below := if d2.yes then base + [next] + [Task(el, Eval, 0)] else base + [next];
      var r3 := if d2.yes then ops(Enter, el, d2.ctx) else Go(d2.ctx, true);
      var r4 := if d1.yes then ops(Enter, Some(th), r3.ctx) else Go(r3.ctx, true);
      if r3.Go? && r4.Go? {
        var r5 := if d1.yes then Run(ops, Task(Some(th), Eval, 0), r4.ctx) else Go(r4.ctx, true);
        if d1.yes {
          DriveRun(ops, slots, below, Task(Some(th), Eval, 0), r4.ctx);
        }
        if r5.Go? {
          var r6 := if d2.yes then Run(ops, Task(el, Eval, 0), r5.ctx) else Go(r5.ctx, true);
          if d2.yes {
            DriveRun(ops, slots, base + [next], Task(el, Eval, 0), r5.ctx);
          }
          DriveRun(ops, slots, base, next, r6.ctx);
        }
      }
    }
  }

  // ----- the plain recursive traversal -----

  /** Runs an entered node: its children in order, its operation last. No phases and no stack. */
  function Traverse<C>(ops: Table<C>, node: Option<Tree>, mode: Mode, c: C): Outcome<C>
    decreases WorkOpt(node), 0
  {
    if node.None? then ops(Leave, None, c)
    else if mode == Reference then
      var n := node.value;
      if n.Id? then Close(ops, IdentifierRef, n, c)
      else
        var c1 :- ops(Load, node, c);
        Stop(c1, UnknownReference)
    else
      var n := node.value;
      match n
      case Value(_, _, _) => Close(ops, ValueOf, n, c)
      case Id(_, _) => Close(ops, Identifier, n, c)
      case Expr(_, _, l, r) =>
        var c1 :- Child(ops, n, Some(l), Eval, c);
        var c2 :- Child(ops, n, Some(r), Eval, c1);
        Close(ops, Binary, n, c2)
      case UExpr(_, _, e) =>
        var c1 :- Child(ops, n, Some(e), Eval, c);
        Close(ops, Unary, n, c1)
      case Echo(_, e) =>
        var c1 :- Child(ops, n, Some(e), Eval, c);
        Close(ops, ApplyEcho, n, c1)
      case Define(_, _, e) =>
        var c1 :- Child(ops, n, Some(e), Eval, c);
        Close(ops, ApplyDefine, n, c1)
      case Assign(_, l, e) =>
        var c1 :- Child(ops, n, Some(e), Eval, c);
        var c2 :- Child(ops, n, Some(l), Reference, c1);
        Close(ops, ApplyAssign, n, c2)
      case IfStmt(_, cond, th, el) =>
        var c1 :- Child(ops, n, Some(cond), Eval, c);
        var c2 :- Choose(ops, n, th, el, c1);
        Close(ops, IfPost, n, c2)
      case IfExpr(_, cond, th, el) =>
        var c1 :- Child(ops, n, Some(cond), Eval, c);
        var c2 :- Choose(ops, n, th, el, c1);
        Close(ops, IfExprPost, n, c2)
      case Block(_, ss) =>
        var c1 :- ops(Load, node, c);
        var c2 :- ops(ScopePush, None, c1);
        if ss == [] then
          var c3 :- ops(ScopePop, node, c2);
          ops(Leave, node, c3)
        else
          assert Work(n) == 1 + (1 + Work(ss[0]) + ListWork(ss[1..]));
          var c3 :- ops(Enter, Some(ss[0]), c2);
          var c4 :- Traverse(ops, Some(ss[0]), Eval, c3);
          var c5 :- Rest(ops, n, ss[1..], c4);
          Close(ops, ScopePop, n, c5)
  }

  function Close<C>(ops: Table<C>, op: Op, n: Tree, c: C): Outcome<C> {
    var c1 :- ops(Load, Some(n), c);
    var c2 :- ops(op, Some(n), c1);
    ops(Leave, Some(n), c2)
  }

  function Child<C>(ops: Table<C>, n: Tree, child: Option<Tree>, mode: Mode, c: C): Outcome<C>
    decreases WorkOpt(child), 1
  {
    var c1 :- ops(Load, Some(n), c);
    var c2 :- ops(Enter, child, c1);
    Traverse(ops, child, mode, c2)
  }

  /** The decision and the chosen arms: the else-arm is entered first and traversed last. */
  function Choose<C>(ops: Table<C>, n: Tree, th: Tree, el: Option<Tree>, c: C): Outcome<C>
    decreases Work(th) + WorkOpt(el), 1
  {
    var c0 :- ops(Load, Some(n), c);
    var c1 :- ops(IfCond, Some(n), c0);
    var c2 :- ops(Load, Some(n), c1);
    Decided(ops, th, el, c2)
  }

  function Decided<C>(ops: Table<C>, th: Tree, el: Option<Tree>, c: C): Outcome<C>
    decreases Work(th) + WorkOpt(el), 0
  {
    var d1 := ops(DecideThen, None, c);
    var c1 :- d1;
    var d2 := ops(DecideElse, None, c1);
    var c2 :- d2;
    var c3 :- if d2.yes then ops(Enter, el, c2) else Go(c2, true);
    var c4 :- if d1.yes then ops(Enter, Some(th), c3) else Go(c3, true);
    var c5 :- if d1.yes then Traverse(ops, Some(th), Eval, c4) else Go(c4, true);
    if d2.yes then Traverse(ops, el, Eval, c5) else Go(c5, true)
  }

  /** The remaining statements of a block. */
  function Rest<C>(ops: Table<C>, n: Tree, ss: seq<Tree>, c: C): Outcome<C>
    decreases ListWork(ss), 2
  {
    if ss == [] then Go(c, true)
    else
      var c1 :- Child(ops, n, Some(ss[0]), Eval, c);
      Rest(ops, n, ss[1..], c1)
  }

  lemma {:induction false} RunIsTraverse<C>(ops: Table<C>, node: Option<Tree>, mode: Mode, c: C)
    ensures Run(ops, Task(node, mode, 0), c) == Traverse(ops, node, mode, c)
    decreases WorkOpt(node), 0
  {
    if node.Some? && mode == Eval {
      var n := node.value;
      match n {
        case Expr(_, _, l, r) =>
          VisitIsChild(ops, n, 0, Some(l), Eval, c);
          VisitIsChild(ops, n, 1, Some(r), Eval, Child(ops, n, Some(l), Eval, c).ctx);
        case UExpr(_, _, e) => VisitIsChild(ops, n, 0, Some(e), Eval, c);
        case Echo(_, e) => VisitIsChild(ops, n, 0, Some(e), Eval, c);
        case Define(_, _, e) => VisitIsChild(ops, n, 0, Some(e), Eval, c);
        case Assign(_, l, e) =>
          VisitIsChild(ops, n, 0, Some(e), Eval, c);
          VisitIsChild(ops, n, 1, Some(l), Reference, Child(ops, n, Some(e), Eval, c).ctx);
        case IfStmt(_, cond, th, el) =>
          VisitIsChild(ops, n, 0, Some(cond), Eval, c);
          ArmsAreChoose(ops, n, th, el, Child(ops, n, Some(cond), Eval, c).ctx);
        case IfExpr(_, cond, th, el) =>
          VisitIsChild(ops, n, 0, Some(cond), Eval, c);
          ArmsAreChoose(ops, n, th, el, Child(ops, n, Some(cond), Eval, c).ctx);
        case Block(_, ss) => BlockIsTraverse(ops, n, c);
        case _ =>
      }
    }
  }

  function EnterAndTraverse<C>(ops: Table<C>, node: Option<Tree>, mode: Mode, c: C): Outcome<C> {
    var c1 :- ops(Enter, node, c);
    Traverse(ops, node, mode, c1)
  }

  lemma {:induction false} VisitIsTraverse<C>(ops: Table<C>, node: Option<Tree>, mode: Mode, c: C)
    ensures Visit(ops, node, mode, c) == EnterAndTraverse(ops, node, mode, c)
    decreases WorkOpt(node), 1
  {
    var r := ops(Enter, node, c);
    if r.Go? {
      RunIsTraverse(ops, node, mode, r.ctx);
    }
  }

  /** One descent of the phased form is one child of the recursive form. */
  lemma {:induction false} VisitIsChild<C>(ops: Table<C>, n: Tree, phase: nat, child: Option<Tree>, mode: Mode, c: C)
    requires ActionOf(n, Eval, phase) == Descend(child, mode)
    ensures
      var r := Child(ops, n, child, mode, c);
      Run(ops, Task(Some(n), Eval, phase), c) ==
      if r.Go? then Run(ops, Task(Some(n), Eval, phase + 1), r.ctx) else r
    decreases WorkOpt(child), 2
  {
    var r := ops(Load, Some(n), c);
    if r.Go? {
      ActionCost(n, Eval, phase);
      assert Run(ops, Task(Some(n), Eval, phase), c) ==
             RunAction(ops, Task(Some(n), Eval, phase), Descend(child, mode), r.ctx);
      VisitIsTraverse(ops, child, mode, r.ctx);
    }
  }

  lemma {:induction false} ArmsAreChoose<C>(ops: Table<C>, n: Tree, th: Tree, el: Option<Tree>, c: C)
    requires (n.IfStmt? || n.IfExpr?) && n.thenArm == th && n.elseArm == el
    ensures
      var r := Choose(ops, n, th, el, c);
      Run(ops, Task(Some(n), Eval, 1), c) == if r.Go? then Run(ops, Task(Some(n), Eval, 3), r.ctx) else r
    decreases Work(th) + WorkOpt(el), 1
  {
    var r0 := ops(Load, Some(n), c);
    if r0.Go? {
      ActionCost(n, Eval, 1);
      assert Run(ops, Task(Some(n), Eval, 1), c) == RunAction(ops, Task(Some(n), Eval, 1), Apply(IfCond), r0.ctx);
      var r1 := ops(IfCond, Some(n), r0.ctx);
      if r1.Go? {
        var r2 := ops(Load, Some(n), r1.ctx);
        assert r2.Stop? ==> Run(ops, Task(Some(n), Eval, 2), r1.ctx) == r2;
        if r2.Go? {
          ActionCost(n, Eval, 2);
          assert Run(ops, Task(Some(n), Eval, 2), r1.ctx) ==
                 RunAction(ops, Task(Some(n), Eval, 2), Arms(th, el), r2.ctx);
          DecidedArms(ops, n, th, el, r2.ctx);
        }
      }
    }
  }

  lemma {:induction false} DecidedArms<C>(ops: Table<C>, n: Tree, th: Tree, el: Option<Tree>, c: C)
    requires (n.IfStmt? || n.IfExpr?) && n.thenArm == th && n.elseArm == el
    requires Remaining(Task(Some(n), Eval, 2)) > Remaining(Task(Some(n), Eval, 3)) + Work(th) + WorkOpt(el)
    ensures
      var r := Decided(ops, th, el, c);
      RunAction(ops, Task(Some(n), Eval, 2), Arms(th, el), c) ==
      if r.Go? then Run(ops, Task(Some(n), Eval, 3), r.ctx) else r
    decreases Work(th) + WorkOpt(el), 0
  {
    var d1 := ops(DecideThen, None, c);
    var d2 := ops(DecideElse, None, d1.ctx);
    if d1.Go? && d2.Go? {
      var r3 := if d2.yes then ops(Enter, el, d2.ctx) else Go(d2.ctx, true);
      var r4 := if d1.yes then ops(Enter, Some(th), r3.ctx) else Go(r3.ctx, true);
      if r3.Go? && r4.Go? {
        RunIsTraverse(ops, Some(th), Eval, r4.ctx);
        var r5 := if d1.yes then Traverse(ops, Some(th), Eval, r4.ctx) else Go(r4.ctx, true);
        RunIsTraverse(ops, el, Eval, r5.ctx);
      }
    }
  }

  lemma {:induction false} BlockIsTraverse<C>(ops: Table<C>, n: Tree, c: C)
    requires n.Block?
    ensures Run(ops, Task(Some(n), Eval, 0), c) == Traverse(ops, Some(n), Eval, c)
    decreases ListWork(n.stmts), 3
  {
    var ss := n.stmts;
    var r := ops(Load, Some(n), c);
    if ss != [] && r.Go? {
      ActionCost(n, Eval, 0);
      assert Run(ops, Task(Some(n), Eval, 0), c) ==
             RunAction(ops, Task(Some(n), Eval, 0), NextStmt(ss[0], true), r.ctx);
      assert Work(n) == 1 + (1 + Work(ss[0]) + ListWork(ss[1..]));
      var r1 := ops(ScopePush, None, r.ctx);
      if r1.Go? {
        VisitIsTraverse(ops, Some(ss[0]), Eval, r1.ctx);
        var r2 := EnterAndTraverse(ops, Some(ss[0]), Eval, r1.ctx);
        if r2.Go? {
          RestIsRun(ops, n, 1, r2.ctx);
        }
      }
    }
  }

  lemma {:induction false} RestIsRun<C>(ops: Table<C>, n: Tree, i: nat, c: C)
    requires n.Block? && 1 <= i <= |n.stmts|
    ensures
      var r := Rest(ops, n, n.stmts[i..], c);
      Run(ops, Task(Some(n), Eval, i), c) == if r.Go? then Close(ops, ScopePop, n, r.ctx) else r
    decreases ListWork(n.stmts[i..]), 2
  {
    if i < |n.stmts| {
      assert n.stmts[i..][1..] == n.stmts[i + 1..];
      ActionCost(n, Eval, i);
      var r := ops(Load, Some(n), c);
      if r.Go? {
        assert Run(ops, Task(Some(n), Eval, i), c) ==
               RunAction(ops, Task(Some(n), Eval, i), NextStmt(n.stmts[i], false), r.ctx);
      }
      if r.Go? {
        VisitIsTraverse(ops, Some(n.stmts[i]), Eval, r.ctx);
        var r1 := EnterAndTraverse(ops, Some(n.stmts[i]), Eval, r.ctx);
        if r1.Go? {
          RestIsRun(ops, n, i + 1, r1.ctx);
        }
      }
    }
  }

  // ----- a whole run -----

  /** What walker_run does with a fresh walker of `slots` task slots. */
  function WalkRoot<C>(ops: Table<C>, slots: nat, root: Tree, c: C): Outcome<C> {
    Outcomes(ops, slots, PushTask(ops, slots, Running([], c), Some(root), Eval))
  }

  /** Drops the answer of the last operation, which nobody reads. */
  function Settled<C>(r: Outcome<C>): Outcome<C> {
    if r.Go? then Go(r.ctx, true) else r
  }

  /**
   For every table, tree and context, a walker with at least 2 * height - 1 task slots (its callers
   allocate 2 * height + 1) does what the plain recursive traversal does, faults included.
   */
  lemma {:induction false} WalkIsTraversal<C>(ops: Table<C>, slots: nat, root: Tree, c: C)
    requires slots >= 2 * Height(root) - 1
    ensures WalkRoot(ops, slots, root, c) == Settled(EnterAndTraverse(ops, Some(root), Eval, c))
  {
    var r := ops(Enter, Some(root), c);
    if r.Go? {
      assert [] + [Task(Some(root), Eval, 0)] == [Task(Some(root), Eval, 0)];
      DriveRun(ops, slots, [], Task(Some(root), Eval, 0), r.ctx);
      RunIsTraverse(ops, Some(root), Eval, r.ctx);
    }
  }

  // ----- one table inside another -----

  function Carried<C, D>(f: C -> D, r: Outcome<C>): Outcome<D> {
    match r
    case Go(c, yes) => Go(f(c), yes)
    case Stop(c, fault) => Stop(f(c), fault)
  }

  function CarriedMachine<C, D>(f: C -> D, m: Machine<C>): Machine<D> {
    match m
    case Running(tasks, c) => Running(tasks, f(c))
    case Halted(c, fault) => Halted(f(c), fault)
  }

  /** On the contexts that `f` makes of the first table's, the second table does what the first one does. */
  ghost predicate Carries<C(!new), D>(f: C -> D, ops1: Table<C>, ops2: Table<D>) {
    forall op, node, c :: ops2(op, node, f(c)) == Carried(f, ops1(op, node, c))
  }

  lemma PushCarries<C(!new), D>(f: C -> D, ops1: Table<C>, ops2: Table<D>, slots: nat, m: Machine<C>,
          node: Option<Tree>, mode: Mode)
    requires Carries(f, ops1, ops2)
    ensures PushTask(ops2, slots, CarriedMachine(f, m), node, mode) ==
            CarriedMachine(f, PushTask(ops1, slots, m, node, mode))
  {
  }

  lemma PopCarries<C(!new), D>(f: C -> D, ops1: Table<C>, ops2: Table<D>, op: Op, base: seq<Task>, t: Task, c: C)
    requires Carries(f, ops1, ops2)
    ensures PopTask(ops2, base, t, f(c)) == CarriedMachine(f, PopTask(ops1, base, t, c))
    ensures ApplyThenPop(ops2, op, base, t, f(c)) == CarriedMachine(f, ApplyThenPop(ops1, op, base, t, c))
  {
  }

  lemma StepCarries<C(!new), D>(f: C -> D, ops1: Table<C>, ops2: Table<D>, slots: nat, base: seq<Task>, t: Task, c: C)
    requires Carries(f, ops1, ops2)
    ensures Step(ops2, slots, base, t, f(c)) == CarriedMachine(f, Step(ops1, slots, base, t, c))
  {
    hide Perform;
    PopCarries(f, ops1, ops2, Leave, base, t, c);
    if t.node.Some? {
      var r := ops1(Load, t.node, c);
      assert ops2(Load, t.node, f(c)) == Carried(f, r);
      if r.Go? {
        PerformCarries(f, ops1, ops2, slots, base, t, ActionOf(t.node.value, t.mode, t.phase), r.ctx);
      }
    }
  }

  lemma PerformCarries<C(!new), D>(f: C -> D, ops1: Table<C>, ops2: Table<D>, slots: nat, base: seq<Task>, t: Task,
                                   action: Action, c: C)
    requires Carries(f, ops1, ops2)
    ensures Perform(ops2, slots, base, t, action, f(c)) == CarriedMachine(f, Perform(ops1, slots, base, t, action, c))
  {
    hide PushTask, PopTask, ApplyThenPop;
    var advanced := base + [t.(phase := t.phase + 1)];
    match action
    case Reject =>
    case Descend(child, mode) => PushCarries(f, ops1, ops2, slots, Running(advanced, c), child, mode);
    case Apply(op) => assert ops2(op, t.node, f(c)) == Carried(f, ops1(op, t.node, c));
    case Finish(op) => PopCarries(f, ops1, ops2, op, base, t, c);
    case Arms(th, el) =>
      var r1 := ops1(DecideThen, None, c);
      assert ops2(DecideThen, None, f(c)) == Carried(f, r1);
      if r1.Go? {
        var r2 := ops1(DecideElse, None, r1.ctx);
        assert ops2(DecideElse, None, f(r1.ctx)) == Carried(f, r2);
        if r2.Go? {
          var m := Running(advanced, r2.ctx);
          PushCarries(f, ops1, ops2, slots, m, el, Eval);
          PushCarries(f, ops1, ops2, slots, if r2.yes then PushTask(ops1, slots, m, el, Eval) else m, Some(th), Eval);
        }
      }
    case NextStmt(stmt, open) =>
      var r := OpenBlock(ops1, open, c);
      assert OpenBlock(ops2, open, f(c)) == Carried(f, r);
      PushCarries(f, ops1, ops2, slots, Running(advanced, r.ctx), Some(stmt), Eval);
    case CloseBlock(open) =>
      var r := OpenBlock(ops1, open, c);
      assert OpenBlock(ops2, open, f(c)) == Carried(f, r);
      PopCarries(f, ops1, ops2, ScopePop, base, t, r.ctx);
  }

  lemma {:induction false} DriveCarries<C(!new), D>(f: C -> D, ops1: Table<C>, ops2: Table<D>, slots: nat,
          tasks: seq<Task>, c: C)
    requires Carries(f, ops1, ops2)
    ensures Drive(ops2, slots, tasks, f(c)) == Carried(f, Drive(ops1, slots, tasks, c))
    decreases TotalWork(tasks)
  {
    hide Step, Carries;
    if tasks != [] {
      var base, t := tasks[..|tasks| - 1], tasks[|tasks| - 1];
      assert tasks == base + [t];
      StepDecreases(ops1, slots, base, t, c);
      StepCarries(f, ops1, ops2, slots, base, t, c);
      var m := Step(ops1, slots, base, t, c);
      if m.Running? {
        DriveCarries(f, ops1, ops2, slots, m.tasks, m.ctx);
      }
    }
  }

  /** A walk with one table inside another is the walk with the one table. */
  lemma WalkCarries<C(!new), D>(f: C -> D, ops1: Table<C>, ops2: Table<D>, slots: nat, root: Tree, c: C)
    requires Carries(f, ops1, ops2)
    ensures WalkRoot(ops2, slots, root, f(c)) == Carried(f, WalkRoot(ops1, slots, root, c))
  {
    hide PushTask, Drive, Carries;
    PushCarries(f, ops1, ops2, slots, Running([], c), Some(root), Eval);
    var m := PushTask(ops1, slots, Running([], c), Some(root), Eval);
    if m.Running? {
      DriveCarries(f, ops1, ops2, slots, m.tasks, m.ctx);
    }
  }
}
