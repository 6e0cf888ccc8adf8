/**
 The walker as a machine (bootstrap/walker.c): an array of tasks in place, and the header of the machine
 that it runs, through which every operation of the walk is called. The header stands for the pointer that
 the source passes around: one of the four machines with its table of operations.
 */
module WalkerMachine {
  import opened Basics
  import opened Ast
  import opened W = Walker
  import opened Exec
  import opened Checker
  import opened CheckerMachine
  import opened Dump
  import opened Free
  import opened FreeMachine

  datatype Header =
    | ForExec(em: ExecMachine)
    | ForCheck(ch: TypeChecker)
    | ForDump(dmp: AstDump)
    | ForFree(fr: AstFree)

  /** What a machine's fields hold. */
  datatype Context =
    | OfExec(exec: ExecState)
    | OfCheck(check: CheckState)
    | OfDump(dump: DumpState)
    | OfFree(released: Released)

  /** The four tables as one. */
  function AnyOps(op: Op, node: Option<Tree>, c: Context): Outcome<Context> {
    match c
    case OfExec(s) => Carried(ToExec, ExecOps(op, node, s))
    case OfCheck(s) => Carried(ToCheck, CheckOps(op, node, s))
    case OfDump(s) => Carried(ToDump, DumpOps(op, node, s))
    case OfFree(s) => Carried(ToFree, FreeOps(op, node, s))
  }

  function ToExec(s: ExecState): Context {
    OfExec(s)
  }

  function ToCheck(s: CheckState): Context {
    OfCheck(s)
  }

  function ToDump(s: DumpState): Context {
    OfDump(s)
  }

  function ToFree(s: Released): Context {
    OfFree(s)
  }

  /** A walk over one of the machines is the walk with its own table. */
  lemma AnyWalkIs(slots: nat, root: Tree)
    ensures forall s ::
      WalkRoot(AnyOps, slots, root, OfExec(s)) == Carried(ToExec, WalkRoot(ExecOps, slots, root, s))
    ensures forall s ::
      WalkRoot(AnyOps, slots, root, OfCheck(s)) == Carried(ToCheck, WalkRoot(CheckOps, slots, root, s))
    ensures forall s ::
      WalkRoot(AnyOps, slots, root, OfDump(s)) == Carried(ToDump, WalkRoot(DumpOps, slots, root, s))
    ensures forall s ::
      WalkRoot(AnyOps, slots, root, OfFree(s)) == Carried(ToFree, WalkRoot(FreeOps, slots, root, s))
  {
    hide WalkRoot, ExecOps, CheckOps, DumpOps, FreeOps;
    forall s
      ensures WalkRoot(AnyOps, slots, root, OfExec(s)) == Carried(ToExec, WalkRoot(ExecOps, slots, root, s))
    {
      WalkCarries(ToExec, ExecOps, AnyOps, slots, root, s);
    }
    forall s
      ensures WalkRoot(AnyOps, slots, root, OfCheck(s)) == Carried(ToCheck, WalkRoot(CheckOps, slots, root, s))
    {
      WalkCarries(ToCheck, CheckOps, AnyOps, slots, root, s);
    }
    forall s
      ensures WalkRoot(AnyOps, slots, root, OfDump(s)) == Carried(ToDump, WalkRoot(DumpOps, slots, root, s))
    {
      WalkCarries(ToDump, DumpOps, AnyOps, slots, root, s);
    }
    forall s
      ensures WalkRoot(AnyOps, slots, root, OfFree(s)) == Carried(ToFree, WalkRoot(FreeOps, slots, root, s))
    {
      WalkCarries(ToFree, FreeOps, AnyOps, slots, root, s);
    }
  }

  ghost function Footprint(h: Header): set<object> {
    match h
    case ForExec(em) => {em, em.stack}
    case ForCheck(ch) => {ch}
    case ForDump(dmp) => {dmp}
    case ForFree(fr) => {fr}
  }

  ghost predicate ValidHeader(h: Header)
    reads Footprint(h)
  {
    h.ForExec? ==> h.em.Valid()
  }

  ghost function Holds(h: Header): Context
    reads Footprint(h)
    requires ValidHeader(h)
  {
    match h
    case ForExec(em) => OfExec(em.State())
    case ForCheck(ch) => OfCheck(ch.State())
    case ForDump(dmp) => OfDump(dmp.State())
    case ForFree(fr) => OfFree(fr.released)
  }

  /** Calls an operation of the machine's table. */
  method CallHeader(h: Header, op: Op, node: Option<Tree>) returns (yes: bool, fault: Option<Fault>)
    requires ValidHeader(h)
    modifies Footprint(h)
    ensures ValidHeader(h)
    ensures
      var r := AnyOps(op, node, old(Holds(h)));
      Holds(h) == r.ctx && (if r.Go? then fault == None && yes == r.yes else fault == Some(r.fault))
  {
    hide ExecOps, CheckOps, DumpOps, FreeOps;
    match h {
      case ForExec(em) => yes, fault := em.Apply(op, node);
      case ForCheck(ch) => yes, fault := ch.Apply(op, node);
      case ForDump(dmp) => yes, fault := dmp.Apply(op, node);
      case ForFree(fr) => yes, fault := fr.Apply(op, node);
    }
  }

  /** The walker object: a fixed array of task slots, filled up to `offset`, over a machine. */
  class Walker {
    const header: Header
    const tasks: array<Task>
    var offset: nat
    var corrupted: bool
    var fault: Option<Fault>

    ghost predicate Valid()
      reads this, tasks, Footprint(header)
    {
      && this !in Footprint(header) && tasks !in Footprint(header)
      && ValidHeader(header)
      && offset <= tasks.Length && (fault.Some? ==> corrupted)
    }

    ghost function Ctx(): Context
      reads this, tasks, Footprint(header)
      requires Valid()
    {
      Holds(header)
    }

    ghost function State(): Machine<Context>
      reads this, tasks, Footprint(header)
      requires Valid()
    {
      if fault.Some? then Halted(Ctx(), fault.value) else Running(tasks[..offset], Ctx())
    }

    constructor (header: Header, maxStackSize: nat)
      requires maxStackSize > 0 && ValidHeader(header)
      ensures Valid() && fresh(tasks) && tasks.Length == maxStackSize && offset == 0
      ensures this.header == header && !corrupted && Ctx() == old(Holds(header)) && State() == Running([], Ctx())
    {
      this.header := header;
      tasks := new Task[maxStackSize](_ => Task(None, Eval, 0));
      offset := 0;
      corrupted := false;
      fault := None;
    }

    /** Calls an operation of the machine; a fault ends the run, as the longjmp does. */
    method Call(op: Op, node: Option<Tree>) returns (yes: bool)
      requires Valid() && fault.None?
      modifies this`corrupted, this`fault, Footprint(header)
      ensures Valid() && offset == old(offset)
      ensures
        var r := AnyOps(op, node, old(Ctx()));
        Ctx() == r.ctx && (if r.Go? then fault == None && yes == r.yes else fault == Some(r.fault) && !yes)
    {
      hide AnyOps;
      var f;
      yes, f := CallHeader(header, op, node);
      if f.Some? {
        fault, corrupted, yes := f, true, false;
      }
    }

    method Push(node: Option<Tree>, mode: Mode)
      requires Valid()
      modifies this, tasks, Footprint(header)
      ensures Valid()
      ensures State() == PushTask(AnyOps, tasks.Length, old(State()), node, mode)
    {
      if fault.Some? {
        return;
      }
      if offset >= tasks.Length {
        fault, corrupted := Some(TaskOverflow), true;
        return;
      }
      tasks[offset] := Task(node, mode, 0);
      offset := offset + 1;
      assert tasks[..offset] == old(tasks[..offset]) + [Task(node, mode, 0)];
      var _ := Call(Enter, node);
    }

    method Pop()
      requires Valid() && fault.None? && offset > 0
      modifies this, Footprint(header)
      ensures Valid()
      ensures State() == PopTask(AnyOps, old(tasks[..offset - 1]), old(tasks[offset - 1]), old(Ctx()))
    {
      offset := offset - 1;
      var _ := Call(Leave, tasks[offset].node);
    }

    method CallThenPop(op: Op)
      requires Valid() && fault.None? && offset > 0
      modifies this, Footprint(header)
      ensures Valid()
      ensures State() == ApplyThenPop(AnyOps, op, old(tasks[..offset - 1]), old(tasks[offset - 1]), old(Ctx()))
    {
      var _ := Call(op, tasks[offset - 1].node);
      if fault.None? {
        Pop();
      }
    }

    method PushChosen(thenArm: Tree, elseArm: Option<Tree>)
      requires Valid() && fault.None?
      modifies this, tasks, Footprint(header)
      ensures Valid()
      ensures
        var d1 := AnyOps(DecideThen, None, old(Ctx()));
        if d1.Stop? then State() == Halted(d1.ctx, d1.fault)
        else
          var d2 := AnyOps(DecideElse, None, d1.ctx);
          if d2.Stop? then State() == Halted(d2.ctx, d2.fault)
          else
            var m := Running(old(tasks[..offset]), d2.ctx);
            State() == PushArms(AnyOps, tasks.Length, m, thenArm, elseArm, d1.yes, d2.yes)
    {
      var doThen := Call(DecideThen, None);
      if fault.Some? {
        return;
      }
      var doElse := Call(DecideElse, None);
      if fault.Some? {
        return;
      }
      if doElse {
        Push(elseArm, Eval);
      }
      if doThen {
        Push(Some(thenArm), Eval);
      }
    }

    /** One iteration of the loop. */
    method Iterate()
      requires Valid() && fault.None? && offset > 0
      modifies this, tasks, Footprint(header)
      ensures Valid()
      ensures State() == Step(AnyOps, tasks.Length, old(tasks[..offset - 1]), old(tasks[offset - 1]), old(Ctx()))
    {
      hide AnyOps, Perform, Footprint, Holds;
      var t := tasks[offset - 1];
      if t.node.None? {
        Pop();
        return;
      }
      var _ := Call(Load, t.node);
      if fault.Some? {
        return;
      }
      PerformAction(t, ActionOf(t.node.value, t.mode, t.phase));
    }

    method PerformAction(t: Task, action: Action)
      requires Valid() && fault.None? && offset > 0 && t == tasks[offset - 1] && t.node.Some?
      modifies this, tasks, Footprint(header)
      ensures Valid()
      ensures State() == Perform(AnyOps, tasks.Length, old(tasks[..offset - 1]), t, action, old(Ctx()))
    {
      hide AnyOps, Footprint, Holds, PushTask, ApplyThenPop, PushArms;
      if action.Finish? {
        CallThenPop(action.op);
        return;
      }
      if action.CloseBlock? || action.NextStmt? {
        if action.open {
          var _ := Call(ScopePush, None);
          if fault.Some? {
            return;
          }
        }
        if action.CloseBlock? {
          CallThenPop(ScopePop);
          return;
        }
      }
      tasks[offset - 1] := t.(phase := t.phase + 1);
      assert tasks[..offset] == old(tasks[..offset - 1]) + [t.(phase := t.phase + 1)];
      match action {
        case Descend(child, mode) => Push(child, mode);
        case NextStmt(stmt, _) => Push(Some(stmt), Eval);
        case Apply(op) => var _ := Call(op, t.node);
        case Arms(th, el) => PushChosen(th, el);
        case Reject => fault, corrupted := Some(UnknownReference), true;
      }
    }

    /** walker_run. */
    method WalkerRun(root: Tree) returns (success: bool)
      requires Valid() && offset == 0
      modifies this, tasks, Footprint(header)
      ensures Valid()
      ensures old(corrupted) ==> !success && Ctx() == old(Ctx())
      ensures
        !old(corrupted) ==>
          var r := WalkRoot(AnyOps, tasks.Length, root, old(Ctx()));
          Ctx() == r.ctx && success == r.Go? && (r.Stop? ==> corrupted && fault == Some(r.fault))
      ensures
        !old(corrupted) && tasks.Length >= 2 * Height(root) - 1 ==>
          var r := EnterAndTraverse(AnyOps, Some(root), Eval, old(Ctx()));
          Ctx() == r.ctx && success == r.Go? && (r.Stop? ==> fault == Some(r.fault))
    {
      if corrupted {
        return false;
      }
      ghost var r := WalkRoot(AnyOps, tasks.Length, root, Ctx());
      if tasks.Length >= 2 * Height(root) - 1 {
        WalkIsTraversal(AnyOps, tasks.Length, root, Ctx());
      }
      Push(Some(root), Eval);
      while offset > 0 && fault.None?
        invariant Valid()
        invariant Outcomes(AnyOps, tasks.Length, State()) == r
        decreases fault.None?, TotalWork(tasks[..offset])
      {
        assert tasks[..offset] == tasks[..offset - 1] + [tasks[offset - 1]];
        DriveStep(AnyOps, tasks.Length, tasks[..offset - 1], tasks[offset - 1], Ctx());
        StepDecreases(AnyOps, tasks.Length, tasks[..offset - 1], tasks[offset - 1], Ctx());
        Iterate();
      }
      success := fault.None?;
    }
  }
}
