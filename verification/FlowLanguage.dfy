/**
 The programs of the older interpreter (bootstrap-olg/exec.c), as far as its control flow goes, and the
 environments they run in.
 */
module FlowLanguage {
  import opened Basics

  datatype Val =
    | VoidVal
    | IntVal(n: int)
    | BoolVal(b: bool)
    | RangeVal(span: Span)
    | ErrVal(name: string)
    | FuncVal(params: seq<string>, body: Stmt, closure: nat)

  /** A range of integers, rising or descending, with or without its last bound. */
  datatype Span = Span(lo: int, hi: int, desc: bool, incl: bool)

  datatype BinOp = Plus | Minus | Less | Equal

  datatype Expr =
    | IntLit(n: int)
    | BoolLit(b: bool)
    | Name(name: string)
    | Binary(op: BinOp, left: Expr, right: Expr)
    | RangeOf(lo: Expr, hi: Expr, desc: bool, incl: bool)
    | MakeError(name: string)
    | Unwrap(hard: bool, operand: Expr)
    | FuncExpr(params: seq<string>, body: Stmt)
    | Call(callee: Expr, args: seq<Expr>)
    | Println(operand: Expr)
    | IfThenElse(cond: Expr, thenVal: Expr, elseVal: Expr)
    | MatchOf(subject: Expr, arms: seq<Arm>)

  /** A pattern of a `match`; the name `_` matches everything. */
  datatype Pattern = NamePat(name: string) | IntPat(n: int) | BoolPat(b: bool) | GuardPat(guard: Expr)

  datatype Arm = Arm(pats: seq<Pattern>, body: Stmt)

  datatype Stmt =
    | BlockOf(stmts: seq<Stmt>)
    | ListOf(stmts: seq<Stmt>)
    | ExprStmt(expr: Expr)
    | Bare(expr: Expr)
    | Var(name: string, init: Expr)
    | Assign(name: string, expr: Expr)
    | If(cond: Expr, thenArm: Stmt, elseArm: Option<Stmt>)
    | LoopUntil(stmts: seq<Stmt>, until: Option<Expr>)
    | While(cond: Expr, body: Stmt)
    | For(name: string, init: Expr, cond: Expr, post: Option<Step>, body: Stmt)
    | In(ordinal: Option<string>, name: string, coll: Expr, body: Stmt)
    | Return(value: Option<Expr>)
    | Break(target: Option<string>)
    | Continue(target: Option<string>)
    | Labelled(name: string, stmt: Stmt)
    | Try(stmt: Stmt)
    | Region(guarded: seq<Stmt>, catchName: Option<string>, handlers: seq<Stmt>)

  /**
   The step of a counting loop as it is parsed: an assignment, or an expression. The expression is not
   wrapped in a statement; it is executed as it stands, which only a `match` or an `if` bears. So is a
   `match` that stands as a statement.
   */
  datatype Step = SetTo(name: string, value: Expr) | JustExpr(expr: Expr)

  function StepStmt(p: Step): Stmt {
    match p
    case SetTo(name, e) => Assign(name, e)
    case JustExpr(e) => Bare(e)
  }

  /** What stands at the top level of a file. */
  datatype Item = FuncDecl(name: string, params: seq<string>, body: Stmt) | Loose(stmt: Stmt)

  /** The diagnostics that end a run. */
  datatype Death =
    | RecursionLimit
    | UnknownName(name: string)
    | BadOperands
    | NotACondition
    | NotAStatement
    | NotAnExpression
    | NoArmMatches
    | NotARange
    | NotCallable
    | WrongArguments
    | Uncaught(exc: Val)

  // ----- environments: frames in an arena that only grows -----

  datatype Binding = Binding(name: string, val: Val)

  datatype Env = Env(parent: Option<nat>, bindings: seq<Binding>)

  /** The arena of frames, and what has been printed. */
  datatype World = World(envs: seq<Env>, out: seq<Val>)

  datatype Cell = Cell(env: nat, slot: nat)

  /** The last binding of a name in one frame. */
  function FindIn(bs: seq<Binding>, name: string): Option<nat> {
    if bs == [] then None
    else if bs[|bs| - 1].name == name then Some(|bs| - 1)
    else FindIn(bs[..|bs| - 1], name)
  }

  /** The cell a name resolves to: the innermost frame that binds it. A frame is younger than its parent. */
  function FindCell(envs: seq<Env>, cur: nat, name: string): Option<Cell>
    decreases cur
  {
    if cur >= |envs| then None
    else
      var at := FindIn(envs[cur].bindings, name);
      var parent := envs[cur].parent;
      if at.Some? then Some(Cell(cur, at.value))
      else if parent.Some? && parent.value < cur then FindCell(envs, parent.value, name)
      else None
  }

  predicate HasCell(w: World, c: Cell) {
    c.env < |w.envs| && c.slot < |w.envs[c.env].bindings|
  }

  function ReadCell(w: World, c: Cell): Val {
    if HasCell(w, c) then w.envs[c.env].bindings[c.slot].val else VoidVal
  }

  function WriteCell(w: World, c: Cell, v: Val): World {
    if HasCell(w, c) then
      var env := w.envs[c.env];
      var b := env.bindings[c.slot];
      w.(envs := w.envs[c.env := env.(bindings := env.bindings[c.slot := b.(val := v)])])
    else w
  }

  /** Any name is bound: what a catch and a declaration do. */
  function BindAny(w: World, cur: nat, name: string, v: Val): World {
    if cur < |w.envs| then
      var env := w.envs[cur];
      w.(envs := w.envs[cur := env.(bindings := env.bindings + [Binding(name, v)])])
    else w
  }

  /** Definitions, loops and parameters never bind the name `_`. */
  function Bind(w: World, cur: nat, name: string, v: Val): World {
    if name == "_" then w else BindAny(w, cur, name, v)
  }

  function BindOpt(w: World, cur: nat, name: Option<string>, v: Val): World {
    if name.Some? then BindAny(w, cur, name.value, v) else w
  }

  /** A new frame; its index is the old size of the arena. */
  function Push(w: World, env: Env): World {
    w.(envs := w.envs + [env])
  }

  function Params(params: seq<string>, args: seq<Val>): (bs: seq<Binding>)
    requires |params| == |args|
  {
    if params == [] then []
    else (if params[0] == "_" then [] else [Binding(params[0], args[0])]) + Params(params[1..], args[1..])
  }

  /** What one iteration over a range binds: the ordinal, whatever its name, and then the element. */
  function BindEach(w: World, cur: nat, ordinal: Option<string>, name: string, i: int): World {
    Bind(BindOpt(w, cur, ordinal, IntVal(i)), cur, name, IntVal(i))
  }

  // ----- values -----

  /** How many integers a range has. */
  function Count(s: Span): nat {
    var n := (if s.desc then s.lo - s.hi else s.hi - s.lo) + (if s.incl then 1 else 0);
    if n < 0 then 0 else n
  }

  /** The integers of a range, from its first bound on. */
  function Elements(s: Span): (els: seq<int>) {
    seq(Count(s), k requires 0 <= k < Count(s) => if s.desc then s.lo - k else s.lo + k)
  }

  /** `None` where a value is not usable as a condition. */
  function Truth(v: Val): Option<bool> {
    match v
    case BoolVal(b) => Some(b)
    case IntVal(n) => Some(n != 0)
    case ErrVal(_) => Some(false)
    case _ => None
  }

  /** `None` where the first value cannot be compared. */
  function SameVal(a: Val, b: Val): Option<bool> {
    if a.IntVal? || a.BoolVal? || a.ErrVal? then Some(a == b) else None
  }

  function ApplyOp(op: BinOp, a: Val, b: Val): Option<Val> {
    if !a.IntVal? || !b.IntVal? then None
    else
      match op
      case Plus => Some(IntVal(a.n + b.n))
      case Minus => Some(IntVal(a.n - b.n))
      case Less => Some(BoolVal(a.n < b.n))
      case Equal => Some(BoolVal(a.n == b.n))
  }
}
