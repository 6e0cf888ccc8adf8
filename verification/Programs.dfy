/**
 Programs as they are written: the statement rules (bootstrap/parser.c:272-318). Wherever a written
 statement, block or program stands in the token stream, the interpreter of grammar tables returns
 exactly its tree and stops right behind it.
 */
module Programs {
  import opened Basics
  import opened Tokens
  import opened Ast
  import opened Grammar
  import opened Engine
  import opened Printing
  import opened Refusals
  import PrintParse
  import ParserSafety

  /** A written statement. The arms of an `if` are one statement behind `then`, or braced blocks. */
  datatype Written =
    | EchoOf(expr: Cst)
    | DefineOf(name: string, expr: Cst)
    | AssignTo(name: string, expr: Cst)
    | IfThen(cond: Cst, arm: Written)
    | IfBlock(cond: Cst, body: seq<Written>)
    | IfBlocks(cond: Cst, body: seq<Written>, others: seq<Written>)

  predicate IsIf(s: Written) {
    s.IfThen? || s.IfBlock? || s.IfBlocks?
  }

  // ----- where statements stand -----

  /** The tree that stands somewhere, the position behind it, and how deep the rules recurse to read it. */
  datatype Place = Place(tree: Tree, end: nat, room: nat)

  datatype Tail = Tail(cond: Tree, thenArm: Tree, elseArm: Option<Tree>, end: nat, room: nat)

  datatype Places = Places(trees: seq<Tree>, end: nat, room: nat)

  /** What a rule makes of what stands there: it is read, or the limit leaves no room for it. */
  function Within(depth: nat, room: nat, v: Arg, end: nat): Outcome {
    if depth + room <= MAX_PARSE_DEPTH then Reduced(v, end) else TooDeep
  }

  /** Newlines may stand before and between the tokens of an expression. */
  function ExprPlace(toks: Stream, pos: nat, e: Cst): (p: Option<Place>)
    ensures p.Some? ==> p.value.room >= 4
  {
    if IsAt(PRIME, e) && Reads(toks, pos, Print(e))
    then Some(Place(Built(toks, pos, e), End(toks, pos, e), Room(e))) else None
  }

  /** A statement begins right here, and so does the `:=` or `=` behind its name. */
  function StmtPlace(toks: Stream, pos: nat, s: Written): (r: Option<Place>)
    ensures r.Some? ==> r.value.room >= 5
    decreases s, 2
  {
    match s
    case EchoOf(e) =>
      if KindAt(toks, pos) != TokEcho then None
      else
        var p :- ExprPlace(toks, pos + 1, e);
        Some(Place(Echo(pos, p.tree), p.end, 1 + p.room))
    case DefineOf(name, e) =>
      if KindAt(toks, pos) != TokId || TextAt(toks, pos) != name || KindAt(toks, pos + 1) != TokDefine then None
      else
        var p :- ExprPlace(toks, pos + 2, e);
        Some(Place(Define(pos + 1, Id(pos, name), p.tree), p.end, 1 + p.room))
    case AssignTo(name, e) =>
      if KindAt(toks, pos) != TokId || TextAt(toks, pos) != name || KindAt(toks, pos + 1) != TokAssign then None
      else
        var p :- ExprPlace(toks, pos + 2, e);
        Some(Place(Assign(pos + 1, Id(pos, name), p.tree), p.end, 1 + p.room))
    case _ =>
      if KindAt(toks, pos) != TokIf then None
      else
        var t :- TailPlace(toks, pos + 1, s);
        Some(Place(IfStmt(pos, t.cond, t.thenArm, t.elseArm), t.end, 1 + t.room))
  }

  /** Behind `then`, a statement is tried as an expression first: a condition goes through all levels then. */
  function ArmRoom(arm: Written, room: nat): nat {
    if IsIf(arm) then 3 + room else room
  }

  /**
   What stands behind an `if`. A statement stands right behind its `then`; braces and `else` may stand on
   new lines.
   */
  function TailPlace(toks: Stream, pos: nat, s: Written): (r: Option<Tail>)
    requires IsIf(s)
    ensures r.Some? ==> r.value.room >= 5
    decreases s, 1
  {
    match s
    case IfThen(c, arm) =>
      var p :- ExprPlace(toks, pos, c);
      var q := NextSolid(toks, p.end);
      if KindAt(toks, q) != TokThen then None
      else
        var a :- StmtPlace(toks, q + 1, arm);
        Some(Tail(p.tree, a.tree, None, a.end, 1 + Max(p.room, ArmRoom(arm, a.room))))
    case IfBlock(c, body) =>
      var p :- ExprPlace(toks, pos, c);
      var a :- BracePlace(toks, p.end, body);
      Some(Tail(p.tree, a.tree, None, a.end, 1 + Max(p.room, a.room)))
    case IfBlocks(c, body, others) =>
      var p :- ExprPlace(toks, pos, c);
      var a :- BracePlace(toks, p.end, body);
      var q := NextSolid(toks, a.end);
      if KindAt(toks, q) != TokElse then None
      else
        var b :- BracePlace(toks, q + 1, others);
        Some(Tail(p.tree, a.tree, Some(b.tree), b.end, 1 + Max(p.room, Max(a.room, b.room))))
  }

  function BracePlace(toks: Stream, pos: nat, b: seq<Written>): Option<Place>
    decreases b, 3
  {
    var q := NextSolid(toks, pos);
    if KindAt(toks, q) != TokLBrace then None
    else
      var p :- BlockPlace(toks, q + 1, b);
      if KindAt(toks, p.end) == TokRBrace then Some(Place(p.tree, p.end + 1, 1 + p.room)) else None
  }

  /** Any separators may stand around the statements of a block. */
  function BlockPlace(toks: Stream, pos: nat, b: seq<Written>): (r: Option<Place>)
    ensures r.Some? ==> r.value.room >= 7
    decreases b, 2
  {
    var l :- ListPlace(toks, SepsEnd(toks, pos), b);
    Some(Place(Block(0, l.trees), SepsEnd(toks, l.end), 1 + l.room))
  }

  function ListPlace(toks: Stream, pos: nat, b: seq<Written>): (r: Option<Places>)
    ensures r.Some? ==> r.value.room >= 6
    decreases b, 1
  {
    if b == [] then Some(Places([], pos, 6))
    else
      var p :- StmtPlace(toks, pos, b[0]);
      var r :- RestPlace(toks, p.end, b[1..]);
      Some(Places([p.tree] + r.trees, r.end, 1 + Max(p.room, r.room)))
  }

  /**
   One separator or more stand before every statement but the first. Separators behind the last
   statement make the parser look for one more, and that takes room as well.
   */
  function RestPlace(toks: Stream, pos: nat, b: seq<Written>): Option<Places>
    decreases b, 0
  {
    if b == [] then Some(Places([], pos, if IsSep(KindAt(toks, pos)) then 6 else 3))
    else if !IsSep(KindAt(toks, pos)) then None
    else
      var p :- StmtPlace(toks, SepsEnd(toks, pos), b[0]);
      var r :- RestPlace(toks, p.end, b[1..]);
      Some(Places([p.tree] + r.trees, r.end, Max(1 + p.room, r.room)))
  }

  /** The next significant token neither continues an expression nor opens another arm. */
  predicate Follows(toks: Stream, pos: nat) {
    var k := KindAt(toks, NextSolid(toks, pos));
    !IsArithmetic(k) && k != TokElse
  }

  // ----- how deep the rules recurse, with no separators behind the last statement of a block -----

  /** Room for a statement at the rule `stmt`. */
  function StmtRoom(s: Written): nat
    decreases s, 2
  {
    match s
    case EchoOf(e) => 1 + Room(e)
    case DefineOf(_, e) => 1 + Room(e)
    case AssignTo(_, e) => 1 + Room(e)
    case _ => 1 + TailRoom(s)
  }

  /** Room for what is behind an `if`. */
  function TailRoom(s: Written): nat
    requires IsIf(s)
    decreases s, 1
  {
    match s
    case IfThen(c, arm) => 1 + Max(Room(c), ArmRoom(arm, StmtRoom(arm)))
    case IfBlock(c, body) => 1 + Max(Room(c), 1 + BlockRoom(body))
    case IfBlocks(c, body, others) => 1 + Max(Room(c), Max(1 + BlockRoom(body), 1 + BlockRoom(others)))
  }

  function BlockRoom(b: seq<Written>): nat
    decreases b, 1
  {
    if b == [] then 7 else 2 + Max(StmtRoom(b[0]), RestRoom(b[1..]))
  }

  function RestRoom(b: seq<Written>): nat
    decreases b, 0
  {
    if b == [] then 3 else Max(1 + StmtRoom(b[0]), RestRoom(b[1..]))
  }
}
