/**
 Reading a dump back: the lines of the tree printer (bootstrap/ast-dump.c:86-263) determine the tree that was
 printed, and nothing else is lost than where its tokens stood.
 */
module DumpReads {
  import opened Basics
  import opened Tokens
  import opened Ast
  import opened Dump
  import opened RoundTrip

  /** A literal's text tells its kind, as it does for every literal that the lexer finds. */
  predicate KindsFit(n: Tree)
    decreases n, 1
  {
    match n
    case Value(_, k, text) => k == BoolValue <==> text == "true" || text == "false"
    case Id(_, _) => true
    case Expr(_, _, l, r) => KindsFit(l) && KindsFit(r)
    case UExpr(_, _, e) => KindsFit(e)
    case IfExpr(_, c, t, e) => KindsFit(c) && KindsFit(t) && (e.Some? ==> KindsFit(e.value))
    case IfStmt(_, c, t, e) => KindsFit(c) && KindsFit(t) && (e.Some? ==> KindsFit(e.value))
    case Echo(_, e) => KindsFit(e)
    case Define(_, i, e) => KindsFit(e)
    case Assign(_, l, e) => KindsFit(e)
    case Block(_, ss) => AllKindsFit(ss)
  }

  predicate AllKindsFit(ss: seq<Tree>)
    decreases ss, 0
  {
    ss == [] || (KindsFit(ss[0]) && AllKindsFit(ss[1..]))
  }

  /** What is printed next stands no deeper than this. */
  predicate Back(u: Chain, depth: int) {
    u == [] || u[0].indent <= depth
  }

  // ----- the first line -----

  /** A node's first line, at its depth. */
  function Title(n: Tree): string
    requires Printable(n)
  {
    match n
    case Value(_, _, text) => "val " + text
    case Id(_, name) => "id " + name
    case Expr(_, op, _, _) => Symbol(op).value
    case UExpr(_, _, _) => "uexpr -"
    case IfExpr(_, _, _, _) => "expr if"
    case IfStmt(_, _, _, _) => "stmt if"
    case Echo(_, _) => "stmt echo"
    case Define(_, _, _) => "stmt :="
    case Assign(_, _, _) => "stmt ="
    case Block(_, _) => "block"
  }

  /** The lines behind the first. */
  function Body(n: Tree, d: int): Chain
    requires Printable(n)
  {
    match n
    case Value(_, _, _) => []
    case Id(_, _) => []
    case Expr(_, _, l, r) => Show(l, d + 1) + Show(r, d + 1)
    case UExpr(_, _, e) => Show(e, d + 1)
    case Echo(_, e) => Show(e, d + 1)
    case Define(_, i, e) => [Line(d + 1, "id " + i.name)] + Show(e, d + 1)
    case Assign(_, l, e) => [Line(d + 1, "id " + l.name)] + Show(e, d + 1)
    case IfExpr(_, c, t, e) => IfBody(c, t, e, d)
    case IfStmt(_, c, t, e) => IfBody(c, t, e, d)
    case Block(_, ss) => ShowAll(ss, d + 1)
  }

  function IfBody(c: Tree, t: Tree, e: Option<Tree>, d: int): Chain
    requires Printable(c) && Printable(t) && (e.Some? ==> Printable(e.value))
  {
    [Line(d + 1, "cond")] + (Show(c, d + 2) + ([Line(d + 1, "then")] + (Show(t, d + 2) + ElseBody(e, d))))
  }

  function ElseBody(e: Option<Tree>, d: int): Chain
    requires e.Some? ==> Printable(e.value)
  {
    if e.Some? then [Line(d + 1, "else")] + Show(e.value, d + 2) else []
  }

  lemma ShowIs(n: Tree, d: int)
    requires Printable(n)
    ensures Show(n, d) == [Line(d, Title(n))] + Body(n, d)
  {
    match n
    case IfExpr(_, c, t, e) => IfIs("expr if", c, t, e, d);
    case IfStmt(_, c, t, e) => IfIs("stmt if", c, t, e, d);
    case _ =>
  }

  lemma IfIs(title: string, c: Tree, t: Tree, e: Option<Tree>, d: int)
    requires Printable(c) && Printable(t) && (e.Some? ==> Printable(e.value))
    ensures
      IfText(d, title, Show(c, d + 2), Show(t, d + 2), if e.Some? then Some(Show(e.value, d + 2)) else None) ==
      [Line(d, title)] + IfBody(c, t, e, d)
  {
  }

  /** The lines of the operators. */
  lemma OperatorLines(n: Tree, d: int)
    requires Printable(n) && Show(n, d) != []
    ensures n.Expr? && n.op == TokPlus ==> Show(n, d)[0] == Line(d, "expr +")
    ensures n.Expr? && n.op == TokMinus ==> Show(n, d)[0] == Line(d, "expr -")
    ensures n.Expr? && n.op == TokStar ==> Show(n, d)[0] == Line(d, "expr *")
    ensures n.Expr? && n.op == TokSlash ==> Show(n, d)[0] == Line(d, "expr /")
    ensures n.UExpr? ==> Show(n, d)[0] == Line(d, "uexpr -")
  {
    ShowIs(n, d);
  }

  /** The characters of a title that tell the nodes apart. */
  function Mark(title: string): (char, char)
    requires |title| >= 3
  {
    (title[0], if |title| > 5 then title[5] else ' ')
  }

  /** The first line tells which node it is of, with its operator, name or text. */
  lemma TitleTells(n: Tree, m: Tree)
    requires Printable(n) && Printable(m) && Title(n) == Title(m)
    ensures n.Value? <==> m.Value?
    ensures n.Id? <==> m.Id?
    ensures n.Expr? <==> m.Expr?
    ensures n.UExpr? <==> m.UExpr?
    ensures n.IfExpr? <==> m.IfExpr?
    ensures n.IfStmt? <==> m.IfStmt?
    ensures n.Echo? <==> m.Echo?
    ensures n.Define? <==> m.Define?
    ensures n.Assign? <==> m.Assign?
    ensures n.Block? <==> m.Block?
    ensures n.Value? ==> n.text == m.text
    ensures n.Id? ==> n.name == m.name
    ensures n.Expr? ==> n.op == m.op
  {
    MarkIs(n);
    MarkIs(m);
    if n.Value? && m.Value? {
      assert ("val " + n.text)[4..] == n.text && ("val " + m.text)[4..] == m.text;
    }
    if n.Id? && m.Id? {
      assert ("id " + n.name)[3..] == n.name && ("id " + m.name)[3..] == m.name;
    }
  }

  lemma MarkIs(n: Tree)
    requires Printable(n)
    ensures |Title(n)| >= 3
    ensures n.Value? <==> Title(n)[0] == 'v'
    ensures n.Id? <==> Title(n)[0] == 'i'
    ensures n.UExpr? <==> Title(n)[0] == 'u'
    ensures n.Block? <==> Title(n)[0] == 'b'
    ensures n.Expr? || n.IfExpr? <==> Title(n)[0] == 'e'
    ensures n.IfStmt? || n.Echo? || n.Define? || n.Assign? <==> Title(n)[0] == 's'
    ensures n.Expr? ==>
      Mark(Title(n)).1 == match n.op
                          case TokPlus => '+'
                          case TokMinus => '-'
                          case TokStar => '*'
                          case _ => '/'
    ensures n.IfExpr? || n.IfStmt? ==> Mark(Title(n)).1 == 'i'
    ensures n.Echo? ==> Mark(Title(n)).1 == 'e'
    ensures n.Define? ==> Mark(Title(n)).1 == ':'
    ensures n.Assign? ==> Mark(Title(n)).1 == '='
  {
  }

  lemma Heads(a: Line, x: Chain, b: Line, y: Chain)
    requires [a] + x == [b] + y
    ensures a == b && x == y
  {
    assert ([a] + x)[0] == a && ([b] + y)[0] == b;
    assert ([a] + x)[1..] == x && ([b] + y)[1..] == y;
  }

  lemma Apart(x: Chain, y: Chain, z: Chain)
    ensures x + y + z == x + (y + z)
  {
  }

  /** A printed tree begins at its depth. */
  lemma BeginsAt(n: Tree, d: int, u: Chain)
    requires Printable(n)
    ensures (Show(n, d) + u) != [] && (Show(n, d) + u)[0].indent == d
  {
    ShowIs(n, d);
  }

  // ----- reading back -----

  /** Of two trees with the same lines, whatever stands behind them no deeper, both the trees and the rests agree. */
  lemma {:induction false} ReadsBack(n: Tree, m: Tree, d: int, u: Chain, v: Chain)
    requires Printable(n) && Printable(m) && KindsFit(n) && KindsFit(m)
    requires Show(n, d) + u == Show(m, d) + v && Back(u, d) && Back(v, d)
    ensures Bare(n) == Bare(m) && u == v
    decreases n, 2
  {
    hide Show, ShowAll, Title, Body, IfBody, KindsFit;
    ShowIs(n, d);
    ShowIs(m, d);
    Apart([Line(d, Title(n))], Body(n, d), u);
    Apart([Line(d, Title(m))], Body(m, d), v);
    Heads(Line(d, Title(n)), Body(n, d) + u, Line(d, Title(m)), Body(m, d) + v);
    TitleTells(n, m);
    BodiesReadBack(n, m, d, u, v);
  }

  /** The two nodes are of one kind, with the same operator, name or text. */
  predicate Alike(n: Tree, m: Tree) {
    match n
    case Value(_, _, text) => m.Value? && m.text == text
    case Id(_, name) => m.Id? && m.name == name
    case Expr(_, op, _, _) => m.Expr? && m.op == op
    case UExpr(_, _, _) => m.UExpr?
    case IfExpr(_, _, _, _) => m.IfExpr?
    case IfStmt(_, _, _, _) => m.IfStmt?
    case Echo(_, _) => m.Echo?
    case Define(_, _, _) => m.Define?
    case Assign(_, _, _) => m.Assign?
    case Block(_, _) => m.Block?
  }

  lemma {:induction false} BodiesReadBack(n: Tree, m: Tree, d: int, u: Chain, v: Chain)
    requires Printable(n) && Printable(m) && KindsFit(n) && KindsFit(m) && Alike(n, m)
    requires Body(n, d) + u == Body(m, d) + v && Back(u, d) && Back(v, d)
    ensures Bare(n) == Bare(m) && u == v
    decreases n, 1
  {
    hide Show, ShowAll;
    match n
    case Value(_, _, _) =>
      assert [] + u == u && [] + v == v;
    case Id(_, _) =>
      assert [] + u == u && [] + v == v;
    case Expr(_, _, l, r) =>
      Apart(Show(l, d + 1), Show(r, d + 1), u);
      Apart(Show(m.op1, d + 1), Show(m.op2, d + 1), v);
      BeginsAt(r, d + 1, u);
      BeginsAt(m.op2, d + 1, v);
      ReadsBack(l, m.op1, d + 1, Show(r, d + 1) + u, Show(m.op2, d + 1) + v);
      ReadsBack(r, m.op2, d + 1, u, v);
    case UExpr(_, _, e) => ReadsBack(e, m.operand, d + 1, u, v);
    case Echo(_, e) => ReadsBack(e, m.expr, d + 1, u, v);
    case Define(_, i, e) => NamedReadsBack(i, e, m.id, m.expr, d, u, v);
    case Assign(_, l, e) => NamedReadsBack(l, e, m.lexpr, m.expr, d, u, v);
    case IfExpr(_, _, _, _) => IfReadsBack(n, m, d, u, v);
    case IfStmt(_, _, _, _) => IfReadsBack(n, m, d, u, v);
    case Block(_, ss) => AllReadBack(ss, m.stmts, d, u, v);
  }

  lemma {:induction false} NamedReadsBack(i: Tree, e: Tree, j: Tree, f: Tree, d: int, u: Chain, v: Chain)
    requires i.Id? && j.Id? && Printable(e) && Printable(f) && KindsFit(e) && KindsFit(f)
    requires
      [Line(d + 1, "id " + i.name)] + Show(e, d + 1) + u == [Line(d + 1, "id " + j.name)] + Show(f, d + 1) + v
    requires Back(u, d) && Back(v, d)
    ensures Bare(i) == Bare(j) && Bare(e) == Bare(f) && u == v
    decreases e, 3
  {
    hide Show, KindsFit;
    var (a, b) := (Line(d + 1, "id " + i.name), Line(d + 1, "id " + j.name));
    Apart([a], Show(e, d + 1), u);
    Apart([b], Show(f, d + 1), v);
    Heads(a, Show(e, d + 1) + u, b, Show(f, d + 1) + v);
    assert ("id " + i.name)[3..] == i.name && ("id " + j.name)[3..] == j.name;
    ReadsBack(e, f, d + 1, u, v);
  }

  lemma {:induction false} IfReadsBack(n: Tree, m: Tree, d: int, u: Chain, v: Chain)
    requires Printable(n) && Printable(m) && KindsFit(n) && KindsFit(m)
    requires (n.IfExpr? && m.IfExpr?) || (n.IfStmt? && m.IfStmt?)
    requires Body(n, d) + u == Body(m, d) + v && Back(u, d) && Back(v, d)
    ensures Bare(n) == Bare(m) && u == v
    decreases n, 0
  {
    var (c, t, e) := (n.cond, n.thenArm, n.elseArm);
    var (c1, t1, e1) := (m.cond, m.thenArm, m.elseArm);
    var (k, th) := (Line(d + 1, "cond"), Line(d + 1, "then"));
    IfPieces(c, t, e, d, u);
    IfPieces(c1, t1, e1, d, v);
    hide Show, IfBody;
    var (x, y) := (ElseBody(e, d) + u, ElseBody(e1, d) + v);
    Heads(k, Show(c, d + 2) + ([th] + (Show(t, d + 2) + x)), k, Show(c1, d + 2) + ([th] + (Show(t1, d + 2) + y)));
    ReadsBack(c, c1, d + 2, [th] + (Show(t, d + 2) + x), [th] + (Show(t1, d + 2) + y));
    Heads(th, Show(t, d + 2) + x, th, Show(t1, d + 2) + y);
    ReadsBack(t, t1, d + 2, x, y);
    ElseReadsBack(e, e1, d, u, v);
  }

  lemma IfPieces(c: Tree, t: Tree, e: Option<Tree>, d: int, u: Chain)
    requires Printable(c) && Printable(t) && (e.Some? ==> Printable(e.value))
    ensures
      IfBody(c, t, e, d) + u ==
      [Line(d + 1, "cond")] + (Show(c, d + 2) + ([Line(d + 1, "then")] + (Show(t, d + 2) + (ElseBody(e, d) + u))))
  {
    hide Show, ElseBody, Printable;
  }

  lemma {:induction false} ElseReadsBack(e: Option<Tree>, e1: Option<Tree>, d: int, u: Chain, v: Chain)
    requires e.Some? ==> Printable(e.value) && KindsFit(e.value)
    requires e1.Some? ==> Printable(e1.value) && KindsFit(e1.value)
    requires ElseBody(e, d) + u == ElseBody(e1, d) + v && Back(u, d) && Back(v, d)
    ensures u == v && if e.Some? then e1.Some? && Bare(e.value) == Bare(e1.value) else e1.None?
    decreases e, 3
  {
    hide Show, KindsFit, Bare, Printable;
    var k := Line(d + 1, "else");
    assert [] + u == u && [] + v == v;
    if e.Some? && e1.Some? {
      Apart([k], Show(e.value, d + 2), u);
      Apart([k], Show(e1.value, d + 2), v);
      Heads(k, Show(e.value, d + 2) + u, k, Show(e1.value, d + 2) + v);
      ReadsBack(e.value, e1.value, d + 2, u, v);
    }
  }

  lemma {:induction false} AllReadBack(ss: seq<Tree>, tt: seq<Tree>, d: int, u: Chain, v: Chain)
    requires AllPrintable(ss) && AllPrintable(tt) && AllKindsFit(ss) && AllKindsFit(tt)
    requires ShowAll(ss, d + 1) + u == ShowAll(tt, d + 1) + v && Back(u, d) && Back(v, d)
    ensures u == v && |ss| == |tt| && forall i :: 0 <= i < |ss| ==> Bare(ss[i]) == Bare(tt[i])
    decreases ss, 0
  {
    hide Show, Bare, Printable, KindsFit;
    assert [] + u == u && [] + v == v;
    if ss != [] {
      Apart(Show(ss[0], d + 1), ShowAll(ss[1..], d + 1), u);
      BeginsAt(ss[0], d + 1, ShowAll(ss[1..], d + 1) + u);
      RestBack(ss[1..], d, u);
    }
    if tt != [] {
      Apart(Show(tt[0], d + 1), ShowAll(tt[1..], d + 1), v);
      BeginsAt(tt[0], d + 1, ShowAll(tt[1..], d + 1) + v);
      RestBack(tt[1..], d, v);
    }
    if ss != [] && tt != [] {
      ReadsBack(ss[0], tt[0], d + 1, ShowAll(ss[1..], d + 1) + u, ShowAll(tt[1..], d + 1) + v);
      AllReadBack(ss[1..], tt[1..], d, u, v);
    }
  }

  lemma RestBack(ss: seq<Tree>, d: int, u: Chain)
    requires AllPrintable(ss) && Back(u, d)
    ensures Back(ShowAll(ss, d + 1) + u, d + 1)
  {
    hide Show, Printable;
    if ss == [] {
      assert [] + u == u;
    } else {
      Apart(Show(ss[0], d + 1), ShowAll(ss[1..], d + 1), u);
      BeginsAt(ss[0], d + 1, ShowAll(ss[1..], d + 1) + u);
    }
  }

  /** Two trees are dumped as the same lines exactly if they differ in nothing but where their tokens stood. */
  lemma DumpDetermines(n: Tree, m: Tree, d: int)
    requires Printable(n) && Printable(m) && KindsFit(n) && KindsFit(m)
    ensures Show(n, d) == Show(m, d) <==> Bare(n) == Bare(m)
  {
    hide Show, Bare;
    if Show(n, d) == Show(m, d) {
      ReadsBack(n, m, d, [], []);
    }
    if Bare(n) == Bare(m) {
      SameShows(n, m, d);
    }
  }

  lemma {:induction false} SameShows(n: Tree, m: Tree, d: int)
    requires Printable(n) && Printable(m) && Bare(n) == Bare(m)
    ensures Show(n, d) == Show(m, d)
    decreases n, 1
  {
    match n {
      case Value(_, _, _) =>
      case Id(_, _) =>
      case Expr(_, _, l, r) =>
        SameShows(l, m.op1, d + 1);
        SameShows(r, m.op2, d + 1);
      case UExpr(_, _, e) => SameShows(e, m.operand, d + 1);
      case Echo(_, e) => SameShows(e, m.expr, d + 1);
      case Define(_, _, e) => SameShows(e, m.expr, d + 1);
      case Assign(_, _, e) => SameShows(e, m.expr, d + 1);
      case IfExpr(_, c, t, e) =>
        SameShows(c, m.cond, d + 2);
        SameShows(t, m.thenArm, d + 2);
        if e.Some? {
          SameShows(e.value, m.elseArm.value, d + 2);
        }
      case IfStmt(_, c, t, e) =>
        SameShows(c, m.cond, d + 2);
        SameShows(t, m.thenArm, d + 2);
        if e.Some? {
          SameShows(e.value, m.elseArm.value, d + 2);
        }
      case Block(_, ss) =>
        var (x, y) := (Bare(n), Bare(m));
        assert |ss| == |x.stmts| == |m.stmts|;
        forall i | 0 <= i < |ss|
          ensures Bare(ss[i]) == Bare(m.stmts[i])
        {
          assert x.stmts[i] == y.stmts[i];
        }
        SameShowAll(ss, m.stmts, d + 1);
    }
  }

  lemma {:induction false} SameShowAll(ss: seq<Tree>, tt: seq<Tree>, d: int)
    requires AllPrintable(ss) && AllPrintable(tt) && |ss| == |tt|
    requires forall i :: 0 <= i < |ss| ==> Bare(ss[i]) == Bare(tt[i])
    ensures ShowAll(ss, d) == ShowAll(tt, d)
    decreases ss, 0
  {
    hide Show, Bare;
    if ss != [] {
      SameShows(ss[0], tt[0], d);
      SameShowAll(ss[1..], tt[1..], d);
    }
  }
}
