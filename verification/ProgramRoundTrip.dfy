/**
 What printing and parsing keep of whole programs. In any layout a written program parses to the tree it
 means; and every program that the grammar can write at all is written so that parsing gives it back.
 */
module ProgramRoundTrip {
  import opened Basics
  import opened Tokens
  import opened Ast
  import opened Grammar
  import opened Engine
  import opened Printing
  import opened Refusals
  import opened Programs
  import opened RoundTrip
  import ParserMachine
  import ParserSafety
  import ProgramParse

  // ----- what a written program means -----

  function StmtMeaning(s: Written): BareTree
    decreases s, 0
  {
    match s
    case EchoOf(e) => Echo((), Meaning(e))
    case DefineOf(name, e) => Define((), Id((), name), Meaning(e))
    case AssignTo(name, e) => Assign((), Id((), name), Meaning(e))
    case IfThen(c, arm) => IfStmt((), Meaning(c), StmtMeaning(arm), None)
    case IfBlock(c, body) => IfStmt((), Meaning(c), BlockMeaning(body), None)
    case IfBlocks(c, body, others) => IfStmt((), Meaning(c), BlockMeaning(body), Some(BlockMeaning(others)))
  }

  function BlockMeaning(b: seq<Written>): BareTree
    decreases b, 1
  {
    Block((), seq(|b|, i requires 0 <= i < |b| => StmtMeaning(b[i])))
  }

  lemma ExprMeans(toks: Stream, pos: nat, e: Cst)
    requires ExprPlace(toks, pos, e).Some?
    ensures Bare(ExprPlace(toks, pos, e).value.tree) == Meaning(e)
  {
    hide IsAt, Reads, Built, Bare, Meaning;
    BuiltMeans(toks, pos, e);
  }

  lemma {:induction false} StmtMeans(toks: Stream, pos: nat, s: Written)
    requires StmtPlace(toks, pos, s).Some?
    ensures Bare(StmtPlace(toks, pos, s).value.tree) == StmtMeaning(s)
    decreases s, 2
  {
    hide ExprPlace, TailPlace, Meaning;
    match s
    case EchoOf(e) => ExprMeans(toks, pos + 1, e);
    case DefineOf(_, e) => ExprMeans(toks, pos + 2, e);
    case AssignTo(_, e) => ExprMeans(toks, pos + 2, e);
    case _ => TailMeans(toks, pos + 1, s);
  }

  lemma {:induction false} TailMeans(toks: Stream, pos: nat, s: Written)
    requires IsIf(s) && TailPlace(toks, pos, s).Some?
    ensures
      var t := TailPlace(toks, pos, s).value;
      StmtMeaning(s) ==
      IfStmt((), Bare(t.cond), Bare(t.thenArm), if t.elseArm.Some? then Some(Bare(t.elseArm.value)) else None)
    decreases s, 1
  {
    hide ExprPlace, StmtPlace, BracePlace, Meaning, Bare, BlockMeaning, NextSolid;
    ExprMeans(toks, pos, s.cond);
    var c := ExprPlace(toks, pos, s.cond).value;
    match s
    case IfThen(_, arm) => StmtMeans(toks, NextSolid(toks, c.end) + 1, arm);
    case IfBlock(_, body) => BraceMeans(toks, c.end, body);
    case IfBlocks(_, body, others) =>
      BraceMeans(toks, c.end, body);
      BraceMeans(toks, NextSolid(toks, BracePlace(toks, c.end, body).value.end) + 1, others);
  }

  lemma {:induction false} BraceMeans(toks: Stream, pos: nat, b: seq<Written>)
    requires BracePlace(toks, pos, b).Some?
    ensures Bare(BracePlace(toks, pos, b).value.tree) == BlockMeaning(b)
    decreases b, 3
  {
    hide BlockPlace, NextSolid, Bare, BlockMeaning;
    BlockMeans(toks, NextSolid(toks, pos) + 1, b);
  }

  lemma {:induction false} BlockMeans(toks: Stream, pos: nat, b: seq<Written>)
    requires BlockPlace(toks, pos, b).Some?
    ensures Bare(BlockPlace(toks, pos, b).value.tree) == BlockMeaning(b)
    decreases b, 2
  {
    hide StmtPlace, SepsEnd, RestPlace, StmtMeaning;
    if b != [] {
      var q := SepsEnd(toks, pos);
      var p := StmtPlace(toks, q, b[0]).value;
      StmtMeans(toks, q, b[0]);
      RestMeans(toks, p.end, b[1..]);
    }
  }

  lemma {:induction false} RestMeans(toks: Stream, pos: nat, b: seq<Written>)
    requires RestPlace(toks, pos, b).Some?
    ensures
      var trees := RestPlace(toks, pos, b).value.trees;
      |trees| == |b| && forall i :: 0 <= i < |b| ==> Bare(trees[i]) == StmtMeaning(b[i])
    decreases b, 0
  {
    hide StmtPlace, SepsEnd, StmtMeaning, Bare;
    if b != [] {
      var q := SepsEnd(toks, pos);
      StmtMeans(toks, q, b[0]);
      RestMeans(toks, StmtPlace(toks, q, b[0]).value.end, b[1..]);
    }
  }

  /**
   In any layout, a written program parses to the tree it means, up to the end of the input, exactly if
   the recursion limit leaves room for it.
   */
  lemma {:induction false} WrittenProgramParses(toks: Stream, b: seq<Written>)
    requires BlockPlace(toks, 0, b).Some? && BlockPlace(toks, 0, b).value.end == |toks|
    ensures
      var p := BlockPlace(toks, 0, b).value;
      && ParseRule(Language, toks, Prog, 0, 0) == Within(0, 1 + p.room, NodeArg(p.tree), |toks|)
      && Bare(p.tree) == BlockMeaning(b)
  {
    hide BlockPlace, ParseRule, Bare, BlockMeaning;
    BlockMeans(toks, 0, b);
    var p := BlockPlace(toks, 0, b).value;
    ProgramParse.BlockParses(Language, toks, b, 0, 1);
    ProgramParse.ProgRuns(Language, toks, 0, 0, p);
  }

  // ----- the programs that can be written -----

  predicate WritableStmt<A>(n: Node<A>)
    decreases n, 0
  {
    match n
    case Echo(_, e) => IsExpr(e)
    case Define(_, id, e) => id.Id? && IsExpr(e)
    case Assign(_, l, e) => l.Id? && IsExpr(e)
    case IfStmt(_, c, t, e) =>
      && IsExpr(c)
      && if t.Block? then WritableBlock(t) && (e.Some? ==> WritableBlock(e.value)) else WritableStmt(t) && e.None?
    case _ => false
  }

  /** A block of statements none of which is a block. */
  predicate WritableBlock<A>(n: Node<A>)
    decreases n, 1
  {
    n.Block? && forall i :: 0 <= i < |n.stmts| ==> WritableStmt(n.stmts[i])
  }

  /** They are programs of the walkers' domain. */
  lemma {:induction false} WritableIsStmt<A>(n: Node<A>)
    requires WritableStmt(n) || WritableBlock(n)
    ensures IsStmt(n)
    decreases n, 1
  {
    match n
    case IfStmt(_, _, t, e) =>
      WritableIsStmt(t);
      if e.Some? {
        WritableIsStmt(e.value);
      }
    case Block(_, ss) => WritableAreStmts(ss);
    case _ =>
  }

  lemma {:induction false} WritableAreStmts<A>(ss: seq<Node<A>>)
    requires forall i :: 0 <= i < |ss| ==> WritableStmt(ss[i])
    ensures AreStmts(ss)
    decreases ss, 0
  {
    if ss != [] {
      WritableIsStmt(ss[0]);
      WritableAreStmts(ss[1..]);
    }
  }

  function WriteStmt<A>(n: Node<A>): Written
    requires WritableStmt(n)
    decreases n, 0
  {
    match n
    case Echo(_, e) => EchoOf(Write(e, PRIME, false))
    case Define(_, id, e) => DefineOf(id.name, Write(e, PRIME, false))
    case Assign(_, l, e) => AssignTo(l.name, Write(e, PRIME, false))
    case IfStmt(_, c, t, e) =>
      var w := Write(c, PRIME, false);
      if !t.Block? then IfThen(w, WriteStmt(t))
      else if e.None? then IfBlock(w, WriteBlock(t))
      else IfBlocks(w, WriteBlock(t), WriteBlock(e.value))
  }

  function WriteBlock<A>(n: Node<A>): seq<Written>
    requires WritableBlock(n)
    decreases n, 1
  {
    seq(|n.stmts|, i requires 0 <= i < |n.stmts| => WriteStmt(n.stmts[i]))
  }

  lemma {:induction false} WriteStmtMeans(n: Tree)
    requires WritableStmt(n)
    ensures StmtMeaning(WriteStmt(n)) == Bare(n)
    decreases n, 0
  {
    hide Write, Meaning;
    match n
    case Echo(_, e) => WriteMeans(e, PRIME, false);
    case Define(_, _, e) => WriteMeans(e, PRIME, false);
    case Assign(_, _, e) => WriteMeans(e, PRIME, false);
    case IfStmt(_, c, t, e) =>
      WriteMeans(c, PRIME, false);
      if !t.Block? {
        WriteStmtMeans(t);
      } else {
        WriteBlockMeans(t);
        if e.Some? {
          WriteBlockMeans(e.value);
        }
      }
  }

  lemma {:induction false} WriteBlockMeans(n: Tree)
    requires WritableBlock(n)
    ensures BlockMeaning(WriteBlock(n)) == Bare(n)
    decreases n, 1
  {
    hide StmtMeaning, WriteStmt;
    forall i | 0 <= i < |n.stmts|
      ensures StmtMeaning(WriteStmt(n.stmts[i])) == Bare(n.stmts[i])
    {
      WriteStmtMeans(n.stmts[i]);
    }
  }

  // ----- one way to write them: a line for every statement -----

  const NEWLINE := Token(TokNewline, "")

  const THEN := [Token(TokThen, "")]

  const ELSE := [Token(TokElse, "")]

  function Text(s: Written): (w: seq<Token>)
    ensures w != [] && w[0].kind in {TokEcho, TokId, TokIf}
    decreases s, 0
  {
    match s
    case EchoOf(e) => [Token(TokEcho, "")] + Print(e)
    case DefineOf(name, e) => [Token(TokId, name), Token(TokDefine, "")] + Print(e)
    case AssignTo(name, e) => [Token(TokId, name), Token(TokAssign, "")] + Print(e)
    case IfThen(c, arm) => [Token(TokIf, "")] + (Print(c) + (THEN + Text(arm)))
    case IfBlock(c, body) => [Token(TokIf, "")] + (Print(c) + Braced(body))
    case IfBlocks(c, body, others) =>
      [Token(TokIf, "")] + (Print(c) + (Braced(body) + (ELSE + Braced(others))))
  }

  function Braced(b: seq<Written>): seq<Token>
    decreases b, 2
  {
    [Token(TokLBrace, "")] + (Lines(b) + [Token(TokRBrace, "")])
  }

  function Lines(b: seq<Written>): seq<Token>
    decreases b, 1
  {
    if b == [] then [] else Text(b[0]) + NextLines(b[1..])
  }

  function NextLines(b: seq<Written>): seq<Token>
    decreases b, 0
  {
    if b == [] then [] else [NEWLINE] + (Text(b[0]) + NextLines(b[1..]))
  }

  /** Every expression has the parentheses it needs. */
  predicate Proper(s: Written)
    decreases s, 0
  {
    match s
    case EchoOf(e) => IsAt(PRIME, e)
    case DefineOf(_, e) => IsAt(PRIME, e)
    case AssignTo(_, e) => IsAt(PRIME, e)
    case IfThen(c, arm) => IsAt(PRIME, c) && Proper(arm)
    case IfBlock(c, body) => IsAt(PRIME, c) && AllProper(body)
    case IfBlocks(c, body, others) => IsAt(PRIME, c) && AllProper(body) && AllProper(others)
  }

  predicate AllProper(b: seq<Written>)
    decreases b, 1
  {
    forall i :: 0 <= i < |b| ==> Proper(b[i])
  }

  /** The stream has exactly these tokens here. */
  predicate Sits(toks: Stream, pos: nat, w: seq<Token>) {
    pos + |w| <= |toks| && toks[pos..pos + |w|] == w
  }

  lemma SitsAnd(toks: Stream, pos: nat, u: seq<Token>, v: seq<Token>)
    requires Sits(toks, pos, u + v)
    ensures Sits(toks, pos, u) && Sits(toks, pos + |u|, v)
  {
    var w := u + v;
    assert w[..|u|] == u && w[|u|..] == v;
    assert toks[pos..pos + |w|][..|u|] == toks[pos..pos + |u|];
    assert toks[pos..pos + |w|][|u|..] == toks[pos + |u|..pos + |w|];
  }

  lemma SitsFirst(toks: Stream, pos: nat, w: seq<Token>)
    requires Sits(toks, pos, w) && w != []
    ensures KindAt(toks, pos) == w[0].kind && TextAt(toks, pos) == w[0].text && pos < |toks|
  {
    assert toks[pos..pos + |w|][0] == toks[pos];
  }

  lemma {:induction false} SitsReads(toks: Stream, pos: nat, w: seq<Token>)
    requires Sits(toks, pos, w) && AllSpelled(w)
    ensures Reads(toks, pos, w) && After(toks, pos, |w|) == pos + |w|
    decreases |w|
  {
    if w != [] {
      SitsFirst(toks, pos, w);
      assert w == [w[0]] + w[1..];
      SitsAnd(toks, pos, [w[0]], w[1..]);
      SitsReads(toks, pos + 1, w[1..]);
    }
  }

  lemma ExprSits(toks: Stream, pos: nat, e: Cst)
    requires IsAt(PRIME, e) && Sits(toks, pos, Print(e))
    ensures
      var p := ExprPlace(toks, pos, e);
      p.Some? && p.value.end == pos + |Print(e)| && p.value.room == Room(e)
  {
    hide IsAt, Print, Reads, Built, Sits, Room;
    PrintSpelled(e, PRIME);
    SitsReads(toks, pos, Print(e));
  }

  lemma {:induction false} StmtSits(toks: Stream, pos: nat, s: Written)
    requires Proper(s) && Sits(toks, pos, Text(s))
    ensures
      var p := StmtPlace(toks, pos, s);
      p.Some? && p.value.end == pos + |Text(s)| && p.value.room == StmtRoom(s)
    decreases s, 2
  {
    hide ExprPlace, TailPlace, IsAt, Print, Sits, Room, TailRoom;
    SitsFirst(toks, pos, Text(s));
    match s
    case EchoOf(e) =>
      SitsAnd(toks, pos, [Token(TokEcho, "")], Print(e));
      ExprSits(toks, pos + 1, e);
    case DefineOf(name, e) =>
      NameSits(toks, pos, Token(TokId, name), Token(TokDefine, ""), e);
    case AssignTo(name, e) =>
      NameSits(toks, pos, Token(TokId, name), Token(TokAssign, ""), e);
    case _ =>
      SitsTail(toks, pos + 1, s);
      TailSits(toks, pos + 1, s);
  }

  lemma NameSits(toks: Stream, pos: nat, name: Token, sign: Token, e: Cst)
    requires IsAt(PRIME, e) && Sits(toks, pos, [name, sign] + Print(e))
    ensures KindAt(toks, pos + 1) == sign.kind
    ensures
      var p := ExprPlace(toks, pos + 2, e);
      p.Some? && p.value.end == pos + 2 + |Print(e)| && p.value.room == Room(e)
  {
    hide ExprPlace, IsAt, Print, Sits, Room;
    SitsAnd(toks, pos, [name, sign], Print(e));
    assert [name, sign] == [name] + [sign];
    SitsAnd(toks, pos, [name], [sign]);
    SitsFirst(toks, pos + 1, [sign]);
    ExprSits(toks, pos + 2, e);
  }

  /** The text behind the `if`. */
  function TailText(s: Written): seq<Token>
    requires IsIf(s)
  {
    match s
    case IfThen(c, arm) => Print(c) + (THEN + Text(arm))
    case IfBlock(c, body) => Print(c) + Braced(body)
    case IfBlocks(c, body, others) => Print(c) + (Braced(body) + (ELSE + Braced(others)))
  }

  lemma {:induction false} TailSits(toks: Stream, pos: nat, s: Written)
    requires IsIf(s) && Proper(s) && Sits(toks, pos, TailText(s))
    ensures
      var t := TailPlace(toks, pos, s);
      t.Some? && t.value.end == pos + |TailText(s)| && t.value.room == TailRoom(s)
    decreases s, 1
  {
    hide ExprPlace, StmtPlace, BracePlace, IsAt, Print, Sits, Braced, Text, AllProper, NextSolid, Room, StmtRoom;
    hide BlockRoom;
    var q := pos + |Print(s.cond)|;
    match s
    case IfThen(c, arm) =>
      SitsAnd(toks, pos, Print(c), THEN + Text(arm));
      ExprSits(toks, pos, c);
      SitsWord(toks, q, THEN, Text(arm));
      StmtSits(toks, q + 1, arm);
    case IfBlock(c, body) =>
      SitsAnd(toks, pos, Print(c), Braced(body));
      ExprSits(toks, pos, c);
      BraceSits(toks, q, body);
    case IfBlocks(c, body, others) =>
      SitsAnd(toks, pos, Print(c), Braced(body) + (ELSE + Braced(others)));
      ExprSits(toks, pos, c);
      SitsAnd(toks, q, Braced(body), ELSE + Braced(others));
      BraceSits(toks, q, body);
      var r := q + |Braced(body)|;
      SitsWord(toks, r, ELSE, Braced(others));
      BraceSits(toks, r + 1, others);
  }

  lemma SitsTail(toks: Stream, pos: nat, s: Written)
    requires IsIf(s) && pos > 0 && Sits(toks, pos - 1, Text(s))
    ensures Sits(toks, pos, TailText(s))
  {
    hide Sits, Print, Braced;
    SitsAnd(toks, pos - 1, [Token(TokIf, "")], TailText(s));
  }

  lemma SitsWord(toks: Stream, pos: nat, w: seq<Token>, v: seq<Token>)
    requires Sits(toks, pos, w + v) && |w| == 1 && w[0].kind != TokNewline
    ensures NextSolid(toks, pos) == pos && KindAt(toks, pos) == w[0].kind && Sits(toks, pos + 1, v)
  {
    hide Sits, NextSolid;
    SitsAnd(toks, pos, w, v);
    SitsSolid(toks, pos, w);
  }

  lemma SitsSolid(toks: Stream, pos: nat, w: seq<Token>)
    requires Sits(toks, pos, w) && w != [] && w[0].kind != TokNewline
    ensures NextSolid(toks, pos) == pos && KindAt(toks, pos) == w[0].kind
  {
    SitsFirst(toks, pos, w);
  }

  lemma {:induction false} BraceSits(toks: Stream, pos: nat, b: seq<Written>)
    requires AllProper(b) && Sits(toks, pos, Braced(b))
    ensures
      var p := BracePlace(toks, pos, b);
      p.Some? && p.value.end == pos + |Braced(b)| && p.value.room == 1 + BlockRoom(b)
    decreases b, 4
  {
    hide BlockPlace, Sits, Lines, AllProper, NextSolid, BlockRoom;
    var open, close := [Token(TokLBrace, "")], [Token(TokRBrace, "")];
    SitsAnd(toks, pos, open, Lines(b) + close);
    SitsSolid(toks, pos, open);
    SitsAnd(toks, pos + 1, Lines(b), close);
    SitsFirst(toks, pos + 1 + |Lines(b)|, close);
    BlockSits(toks, pos + 1, b);
  }

  lemma {:induction false} BlockSits(toks: Stream, pos: nat, b: seq<Written>)
    requires AllProper(b) && Sits(toks, pos, Lines(b)) && !IsSep(KindAt(toks, pos + |Lines(b)|))
    ensures
      var p := BlockPlace(toks, pos, b);
      p.Some? && p.value.end == pos + |Lines(b)| && p.value.room == BlockRoom(b)
    decreases b, 3
  {
    hide StmtPlace, RestPlace, Sits, Text, StmtRoom, RestRoom;
    if b != [] {
      SitsAnd(toks, pos, Text(b[0]), NextLines(b[1..]));
      SitsFirst(toks, pos, Text(b[0]));
      StmtSits(toks, pos, b[0]);
      RestSits(toks, pos + |Text(b[0])|, b[1..]);
    }
  }

  lemma {:induction false} RestSits(toks: Stream, pos: nat, b: seq<Written>)
    requires AllProper(b) && Sits(toks, pos, NextLines(b)) && !IsSep(KindAt(toks, pos + |NextLines(b)|))
    ensures
      var r := RestPlace(toks, pos, b);
      r.Some? && r.value.end == pos + |NextLines(b)| && r.value.room == RestRoom(b)
    decreases b, 0
  {
    hide StmtPlace, Sits, Text, SepsEnd, IsSep, Proper, StmtRoom;
    if b != [] {
      SitsAnd(toks, pos, [NEWLINE], Text(b[0]) + NextLines(b[1..]));
      SitsFirst(toks, pos, [NEWLINE]);
      SitsAnd(toks, pos + 1, Text(b[0]), NextLines(b[1..]));
      SitsFirst(toks, pos + 1, Text(b[0]));
      BeginsNoSep(Text(b[0])[0].kind);
      OneSep(toks, pos);
      StmtSits(toks, pos + 1, b[0]);
      RestSits(toks, pos + 1 + |Text(b[0])|, b[1..]);
    }
  }

  lemma OneSep(toks: Stream, pos: nat)
    requires KindAt(toks, pos) == TokNewline && !IsSep(KindAt(toks, pos + 1))
    ensures IsSep(KindAt(toks, pos)) && SepsEnd(toks, pos) == pos + 1
  {
  }

  lemma BeginsNoSep(kind: TokenKind)
    requires kind in {TokEcho, TokId, TokIf}
    ensures !IsSep(kind)
  {
  }

  lemma {:induction false} WritesProper(n: Tree)
    requires WritableStmt(n)
    ensures Proper(WriteStmt(n))
    decreases n, 0
  {
    hide Write, IsAt;
    match n
    case Echo(_, e) => WritesAt(e, PRIME, false);
    case Define(_, _, e) => WritesAt(e, PRIME, false);
    case Assign(_, _, e) => WritesAt(e, PRIME, false);
    case IfStmt(_, c, t, e) =>
      WritesAt(c, PRIME, false);
      if !t.Block? {
        WritesProper(t);
      } else {
        BlocksProper(t);
        if e.Some? {
          BlocksProper(e.value);
        }
      }
  }

  lemma {:induction false} BlocksProper(n: Tree)
    requires WritableBlock(n)
    ensures AllProper(WriteBlock(n))
    decreases n, 1
  {
    hide Proper, WriteStmt;
    forall i | 0 <= i < |n.stmts|
      ensures Proper(WriteStmt(n.stmts[i]))
    {
      WritesProper(n.stmts[i]);
    }
  }

  // ----- every program that can be written comes back -----

  /** Whatever the parser builds can be written, if it lies in the walkers' domain. */
  lemma {:induction false} ParsedIsWritable(n: Tree)
    requires IsStmt(n) && (ParserSafety.ParsedStmt(n) || ParserSafety.ParsedBlock(n))
    ensures ParserSafety.ParsedStmt(n) ==> WritableStmt(n)
    ensures ParserSafety.ParsedBlock(n) ==> WritableBlock(n)
    decreases n, 1
  {
    match n
    case IfStmt(_, _, t, e) =>
      ParsedArms(n);
      ParsedIsWritable(t);
      if e.Some? {
        ParsedIsWritable(e.value);
      }
    case Block(_, ss) =>
      forall i | 0 <= i < |ss|
        ensures WritableStmt(ss[i])
      {
        StatementsAre(ss, i);
        ParsedIsWritable(ss[i]);
      }
    case _ =>
  }

  lemma ParsedArms(n: Tree)
    requires IsStmt(n) && n.IfStmt? && ParserSafety.ParsedStmt(n)
    ensures IsExpr(n.cond) && IsStmt(n.thenArm) && (n.elseArm.Some? ==> IsStmt(n.elseArm.value))
    ensures
      || (ParserSafety.ParsedStmt(n.thenArm) && n.elseArm.None?)
      || (ParserSafety.ParsedBlock(n.thenArm) && (n.elseArm.Some? ==> ParserSafety.ParsedBlock(n.elseArm.value)))
  {
    assert ParserSafety.ParsedIf(n);
    ExprIsNoStmt(n.thenArm);
  }

  lemma ExprIsNoStmt(n: Tree)
    ensures !(ParserSafety.ParsedExpr(n) && IsStmt(n))
  {
  }

  lemma {:induction false} StatementsAre(ss: seq<Tree>, i: nat)
    requires AreStmts(ss) && i < |ss|
    ensures IsStmt(ss[i])
  {
    if i > 0 {
      StatementsAre(ss[1..], i - 1);
    }
  }

  /**
   Every program that can be written comes back, exactly if the limit leaves room for the least deep way
   of writing it.
   */
  lemma EveryProgramRoundTrips(n: Tree)
    requires WritableBlock(n)
    ensures
      var toks := Lines(WriteBlock(n));
      var o := ParseRule(Language, toks, Prog, 0, 0);
      if 1 + BlockRoom(WriteBlock(n)) <= MAX_PARSE_DEPTH
      then o.Reduced? && o.arg.NodeArg? && o.pos == |toks| && Bare(o.arg.node) == Bare(n)
      else o == TooDeep
  {
    hide BlockPlace, ParseRule, Bare, BlockMeaning, WriteBlock, WritableBlock, Lines, BlockRoom;
    var b := WriteBlock(n);
    var toks := Lines(b);
    BlocksProper(n);
    WriteBlockMeans(n);
    assert toks[0..|toks|] == toks;
    BlockSits(toks, 0, b);
    WrittenProgramParses(toks, b);
  }

  /**
   Whatever token stream the parser makes a program of, the program printed parses to it again, exactly
   if the limit leaves room for the printed form.
   */
  lemma WhatIsParsedReprints(toks: Stream, n: Tree, end: nat)
    requires ParseRule(Language, toks, Prog, 0, 0) == Reduced(NodeArg(n), end) && IsStmt(n)
    ensures WritableBlock(n)
    ensures
      var printed := Lines(WriteBlock(n));
      var o := ParseRule(Language, printed, Prog, 0, 0);
      if 1 + BlockRoom(WriteBlock(n)) <= MAX_PARSE_DEPTH
      then o.Reduced? && o.arg.NodeArg? && o.pos == |printed| && Bare(o.arg.node) == Bare(n)
      else o == TooDeep
  {
    hide ParseRule, Bare, WriteBlock, WritableBlock, Lines, BlockRoom, ParserSafety.ParsedBlock;
    ParserSafety.ParserIsNeverBroken(toks, Prog, 0, 0);
    ParsedIsWritable(n);
    EveryProgramRoundTrips(n);
  }

  // ----- the printed form is the least deep -----

  lemma ExprLeast(toks: Stream, pos: nat, e: Cst)
    requires ExprPlace(toks, pos, e).Some?
    ensures
      var p := ExprPlace(toks, pos, e).value;
      IsExpr(p.tree) && Room(Write(p.tree, PRIME, false)) <= p.room
  {
    hide IsAt, Reads, Built, Bare, Meaning, Room, Write, IsExpr;
    ExprMeans(toks, pos, e);
    WritesLeast(ExprPlace(toks, pos, e).value.tree, e, PRIME, false);
  }

  lemma {:induction false} StmtLeast(toks: Stream, pos: nat, s: Written)
    requires StmtPlace(toks, pos, s).Some?
    ensures
      var p := StmtPlace(toks, pos, s).value;
      WritableStmt(p.tree) && StmtRoom(WriteStmt(p.tree)) <= p.room && (IsIf(WriteStmt(p.tree)) <==> IsIf(s))
    decreases s, 2
  {
    hide ExprPlace, TailPlace, Room, Write, IsExpr;
    match s
    case EchoOf(e) => ExprLeast(toks, pos + 1, e);
    case DefineOf(_, e) => ExprLeast(toks, pos + 2, e);
    case AssignTo(_, e) => ExprLeast(toks, pos + 2, e);
    case _ => TailLeast(toks, pos + 1, s);
  }

  lemma {:induction false} TailLeast(toks: Stream, pos: nat, s: Written)
    requires IsIf(s) && TailPlace(toks, pos, s).Some?
    ensures
      var t := TailPlace(toks, pos, s).value;
      var n := IfStmt(pos, t.cond, t.thenArm, t.elseArm);
      WritableStmt(n) && StmtRoom(WriteStmt(n)) <= 1 + t.room
    decreases s, 1
  {
    hide ExprPlace, StmtPlace, BracePlace, Room, Write, IsExpr, NextSolid, BlockRoom, WriteBlock;
    ExprLeast(toks, pos, s.cond);
    var c := ExprPlace(toks, pos, s.cond).value;
    match s
    case IfThen(_, arm) => StmtLeast(toks, NextSolid(toks, c.end) + 1, arm);
    case IfBlock(_, body) => BraceLeast(toks, c.end, body);
    case IfBlocks(_, body, others) =>
      BraceLeast(toks, c.end, body);
      BraceLeast(toks, NextSolid(toks, BracePlace(toks, c.end, body).value.end) + 1, others);
  }

  lemma {:induction false} BraceLeast(toks: Stream, pos: nat, b: seq<Written>)
    requires BracePlace(toks, pos, b).Some?
    ensures
      var p := BracePlace(toks, pos, b).value;
      WritableBlock(p.tree) && 1 + BlockRoom(WriteBlock(p.tree)) <= p.room
    decreases b, 3
  {
    hide BlockPlace, NextSolid, BlockRoom, WriteBlock, WritableBlock;
    BlockLeast(toks, NextSolid(toks, pos) + 1, b);
  }

  lemma {:induction false} BlockLeast(toks: Stream, pos: nat, b: seq<Written>)
    requires BlockPlace(toks, pos, b).Some?
    ensures
      var p := BlockPlace(toks, pos, b).value;
      WritableBlock(p.tree) && BlockRoom(WriteBlock(p.tree)) <= p.room
    decreases b, 2
  {
    hide StmtPlace, SepsEnd, RestPlace, StmtRoom, WriteStmt, WritableStmt;
    if b != [] {
      var q := SepsEnd(toks, pos);
      var p := StmtPlace(toks, q, b[0]).value;
      var r := RestPlace(toks, p.end, b[1..]).value;
      StmtLeast(toks, q, b[0]);
      RestLeast(toks, p.end, b[1..]);
      WriteFirst(p.tree, r.trees);
    }
  }

  /** The written forms of statements, one by one. */
  function WriteAll<A>(ss: seq<Node<A>>): (b: seq<Written>)
    requires forall i :: 0 <= i < |ss| ==> WritableStmt(ss[i])
  {
    if ss == [] then [] else [WriteStmt(ss[0])] + WriteAll(ss[1..])
  }

  lemma {:induction false} WriteAllIs<A>(ss: seq<Node<A>>)
    requires forall i :: 0 <= i < |ss| ==> WritableStmt(ss[i])
    ensures WriteAll(ss) == seq(|ss|, i requires 0 <= i < |ss| => WriteStmt(ss[i]))
  {
    hide WriteStmt, WritableStmt;
    if ss != [] {
      WriteAllIs(ss[1..]);
    }
  }

  lemma WriteFirst(n: Tree, ss: seq<Tree>)
    requires WritableStmt(n) && forall i :: 0 <= i < |ss| ==> WritableStmt(ss[i])
    ensures WritableBlock(Block(0, [n] + ss)) && WriteBlock(Block(0, [n] + ss)) == [WriteStmt(n)] + WriteAll(ss)
  {
    hide WriteStmt, WritableStmt;
    WriteAllIs([n] + ss);
    assert ([n] + ss)[1..] == ss;
  }

  lemma {:induction false} RestLeast(toks: Stream, pos: nat, b: seq<Written>)
    requires RestPlace(toks, pos, b).Some?
    ensures
      var r := RestPlace(toks, pos, b).value;
      (forall i :: 0 <= i < |r.trees| ==> WritableStmt(r.trees[i])) && RestRoom(WriteAll(r.trees)) <= r.room
    decreases b, 0
  {
    hide StmtPlace, SepsEnd, StmtRoom, WriteStmt, WritableStmt;
    if b != [] {
      var q := SepsEnd(toks, pos);
      var p := StmtPlace(toks, q, b[0]).value;
      var r := RestPlace(toks, p.end, b[1..]).value;
      StmtLeast(toks, q, b[0]);
      RestLeast(toks, p.end, b[1..]);
      assert ([p.tree] + r.trees)[1..] == r.trees;
    }
  }

  /**
   A written program that the parser reads once, in whatever layout, it reads again as it is printed: the
   first parse shows that there is room.
   */
  lemma WhatIsWrittenReprints(toks: Stream, b: seq<Written>)
    requires BlockPlace(toks, 0, b).Some? && BlockPlace(toks, 0, b).value.end == |toks|
    requires ParseRule(Language, toks, Prog, 0, 0).Reduced?
    ensures
      var first := ParseRule(Language, toks, Prog, 0, 0);
      && first.arg.NodeArg? && WritableBlock(first.arg.node)
      && var printed := Lines(WriteBlock(first.arg.node));
         var again := ParseRule(Language, printed, Prog, 0, 0);
         again.Reduced? && again.arg.NodeArg? && again.pos == |printed| && Bare(again.arg.node) == Bare(first.arg.node)
  {
    hide BlockPlace, ParseRule, Bare, BlockMeaning, WriteBlock, WritableBlock, Lines, BlockRoom;
    WrittenProgramParses(toks, b);
    BlockLeast(toks, 0, b);
    EveryProgramRoundTrips(BlockPlace(toks, 0, b).value.tree);
  }

  /** The parser as a machine, run on the printed program, returns the program, exactly if there is room for it. */
  method ParsePrinted(n: Tree) returns (parsed: Option<Tree>)
    requires WritableBlock(n)
    ensures parsed.Some? <==> 1 + BlockRoom(WriteBlock(n)) <= MAX_PARSE_DEPTH
    ensures parsed.Some? ==> Bare(parsed.value) == Bare(n)
  {
    EveryProgramRoundTrips(n);
    hide Bare, WriteBlock, Lines, BlockRoom, ParseRule;
    parsed := ParserMachine.ParseProgram(Lines(WriteBlock(n)));
  }
}
