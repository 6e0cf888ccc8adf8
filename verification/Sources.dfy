/**
 From the characters to the tree and back: a program that was lexed and parsed, whatever its text was, is
 written out as a text that lexes and parses to it again (bootstrap/lexer.c, bootstrap/parser.c).
 */
module Sources {
  import opened Basics
  import opened Tokens
  import opened Ast
  import opened Grammar
  import opened Engine
  import opened Printing
  import opened RoundTrip
  import opened Programs
  import opened ProgramRoundTrip
  import opened Scanner
  import opened Spelling
  import opened Places
  import Words
  import L = TokenLog
  import LexerMachine
  import ParserMachine
  import ScannerMachine

  // ----- names and literals of a tree -----

  /** Literals are literals and names are names; a name without letters may be one, unless all must be `named`. */
  predicate IsLegible<A>(n: Node<A>, named: bool)
    decreases n
  {
    match n
    case Value(_, kind, text) =>
      if kind == BoolValue then text == "true" || text == "false" else IsNumber(text)
    case Id(_, name) => IsName(name) || (!named && name == "")
    case Expr(_, _, l, r) => IsLegible(l, named) && IsLegible(r, named)
    case UExpr(_, _, e) => IsLegible(e, named)
    case IfExpr(_, c, t, e) => IsLegible(c, named) && IsLegible(t, named) && (e.Some? ==> IsLegible(e.value, named))
    case IfStmt(_, c, t, e) => IsLegible(c, named) && IsLegible(t, named) && (e.Some? ==> IsLegible(e.value, named))
    case Echo(_, e) => IsLegible(e, named)
    case Define(_, id, e) => IsLegible(id, named) && IsLegible(e, named)
    case Assign(_, l, e) => IsLegible(l, named) && IsLegible(e, named)
    case Block(_, ss) => forall i :: 0 <= i < |ss| ==> IsLegible(ss[i], named)
  }

  /** That does not depend on where the tokens stand. */
  lemma {:induction false} BareIsLegible(n: Tree, named: bool)
    ensures IsLegible(Bare(n), named) == IsLegible(n, named)
    decreases n
  {
    hide IsName, IsNumber;
    match n
    case Value(_, _, _) =>
    case Id(_, _) =>
    case Expr(_, _, l, r) =>
      BareIsLegible(l, named);
      BareIsLegible(r, named);
    case UExpr(_, _, e) => BareIsLegible(e, named);
    case IfExpr(_, c, t, e) => BareIfIsLegible(n, c, t, e, named);
    case IfStmt(_, c, t, e) => BareIfIsLegible(n, c, t, e, named);
    case Echo(_, e) => BareIsLegible(e, named);
    case Define(_, id, e) =>
      BareIsLegible(id, named);
      BareIsLegible(e, named);
    case Assign(_, l, e) =>
      BareIsLegible(l, named);
      BareIsLegible(e, named);
    case Block(_, ss) =>
      var bare := Bare(n).stmts;
      assert |bare| == |ss|;
      forall i | 0 <= i < |ss|
        ensures IsLegible(bare[i], named) == IsLegible(ss[i], named)
      {
        BareIsLegible(ss[i], named);
        assert bare[i] == Bare(ss[i]);
      }
  }

  lemma BareIfIsLegible(n: Tree, c: Tree, t: Tree, e: Option<Tree>, named: bool)
    requires c < n && t < n && (e.Some? ==> e.value < n)
    ensures IsLegible(Bare(c), named) == IsLegible(c, named) && IsLegible(Bare(t), named) == IsLegible(t, named)
    ensures e.Some? ==> IsLegible(Bare(e.value), named) == IsLegible(e.value, named)
    decreases n, 0
  {
    BareIsLegible(c, named);
    BareIsLegible(t, named);
    if e.Some? {
      BareIsLegible(e.value, named);
    }
  }

  // ----- what is parsed is legible -----

  /** Every name has letters. */
  predicate Named(toks: Stream) {
    forall i :: 0 <= i < |toks| ==> !(toks[i].kind == TokId && toks[i].text == "")
  }

  /** What the lexer hands out. */
  predicate FromLexer(toks: Stream, named: bool) {
    AllLegible(toks) && (named ==> Named(toks))
  }

  predicate LegibleArg(a: Arg, named: bool) {
    match a
    case TokenArg(_) => true
    case NodeArg(n) => IsLegible(n, named)
    case NullArg => true
    case PartsArg(c, t, e) => IsLegible(c, named) && IsLegible(t, named) && (e.Some? ==> IsLegible(e.value, named))
  }

  predicate LegibleArgs(args: seq<Arg>, named: bool) {
    forall i :: 0 <= i < |args| ==> LegibleArg(args[i], named)
  }

  predicate LegibleOutcome(o: Outcome, named: bool) {
    o.Reduced? ==> LegibleArg(o.arg, named)
  }

  lemma TokenIsLegible(toks: Stream, at: nat, named: bool)
    requires FromLexer(toks, named)
    ensures KindAt(toks, at) == TokId ==> IsName(TextAt(toks, at)) || (!named && TextAt(toks, at) == "")
    ensures KindAt(toks, at) == TokNumberL ==> IsNumber(TextAt(toks, at))
    ensures KindAt(toks, at) == TokBoolL ==> TextAt(toks, at) == "true" || TextAt(toks, at) == "false"
  {
    hide IsName, IsNumber;
    if at < |toks| {
      assert Legible(toks[at]);
    }
  }

  lemma PrependIsLegible(toks: Stream, args: seq<Arg>, named: bool)
    requires LegibleArgs(args, named) && Apply(ReduceStmtStmts, toks, args).Some?
    ensures LegibleArg(Apply(ReduceStmtStmts, toks, args).value, named)
  {
    hide IsName, IsNumber;
    var tail := if args[1].NullArg? then [] else args[1].node.stmts;
    assert forall i :: 0 <= i < |tail| ==> IsLegible(tail[i], named);
  }

  lemma ApplyIsLegible(f: Reducer, toks: Stream, args: seq<Arg>, named: bool)
    requires FromLexer(toks, named) && LegibleArgs(args, named) && Apply(f, toks, args).Some?
    ensures LegibleArg(Apply(f, toks, args).value, named)
  {
    hide FromLexer, IsName, IsNumber, KindAt, TextAt;
    if f == ReduceStmtStmts {
      PrependIsLegible(toks, args, named);
    } else if |args| > 0 && args[0].TokenArg? {
      var at := args[0].at;
      TokenIsLegible(toks, at, named);
      assert KindAt(toks, at) == TokId ==> IsLegible(Id(at, TextAt(toks, at)), named);
    }
  }

  lemma ParsedIsLegible(g: Grammar, toks: Stream, id: RuleId, pos: nat, depth: nat, named: bool)
    requires FromLexer(toks, named)
    ensures LegibleOutcome(ParseRule(g, toks, id, pos, depth), named)
    decreases MAX_PARSE_DEPTH - depth, 0
  {
    hide Run, FromLexer;
    if depth < MAX_PARSE_DEPTH {
      RunIsLegible(g, toks, Start(id, pos), depth + 1, named);
    }
  }

  lemma {:induction false} RunIsLegible(g: Grammar, toks: Stream, fr: Frame, depth: nat, named: bool)
    requires FromLexer(toks, named) && LegibleArgs(fr.args, named)
    ensures LegibleOutcome(Run(g, toks, fr, depth), named)
    decreases MAX_PARSE_DEPTH - depth, 2, |toks| - fr.floor, |g(fr.id).productions| - fr.i, NodesLeft(g, fr)
  {
    hide Run, ParseRule, ParseList, Look, Shared, Apply, FoldsAt, FromLexer, IsLegible;
    if !Exists(g, fr.id, fr.i) {
      RunsOut(g, toks, fr, depth);
    } else {
      match NodeAt(g, fr.id, fr.i, fr.j)
      case None =>
        EndStep(g, toks, fr, depth);
        RunIsLegible(g, toks, RollBack(fr), depth, named);
      case Some(Term(kind)) =>
        TermStep(g, toks, fr, depth, kind);
        var q := Look(toks, fr.pos, g(fr.id).skipNewLine);
        RunIsLegible(g, toks, Collect(fr, TokenArg(q), q + 1), depth, named);
        if Shared(g, fr.id, fr.i, fr.j) {
          RunIsLegible(g, toks, HandOver(fr), depth, named);
        }
        RunIsLegible(g, toks, RollBack(fr), depth, named);
      case Some(Rule(id)) =>
        var r := ParseRule(g, toks, id, fr.pos, depth);
        RuleStep(g, toks, fr, depth, id, r);
        ParsedIsLegible(g, toks, id, fr.pos, depth, named);
        if r.Reduced? {
          RunIsLegible(g, toks, Collect(fr, r.arg, r.pos), depth, named);
        }
        RunIsLegible(g, toks, RollBack(fr), depth, named);
      case Some(List(id)) =>
        var r := ParseList(g, toks, id, fr.pos, [], depth);
        ListStep(g, toks, fr, depth, id, r);
        ListIsLegible(g, toks, id, fr.pos, [], depth, named);
        if r.Reduced? {
          RunIsLegible(g, toks, Collect(fr, r.arg, r.pos), depth, named);
        }
      case Some(Reduce(f)) =>
        ReduceStep(g, toks, fr, depth, f);
        var v, op := Apply(f, toks, fr.args), FoldsAt(g, fr.id, fr.i);
        if v.Some? {
          ApplyIsLegible(f, toks, fr.args, named);
          if op > 0 && fr.floor < fr.pos <= |toks| {
            RunIsLegible(g, toks, Refold(fr, v.value, op), depth, named);
          }
        }
    }
  }

  lemma {:induction false} ListIsLegible(
      g: Grammar, toks: Stream, id: RuleId, pos: nat, stmts: seq<Tree>, depth: nat, named: bool)
    requires FromLexer(toks, named) && forall i :: 0 <= i < |stmts| ==> IsLegible(stmts[i], named)
    ensures LegibleOutcome(ParseList(g, toks, id, pos, stmts, depth), named)
    decreases MAX_PARSE_DEPTH - depth, 1, |toks| - pos
  {
    hide ParseRule, ParseList, FromLexer, IsName, IsNumber;
    var r := ParseRule(g, toks, id, pos, depth);
    ListEnds(g, toks, id, pos, stmts, depth, r);
    ParsedIsLegible(g, toks, id, pos, depth, named);
    if r.Reduced? && pos < r.pos <= |toks| && !r.arg.TokenArg? && !r.arg.PartsArg? {
      ListIsLegible(g, toks, id, r.pos, if r.arg.NullArg? then stmts else stmts + [r.arg.node], depth, named);
    }
  }

  // ----- a legible tree is printed in tokens that can be written out -----

  predicate Spellable(w: Token, named: bool) {
    Lexable(w) || (!named && w == Token(TokId, ""))
  }

  predicate AllSpellable(ws: seq<Token>, named: bool) {
    forall i :: 0 <= i < |ws| ==> Spellable(ws[i], named)
  }

  lemma AllJoin(u: seq<Token>, v: seq<Token>, named: bool)
    requires AllSpellable(u, named) && AllSpellable(v, named)
    ensures AllSpellable(u + v, named)
  {
    hide Spellable;
  }

  lemma FixedToken(kind: TokenKind, named: bool)
    requires IsFixed(kind)
    ensures AllSpellable([Token(kind, "")], named)
  {
  }

  lemma BracketedIsSpellable(w: seq<Token>, named: bool)
    requires AllSpellable(w, named)
    ensures AllSpellable([Token(TokLParen, "")] + w + [Token(TokRParen, "")], named)
  {
    FixedToken(TokLParen, named);
    FixedToken(TokRParen, named);
    hide AllSpellable;
    AllJoin([Token(TokLParen, "")], w, named);
    AllJoin([Token(TokLParen, "")] + w, [Token(TokRParen, "")], named);
  }

  lemma NegIsSpellable(e: Cst, named: bool)
    requires AllSpellable(Print(e), named)
    ensures AllSpellable(Print(Neg(e)), named)
  {
    FixedToken(TokMinus, named);
    hide AllSpellable;
    AllJoin([Token(TokMinus, "")], Print(e), named);
  }

  lemma BinIsSpellable(op: TokenKind, l: Cst, r: Cst, named: bool)
    requires IsFixed(op) && AllSpellable(Print(l), named) && AllSpellable(Print(r), named)
    ensures AllSpellable(Print(Bin(op, l, r)), named)
  {
    FixedToken(op, named);
    hide AllSpellable, IsFixed;
    AllJoin(Print(l), [Token(op, "")], named);
    AllJoin(Print(l) + [Token(op, "")], Print(r), named);
  }

  lemma IfElseIsSpellable(c: Cst, t: Cst, e: Cst, named: bool)
    requires AllSpellable(Print(c), named) && AllSpellable(Print(t), named) && AllSpellable(Print(e), named)
    ensures AllSpellable(Print(IfElse(c, t, e)), named)
  {
    FixedToken(TokIf, named);
    FixedToken(TokThen, named);
    FixedToken(TokElse, named);
    hide AllSpellable;
    var w := [Token(TokIf, "")];
    AllJoin(w, Print(c), named);
    AllJoin(w + Print(c), [Token(TokThen, "")], named);
    AllJoin(w + Print(c) + [Token(TokThen, "")], Print(t), named);
    w := w + Print(c) + [Token(TokThen, "")] + Print(t);
    AllJoin(w, [Token(TokElse, "")], named);
    AllJoin(w + [Token(TokElse, "")], Print(e), named);
  }

  lemma ParenIsSpellable(c: Cst, named: bool)
    requires AllSpellable(Print(c), named)
    ensures AllSpellable(Print(Paren(c)), named)
  {
    hide AllSpellable;
    BracketedIsSpellable(Print(c), named);
  }

  lemma LeafIsSpellable(kind: TokenKind, text: string, named: bool)
    requires Spellable(Token(kind, text), named)
    ensures AllSpellable(Print(Leaf(kind, text)), named)
  {
  }

  lemma {:induction false} WrittenIsSpellable<A>(n: Node<A>, lvl: Level, closed: bool, named: bool)
    requires IsExpr(n) && IsLegible(n, named)
    ensures AllSpellable(Print(Write(n, lvl, closed)), named)
    decreases n
  {
    hide AllSpellable, Print, IsName, IsNumber;
    match n
    case Value(_, kind, text) => LeafIsSpellable(if kind == BoolValue then TokBoolL else TokNumberL, text, named);
    case Id(_, name) => LeafIsSpellable(TokId, name, named);
    case IfExpr(_, c, t, e) =>
      WrittenIsSpellable(c, PRIME, false, named);
      WrittenIsSpellable(t, PRIME, false, named);
      WrittenIsSpellable(e.value, PRIME, false, named);
      var ws := (Write(c, PRIME, false), Write(t, PRIME, false), Write(e.value, PRIME, false));
      IfElseIsSpellable(ws.0, ws.1, ws.2, named);
      ParenIsSpellable(IfElse(ws.0, ws.1, ws.2), named);
    case UExpr(_, _, e) =>
      var w := Write(e, FACTOR, if lvl == FACTOR then false else closed);
      WrittenIsSpellable(e, FACTOR, if lvl == FACTOR then false else closed, named);
      NegIsSpellable(w, named);
      ParenIsSpellable(Neg(w), named);
    case Expr(_, op, l, r) =>
      var own := LevelOf(op);
      var open := if lvl < own then false else closed;
      WrittenIsSpellable(l, own, true, named);
      WrittenIsSpellable(r, own - 1, open, named);
      BinIsSpellable(op, Write(l, own, true), Write(r, own - 1, open), named);
      ParenIsSpellable(Bin(op, Write(l, own, true), Write(r, own - 1, open)), named);
  }

  /** Fixed tokens, an expression, and more. */
  lemma HeadIsSpellable(head: seq<Token>, e: Cst, tail: seq<Token>, named: bool)
    requires AllSpellable(head, named) && AllSpellable(Print(e), named) && AllSpellable(tail, named)
    ensures AllSpellable(head + Print(e), named) && AllSpellable(head + (Print(e) + tail), named)
  {
    hide AllSpellable;
    AllJoin(head, Print(e), named);
    AllJoin(Print(e), tail, named);
    AllJoin(head, Print(e) + tail, named);
  }

  lemma NamedIsSpellable(name: string, op: TokenKind, named: bool)
    requires (IsName(name) || (!named && name == "")) && IsFixed(op)
    ensures AllSpellable([Token(TokId, name), Token(op, "")], named)
  {
    hide IsName;
  }

  lemma {:induction false} StmtIsSpellable<A>(n: Node<A>, named: bool)
    requires WritableStmt(n) && IsLegible(n, named)
    ensures AllSpellable(Text(WriteStmt(n)), named)
    decreases n, 0
  {
    hide AllSpellable, Print, Write, IsName, Lines, IsFixed;
    FixedTokens(named);
    match n
    case Echo(_, e) =>
      WrittenIsSpellable(e, PRIME, false, named);
      HeadIsSpellable([Token(TokEcho, "")], Write(e, PRIME, false), [], named);
    case Define(_, id, e) =>
      WrittenIsSpellable(e, PRIME, false, named);
      NamedIsSpellable(id.name, TokDefine, named);
      HeadIsSpellable([Token(TokId, id.name), Token(TokDefine, "")], Write(e, PRIME, false), [], named);
    case Assign(_, l, e) =>
      WrittenIsSpellable(e, PRIME, false, named);
      NamedIsSpellable(l.name, TokAssign, named);
      HeadIsSpellable([Token(TokId, l.name), Token(TokAssign, "")], Write(e, PRIME, false), [], named);
    case IfStmt(_, c, t, e) =>
      var w := Write(c, PRIME, false);
      WrittenIsSpellable(c, PRIME, false, named);
      if !t.Block? {
        StmtIsSpellable(t, named);
        AllJoin(THEN, Text(WriteStmt(t)), named);
        HeadIsSpellable([Token(TokIf, "")], w, THEN + Text(WriteStmt(t)), named);
      } else {
        BracesAreSpellable(t, named);
        HeadIsSpellable([Token(TokIf, "")], w, Braced(WriteBlock(t)), named);
        if e.Some? {
          BracesAreSpellable(e.value, named);
          AllJoin(ELSE, Braced(WriteBlock(e.value)), named);
          AllJoin(Braced(WriteBlock(t)), ELSE + Braced(WriteBlock(e.value)), named);
          HeadIsSpellable([Token(TokIf, "")], w, Braced(WriteBlock(t)) + (ELSE + Braced(WriteBlock(e.value))), named);
        }
      }
  }

  lemma FixedKinds()
    ensures IsFixed(TokEcho) && IsFixed(TokIf) && IsFixed(TokThen) && IsFixed(TokElse) && IsFixed(TokNewline)
    ensures IsFixed(TokLBrace) && IsFixed(TokRBrace) && IsFixed(TokDefine) && IsFixed(TokAssign)
  {
  }

  lemma FixedTokens(named: bool)
    ensures AllSpellable([Token(TokEcho, "")], named) && AllSpellable([Token(TokIf, "")], named)
    ensures AllSpellable([], named)
    ensures AllSpellable(THEN, named) && AllSpellable(ELSE, named) && AllSpellable([NEWLINE], named)
    ensures AllSpellable([Token(TokLBrace, "")], named) && AllSpellable([Token(TokRBrace, "")], named)
    ensures IsFixed(TokDefine) && IsFixed(TokAssign)
  {
    assert AllSpellable([], named);
    hide AllSpellable, IsFixed;
    FixedKinds();
    FixedToken(TokEcho, named);
    FixedToken(TokIf, named);
    FixedToken(TokThen, named);
    FixedToken(TokElse, named);
    FixedToken(TokNewline, named);
    FixedToken(TokLBrace, named);
    FixedToken(TokRBrace, named);
  }

  lemma {:induction false} BracesAreSpellable<A>(n: Node<A>, named: bool)
    requires WritableBlock(n) && IsLegible(n, named)
    ensures AllSpellable(Braced(WriteBlock(n)), named)
    decreases n, 2
  {
    FixedTokens(named);
    BlockIsSpellable(n, named);
    hide AllSpellable, Lines, WriteBlock;
    var b := WriteBlock(n);
    AllJoin(Lines(b), [Token(TokRBrace, "")], named);
    AllJoin([Token(TokLBrace, "")], Lines(b) + [Token(TokRBrace, "")], named);
  }

  lemma {:induction false} BlockIsSpellable<A>(n: Node<A>, named: bool)
    requires WritableBlock(n) && IsLegible(n, named)
    ensures AllSpellable(Lines(WriteBlock(n)), named)
    decreases n, 1
  {
    hide AllSpellable, Lines, Text, WriteStmt, WritableStmt;
    var b := WriteBlock(n);
    forall i | 0 <= i < |b|
      ensures AllSpellable(Text(b[i]), named)
    {
      StmtIsSpellable(n.stmts[i], named);
    }
    LinesAreSpellable(b, named);
  }

  lemma LinesAreSpellable(b: seq<Written>, named: bool)
    requires forall i :: 0 <= i < |b| ==> AllSpellable(Text(b[i]), named)
    ensures AllSpellable(Lines(b), named)
  {
    FixedTokens(named);
    hide AllSpellable, Text;
    if b != [] {
      NextAreSpellable(b[1..], named);
      AllJoin(Text(b[0]), NextLines(b[1..]), named);
    }
  }

  lemma {:induction false} NextAreSpellable(b: seq<Written>, named: bool)
    requires forall i :: 0 <= i < |b| ==> AllSpellable(Text(b[i]), named)
    ensures AllSpellable(NextLines(b), named)
  {
    FixedTokens(named);
    hide AllSpellable, Text;
    if b != [] {
      NextAreSpellable(b[1..], named);
      AllJoin(Text(b[0]), NextLines(b[1..]), named);
      AllJoin([NEWLINE], Text(b[0]) + NextLines(b[1..]), named);
    }
  }

  // ----- from text to text -----

  /** The tokens of a text. */
  function Lexed(text: string): Stream {
    TokensOf(Pieces(text).0)
  }

  /** A program as a text: its printed tokens with blanks between them. */
  function Source(n: Tree): string
    requires WritableBlock(n)
  {
    SpellAll(Lines(WriteBlock(n)))
  }

  /** A program whose names have letters, written out, is lexed to its printed tokens. */
  lemma SourceIsLexed(n: Tree)
    requires WritableBlock(n) && IsLegible(n, true)
    ensures Pieces(Source(n)).1 && Lexed(Source(n)) == Lines(WriteBlock(n))
  {
    hide Pieces, TokensOf, SpellAll, Lines, WriteBlock, IsLegible, Lexable, WritableBlock;
    BlockIsSpellable(n, true);
    SpelledIsLexed(Lines(WriteBlock(n)));
  }

  lemma SpelledWithoutNul(w: Token)
    requires Spellable(w, false)
    ensures NUL !in Spell(w)
  {
    if IsFixed(w.kind) {
      FixedShape(w.kind);
    }
    hide Words.WordOf, SpellingOf;
  }

  lemma {:induction false} AllWithoutNul(ws: seq<Token>)
    requires AllSpellable(ws, false)
    ensures NUL !in SpellAll(ws)
  {
    hide Spellable, Spell;
    if ws != [] {
      SpelledWithoutNul(ws[0]);
      AllWithoutNul(ws[1..]);
    }
  }

  /** What is read from a program written out has no name without letters. */
  lemma SourceIsNamed(n: Tree)
    requires WritableBlock(n) && IsLegible(n, false)
    ensures FromLexer(Lexed(Source(n)), true)
  {
    hide Pieces, TokensOf, SpellAll, Lines, WriteBlock, IsLegible, Spellable, WritableBlock, Named, AllLegible;
    BlockIsSpellable(n, false);
    AllWithoutNul(Lines(WriteBlock(n)));
    LexedIsLegible(Source(n));
    NoNulIsNamed(Source(n));
  }

  /**
   Whatever text a program was read from, the program written out as a text is read as the same program,
   exactly if its names have letters and the recursion limit leaves room for the printed form. Only a NUL is
   read as a name without letters.
   */
  lemma TextRoundTrips(text: string, n: Tree, end: nat)
    requires ParseRule(Language, Lexed(text), Prog, 0, 0) == Reduced(NodeArg(n), end) && IsStmt(n)
    ensures NUL !in text ==> IsLegible(n, true)
    ensures WritableBlock(n)
    ensures
      var source := Source(n);
      var o := ParseRule(Language, Lexed(source), Prog, 0, 0);
      var same := o.Reduced? && o.arg.NodeArg? && o.pos == |Lexed(source)| && Bare(o.arg.node) == Bare(n);
      && (same <==> IsLegible(n, true) && 1 + BlockRoom(WriteBlock(n)) <= MAX_PARSE_DEPTH)
      && (IsLegible(n, true) ==> Pieces(source).1 && (same || o == TooDeep))
  {
    hide ParseRule, Pieces, TokensOf, Bare, WriteBlock, WritableBlock, Lines, BlockRoom, IsLegible, Named, AllLegible;
    hide Source, IsStmt;
    LexedIsLegible(text);
    ParsedIsLegible(Language, Lexed(text), Prog, 0, 0, false);
    if NUL !in text {
      NoNulIsNamed(text);
      ParsedIsLegible(Language, Lexed(text), Prog, 0, 0, true);
    }
    WhatIsParsedReprints(Lexed(text), n, end);
    if IsLegible(n, true) {
      SourceIsLexed(n);
    } else {
      SourceIsNamed(n);
      ParsedIsLegible(Language, Lexed(Source(n)), Prog, 0, 0, true);
      SameLegible(ParseRule(Language, Lexed(Source(n)), Prog, 0, 0), n);
    }
  }

  lemma SameLegible(o: Outcome, n: Tree)
    requires LegibleOutcome(o, true) && !IsLegible(n, true)
    ensures !(o.Reduced? && o.arg.NodeArg? && Bare(o.arg.node) == Bare(n))
  {
    hide Bare, IsLegible;
    if o.Reduced? && o.arg.NodeArg? {
      BareIsLegible(o.arg.node, true);
      BareIsLegible(n, true);
    }
  }

  /** An input: `echo` and a NUL. */
  function NulProgram(): string {
    "echo " + [NUL]
  }

  lemma NulCuts()
    ensures CutPiece([NUL]) == Cut(L.Word(TokId, "", [NUL]), "")
  {
    Words.NulIsNotListed();
    hide Words.WordOf, KindOf, Words.IsOperator;
    BeginsWithNul([NUL]);
    assert [NUL][..1] == [NUL];
  }

  lemma NulIsRead()
    ensures Lexed(NulProgram()) == [Token(TokEcho, ""), Token(TokId, "")]
  {
    hide CutPiece;
    assert NulProgram() == Spell(Token(TokEcho, "")) + (" " + [NUL]);
    SpelledCuts(Token(TokEcho, ""), [NUL]);
    BlankCuts(" " + [NUL]);
    assert (" " + [NUL])[..1] == " " && (" " + [NUL])[1..] == [NUL];
    NulCuts();
    EndCuts();
    PiecesGoOn(NulProgram());
    PiecesGoOn(" " + [NUL]);
    PiecesGoOn([NUL]);
  }

  /** It is a program, and written out it is none, or another one. */
  lemma NulDoesNotRoundTrip() returns (n: Tree)
    ensures ParseRule(Language, Lexed(NulProgram()), Prog, 0, 0) == Reduced(NodeArg(n), 2) && IsStmt(n)
    ensures WritableBlock(n)
    ensures
      var o := ParseRule(Language, Lexed(Source(n)), Prog, 0, 0);
      !(o.Reduced? && o.arg.NodeArg? && o.pos == |Lexed(Source(n))| && Bare(o.arg.node) == Bare(n))
  {
    hide ParseRule, Pieces, TokensOf, NulProgram, SpellAll, Bare, BlockRoom, WriteBlock, Lines, IsStmt, IsLegible;
    NulIsRead();
    NulTokens();
    EveryProgramRoundTrips(NulTree());
    n := ParseRule(Language, Lexed(NulProgram()), Prog, 0, 0).arg.node;
    NamelessEcho(n);
    TextRoundTrips(NulProgram(), n, 2);
  }

  function NulTree(): Tree {
    Block(0, [Echo(0, Id(0, ""))])
  }

  lemma NulTokens()
    ensures WritableBlock(NulTree()) && 1 + BlockRoom(WriteBlock(NulTree())) <= MAX_PARSE_DEPTH
    ensures Lines(WriteBlock(NulTree())) == [Token(TokEcho, ""), Token(TokId, "")]
  {
    var b := [EchoOf(Leaf(TokId, ""))];
    assert WriteBlock(NulTree()) == b;
    assert Lines(b) == Text(b[0]) + NextLines([]);
    assert b[1..] == [];
  }

  lemma EmptyIsNoName()
    ensures !IsName("")
  {
  }

  lemma NamelessEcho(n: Tree)
    requires Bare(n) == Bare(NulTree())
    ensures IsStmt(n) && !IsLegible(n, true)
  {
    hide IsName, IsNumber;
    EmptyIsNoName();
    assert Bare(NulTree()).stmts == [Echo((), Id((), ""))];
    assert |n.stmts| == 1;
    assert Bare(n).stmts[0] == Bare(n.stmts[0]);
    assert n.stmts[0].Echo? && Bare(n.stmts[0].expr) == Id((), "");
    assert n.stmts[1..] == [] && AreStmts(n.stmts[1..]) && IsStmt(n.stmts[0]);
    assert !IsLegible(n.stmts[0].expr, true);
    assert !IsLegible(n.stmts[0], true);
  }

  /** A text without NULs has no such name. */
  lemma {:induction false} NoNulIsNamed(text: string)
    requires NUL !in text
    ensures Named(Lexed(text))
    decreases |text|
  {
    hide CutPiece;
    var c := CutPiece(text);
    if c.Cut? {
      CutsApart(text);
      assert text == Raw(text) + c.rest;
      NoNulIsNamed(c.rest);
      PiecesGoOn(text);
      if c.piece.Word? {
        CutIsNamed(text);
      }
    }
  }

  lemma CutIsNamed(text: string)
    requires CutPiece(text).Cut? && CutPiece(text).piece.Word? && NUL !in text
    ensures !(CutPiece(text).piece.kind == TokId && CutPiece(text).piece.text == "")
  {
    hide WordEnd, NumberEnd, QuoteAt, GiveBack, LineEnd, CommentEnd, KindOf, UpToNul;
    var p := CutPiece(text).piece;
    if IsAlpha(text[0]) {
      WordIsNamed(text[..WordEnd(text, 1)]);
    } else if BeginsOperator(text[0]) {
      WordIsNamed(text[..Words.Scan(text, 1)]);
    }
  }

  lemma WordIsNamed(word: string)
    requires word != "" && NUL !in word
    ensures WordPiece(word).Word? && !(WordPiece(word).kind == TokId && WordPiece(word).text == "")
  {
    NoNul(word);
    SpellingInverts(word);
    hide KindOf, SpellingOf, UpToNul;
  }

  // ----- the machines, one behind the other -----

  /** Lexing on from behind the log hands out the next token among the pieces. */
  lemma {:induction false} NextToken(src: seq<L.Piece>, s: L.Lex)
    requires s.pos == |s.log| && !s.eof && s.read <= |src|
    ensures
      var (tok, s') := L.Next(src, s);
      && s'.pos == |s'.log| && s.read <= s'.read <= |src|
      && if tok.kind == L.End then s'.eof && TokensOf(src[s.read..]) == []
         else
           && tok.kind.Sig? && !s'.eof && s.read < s'.read
           && TokensOf(src[s.read..]) == [Token(tok.kind.kind, tok.text)] + TokensOf(src[s'.read..])
    decreases |src| - s.read
  {
    hide L.Turn, L.Turns, L.Shown, L.StepsOf, TokensOf;
    var more := s.read < |src|;
    var logged := if more then L.StepsOf(src[s.read], s.at) else [L.EofStep(s.at)];
    if more {
      PieceSteps(src, s.read, s.at);
    }
    LexerMachine.TurnLexes(src, s, logged);
    TurnsStep(src, s);
    NoTokens(src);
    if more && !src[s.read].Word? {
      NextToken(src, L.Turn(src, s));
    }
  }

  lemma TurnsStep(src: seq<L.Piece>, s: L.Lex)
    requires s.pos == |s.log|
    ensures
      var s' := L.Turn(src, s);
      L.Turns(src, s) == if L.Shown(s', s.pos).Some? then (L.Shown(s', s.pos).value, s') else L.Turns(src, s')
  {
    hide L.Turn, L.Shown;
  }

  lemma NoTokens(src: seq<L.Piece>)
    ensures TokensOf(src[|src|..]) == []
  {
  }

  /** What lexing one piece logs first, and which token it adds. */
  lemma PieceSteps(src: seq<L.Piece>, r: nat, at: Position)
    requires r < |src|
    ensures
      var p := src[r];
      var steps := L.StepsOf(p, at);
      && steps != [] && steps[0].tok.kind != L.End && (p.Word? <==> L.IsShown(steps[0].tok.kind))
      && (p.Word? ==> steps[0].tok.kind == L.Sig(p.kind) && steps[0].tok.text == p.text)
      && TokensOf(src[r..]) == (if p.Word? then [Token(p.kind, p.text)] else []) + TokensOf(src[r + 1..])
  {
    assert src[r..][1..] == src[r + 1..];
  }

  /** All tokens of a text, one by one; it fails exactly if some part of the text is no token. */
  method LexAll(text: string) returns (ok: bool, toks: Stream)
    ensures ok == Pieces(text).1 && (ok ==> toks == Lexed(text))
  {
    hide Pieces, Offset, TokensOf, L.Next, LexerMachine.Paired, LexerMachine.Endless, L.IsMark, Words.Ranged;
    var lexer := new LexerMachine.Lexer(text);
    ghost var src := Pieces(text).0;
    toks := [];
    assert src[0..] == src;
    while true
      invariant lexer.Valid() && lexer.text == text && lexer.stepsPos == |lexer.steps| && !lexer.atEof
      invariant fresh(lexer) && fresh(lexer.chars) && fresh(lexer.chars.reader)
      invariant toks + TokensOf(src[lexer.read..]) == Lexed(text)
      decreases |src| - lexer.read
    {
      NextToken(src, lexer.State());
      var st, tok := lexer.NextSignificant();
      if st != ScannerMachine.LexOk {
        return st == ScannerMachine.LexEof, toks;
      }
      toks := toks + [Token(tok.kind.kind, tok.text)];
    }
  }

  /** Written out, lexed and parsed, a program comes back, exactly if there is room for its printed form. */
  method ReadBack(n: Tree) returns (parsed: Option<Tree>)
    requires WritableBlock(n) && IsLegible(n, true)
    ensures parsed.Some? <==> 1 + BlockRoom(WriteBlock(n)) <= MAX_PARSE_DEPTH
    ensures parsed.Some? ==> Bare(parsed.value) == Bare(n)
  {
    hide Pieces, TokensOf, SpellAll, Bare, WriteBlock, Lines, BlockRoom, ParseRule, WritableBlock, IsLegible;
    SourceIsLexed(n);
    EveryProgramRoundTrips(n);
    var ok, toks := LexAll(Source(n));
    assert ok;
    parsed := ParserMachine.ParseProgram(toks);
  }
}
