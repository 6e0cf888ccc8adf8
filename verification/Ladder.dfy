/**
 The precedence ladder of the older parser (bootstrap-olg/parser.c:745-912, 968-1045, 1268-1321): one loop
 per level, a level for ranges that may look two tokens ahead, a fallback level that does not chain, and
 prefix and postfix operators below.
 */
module Ladder {
  import opened Basics

  datatype Op =
    | Star | Slash | Percent
    | Plus | Minus
    | Shl | Shr | Ushr | ShlCy | ShrCy
    | RangeLe | RangeLt
    | Lt | Gt | Le | Ge
    | Eq | Ne
    | Amp | Caret | Pipe | And | Or
    | QuestQuest

  datatype Kind =
    | Number | Char | Str | True | False
    | Ident
    | LParen | RParen
    | OpKind(op: Op)
    | Bang | Tilde | Recv | Quest
    | LBracket | Dot | LBrace | Is
    | EndOfFile
    | Other(spelling: string) // every kind that the ladder does not look for

  /** `joined`: the next token stands right behind this one. */
  datatype Token = Token(kind: Kind, text: string, joined: bool)

  datatype Node =
    | Literal(kind: Kind, text: string)
    | Name(text: string)
    | Unary(prefix: Kind, operand: Node)      // the receive operator is one, too
    | Unwrap(postfix: Kind, operand: Node)
    | Binary(op: Op, left: Node, right: Node)

  /** The levels, tightest first. */
  type Level = n: nat | n <= 14

  const PRIMARY: Level := 0
  const POSTFIX: Level := 1
  const UNARY: Level := 2
  const RANGE: Level := 6
  const OR: Level := 13
  const FALLBACK: Level := 14

  /** The level that an operator is parsed at. */
  function LevelOf(op: Op): (lvl: Level)
    ensures 3 <= lvl
  {
    match op
    case Star => 3
    case Slash => 3
    case Percent => 3
    case Plus => 4
    case Minus => 4
    case Shl => 5
    case Shr => 5
    case Ushr => 5
    case ShlCy => 5
    case ShrCy => 5
    case RangeLe => RANGE
    case RangeLt => RANGE
    case Lt => 7
    case Gt => 7
    case Le => 7
    case Ge => 7
    case Eq => 8
    case Ne => 8
    case Amp => 9
    case Caret => 10
    case Pipe => 11
    case And => 12
    case Or => OR
    case QuestQuest => FALLBACK
  }

  predicate IsPrefix(k: Kind) {
    k == OpKind(Minus) || k == OpKind(Amp) || k == Bang || k == Tilde || k == Recv
  }

  predicate IsLiteral(k: Kind) {
    k == Number || k == Char || k == Str || k == True || k == False
  }

  predicate IsRangeOp(k: Kind) {
    k == OpKind(RangeLe) || k == OpKind(RangeLt)
  }

  function KindAt(toks: seq<Token>, pos: nat): Kind {
    if pos < |toks| then toks[pos].kind else EndOfFile
  }

  /** The operator of a level that stands at `pos`; a level never chains another's. */
  predicate Continues(toks: seq<Token>, pos: nat, lvl: Level) {
    KindAt(toks, pos).OpKind? && LevelOf(KindAt(toks, pos).op) == lvl
  }

  /** `>` right before `..=` or `..<`: a descending range. */
  predicate Descends(toks: seq<Token>, pos: nat) {
    && pos < |toks| && toks[pos].kind == OpKind(Gt) && toks[pos].joined
    && IsRangeOp(KindAt(toks, pos + 1))
  }

  // ----- the parser as a function -----

  /** A node and the position behind it; `None` on an error, and where a rule beyond the ladder takes over. */
  type Parsed = Option<(Node, nat)>

  predicate Ahead(toks: seq<Token>, pos: nat, r: Parsed) {
    r.Some? ==> pos < r.value.1 <= |toks|
  }

  function Parse(toks: seq<Token>, pos: nat, lvl: Level): (r: Parsed)
    ensures Ahead(toks, pos, r)
    decreases |toks| - pos, lvl, 1
  {
    if lvl == PRIMARY then ParsePrimary(toks, pos)
    else if lvl == UNARY && IsPrefix(KindAt(toks, pos)) then
      var r := if pos < |toks| then Parse(toks, pos + 1, UNARY) else None;
      if r.Some? then Some((Unary(toks[pos].kind, r.value.0), r.value.1)) else None
    else
      var r := Parse(toks, pos, lvl - 1);
      if r.None? || lvl == UNARY then r
      else if lvl == POSTFIX then PostfixLoop(toks, r.value.0, r.value.1)
      else if lvl == FALLBACK then ParseFallback(toks, r.value.0, r.value.1)
      else Loop(toks, r.value.0, r.value.1, lvl)
  }

  /** One rung of the ladder, with its left operand parsed: left-associative. */
  function Loop(toks: seq<Token>, left: Node, pos: nat, lvl: Level): (r: Parsed)
    requires UNARY < lvl < FALLBACK
    ensures r.Some? && pos <= |toks| ==> pos <= r.value.1 <= |toks|
    decreases |toks| - pos, lvl, 0
  {
    if Continues(toks, pos, lvl) then
      var r := Parse(toks, pos + 1, lvl - 1);
      if r.None? then None else Loop(toks, Binary(toks[pos].kind.op, left, r.value.0), r.value.1, lvl)
    else if lvl == RANGE && Descends(toks, pos) then
      var r := Parse(toks, pos + 2, lvl - 1);
      if r.None? then None else Loop(toks, Binary(toks[pos + 1].kind.op, left, r.value.0), r.value.1, lvl)
    else Some((left, pos))
  }

  /** At most one `??`, whose operands have none. */
  function ParseFallback(toks: seq<Token>, left: Node, pos: nat): (r: Parsed)
    ensures r.Some? && pos <= |toks| ==> pos <= r.value.1 <= |toks|
    decreases |toks| - pos, FALLBACK, 0
  {
    if Continues(toks, pos, FALLBACK) then
      var r := Parse(toks, pos + 1, OR);
      if r.None? then None else Some((Binary(QuestQuest, left, r.value.0), r.value.1))
    else Some((left, pos))
  }

  /** Unwraps one after the other; a call, an index or a member access is not part of this model. */
  function PostfixLoop(toks: seq<Token>, e: Node, pos: nat): (r: Parsed)
    ensures r.Some? && pos <= |toks| ==> pos <= r.value.1 <= |toks|
    decreases |toks| - pos, 0, 0
  {
    var k := KindAt(toks, pos);
    if k == Bang || k == Quest then PostfixLoop(toks, Unwrap(k, e), pos + 1)
    else if k == LParen || k == LBracket || k == Dot then None
    else Some((e, pos))
  }

  function ParsePrimary(toks: seq<Token>, pos: nat): (r: Parsed)
    ensures Ahead(toks, pos, r)
    decreases |toks| - pos, 0, 0
  {
    if pos >= |toks| then None
    else if IsLiteral(toks[pos].kind) then Some((Literal(toks[pos].kind, toks[pos].text), pos + 1))
    else if toks[pos].kind == Ident then
      if KindAt(toks, pos + 1) == LBrace then None else Some((Name(toks[pos].text), pos + 1))
    else if toks[pos].kind == LParen then
      var r := ParseExpr(toks, pos + 1);
      if r.None? || KindAt(toks, r.value.1) != RParen then None else Some((r.value.0, r.value.1 + 1))
    else None
  }

  /** An expression; an initializer or an `is` test is not part of this model. */
  function ParseExpr(toks: seq<Token>, pos: nat): (r: Parsed)
    ensures Ahead(toks, pos, r)
    decreases |toks| - pos, 15, 0
  {
    if KindAt(toks, pos) == LBrace then None
    else
      var r := Parse(toks, pos, FALLBACK);
      if r.None? || KindAt(toks, r.value.1) == Is then None else r
  }

  // ----- printing with no more parentheses than the levels need -----

  predicate WellFormed(n: Node) {
    match n
    case Literal(k, _) => IsLiteral(k)
    case Name(_) => true
    case Unary(k, e) => IsPrefix(k) && WellFormed(e)
    case Unwrap(k, e) => (k == Bang || k == Quest) && WellFormed(e)
    case Binary(_, l, r) => WellFormed(l) && WellFormed(r)
  }

  function Own(n: Node): Level {
    match n
    case Literal(_, _) => PRIMARY
    case Name(_) => PRIMARY
    case Unary(_, _) => UNARY
    case Unwrap(_, _) => POSTFIX
    case Binary(op, _, _) => LevelOf(op)
  }

  /** Kinds with the texts that matter. */
  datatype Word = Word(kind: Kind, text: string)

  function Print(n: Node, lvl: Level): (w: seq<Word>)
    ensures w != []
    decreases n, 1
  {
    if Own(n) <= lvl then Bare(n) else [Word(LParen, "")] + Bare(n) + [Word(RParen, "")]
  }

  function Bare(n: Node): (w: seq<Word>)
    ensures w != []
    decreases n, 0
  {
    match n
    case Literal(k, text) => [Word(k, text)]
    case Name(text) => [Word(Ident, text)]
    case Unary(k, e) => [Word(k, "")] + Print(e, UNARY)
    case Unwrap(k, e) => Print(e, POSTFIX) + [Word(k, "")]
    case Binary(op, l, r) =>
      Print(l, if op == QuestQuest then OR else LevelOf(op)) + [Word(OpKind(op), "")] + Print(r, LevelOf(op) - 1)
  }

  /** The words stand at `pos`. */
  predicate Reads(toks: seq<Token>, pos: nat, w: seq<Word>) {
    && pos + |w| <= |toks|
    && forall i :: 0 <= i < |w| ==> toks[pos + i].kind == w[i].kind
                                    && (IsLiteral(w[i].kind) || w[i].kind == Ident ==> toks[pos + i].text == w[i].text)
  }

  /** What stands behind an expression of this level does not continue it. */
  predicate Stops(toks: seq<Token>, pos: nat, lvl: Level) {
    var k := KindAt(toks, pos);
    && k != LBrace
    && (lvl >= POSTFIX ==> k != Bang && k != Quest && k != LParen && k != LBracket && k != Dot)
    && (k.OpKind? ==> LevelOf(k.op) > lvl)
    && (lvl >= RANGE ==> !Descends(toks, pos))
  }

  // ----- parsing what was printed -----

  lemma ReadsJoins(toks: seq<Token>, pos: nat, u: seq<Word>, v: seq<Word>)
    requires Reads(toks, pos, u + v)
    ensures Reads(toks, pos, u) && Reads(toks, pos + |u|, v)
  {
    forall i | 0 <= i < |u|
      ensures (u + v)[i] == u[i]
    {
    }
    forall i | 0 <= i < |v|
      ensures (u + v)[|u| + i] == v[i] && toks[pos + |u| + i] == toks[pos + (|u| + i)]
    {
    }
  }

  lemma ReadsFirst(toks: seq<Token>, pos: nat, w: seq<Word>)
    requires w != [] && Reads(toks, pos, w)
    ensures pos < |toks| && KindAt(toks, pos) == toks[pos].kind == w[0].kind
    ensures IsLiteral(w[0].kind) || w[0].kind == Ident ==> toks[pos].text == w[0].text
  {
    assert toks[pos + 0] == toks[pos];
  }

  // One step of printing and of parsing.

  lemma PrintIs(n: Node, lvl: Level)
    ensures Own(n) <= lvl ==> Print(n, lvl) == Bare(n)
    ensures Own(n) > lvl ==> Print(n, lvl) == [Word(LParen, "")] + (Bare(n) + [Word(RParen, "")])
  {
    hide Bare;
  }

  function LeftLevel(op: Op): Level {
    if op == QuestQuest then OR else LevelOf(op)
  }

  lemma BareIs(n: Node)
    ensures n.Unary? ==> Bare(n) == [Word(n.prefix, "")] + Print(n.operand, UNARY)
    ensures n.Unwrap? ==> Bare(n) == Print(n.operand, POSTFIX) + [Word(n.postfix, "")]
    ensures n.Binary? ==>
      Bare(n) == Print(n.left, LeftLevel(n.op)) + ([Word(OpKind(n.op), "")] + Print(n.right, LevelOf(n.op) - 1))
  {
    hide Print;
  }

  lemma ParseIs(toks: seq<Token>, pos: nat, lvl: Level, e: Node, end: nat)
    requires POSTFIX <= lvl && Parse(toks, pos, lvl - 1) == Some((e, end))
    requires lvl == UNARY ==> !IsPrefix(KindAt(toks, pos))
    ensures Parse(toks, pos, lvl) ==
            if lvl == POSTFIX then PostfixLoop(toks, e, end)
            else if lvl == UNARY then Some((e, end))
            else if lvl == FALLBACK then ParseFallback(toks, e, end)
            else Loop(toks, e, end, lvl)
  {
    hide PostfixLoop, Loop, ParseFallback, ParsePrimary;
  }

  /** What is printed at the postfix level or below does not begin with a prefix operator. */
  lemma {:induction false} StartsPlainly(n: Node, lvl: Level)
    requires WellFormed(n) && lvl <= POSTFIX
    ensures !IsPrefix(Print(n, lvl)[0].kind)
    decreases n
  {
    PrintIs(n, lvl);
    BareIs(n);
    hide Print;
    if Own(n) <= lvl && n.Unwrap? {
      StartsPlainly(n.operand, POSTFIX);
    }
  }

  /** No printed expression begins with a range operator or a brace. */
  lemma {:induction false} StartsWell(n: Node, lvl: Level)
    requires WellFormed(n)
    ensures !IsRangeOp(Print(n, lvl)[0].kind) && Print(n, lvl)[0].kind != LBrace
    decreases n
  {
    PrintIs(n, lvl);
    BareIs(n);
    hide Print;
    if Own(n) <= lvl {
      match n
      case Literal(_, _) =>
      case Name(_) =>
      case Unary(_, _) =>
      case Unwrap(_, e) => StartsWell(e, POSTFIX);
      case Binary(op, l, _) => StartsWell(l, LeftLevel(op));
    }
  }

  lemma StopsLower(toks: seq<Token>, pos: nat, lvl: Level, lower: Level)
    requires Stops(toks, pos, lvl) && lower <= lvl
    ensures Stops(toks, pos, lower)
  {
  }

  lemma LoopsStop(toks: seq<Token>, n: Node, end: nat, lvl: Level)
    requires Stops(toks, end, lvl)
    ensures lvl >= POSTFIX ==> PostfixLoop(toks, n, end) == Some((n, end))
    ensures UNARY < lvl < FALLBACK ==> Loop(toks, n, end, lvl) == Some((n, end))
    ensures lvl == FALLBACK ==> ParseFallback(toks, n, end) == Some((n, end))
  {
    hide Parse;
  }

  /** What a level returns, the looser ones return too, where nothing continues it. */
  lemma {:induction false} Lifts(toks: seq<Token>, pos: nat, own: Level, lvl: Level, n: Node, end: nat)
    requires own <= lvl && Parse(toks, pos, own) == Some((n, end)) && Stops(toks, end, lvl)
    requires own < UNARY <= lvl ==> !IsPrefix(KindAt(toks, pos))
    ensures Parse(toks, pos, lvl) == Some((n, end))
    decreases lvl
  {
    hide Parse, Loop, PostfixLoop, ParseFallback;
    if own < lvl {
      StopsLower(toks, end, lvl, lvl - 1);
      Lifts(toks, pos, own, lvl - 1, n, end);
      ParseIs(toks, pos, lvl, n, end);
      LoopsStop(toks, n, end, lvl);
    }
  }

  /**
   Parsing is the inverse of printing: an expression printed for a level is parsed at that level to the
   same tree, up to the end of what was printed.
   */
  lemma {:induction false} PrintedParses(toks: seq<Token>, pos: nat, n: Node, lvl: Level)
    requires WellFormed(n) && Reads(toks, pos, Print(n, lvl)) && Stops(toks, pos + |Print(n, lvl)|, lvl)
    ensures Parse(toks, pos, lvl) == Some((n, pos + |Print(n, lvl)|))
    decreases n, 4
  {
    hide Parse, Print, Bare, Reads, Stops;
    var end := pos + |Print(n, lvl)|;
    PrintIs(n, lvl);
    if Own(n) > lvl {
      ParenParses(toks, pos, n);
      ReadsFirst(toks, pos, Print(n, lvl));
      Lifts(toks, pos, PRIMARY, lvl, n, end);
    } else {
      StopsLower(toks, end, lvl, Own(n));
      BareParses(toks, pos, n);
      Lifts(toks, pos, Own(n), lvl, n, end);
    }
  }

  /** Without parentheses, an expression is parsed at its own level. */
  lemma BareParses(toks: seq<Token>, pos: nat, n: Node)
    requires WellFormed(n) && Reads(toks, pos, Bare(n)) && Stops(toks, pos + |Bare(n)|, Own(n))
    ensures Parse(toks, pos, Own(n)) == Some((n, pos + |Bare(n)|))
    ensures Own(n) < UNARY ==> !IsPrefix(KindAt(toks, pos))
    decreases n, 1
  {
    hide Parse, Print, Bare, Reads;
    if Own(n) > UNARY {
      OperationParses(toks, pos, n);
    } else {
      if Own(n) < UNARY {
        PrintIs(n, POSTFIX);
        StartsPlainly(n, POSTFIX);
        ReadsFirst(toks, pos, Bare(n));
      }
      SimpleParses(toks, pos, n);
    }
  }

  /** In parentheses, any expression is a primary one. */
  lemma ParenParses(toks: seq<Token>, pos: nat, n: Node)
    requires WellFormed(n) && Reads(toks, pos, [Word(LParen, "")] + (Bare(n) + [Word(RParen, "")]))
    ensures Parse(toks, pos, PRIMARY) == Some((n, pos + |Bare(n)| + 2))
    decreases n, 3
  {
    hide Parse, Print, Bare, Reads;
    var close := [Word(RParen, "")];
    ReadsJoins(toks, pos, [Word(LParen, "")], Bare(n) + close);
    ReadsFirst(toks, pos, [Word(LParen, "")]);
    ReadsJoins(toks, pos + 1, Bare(n), close);
    ReadsFirst(toks, pos + 1 + |Bare(n)|, close);
    PrintIs(n, FALLBACK);
    StartsWell(n, FALLBACK);
    ReadsFirst(toks, pos + 1, Bare(n));
    InnerParses(toks, pos + 1, n);
    PrimaryIs(toks, pos);
  }

  lemma PrimaryIs(toks: seq<Token>, pos: nat)
    requires KindAt(toks, pos) == LParen
    ensures
      var r := ParseExpr(toks, pos + 1);
      Parse(toks, pos, PRIMARY) ==
      if r.None? || KindAt(toks, r.value.1) != RParen then None else Some((r.value.0, r.value.1 + 1))
  {
    hide ParseExpr;
  }

  lemma InnerParses(toks: seq<Token>, pos: nat, n: Node)
    requires WellFormed(n) && Reads(toks, pos, Bare(n)) && KindAt(toks, pos + |Bare(n)|) == RParen
    requires KindAt(toks, pos) != LBrace
    ensures ParseExpr(toks, pos) == Some((n, pos + |Bare(n)|))
    decreases n, 2
  {
    hide Parse, Print, Bare, Reads;
    BareParses(toks, pos, n);
    Lifts(toks, pos, Own(n), FALLBACK, n, pos + |Bare(n)|);
  }

  /** Literals, names, and prefix and postfix operators, each at its own level. */
  lemma SimpleParses(toks: seq<Token>, pos: nat, n: Node)
    requires WellFormed(n) && Own(n) <= UNARY && Reads(toks, pos, Bare(n)) && Stops(toks, pos + |Bare(n)|, Own(n))
    ensures Parse(toks, pos, Own(n)) == Some((n, pos + |Bare(n)|))
    decreases n, 0, 2
  {
    hide Print, Bare, Reads, Parse, PostfixLoop, WellFormed, Stops;
    SimpleStops(toks, pos + |Bare(n)|, n);
    BareIs(n);
    match n
    case Literal(_, _) => AtomParses(toks, pos, n);
    case Name(_) => AtomParses(toks, pos, n);
    case Unary(k, e) =>
      PartsWellFormed(n);
      ReadsJoins(toks, pos, [Word(k, "")], Print(e, UNARY));
      ReadsFirst(toks, pos, [Word(k, "")]);
      PrintedParses(toks, pos + 1, e, UNARY);
      PrefixIs(toks, pos);
    case Unwrap(_, _) =>
      PrintIs(n, POSTFIX);
      UnwrapRuns(toks, pos, n);
      LoopsStop(toks, n, pos + |Bare(n)|, POSTFIX);
  }

  lemma SimpleStops(toks: seq<Token>, pos: nat, n: Node)
    requires Stops(toks, pos, Own(n))
    ensures KindAt(toks, pos) != LBrace
  {
  }

  lemma PartsWellFormed(n: Node)
    requires WellFormed(n)
    ensures n.Unary? ==> IsPrefix(n.prefix) && WellFormed(n.operand)
    ensures n.Unwrap? ==> (n.postfix == Bang || n.postfix == Quest) && WellFormed(n.operand)
    ensures n.Binary? ==> WellFormed(n.left) && WellFormed(n.right)
  {
  }

  lemma PrefixIs(toks: seq<Token>, pos: nat)
    requires pos < |toks| && IsPrefix(toks[pos].kind)
    ensures
      var r := Parse(toks, pos + 1, UNARY);
      Parse(toks, pos, UNARY) == if r.Some? then Some((Unary(toks[pos].kind, r.value.0), r.value.1)) else None
  {
    hide Loop, PostfixLoop, ParsePrimary, ParseFallback;
  }

  /** Unwraps are gathered one after the other around the primary expression. */
  lemma {:induction false} UnwrapRuns(toks: seq<Token>, pos: nat, n: Node)
    requires WellFormed(n) && Reads(toks, pos, Print(n, POSTFIX))
    requires KindAt(toks, pos + |Print(n, POSTFIX)|) != LBrace
    ensures Parse(toks, pos, POSTFIX) == PostfixLoop(toks, n, pos + |Print(n, POSTFIX)|)
    decreases n, if n.Unwrap? then 0 else 5, 1
  {
    hide Print, Bare, Reads, Parse, WellFormed, Stops;
    PartsWellFormed(n);
    PrintIs(n, POSTFIX);
    BareIs(n);
    var end := pos + |Print(n, POSTFIX)|;
    if n.Unwrap? {
      var w := Print(n.operand, POSTFIX);
      ReadsJoins(toks, pos, w, [Word(n.postfix, "")]);
      ReadsFirst(toks, pos + |w|, [Word(n.postfix, "")]);
      UnwrapRuns(toks, pos, n.operand);
    } else if Own(n) > POSTFIX {
      hide PostfixLoop;
      ParenParses(toks, pos, n);
      ParseIs(toks, pos, POSTFIX, n, end);
    } else {
      hide PostfixLoop;
      AtomParses(toks, pos, n);
      ParseIs(toks, pos, POSTFIX, n, end);
    }
  }

  lemma AtomParses(toks: seq<Token>, pos: nat, n: Node)
    requires WellFormed(n) && Own(n) == PRIMARY && Reads(toks, pos, Bare(n)) && KindAt(toks, pos + |Bare(n)|) != LBrace
    ensures Parse(toks, pos, PRIMARY) == Some((n, pos + |Bare(n)|))
  {
    ReadsFirst(toks, pos, Bare(n));
  }

  /** The pieces of a printed operation. */
  lemma OperationPieces(toks: seq<Token>, pos: nat, n: Node)
    requires n.Binary? && WellFormed(n) && Reads(toks, pos, Bare(n))
    ensures
      var u, v := Print(n.left, LeftLevel(n.op)), Print(n.right, LevelOf(n.op) - 1);
      var mid := pos + |u|;
      && Reads(toks, pos, u) && KindAt(toks, mid) == OpKind(n.op) && Reads(toks, mid + 1, v)
      && |Bare(n)| == |u| + 1 + |v| && !Descends(toks, mid)
  {
    hide Bare, Print, Reads;
    BareIs(n);
    var u, v := Print(n.left, LeftLevel(n.op)), Print(n.right, LevelOf(n.op) - 1);
    var op := [Word(OpKind(n.op), "")];
    ReadsJoins(toks, pos, u, op + v);
    ReadsJoins(toks, pos + |u|, op, v);
    ReadsFirst(toks, pos + |u|, op);
    StartsWell(n.right, LevelOf(n.op) - 1);
    ReadsFirst(toks, pos + |u| + 1, v);
  }

  /** A binary operation at its own level. */
  lemma OperationParses(toks: seq<Token>, pos: nat, n: Node)
    requires WellFormed(n) && Own(n) > UNARY && Reads(toks, pos, Bare(n)) && Stops(toks, pos + |Bare(n)|, Own(n))
    ensures Parse(toks, pos, Own(n)) == Some((n, pos + |Bare(n)|))
    decreases n, 0, 2
  {
    hide Bare, Print, Reads, Parse, Loop;
    var end := pos + |Bare(n)|;
    StopsLower(toks, end, Own(n), Own(n) - 1);
    if n.op == QuestQuest {
      FallbackParses(toks, pos, n);
    } else {
      PrintIs(n, Own(n));
      ChainRuns(toks, pos, n, Own(n));
      LoopsStop(toks, n, end, Own(n));
    }
  }

  lemma FallbackParses(toks: seq<Token>, pos: nat, n: Node)
    requires n.Binary? && n.op == QuestQuest && WellFormed(n) && Reads(toks, pos, Bare(n))
    requires Stops(toks, pos + |Bare(n)|, OR)
    ensures Parse(toks, pos, FALLBACK) == Some((n, pos + |Bare(n)|))
    decreases n, 0, 0
  {
    hide Bare, Print, Reads, Parse;
    OperationPieces(toks, pos, n);
    var mid := pos + |Print(n.left, OR)|;
    OperatorStops(toks, mid, QuestQuest, OR);
    PrintedParses(toks, pos, n.left, OR);
    PrintedParses(toks, mid + 1, n.right, OR);
    ParseIs(toks, pos, FALLBACK, n.left, mid);
  }

  /** An operator of a looser level stops a tighter one. */
  lemma OperatorStops(toks: seq<Token>, pos: nat, op: Op, lvl: Level)
    requires KindAt(toks, pos) == OpKind(op) && LevelOf(op) > lvl && !Descends(toks, pos)
    ensures Stops(toks, pos, lvl)
  {
  }

  lemma LoopStep(toks: seq<Token>, left: Node, pos: nat, lvl: Level, right: Node, end: nat)
    requires UNARY < lvl < FALLBACK && Continues(toks, pos, lvl) && Parse(toks, pos + 1, lvl - 1) == Some((right, end))
    ensures pos < |toks| && toks[pos].kind.OpKind?
    ensures Loop(toks, left, pos, lvl) == Loop(toks, Binary(toks[pos].kind.op, left, right), end, lvl)
  {
    hide Parse;
  }

  /** A rung's loop folds to the left: behind the whole chain it stands with the chain's tree. */
  lemma {:induction false} ChainRuns(toks: seq<Token>, pos: nat, n: Node, lvl: Level)
    requires UNARY < lvl < FALLBACK && WellFormed(n) && Reads(toks, pos, Print(n, lvl))
    requires Stops(toks, pos + |Print(n, lvl)|, lvl - 1)
    ensures Parse(toks, pos, lvl) == Loop(toks, n, pos + |Print(n, lvl)|, lvl)
    decreases n, if Own(n) == lvl then 0 else 5, 1
  {
    hide Bare, Print, Reads, Parse, WellFormed, Stops;
    PartsWellFormed(n);
    PrintIs(n, lvl);
    if Own(n) == lvl {
      hide Loop;
      OperationPieces(toks, pos, n);
      var mid := pos + |Print(n.left, lvl)|;
      OperatorStops(toks, mid, n.op, lvl - 1);
      ChainRuns(toks, pos, n.left, lvl);
      PrintedParses(toks, mid + 1, n.right, lvl - 1);
      LoopStep(toks, n.left, mid, lvl, n.right, pos + |Print(n, lvl)|);
    } else {
      hide Loop;
      PrintIs(n, lvl - 1);
      PrintedParses(toks, pos, n, lvl - 1);
      ParseIs(toks, pos, lvl, n, pos + |Print(n, lvl)|);
    }
  }
}
