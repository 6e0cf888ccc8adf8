/**
 The parser is never broken: with the language's own grammar, on every token stream, no reducer's
 assertion fails, no reducer is handed anything but what it casts its arguments to, and no loop runs
 without progress.
 */
module ParserSafety {
  import opened Basics
  import opened Tokens
  import opened Ast
  import opened Grammar
  import opened Engine
  import opened Refusals
  import PrintParse

  // ----- the trees that the rules build -----

  /** What an expression rule builds; the arms of its `if` may be statements or blocks. */
  predicate ParsedExpr(n: Tree)
    decreases n, 1
  {
    match n
    case Value(_, kind, _) => kind in {IntegerValue, BoolValue}
    case Id(_, _) => true
    case Expr(_, op, l, r) => IsArithmetic(op) && ParsedExpr(l) && ParsedExpr(r)
    case UExpr(_, op, e) => op == TokMinus && ParsedExpr(e)
    case IfExpr(_, _, _, _) => ParsedIf(n)
    case _ => false
  }

  predicate ParsedStmt(n: Tree)
    decreases n, 1
  {
    match n
    case Echo(_, e) => ParsedExpr(e)
    case Define(_, id, e) => id.Id? && ParsedExpr(e)
    case Assign(_, l, e) => ParsedExpr(l) && ParsedExpr(e)
    case IfStmt(_, _, _, _) => ParsedIf(n)
    case _ => false
  }

  predicate ParsedBlock(n: Tree)
    decreases n, 1
  {
    n.Block? && forall k :: 0 <= k < |n.stmts| ==> ParsedStmt(n.stmts[k])
  }

  /** The arms of an `if`: two expressions, one statement, or one or two blocks. */
  predicate ParsedIf(n: Tree)
    requires n.IfExpr? || n.IfStmt?
    decreases n, 0
  {
    && ParsedExpr(n.cond)
    && ((ParsedExpr(n.thenArm) && n.elseArm.Some? && ParsedExpr(n.elseArm.value))
        || (ParsedStmt(n.thenArm) && n.elseArm.None?)
        || (ParsedBlock(n.thenArm) && (n.elseArm.Some? ==> ParsedBlock(n.elseArm.value))))
  }

  predicate IsExprRule(id: RuleId) {
    id in {ExprFactor, ExprUnary, ExprTerm, ExprPrime}
  }

  /** What a rule reduces to. */
  predicate Fits(id: RuleId, a: Arg) {
    match id
    case IfTail => a.PartsArg? && ParsedIf(IfExpr(0, a.cond, a.thenArm, a.elseArm))
    case ExprFactor => a.NodeArg? && ParsedExpr(a.node)
    case ExprUnary => a.NodeArg? && ParsedExpr(a.node)
    case ExprTerm => a.NodeArg? && ParsedExpr(a.node)
    case ExprPrime => a.NodeArg? && ParsedExpr(a.node)
    case StmtSep => a.NullArg?
    case StmtSeps => a.NullArg?
    case StmtOptSeps => a.NullArg?
    case Stmt => a.NodeArg? && ParsedStmt(a.node)
    case StmtNext => a.NodeArg? && ParsedStmt(a.node)
    case Stmts => a.NodeArg? && ParsedBlock(a.node)
    case BlockRule => a.NodeArg? && ParsedBlock(a.node)
    case BracedBlock => a.NodeArg? && ParsedBlock(a.node)
    case Prog => a.NodeArg? && ParsedBlock(a.node)
  }

  predicate ArgFits(toks: Stream, n: ProdNode, a: Arg) {
    match n
    case Term(kind) => IsToken(toks, a, kind)
    case Rule(id) => Fits(id, a)
    case List(id) => a.NullArg? || (a.NodeArg? && ParsedBlock(a.node))
    case Reduce(_) => false
  }

  /** The rules that never match without reading a token: only these may be repeated in a list. */
  predicate Consumes(id: RuleId) {
    id in {StmtSep, StmtSeps, StmtNext}
  }

  // ----- what the table keeps to -----

  /** The second production of `braced_block` hands three arguments to a reducer that asserts none. */
  predicate Faulty(id: RuleId, i: nat) {
    id == BracedBlock && i == 1
  }

  ghost predicate ArgsFit(g: Grammar, toks: Stream, id: RuleId, i: nat, args: seq<Arg>) {
    forall k :: 0 <= k < |args| ==>
      NodeAt(g, id, i, k).Some? && ArgFits(toks, NodeAt(g, id, i, k).value, args[k])
  }

  /** Wherever a reducer stands and its arguments fit, its assertions hold and its result fits the rule. */
  lemma ReduceFits(g: Grammar, toks: Stream, id: RuleId, i: nat, args: seq<Arg>)
    requires IsLanguage(g) && !Faulty(id, i) && ArgsFit(g, toks, id, i, args)
    requires NodeAt(g, id, i, |args|).Some? && NodeAt(g, id, i, |args|).value.Reduce?
    ensures
      var v := Apply(NodeAt(g, id, i, |args|).value.f, toks, args);
      v.Some? && Fits(id, v.value)
  {
    assert g(id) == Language(id);
    var nodes := g(id).productions[i].nodes;
    forall k | 0 <= k < |args|
      ensures ArgFits(toks, nodes[k], args[k])
    {
      assert NodeAt(g, id, i, k) == Some(nodes[k]);
    }
    match id
    case IfTail => IfTailFits(toks, i, args);
    case ExprFactor => FactorFits(toks, i, args);
    case ExprUnary => UnaryFits(toks, i, args);
    case ExprTerm => ChainFits(toks, ExprUnary, TokStar, TokSlash, i, args);
    case ExprPrime => ChainFits(toks, ExprTerm, TokPlus, TokMinus, i, args);
    case Stmt => StmtFits(toks, i, args);
    case Stmts => StmtsFits(toks, i, args);
    case BlockRule => BlocksFit(toks, id, i, args);
    case BracedBlock => BlocksFit(toks, id, i, args);
    case Prog => BlocksFit(toks, id, i, args);
    case StmtNext => BlocksFit(toks, id, i, args);
    case _ => SepsFit(toks, id, i, args);
  }

  predicate NodesFit(toks: Stream, nodes: seq<ProdNode>, args: seq<Arg>) {
    |args| < |nodes| && nodes[|args|].Reduce? && forall k :: 0 <= k < |args| ==> ArgFits(toks, nodes[k], args[k])
  }

  lemma IfTailFits(toks: Stream, i: nat, args: seq<Arg>)
    requires i < |IfTailRule().productions| && NodesFit(toks, IfTailRule().productions[i].nodes, args)
    ensures
      var v := Apply(IfTailRule().productions[i].nodes[|args|].f, toks, args);
      v.Some? && Fits(IfTail, v.value)
  {
  }

  lemma FactorFits(toks: Stream, i: nat, args: seq<Arg>)
    requires i < |FactorRule().productions| && NodesFit(toks, FactorRule().productions[i].nodes, args)
    ensures
      var v := Apply(FactorRule().productions[i].nodes[|args|].f, toks, args);
      v.Some? && Fits(ExprFactor, v.value)
  {
  }

  lemma UnaryFits(toks: Stream, i: nat, args: seq<Arg>)
    requires i < |UnaryRule().productions| && NodesFit(toks, UnaryRule().productions[i].nodes, args)
    ensures
      var v := Apply(UnaryRule().productions[i].nodes[|args|].f, toks, args);
      v.Some? && Fits(ExprUnary, v.value)
  {
  }

  lemma ChainFits(toks: Stream, sub: RuleId, op1: TokenKind, op2: TokenKind, i: nat, args: seq<Arg>)
    requires IsExprRule(sub) && IsArithmetic(op1) && IsArithmetic(op2)
    requires i < 3 && NodesFit(toks, ChainRule(sub, op1, op2).productions[i].nodes, args)
    ensures
      var v := Apply(ChainRule(sub, op1, op2).productions[i].nodes[|args|].f, toks, args);
      v.Some? && v.value.NodeArg? && ParsedExpr(v.value.node)
  {
    hide ParsedExpr, Apply, Fits, ArgFits;
    var nodes := ChainRule(sub, op1, op2).productions[i].nodes;
    if i == 2 {
      assert nodes == [Rule(sub), Reduce(ReduceSingle)];
      OperandFits(toks, sub, args[0]);
      AloneFits(toks, args);
    } else {
      var op := if i == 0 then op1 else op2;
      assert nodes == [Rule(sub), Term(op), Rule(sub), Reduce(ReduceExprOpExpr)];
      OperandFits(toks, sub, args[0]);
      OperatorFits(toks, op, args[1]);
      OperandFits(toks, sub, args[2]);
      OperationFits(toks, args);
    }
  }

  lemma OperandFits(toks: Stream, sub: RuleId, a: Arg)
    requires IsExprRule(sub) && ArgFits(toks, Rule(sub), a)
    ensures a.NodeArg? && ParsedExpr(a.node)
  {
    hide ParsedExpr;
  }

  lemma OperatorFits(toks: Stream, op: TokenKind, a: Arg)
    requires ArgFits(toks, Term(op), a)
    ensures IsToken(toks, a, op)
  {
  }

  lemma OperationFits(toks: Stream, args: seq<Arg>)
    requires |args| == 3 && args[0].NodeArg? && args[1].TokenArg? && args[2].NodeArg?
    requires ParsedExpr(args[0].node) && IsArithmetic(KindAt(toks, args[1].at)) && ParsedExpr(args[2].node)
    ensures
      var v := Apply(ReduceExprOpExpr, toks, args);
      v.Some? && v.value.NodeArg? && ParsedExpr(v.value.node)
  {
  }

  lemma AloneFits(toks: Stream, args: seq<Arg>)
    requires |args| == 1
    ensures Apply(ReduceSingle, toks, args) == Some(args[0])
  {
  }

  lemma StmtFits(toks: Stream, i: nat, args: seq<Arg>)
    requires i < |StmtRule().productions| && NodesFit(toks, StmtRule().productions[i].nodes, args)
    ensures
      var v := Apply(StmtRule().productions[i].nodes[|args|].f, toks, args);
      v.Some? && Fits(Stmt, v.value)
  {
  }

  lemma StmtsFits(toks: Stream, i: nat, args: seq<Arg>)
    requires i < 2 && NodesFit(toks, Language(Stmts).productions[i].nodes, args)
    ensures
      var v := Apply(Language(Stmts).productions[i].nodes[|args|].f, toks, args);
      v.Some? && Fits(Stmts, v.value)
  {
    var nodes := Language(Stmts).productions[i].nodes;
    if i == 0 {
      assert ArgFits(toks, nodes[0], args[0]) && ArgFits(toks, nodes[1], args[1]);
      PrependFits(toks, args);
    }
  }

  lemma PrependFits(toks: Stream, args: seq<Arg>)
    requires |args| == 2 && args[0].NodeArg? && ParsedStmt(args[0].node)
    requires args[1].NullArg? || (args[1].NodeArg? && ParsedBlock(args[1].node))
    ensures
      var v := Apply(ReduceStmtStmts, toks, args);
      v.Some? && v.value.NodeArg? && ParsedBlock(v.value.node)
  {
    assert IsStmtNode(args[0].node);
    var rest := if args[1].NullArg? then [] else args[1].node.stmts;
    var all := [args[0].node] + rest;
    forall k | 0 <= k < |all|
      ensures ParsedStmt(all[k])
    {
      assert k > 0 ==> all[k] == rest[k - 1];
    }
  }

  lemma BlocksFit(toks: Stream, id: RuleId, i: nat, args: seq<Arg>)
    requires id in {StmtNext, BlockRule, BracedBlock, Prog} && !Faulty(id, i)
    requires i < |Language(id).productions| && NodesFit(toks, Language(id).productions[i].nodes, args)
    ensures
      var v := Apply(Language(id).productions[i].nodes[|args|].f, toks, args);
      v.Some? && Fits(id, v.value)
  {
    hide ParsedStmt, ParsedBlock;
  }

  lemma SepsFit(toks: Stream, id: RuleId, i: nat, args: seq<Arg>)
    requires id in {StmtSep, StmtSeps, StmtOptSeps}
    requires i < |Language(id).productions| && NodesFit(toks, Language(id).productions[i].nodes, args)
    ensures
      var v := Apply(Language(id).productions[i].nodes[|args|].f, toks, args);
      v.Some? && Fits(id, v.value)
  {
    hide ArgFits;
  }

  // ----- what else the table keeps to -----

  predicate IsTermNode(n: Option<ProdNode>) {
    n.Some? && n.value.Term?
  }

  /** No rule waits for the end of file; lists repeat only rules that consume; folds are at node 1. */
  predicate TableOk(g: Grammar, id: RuleId, i: nat, j: nat) {
    var n := NodeAt(g, id, i, j);
    && (n.Some? && n.value.Term? ==> n.value.kind != TokUndef)
    && (n.Some? && n.value.List? ==> n.value.id == StmtSep || n.value.id == StmtNext)
    && (n.Some? && n.value.Reduce? && Consumes(id) ==> j >= 1)
    && (n.Some? && j == 0 && Consumes(id) ==> n.value.Term? || (n.value.Rule? && Consumes(n.value.id)))
  }

  predicate NodeOk(id: RuleId, n: ProdNode, j: nat) {
    && (n.Term? ==> n.kind != TokUndef)
    && (n.List? ==> n.id == StmtSep || n.id == StmtNext)
    && (n.Reduce? && Consumes(id) ==> j >= 1)
    && (j == 0 && Consumes(id) ==> n.Term? || (n.Rule? && Consumes(n.id)))
  }

  predicate RuleOk(id: RuleId, r: GrammarRule) {
    forall i :: 0 <= i < |r.productions| ==> ProductionOk(id, r.productions[i])
  }

  predicate ProductionOk(id: RuleId, p: Production) {
    forall j :: 0 <= j < |p.nodes| ==> NodeOk(id, p.nodes[j], j)
  }

  lemma TableIsOk(g: Grammar, id: RuleId, i: nat, j: nat)
    requires IsLanguage(g)
    ensures TableOk(g, id, i, j)
  {
    hide Language, RuleOk, TableOk;
    RulesAreOk(id);
    assert g(id) == Language(id);
    RuleOkTable(g, id, i, j);
  }

  lemma RuleOkTable(g: Grammar, id: RuleId, i: nat, j: nat)
    requires RuleOk(id, g(id))
    ensures TableOk(g, id, i, j)
  {
    if NodeAt(g, id, i, j).Some? {
      assert ProductionOk(id, g(id).productions[i]);
      assert NodeOk(id, g(id).productions[i].nodes[j], j);
    }
  }

  lemma RulesAreOk(id: RuleId)
    ensures RuleOk(id, Language(id))
  {
    match id
    case IfTail => IfTailIsOk();
    case ExprFactor => FactorIsOk();
    case ExprTerm => ChainIsOk(id, ExprUnary, TokStar, TokSlash);
    case ExprPrime => ChainIsOk(id, ExprTerm, TokPlus, TokMinus);
    case Stmt => StmtIsOk();
    case _ => OthersAreOk(id);
  }

  lemma IfTailIsOk()
    ensures RuleOk(IfTail, IfTailRule())
  {
  }

  lemma FactorIsOk()
    ensures RuleOk(ExprFactor, FactorRule())
  {
  }

  lemma ChainIsOk(id: RuleId, sub: RuleId, op1: TokenKind, op2: TokenKind)
    requires !Consumes(id) && op1 != TokUndef && op2 != TokUndef
    ensures RuleOk(id, ChainRule(sub, op1, op2))
  {
    var prods := ChainRule(sub, op1, op2).productions;
    NodesOk(id, [Rule(sub), Term(op1), Rule(sub)], ReduceExprOpExpr);
    assert prods[0].nodes == [Rule(sub), Term(op1), Rule(sub)] + [Reduce(ReduceExprOpExpr)];
    NodesOk(id, [Rule(sub), Term(op2), Rule(sub)], ReduceExprOpExpr);
    assert prods[1].nodes == [Rule(sub), Term(op2), Rule(sub)] + [Reduce(ReduceExprOpExpr)];
    NodesOk(id, [Rule(sub)], ReduceSingle);
    assert prods[2].nodes == [Rule(sub)] + [Reduce(ReduceSingle)];
  }

  lemma NodesOk(id: RuleId, nodes: seq<ProdNode>, f: Reducer)
    requires !Consumes(id)
    requires forall k :: 0 <= k < |nodes| ==> nodes[k].Rule? || (nodes[k].Term? && nodes[k].kind != TokUndef)
    ensures forall left: bool :: ProductionOk(id, Production(left, nodes + [Reduce(f)]))
  {
  }

  lemma StmtIsOk()
    ensures RuleOk(Stmt, StmtRule())
  {
  }

  lemma OthersAreOk(id: RuleId)
    requires id !in {IfTail, ExprFactor, ExprTerm, ExprPrime, Stmt}
    ensures RuleOk(id, Language(id))
  {
  }

  lemma FoldsAreOk(g: Grammar, id: RuleId, i: nat)
    requires IsLanguage(g)
    ensures FoldsAt(g, id, i) <= 0 || (
      && FoldsAt(g, id, i) == 1 && IsTermNode(NodeAt(g, id, i, 1)) && IsExprRule(id)
      && NodeAt(g, id, 0, 0).Some? && NodeAt(g, id, 0, 0).value.Rule? && IsExprRule(NodeAt(g, id, 0, 0).value.id)
      && NodeAt(g, id, 0, 2).Some? && (
        forall j :: NodeAt(g, id, i, j).Some? && NodeAt(g, id, i, j).value.Reduce? ==> j >= 2))
  {
    assert g(id) == Language(id);
  }

  lemma SharedNodes(g: Grammar, id: RuleId, i: nat, j: nat, k: nat)
    requires Shared(g, id, i, j) && k < j && Exists(g, id, i)
    ensures NodeAt(g, id, i + 1, k) == NodeAt(g, id, i, k)
  {
    var p1, p2 := g(id).productions[i], g(id).productions[i + 1];
    assert p1.nodes[..j][k] == p2.nodes[..j][k];
  }

  // ----- safety -----

  /** An outcome that is not broken, with the value that the rule should give and a position that makes sense. */
  predicate Safe(toks: Stream, id: RuleId, start: nat, o: Outcome) {
    match o
    case Reduced(v, pos) => Fits(id, v) && start <= pos <= |toks| && (Consumes(id) ==> start < pos)
    case Refused(pos) => start <= pos <= |toks|
    case TooDeep => true
    case Broken => false
  }

  predicate SafeList(toks: Stream, start: nat, o: Outcome) {
    match o
    case Reduced(v, pos) => (v.NullArg? || (v.NodeArg? && ParsedBlock(v.node))) && start <= pos <= |toks|
    case Refused(_) => false
    case TooDeep => true
    case Broken => false
  }

  /** The loop invariant of an activation that began at `start`. */
  ghost predicate Sound(g: Grammar, toks: Stream, fr: Frame, start: nat) {
    && start <= fr.floor <= fr.chk <= fr.pos <= |toks|
    && |fr.args| == fr.j && ArgsFit(g, toks, fr.id, fr.i, fr.args)
    && (Consumes(fr.id) && fr.j >= 1 ==> start < fr.pos)
    && (fr.j >= 2 && IsTermNode(NodeAt(g, fr.id, fr.i, 1)) ==> fr.floor < fr.pos)
    && (fr.folded ==> fr.j >= 1 && Fits(fr.id, fr.args[0]))
  }

  lemma StartIsSound(g: Grammar, toks: Stream, id: RuleId, pos: nat)
    requires pos <= |toks|
    ensures Sound(g, toks, Start(id, pos), pos)
  {
  }

  lemma CollectIsSound(g: Grammar, toks: Stream, fr: Frame, start: nat, a: Arg, pos: nat)
    requires Sound(g, toks, fr, start) && NodeAt(g, fr.id, fr.i, fr.j).Some?
    requires ArgFits(toks, NodeAt(g, fr.id, fr.i, fr.j).value, a)
    requires fr.pos <= pos <= |toks|
    requires NodeAt(g, fr.id, fr.i, fr.j).value.Term? || (fr.j == 0 && Consumes(fr.id)) ==> fr.pos < pos
    ensures Sound(g, toks, Collect(fr, a, pos), start)
  {
    hide Fits, ArgFits, NodeAt, Consumes;
  }

  lemma HandOverIsSound(g: Grammar, toks: Stream, fr: Frame, start: nat)
    requires Sound(g, toks, fr, start) && Exists(g, fr.id, fr.i) && Shared(g, fr.id, fr.i, fr.j)
    ensures Sound(g, toks, HandOver(fr), start)
  {
    forall k | 0 <= k < fr.j
      ensures NodeAt(g, fr.id, fr.i + 1, k) == NodeAt(g, fr.id, fr.i, k)
    {
      SharedNodes(g, fr.id, fr.i, fr.j, k);
    }
    hide Fits, ArgFits, NodeAt, Consumes, Shared, Exists;
  }

  lemma RollBackIsSound(g: Grammar, toks: Stream, fr: Frame, start: nat)
    requires Sound(g, toks, fr, start)
    ensures Sound(g, toks, RollBack(fr), start)
  {
    hide Fits, ArgFits, NodeAt;
  }

  lemma RefoldIsSound(g: Grammar, toks: Stream, fr: Frame, start: nat, v: Arg)
    requires IsLanguage(g) && Sound(g, toks, fr, start) && FoldsAt(g, fr.id, fr.i) == 1 && Fits(fr.id, v)
    ensures Sound(g, toks, Refold(fr, v, 1), start)
  {
    FoldsAreOk(g, fr.id, fr.i);
    var sub := NodeAt(g, fr.id, 0, 0).value.id;
    ExprRulesAgree(fr.id, sub, v);
    hide NodeAt, FoldsAt, IsLanguage, Fits;
  }

  lemma ExprRulesAgree(id: RuleId, sub: RuleId, v: Arg)
    requires IsExprRule(id) && IsExprRule(sub) && Fits(id, v)
    ensures Fits(sub, v) && !Consumes(id)
  {
    hide ParsedExpr;
  }

  lemma MatchedIsWithin(toks: Stream, pos: nat, skip: bool, kind: TokenKind)
    requires pos <= |toks| && kind != TokUndef && KindAt(toks, Look(toks, pos, skip)) == kind
    ensures pos <= Look(toks, pos, skip) < |toks|
  {
  }

  lemma {:induction false} RunIsSafe(g: Grammar, toks: Stream, fr: Frame, start: nat, depth: nat)
    requires IsLanguage(g) && Sound(g, toks, fr, start) && fr.id != BracedBlock
    ensures Safe(toks, fr.id, start, Run(g, toks, fr, depth))
    decreases MAX_PARSE_DEPTH - depth, 2, |toks| - fr.floor, |g(fr.id).productions| - fr.i, NodesLeft(g, fr)
  {
    hide Run, ParseRule, ParseList, IsLanguage, Sound, NodeAt, Shared, FoldsAt, Apply, Look, Fits, ArgFits;
    if !Exists(g, fr.id, fr.i) {
      RunsOut(g, toks, fr, depth);
      SoundPlaces(g, toks, fr, start);
    } else {
      TableIsOk(g, fr.id, fr.i, fr.j);
      match NodeAt(g, fr.id, fr.i, fr.j)
      case None =>
        EndStep(g, toks, fr, depth);
        RollBackIsSafe(g, toks, fr, start, depth);
      case Some(Term(kind)) => TermIsSafe(g, toks, fr, start, depth, kind);
      case Some(Rule(id)) => RuleIsSafe(g, toks, fr, start, depth, id);
      case Some(List(id)) => ListIsSafe(g, toks, fr, start, depth, id);
      case Some(Reduce(f)) => ReduceIsSafe(g, toks, fr, start, depth, f);
    }
  }

  lemma SoundPlaces(g: Grammar, toks: Stream, fr: Frame, start: nat)
    requires Sound(g, toks, fr, start)
    ensures start <= fr.floor <= fr.chk <= fr.pos <= |toks|
    ensures Consumes(fr.id) && fr.j >= 1 ==> start < fr.pos
    ensures fr.j >= 2 && IsTermNode(NodeAt(g, fr.id, fr.i, 1)) ==> fr.floor < fr.pos
    ensures fr.folded ==> Safe(toks, fr.id, start, Reduced(Folded(fr), fr.pos))
    ensures |fr.args| == fr.j
  {
    hide Fits, ArgFits, NodeAt;
  }

  lemma RollBackIsSafe(g: Grammar, toks: Stream, fr: Frame, start: nat, depth: nat)
    requires IsLanguage(g) && Sound(g, toks, fr, start) && fr.id != BracedBlock && Exists(g, fr.id, fr.i)
    ensures Safe(toks, fr.id, start, Run(g, toks, RollBack(fr), depth))
    decreases MAX_PARSE_DEPTH - depth, 2, |toks| - fr.floor, |g(fr.id).productions| - fr.i, NodesLeft(g, fr), 0
  {
    hide Run, IsLanguage, Sound, NodeAt, Fits;
    RollBackIsSound(g, toks, fr, start);
    RunIsSafe(g, toks, RollBack(fr), start, depth);
  }

  lemma CollectedIsSafe(g: Grammar, toks: Stream, fr: Frame, start: nat, depth: nat, a: Arg, pos: nat)
    requires IsLanguage(g) && Sound(g, toks, fr, start) && fr.id != BracedBlock
    requires NodeAt(g, fr.id, fr.i, fr.j).Some? && ArgFits(toks, NodeAt(g, fr.id, fr.i, fr.j).value, a)
    requires fr.pos <= pos <= |toks|
    requires NodeAt(g, fr.id, fr.i, fr.j).value.Term? || (fr.j == 0 && Consumes(fr.id)) ==> fr.pos < pos
    ensures Safe(toks, fr.id, start, Run(g, toks, Collect(fr, a, pos), depth))
    decreases MAX_PARSE_DEPTH - depth, 2, |toks| - fr.floor, |g(fr.id).productions| - fr.i, NodesLeft(g, fr), 0
  {
    NodesLeftAt(g, fr);
    CollectIsSound(g, toks, fr, start, a, pos);
    hide Run, IsLanguage, Sound, NodeAt, ArgFits, Fits, NodesLeft, Safe;
    RunIsSafe(g, toks, Collect(fr, a, pos), start, depth);
  }

  lemma HandedOverIsSafe(g: Grammar, toks: Stream, fr: Frame, start: nat, depth: nat)
    requires IsLanguage(g) && Sound(g, toks, fr, start) && fr.id != BracedBlock && Exists(g, fr.id, fr.i)
    requires Shared(g, fr.id, fr.i, fr.j)
    ensures Safe(toks, fr.id, start, Run(g, toks, HandOver(fr), depth))
    decreases MAX_PARSE_DEPTH - depth, 2, |toks| - fr.floor, |g(fr.id).productions| - fr.i, NodesLeft(g, fr), 0
  {
    HandOverIsSound(g, toks, fr, start);
    hide Run, IsLanguage, Sound, Shared, NodesLeft, Safe;
    RunIsSafe(g, toks, HandOver(fr), start, depth);
  }

  lemma TermIsSafe(g: Grammar, toks: Stream, fr: Frame, start: nat, depth: nat, kind: TokenKind)
    requires IsLanguage(g) && Sound(g, toks, fr, start) && fr.id != BracedBlock && Exists(g, fr.id, fr.i)
    requires NodeAt(g, fr.id, fr.i, fr.j) == Some(Term(kind)) && kind != TokUndef
    ensures Safe(toks, fr.id, start, Run(g, toks, fr, depth))
    decreases MAX_PARSE_DEPTH - depth, 2, |toks| - fr.floor, |g(fr.id).productions| - fr.i, NodesLeft(g, fr), 1
  {
    hide Run, IsLanguage, Sound, NodeAt, Shared, Look, Fits, NodesLeft;
    SoundPlaces(g, toks, fr, start);
    hide Safe;
    TermStep(g, toks, fr, depth, kind);
    var q := Look(toks, fr.pos, g(fr.id).skipNewLine);
    if KindAt(toks, q) == kind {
      MatchedIsWithin(toks, fr.pos, g(fr.id).skipNewLine, kind);
      CollectedIsSafe(g, toks, fr, start, depth, TokenArg(q), q + 1);
    } else if Shared(g, fr.id, fr.i, fr.j) {
      HandedOverIsSafe(g, toks, fr, start, depth);
    } else if !fr.folded {
      RollBackIsSafe(g, toks, fr, start, depth);
    }
  }

  lemma NodesLeftAt(g: Grammar, fr: Frame)
    requires NodeAt(g, fr.id, fr.i, fr.j).Some?
    ensures Exists(g, fr.id, fr.i) && NodesLeft(g, fr) > 0
    ensures forall a: Arg, pos: nat :: NodesLeft(g, Collect(fr, a, pos)) == NodesLeft(g, fr) - 1
  {
  }

  lemma RuleIsSafe(g: Grammar, toks: Stream, fr: Frame, start: nat, depth: nat, id: RuleId)
    requires IsLanguage(g) && Sound(g, toks, fr, start) && fr.id != BracedBlock && Exists(g, fr.id, fr.i)
    requires NodeAt(g, fr.id, fr.i, fr.j) == Some(Rule(id)) && TableOk(g, fr.id, fr.i, fr.j)
    ensures Safe(toks, fr.id, start, Run(g, toks, fr, depth))
    decreases MAX_PARSE_DEPTH - depth, 2, |toks| - fr.floor, |g(fr.id).productions| - fr.i, NodesLeft(g, fr), 1
  {
    hide Run, ParseRule, IsLanguage, Sound, NodeAt, Fits, NodesLeft;
    SoundPlaces(g, toks, fr, start);
    var r := ParseRule(g, toks, id, fr.pos, depth);
    RuleStep(g, toks, fr, depth, id, r);
    ParseRuleIsSafe(g, toks, id, fr.pos, depth);
    if r.Reduced? {
      CollectedIsSafe(g, toks, fr, start, depth, r.arg, r.pos);
    } else if r.Refused? {
      if fr.folded {
        FoldedLater(toks, fr, start, r.pos);
      } else {
        RollBackIsSafe(g, toks, fr, start, depth);
      }
    }
  }

  lemma FoldedLater(toks: Stream, fr: Frame, start: nat, pos: nat)
    requires Safe(toks, fr.id, start, Reduced(Folded(fr), fr.pos)) && fr.pos <= pos <= |toks|
    ensures Safe(toks, fr.id, start, Reduced(Folded(fr), pos))
  {
  }

  lemma ListIsSafe(g: Grammar, toks: Stream, fr: Frame, start: nat, depth: nat, id: RuleId)
    requires IsLanguage(g) && Sound(g, toks, fr, start) && fr.id != BracedBlock && Exists(g, fr.id, fr.i)
    requires NodeAt(g, fr.id, fr.i, fr.j) == Some(List(id)) && TableOk(g, fr.id, fr.i, fr.j)
    ensures Safe(toks, fr.id, start, Run(g, toks, fr, depth))
    decreases MAX_PARSE_DEPTH - depth, 2, |toks| - fr.floor, |g(fr.id).productions| - fr.i, NodesLeft(g, fr), 1
  {
    hide Run, ParseList, IsLanguage, Sound, NodeAt, Fits, NodesLeft, ParsedBlock;
    SoundPlaces(g, toks, fr, start);
    var r := ParseList(g, toks, id, fr.pos, [], depth);
    ListStep(g, toks, fr, depth, id, r);
    ParseListIsSafe(g, toks, id, fr.pos, [], depth);
    if r.Reduced? {
      CollectedIsSafe(g, toks, fr, start, depth, r.arg, r.pos);
    }
  }

  lemma ReduceIsSafe(g: Grammar, toks: Stream, fr: Frame, start: nat, depth: nat, f: Reducer)
    requires IsLanguage(g) && Sound(g, toks, fr, start) && fr.id != BracedBlock && Exists(g, fr.id, fr.i)
    requires NodeAt(g, fr.id, fr.i, fr.j) == Some(Reduce(f)) && TableOk(g, fr.id, fr.i, fr.j)
    ensures Safe(toks, fr.id, start, Run(g, toks, fr, depth))
    decreases MAX_PARSE_DEPTH - depth, 2, |toks| - fr.floor, |g(fr.id).productions| - fr.i, NodesLeft(g, fr), 1
  {
    hide Run, IsLanguage, NodeAt, Fits, FoldsAt, Apply, NodesLeft, ArgFits;
    SoundPlaces(g, toks, fr, start);
    ReduceFits(g, toks, fr.id, fr.i, fr.args);
    FoldsAreOk(g, fr.id, fr.i);
    hide Sound;
    ReduceStep(g, toks, fr, depth, f);
    var v := Apply(f, toks, fr.args).value;
    if FoldsAt(g, fr.id, fr.i) > 0 {
      RefoldIsSound(g, toks, fr, start, v);
      RunIsSafe(g, toks, Refold(fr, v, 1), start, depth);
    }
  }

  lemma {:induction false} ParseListIsSafe(g: Grammar, toks: Stream, id: RuleId, pos: nat, stmts: seq<Tree>, depth: nat)
    requires IsLanguage(g) && (id == StmtSep || id == StmtNext) && pos <= |toks|
    requires forall k :: 0 <= k < |stmts| ==> ParsedStmt(stmts[k])
    ensures SafeList(toks, pos, ParseList(g, toks, id, pos, stmts, depth))
    decreases MAX_PARSE_DEPTH - depth, 1, |toks| - pos
  {
    hide ParseRule, ParseList, IsLanguage, ParsedStmt;
    var r := ParseRule(g, toks, id, pos, depth);
    ListEnds(g, toks, id, pos, stmts, depth, r);
    ParseRuleIsSafe(g, toks, id, pos, depth);
    if r.Reduced? {
      var more := if r.arg.NullArg? then stmts else stmts + [r.arg.node];
      ParseListIsSafe(g, toks, id, r.pos, more, depth);
    }
  }

  lemma ParseRuleIsSafe(g: Grammar, toks: Stream, id: RuleId, pos: nat, depth: nat)
    requires IsLanguage(g) && pos <= |toks|
    ensures Safe(toks, id, pos, ParseRule(g, toks, id, pos, depth))
    decreases MAX_PARSE_DEPTH - depth, 0
  {
    hide Run, IsLanguage, Fits, Sound;
    if depth < MAX_PARSE_DEPTH {
      if id == BracedBlock {
        BracedIsSafe(g, toks, pos, depth + 1);
      } else {
        StartIsSound(g, toks, id, pos);
        RunIsSafe(g, toks, Start(id, pos), pos, depth + 1);
      }
    }
  }

  // ----- the braced block -----

  lemma BracedTable(g: Grammar)
    requires IsLanguage(g)
    ensures g(BracedBlock).skipNewLine
    ensures Exists(g, BracedBlock, 0) && Exists(g, BracedBlock, 1) && !Exists(g, BracedBlock, 2)
    ensures NodeAt(g, BracedBlock, 0, 0) == Some(Term(TokLBrace))
    ensures NodeAt(g, BracedBlock, 0, 1) == Some(Rule(BlockRule))
    ensures NodeAt(g, BracedBlock, 0, 2) == Some(Term(TokRBrace))
    ensures NodeAt(g, BracedBlock, 0, 3) == Some(Reduce(ReduceTriple))
    ensures NodeAt(g, BracedBlock, 1, 0) == Some(Term(TokLBrace))
    ensures NodeAt(g, BracedBlock, 1, 1) == Some(Rule(StmtOptSeps))
    ensures NodeAt(g, BracedBlock, 1, 2) == Some(Term(TokRBrace))
    ensures NodeAt(g, BracedBlock, 1, 3) == Some(Reduce(ReduceEmptyBlock))
    ensures Shared(g, BracedBlock, 0, 0) && !Shared(g, BracedBlock, 0, 2)
    ensures !Shared(g, BracedBlock, 1, 0) && !Shared(g, BracedBlock, 1, 2)
    ensures FoldsAt(g, BracedBlock, 0) == -1 && FoldsAt(g, BracedBlock, 1) == -1
  {
    assert g(BracedBlock) == Language(BracedBlock);
  }

  /** The reducer of the second production would fail its assertion: it is handed three arguments. */
  lemma SecondProductionIsFaulty(toks: Stream, args: seq<Arg>)
    requires |args| == 3
    ensures Apply(Language(BracedBlock).productions[1].nodes[3].f, toks, args) == None
  {
  }

  /**
   It is never handed them. Whenever the closing brace stands where the second production looks for it,
   the first production has already matched a block of nothing but separators and returned it.
   */
  lemma BracedIsSafe(g: Grammar, toks: Stream, pos: nat, depth: nat)
    requires IsLanguage(g) && pos <= |toks|
    ensures Safe(toks, BracedBlock, pos, Run(g, toks, Start(BracedBlock, pos), depth))
    decreases MAX_PARSE_DEPTH - depth, 2
  {
    hide Run, ParseRule, Exists, NodeAt, Shared, FoldsAt, IsLanguage, ParsedBlock;
    BracedTable(g);
    var fr, q := Start(BracedBlock, pos), NextSolid(toks, pos);
    TermStep(g, toks, fr, depth, TokLBrace);
    if KindAt(toks, q) != TokLBrace {
      TermStep(g, toks, HandOver(fr), depth, TokLBrace);
      RunsOut(g, toks, RollBack(HandOver(fr)), depth);
    } else {
      var fr1 := Collect(fr, TokenArg(q), q + 1);
      var r := ParseRule(g, toks, BlockRule, q + 1, depth);
      ParseRuleIsSafe(g, toks, BlockRule, q + 1, depth);
      RuleStep(g, toks, fr1, depth, BlockRule, r);
      if r.Reduced? {
        ClosesOrNot(g, toks, fr1, pos, depth, r);
      } else if r.Refused? {
        SecondRefuses(g, toks, fr1, pos, depth, r);
      }
    }
  }

  /** Behind the block: a closing brace ends the rule, anything else rolls it back. */
  lemma ClosesOrNot(g: Grammar, toks: Stream, fr: Frame, pos: nat, depth: nat, r: Outcome)
    requires IsLanguage(g) && pos <= |toks| && KindAt(toks, NextSolid(toks, pos)) == TokLBrace
    requires fr == Collect(Start(BracedBlock, pos), TokenArg(NextSolid(toks, pos)), NextSolid(toks, pos) + 1)
    requires r == ParseRule(g, toks, BlockRule, fr.pos, depth) && r.Reduced? && Safe(toks, BlockRule, fr.pos, r)
    ensures Safe(toks, BracedBlock, pos, Run(g, toks, Collect(fr, r.arg, r.pos), depth))
  {
    hide Run, ParseRule, Exists, NodeAt, Shared, FoldsAt, IsLanguage, ParsedBlock, Apply;
    BracedTable(g);
    var fr1 := Collect(fr, r.arg, r.pos);
    var close := NextSolid(toks, r.pos);
    TermStep(g, toks, fr1, depth, TokRBrace);
    if KindAt(toks, close) == TokRBrace {
      var fr2 := Collect(fr1, TokenArg(close), close + 1);
      assert fr2.args == [fr.args[0], r.arg, TokenArg(close)];
      PrintParse.AppliesTriple(toks, fr2.args);
      ReduceStep(g, toks, fr2, depth, ReduceTriple);
    } else {
      SecondRefuses(g, toks, fr, pos, depth, r);
    }
  }

  lemma SecondRefuses(g: Grammar, toks: Stream, fr: Frame, pos: nat, depth: nat, r: Outcome)
    requires IsLanguage(g) && KindAt(toks, NextSolid(toks, pos)) == TokLBrace
    requires fr == Collect(Start(BracedBlock, pos), TokenArg(NextSolid(toks, pos)), NextSolid(toks, pos) + 1)
    requires r == ParseRule(g, toks, BlockRule, fr.pos, depth)
    requires r.Refused? || (r.Reduced? && KindAt(toks, NextSolid(toks, r.pos)) != TokRBrace)
    ensures
      var o := Run(g, toks, RollBack(fr), depth);
      o == Refused(pos) || o == TooDeep
  {
    hide Run, ParseRule, Exists, NodeAt, Shared, FoldsAt, IsLanguage, ParsedBlock;
    BracedTable(g);
    var q := NextSolid(toks, pos);
    var end := SepsEnd(toks, q + 1);
    NoBraceBehind(g, toks, q + 1, depth, r);
    var fr1 := RollBack(fr);
    TermStep(g, toks, fr1, depth, TokLBrace);
    var fr2 := Collect(fr1, TokenArg(q), q + 1);
    OptSepsParse(g, toks, q + 1, depth);
    RuleStep(g, toks, fr2, depth, StmtOptSeps, ParseRule(g, toks, StmtOptSeps, q + 1, depth));
    if depth + 2 < MAX_PARSE_DEPTH {
      var fr3 := Collect(fr2, NullArg, end);
      TermStep(g, toks, fr3, depth, TokRBrace);
      RunsOut(g, toks, RollBack(fr3), depth);
    }
  }

  /** Had the brace stood behind the separators, the first production would have matched. */
  lemma NoBraceBehind(g: Grammar, toks: Stream, p: nat, depth: nat, r: Outcome)
    requires IsLanguage(g) && r == ParseRule(g, toks, BlockRule, p, depth)
    requires r.Refused? || (r.Reduced? && KindAt(toks, NextSolid(toks, r.pos)) != TokRBrace)
    ensures KindAt(toks, NextSolid(toks, SepsEnd(toks, p))) != TokRBrace
  {
    var end := SepsEnd(toks, p);
    assert NextSolid(toks, end) == end;
    hide ParseRule, IsLanguage;
    if KindAt(toks, end) == TokRBrace {
      EmptyBlockParses(g, toks, p, depth);
    }
  }

  // ----- the whole parser -----

  /** On every token stream the parser ends in a program, a refusal, or the recursion limit; never broken. */
  lemma ParserIsNeverBroken(toks: Stream, id: RuleId, pos: nat, depth: nat)
    requires pos <= |toks|
    ensures ParseRule(Language, toks, id, pos, depth) != Broken
    ensures Safe(toks, id, pos, ParseRule(Language, toks, id, pos, depth))
  {
    ParseRuleIsSafe(Language, toks, id, pos, depth);
  }
}
