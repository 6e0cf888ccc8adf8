/**
 The parser's grammar tables: productions of terminals, rules, lists of a rule and reducers
 (bootstrap/parser.c:41-318).
 */
module Grammar {
  import opened Basics
  import opened Tokens
  import opened Ast

  /** A significant token; where it stands in the stream stands for its line and column. */
  datatype Token = Token(kind: TokenKind, text: string)

  /** The tokens that the lexer hands out one by one, after which it keeps handing out the end of file. */
  type Stream = seq<Token>

  function KindAt(toks: Stream, pos: nat): TokenKind {
    if pos < |toks| then toks[pos].kind else TokUndef
  }

  function TextAt(toks: Stream, pos: nat): string {
    if pos < |toks| then toks[pos].text else ""
  }

  datatype RuleId =
    | IfTail | ExprFactor | ExprUnary | ExprTerm | ExprPrime
    | StmtSep | StmtSeps | StmtOptSeps | Stmt | StmtNext | Stmts | BlockRule | BracedBlock | Prog

  datatype Reducer =
    | ReduceIfThenElse | ReduceIfThen | ReduceIfBlocks | ReduceIfBlock
    | ReduceId | ReduceBool | ReduceNumber | ReduceMinus | ReduceExprOpExpr
    | ReduceEcho | ReduceDefine | ReduceAssign | ReduceIfStmt | ReduceIfExpr
    | ReduceStmtStmts | ReduceEmptyBlock | ReduceSepSeps | ReduceSep | ReduceEmpty
    | ReducePeekSecond | ReduceSingle | ReduceTriple

  datatype ProdNode = Term(kind: TokenKind) | Rule(id: RuleId) | List(id: RuleId) | Reduce(f: Reducer)

  datatype Production = Production(left: bool, nodes: seq<ProdNode>)

  datatype GrammarRule = GrammarRule(skipNewLine: bool, productions: seq<Production>)

  type Grammar = RuleId -> GrammarRule

  // ----- the language's own table -----

  function Right(nodes: seq<ProdNode>): Production {
    Production(false, nodes)
  }

  function Left(nodes: seq<ProdNode>): Production {
    Production(true, nodes)
  }

  function IfTailRule(): GrammarRule {
    GrammarRule(true, [
      Right([Rule(ExprPrime), Term(TokThen), Rule(ExprPrime), Term(TokElse), Rule(ExprPrime),
             Reduce(ReduceIfThenElse)]),
      Right([Rule(ExprPrime), Term(TokThen), Rule(Stmt), Reduce(ReduceIfThen)]),
      Right([Rule(ExprPrime), Rule(BracedBlock), Term(TokElse), Rule(BracedBlock), Reduce(ReduceIfBlocks)]),
      Right([Rule(ExprPrime), Rule(BracedBlock), Reduce(ReduceIfBlock)])
    ])
  }

  function FactorRule(): GrammarRule {
    GrammarRule(true, [
      Right([Term(TokNumberL), Reduce(ReduceNumber)]),
      Right([Term(TokBoolL), Reduce(ReduceBool)]),
      Right([Term(TokLParen), Rule(ExprPrime), Term(TokRParen), Reduce(ReduceTriple)]),
      Right([Term(TokIf), Rule(IfTail), Reduce(ReduceIfExpr)]),
      Right([Term(TokId), Reduce(ReduceId)])
    ])
  }

  function UnaryRule(): GrammarRule {
    GrammarRule(true, [
      Right([Rule(ExprFactor), Reduce(ReduceSingle)]),
      Right([Term(TokMinus), Rule(ExprFactor), Reduce(ReduceMinus)])
    ])
  }

  /** One precedence level: two operators that fold to the left, and the operand alone. */
  function ChainRule(sub: RuleId, op1: TokenKind, op2: TokenKind): GrammarRule {
    GrammarRule(true, [
      Left([Rule(sub), Term(op1), Rule(sub), Reduce(ReduceExprOpExpr)]),
      Left([Rule(sub), Term(op2), Rule(sub), Reduce(ReduceExprOpExpr)]),
      Right([Rule(sub), Reduce(ReduceSingle)])
    ])
  }

  function StmtRule(): GrammarRule {
    GrammarRule(false, [
      Right([Term(TokEcho), Rule(ExprPrime), Reduce(ReduceEcho)]),
      Right([Term(TokIf), Rule(IfTail), Reduce(ReduceIfStmt)]),
      Right([Term(TokId), Term(TokDefine), Rule(ExprPrime), Reduce(ReduceDefine)]),
      Right([Rule(ExprPrime), Term(TokAssign), Rule(ExprPrime), Reduce(ReduceAssign)])
    ])
  }

  function BracedBlockRule(): GrammarRule {
    GrammarRule(true, [
      Right([Term(TokLBrace), Rule(BlockRule), Term(TokRBrace), Reduce(ReduceTriple)]),
      Right([Term(TokLBrace), Rule(StmtOptSeps), Term(TokRBrace), Reduce(ReduceEmptyBlock)])
    ])
  }

  function Language(id: RuleId): GrammarRule {
    match id
    case IfTail => IfTailRule()
    case ExprFactor => FactorRule()
    case ExprUnary => UnaryRule()
    case ExprTerm => ChainRule(ExprUnary, TokStar, TokSlash)
    case ExprPrime => ChainRule(ExprTerm, TokPlus, TokMinus)
    case StmtSep => GrammarRule(false, [
      Right([Term(TokNewline), Reduce(ReduceSep)]),
      Right([Term(TokSemicolon), Reduce(ReduceSep)])
    ])
    case StmtSeps => GrammarRule(false, [
      Right([Rule(StmtSep), List(StmtSep), Reduce(ReduceSepSeps)])
    ])
    case StmtOptSeps => GrammarRule(false, [
      Right([Rule(StmtSeps), Reduce(ReduceSep)]),
      Right([Reduce(ReduceEmpty)])
    ])
    case Stmt => StmtRule()
    case StmtNext => GrammarRule(false, [
      Right([Rule(StmtSeps), Rule(Stmt), Reduce(ReducePeekSecond)])
    ])
    case Stmts => GrammarRule(false, [
      Right([Rule(Stmt), List(StmtNext), Reduce(ReduceStmtStmts)]),
      Right([Reduce(ReduceEmptyBlock)])
    ])
    case BlockRule => GrammarRule(false, [
      Right([Rule(StmtOptSeps), Rule(Stmts), Rule(StmtOptSeps), Reduce(ReduceTriple)])
    ])
    case BracedBlock => BracedBlockRule()
    case Prog => GrammarRule(false, [
      Right([Rule(BlockRule), Reduce(ReduceSingle)])
    ])
  }

  // ----- reducers -----

  /** What a production collects: a token, a node, NULL, or the three parts of an `if` awaiting its keyword. */
  datatype Arg =
    | TokenArg(at: nat)
    | NodeArg(node: Tree)
    | NullArg
    | PartsArg(cond: Tree, thenArm: Tree, elseArm: Option<Tree>)

  predicate IsToken(toks: Stream, a: Arg, kind: TokenKind) {
    a.TokenArg? && KindAt(toks, a.at) == kind
  }

  /** The node kind NODE_STMT. */
  predicate IsStmtNode(n: Tree) {
    n.Echo? || n.IfStmt? || n.Define? || n.Assign?
  }

  /**
   What a reducer builds. `None` where one of its assertions fails or an argument is not what it
   casts it to. A node is marked with the token it takes its line and column from; a block has none.
   */
  function Apply(f: Reducer, toks: Stream, args: seq<Arg>): Option<Arg> {
    match f
    case ReduceIfThenElse =>
      if |args| == 5 && args[0].NodeArg? && args[2].NodeArg? && args[4].NodeArg?
      then Some(PartsArg(args[0].node, args[2].node, Some(args[4].node))) else None
    case ReduceIfThen =>
      if |args| == 3 && args[0].NodeArg? && args[2].NodeArg?
      then Some(PartsArg(args[0].node, args[2].node, None)) else None
    case ReduceIfBlocks =>
      if |args| == 4 && args[0].NodeArg? && args[1].NodeArg? && args[3].NodeArg?
      then Some(PartsArg(args[0].node, args[1].node, Some(args[3].node))) else None
    case ReduceIfBlock =>
      if |args| == 2 && args[0].NodeArg? && args[1].NodeArg?
      then Some(PartsArg(args[0].node, args[1].node, None)) else None
    case ReduceId =>
      if |args| == 1 && IsToken(toks, args[0], TokId)
      then Some(NodeArg(Id(args[0].at, TextAt(toks, args[0].at)))) else None
    case ReduceBool =>
      if |args| == 1 && IsToken(toks, args[0], TokBoolL)
      then Some(NodeArg(Value(args[0].at, BoolValue, TextAt(toks, args[0].at)))) else None
    case ReduceNumber =>
      if |args| == 1 && IsToken(toks, args[0], TokNumberL)
      then Some(NodeArg(Value(args[0].at, IntegerValue, TextAt(toks, args[0].at)))) else None
    case ReduceMinus =>
      if |args| == 2 && IsToken(toks, args[0], TokMinus) && args[1].NodeArg?
      then Some(NodeArg(UExpr(args[0].at, TokMinus, args[1].node))) else None
    case ReduceExprOpExpr =>
      if |args| == 3 && args[0].NodeArg? && args[1].TokenArg? && args[2].NodeArg?
      then Some(NodeArg(Expr(args[1].at, KindAt(toks, args[1].at), args[0].node, args[2].node))) else None
    case ReduceEcho =>
      if |args| == 2 && IsToken(toks, args[0], TokEcho) && args[1].NodeArg?
      then Some(NodeArg(Echo(args[0].at, args[1].node))) else None
    case ReduceDefine =>
      if |args| == 3 && IsToken(toks, args[0], TokId) && IsToken(toks, args[1], TokDefine) && args[2].NodeArg?
      then Some(NodeArg(Define(args[1].at, Id(args[0].at, TextAt(toks, args[0].at)), args[2].node))) else None
    case ReduceAssign =>
      if |args| == 3 && args[0].NodeArg? && IsToken(toks, args[1], TokAssign) && args[2].NodeArg?
      then Some(NodeArg(Assign(args[1].at, args[0].node, args[2].node))) else None
    case ReduceIfStmt =>
      if |args| == 2 && args[0].TokenArg? && args[1].PartsArg?
      then Some(NodeArg(IfStmt(args[0].at, args[1].cond, args[1].thenArm, args[1].elseArm))) else None
    case ReduceIfExpr =>
      if |args| == 2 && args[0].TokenArg? && args[1].PartsArg?
      then Some(NodeArg(IfExpr(args[0].at, args[1].cond, args[1].thenArm, args[1].elseArm))) else None
    case ReduceStmtStmts =>
      if |args| == 2 && args[0].NodeArg? && IsStmtNode(args[0].node)
         && (args[1].NullArg? || (args[1].NodeArg? && args[1].node.Block?))
      then Some(NodeArg(Block(0, [args[0].node] + if args[1].NullArg? then [] else args[1].node.stmts))) else None
    case ReduceEmptyBlock =>
      if |args| == 0 then Some(NodeArg(Block(0, []))) else None
    case ReduceSepSeps =>
      if |args| == 2 then Some(NullArg) else None
    case ReduceSep =>
      if |args| == 1 then Some(NullArg) else None
    case ReduceEmpty =>
      if |args| == 0 then Some(NullArg) else None
    case ReducePeekSecond =>
      if |args| == 2 then Some(args[1]) else None
    case ReduceSingle =>
      if |args| == 1 then Some(args[0]) else None
    case ReduceTriple =>
      if |args| == 3 then Some(args[1]) else None
  }
}
