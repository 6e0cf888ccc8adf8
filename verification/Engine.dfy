/**
 The interpreter of grammar tables as a function of the token stream (bootstrap/parser.c:402-590).

 This is the meaning of the parser without its newline cache and without its mutable fields: which
 production is tried next, when the input is rewound, and when a chain of operators is folded.
 */
module Engine {
  import opened Basics
  import opened Tokens
  import opened Ast
  import opened Grammar

  const MAX_PARSE_DEPTH: nat := 4096

  /**
   What a rule does with the input: it reduces to a value, it refuses (and need not be back where it
   started), the recursion is too deep and the whole parse is given up, or the parser is broken: a
   reducer's assertion fails or a loop makes no progress.
   */
  datatype Outcome = Reduced(arg: Arg, pos: nat) | Refused(pos: nat) | TooDeep | Broken

  // ----- looking at the input -----

  /** The first token at or after `pos` that is not a newline. */
  function NextSolid(toks: Stream, pos: nat): (q: nat)
    ensures pos <= q && KindAt(toks, q) != TokNewline
    ensures q > pos ==> q <= |toks| && KindAt(toks, pos) == TokNewline
    decreases |toks| - pos
  {
    if KindAt(toks, pos) == TokNewline then NextSolid(toks, pos + 1) else pos
  }

  /** The token that a terminal of a rule is compared with: rules of expressions look through newlines. */
  function Look(toks: Stream, pos: nat, skipNewLine: bool): (q: nat)
    ensures pos <= q
  {
    if skipNewLine then NextSolid(toks, pos) else pos
  }

  // ----- reading the tables -----

  /** The `j`th node of production `i`; `None` marks the end of a production or of the table. */
  function NodeAt(g: Grammar, id: RuleId, i: nat, j: nat): Option<ProdNode> {
    var prods := g(id).productions;
    if i < |prods| && j < |prods[i].nodes| then Some(prods[i].nodes[j]) else None
  }

  predicate Exists(g: Grammar, id: RuleId, i: nat) {
    i < |g(id).productions|
  }

  predicate StartsWithSameNodes(p1: Production, p2: Production, upto: nat) {
    upto <= |p1.nodes| && upto <= |p2.nodes| && p1.nodes[..upto] == p2.nodes[..upto]
  }

  /** There is a next production, and it takes over what this one has matched so far. */
  predicate Shared(g: Grammar, id: RuleId, i: nat, j: nat) {
    && Exists(g, id, i + 1)
    && StartsWithSameNodes(g(id).productions[i], g(id).productions[i + 1], j)
  }

  /** The index of the first terminal after the first node, or -1. */
  function FoldPoint(p: Production): (k: int)
    ensures k == -1 || (1 <= k < |p.nodes| && p.nodes[k].Term?)
  {
    FirstTerm(p.nodes, 1)
  }

  function FirstTerm(nodes: seq<ProdNode>, from: nat): (k: int)
    ensures k == -1 || (from <= k < |nodes| && nodes[k].Term?)
    ensures forall m :: from <= m < (if k < 0 then |nodes| else k) ==> !nodes[m].Term?
    decreases |nodes| - from
  {
    if from >= |nodes| then -1 else if nodes[from].Term? then from else FirstTerm(nodes, from + 1)
  }

  /** Where a production that associates to the left folds; -1 where it returns. */
  function FoldsAt(g: Grammar, id: RuleId, i: nat): int {
    if Exists(g, id, i) && g(id).productions[i].left then FoldPoint(g(id).productions[i]) else -1
  }

  // ----- the interpreter -----

  /**
   The local variables of one activation: production `i` is at node `j`, having collected `args`, at
   input position `pos`; a failed production goes back to `chk`. `floor` is where the current operand
   chain was last folded (or the rule began).
   */
  datatype Frame = Frame(id: RuleId, i: nat, j: nat, args: seq<Arg>, folded: bool, floor: nat, chk: nat, pos: nat)

  function Start(id: RuleId, pos: nat): Frame {
    Frame(id, 0, 0, [], false, pos, pos, pos)
  }

  /** The node is matched: collect its value and go on behind it. */
  function Collect(fr: Frame, a: Arg, pos: nat): Frame {
    fr.(j := fr.j + 1, args := fr.args + [a], pos := pos)
  }

  /** The next production goes on with what is collected, from a checkpoint taken here. */
  function HandOver(fr: Frame): Frame {
    fr.(i := fr.i + 1, chk := fr.pos)
  }

  /** Roll back and try the next production from its first node. */
  function RollBack(fr: Frame): Frame {
    Frame(fr.id, fr.i + 1, 0, [], false, fr.floor, fr.chk, fr.chk)
  }

  /** After a fold: the folded value is the left operand, and the operators are tried again. */
  function Refold(fr: Frame, v: Arg, op: nat): Frame {
    Frame(fr.id, 0, op, [v], true, fr.pos, fr.pos, fr.pos)
  }

  /** What was folded so far. */
  function Folded(fr: Frame): Arg {
    if fr.args == [] then NullArg else fr.args[0]
  }

  function NodesLeft(g: Grammar, fr: Frame): int {
    if Exists(g, fr.id, fr.i) then |g(fr.id).productions[fr.i].nodes| - fr.j else 0
  }

  /** `parse_by_rule`, called at recursion depth `depth`. */
  function ParseRule(g: Grammar, toks: Stream, id: RuleId, pos: nat, depth: nat): Outcome
    decreases MAX_PARSE_DEPTH - depth, 0
  {
    if depth >= MAX_PARSE_DEPTH then TooDeep else Run(g, toks, Start(id, pos), depth + 1)
  }

  /** The loops over productions and their nodes, from where `fr` stands in them. */
  function Run(g: Grammar, toks: Stream, fr: Frame, depth: nat): Outcome
    decreases MAX_PARSE_DEPTH - depth, 2, |toks| - fr.floor, |g(fr.id).productions| - fr.i, NodesLeft(g, fr)
  {
    if !Exists(g, fr.id, fr.i) then
      Refused(fr.pos)
    else
      match NodeAt(g, fr.id, fr.i, fr.j)
      case None => Run(g, toks, RollBack(fr), depth)
      case Some(Term(kind)) =>
        var q := Look(toks, fr.pos, g(fr.id).skipNewLine);
        if KindAt(toks, q) == kind then Run(g, toks, Collect(fr, TokenArg(q), q + 1), depth)
        else if Shared(g, fr.id, fr.i, fr.j) then Run(g, toks, HandOver(fr), depth)
        else if fr.folded then Reduced(Folded(fr), fr.pos)
        else Run(g, toks, RollBack(fr), depth)
      case Some(Rule(id)) => (
        match ParseRule(g, toks, id, fr.pos, depth)
        case Reduced(v, pos) => Run(g, toks, Collect(fr, v, pos), depth)
        case Refused(pos) =>
          if fr.folded then Reduced(Folded(fr), pos) else Run(g, toks, RollBack(fr), depth)
        case failure => failure
      )
      case Some(List(id)) => (
        match ParseList(g, toks, id, fr.pos, [], depth)
        case Reduced(v, pos) => Run(g, toks, Collect(fr, v, pos), depth)
        case failure => failure
      )
      case Some(Reduce(f)) => (
        match Apply(f, toks, fr.args)
        case None => Broken
        case Some(v) =>
          var op := FoldsAt(g, fr.id, fr.i);
          if op <= 0 then Reduced(v, fr.pos)
          else if fr.floor < fr.pos <= |toks| then Run(g, toks, Refold(fr, v, op), depth)
          else Broken
      )
  }

  /** Any number of a rule's results, gathered in a block; NULL when there is none to gather. */
  function ParseList(g: Grammar, toks: Stream, id: RuleId, pos: nat, stmts: seq<Tree>, depth: nat): Outcome
    decreases MAX_PARSE_DEPTH - depth, 1, |toks| - pos
  {
    match ParseRule(g, toks, id, pos, depth)
    case Reduced(v, next) =>
      if !(pos < next <= |toks|) || v.TokenArg? || v.PartsArg? then Broken
      else ParseList(g, toks, id, next, if v.NullArg? then stmts else stmts + [v.node], depth)
    case Refused(_) => Reduced(if stmts == [] then NullArg else NodeArg(Block(0, stmts)), pos)
    case failure => failure
  }

  // ----- one step of the interpreter, by the node it stands at -----

  lemma EndStep(g: Grammar, toks: Stream, fr: Frame, depth: nat)
    requires Exists(g, fr.id, fr.i) && NodeAt(g, fr.id, fr.i, fr.j) == None
    ensures Run(g, toks, fr, depth) == Run(g, toks, RollBack(fr), depth)
  {
  }

  lemma TermStep(g: Grammar, toks: Stream, fr: Frame, depth: nat, kind: TokenKind)
    requires Exists(g, fr.id, fr.i) && NodeAt(g, fr.id, fr.i, fr.j) == Some(Term(kind))
    ensures
      var q := Look(toks, fr.pos, g(fr.id).skipNewLine);
      Run(g, toks, fr, depth) ==
      if KindAt(toks, q) == kind then Run(g, toks, Collect(fr, TokenArg(q), q + 1), depth)
      else if Shared(g, fr.id, fr.i, fr.j) then Run(g, toks, HandOver(fr), depth)
      else if fr.folded then Reduced(Folded(fr), fr.pos)
      else Run(g, toks, RollBack(fr), depth)
  {
    hide Look, Shared;
  }

  lemma RuleStep(g: Grammar, toks: Stream, fr: Frame, depth: nat, id: RuleId, r: Outcome)
    requires Exists(g, fr.id, fr.i) && NodeAt(g, fr.id, fr.i, fr.j) == Some(Rule(id))
    requires r == ParseRule(g, toks, id, fr.pos, depth)
    ensures
      Run(g, toks, fr, depth) ==
      if r.Reduced? then Run(g, toks, Collect(fr, r.arg, r.pos), depth)
      else if !r.Refused? then r
      else if fr.folded then Reduced(Folded(fr), r.pos)
      else Run(g, toks, RollBack(fr), depth)
  {
    hide ParseRule;
  }

  lemma ListStep(g: Grammar, toks: Stream, fr: Frame, depth: nat, id: RuleId, r: Outcome)
    requires Exists(g, fr.id, fr.i) && NodeAt(g, fr.id, fr.i, fr.j) == Some(List(id))
    requires r == ParseList(g, toks, id, fr.pos, [], depth)
    ensures Run(g, toks, fr, depth) == if r.Reduced? then Run(g, toks, Collect(fr, r.arg, r.pos), depth) else r
  {
    hide ParseList;
  }

  lemma ReduceStep(g: Grammar, toks: Stream, fr: Frame, depth: nat, f: Reducer)
    requires Exists(g, fr.id, fr.i) && NodeAt(g, fr.id, fr.i, fr.j) == Some(Reduce(f))
    ensures
      var v, op := Apply(f, toks, fr.args), FoldsAt(g, fr.id, fr.i);
      Run(g, toks, fr, depth) ==
      if v.None? then Broken
      else if op <= 0 then Reduced(v.value, fr.pos)
      else if fr.floor < fr.pos <= |toks| then Run(g, toks, Refold(fr, v.value, op), depth)
      else Broken
  {
    hide Apply, FoldsAt;
  }

  lemma ListEnds(g: Grammar, toks: Stream, id: RuleId, pos: nat, stmts: seq<Tree>, depth: nat, r: Outcome)
    requires r == ParseRule(g, toks, id, pos, depth)
    ensures
      ParseList(g, toks, id, pos, stmts, depth) ==
      if r.Refused? then Reduced(if stmts == [] then NullArg else NodeArg(Block(0, stmts)), pos)
      else if !r.Reduced? then r
      else if !(pos < r.pos <= |toks|) || r.arg.TokenArg? || r.arg.PartsArg? then Broken
      else ParseList(g, toks, id, r.pos, if r.arg.NullArg? then stmts else stmts + [r.arg.node], depth)
  {
    hide ParseRule;
  }

  lemma RunsOut(g: Grammar, toks: Stream, fr: Frame, depth: nat)
    requires !Exists(g, fr.id, fr.i)
    ensures Run(g, toks, fr, depth) == Refused(fr.pos)
  {
  }
}
