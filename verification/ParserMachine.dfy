/**
 The parser as it runs (bootstrap/parser.c:325-612): a cursor that is moved, marked and rewound, a
 cache of what a newline run hides, and one activation of nested loops per rule.

 `ParseByRule` is proved equal to `Engine.ParseRule`, which knows no cache: the cache never changes
 an answer.
 */
module ParserMachine {
  import opened Basics
  import opened Tokens
  import opened Ast
  import opened Grammar
  import opened Engine
  import ParserSafety

  // ----- the input only moves forward -----

  /** Where a rule leaves the input, unless it gives the parse up. */
  predicate Forward(pos: nat, o: Outcome) {
    o.Reduced? || o.Refused? ==> pos <= o.pos
  }

  lemma RuleGoesForward(g: Grammar, toks: Stream, id: RuleId, pos: nat, depth: nat)
    ensures Forward(pos, ParseRule(g, toks, id, pos, depth))
    decreases MAX_PARSE_DEPTH - depth, 0
  {
    hide Run;
    if depth < MAX_PARSE_DEPTH {
      RunGoesForward(g, toks, Start(id, pos), depth + 1);
    }
  }

  /** No activation rewinds to before the checkpoint it holds. */
  lemma {:induction false} RunGoesForward(g: Grammar, toks: Stream, fr: Frame, depth: nat)
    requires fr.chk <= fr.pos
    ensures Forward(fr.chk, Run(g, toks, fr, depth))
    decreases MAX_PARSE_DEPTH - depth, 2, |toks| - fr.floor, |g(fr.id).productions| - fr.i, NodesLeft(g, fr)
  {
    hide Run, ParseRule, ParseList, Look, Shared, Apply, FoldsAt;
    if !Exists(g, fr.id, fr.i) {
      RunsOut(g, toks, fr, depth);
    } else {
      match NodeAt(g, fr.id, fr.i, fr.j)
      case None =>
        EndStep(g, toks, fr, depth);
        RunGoesForward(g, toks, RollBack(fr), depth);
      case Some(Term(kind)) =>
        TermStep(g, toks, fr, depth, kind);
        var q := Look(toks, fr.pos, g(fr.id).skipNewLine);
        RunGoesForward(g, toks, Collect(fr, TokenArg(q), q + 1), depth);
        if Shared(g, fr.id, fr.i, fr.j) {
          RunGoesForward(g, toks, HandOver(fr), depth);
        }
        RunGoesForward(g, toks, RollBack(fr), depth);
      case Some(Rule(id)) =>
        var r := ParseRule(g, toks, id, fr.pos, depth);
        RuleStep(g, toks, fr, depth, id, r);
        RuleGoesForward(g, toks, id, fr.pos, depth);
        if r.Reduced? {
          RunGoesForward(g, toks, Collect(fr, r.arg, r.pos), depth);
        }
        RunGoesForward(g, toks, RollBack(fr), depth);
      case Some(List(id)) =>
        var r := ParseList(g, toks, id, fr.pos, [], depth);
        ListStep(g, toks, fr, depth, id, r);
        ListGoesForward(g, toks, id, fr.pos, [], depth);
        if r.Reduced? {
          RunGoesForward(g, toks, Collect(fr, r.arg, r.pos), depth);
        }
      case Some(Reduce(f)) =>
        ReduceStep(g, toks, fr, depth, f);
        var v, op := Apply(f, toks, fr.args), FoldsAt(g, fr.id, fr.i);
        if v.Some? && op > 0 && fr.floor < fr.pos <= |toks| {
          RunGoesForward(g, toks, Refold(fr, v.value, op), depth);
        }
    }
  }

  lemma {:induction false} ListGoesForward(g: Grammar, toks: Stream, id: RuleId, pos: nat, stmts: seq<Tree>, depth: nat)
    ensures Forward(pos, ParseList(g, toks, id, pos, stmts, depth))
    decreases MAX_PARSE_DEPTH - depth, 1, |toks| - pos
  {
    hide ParseRule, ParseList;
    var r := ParseRule(g, toks, id, pos, depth);
    ListEnds(g, toks, id, pos, stmts, depth, r);
    RuleGoesForward(g, toks, id, pos, depth);
    if r.Reduced? && pos < r.pos <= |toks| && !r.arg.TokenArg? && !r.arg.PartsArg? {
      ListGoesForward(g, toks, id, r.pos, if r.arg.NullArg? then stmts else stmts + [r.arg.node], depth);
    }
  }

  // ----- the helpers that loop over a table -----

  lemma DifferAt(p1: Production, p2: Production, upto: nat, i: nat)
    requires i < upto <= |p1.nodes| && (i < |p2.nodes| ==> p1.nodes[i] != p2.nodes[i])
    ensures !StartsWithSameNodes(p1, p2, upto)
  {
    if upto <= |p2.nodes| {
      assert p1.nodes[..upto][i] != p2.nodes[..upto][i];
    }
  }

  method SameStart(p1: Production, p2: Production, upto: nat) returns (equal: bool)
    requires upto <= |p1.nodes|
    ensures equal <==> StartsWithSameNodes(p1, p2, upto)
  {
    equal := true;
    var i := 0;
    while i < upto
      invariant i <= upto && equal
      invariant i <= |p2.nodes| && p1.nodes[..i] == p2.nodes[..i]
      decreases upto - i
    {
      if i >= |p2.nodes| || p1.nodes[i] != p2.nodes[i] {
        DifferAt(p1, p2, upto, i);
        return false;
      }
      i := i + 1;
    }
  }

  method FindFoldPoint(p: Production) returns (at: int)
    ensures at == FoldPoint(p)
  {
    var k := 1;
    while k < |p.nodes|
      invariant 1 <= k
      invariant FirstTerm(p.nodes, k) == FoldPoint(p)
    {
      if p.nodes[k].Term? {
        return k;
      }
      k := k + 1;
    }
    return -1;
  }

  // ----- the parser -----

  /** The lexer's mark and the current token, as saved before a speculative step. */
  datatype Checkpoint = Checkpoint(mark: nat, current: nat)

  class Parser {
    const g: Grammar
    const toks: Stream
    var started: bool           // current_token is not NULL
    var mark: nat               // where the lexer reads next
    var current: nat            // where the current token stands
    var nlProbeStart: nat
    var nlProbeKind: TokenKind
    var nlProbeValid: bool
    var recursionDepth: nat
    var parsingFailed: bool

    /** The cache, where valid, tells what follows the newline run that starts before its mark. */
    ghost predicate Valid()
      reads this
    {
      && (started ==> mark == current + 1)
      && recursionDepth <= MAX_PARSE_DEPTH
      && (nlProbeValid ==>
            nlProbeStart > 0 && nlProbeKind == KindAt(toks, NextSolid(toks, nlProbeStart - 1)))
    }

    /** The position of the token to be looked at. */
    ghost function Pos(): nat
      reads this
    {
      if started then current else mark
    }

    constructor (g: Grammar, toks: Stream)
      ensures Valid() && Pos() == 0 && !started && !parsingFailed && recursionDepth == 0
      ensures this.g == g && this.toks == toks
    {
      this.g := g;
      this.toks := toks;
      started, mark, current := false, 0, 0;
      nlProbeStart, nlProbeKind, nlProbeValid := 0, TokUndef, false;
      recursionDepth, parsingFailed := 0, false;
    }

    method MoveForward()
      requires Valid()
      modifies this`started, this`mark, this`current
      ensures Valid() && started && current == old(mark)
    {
      started := true;
      current := mark;
      mark := mark + 1;
    }

    method Save() returns (chk: Checkpoint)
      ensures chk == Checkpoint(mark, current)
    {
      chk := Checkpoint(mark, current);
    }

    /** The parser only ever rewinds backwards, which is what the token log asks of it. */
    method Restore(chk: Checkpoint)
      requires Valid() && started && chk.mark == chk.current + 1 && chk.mark <= mark
      modifies this`mark, this`current
      ensures Valid() && current == chk.current
    {
      mark := chk.mark;
      current := chk.current;
    }

    /**
     Whether the terminal `expected` stands here, or behind the newlines here where the rule looks
     through them. The input moves up to the token on a match and stays where it was otherwise.
     */
    method TokenMatches(skipNewLine: bool, expected: TokenKind) returns (ok: bool)
      requires Valid() && started
      modifies this`mark, this`current, this`nlProbeStart, this`nlProbeKind, this`nlProbeValid, this`started
      ensures Valid() && started
      ensures ok <==> KindAt(toks, Look(toks, old(current), skipNewLine)) == expected
      ensures current == if ok then Look(toks, old(current), skipNewLine) else old(current)
    {
      if !skipNewLine || KindAt(toks, current) != TokNewline {
        return KindAt(toks, current) == expected;
      }
      var start := mark;
      if nlProbeValid && nlProbeStart == start && nlProbeKind != expected {
        return false;
      }
      var chk := Save();
      while KindAt(toks, current) == TokNewline
        invariant Valid() && started
        invariant NextSolid(toks, current) == NextSolid(toks, old(current)) && current >= old(current)
        decreases |toks| - current
      {
        MoveForward();
      }
      if KindAt(toks, current) == expected {
        return true;
      }
      nlProbeStart := start;
      nlProbeKind := KindAt(toks, current);
      nlProbeValid := true;
      Restore(chk);
      return false;
    }

    /** Takes the token that a terminal matches. */
    method TakeToken(skipNewLine: bool, expected: TokenKind) returns (ok: bool, at: nat)
      requires Valid() && started
      modifies this`mark, this`current, this`nlProbeStart, this`nlProbeKind, this`nlProbeValid, this`started
      ensures Valid() && started
      ensures ok <==> KindAt(toks, Look(toks, old(current), skipNewLine)) == expected
      ensures ok ==> at == Look(toks, old(current), skipNewLine) && current == at + 1
      ensures !ok ==> current == old(current)
    {
      ok := TokenMatches(skipNewLine, expected);
      at := current;
      if ok {
        MoveForward();
      }
    }

    method NextShares(id: RuleId, i: nat, j: nat) returns (same: bool)
      requires i < |g(id).productions| && j <= |g(id).productions[i].nodes|
      ensures same <==> Shared(g, id, i, j)
    {
      var prods := g(id).productions;
      same := false;
      if i + 1 < |prods| {
        same := SameStart(prods[i], prods[i + 1], j);
      }
    }

    /** What one activation leaves behind, given the interpreter's outcome. */
    ghost predicate Follows(o: Outcome, result: Arg, reduced: bool)
      reads this
    {
      match o
      case Reduced(v, pos) => !parsingFailed && reduced && result == v && current == pos
      case Refused(pos) => !parsingFailed && !reduced && current == pos
      case TooDeep => parsingFailed
      case Broken => false
    }

    /**
     `parse_by_rule`. The interpreter's outcome is not `Broken`: no reducer's assertion fails and no
     loop runs for ever, as is proved of the language's own grammar.
     */
    method ParseByRule(id: RuleId) returns (result: Arg, reduced: bool)
      requires Valid() && !parsingFailed
      requires ParseRule(g, toks, id, Pos(), recursionDepth) != Broken
      modifies this
      ensures Valid() && recursionDepth == old(recursionDepth)
      ensures !parsingFailed ==> started
      ensures Follows(ParseRule(g, toks, id, old(Pos()), old(recursionDepth)), result, reduced)
      decreases MAX_PARSE_DEPTH - recursionDepth, 0
    {
      hide Run, ParseList, NextSolid;
      if recursionDepth + 1 > MAX_PARSE_DEPTH {
        parsingFailed := true;
        return NullArg, false;
      }
      recursionDepth := recursionDepth + 1;
      if !started {
        MoveForward();
      }
      result, reduced := TryProductions(id);
      recursionDepth := recursionDepth - 1;
    }

    /** The loops over the productions of a rule and their nodes. */
    method TryProductions(id: RuleId) returns (result: Arg, reduced: bool)
      requires Valid() && started && !parsingFailed
      requires Run(g, toks, Start(id, current), recursionDepth) != Broken
      modifies this
      ensures Valid() && recursionDepth == old(recursionDepth)
      ensures !parsingFailed ==> started
      ensures Follows(Run(g, toks, Start(id, old(current)), old(recursionDepth)), result, reduced)
      decreases MAX_PARSE_DEPTH - recursionDepth, 2
    {
      hide Run, ParseRule, ParseList, Look, NextSolid, Shared, Apply, FoldsAt, FoldPoint, StartsWithSameNodes;
      ghost var spec := Run(g, toks, Start(id, current), recursionDepth);
      ghost var d := recursionDepth;
      ghost var floor: nat := current;
      var prods := g(id).productions;
      var args: seq<Arg>, folded, i: nat, j: nat := [], false, 0, 0;
      while i < |prods|
        invariant Valid() && started && !parsingFailed && recursionDepth == d
        invariant spec == Run(g, toks, Frame(id, i, j, args, folded, floor, current, current), d)
        decreases |toks| - floor, |prods| - i
      {
        var production := prods[i];
        var chk := Save();
        ghost var chosen := i;
        ghost var since: nat := floor;
        var failed, again := false, false;
        while j < |production.nodes| && !failed && !again
          invariant Valid() && started && !parsingFailed && recursionDepth == d
          invariant !again ==> i == chosen && floor == since && current >= chk.current
          invariant !failed && !again ==>
            spec == Run(g, toks, Frame(id, i, j, args, folded, floor, chk.current, current), d)
          invariant failed ==>
            !again && spec == Run(g, toks, Frame(id, i + 1, 0, [], false, floor, chk.current, chk.current), d)
          invariant again ==>
            && spec == Run(g, toks, Frame(id, i, j, args, folded, floor, current, current), d)
            && ((floor == since && i == chosen + 1 <= |prods|) || since < floor <= |toks|)
          decreases !failed && !again, |production.nodes| - j
        {
          ghost var fr := Frame(id, i, j, args, folded, floor, chk.current, current);
          match production.nodes[j] {
            case Term(kind) =>
              TermStep(g, toks, fr, d, kind);
              var matches, at := TakeToken(g(id).skipNewLine, kind);
              if matches {
                args := args + [TokenArg(at)];
                j := j + 1;
              } else {
                var same := NextShares(id, i, j);
                if same {
                  i := i + 1;
                  again := true;
                } else if folded {
                  return if args == [] then NullArg else args[0], true;
                } else {
                  failed := true;
                }
              }
            case Rule(sub) =>
              RuleStep(g, toks, fr, d, sub, ParseRule(g, toks, sub, current, d));
              RuleGoesForward(g, toks, sub, current, d);
              var v, ok := ParseByRule(sub);
              if parsingFailed {
                return NullArg, false;
              }
              if !ok {
                if folded {
                  return if args == [] then NullArg else args[0], true;
                }
                failed := true;
              } else {
                args := args + [v];
                j := j + 1;
              }
            case List(sub) =>
              ListStep(g, toks, fr, d, sub, ParseList(g, toks, sub, current, [], d));
              ListGoesForward(g, toks, sub, current, [], d);
              var block := CollectList(sub);
              if parsingFailed {
                return NullArg, false;
              }
              args := args + [block];
              j := j + 1;
            case Reduce(f) =>
              ReduceStep(g, toks, fr, d, f);
              FoldsAtIs(g, id, i);
              var applied := Apply(f, toks, args);
              assert applied.Some?;
              if production.left {
                var op := FindFoldPoint(production);
                if op > 0 {
                  args, folded := [applied.value], true;
                  i, j := 0, op;
                  floor := current;
                  again := true;
                }
              }
              if !again {
                return applied.value, true;
              }
          }
        }
        if !again {
          if !failed {
            EndStep(g, toks, Frame(id, i, j, args, folded, floor, chk.current, current), d);
          }
          i, j := i + 1, 0;
          args, folded := [], false;
          Restore(chk);
        }
      }
      RunsOut(g, toks, Frame(id, i, j, args, folded, floor, current, current), d);
      return NullArg, false;
    }

    /** The loop of a list node: a failed attempt is invisible. */
    method CollectList(id: RuleId) returns (block: Arg)
      requires Valid() && started && !parsingFailed
      requires ParseList(g, toks, id, current, [], recursionDepth) != Broken
      modifies this
      ensures Valid() && recursionDepth == old(recursionDepth)
      ensures !parsingFailed ==> started
      ensures Follows(ParseList(g, toks, id, old(current), [], old(recursionDepth)), block, true)
      decreases MAX_PARSE_DEPTH - recursionDepth, 1
    {
      hide ParseRule, ParseList, Run;
      ghost var d := recursionDepth;
      ghost var spec := ParseList(g, toks, id, current, [], d);
      var stmts: seq<Tree> := [];
      while true
        invariant Valid() && started && !parsingFailed && recursionDepth == d
        invariant spec == ParseList(g, toks, id, current, stmts, d)
        decreases |toks| - current
      {
        var chk := Save();
        ListEnds(g, toks, id, current, stmts, d, ParseRule(g, toks, id, current, d));
        RuleGoesForward(g, toks, id, current, d);
        var v, ok := ParseByRule(id);
        if parsingFailed {
          return NullArg;
        }
        if !ok {
          Restore(chk);
          return if stmts == [] then NullArg else NodeArg(Block(0, stmts));
        }
        if !v.NullArg? {
          stmts := stmts + [v.node];
        }
      }
    }
  }

  /**
   `parser_parse` on a new parser: the program, if `prog` reduces with no more than the end of file left
   over. Whatever the tokens are, it ends and no assertion in it fails.
   */
  method ParseProgram(toks: Stream) returns (program: Option<Tree>)
    ensures
      var o := ParseRule(Language, toks, Prog, 0, 0);
      program == if o.Reduced? && o.arg.NodeArg? && KindAt(toks, o.pos) == TokUndef then Some(o.arg.node) else None
    ensures program.Some? ==> ParserSafety.ParsedBlock(program.value)
  {
    hide ParseRule, Run;
    ParserSafety.ParserIsNeverBroken(toks, Prog, 0, 0);
    var parser := new Parser(Language, toks);
    var result, reduced := parser.ParseByRule(Prog);
    if parser.parsingFailed || !reduced || KindAt(toks, parser.current) != TokUndef {
      return None;
    }
    return Some(result.node);
  }

  lemma FoldsAtIs(g: Grammar, id: RuleId, i: nat)
    requires i < |g(id).productions|
    ensures FoldsAt(g, id, i) == if g(id).productions[i].left then FoldPoint(g(id).productions[i]) else -1
  {
  }
}
