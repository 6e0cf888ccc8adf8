/**
 The precedence ladder as it runs: a cursor moved by mutually recursive functions and their loops
 (bootstrap-olg/parser.c:745-912, 968-1045, 1268-1321), proved equal to `Ladder.Parse`.
 */
module LadderMachine {
  import opened Basics
  import opened Ladder

  class LadderParser {
    const toks: seq<Token>
    var cur: nat

    constructor (toks: seq<Token>)
      ensures this.toks == toks && cur == 0
    {
      this.toks := toks;
      cur := 0;
    }

    /** What a function leaves behind: a node with the cursor behind it, or NULL. */
    ghost predicate Follows(r: Parsed, n: Option<Node>)
      reads this
    {
      if r.None? then n.None? else n == Some(r.value.0) && cur == r.value.1
    }

    method ParseLevel(lvl: Level) returns (n: Option<Node>)
      modifies this`cur
      ensures Follows(Parse(toks, old(cur), lvl), n)
      decreases |toks| - cur, lvl, 1
    {
      if lvl == PRIMARY {
        n := Primary();
      } else if lvl == POSTFIX {
        n := Postfix();
      } else if lvl == UNARY {
        n := Prefix();
      } else if lvl == FALLBACK {
        n := Fallback();
      } else {
        n := Rung(lvl);
      }
    }

    /** `parse_ladder`, and `parse_range` for its level. */
    method Rung(lvl: Level) returns (n: Option<Node>)
      requires UNARY < lvl < FALLBACK
      modifies this`cur
      ensures Follows(Parse(toks, old(cur), lvl), n)
      decreases |toks| - cur, lvl, 0
    {
      ghost var spec, start := Parse(toks, cur, lvl), cur;
      n := ParseLevel(lvl - 1);
      if n.None? {
        return;
      }
      ParseIs(toks, start, lvl, n.value, cur);
      hide Parse;
      while true
        invariant n.Some? && start < cur <= |toks|
        invariant Loop(toks, n.value, cur, lvl) == spec
        decreases |toks| - cur
      {
        if Continues(toks, cur, lvl) {
          var op := toks[cur].kind.op;
          cur := cur + 1;
          var r := ParseLevel(lvl - 1);
          if r.None? {
            return None;
          }
          n := Some(Binary(op, n.value, r.value));
        } else if lvl == RANGE && Descends(toks, cur) {
          var op := toks[cur + 1].kind.op;
          cur := cur + 1;
          cur := cur + 1;
          var r := ParseLevel(lvl - 1);
          if r.None? {
            return None;
          }
          n := Some(Binary(op, n.value, r.value));
        } else {
          return;
        }
      }
    }

    /** `parse_fallback`: one `??` at most. */
    method Fallback() returns (n: Option<Node>)
      modifies this`cur
      ensures Follows(Parse(toks, old(cur), FALLBACK), n)
      decreases |toks| - cur, FALLBACK, 0
    {
      ghost var start := cur;
      n := ParseLevel(OR);
      if n.None? {
        return;
      }
      ParseIs(toks, start, FALLBACK, n.value, cur);
      hide Parse;
      if Continues(toks, cur, FALLBACK) {
        cur := cur + 1;
        var r := ParseLevel(OR);
        if r.None? {
          return None;
        }
        n := Some(Binary(QuestQuest, n.value, r.value));
      }
    }

    /** `parse_unary`. */
    method Prefix() returns (n: Option<Node>)
      modifies this`cur
      ensures Follows(Parse(toks, old(cur), UNARY), n)
      decreases |toks| - cur, UNARY, 0
    {
      hide Loop, PostfixLoop, ParseFallback, ParsePrimary;
      if IsPrefix(KindAt(toks, cur)) {
        var k := toks[cur].kind;
        cur := cur + 1;
        var operand := ParseLevel(UNARY);
        return if operand.None? then None else Some(Unary(k, operand.value));
      }
      n := ParseLevel(POSTFIX);
    }

    /** `parse_postfix`: unwraps; the rules of calls, indices and members are not part of this model. */
    method Postfix() returns (n: Option<Node>)
      modifies this`cur
      ensures Follows(Parse(toks, old(cur), POSTFIX), n)
      decreases |toks| - cur, POSTFIX, 0
    {
      ghost var start := cur;
      n := ParseLevel(PRIMARY);
      if n.None? {
        return;
      }
      ParseIs(toks, start, POSTFIX, n.value, cur);
      hide Parse;
      ghost var spec := PostfixLoop(toks, n.value, cur);
      while KindAt(toks, cur) == Bang || KindAt(toks, cur) == Quest
        invariant n.Some? && cur <= |toks| && PostfixLoop(toks, n.value, cur) == spec
        decreases |toks| - cur
      {
        n := Some(Unwrap(toks[cur].kind, n.value));
        cur := cur + 1;
      }
      var k := KindAt(toks, cur);
      if k == LParen || k == LBracket || k == Dot {
        return None;
      }
    }

    /** `parse_primary`: literals, names and parentheses. */
    method Primary() returns (n: Option<Node>)
      modifies this`cur
      ensures Follows(Parse(toks, old(cur), PRIMARY), n)
      decreases |toks| - cur, PRIMARY, 0
    {
      var k := KindAt(toks, cur);
      if IsLiteral(k) {
        n := Some(Literal(k, toks[cur].text));
        cur := cur + 1;
      } else if k == Ident {
        n := Some(Name(toks[cur].text));
        cur := cur + 1;
        if KindAt(toks, cur) == LBrace {
          return None;
        }
      } else if k == LParen {
        PrimaryIs(toks, cur);
        hide Parse, ParseExpr;
        cur := cur + 1;
        n := Expression();
        if n.None? || KindAt(toks, cur) != RParen {
          return None;
        }
        cur := cur + 1;
      } else {
        n := None;
      }
    }

    /** `parse_expr`. */
    method Expression() returns (n: Option<Node>)
      modifies this`cur
      ensures Follows(ParseExpr(toks, old(cur)), n)
      decreases |toks| - cur, 15, 0
    {
      hide Parse;
      if KindAt(toks, cur) == LBrace {
        return None;
      }
      n := ParseLevel(FALLBACK);
      if n.Some? && KindAt(toks, cur) == Is {
        return None;
      }
    }
  }

  /** The cursor parser on a printed expression: the same tree, and the cursor right behind it. */
  method ParsePrinted(toks: seq<Token>, n: Node) returns (parsed: Option<Node>, end: nat)
    requires WellFormed(n) && Reads(toks, 0, Print(n, FALLBACK)) && Stops(toks, |Print(n, FALLBACK)|, FALLBACK)
    requires KindAt(toks, |Print(n, FALLBACK)|) != Is
    ensures parsed == Some(n) && end == |Print(n, FALLBACK)|
  {
    hide Parse, Print, Reads, Stops;
    PrintedParses(toks, 0, n, FALLBACK);
    StartsWell(n, FALLBACK);
    ReadsFirst(toks, 0, Print(n, FALLBACK));
    var p := new LadderParser(toks);
    parsed := p.Expression();
    end := p.cur;
  }
}
