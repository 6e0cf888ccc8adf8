/**
 What the executor's arithmetic is worth: the operators (bootstrap/exec.c:100-132), literals
 (bootstrap/exec.c:155-171), and whole expressions of sums, differences and products.
 */
module ExecLaws {
  import opened Basics
  import opened Bits
  import opened Tokens
  import opened Ast
  import opened Walker
  import opened Exec

  // ----- the operators -----

  /** Operands are evaluated from left to right, and the first fault is the fault. */
  lemma OperandFaults(n: Tree, scopes: Scopes)
    requires n.Expr? && IsExpr(n)
    ensures Evaluate(n.op1, scopes).Err? ==> Evaluate(n, scopes) == Evaluate(n.op1, scopes)
    ensures Evaluate(n.op1, scopes).Ok? && Evaluate(n.op2, scopes).Err? ==>
      Evaluate(n, scopes) == Evaluate(n.op2, scopes)
  {
  }

  /** A sum, a difference or a product is the number in range with the bits of the mathematical one. */
  lemma OperatorIs(n: Tree, scopes: Scopes, a: int, b: int)
    requires n.Expr? && IsExpr(n) && n.op != TokSlash
    requires Evaluate(n.op1, scopes) == Ok(a) && Evaluate(n.op2, scopes) == Ok(b)
    ensures Evaluate(n, scopes).Ok? && InRange(Evaluate(n, scopes).value)
    ensures n.op == TokPlus ==> SameBits(Evaluate(n, scopes).value, a + b)
    ensures n.op == TokMinus ==> SameBits(Evaluate(n, scopes).value, a - b)
    ensures n.op == TokStar ==> SameBits(Evaluate(n, scopes).value, a * b)
  {
    hide Wrap, SameBits, InRange;
    WrapKeepsBits(a + b);
    WrapKeepsBits(a - b);
    WrapKeepsBits(a * b);
  }

  lemma WrapKeepsBits(x: int)
    ensures InRange(Wrap(x)) && SameBits(Wrap(x), x)
  {
    WrapIsModular(x);
  }

  /** A quotient is cut off toward zero: the rest is smaller than the divisor and has the sign of the dividend. */
  lemma QuotientIs(n: Tree, scopes: Scopes, a: int, b: int)
    requires n.Expr? && IsExpr(n) && n.op == TokSlash
    requires Evaluate(n.op1, scopes) == Ok(a) && Evaluate(n.op2, scopes) == Ok(b)
    ensures b == 0 ==> Evaluate(n, scopes) == Err(DivisionByZero)
    ensures b != 0 ==> Evaluate(n, scopes).Ok?
    ensures b == -1 ==> InRange(Evaluate(n, scopes).value) && SameBits(Evaluate(n, scopes).value, -a)
    ensures b != 0 && b != -1 ==>
      IsRest(a - Evaluate(n, scopes).value * b, a, b)
  {
    hide IsExpr;
    if b == -1 {
      WrapIsModular(-a);
    } else if b != 0 {
      TruncatedDivIs(a, b);
    }
  }

  /** Unary minus; the least number stays what it is. */
  lemma NegationIs(n: Tree, scopes: Scopes, a: int)
    requires n.UExpr? && IsExpr(n) && Evaluate(n.operand, scopes) == Ok(a)
    ensures
      var r := Evaluate(n, scopes);
      r.Ok? && InRange(r.value) && SameBits(r.value, -a)
  {
    hide IsExpr;
    WrapIsModular(-a);
  }

  /** Only one arm of an expression-if is evaluated. */
  lemma ChoiceIs(n: Tree, scopes: Scopes, c: int)
    requires n.IfExpr? && IsExpr(n) && Evaluate(n.cond, scopes) == Ok(c)
    ensures c != 0 ==> Evaluate(n, scopes) == Evaluate(n.thenArm, scopes)
    ensures c == 0 ==> Evaluate(n, scopes) == Evaluate(n.elseArm.value, scopes)
  {
  }

  // ----- literals -----

  function Digit(d: nat): char
    requires d < 10
  {
    '0' + d as char
  }

  /** A number in decimal digits. */
  function Digits(n: nat): (s: string)
    ensures s != ""
  {
    if n < 10 then [Digit(n)] else Digits(n / 10) + [Digit(n % 10)]
  }

  /** Reading digits one after the other: the last one counts once, all before it ten times. */
  lemma {:induction false} DecimalSnoc(text: string, d: nat, acc: nat)
    requires d < 10 && forall i :: 0 <= i < |text| ==> '0' <= text[i] <= '9'
    ensures Decimal(text + [Digit(d)], acc) == 10 * Decimal(text, acc) + d
    decreases |text|
  {
    if text == [] {
      assert text + [Digit(d)] == [Digit(d)] && [Digit(d)][1..] == [];
    } else {
      assert (text + [Digit(d)])[1..] == text[1..] + [Digit(d)];
      DecimalSnoc(text[1..], d, 10 * acc + (text[0] - '0') as nat);
    }
  }

  lemma {:induction false} DigitsAreDigits(n: nat)
    ensures forall i :: 0 <= i < |Digits(n)| ==> '0' <= Digits(n)[i] <= '9'
  {
    if n >= 10 {
      DigitsAreDigits(n / 10);
    }
  }

  /** The digits of a number denote that number. */
  lemma {:induction false} DecimalOfDigits(n: nat)
    ensures Decimal(Digits(n), 0) == n
  {
    if n < 10 {
      DecimalSnoc([], n, 0);
      assert [] + [Digit(n)] == Digits(n);
    } else {
      DecimalOfDigits(n / 10);
      DigitsAreDigits(n / 10);
      DecimalSnoc(Digits(n / 10), n % 10, 0);
    }
  }

  /** A literal is the number that its digits denote, or out of range; `true` is 1 and `false` 0. */
  lemma LiteralIs(n: nat, at: nat, scopes: Scopes)
    ensures
      Evaluate(Value(at, IntegerValue, Digits(n)), scopes) == if n < TWO_TO_THE_63 then Ok(n) else Err(LiteralRange)
    ensures Evaluate(Value(at, BoolValue, "true"), scopes) == Ok(1)
    ensures Evaluate(Value(at, BoolValue, "false"), scopes) == Ok(0)
  {
    hide Decimal, Digits;
    DecimalOfDigits(n);
  }

  // ----- whole expressions -----

  /** The mathematical value, of any size, where the leaves have one; a quotient is cut off toward zero. */
  function Exact(n: Tree, scopes: Scopes): int
    requires IsExpr(n)
  {
    match n
    case Expr(_, op, l, r) =>
      var (a, b) := (Exact(l, scopes), Exact(r, scopes));
      if op == TokPlus then a + b
      else if op == TokMinus then a - b
      else if op == TokStar then a * b
      else if b == 0 then 0
      else TruncatedDiv(a, b)
    case UExpr(_, _, e) => -Exact(e, scopes)
    case IfExpr(_, c, t, e) => if Exact(c, scopes) != 0 then Exact(t, scopes) else Exact(e.value, scopes)
    case _ =>
      var leaf := Evaluate(n, scopes);
      if leaf.Ok? then leaf.value else 0
  }

  /**
   Nothing that looks at the size of a number is given one that is out of range: both operands of a division
   and the test of an expression-if fit into 64 bits. Sums, differences and products may overflow.
   */
  predicate Settled(n: Tree, scopes: Scopes)
    requires IsExpr(n)
  {
    match n
    case Expr(_, op, l, r) =>
      && Settled(l, scopes) && Settled(r, scopes)
      && (op == TokSlash ==> InRange(Exact(l, scopes)) && InRange(Exact(r, scopes)))
    case UExpr(_, _, e) => Settled(e, scopes)
    case IfExpr(_, c, t, e) =>
      && Settled(c, scopes) && InRange(Exact(c, scopes))
      && if Exact(c, scopes) != 0 then Settled(t, scopes) else Settled(e.value, scopes)
    case _ => true
  }

  /**
   However often the value overflows on the way, it is the number in range with the bits of the mathematical
   value.
   */
  lemma {:induction false} ValueIs(n: Tree, scopes: Scopes)
    requires IsExpr(n) && AllInRange(scopes) && Settled(n, scopes) && Evaluate(n, scopes).Ok?
    ensures SameBits(Evaluate(n, scopes).value, Exact(n, scopes))
    ensures InRange(Evaluate(n, scopes).value)
    ensures InRange(Exact(n, scopes)) ==> Evaluate(n, scopes) == Ok(Exact(n, scopes))
  {
    hide SameBits, InRange, Evaluate, Exact, AllInRange, Settled;
    EvaluateInRange(n, scopes);
    match n {
      case Expr(_, op, l, r) =>
        ExprParts(n, scopes);
        ValueIs(l, scopes);
        ValueIs(r, scopes);
        if op == TokSlash {
          QuotientValueIs(n, scopes, Exact(l, scopes), Exact(r, scopes));
        } else {
          RingValueIs(n, scopes, Evaluate(l, scopes).value, Evaluate(r, scopes).value);
        }
      case UExpr(_, _, e) =>
        UnaryParts(n, scopes);
        ValueIs(e, scopes);
        NegationIs(n, scopes, Evaluate(e, scopes).value);
        DifferenceKeepsBits(Evaluate(n, scopes).value, 0, Evaluate(e, scopes).value, 0, Exact(e, scopes));
      case IfExpr(_, c, t, e) =>
        ChoiceParts(n, scopes);
        ValueIs(c, scopes);
        ChoiceIs(n, scopes, Evaluate(c, scopes).value);
        ValueIs(if Exact(c, scopes) != 0 then t else e.value, scopes);
      case _ => LeafIs(n, scopes);
    }
    BothInRange(Evaluate(n, scopes), Exact(n, scopes));
  }

  lemma BothInRange(r: Result<int, Fault>, w: int)
    requires r.Ok? && SameBits(r.value, w) && InRange(r.value)
    ensures InRange(w) ==> r == Ok(w)
  {
    if InRange(w) {
      OneInRange(r.value, w);
    }
  }

  lemma LeafIs(n: Tree, scopes: Scopes)
    requires (n.Value? || n.Id?) && IsExpr(n) && Evaluate(n, scopes).Ok?
    ensures SameBits(Evaluate(n, scopes).value, Exact(n, scopes))
  {
    hide Literal;
  }

  lemma ExprParts(n: Tree, scopes: Scopes)
    requires n.Expr? && IsExpr(n) && Settled(n, scopes) && Evaluate(n, scopes).Ok?
    ensures Evaluate(n.op1, scopes).Ok? && Evaluate(n.op2, scopes).Ok?
    ensures Settled(n.op1, scopes) && Settled(n.op2, scopes)
    ensures n.op == TokSlash ==>
      && InRange(Exact(n.op1, scopes)) && InRange(Exact(n.op2, scopes))
      && Exact(n, scopes) ==
         if Exact(n.op2, scopes) == 0 then 0 else TruncatedDiv(Exact(n.op1, scopes), Exact(n.op2, scopes))
    ensures n.op != TokSlash ==>
      var a, b := Exact(n.op1, scopes), Exact(n.op2, scopes);
      && (n.op == TokPlus || n.op == TokMinus || n.op == TokStar)
      && Exact(n, scopes) == if n.op == TokPlus then a + b else if n.op == TokMinus then a - b else a * b
  {
    hide Arithmetic, TruncatedDiv, InRange;
  }

  lemma UnaryParts(n: Tree, scopes: Scopes)
    requires n.UExpr? && IsExpr(n) && Settled(n, scopes) && Evaluate(n, scopes).Ok?
    ensures Evaluate(n.operand, scopes).Ok? && Settled(n.operand, scopes)
    ensures SameBits(0, 0) && Exact(n, scopes) == 0 - Exact(n.operand, scopes)
  {
    hide Wrap;
  }

  lemma ChoiceParts(n: Tree, scopes: Scopes)
    requires n.IfExpr? && IsExpr(n) && Settled(n, scopes) && Evaluate(n, scopes).Ok?
    ensures Evaluate(n.cond, scopes).Ok? && Settled(n.cond, scopes) && InRange(Exact(n.cond, scopes))
    ensures
      var arm := if Exact(n.cond, scopes) != 0 then n.thenArm else n.elseArm.value;
      Settled(arm, scopes) && Exact(n, scopes) == Exact(arm, scopes)
  {
    hide InRange;
  }

  /** Sums, differences and products do not see an overflow in their operands. */
  lemma RingValueIs(n: Tree, scopes: Scopes, a: int, b: int)
    requires n.Expr? && IsExpr(n) && n.op != TokSlash && Settled(n, scopes)
    requires Evaluate(n.op1, scopes) == Ok(a) && Evaluate(n.op2, scopes) == Ok(b)
    requires SameBits(a, Exact(n.op1, scopes)) && SameBits(b, Exact(n.op2, scopes))
    ensures Evaluate(n, scopes).Ok? && SameBits(Evaluate(n, scopes).value, Exact(n, scopes))
  {
    hide SameBits, InRange, Evaluate, Exact, Settled;
    OperatorIs(n, scopes, a, b);
    ExprParts(n, scopes);
    var v, x, y := Evaluate(n, scopes).value, Exact(n.op1, scopes), Exact(n.op2, scopes);
    if n.op == TokPlus {
      SumKeepsBits(v, a, b, x, y);
    } else if n.op == TokMinus {
      DifferenceKeepsBits(v, a, b, x, y);
    } else {
      ProductKeepsBits(v, a, b, x, y);
    }
  }

  lemma QuotientValueIs(n: Tree, scopes: Scopes, a: int, b: int)
    requires n.Expr? && IsExpr(n) && n.op == TokSlash && Evaluate(n, scopes).Ok?
    requires Evaluate(n.op1, scopes) == Ok(a) && Evaluate(n.op2, scopes) == Ok(b)
    requires Exact(n, scopes) == if b == 0 then 0 else TruncatedDiv(a, b)
    ensures SameBits(Evaluate(n, scopes).value, Exact(n, scopes))
  {
    hide IsExpr, Exact;
    WrapKeepsBits(-a);
    assert TruncatedDiv(a, -1) == -a;
  }

  /** A program of one echo prints the mathematical value. */
  lemma EchoPrints(at: nat, n: Tree)
    requires IsExpr(n) && Settled(n, [map[]]) && Evaluate(n, [map[]]).Ok? && InRange(Exact(n, [map[]]))
    ensures IsStmt(Block(at, [Echo(at, n)]))
    ensures Execute(Block(at, [Echo(at, n)]), World([], [])) == Finished(World([], [Exact(n, [map[]])]))
  {
    hide Evaluate, Exact, IsExpr, Settled;
    ValueIs(n, [map[]]);
    var ss := [Echo(at, n)];
    var w := World([map[]], []);
    assert [] + [map[]] == w.scopes;
    assert AreStmts(ss) && AreStmts(ss[1..]);
    var v := Exact(n, w.scopes);
    assert Execute(ss[0], w) == Finished(World([map[]], [] + [v]));
    assert ExecuteAll(ss, w) == Finished(World([map[]], [v]));
  }
}
