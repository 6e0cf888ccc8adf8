/**
 What the virtual machine's commands compute (bootstrap/vm.c:10-93), and that the bytes of an arithmetic
 formula, executed, print its mathematical value.
 */
module VmLaws {
  import opened Basics
  import opened Bits
  import opened Commands
  import opened Vm

  // ----- single commands -----

  /** The machine runs, with `y` below `x` on top of its stack. */
  predicate Holds(m: Machine, s: seq<Slot>, y: Slot, x: Slot) {
    m.stack == s + [y, x] && !m.stopped
  }

  /** Only the stack has changed, and is `s` with one slot on top. */
  predicate Leaves(m: Machine, m': Machine, s: seq<Slot>) {
    |m'.stack| == |s| + 1 && m' == m.(stack := s + [m'.stack[|s|]])
  }

  /** The number on top of the stack. */
  function Top(m: Machine): int
    requires m.stack != []
  {
    Signed(m.stack[|m.stack| - 1])
  }

  lemma Pops(m: Machine, s: seq<Slot>, y: Slot, x: Slot)
    requires Holds(m, s, y, x)
    ensures PopSlot(m) == (x, m.(stack := s + [y])) && PopSlot(m.(stack := s + [y])) == (y, m.(stack := s))
  {
    assert (s + [y, x])[..|s| + 1] == s + [y];
    assert (s + [y])[..|s|] == s;
  }

  lemma SlotHasBits(n: int)
    ensures SameBits(Signed(ToSlot(n)), n)
  {
  }

  /** The result of a sum, a difference or a product takes the place of its operands; the right one lies on top. */
  lemma OperationIs(c: Command, m: Machine, room: nat, s: seq<Slot>, y: Slot, x: Slot)
    requires Holds(m, s, y, x) && |s| < room && (c.Add? || c.Sub? || c.Mul?)
    ensures Leaves(m, Perform(c, m, room), s)
    ensures c.Add? ==> SameBits(Top(Perform(c, m, room)), Signed(y) + Signed(x))
    ensures c.Sub? ==> SameBits(Top(Perform(c, m, room)), Signed(y) - Signed(x))
    ensures c.Mul? ==> SameBits(Top(Perform(c, m, room)), Signed(y) * Signed(x))
  {
    hide Signed, ToSlot, SameBits, InRange;
    Pops(m, s, y, x);
    var n := if c.Add? then Signed(y) + Signed(x) else if c.Sub? then Signed(y) - Signed(x) else Signed(x) * Signed(y);
    Commutes(Signed(y), Signed(x));
    SlotHasBits(n);
    assert Perform(c, m, room) == m.(stack := s + [ToSlot(n)]);
  }

  lemma Commutes(a: int, b: int)
    ensures a * b == b * a && a + b == b + a
  {
  }

  /** Where C defines the result, it is exact. */
  lemma ResultIsExact(c: Command, m: Machine, room: nat, s: seq<Slot>, y: Slot, x: Slot)
    requires Holds(m, s, y, x) && |s| < room
    ensures c.Add? && InRange(Signed(y) + Signed(x)) ==> Top(Perform(c, m, room)) == Signed(y) + Signed(x)
    ensures c.Sub? && InRange(Signed(y) - Signed(x)) ==> Top(Perform(c, m, room)) + Signed(x) == Signed(y)
    ensures c.Mul? && InRange(Signed(y) * Signed(x)) ==> Top(Perform(c, m, room)) == Signed(y) * Signed(x)
  {
    hide Perform, SameBits, Signed;
    if c.Add? || c.Sub? || c.Mul? {
      OperationIs(c, m, room, s, y, x);
      var v := Top(Perform(c, m, room));
      BitsDecide(v, Signed(y) + Signed(x));
      BitsDecide(v, Signed(y) - Signed(x));
      BitsDecide(v, Signed(y) * Signed(x));
      TopInRange(Perform(c, m, room));
    }
  }

  lemma BitsDecide(v: int, w: int)
    ensures SameBits(v, w) && InRange(v) && InRange(w) ==> v == w
  {
    if SameBits(v, w) && InRange(v) && InRange(w) {
      OneInRange(v, w);
    }
  }

  lemma TopInRange(m: Machine)
    requires m.stack != []
    ensures InRange(Top(m))
  {
  }

  /**
   Division cuts off toward zero. A zero divisor stops the machine, with both operands where they were; the
   least number by -1, which C does not define, keeps its bits here.
   */
  lemma QuotientIs(m: Machine, room: nat, s: seq<Slot>, y: Slot, x: Slot)
    requires Holds(m, s, y, x) && |s| + 2 <= room
    ensures x == 0 ==> Perform(Div, m, room) == m.(stopped := true, error := Some(DivisionByZero))
    ensures x != 0 ==> Leaves(m, Perform(Div, m, room), s)
    ensures x != 0 && !(Signed(y) == -TWO_TO_THE_63 && Signed(x) == -1) ==>
      IsRest(Signed(y) - Top(Perform(Div, m, room)) * Signed(x), Signed(y), Signed(x))
    ensures Signed(x) == -1 ==> SameBits(Top(Perform(Div, m, room)), -Signed(y))
  {
    hide IsRest, SameBits, TruncatedDiv;
    Pops(m, s, y, x);
    if x == 0 {
      assert s + [y] + [x] == s + [y, x];
    } else {
      TruncatedDivIs(Signed(y), Signed(x));
      QuotientFits(y, x);
      hide Signed, ToSlot;
    }
  }

  lemma QuotientFits(y: Slot, x: Slot)
    requires x != 0
    ensures Signed(x) != 0
    ensures
      var q := TruncatedDiv(Signed(y), Signed(x));
      && SameBits(Signed(ToSlot(q)), q)
      && (!(Signed(y) == -TWO_TO_THE_63 && Signed(x) == -1) ==> Signed(ToSlot(q)) == q)
      && (Signed(x) == -1 ==> q == -Signed(y))
  {
    var q := TruncatedDiv(Signed(y), Signed(x));
    SlotHasBits(q);
    QuotientInRange(y, x);
    SlotIsExact(q);
  }

  /** The logical negation of the top. */
  lemma NotIs(m: Machine, room: nat, s: seq<Slot>, x: Slot)
    requires m.stack == s + [x] && !m.stopped && |s| < room
    ensures Leaves(m, Perform(Not, m, room), s)
    ensures Top(Perform(Not, m, room)) == if x == 0 then 1 else 0
  {
    assert (s + [x])[..|s|] == s;
  }

  /** The top, twice, or an overflow with the top where it was. */
  lemma DupIs(m: Machine, room: nat, s: seq<Slot>, x: Slot)
    requires m.stack == s + [x] && !m.stopped && |s| < room
    ensures
      Perform(Dup, m, room) ==
      if |s| + 2 <= room then m.(stack := s + [x, x]) else m.(stopped := true, error := Some(StackOverflow))
  {
    assert (s + [x])[..|s|] == s;
    assert s + [x] + [x] == s + [x, x];
  }

  /** The top is printed, as a signed number, and gone. */
  lemma EchoIs(m: Machine, room: nat, s: seq<Slot>, x: Slot)
    requires m.stack == s + [x] && !m.stopped
    ensures Perform(EchoI, m, room) == m.(stack := s, out := m.out + [Signed(x)])
  {
    assert (s + [x])[..|s|] == s;
  }

  /** An operation that finds too few operands takes what there is and stops the machine. */
  lemma UnderflowIs(c: Command, m: Machine, room: nat)
    requires !m.stopped && room > 0
    requires
      || (|m.stack| < 2 && (c.Add? || c.Sub? || c.Mul?))
      || (m.stack == [] && (c.Div? || c.Not? || c.Dup? || c.EchoI?))
    ensures Perform(c, m, room) == m.(stack := [], stopped := true, error := Some(StackUnderflow))
  {
  }

  // ----- formulas -----

  datatype Formula =
    | Number(n: int)
    | Sum(left: Formula, right: Formula)
    | Difference(left: Formula, right: Formula)
    | Product(left: Formula, right: Formula)
    | Quotient(left: Formula, right: Formula)

  /** The mathematical value, of any size; a quotient is cut off toward zero. */
  function Exact(f: Formula): int {
    match f
    case Number(n) => n
    case Sum(l, r) => Exact(l) + Exact(r)
    case Difference(l, r) => Exact(l) - Exact(r)
    case Product(l, r) => Exact(l) * Exact(r)
    case Quotient(l, r) => if Exact(r) == 0 then 0 else TruncatedDiv(Exact(l), Exact(r))
  }

  /** Both operands of every quotient fit into 64 bits, and no divisor is zero; all else may overflow. */
  predicate Settled(f: Formula) {
    match f
    case Number(_) => true
    case Sum(l, r) => Settled(l) && Settled(r)
    case Difference(l, r) => Settled(l) && Settled(r)
    case Product(l, r) => Settled(l) && Settled(r)
    case Quotient(l, r) =>
      Settled(l) && Settled(r) && InRange(Exact(l)) && InRange(Exact(r)) && Exact(r) != 0
  }

  function Operation(f: Formula): Command
    requires !f.Number?
  {
    match f
    case Sum(_, _) => Add
    case Difference(_, _) => Sub
    case Product(_, _) => Mul
    case Quotient(_, _) => Div
  }

  /** The operands from left to right, then the operation. */
  function Code(f: Formula): (cs: seq<Command>)
    ensures cs != [] && AllWellFormed(cs)
  {
    if f.Number? then [Push(ToSlot(f.n))] else Code(f.left) + Code(f.right) + [Operation(f)]
  }

  /** The slots that the code takes. */
  function Needs(f: Formula): (n: nat)
    ensures n >= 1
  {
    if f.Number? then 1 else
      var (l, r) := (Needs(f.left), 1 + Needs(f.right));
      if l > r then l else r
  }

  /** The code of a formula lies at `pc`. */
  predicate Lies(cs: seq<Command>, pc: nat, code: seq<Command>) {
    pc + |code| <= |cs| && cs[pc..pc + |code|] == code
  }

  lemma LiesApart(cs: seq<Command>, pc: nat, a: seq<Command>, b: seq<Command>, c: Command)
    requires Lies(cs, pc, a + b + [c])
    ensures Lies(cs, pc, a) && Lies(cs, pc + |a|, b)
    ensures pc + |a| + |b| < |cs| && cs[pc + |a| + |b|] == c
  {
    var code := a + b + [c];
    assert code[..|a|] == a && code[|a|..|a| + |b|] == b && code[|a| + |b|] == c;
    SliceOfSlice(cs, pc, |code|, 0, |a|);
    SliceOfSlice(cs, pc, |code|, |a|, |a| + |b|);
    assert cs[pc..pc + |code|][|a| + |b|] == cs[pc + |a| + |b|];
  }

  lemma SliceOfSlice<T>(s: seq<T>, at: nat, n: nat, from: nat, to: nat)
    requires at + n <= |s| && from <= to <= n
    ensures s[at..at + n][from..to] == s[at + from..at + to]
  {
    var t := s[at..at + n];
    forall k | 0 <= k < to - from
      ensures t[from..to][k] == s[at + from..at + to][k]
    {
      assert t[from..to][k] == t[from + k] == s[at + (from + k)];
    }
  }

  lemma OneStep(cs: seq<Command>, tail: bool, room: nat, m: Machine, pc: nat, steps: nat)
    requires pc < |cs| && !cs[pc].Unimplemented? && !m.stopped
    ensures
      Interpret(cs, tail, room, m, pc, steps + 1) == Interpret(cs, tail, room, Perform(cs[pc], m, room), pc + 1, steps)
  {
    hide Perform;
  }

  /** A slot whose number has the bits of a mathematical value. */
  predicate Stands(t: Slot, v: int) {
    SameBits(Signed(t), v)
  }

  /** A formula's code leaves one slot more, which has the bits of the formula's value. */
  lemma {:induction false} CodeRuns(
      f: Formula, cs: seq<Command>, tail: bool, room: nat, m: Machine, pc: nat, steps: nat)
    returns (t: Slot)
    requires Lies(cs, pc, Code(f)) && Settled(f) && !m.stopped && |m.stack| + Needs(f) <= room
    ensures Stands(t, Exact(f))
    ensures
      Interpret(cs, tail, room, m, pc, steps + |Code(f)|) ==
      Interpret(cs, tail, room, m.(stack := m.stack + [t]), pc + |Code(f)|, steps)
    decreases f
  {
    hide Interpret, Perform, Exact, Settled, Stands, Lies;
    if f.Number? {
      t := ToSlot(f.n);
      NumberRuns(f, cs, pc, m, room);
      OneStep(cs, tail, room, m, pc, steps);
    } else {
      var l, r := f.left, f.right;
      Parts(f);
      LiesApart(cs, pc, Code(l), Code(r), Operation(f));
      var (pc1, pc2) := (pc + |Code(l)|, pc + |Code(l)| + |Code(r)|);
      var y := CodeRuns(l, cs, tail, room, m, pc, steps + 1 + |Code(r)|);
      var m1 := m.(stack := m.stack + [y]);
      var x := CodeRuns(r, cs, tail, room, m1, pc1, steps + 1);
      var m2 := m1.(stack := m1.stack + [x]);
      assert m.stack + [y] + [x] == m.stack + [y, x];
      OneStep(cs, tail, room, m2, pc2, steps);
      t := OperationRuns(f, m, room, y, x);
    }
  }

  lemma NumberRuns(f: Formula, cs: seq<Command>, pc: nat, m: Machine, room: nat)
    requires f.Number? && Lies(cs, pc, Code(f)) && !m.stopped && |m.stack| < room
    ensures pc < |cs| && cs[pc] == Push(ToSlot(f.n)) && |Code(f)| == 1
    ensures Perform(cs[pc], m, room) == m.(stack := m.stack + [ToSlot(f.n)])
    ensures Stands(ToSlot(f.n), Exact(f))
  {
    assert cs[pc..pc + 1][0] == cs[pc];
    SlotHasBits(f.n);
  }

  lemma Parts(f: Formula)
    requires !f.Number? && Settled(f)
    ensures Settled(f.left) && Settled(f.right) && Code(f) == Code(f.left) + Code(f.right) + [Operation(f)]
    ensures
      var a, b := Exact(f.left), Exact(f.right);
      && (f.Sum? ==> Exact(f) == a + b) && (f.Difference? ==> Exact(f) == a - b)
      && (f.Product? ==> Exact(f) == a * b)
      && (f.Quotient? ==> InRange(a) && InRange(b) && b != 0 && Exact(f) == TruncatedDiv(a, b))
  {
    hide TruncatedDiv, InRange;
  }

  lemma OperationRuns(f: Formula, m: Machine, room: nat, y: Slot, x: Slot) returns (t: Slot)
    requires !f.Number? && Settled(f) && Stands(y, Exact(f.left)) && Stands(x, Exact(f.right))
    requires !m.stopped && |m.stack| + 2 <= room
    ensures Stands(t, Exact(f))
    ensures Perform(Operation(f), m.(stack := m.stack + [y, x]), room) == m.(stack := m.stack + [t])
  {
    hide Perform, Exact, Settled, SameBits, Signed, TruncatedDiv;
    Parts(f);
    var a, b := Exact(f.left), Exact(f.right);
    var m2 := m.(stack := m.stack + [y, x]);
    var m3 := Perform(Operation(f), m2, room);
    if f.Quotient? {
      BitsDecide(Signed(y), a);
      BitsDecide(Signed(x), b);
      SlotInRange(y);
      SlotInRange(x);
      QuotientIs(m2, room, m.stack, y, x);
      QuotientTop(m2, room, m.stack, y, x);
    } else {
      OperationIs(Operation(f), m2, room, m.stack, y, x);
      var v := Top(m3);
      if f.Sum? {
        SumKeepsBits(v, Signed(y), Signed(x), a, b);
      } else if f.Difference? {
        DifferenceKeepsBits(v, Signed(y), Signed(x), a, b);
      } else {
        ProductKeepsBits(v, Signed(y), Signed(x), a, b);
      }
    }
    t := m3.stack[|m.stack|];
  }

  lemma SlotInRange(x: Slot)
    ensures InRange(Signed(x)) && (x == 0 <==> Signed(x) == 0)
  {
  }

  lemma QuotientTop(m: Machine, room: nat, s: seq<Slot>, y: Slot, x: Slot)
    requires Holds(m, s, y, x) && |s| + 2 <= room && x != 0 && Signed(x) != 0
    ensures
      var m' := Perform(Div, m, room);
      m'.stack != [] && SameBits(Top(m'), TruncatedDiv(Signed(y), Signed(x)))
  {
    hide Signed, ToSlot, SameBits, TruncatedDiv;
    Pops(m, s, y, x);
    SlotHasBits(TruncatedDiv(Signed(y), Signed(x)));
  }

  // ----- from a formula to what the machine prints -----

  /** The code, a print and a stop. */
  function Printing(f: Formula): (cs: seq<Command>)
    ensures AllWellFormed(cs)
  {
    Code(f) + [EchoI, Halt]
  }

  /** What is printed has the bits of the value, and is the value where that is in range. */
  predicate Denotes(v: int, f: Formula) {
    InRange(v) && SameBits(v, Exact(f)) && (InRange(Exact(f)) ==> v == Exact(f))
  }

  lemma PrintingRuns(f: Formula, tail: bool, room: nat) returns (v: int)
    requires Settled(f) && Needs(f) <= room
    ensures Denotes(v, f)
    ensures
      Interpret(Printing(f), tail, room, Machine([], [], false, None), 0, |Printing(f)|) ==
      (Machine([], [v], true, None), StateStopped)
  {
    hide Exact, Settled, SameBits, Signed;
    var cs, n, m := Printing(f), |Code(f)|, Machine([], [], false, None);
    assert cs[0..0 + n] == Code(f);
    var t := CodeRuns(f, cs, tail, room, m, 0, 2);
    v := Signed(t);
    SlotInRange(t);
    BitsDecide(v, Exact(f));
    var m1 := m.(stack := [t]);
    assert m.stack + [t] == [t] && [] + [t] == [t];
    EchoIs(m1, room, [], t);
    OneStep(cs, tail, room, m1, n, 1);
    var m2 := Machine([], [v], false, None);
    assert [] + [v] == [v];
    OneStep(cs, tail, room, m2, n + 1, 0);
    Stops(cs, tail, room, Perform(Halt, m2, room), n + 2);
  }

  lemma Stops(cs: seq<Command>, tail: bool, room: nat, m: Machine, pc: nat)
    ensures Interpret(cs, tail, room, m, pc, 0) == (m, StateOf(m))
  {
  }

  /** Emitted as bytes and executed, a formula prints its value. */
  method PrintFormula(f: Formula) returns (printed: seq<int>, state: State)
    requires Settled(f)
    ensures state == StateStopped && |printed| == 1 && Denotes(printed[0], f)
  {
    hide Settled, Exact, Denotes, Interpret, EncodeAll, Encode, Needs;
    var cs := Printing(f);
    var vm := new VmEngine(|EncodeAll(cs)|, Needs(f));
    ghost var empty := vm.Now();
    NoBytes(cs);
    assert cs[..0] == [];
    for i := 0 to |cs|
      invariant vm.Valid() && vm.commands == cs[..i] && vm.Now() == Machine([], [], false, None)
      invariant vm.code.Length == |EncodeAll(cs)| && vm.stack.Length == Needs(f)
      invariant fresh(vm) && fresh(vm.code) && fresh(vm.stack)
    {
      EncodeAllAt(cs, i);
      assert WellFormed(cs[i]);
      vm.AddCommand(cs[i]);
      assert cs[..i + 1] == cs[..i] + [cs[i]];
    }
    assert cs[..|cs|] == cs;
    ghost var v := PrintingRuns(f, vm.addPtr < vm.code.Length, Needs(f));
    state := vm.Execute(|cs|);
    printed := vm.out;
  }

  /** The program of the source's own test (bootstrap/vm_test.c:8-31), but for its string. */
  function TestProgram(): seq<Command> {
    [Push(51), Not, Dup, EchoI, Push(5), Add, EchoI, Halt]
  }

  /** It prints 0 and 5. */
  lemma TestProgramPrints(tail: bool, room: nat)
    requires room >= 2
    ensures
      Interpret(TestProgram(), tail, room, Machine([], [], false, None), 0, 8) ==
      (Machine([], [0, 5], true, None), StateStopped)
  {
    hide Interpret, Perform;
    var cs, m := TestProgram(), Machine([], [], false, None);
    TestStart(cs, tail, room, m);
    var m3 := Machine([0, 0], [], false, None);
    TestEnd(cs, tail, room, m3);
  }

  lemma TestStart(cs: seq<Command>, tail: bool, room: nat, m: Machine)
    requires cs == TestProgram() && room >= 2 && m == Machine([], [], false, None)
    ensures
      Interpret(cs, tail, room, m, 0, 8) == Interpret(cs, tail, room, Machine([0, 0], [], false, None), 3, 5)
  {
    hide Interpret, Perform;
    var (m1, m2) := (Machine([51], [], false, None), Machine([0], [], false, None));
    OneStep(cs, tail, room, m, 0, 7);
    PushIs(m, room, 51);
    OneStep(cs, tail, room, m1, 1, 6);
    assert [] + [51] == m1.stack;
    NotIs(m1, room, [], 51);
    NotZero(Perform(Not, m1, room));
    OneStep(cs, tail, room, m2, 2, 5);
    assert [] + [0] == m2.stack && [] + [0, 0] == [0, 0];
    DupIs(m2, room, [], 0);
  }

  lemma NotZero(m: Machine)
    requires |m.stack| == 1 && Top(m) == 0
    ensures m.stack == [0]
  {
  }

  lemma TestEnd(cs: seq<Command>, tail: bool, room: nat, m3: Machine)
    requires cs == TestProgram() && room >= 2 && m3 == Machine([0, 0], [], false, None)
    ensures Interpret(cs, tail, room, m3, 3, 5) == (Machine([], [0, 5], true, None), StateStopped)
  {
    hide Interpret, Perform;
    var (m4, m5) := (Machine([0], [0], false, None), Machine([0, 5], [0], false, None));
    var (m6, m7) := (Machine([5], [0], false, None), Machine([], [0, 5], false, None));
    OneStep(cs, tail, room, m3, 3, 4);
    assert [0] + [0] == m3.stack && [] + [0] == [0];
    EchoIs(m3, room, [0], 0);
    OneStep(cs, tail, room, m4, 4, 3);
    PushIs(m4, room, 5);
    assert m4.stack + [5] == m5.stack;
    OneStep(cs, tail, room, m5, 5, 2);
    FiveIs(m5, room);
    OneStep(cs, tail, room, m6, 6, 1);
    assert [] + [5] == m6.stack && m6.out + [5] == m7.out;
    EchoIs(m6, room, [], 5);
    OneStep(cs, tail, room, m7, 7, 0);
    HaltIs(m7, room);
    Stops(cs, tail, room, m7.(stopped := true), 8);
  }

  lemma FiveIs(m: Machine, room: nat)
    requires m == Machine([0, 5], [0], false, None) && room >= 2
    ensures Perform(Add, m, room) == Machine([5], [0], false, None)
  {
    hide Perform;
    assert [] + [0, 5] == m.stack;
    ResultIsExact(Add, m, room, [], 0, 5);
    OperationIs(Add, m, room, [], 0, 5);
    var m' := Perform(Add, m, room);
    assert m'.stack == [m'.stack[0]];
  }

  lemma PushIs(m: Machine, room: nat, x: Slot)
    requires !m.stopped && |m.stack| < room
    ensures Perform(Push(x), m, room) == m.(stack := m.stack + [x])
  {
  }

  lemma HaltIs(m: Machine, room: nat)
    ensures Perform(Halt, m, room) == m.(stopped := true)
  {
  }

  // ----- bytes -----

  /** The kinds as numbers, and a push of a small number: its least significant byte comes first. */
  lemma EncodesTo(x: Slot)
    requires x < 256
    ensures Encode(Push(x)) == [19, x, 0, 0, 0, 0, 0, 0, 0]
    ensures Encode(Halt) == [0] && Encode(EchoI) == [1] && Encode(Not) == [3] && Encode(Add) == [4]
    ensures Encode(Sub) == [5] && Encode(Mul) == [6] && Encode(Div) == [7] && Encode(Dup) == [8]
  {
    assert OperandBytes([]) == [];
    assert OperandBytes([x]) == Bytes(x, 8) + OperandBytes([]);
    hide OperandBytes;
    BytesStep(x, 8);
    BytesStep(0, 7);
    BytesStep(0, 6);
    BytesStep(0, 5);
    BytesStep(0, 4);
    BytesStep(0, 3);
    BytesStep(0, 2);
    BytesStep(0, 1);
    BytesNone(0);
    hide Bytes;
  }
}
