/**
 The virtual machine's commands: what a list of them means, and how they are laid out as bytes
 (bootstrap/vm.h:10-47, bootstrap/vm.c:10-226).
 */
module Commands {
  import opened Basics
  import opened Bits

  const TWO_63: nat := 0x8000_0000_0000_0000
  const TWO_64: nat := 0x1_0000_0000_0000_0000

  /** A stack slot or operand: 64 unsigned bits. */
  type Slot = n: nat | n < TWO_64

  type Byte = n: nat | n < 256

  function Signed(x: Slot): int {
    if x < TWO_63 then x else x - TWO_64
  }

  /** A signed result in a slot. */
  function ToSlot(n: int): Slot {
    n % TWO_64
  }

  /** The results that C defines: signed 64-bit arithmetic must not overflow. */
  predicate InRange(n: int) {
    -(TWO_63 as int) <= n < TWO_63
  }

  /** A slot holds the mathematical result exactly if C defines it; the model lets all others wrap. */
  lemma SlotIsExact(n: int)
    ensures Signed(ToSlot(n)) == n <==> InRange(n)
  {
  }

  /** The least number divided by -1 is the one quotient that C does not define. */
  lemma QuotientInRange(x: Slot, y: Slot)
    requires y != 0
    ensures InRange(TruncatedDiv(Signed(x), Signed(y))) <==> !(x == TWO_63 && y == TWO_64 - 1)
  {
  }

  /** `Unimplemented` is a command kind that has no executor, with its operands. */
  datatype Command =
    | Halt | EchoI | Not | Add | Sub | Mul | Div | Dup
    | Push(x: Slot)
    | Unimplemented(kind: Byte, ops: seq<Slot>)

  const BC_HALT: Byte := 0
  const BC_ECHOI: Byte := 1
  const BC_NOT: Byte := 3
  const BC_ADD: Byte := 4
  const BC_SUB: Byte := 5
  const BC_MUL: Byte := 6
  const BC_DIV: Byte := 7
  const BC_DUP: Byte := 8
  const BC_PUSH: Byte := 19

  /** The kinds between `BC_CALL` and `BC_STORE` and from `BC_MAKE` to `BC_DROP`. */
  predicate HasNoExecutor(kind: Byte) {
    9 <= kind <= 15 || 20 <= kind <= 22
  }

  predicate WellFormed(c: Command) {
    c.Unimplemented? ==> HasNoExecutor(c.kind) && |c.ops| <= 2
  }

  predicate AllWellFormed(cs: seq<Command>) {
    forall i :: 0 <= i < |cs| ==> WellFormed(cs[i])
  }

  // ----- what commands mean -----

  datatype Error = StackUnderflow | StackOverflow | CodeOverflow | InstructionOverflow | DivisionByZero | NoExecutor

  datatype State = StateRunning | StateStopped | StateError

  datatype Machine = Machine(stack: seq<Slot>, out: seq<int>, stopped: bool, error: Option<Error>)

  function Fail(m: Machine, e: Error): Machine {
    m.(stopped := true, error := Some(e))
  }

  function PopSlot(m: Machine): (Slot, Machine) {
    if m.stopped then (0, m)
    else if m.stack == [] then (0, Fail(m, StackUnderflow))
    else (m.stack[|m.stack| - 1], m.(stack := m.stack[..|m.stack| - 1]))
  }

  function PushSlot(m: Machine, x: Slot, room: nat): Machine {
    if m.stopped then m
    else if |m.stack| >= room then Fail(m, StackOverflow)
    else m.(stack := m.stack + [x])
  }

  /** A binary operation takes its right operand from the top. */
  function Combine(f: (Slot, Slot) -> Slot, m: Machine, room: nat): Machine {
    var (x, m1) := PopSlot(m);
    var (y, m2) := PopSlot(m1);
    PushSlot(m2, f(x, y), room)
  }

  function Perform(c: Command, m: Machine, room: nat): Machine {
    match c
    case Halt => m.(stopped := true)
    case EchoI =>
      var (x, m1) := PopSlot(m);
      if m1.stopped then m1 else m1.(out := m1.out + [Signed(x)])
    case Not =>
      var (x, m1) := PopSlot(m);
      PushSlot(m1, if x == 0 then 1 else 0, room)
    case Div =>
      var (x, m1) := PopSlot(m);
      if m1.stopped then m1
      else if x == 0 then Fail(PushSlot(m1, x, room), DivisionByZero)
      else
        var (y, m2) := PopSlot(m1);
        if m2.stopped then m2 else PushSlot(m2, ToSlot(TruncatedDiv(Signed(y), Signed(x))), room)
    case Dup =>
      var (x, m1) := PopSlot(m);
      PushSlot(PushSlot(m1, x, room), x, room)
    case Push(x) => PushSlot(m, x, room)
    case Add => Combine((right, left) => ToSlot(Signed(right) + Signed(left)), m, room)
    case Sub => Combine((right, left) => ToSlot(Signed(left) - Signed(right)), m, room)
    case Mul => Combine((right, left) => ToSlot(Signed(right) * Signed(left)), m, room)
    case Unimplemented(_, _) => m.(error := Some(NoExecutor))
  }

  function StateOf(m: Machine): State {
    if m.error.Some? then StateError else if m.stopped then StateStopped else StateRunning
  }

  /**
   At most `steps` commands of a list, from the one at `pc` on. Behind the last one the code area holds
   zeros, that is `Halt`, if it has any room left.
   */
  function Interpret(cs: seq<Command>, tail: bool, room: nat, m: Machine, pc: nat, steps: nat): (Machine, State)
    decreases steps
  {
    if steps == 0 || m.stopped then (m, StateOf(m))
    else if pc >= |cs| then
      if tail then Interpret(cs, tail, room, Perform(Halt, m, room), pc, steps - 1)
      else (m.(error := Some(InstructionOverflow)), StateError)
    else if cs[pc].Unimplemented? then (Perform(cs[pc], m, room), StateError)
    else Interpret(cs, tail, room, Perform(cs[pc], m, room), pc + 1, steps - 1)
  }

  // ----- how commands are laid out -----

  /** The `n` low bytes of a number, least significant first. */
  function Bytes(x: nat, n: nat): (bs: seq<Byte>)
    ensures |bs| == n
  {
    if n == 0 then [] else [x % 256] + Bytes(x / 256, n - 1)
  }

  function Number(bs: seq<Byte>): nat {
    if bs == [] then 0 else bs[0] + 256 * Number(bs[1..])
  }

  function Power256(n: nat): nat {
    if n == 0 then 1 else 256 * Power256(n - 1)
  }

  /** Reading back the bytes that were written. */
  lemma {:induction false} BytesRoundTrip(x: nat, n: nat)
    requires x < Power256(n)
    ensures Number(Bytes(x, n)) == x
    decreases n
  {
    if n > 0 {
      assert x / 256 < Power256(n - 1);
      BytesRoundTrip(x / 256, n - 1);
      assert Bytes(x, n)[1..] == Bytes(x / 256, n - 1);
    }
  }

  lemma SlotRoundTrip(x: Slot)
    ensures SlotOf(Bytes(x, 8)) == x
  {
    hide Bytes, Number, Power256;
    Power256Of8();
    BytesRoundTrip(x, 8);
  }

  function KindOf(c: Command): Byte {
    match c
    case Halt => BC_HALT
    case EchoI => BC_ECHOI
    case Not => BC_NOT
    case Add => BC_ADD
    case Sub => BC_SUB
    case Mul => BC_MUL
    case Div => BC_DIV
    case Dup => BC_DUP
    case Push(_) => BC_PUSH
    case Unimplemented(kind, _) => kind
  }

  function Operands(c: Command): seq<Slot> {
    match c
    case Push(x) => [x]
    case Unimplemented(_, ops) => ops
    case _ => []
  }

  function OperandBytes(ops: seq<Slot>): (bs: seq<Byte>)
    ensures |bs| == 8 * |ops|
  {
    if ops == [] then [] else Bytes(ops[0], 8) + OperandBytes(ops[1..])
  }

  function Encode(c: Command): (bs: seq<Byte>)
    ensures |bs| == 1 + 8 * |Operands(c)| && bs[0] == KindOf(c)
  {
    [KindOf(c)] + OperandBytes(Operands(c))
  }

  function EncodeAll(cs: seq<Command>): seq<Byte> {
    if cs == [] then [] else Encode(cs[0]) + EncodeAll(cs[1..])
  }

  lemma {:induction false} EncodeAllJoins(cs: seq<Command>, ds: seq<Command>)
    ensures EncodeAll(cs + ds) == EncodeAll(cs) + EncodeAll(ds)
  {
    if cs == [] {
      assert cs + ds == ds;
    } else {
      assert (cs + ds)[1..] == cs[1..] + ds;
      EncodeAllJoins(cs[1..], ds);
    }
  }

  /** Where a command's bytes are. */
  lemma EncodeAllAt(cs: seq<Command>, pc: nat)
    requires pc < |cs|
    ensures EncodeAll(cs) == EncodeAll(cs[..pc]) + Encode(cs[pc]) + EncodeAll(cs[pc + 1..])
    ensures EncodeAll(cs[..pc + 1]) == EncodeAll(cs[..pc]) + Encode(cs[pc])
  {
    hide Encode, EncodeAll;
    var c, rest := cs[pc], cs[pc + 1..];
    SplitAt(cs, pc);
    EncodeOne(c);
    EncodeAllJoins(cs[..pc], [c] + rest);
    EncodeAllJoins([c], rest);
    EncodeAllJoins(cs[..pc], [c]);
    Associative(EncodeAll(cs[..pc]), Encode(c), EncodeAll(rest));
  }

  lemma SplitAt<T>(s: seq<T>, i: nat)
    requires i < |s|
    ensures s == s[..i] + ([s[i]] + s[i + 1..]) && s[..i + 1] == s[..i] + [s[i]]
  {
  }

  lemma Associative<T>(a: seq<T>, b: seq<T>, c: seq<T>)
    ensures a + (b + c) == a + b + c
  {
  }

  lemma EncodeOne(c: Command)
    ensures EncodeAll([c]) == Encode(c)
  {
    assert EncodeAll([c]) == Encode(c) + EncodeAll([]);
  }

  lemma {:induction false} NumberBelow(bs: seq<Byte>)
    ensures Number(bs) < Power256(|bs|)
  {
    if bs != [] {
      NumberBelow(bs[1..]);
    }
  }

  /** Eight bytes are a slot. */
  function SlotOf(bs: seq<Byte>): Slot
    requires |bs| == 8
  {
    NumberBelow(bs);
    Power256Of8();
    Number(bs)
  }

  lemma Power256Of8()
    ensures Power256(8) == TWO_64
  {
    assert Power256(4) == 0x1_0000_0000;
    assert Power256(8) == 256 * 256 * 256 * 256 * Power256(4);
  }
}
