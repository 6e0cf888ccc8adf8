/**
 The virtual machine as it runs (bootstrap/vm.c): commands emitted as bytes into a code area, executed
 byte by byte by an instruction pointer, on an operand stack of fixed size.
 */
module Vm {
  import opened Basics
  import opened Bits
  import opened Commands

  class VmEngine {
    var code: array<Byte>
    var addPtr: nat          // where the next command is added
    var ip: nat
    var stack: array<Slot>
    var sp: nat
    var stopped: bool
    var error: Option<Error>
    var out: seq<int>
    ghost var commands: seq<Command>

    /** The code area holds the commands added so far, and zeros behind them. */
    ghost predicate Valid()
      reads this, code, stack
    {
      && sp <= stack.Length && ip <= code.Length
      && addPtr == |EncodeAll(commands)| <= code.Length
      && code[..addPtr] == EncodeAll(commands)
      && (forall i :: addPtr <= i < code.Length ==> code[i] == BC_HALT)
      && AllWellFormed(commands)
    }

    ghost function Now(): Machine
      reads this, stack
      requires sp <= stack.Length
    {
      Machine(stack[..sp], out, stopped, error)
    }

    constructor (codeLen: nat, stackLen: nat)
      ensures Valid() && commands == [] && Now() == Machine([], [], false, None)
      ensures code.Length == codeLen && stack.Length == stackLen && fresh(code) && fresh(stack)
    {
      code := new Byte[codeLen](_ => BC_HALT);
      stack := new Slot[stackLen];
      addPtr, ip, sp, stopped, error, out := 0, 0, 0, false, None, [];
      commands := [];
    }

    // ----- emitting -----

    /** Adds a command's kind and operands as bytes, or stops the machine where they do not fit. */
    method AddCommand(c: Command)
      requires Valid() && WellFormed(c)
      modifies this`addPtr, this`stopped, this`error, this`commands, code
      ensures Valid()
      ensures old(addPtr) + |Encode(c)| <= code.Length ==>
                commands == old(commands) + [c] && stopped == old(stopped) && error == old(error)
      ensures old(addPtr) + |Encode(c)| > code.Length ==>
                commands == old(commands) && stopped && error == Some(CodeOverflow)
    {
      hide Encode, EncodeAll, OperandBytes, AllWellFormed;
      AddsBytes(commands, c);
      if addPtr + 1 + |Operands(c)| * 8 > code.Length {
        stopped := true;
        error := Some(CodeOverflow);
        return;
      }
      WriteCommand(c);
      commands := commands + [c];
    }

    method WriteCommand(c: Command)
      requires addPtr + 1 + 8 * |Operands(c)| <= code.Length
      modifies this`addPtr, code
      ensures addPtr == old(addPtr) + 1 + 8 * |Operands(c)|
      ensures code[..addPtr] == old(code[..addPtr]) + ([KindOf(c)] + OperandBytes(Operands(c)))
      ensures forall k :: addPtr <= k < code.Length ==> code[k] == old(code[k])
    {
      hide OperandBytes;
      ghost var base := addPtr;
      code[addPtr] := KindOf(c);
      addPtr := addPtr + 1;
      WriteOperands(Operands(c));
      assert code[..addPtr] == code[..base] + [code[base]] + code[base + 1..addPtr];
    }

    method WriteOperands(ops: seq<Slot>)
      requires addPtr + 8 * |ops| <= code.Length
      modifies this`addPtr, code
      ensures addPtr == old(addPtr) + 8 * |ops|
      ensures code[old(addPtr)..addPtr] == OperandBytes(ops)
      ensures forall k :: 0 <= k < old(addPtr) || addPtr <= k < code.Length ==> code[k] == old(code[k])
    {
      hide OperandBytes, Bytes;
      ghost var base := addPtr;
      var i := 0;
      ghost var written: seq<Byte> := [];
      NoOperands(ops);
      while i < |ops|
        invariant 0 <= i <= |ops| && addPtr == base + |written| && |written| == 8 * i
        invariant written == OperandBytes(ops[..i])
        invariant forall k :: 0 <= k < |written| ==> code[base + k] == written[k]
        invariant forall k :: 0 <= k < base || addPtr <= k < code.Length ==> code[k] == old(code[k])
        modifies this`addPtr, code
      {
        WriteSlot(ops[i]);
        OperandsGrow(ops, i);
        written := written + Bytes(ops[i], 8);
        i := i + 1;
      }
      assert ops[..i] == ops;
    }

    method WriteSlot(x: Slot)
      requires addPtr + 8 <= code.Length
      modifies this`addPtr, code
      ensures addPtr == old(addPtr) + 8
      ensures forall k :: 0 <= k < 8 ==> code[old(addPtr) + k] == Bytes(x, 8)[k]
      ensures forall k :: 0 <= k < old(addPtr) || addPtr <= k < code.Length ==> code[k] == old(code[k])
    {
      hide Bytes;
      ghost var base := addPtr;
      var rest: nat := x;
      var k: nat := 0;
      ghost var written: seq<Byte> := [];
      while k < 8
        invariant k <= 8 && addPtr == base + k && |written| == k
        invariant Bytes(x, 8) == written + Bytes(rest, 8 - k)
        invariant forall j :: 0 <= j < k ==> code[base + j] == written[j]
        invariant forall j :: 0 <= j < base || addPtr <= j < code.Length ==> code[j] == old(code[j])
        modifies this`addPtr, code
      {
        BytesStep(rest, 8 - k);
        code[addPtr] := rest % 256;
        written := written + [rest % 256];
        addPtr := addPtr + 1;
        rest := rest / 256;
        k := k + 1;
      }
      BytesNone(rest);
    }

    // ----- the operand stack -----

    method Pop() returns (x: Slot)
      requires sp <= stack.Length
      modifies this`sp, this`stopped, this`error
      ensures sp <= stack.Length && (x, Now()) == PopSlot(old(Now()))
    {
      if stopped {
        return 0;
      }
      if sp == 0 {
        stopped := true;
        error := Some(StackUnderflow);
        return 0;
      }
      sp := sp - 1;
      x := stack[sp];
      assert stack[..sp] == old(stack[..sp])[..sp];
    }

    method PushOn(x: Slot)
      requires sp <= stack.Length
      modifies this`sp, this`stopped, this`error, stack
      ensures sp <= stack.Length && Now() == PushSlot(old(Now()), x, stack.Length)
    {
      if stopped {
        return;
      }
      if sp >= stack.Length {
        stopped := true;
        error := Some(StackOverflow);
        return;
      }
      stack[sp] := x;
      sp := sp + 1;
    }

    // ----- executing -----

    /** Runs the executor of a command whose kind byte has just been read. */
    method ExecuteKind(kind: Byte, ghost c: Command)
      requires Valid() && ip > 0 && !c.Unimplemented? && kind == KindOf(c) && code[ip - 1..ip] == [kind]
      requires c.Push? ==> ip + 8 <= code.Length && code[ip..ip + 8] == Bytes(c.x, 8)
      modifies this`ip, this`sp, this`stopped, this`error, this`out, stack
      ensures Valid() && Now() == Perform(c, old(Now()), stack.Length)
      ensures !stopped ==> ip == old(ip) + 8 * |Operands(c)|
    {
      hide Bytes, EncodeAll, SlotOf, Number, Power256;
      if kind == BC_PUSH {
        SlotRoundTrip(c.x);
        ExecPush();
      } else if kind == BC_HALT {
        stopped := true;
      } else if kind == BC_ECHOI {
        var x := Pop();
        if !stopped {
          out := out + [Signed(x)];
        }
      } else if kind == BC_NOT {
        var x := Pop();
        PushOn(if x == 0 then 1 else 0);
      } else if kind == BC_DUP {
        var x := Pop();
        PushOn(x);
        PushOn(x);
      } else if kind == BC_DIV {
        ExecDiv();
      } else {
        ExecArithmetic(kind, c);
      }
    }

    /** Signed overflow is undefined in the source (bootstrap/vm.c:51-67); here the result wraps. */
    method ExecArithmetic(kind: Byte, ghost c: Command)
      requires Valid() && (c.Add? || c.Sub? || c.Mul?) && kind == KindOf(c)
      modifies this`sp, this`stopped, this`error, stack
      ensures Valid() && Now() == Perform(c, old(Now()), stack.Length)
    {
      hide Signed, ToSlot, EncodeAll;
      var op1 := Pop();
      var op2 := Pop();
      if kind == BC_ADD {
        PushOn(ToSlot(Signed(op1) + Signed(op2)));
      } else if kind == BC_SUB {
        PushOn(ToSlot(Signed(op2) - Signed(op1)));
      } else {
        PushOn(ToSlot(Signed(op1) * Signed(op2)));
      }
    }

    /** Reads the operand from the bytes behind the kind. */
    method ExecPush()
      requires Valid()
      modifies this`ip, this`sp, this`stopped, this`error, stack
      ensures Valid()
      ensures Now() == if old(ip) + 8 > code.Length then Fail(old(Now()), InstructionOverflow)
                       else PushSlot(old(Now()), SlotOf(code[old(ip)..old(ip) + 8]), stack.Length)
      ensures !stopped ==> ip == old(ip) + 8
    {
      if code.Length - ip < 8 {
        stopped := true;
        error := Some(InstructionOverflow);
        return;
      }
      PushOn(SlotOf(code[ip..ip + 8]));
      if stopped {
        return;
      }
      ip := ip + 8;
    }

    /** The least number divided by -1 is undefined in the source (bootstrap/vm.c:69-82); here it wraps. */
    method ExecDiv()
      requires Valid()
      modifies this`sp, this`stopped, this`error, stack
      ensures Valid() && Now() == Perform(Div, old(Now()), stack.Length)
    {
      var op1 := Pop();
      if stopped {
        return;
      }
      if op1 == 0 {
        PushOn(op1);
        stopped := true;
        error := Some(DivisionByZero);
        return;
      }
      var op2 := Pop();
      if stopped {
        return;
      }
      PushOn(ToSlot(TruncatedDiv(Signed(op2), Signed(op1))));
    }

    /**
     Executing the bytes is interpreting the commands: stack, output, stop and error state agree after any
     number of steps. Before each step the instruction pointer is at the first byte of a command.
     */
    method Execute(steps: nat) returns (state: State)
      requires Valid()
      modifies this`ip, this`sp, this`stopped, this`error, this`out, stack
      ensures Valid()
      ensures (Now(), state) == Interpret(commands, addPtr < code.Length, stack.Length, old(Now()), 0, steps)
    {
      hide Perform, Encode, EncodeAll;
      ip := 0;
      var step := 0;
      assert EncodeAll(commands[..0]) == [] by { NoBytes(commands); }
      ghost var pc: nat := 0;
      ghost var tail, room := addPtr < code.Length, stack.Length;
      while step < steps && !stopped
        invariant 0 <= step <= steps && Valid()
        invariant Interpret(commands, tail, room, Now(), pc, steps - step) ==
                  Interpret(commands, tail, room, old(Now()), 0, steps)
        invariant !stopped ==> pc <= |commands| && ip == |EncodeAll(commands[..pc])|
        modifies this`ip, this`sp, this`stopped, this`error, this`out, stack
      {
        ghost var c := AtBoundary(pc);
        if ip >= code.Length {
          error := Some(InstructionOverflow);
          return StateError;
        }
        var kind := code[ip];
        ip := ip + 1;
        PerformsStop(c, Now(), room);
        if HasNoExecutor(kind) {
          error := Some(NoExecutor);
          return StateError;
        }
        step := step + 1;
        ExecuteKind(kind, c);
        pc := if pc < |commands| then pc + 1 else pc;
      }
      state := if error.Some? then StateError else if stopped then StateStopped else StateRunning;
    }

    /** The command whose bytes begin at the instruction pointer. */
    ghost method AtBoundary(pc: nat) returns (c: Command)
      requires Valid() && pc <= |commands| && ip == |EncodeAll(commands[..pc])|
      ensures c == if pc < |commands| then commands[pc] else Halt
      ensures WellFormed(c)
      ensures pc < |commands| ==>
                && ip + |Encode(c)| == |EncodeAll(commands[..pc + 1])| <= addPtr
                && code[ip] == KindOf(c)
                && ip + 1 + 8 * |Operands(c)| == |EncodeAll(commands[..pc + 1])|
                && (c.Push? ==> code[ip + 1..ip + 9] == Bytes(c.x, 8))
      ensures c.Unimplemented? <==> HasNoExecutor(KindOf(c))
      ensures pc == |commands| ==> ip == addPtr && (ip < code.Length ==> code[ip] == BC_HALT)
    {
      hide Encode, EncodeAll, Bytes;
      if pc < |commands| {
        c := commands[pc];
        EncodeAllAt(commands, pc);
        assert code[..addPtr][ip..ip + |Encode(c)|] == Encode(c);
        assert code[ip..ip + |Encode(c)|] == Encode(c);
        if c.Push? {
          PushBytes(c);
          assert code[ip + 1..ip + 9] == code[ip..ip + 9][1..];
        }
      } else {
        c := Halt;
        assert commands[..pc] == commands;
      }
    }
  }

  lemma PushBytes(c: Command)
    requires c.Push?
    ensures Encode(c)[1..] == Bytes(c.x, 8) && |Encode(c)| == 9
  {
    hide Bytes;
    assert OperandBytes([c.x]) == Bytes(c.x, 8) + OperandBytes([]);
  }

  lemma NoBytes(cs: seq<Command>)
    ensures EncodeAll(cs[..0]) == []
  {
  }

  lemma NoOperands(ops: seq<Slot>)
    ensures OperandBytes(ops[..0]) == []
  {
  }

  lemma AddsBytes(cs: seq<Command>, c: Command)
    ensures EncodeAll(cs + [c]) == EncodeAll(cs) + ([KindOf(c)] + OperandBytes(Operands(c)))
    ensures AllWellFormed(cs) && WellFormed(c) ==> AllWellFormed(cs + [c])
    ensures |Encode(c)| == 1 + 8 * |Operands(c)|
  {
    EncodeAllJoins(cs, [c]);
    EncodeOne(c);
  }

  lemma PerformsStop(c: Command, m: Machine, room: nat)
    ensures c.Halt? ==> Perform(c, m, room).stopped
    ensures c.Unimplemented? ==> Perform(c, m, room) == m.(error := Some(NoExecutor))
  {
  }

  lemma BytesStep(x: nat, n: nat)
    requires n > 0
    ensures Bytes(x, n) == [x % 256] + Bytes(x / 256, n - 1)
  {
  }

  lemma BytesNone(x: nat)
    ensures Bytes(x, 0) == []
  {
  }

  lemma OperandsGrow(ops: seq<Slot>, i: nat)
    requires i < |ops|
    ensures OperandBytes(ops[..i + 1]) == OperandBytes(ops[..i]) + Bytes(ops[i], 8)
  {
    assert ops[..i + 1] == ops[..i] + [ops[i]];
    OperandsJoin(ops[..i], ops[i]);
  }

  lemma {:induction false} OperandsJoin(ops: seq<Slot>, x: Slot)
    ensures OperandBytes(ops + [x]) == OperandBytes(ops) + Bytes(x, 8)
  {
    hide Bytes;
    if ops == [] {
      assert OperandBytes([x]) == Bytes(x, 8) + OperandBytes([]);
      assert ops + [x] == [x];
    } else {
      assert (ops + [x])[1..] == ops[1..] + [x];
      OperandsJoin(ops[1..], x);
    }
  }
}
