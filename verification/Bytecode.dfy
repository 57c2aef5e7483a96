/**
 The REVERT-to-STOP patch for SCDO V1 nodes (go/scdo/bytecode.go), related to the original code by disassembly
 and by execution.
 */
module Bytecode {
  import opened Bytes

  const REVERT: Byte := 0xfd
  const STOP: Byte := 0x00
  const JUMPDEST: Byte := 0x5b

  function PatchByte(b: Byte): Byte { if b == REVERT then STOP else b }

  function Patched(code: seq<Byte>): (out: seq<Byte>)
    ensures |out| == |code|
  {
    seq(|code|, i requires 0 <= i < |code| => PatchByte(code[i]))
  }

  /** A fresh copy with every 0xfd byte overwritten; the input is left alone, and an empty one is returned as it is. */
  method PatchBytecodeForV1(bytecode: array<Byte>) returns (out: array<Byte>)
    ensures out[..] == Patched(bytecode[..])
    ensures if bytecode.Length == 0 then out == bytecode else fresh(out)
  {
    if bytecode.Length == 0 {
      return bytecode;
    }
    out := new Byte[bytecode.Length];
    forall i | 0 <= i < out.Length {
      out[i] := bytecode[i];
    }
    for i := 0 to out.Length
      invariant forall k :: 0 <= k < i ==> out[k] == PatchByte(bytecode[k])
      invariant forall k :: i <= k < out.Length ==> out[k] == bytecode[k]
    {
      var b := out[i];
      if b == 0xfd {
        out[i] := 0x00;
      }
    }
  }

  function CountRevertOpcodes(code: seq<Byte>): nat {
    if code == [] then 0
    else CountRevertOpcodes(code[..|code| - 1]) + if code[|code| - 1] == REVERT then 1 else 0
  }

  /** Patching twice is patching once, and no 0xfd byte is left to count. */
  lemma {:induction false} PatchIsFinal(code: seq<Byte>)
    ensures Patched(Patched(code)) == Patched(code)
    ensures CountRevertOpcodes(Patched(code)) == 0
  {
    if code != [] {
      var n := |code| - 1;
      PatchIsFinal(code[..n]);
      assert Patched(code)[..n] == Patched(code[..n]);
    }
  }

  // ----- Disassembly -----

  /** PUSH1 to PUSH32 carry 1 to 32 bytes of data. */
  function DataLength(op: Byte): nat {
    if 0x60 <= op <= 0x7f then op - 0x5f else 0
  }

  /** Positions at which instructions start, read from position `pc` on. */
  function Starts(code: seq<Byte>, pc: nat): set<nat>
    decreases |code| - pc
  {
    if pc >= |code| then {} else {pc} + Starts(code, pc + 1 + DataLength(code[pc]))
  }

  /** The valid jump destinations of section 9.4.3 of the Ethereum Yellow Paper. */
  function JumpDestinations(code: seq<Byte>): set<nat> {
    set pc | pc in Starts(code, 0) && pc < |code| && code[pc] == JUMPDEST
  }

  datatype Instruction = Instruction(op: Byte, data: seq<Byte>)

  /** Code bytes past the end read as zero. */
  function ByteAt(code: seq<Byte>, i: nat): Byte {
    if i < |code| then code[i] else 0
  }

  function InstructionAt(code: seq<Byte>, pc: nat): Instruction
    requires pc < |code|
  {
    Instruction(code[pc], DataAt(code, pc + 1, DataLength(code[pc])))
  }

  function DataAt(code: seq<Byte>, from: nat, n: nat): (data: seq<Byte>)
    ensures |data| == n
    ensures forall i :: 0 <= i < n ==> data[i] == ByteAt(code, from + i)
  {
    seq<Byte>(n, i requires 0 <= i < n => ByteAt(code, from + i))
  }

  /** The instruction the patch is meant to leave: STOP for REVERT, any other one unchanged. */
  function Intended(i: Instruction): Instruction {
    if i.op == REVERT then Instruction(STOP, []) else i
  }

  lemma {:induction false} StartsAreInside(code: seq<Byte>, pc: nat)
    ensures forall p :: p in Starts(code, pc) ==> pc <= p < |code|
    decreases |code| - pc
  {
    if pc < |code| { StartsAreInside(code, pc + 1 + DataLength(code[pc])); }
  }

  /** PUSHn carries n bytes, for n from 1 to 32, and no other instruction carries any. */
  lemma PushWidths(op: Byte)
    ensures 1 <= DataLength(op) <= 32 <==> 0x60 <= op <= 0x7f
    ensures DataLength(op) != 0 ==> op == 0x60 + (DataLength(op) - 1)
  {
  }

  /** Byte `i` belongs to the instruction that starts at `q`: it is its opcode or part of its data. */
  predicate Owns(code: seq<Byte>, q: nat, i: nat) {
    q < |code| && q <= i <= q + DataLength(code[q])
  }

  /** Disassembly tiles the code: every byte belongs to exactly one instruction. */
  lemma {:induction false} EveryByteBelongsOnce(code: seq<Byte>, pc: nat, i: nat) returns (q: nat)
    requires pc <= i < |code|
    ensures q in Starts(code, pc) && Owns(code, q, i)
    ensures forall p :: p in Starts(code, pc) && Owns(code, p, i) ==> p == q
    decreases |code| - pc
  {
    var next := pc + 1 + DataLength(code[pc]);
    StartsAreInside(code, next);
    if i < next {
      q := pc;
    } else {
      q := EveryByteBelongsOnce(code, next, i);
    }
  }

  /** The valid jump destinations are the 0x5b bytes that are not part of an instruction's data. */
  lemma JumpDestinationsExactly(code: seq<Byte>, i: nat)
    ensures i in JumpDestinations(code)
            <==> i < |code| && code[i] == 0x5b && forall q :: q in Starts(code, 0) && q != i ==> !Owns(code, q, i)
  {
    if i < |code| {
      var q := EveryByteBelongsOnce(code, 0, i);
    }
  }

  lemma {:induction false} PatchKeepsStarts(code: seq<Byte>, pc: nat)
    ensures Starts(Patched(code), pc) == Starts(code, pc)
    decreases |code| - pc
  {
    if pc < |code| {
      assert DataLength(Patched(code)[pc]) == DataLength(code[pc]);
      PatchKeepsStarts(code, pc + 1 + DataLength(code[pc]));
    }
  }

  /** Instruction boundaries and jump destinations survive the patch, for every byte string. */
  lemma PatchKeepsStructure(code: seq<Byte>)
    ensures Starts(Patched(code), 0) == Starts(code, 0)
    ensures JumpDestinations(Patched(code)) == JumpDestinations(code)
  {
    PatchKeepsStarts(code, 0);
    StartsAreInside(code, 0);
  }

  /**
   A patched instruction keeps its length; its opcode is the intended one; its data changes in exactly the 0xfd
   bytes, so the whole instruction is the intended one if and only if its data holds no such byte.
   */
  lemma PatchedInstruction(code: seq<Byte>, pc: nat)
    requires pc < |code|
    ensures var was, now := InstructionAt(code, pc), InstructionAt(Patched(code), pc);
            && now.op == Intended(was).op
            && now.data == Patched(was.data)
            && (now == Intended(was) <==> REVERT !in was.data)
  {
    var was, now := InstructionAt(code, pc), InstructionAt(Patched(code), pc);
    assert |now.data| == |was.data|;
    forall i | 0 <= i < |was.data| ensures now.data[i] == PatchByte(was.data[i]) {
    }
    assert now.data == Patched(was.data);
    if REVERT in was.data {
      var i :| 0 <= i < |was.data| && was.data[i] == REVERT;
      assert now.data[i] != was.data[i];
    } else {
      assert now.data == was.data;
    }
  }

  // ----- What the byte count counts -----

  /** REVERT instructions from position `pc` on. */
  function RevertInstructions(code: seq<Byte>, pc: nat): nat
    decreases |code| - pc
  {
    if pc >= |code| then 0
    else (if code[pc] == REVERT then 1 else 0) + RevertInstructions(code, pc + 1 + DataLength(code[pc]))
  }

  /** No instruction from position `pc` on has a 0xfd byte in its data. */
  predicate CleanData(code: seq<Byte>, pc: nat)
    decreases |code| - pc
  {
    pc < |code| ==>
      REVERT !in InstructionAt(code, pc).data && CleanData(code, pc + 1 + DataLength(code[pc]))
  }

  lemma {:induction false} CountSplits(a: seq<Byte>, b: seq<Byte>)
    ensures CountRevertOpcodes(a + b) == CountRevertOpcodes(a) + CountRevertOpcodes(b)
  {
    if b == [] {
      assert a + b == a;
    } else {
      assert (a + b)[..|a + b| - 1] == a + b[..|b| - 1];
      CountSplits(a, b[..|b| - 1]);
    }
  }

  lemma {:induction false} CountIsZero(code: seq<Byte>)
    ensures CountRevertOpcodes(code) == 0 <==> REVERT !in code
  {
    if code != [] {
      CountIsZero(code[..|code| - 1]);
      assert code == code[..|code| - 1] + [code[|code| - 1]];
    }
  }

  /** Where the data of the instruction at `pc` ends, at the latest with the code. */
  function DataEnd(code: seq<Byte>, pc: nat): nat
    requires pc < |code|
  {
    var next := pc + 1 + DataLength(code[pc]);
    if next < |code| then next else |code|
  }

  lemma DataHoldsRevert(code: seq<Byte>, pc: nat)
    requires pc < |code|
    ensures REVERT in InstructionAt(code, pc).data <==> REVERT in code[pc + 1..DataEnd(code, pc)]
  {
    var data, bytes := InstructionAt(code, pc).data, code[pc + 1..DataEnd(code, pc)];
    if REVERT in data {
      var i :| 0 <= i < |data| && data[i] == REVERT;
      assert data[i] == ByteAt(code, pc + 1 + i);
      assert bytes[i] == REVERT;
    }
    if REVERT in bytes {
      var i :| 0 <= i < |bytes| && bytes[i] == REVERT;
      assert data[i] == ByteAt(code, pc + 1 + i);
    }
  }

  lemma {:induction false} CountFrom(code: seq<Byte>, pc: nat)
    requires pc <= |code|
    ensures CountRevertOpcodes(code[pc..]) >= RevertInstructions(code, pc)
    ensures CountRevertOpcodes(code[pc..]) == RevertInstructions(code, pc) <==> CleanData(code, pc)
    decreases |code| - pc
  {
    if pc < |code| {
      var stop := DataEnd(code, pc);
      var op, data, rest := [code[pc]], code[pc + 1..stop], code[stop..];
      assert code[pc..] == op + (data + rest);
      CountSplits(op, data + rest);
      CountSplits(data, rest);
      assert op == [] + op && CountRevertOpcodes([]) == 0;
      CountSplits([], op);
      CountIsZero(data);
      DataHoldsRevert(code, pc);
      CountFrom(code, stop);
    }
  }

  /** The byte count is the number of REVERT instructions if and only if no PUSH data holds a 0xfd byte. */
  lemma CountIsRevertInstructions(code: seq<Byte>)
    ensures CountRevertOpcodes(code) >= RevertInstructions(code, 0)
    ensures CountRevertOpcodes(code) == RevertInstructions(code, 0) <==> CleanData(code, 0)
  {
    assert code[0..] == code;
    CountFrom(code, 0);
  }

  /** A PUSH1 of the byte 0xfd: the patch changes what is pushed, and the count sees a REVERT where there is none. */
  lemma PushDataIsPatched()
    ensures Patched([0x60, 0xfd]) == [0x60, 0x00]
    ensures CountRevertOpcodes([0x60, 0xfd]) == 1 && RevertInstructions([0x60, 0xfd], 0) == 0
  {
    var code: seq<Byte> := [0x60, 0xfd];
    assert code[..1] == [0x60] && code[..1][..0] == [];
  }

  // ----- Execution -----

  /** What one instruction does to a machine state that does not include the code, as CODECOPY and its like would need. */
  datatype Effect<S> = Next(s: S) | Jump(dest: nat, s: S) | Halt(s: S)

  type Semantics<!S> = (Instruction, S) -> Effect<S>

  datatype Outcome<S> = Running(pc: nat, s: S) | Halted(s: S) | BadJump(s: S)

  function Execute<S>(code: seq<Byte>, sem: Semantics<S>, pc: nat, s: S, steps: nat): Outcome<S>
    decreases steps
  {
    if steps == 0 then Running(pc, s)
    else if pc >= |code| then Halted(s)
    else
      match sem(InstructionAt(code, pc), s)
      case Next(s') => Execute(code, sem, pc + 1 + DataLength(code[pc]), s', steps - 1)
      case Jump(dest, s') =>
        if dest in JumpDestinations(code) then Execute(code, sem, dest, s', steps - 1) else BadJump(s')
      case Halt(s') => Halted(s')
  }

  /** A machine on which REVERT behaves as STOP. */
  function StopForRevert<S>(sem: Semantics<S>): Semantics<S> {
    (i: Instruction, s: S) => sem(Intended(i), s)
  }

  lemma {:induction false} StartsAreClosed(code: seq<Byte>, from: nat, pc: nat)
    requires pc in Starts(code, from) && CleanData(code, from)
    ensures pc < |code| && REVERT !in InstructionAt(code, pc).data
    ensures var next := pc + 1 + DataLength(code[pc]); next < |code| ==> next in Starts(code, from)
    decreases |code| - from
  {
    if pc != from { StartsAreClosed(code, from + 1 + DataLength(code[from]), pc); }
  }

  /** The instructions that the intended run meets within `steps` have no 0xfd byte in their data. */
  predicate MeetsCleanData<S>(code: seq<Byte>, sem: Semantics<S>, pc: nat, s: S, steps: nat)
    decreases steps
  {
    steps > 0 && pc < |code| ==>
      && REVERT !in InstructionAt(code, pc).data
      && match sem(Intended(InstructionAt(code, pc)), s)
         case Next(s') => MeetsCleanData(code, sem, pc + 1 + DataLength(code[pc]), s', steps - 1)
         case Jump(dest, s') => dest in JumpDestinations(code) ==> MeetsCleanData(code, sem, dest, s', steps - 1)
         case Halt(_) => true
  }

  /**
   Meaning is preserved: on any machine, for any code and after any number of steps, the patched code is where the
   original code is on the machine whose REVERT stops, as long as the instructions met on the way have no 0xfd byte in
   their data.
   */
  lemma {:induction false} PatchedCodeRunsAsIntended<S>(code: seq<Byte>, sem: Semantics<S>, pc: nat, s: S, steps: nat)
    requires MeetsCleanData(code, sem, pc, s, steps)
    ensures Execute(Patched(code), sem, pc, s, steps) == Execute(code, StopForRevert(sem), pc, s, steps)
    decreases steps
  {
    if steps > 0 && pc < |code| {
      PatchKeepsStructure(code);
      PatchedInstruction(code, pc);
      assert DataLength(Patched(code)[pc]) == DataLength(code[pc]);
      match sem(InstructionAt(Patched(code), pc), s)
      case Next(s') =>
        PatchedCodeRunsAsIntended(code, sem, pc + 1 + DataLength(code[pc]), s', steps - 1);
      case Jump(dest, s') =>
        if dest in JumpDestinations(code) { PatchedCodeRunsAsIntended(code, sem, dest, s', steps - 1); }
      case Halt(_) =>
    }
  }

  /** When no PUSH data of the whole code holds a 0xfd byte, no run from its first instruction meets one. */
  lemma {:induction false} CleanCodeMeetsCleanData<S>(code: seq<Byte>, sem: Semantics<S>, pc: nat, s: S, steps: nat)
    requires CleanData(code, 0) && (pc >= |code| || pc in Starts(code, 0))
    ensures MeetsCleanData(code, sem, pc, s, steps)
    decreases steps
  {
    if steps > 0 && pc < |code| {
      StartsAreClosed(code, 0, pc);
      match sem(Intended(InstructionAt(code, pc)), s)
      case Next(s') => CleanCodeMeetsCleanData(code, sem, pc + 1 + DataLength(code[pc]), s', steps - 1);
      case Jump(dest, s') =>
        if dest in JumpDestinations(code) { CleanCodeMeetsCleanData(code, sem, dest, s', steps - 1); }
      case Halt(_) =>
    }
  }

  /** So the patched code then runs as intended on every machine. */
  lemma CleanCodeRunsAsIntended<S>(code: seq<Byte>, sem: Semantics<S>, s: S, steps: nat)
    requires CleanData(code, 0)
    ensures Execute(Patched(code), sem, 0, s, steps) == Execute(code, StopForRevert(sem), 0, s, steps)
  {
    CleanCodeMeetsCleanData(code, sem, 0, s, steps);
    PatchedCodeRunsAsIntended(code, sem, 0, s, steps);
  }

  /** A machine that records the instructions it meets. */
  function Recorder(): Semantics<seq<Instruction>> {
    (i: Instruction, met: seq<Instruction>) => Next(met + [i])
  }

  /** On it the two runs part at the first instruction with a 0xfd byte in its data. */
  lemma {:induction false} RecordsDiffer(code: seq<Byte>, pc: nat, met: seq<Instruction>) returns (steps: nat)
    requires !CleanData(code, pc)
    ensures Execute(Patched(code), Recorder(), pc, met, steps)
            != Execute(code, StopForRevert(Recorder()), pc, met, steps)
    decreases |code| - pc
  {
    var next := pc + 1 + DataLength(code[pc]);
    var was, now := InstructionAt(code, pc), InstructionAt(Patched(code), pc);
    PatchedInstruction(code, pc);
    assert DataLength(Patched(code)[pc]) == DataLength(code[pc]);
    if REVERT in was.data {
      steps := 1;
      assert (met + [now])[|met|] != (met + [Intended(was)])[|met|];
    } else {
      var rest := RecordsDiffer(code, next, met + [now]);
      steps := rest + 1;
    }
  }

  /** The patch keeps the meaning of a code, on this machine and so on every one, exactly when no PUSH data holds a 0xfd byte. */
  lemma RunsAsIntendedExactly(code: seq<Byte>)
    ensures CleanData(code, 0)
            <==> forall steps: nat ::
                   Execute(Patched(code), Recorder(), 0, [], steps) == Execute(code, StopForRevert(Recorder()), 0, [], steps)
  {
    if CleanData(code, 0) {
      forall steps: nat
        ensures Execute(Patched(code), Recorder(), 0, [], steps) == Execute(code, StopForRevert(Recorder()), 0, [], steps)
      {
        CleanCodeRunsAsIntended(code, Recorder(), [], steps);
      }
    } else {
      var steps := RecordsDiffer(code, 0, []);
    }
  }
}
