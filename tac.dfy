/** Three-address-code instructions as the goto-to-goto sweep sees them.
    The instruction class itself is not part of this model: it is treated as
    a plain record of five strings, built by its five-argument constructor. */
module Tac {

  datatype Instruction = Instruction(
    Label: string,
    Operation: string,
    Argument1: string,
    Argument2: string,
    Result: string)

  const Goto: string := "goto"
  const IfGoto: string := "ifgoto"

  predicate IsGoto(ins: Instruction) { ins.Operation == Goto }

  predicate IsIfGoto(ins: Instruction) { ins.Operation == IfGoto }

  /** A jump is an unconditional `goto` or a conditional `ifgoto`. */
  predicate IsJump(ins: Instruction) { IsGoto(ins) || IsIfGoto(ins) }

  /** The label a jump transfers control to: the first operand of a `goto`,
      the second operand (after the condition) of an `ifgoto`. */
  function JumpTarget(ins: Instruction): string
    requires IsJump(ins)
  {
    if IsGoto(ins) then ins.Argument1 else ins.Argument2
  }

  /** The targets named by the jumps of a program. */
  ghost function JumpTargets(prog: seq<Instruction>): set<string>
  {
    set p | 0 <= p < |prog| && IsJump(prog[p]) :: JumpTarget(prog[p])
  }

  /** The labels carried by the jumps of a program. */
  ghost function JumpLabels(prog: seq<Instruction>): set<string>
  {
    set p | 0 <= p < |prog| && IsJump(prog[p]) :: prog[p].Label
  }

  /** The labels carried by all instructions of a program. */
  ghost function Labels(prog: seq<Instruction>): set<string>
  {
    set p | 0 <= p < |prog| :: prog[p].Label
  }
}
