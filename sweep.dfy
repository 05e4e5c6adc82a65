/** The goto-to-goto sweep of ThreeAddressCodeGotoToGoto.ReplaceGotoToGoto, as
    functions that follow its loops one by one. Each function is the
    specification of one loop of the imperative procedure: the methods of
    module ThreeAddressCodeGotoToGoto are proved to return its value, and the
    lemmas of the other modules are about these functions. */
module GotoSweep {
  import opened Tac

  /** One row of the jump table: the position of a jump, its own label and
      the label it jumps to. */
  datatype GtotScaner = GtotScaner(index: int, jumpLabel: string, labelfrom: string)

  /** A redirect the sweep has made: a jump to `oldLabel` now goes to `newLabel`. */
  datatype Replacement = Replacement(oldLabel: string, newLabel: string)

  /** The local variables the rewrite phase updates. */
  datatype SweepState = SweepState(
    tmp: seq<Instruction>,
    wasChanged: bool,
    replacements: seq<Replacement>)

  /** An inner loop either finishes or reads past the end of the working list. */
  datatype ScanResult<T> = Ok(value: T) | OutOfRange(index: nat)

  /** What one sweep returns: the flag and the new list, or the index that the
      list indexer rejected (an ArgumentOutOfRangeException in the source). */
  datatype Outcome = Done(wasChanged: bool, instructions: seq<Instruction>) | IndexOutOfRange(index: nat)

  /** The table row a single instruction contributes: one for a jump, none otherwise. */
  function TableEntry(ins: Instruction, i: int): (r: seq<GtotScaner>)
    ensures |r| <= 1
    ensures r != [] <==> IsJump(ins)
    ensures r != [] ==> r[0].index == i && r[0].jumpLabel == ins.Label && r[0].labelfrom == JumpTarget(ins)
  {
    if IsGoto(ins) then [GtotScaner(i, ins.Label, ins.Argument1)]
    else if IsIfGoto(ins) then [GtotScaner(i, ins.Label, ins.Argument2)]
    else []
  }

  /** The jump table built by the snapshot loop, one row per jump in program order. */
  function ScanTable(prog: seq<Instruction>): (r: seq<GtotScaner>)
    ensures |r| <= |prog|
  {
    if prog == [] then []
    else ScanTable(prog[..|prog| - 1]) + TableEntry(prog[|prog| - 1], |prog| - 1)
  }

  /** Removes the element at position i, shifting the later ones down. */
  function RemoveAt<T>(s: seq<T>, i: nat): (r: seq<T>)
    requires i < |s|
    ensures |r| == |s| - 1
    ensures forall q :: 0 <= q < i ==> r[q] == s[q]
    ensures forall q :: i <= q < |r| ==> r[q] == s[q + 1]
  {
    s[..i] + s[i + 1..]
  }

  /** A goto redirected to `target`: label kept, operands cleared. */
  function RedirectGoto(ins: Instruction, target: string): (r: Instruction)
    ensures IsGoto(r) && r.Label == ins.Label && JumpTarget(r) == target
    ensures r.Argument2 == "" && r.Result == ""
  {
    Instruction(ins.Label, Goto, target, "", "")
  }

  /** An ifgoto redirected to `target`: label and condition kept, result cleared. */
  function RedirectIfGoto(ins: Instruction, target: string): (r: Instruction)
    ensures IsIfGoto(r) && r.Label == ins.Label && r.Argument1 == ins.Argument1 && JumpTarget(r) == target
    ensures r.Result == ""
  {
    Instruction(ins.Label, IfGoto, ins.Argument1, target, "")
  }

  /** Whether row j of the table can redirect a jump whose target is t. */
  predicate Candidate(table: seq<GtotScaner>, j: nat, t: string)
    requires j < |table|
  {
    table[j].jumpLabel == t && table[j].labelfrom != t
  }

  /** The foreach over the recorded replacements, from the k-th on: the
      instruction at i is removed each time its label and first operand match
      a replacement; after a removal the next element has shifted into i. */
  function Purge(s: SweepState, i: nat, k: nat): (r: ScanResult<SweepState>)
    requires k <= |s.replacements|
    ensures r.Ok? ==> |r.value.tmp| <= |s.tmp|
    ensures r.Ok? ==> r.value.wasChanged == s.wasChanged && r.value.replacements == s.replacements
    decreases |s.replacements| - k
  {
    if k == |s.replacements| then Ok(s)
    else if i >= |s.tmp| then OutOfRange(i)
    else
      var rep := s.replacements[k];
      if s.tmp[i].Label == rep.oldLabel && s.tmp[i].Argument1 == rep.newLabel then
        Purge(s.(tmp := RemoveAt(s.tmp, i)), i, k + 1)
      else
        Purge(s, i, k + 1)
  }

  /** One redirect of the goto branch by table row j: only position i can
      change, and it changes exactly when row j matches its current first
      operand; it then becomes a goto to the row's target, the flag is set
      and one replacement is recorded. */
  function GotoRedirectStep(table: seq<GtotScaner>, s: SweepState, i: nat, j: nat): (r: SweepState)
    requires j < |table| && i < |s.tmp|
    ensures |r.tmp| == |s.tmp|
    ensures forall q :: 0 <= q < |s.tmp| && q != i ==> r.tmp[q] == s.tmp[q]
    ensures !Candidate(table, j, s.tmp[i].Argument1) ==> r == s
    ensures Candidate(table, j, s.tmp[i].Argument1) ==>
              && IsGoto(r.tmp[i]) && r.tmp[i].Label == s.tmp[i].Label
              && JumpTarget(r.tmp[i]) == table[j].labelfrom != s.tmp[i].Argument1
              && r.tmp[i] == RedirectGoto(s.tmp[i], table[j].labelfrom)
              && r.wasChanged
              && r.replacements == s.replacements + [Replacement(s.tmp[i].Argument1, table[j].labelfrom)]
  {
    var cur := s.tmp[i];
    if Candidate(table, j, cur.Argument1) then
      SweepState(s.tmp[i := RedirectGoto(cur, table[j].labelfrom)], true,
                 s.replacements + [Replacement(cur.Argument1, table[j].labelfrom)])
    else s
  }

  /** The j loop of the goto branch, from row j on. */
  function GotoScan(table: seq<GtotScaner>, s: SweepState, i: nat, j: nat): (r: ScanResult<SweepState>)
    requires j <= |table|
    ensures r.Ok? ==> |r.value.tmp| <= |s.tmp| && (s.wasChanged ==> r.value.wasChanged)
    decreases |table| - j, 1
  {
    if j == |table| then Ok(s)
    else if i >= |s.tmp| then OutOfRange(i)
    else ContinueScan(table, GotoRedirectStep(table, s, i, j), i, j + 1)
  }

  /** The rest of a j iteration after the redirect: the foreach once anything
      has changed, then the j loop from row j on. */
  function ContinueScan(table: seq<GtotScaner>, s1: SweepState, i: nat, j: nat): (r: ScanResult<SweepState>)
    requires j <= |table|
    ensures r.Ok? ==> |r.value.tmp| <= |s1.tmp| && (s1.wasChanged ==> r.value.wasChanged)
    decreases |table| - j + 1, 0
  {
    if s1.wasChanged then
      match Purge(s1, i, 0)
      case OutOfRange(x) => OutOfRange(x)
      case Ok(s2) => GotoScan(table, s2, i, j)
    else
      GotoScan(table, s1, i, j)
  }

  /** One redirect of the ifgoto branch by table row j: only position i can
      change, and it changes exactly when row j matches its current second
      operand; it then keeps its label and condition and takes the row's
      target, the flag is set and one replacement is recorded. */
  function IfGotoRedirectStep(table: seq<GtotScaner>, s: SweepState, i: nat, j: nat): (r: SweepState)
    requires j < |table| && i < |s.tmp|
    ensures |r.tmp| == |s.tmp|
    ensures forall q :: 0 <= q < |s.tmp| && q != i ==> r.tmp[q] == s.tmp[q]
    ensures !Candidate(table, j, s.tmp[i].Argument2) ==> r == s
    ensures Candidate(table, j, s.tmp[i].Argument2) ==>
              && IsIfGoto(r.tmp[i]) && r.tmp[i].Label == s.tmp[i].Label && r.tmp[i].Argument1 == s.tmp[i].Argument1
              && JumpTarget(r.tmp[i]) == table[j].labelfrom != s.tmp[i].Argument2
              && r.tmp[i] == RedirectIfGoto(s.tmp[i], table[j].labelfrom)
              && r.wasChanged
              && r.replacements == s.replacements + [Replacement(s.tmp[i].Argument2, table[j].labelfrom)]
  {
    var cur := s.tmp[i];
    if Candidate(table, j, cur.Argument2) then
      SweepState(s.tmp[i := RedirectIfGoto(cur, table[j].labelfrom)], true,
                 s.replacements + [Replacement(cur.Argument2, table[j].labelfrom)])
    else s
  }

  /** The j loop of the ifgoto branch, from row j on. It never removes. */
  function IfGotoScan(table: seq<GtotScaner>, s: SweepState, i: nat, j: nat): (r: SweepState)
    requires j <= |table| && i < |s.tmp|
    ensures |r.tmp| == |s.tmp|
    ensures s.wasChanged ==> r.wasChanged
    decreases |table| - j
  {
    if j == |table| then s
    else IfGotoScan(table, IfGotoRedirectStep(table, s, i, j), i, j + 1)
  }

  /** The outer loop of the rewrite phase, from position i on. It never
      lengthens the list and never clears the flag. */
  function Outer(table: seq<GtotScaner>, s: SweepState, i: nat): (r: Outcome)
    ensures r.Done? ==> |r.instructions| <= |s.tmp| && (s.wasChanged ==> r.wasChanged)
    decreases |s.tmp| - i
  {
    if i >= |s.tmp| then Done(s.wasChanged, s.tmp)
    else if IsGoto(s.tmp[i]) then
      match GotoScan(table, s, i, 0)
      case OutOfRange(x) => IndexOutOfRange(x)
      case Ok(s1) => Outer(table, s1, i + 1)
    else if IsIfGoto(s.tmp[i]) then
      Outer(table, IfGotoScan(table, s, i, 0), i + 1)
    else
      Outer(table, s, i + 1)
  }

  /** One whole sweep: snapshot the input, build the table, rewrite. It never
      lengthens the program. */
  function Sweep(commands: seq<Instruction>): (r: Outcome)
    ensures r.Done? ==> |r.instructions| <= |commands|
  {
    Outer(ScanTable(commands), SweepState(commands, false, []), 0)
  }

  /** Label t marks a jump of the program that goes somewhere other than t,
      so a jump to t is a candidate for redirection. */
  ghost predicate Threads(prog: seq<Instruction>, t: string)
  {
    exists p :: 0 <= p < |prog| && IsJump(prog[p]) && prog[p].Label == t && JumpTarget(prog[p]) != t
  }

  /** No jump of the program targets a label that Threads. */
  ghost predicate NothingToThread(prog: seq<Instruction>)
  {
    forall p :: 0 <= p < |prog| && IsJump(prog[p]) ==> !Threads(prog, JumpTarget(prog[p]))
  }
}
