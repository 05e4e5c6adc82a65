/** What the sweep promises, stated on the instruction list alone. */
module GotoToGotoTheorems {
  import opened Tac
  import opened GotoSweep
  import opened JumpTable
  import opened Provenance
  import opened SweepSoundness

  /** The table records exactly the targets and the labels of the jumps. */
  lemma TableSets(prog: seq<Instruction>, table: seq<GtotScaner>)
    requires IsTableOf(table, prog)
    ensures Targets(table) == JumpTargets(prog)
    ensures RowLabels(table) == JumpLabels(prog)
  {
  }

  /** A row of the table can redirect a jump to t exactly when t Threads. */
  lemma ThreadableIff(prog: seq<Instruction>, table: seq<GtotScaner>, t: string)
    requires IsTableOf(table, prog)
    ensures Threadable(table, t) <==> Threads(prog, t)
  {
    if Threadable(table, t) {
      var j :| 0 <= j < |table| && Candidate(table, j, t);
      CandidateThreads(prog, table, j, t);
    }
    if Threads(prog, t) {
      var p :| 0 <= p < |prog| && IsJump(prog[p]) && prog[p].Label == t && JumpTarget(prog[p]) != t;
      var k :| 0 <= k < |table| && table[k].index == p;
      assert Candidate(table, k, t);
    }
  }

  /** The table has nothing to thread exactly when the program has nothing to thread. */
  lemma NoThreadingIff(prog: seq<Instruction>, table: seq<GtotScaner>)
    requires IsTableOf(table, prog)
    ensures NoThreading(table) <==> NothingToThread(prog)
  {
    if NoThreading(table) {
      forall p | 0 <= p < |prog| && IsJump(prog[p]) ensures !Threads(prog, JumpTarget(prog[p])) {
        var k :| 0 <= k < |table| && table[k].index == p;
        ThreadableIff(prog, table, table[k].labelfrom);
      }
    }
    if NothingToThread(prog) {
      forall k | 0 <= k < |table| ensures !Threadable(table, table[k].labelfrom) {
        ThreadableIff(prog, table, table[k].labelfrom);
      }
    }
  }

  /** A stable jump, stated on the program: a jump whose target does not Thread. */
  lemma StableIff(prog: seq<Instruction>, table: seq<GtotScaner>, ins: Instruction)
    requires IsTableOf(table, prog)
    ensures Stable(table, ins) <==> IsJump(ins) && !Threads(prog, JumpTarget(ins))
  {
    if IsJump(ins) {
      ThreadableIff(prog, table, JumpTarget(ins));
    }
  }

  /** The sweep reports a change exactly when some jump targets a label that
      Threads; when it reports none, the list comes back as it was; and it
      fails only on such a program. */
  lemma SweepChangeIff(commands: seq<Instruction>)
    ensures Sweep(commands).Done? ==>
              (Sweep(commands).wasChanged <==> !NothingToThread(commands))
    ensures Sweep(commands).Done? && !Sweep(commands).wasChanged ==>
              Sweep(commands).instructions == commands
    ensures Sweep(commands).IndexOutOfRange? ==> !NothingToThread(commands)
  {
    var pos := SweepSound(commands);
    ScanTableSpec(commands);
    NoThreadingIff(commands, ScanTable(commands));
  }

  /** On a program with nothing to thread the sweep is the identity, and
      conversely. */
  lemma SweepIdentityIff(commands: seq<Instruction>)
    ensures Sweep(commands) == Done(false, commands) <==> NothingToThread(commands)
  {
    SweepChangeIff(commands);
  }

  /** The provenance of the output, stated on the program: each output
      instruction keeps the label of the input instruction it comes from,
      no jump gains a target the input did not jump to, and every removed
      instruction carries the label of some jump. */
  lemma ProvenanceFacts(prog: seq<Instruction>, table: seq<GtotScaner>, out: seq<Instruction>, pos: seq<nat>)
    requires IsTableOf(table, prog) && ProvenanceOf(prog, table, out, pos)
    ensures |out| <= |prog|
    ensures forall q :: 0 <= q < |out| ==> pos[q] < |prog| && out[q].Label == prog[pos[q]].Label
    ensures Labels(out) <= Labels(prog)
    ensures JumpTargets(out) <= JumpTargets(prog)
    ensures forall p :: 0 <= p < |prog| && p !in pos ==> prog[p].Label in JumpLabels(prog)
    ensures forall p :: 0 <= p < |prog| && p !in pos ==> Threads(prog, prog[p].Label)
  {
    IncreasingBounded(pos, |prog|);
    forall q | 0 <= q < |out|
      ensures pos[q] < |prog| && out[q].Label == prog[pos[q]].Label
    {
      assert DerivedFrom(prog, table, out[q], q, pos[q]);
    }
    forall l | l in Labels(out) ensures l in Labels(prog) {
      var q :| 0 <= q < |out| && out[q].Label == l;
      assert prog[pos[q]].Label == l;
    }
    OutputTargetsKept(prog, table, out, pos);
    RemovedLabelsThread(prog, table, out, pos);
  }

  /** Every jump target of a derived output is a jump target of the input. */
  lemma OutputTargetsKept(prog: seq<Instruction>, table: seq<GtotScaner>, out: seq<Instruction>, pos: seq<nat>)
    requires IsTableOf(table, prog) && ProvenanceOf(prog, table, out, pos)
    ensures JumpTargets(out) <= JumpTargets(prog)
  {
    TableSets(prog, table);
    forall t | t in JumpTargets(out) ensures t in JumpTargets(prog) {
      var q :| 0 <= q < |out| && IsJump(out[q]) && JumpTarget(out[q]) == t;
      assert DerivedFrom(prog, table, out[q], q, pos[q]);
      if out[q] == prog[pos[q]] {
        assert IsJump(prog[pos[q]]) && JumpTarget(prog[pos[q]]) == t;
      }
    }
  }

  /** Every input instruction left out of a derived output carries the label
      of a jump, and that label threads. */
  lemma RemovedLabelsThread(prog: seq<Instruction>, table: seq<GtotScaner>, out: seq<Instruction>, pos: seq<nat>)
    requires IsTableOf(table, prog) && ProvenanceOf(prog, table, out, pos)
    ensures forall p :: 0 <= p < |prog| && p !in pos ==> prog[p].Label in JumpLabels(prog)
    ensures forall p :: 0 <= p < |prog| && p !in pos ==> Threads(prog, prog[p].Label)
  {
    TableSets(prog, table);
    forall p | 0 <= p < |prog| && p !in pos
      ensures prog[p].Label in JumpLabels(prog) && Threads(prog, prog[p].Label)
    {
      assert RemovedOk(prog, table, p);
      ThreadableIff(prog, table, prog[p].Label);
    }
  }

  /** A self-loop `L: goto L` whose label does not Thread is kept, in place
      of nothing else, unchanged. */
  lemma StableSelfLoopKept(prog: seq<Instruction>, table: seq<GtotScaner>, out: seq<Instruction>, pos: seq<nat>, p: nat)
    requires IsTableOf(table, prog) && ProvenanceOf(prog, table, out, pos)
    requires p < |prog| && IsGoto(prog[p]) && prog[p].Label == prog[p].Argument1
    requires !Threads(prog, prog[p].Argument1)
    ensures exists q :: 0 <= q < |out| && pos[q] == p && out[q] == prog[p]
  {
    StableIff(prog, table, prog[p]);
    assert p in pos;
    var q :| 0 <= q < |pos| && pos[q] == p;
    assert DerivedFrom(prog, table, out[q], q, p);
  }

  /** When the sweep removes nothing, each instruction stays at its place:
      non-jumps and jumps whose target does not Thread are unchanged, and a
      goto or ifgoto is at most redirected to a target of the input. */
  lemma NoRemovalFacts(prog: seq<Instruction>, table: seq<GtotScaner>, out: seq<Instruction>, pos: seq<nat>)
    requires IsTableOf(table, prog) && ProvenanceOf(prog, table, out, pos)
    requires |out| == |prog|
    ensures forall p :: 0 <= p < |prog| && (!IsJump(prog[p]) || !Threads(prog, JumpTarget(prog[p]))) ==>
              out[p] == prog[p]
    ensures forall p :: 0 <= p < |prog| ==>
              out[p] == prog[p]
              || (IsGoto(prog[p]) && out[p] == RedirectGoto(prog[p], out[p].Argument1)
                  && out[p].Argument1 in JumpTargets(prog))
              || (IsIfGoto(prog[p]) && out[p] == RedirectIfGoto(prog[p], out[p].Argument2)
                  && out[p].Argument2 in JumpTargets(prog))
  {
    TableSets(prog, table);
    IncreasingFull(pos, |prog|);
    forall p | 0 <= p < |prog| && (!IsJump(prog[p]) || !Threads(prog, JumpTarget(prog[p])))
      ensures out[p] == prog[p]
    {
      StableIff(prog, table, prog[p]);
      assert DerivedFrom(prog, table, out[p], p, p);
    }
    forall p | 0 <= p < |prog|
      ensures out[p] == prog[p]
              || (IsGoto(prog[p]) && out[p] == RedirectGoto(prog[p], out[p].Argument1)
                  && out[p].Argument1 in JumpTargets(prog))
              || (IsIfGoto(prog[p]) && out[p] == RedirectIfGoto(prog[p], out[p].Argument2)
                  && out[p].Argument2 in JumpTargets(prog))
    {
      assert DerivedFrom(prog, table, out[p], p, p);
    }
  }

  /** The sweep's output, stated on the program: see ProvenanceFacts,
      StableSelfLoopKept and NoRemovalFacts. */
  lemma SweepOutputShape(commands: seq<Instruction>) returns (pos: seq<nat>)
    ensures Sweep(commands).Done? ==>
              var out := Sweep(commands).instructions;
              |pos| == |out| <= |commands| && Increasing(pos)
              && (forall q :: 0 <= q < |out| ==> pos[q] < |commands| && out[q].Label == commands[pos[q]].Label)
              && Labels(out) <= Labels(commands)
              && JumpTargets(out) <= JumpTargets(commands)
              && (forall p :: 0 <= p < |commands| && p !in pos ==> commands[p].Label in JumpLabels(commands))
              && (forall p :: 0 <= p < |commands| && p !in pos ==> Threads(commands, commands[p].Label))
    ensures Sweep(commands).Done? ==>
              forall p :: 0 <= p < |commands| && IsGoto(commands[p]) && commands[p].Label == commands[p].Argument1
                          && !Threads(commands, commands[p].Argument1) ==>
                exists q :: 0 <= q < |pos| && pos[q] == p && Sweep(commands).instructions[q] == commands[p]
  {
    pos := SweepSound(commands);
    var table := ScanTable(commands);
    ScanTableSpec(commands);
    var r := Sweep(commands);
    if r.Done? {
      ProvenanceFacts(commands, table, r.instructions, pos);
      forall p | 0 <= p < |commands| && IsGoto(commands[p]) && commands[p].Label == commands[p].Argument1
                 && !Threads(commands, commands[p].Argument1)
        ensures exists q :: 0 <= q < |pos| && pos[q] == p && r.instructions[q] == commands[p]
      {
        StableSelfLoopKept(commands, table, r.instructions, pos, p);
      }
    }
  }

  /** When the sweep keeps the length, it removed nothing: every position
      holds its own instruction, unchanged or redirected. */
  lemma SweepWithoutRemoval(commands: seq<Instruction>)
    requires Sweep(commands).Done? && |Sweep(commands).instructions| == |commands|
    ensures var out := Sweep(commands).instructions;
            forall p :: 0 <= p < |commands| && (!IsJump(commands[p]) || !Threads(commands, JumpTarget(commands[p]))) ==>
              out[p] == commands[p]
    ensures var out := Sweep(commands).instructions;
            forall p :: 0 <= p < |commands| ==>
              out[p] == commands[p]
              || (IsGoto(commands[p]) && out[p] == RedirectGoto(commands[p], out[p].Argument1)
                  && out[p].Argument1 in JumpTargets(commands))
              || (IsIfGoto(commands[p]) && out[p] == RedirectIfGoto(commands[p], out[p].Argument2)
                  && out[p].Argument2 in JumpTargets(commands))
  {
    var pos := SweepSound(commands);
    ScanTableSpec(commands);
    NoRemovalFacts(commands, ScanTable(commands), Sweep(commands).instructions, pos);
  }
}
