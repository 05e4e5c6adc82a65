/** The jump table built by the snapshot loop, and how it reflects the input. */
module JumpTable {
  import opened Tac
  import opened GotoSweep

  /** Every row describes a jump of `prog`: its position, label and target. */
  ghost predicate RowsMatch(table: seq<GtotScaner>, prog: seq<Instruction>)
  {
    forall k :: 0 <= k < |table| ==>
      0 <= table[k].index < |prog| && IsJump(prog[table[k].index])
      && table[k].jumpLabel == prog[table[k].index].Label
      && table[k].labelfrom == JumpTarget(prog[table[k].index])
  }

  /** The rows are in program order, so no jump has two rows. */
  ghost predicate RowsOrdered(table: seq<GtotScaner>)
  {
    forall k1, k2 :: 0 <= k1 < k2 < |table| ==> table[k1].index < table[k2].index
  }

  /** Every jump of `prog` has a row. */
  ghost predicate RowsCover(table: seq<GtotScaner>, prog: seq<Instruction>)
  {
    forall p :: 0 <= p < |prog| && IsJump(prog[p]) ==>
      exists k :: 0 <= k < |table| && table[k].index == p
  }

  /** `table` has exactly one row per jump of `prog`, in program order, each
      holding the jump's position, label and target. */
  ghost predicate IsTableOf(table: seq<GtotScaner>, prog: seq<Instruction>)
  {
    RowsMatch(table, prog) && RowsOrdered(table) && RowsCover(table, prog)
  }

  /** Appending an instruction's entry keeps every row matching its jump. */
  lemma AppendRowsMatch(init: seq<Instruction>, ins: Instruction, t0: seq<GtotScaner>)
    requires RowsMatch(t0, init)
    ensures RowsMatch(t0 + TableEntry(ins, |init|), init + [ins])
    ensures forall k :: 0 <= k < |t0| ==> t0[k].index < |init|
  {
  }

  /** An entry at a position past every row keeps the rows in order. */
  lemma AppendRowsOrdered(n: nat, ins: Instruction, t0: seq<GtotScaner>)
    requires RowsOrdered(t0)
    requires forall k :: 0 <= k < |t0| ==> t0[k].index < n
    ensures RowsOrdered(t0 + TableEntry(ins, n))
  {
  }

  /** Appending an instruction's entry keeps every jump covered by a row. */
  lemma AppendRowsCover(init: seq<Instruction>, ins: Instruction, t0: seq<GtotScaner>)
    requires RowsCover(t0, init)
    ensures RowsCover(t0 + TableEntry(ins, |init|), init + [ins])
  {
    var prog := init + [ins];
    var t := t0 + TableEntry(ins, |init|);
    forall p | 0 <= p < |prog| && IsJump(prog[p])
      ensures exists k :: 0 <= k < |t| && t[k].index == p
    {
      if p < |init| {
        assert init[p] == prog[p];
        var k :| 0 <= k < |t0| && t0[k].index == p;
        assert t[k] == t0[k];
      } else {
        assert t[|t0|].index == p;
      }
    }
  }

  /** The snapshot loop records every goto and ifgoto, in order, and nothing else. */
  lemma {:induction false} ScanTableSpec(prog: seq<Instruction>)
    ensures IsTableOf(ScanTable(prog), prog)
  {
    if prog != [] {
      var n := |prog| - 1;
      var init := prog[..n];
      ScanTableSpec(init);
      var t0 := ScanTable(init);
      assert prog == init + [prog[n]];
      assert ScanTable(prog) == t0 + TableEntry(prog[n], n);
      AppendRowsMatch(init, prog[n], t0);
      AppendRowsOrdered(n, prog[n], t0);
      AppendRowsCover(init, prog[n], t0);
    }
  }

  /** A row that can redirect a jump to t witnesses that t Threads. */
  lemma CandidateThreads(prog: seq<Instruction>, table: seq<GtotScaner>, j: nat, t: string)
    requires IsTableOf(table, prog) && j < |table|
    requires Candidate(table, j, t)
    ensures Threads(prog, t)
    ensures table[j].jumpLabel in JumpLabels(prog) && table[j].labelfrom in JumpTargets(prog)
  {
  }
}
