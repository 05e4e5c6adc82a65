/** The outer loop of the rewrite phase and the sweep as a whole: what the
    invariants of the inner loops give once every position is processed. */
module SweepSoundness {
  import opened Tac
  import opened GotoSweep
  import opened JumpTable
  import opened Provenance
  import opened SweepInvariants

  /** The untouched suffix from i on is also untouched from i + 1 on, and
      its first element is the input instruction it came from. */
  lemma SuffixAdvance(prog: seq<Instruction>, tmp: seq<Instruction>, i: nat, pos: seq<nat>)
    requires |pos| == |tmp| <= |prog|
    requires SuffixUntouched(prog, tmp, i, pos)
    ensures SuffixUntouched(prog, tmp, i + 1, pos)
    ensures i + 1 < |tmp| ==> tmp[i + 1] == prog[pos[i + 1]]
  {
  }

  /** Moving past position i keeps the outer invariant, provided that, while
      nothing has changed, the jump at i (if any) is stable. */
  lemma AdvanceOuter(prog: seq<Instruction>, table: seq<GtotScaner>, s: SweepState, i: nat, pos: seq<nat>)
    requires IsTableOf(table, prog)
    requires Core(prog, table, s, i, pos)
    requires !s.wasChanged ==> i < |prog| && (IsJump(prog[i]) ==> !Threadable(table, JumpTarget(prog[i])))
    ensures OuterInv(prog, table, s, i + 1, pos)
  {
    SuffixAdvance(prog, s.tmp, i, pos);
    if !s.wasChanged {
      forall k | 0 <= k < |table| && table[k].index < i + 1
        ensures !Threadable(table, table[k].labelfrom)
      {
        if table[k].index == i {
          assert table[k].labelfrom == JumpTarget(prog[i]);
        }
      }
      assert Unchanged(prog, table, s, i + 1);
    }
  }

  /** Entering the goto branch at position i: the goto-branch invariant
      holds before the first row. */
  lemma EnterGoto(prog: seq<Instruction>, table: seq<GtotScaner>, s: SweepState, i: nat, pos: seq<nat>)
    requires OuterInv(prog, table, s, i, pos) && i < |s.tmp| && IsGoto(s.tmp[i])
    ensures GotoInv(prog, table, s, i, 0, pos)
  {
  }

  /** Leaving the goto branch after the last row: the outer invariant holds
      at the next position. */
  lemma LeaveGoto(prog: seq<Instruction>, table: seq<GtotScaner>, s: SweepState, i: nat, pos: seq<nat>)
    requires IsTableOf(table, prog)
    requires GotoInv(prog, table, s, i, |table|, pos)
    ensures OuterInv(prog, table, s, i + 1, pos)
  {
    if !s.wasChanged {
      assert !Threadable(table, JumpTarget(prog[i]));
    }
    AdvanceOuter(prog, table, s, i, pos);
  }

  /** Entering the ifgoto branch at position i: the ifgoto-branch invariant
      holds before the first row. */
  lemma EnterIfGoto(prog: seq<Instruction>, table: seq<GtotScaner>, s: SweepState, i: nat, pos: seq<nat>)
    requires OuterInv(prog, table, s, i, pos) && i < |s.tmp| && IsIfGoto(s.tmp[i])
    ensures IfGotoInv(prog, table, s, i, 0, pos)
  {
  }

  /** Leaving the ifgoto branch after the last row: the outer invariant
      holds at the next position. */
  lemma LeaveIfGoto(prog: seq<Instruction>, table: seq<GtotScaner>, s: SweepState, i: nat, pos: seq<nat>)
    requires IsTableOf(table, prog)
    requires IfGotoInv(prog, table, s, i, |table|, pos)
    ensures OuterInv(prog, table, s, i + 1, pos)
  {
    if !s.wasChanged {
      assert !Threadable(table, JumpTarget(prog[i]));
    }
    AdvanceOuter(prog, table, s, i, pos);
  }

  /** The whole goto branch at position i keeps the outer invariant for
      the next position, or fails only when the table has something to
      thread. */
  lemma GotoBranchSound(prog: seq<Instruction>, table: seq<GtotScaner>, s: SweepState, i: nat, pos: seq<nat>)
    returns (r: ScanResult<SweepState>, pos': seq<nat>)
    requires IsTableOf(table, prog)
    requires OuterInv(prog, table, s, i, pos) && i < |s.tmp| && IsGoto(s.tmp[i])
    ensures r == GotoScan(table, s, i, 0)
    ensures r.Ok? ==> OuterInv(prog, table, r.value, i + 1, pos')
    ensures r.OutOfRange? ==> !NoThreading(table)
  {
    EnterGoto(prog, table, s, i, pos);
    r, pos' := GotoScanSound(prog, table, s, i, 0, pos);
    if r.Ok? {
      LeaveGoto(prog, table, r.value, i, pos');
    }
  }

  /** The whole ifgoto branch at position i keeps the outer invariant for
      the next position. */
  lemma IfGotoBranchSound(prog: seq<Instruction>, table: seq<GtotScaner>, s: SweepState, i: nat, pos: seq<nat>)
    returns (r: SweepState)
    requires IsTableOf(table, prog)
    requires OuterInv(prog, table, s, i, pos) && i < |s.tmp| && IsIfGoto(s.tmp[i])
    ensures r == IfGotoScan(table, s, i, 0)
    ensures OuterInv(prog, table, r, i + 1, pos)
  {
    EnterIfGoto(prog, table, s, i, pos);
    r := IfGotoScanSound(prog, table, s, i, 0, pos);
    LeaveIfGoto(prog, table, r, i, pos);
  }

  /** Once the outer loop is past every position of the unchanged list, no
      row of the table can be threaded. */
  lemma FinishedUnchanged(prog: seq<Instruction>, table: seq<GtotScaner>, s: SweepState, i: nat, pos: seq<nat>)
    requires IsTableOf(table, prog)
    requires Core(prog, table, s, i, pos) && !s.wasChanged && |s.tmp| <= i
    ensures NoThreading(table)
  {
  }

  /** Outer: the loop over i ends in a list derived from the input, having
      changed something exactly when the table has something to thread; it
      fails only when the table has something to thread. */
  lemma {:induction false} OuterSound(prog: seq<Instruction>, table: seq<GtotScaner>, s: SweepState, i: nat, pos: seq<nat>)
    returns (r: Outcome, pos': seq<nat>)
    requires IsTableOf(table, prog)
    requires OuterInv(prog, table, s, i, pos)
    ensures r == Outer(table, s, i)
    ensures r.Done? ==> ProvenanceOf(prog, table, r.instructions, pos')
    ensures r.Done? ==> (r.wasChanged <==> !NoThreading(table))
    ensures r.Done? && !r.wasChanged ==> r.instructions == prog
    ensures r.IndexOutOfRange? ==> !NoThreading(table)
    decreases |s.tmp| - i, 2
  {
    if i >= |s.tmp| {
      r, pos' := Outer(table, s, i), pos;
      if !s.wasChanged {
        FinishedUnchanged(prog, table, s, i, pos);
      }
    } else if IsGoto(s.tmp[i]) {
      r, pos' := OuterGotoStep(prog, table, s, i, pos);
    } else if IsIfGoto(s.tmp[i]) {
      r, pos' := OuterIfGotoStep(prog, table, s, i, pos);
    } else {
      r, pos' := OuterOtherStep(prog, table, s, i, pos);
    }
  }

  /** How Outer continues after the goto branch at i. */
  lemma OuterAtGoto(table: seq<GtotScaner>, s: SweepState, i: nat)
    requires i < |s.tmp| && IsGoto(s.tmp[i])
    ensures GotoScan(table, s, i, 0).Ok? ==>
              |GotoScan(table, s, i, 0).value.tmp| <= |s.tmp|
              && Outer(table, s, i) == Outer(table, GotoScan(table, s, i, 0).value, i + 1)
    ensures GotoScan(table, s, i, 0).OutOfRange? ==>
              Outer(table, s, i) == IndexOutOfRange(GotoScan(table, s, i, 0).index)
  {
  }

  /** One iteration of the outer loop at a goto: the goto branch, then the
      rest of the loop. */
  lemma {:induction false} OuterGotoStep(prog: seq<Instruction>, table: seq<GtotScaner>, s: SweepState, i: nat, pos: seq<nat>)
    returns (r: Outcome, pos': seq<nat>)
    requires IsTableOf(table, prog)
    requires OuterInv(prog, table, s, i, pos) && i < |s.tmp| && IsGoto(s.tmp[i])
    ensures r == Outer(table, s, i)
    ensures r.Done? ==> ProvenanceOf(prog, table, r.instructions, pos')
    ensures r.Done? ==> (r.wasChanged <==> !NoThreading(table))
    ensures r.Done? && !r.wasChanged ==> r.instructions == prog
    ensures r.IndexOutOfRange? ==> !NoThreading(table)
    decreases |s.tmp| - i, 1
  {
    var scanned, pos1 := GotoBranchSound(prog, table, s, i, pos);
    r, pos' := AfterGoto(prog, table, s, i, scanned, pos1);
  }

  /** The rest of the outer loop after the goto branch at i, given only what
      the goto branch guarantees. */
  lemma {:induction false} AfterGoto(prog: seq<Instruction>, table: seq<GtotScaner>, s: SweepState, i: nat,
                                     scanned: ScanResult<SweepState>, pos1: seq<nat>)
    returns (r: Outcome, pos': seq<nat>)
    requires IsTableOf(table, prog)
    requires i < |s.tmp| && IsGoto(s.tmp[i]) && scanned == GotoScan(table, s, i, 0)
    requires scanned.Ok? ==> OuterInv(prog, table, scanned.value, i + 1, pos1)
    requires scanned.OutOfRange? ==> !NoThreading(table)
    ensures r == Outer(table, s, i)
    ensures r.Done? ==> ProvenanceOf(prog, table, r.instructions, pos')
    ensures r.Done? ==> (r.wasChanged <==> !NoThreading(table))
    ensures r.Done? && !r.wasChanged ==> r.instructions == prog
    ensures r.IndexOutOfRange? ==> !NoThreading(table)
    decreases |s.tmp| - i, 0
  {
    OuterAtGoto(table, s, i);
    if scanned.Ok? {
      r, pos' := OuterSound(prog, table, scanned.value, i + 1, pos1);
    } else {
      r, pos' := IndexOutOfRange(scanned.index), pos1;
    }
  }

  /** One iteration of the outer loop at an ifgoto: the ifgoto branch, then
      the rest of the loop. */
  lemma {:induction false} OuterIfGotoStep(prog: seq<Instruction>, table: seq<GtotScaner>, s: SweepState, i: nat, pos: seq<nat>)
    returns (r: Outcome, pos': seq<nat>)
    requires IsTableOf(table, prog)
    requires OuterInv(prog, table, s, i, pos) && i < |s.tmp| && IsIfGoto(s.tmp[i])
    ensures r == Outer(table, s, i)
    ensures r.Done? ==> ProvenanceOf(prog, table, r.instructions, pos')
    ensures r.Done? ==> (r.wasChanged <==> !NoThreading(table))
    ensures r.Done? && !r.wasChanged ==> r.instructions == prog
    ensures r.IndexOutOfRange? ==> !NoThreading(table)
    decreases |s.tmp| - i, 0
  {
    var s1 := IfGotoBranchSound(prog, table, s, i, pos);
    assert Outer(table, s, i) == Outer(table, s1, i + 1);
    r, pos' := OuterSound(prog, table, s1, i + 1, pos);
  }

  /** One iteration of the outer loop at any other instruction: only i
      advances. */
  lemma {:induction false} OuterOtherStep(prog: seq<Instruction>, table: seq<GtotScaner>, s: SweepState, i: nat, pos: seq<nat>)
    returns (r: Outcome, pos': seq<nat>)
    requires IsTableOf(table, prog)
    requires OuterInv(prog, table, s, i, pos) && i < |s.tmp| && !IsJump(s.tmp[i])
    ensures r == Outer(table, s, i)
    ensures r.Done? ==> ProvenanceOf(prog, table, r.instructions, pos')
    ensures r.Done? ==> (r.wasChanged <==> !NoThreading(table))
    ensures r.Done? && !r.wasChanged ==> r.instructions == prog
    ensures r.IndexOutOfRange? ==> !NoThreading(table)
    decreases |s.tmp| - i, 0
  {
    assert Outer(table, s, i) == Outer(table, s, i + 1);
    AdvanceOuter(prog, table, s, i, pos);
    r, pos' := OuterSound(prog, table, s, i + 1, pos);
  }

  /** The identity map is the provenance of the untouched input. */
  lemma StartInv(prog: seq<Instruction>, table: seq<GtotScaner>) returns (pos: seq<nat>)
    requires IsTableOf(table, prog)
    ensures OuterInv(prog, table, SweepState(prog, false, []), 0, pos)
  {
    pos := seq(|prog|, q requires 0 <= q => q as nat);
    forall p | 0 <= p < |prog| ensures p in pos {
      assert pos[p] == p;
    }
  }

  /** The sweep as a whole, against the table it scans. The output is the
      input with some instructions removed and some jumps redirected; it
      reports a change exactly when some recorded jump can be threaded, and
      otherwise returns the input itself; it fails only when some recorded
      jump can be threaded. */
  lemma SweepSound(commands: seq<Instruction>) returns (pos: seq<nat>)
    ensures Sweep(commands).Done? ==>
              ProvenanceOf(commands, ScanTable(commands), Sweep(commands).instructions, pos)
    ensures Sweep(commands).Done? ==>
              (Sweep(commands).wasChanged <==> !NoThreading(ScanTable(commands)))
    ensures Sweep(commands).Done? && !Sweep(commands).wasChanged ==>
              Sweep(commands).instructions == commands
    ensures Sweep(commands).IndexOutOfRange? ==> !NoThreading(ScanTable(commands))
  {
    var table := ScanTable(commands);
    ScanTableSpec(commands);
    var pos0 := StartInv(commands, table);
    var r;
    r, pos := OuterSound(commands, table, SweepState(commands, false, []), 0, pos0);
  }
}
