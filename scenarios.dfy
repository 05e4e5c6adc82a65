/** Concrete runs of the sweep on small programs, following the loops step
    by step. Each run is split into one lemma per position of the outer
    loop, so that each step is checked on its own. */
module Scenarios {
  import opened Tac
  import opened GotoSweep

  const a: Instruction := Instruction("L1", Goto, "L2", "", "")
  const b: Instruction := Instruction("L2", Goto, "L3", "", "")
  const x: Instruction := Instruction("L3", "assign", "a", "", "b")
  const y: Instruction := Instruction("L3", "assign", "L2", "", "b")
  const row0: GtotScaner := GtotScaner(0, "L1", "L2")
  const row1: GtotScaner := GtotScaner(1, "L2", "L3")

  /** The table of a program that starts with a and b. */
  const T2: seq<GtotScaner> := [row0, row1]
  /** a once redirected to L3, and the replacement that records it. */
  const a3: Instruction := Instruction("L1", Goto, "L3", "", "")
  const rep23: Replacement := Replacement("L2", "L3")

  /** The table of a program whose jumps are a and b, in that order. */
  lemma TwoJumpTable(third: Instruction)
    requires !IsJump(third)
    ensures ScanTable([a, b]) == [row0, row1]
    ensures ScanTable([a, b, third]) == [row0, row1]
  {
    assert [a][..0] == [];
    assert ScanTable([a]) == [row0];
    assert [a, b][..1] == [a];
    assert ScanTable([a, b]) == [row0] + [row1];
    assert [a, b, third][..2] == [a, b];
  }

  /** Position 0 of a program that starts with a and b, under the table of
      a and b: row 1 redirects L1 to L3 and the foreach removes nothing. */
  lemma ChainAt0(rest: seq<Instruction>)
    ensures Outer(T2, SweepState([a, b] + rest, false, []), 0)
         == Outer(T2, SweepState([a3, b] + rest, true, [rep23]), 1)
  {
    var s0 := SweepState([a, b] + rest, false, []);
    var s1 := SweepState([a3, b] + rest, true, [rep23]);
    assert s0.tmp[0] == a;
    assert GotoRedirectStep(T2, s0, 0, 0) == s0;
    assert s0.tmp[0 := a3] == s1.tmp;
    assert GotoRedirectStep(T2, s0, 0, 1) == s1;
    assert Purge(s1, 0, 1) == Ok(s1);
    assert Purge(s1, 0, 0) == Ok(s1);
    assert GotoScan(T2, s0, 0, 0) == GotoScan(T2, s0, 0, 1) == GotoScan(T2, s1, 0, 2) == Ok(s1);
  }

  /** Position 1 of the chain `a; b; x`: the foreach removes `L2: goto L3`
      and x shifts into position 1, where no row matches it. */
  lemma ChainAt1()
    ensures Outer(T2, SweepState([a3, b, x], true, [rep23]), 1) == Done(true, [a3, x])
  {
    var s1 := SweepState([a3, b, x], true, [rep23]);
    var s2 := s1.(tmp := [a3, x]);
    assert GotoRedirectStep(T2, s1, 1, 0) == s1;
    assert RemoveAt(s1.tmp, 1) == s2.tmp;
    assert Purge(s1, 1, 0) == Purge(s2, 1, 1) == Ok(s2);
    assert GotoRedirectStep(T2, s2, 1, 1) == s2;
    assert Purge(s2, 1, 0) == Ok(s2);
    assert GotoScan(T2, s2, 1, 1) == GotoScan(T2, s2, 1, 2) == Ok(s2);
    assert GotoScan(T2, s1, 1, 0) == Ok(s2);
    assert Outer(T2, s2, 2) == Done(true, [a3, x]);
  }

  /** A two-hop chain `L1: goto L2; L2: goto L3; L3: ...` is threaded: L1
      jumps straight to L3, and the middle goto, now redundant, is removed
      together with its label L2. */
  lemma ChainIsThreaded()
    ensures Sweep([a, b, x]) == Done(true, [RedirectGoto(a, "L3"), x])
  {
    TwoJumpTable(x);
    ChainAt0([x]);
    assert [a, b] + [x] == [a, b, x] && [a3, b] + [x] == [a3, b, x];
    ChainAt1();
  }

  /** When the removed goto is the last instruction, the next iteration of
      the j loop reads past the end of the list. */
  lemma ChainAtEndReadsPastTheEnd()
    ensures Sweep([a, b]) == IndexOutOfRange(1)
  {
    TwoJumpTable(x);
    ChainAt0([]);
    assert [a, b] + [] == [a, b] && [a3, b] + [] == [a3, b];
    var s1 := SweepState([a3, b], true, [rep23]);
    var s2 := s1.(tmp := [a3]);
    assert GotoRedirectStep(T2, s1, 1, 0) == s1;
    assert RemoveAt(s1.tmp, 1) == s2.tmp;
    assert Purge(s1, 1, 0) == Purge(s2, 1, 1) == Ok(s2);
    assert GotoScan(T2, s2, 1, 1) == OutOfRange(1);
    assert GotoScan(T2, s1, 1, 0) == OutOfRange(1);
  }

  /** Position 1 of `a; b; y`: y shifts into position 1 and row 1 matches
      its first operand L2. */
  lemma ShiftedAt1()
    ensures Outer(T2, SweepState([a3, b, y], true, [rep23]), 1)
         == Done(true, [a3, RedirectGoto(y, "L3")])
  {
    var y' := RedirectGoto(y, "L3");
    var s1 := SweepState([a3, b, y], true, [rep23]);
    var s2 := s1.(tmp := [a3, y]);
    var s3 := SweepState([a3, y'], true, [rep23, rep23]);
    assert GotoRedirectStep(T2, s1, 1, 0) == s1;
    assert RemoveAt(s1.tmp, 1) == s2.tmp;
    assert Purge(s1, 1, 0) == Purge(s2, 1, 1) == Ok(s2);
    assert GotoRedirectStep(T2, s2, 1, 1) == s3;
    assert Purge(s3, 1, 0) == Purge(s3, 1, 1) == Ok(s3);
    assert GotoScan(T2, s2, 1, 1) == GotoScan(T2, s3, 1, 2) == Ok(s3);
    assert GotoScan(T2, s1, 1, 0) == Ok(s3);
    assert Outer(T2, s3, 2) == Done(true, [a3, y']);
  }

  /** The instruction that shifts into the removed goto's place is still
      handled as a goto: an assignment whose first operand names the label
      of a row not yet scanned is overwritten by a goto. */
  lemma ShiftedInstructionBecomesGoto()
    ensures Sweep([a, b, y]) == Done(true, [RedirectGoto(a, "L3"), RedirectGoto(y, "L3")])
  {
    TwoJumpTable(y);
    ChainAt0([y]);
    assert [a, b] + [y] == [a, b, y] && [a3, b] + [y] == [a3, b, y];
    ShiftedAt1();
  }

  /** An assignment whose first operand is the label L1. */
  const w: Instruction := Instruction("L3", "assign", "L1", "", "b")

  /** Only rows after the current one are compared with the shifted
      instruction: an assignment whose first operand names the label of row
      0, already scanned when the removal happened, is kept. */
  lemma ShiftedPastScannedRowKept()
    ensures Sweep([a, b, w]) == Done(true, [RedirectGoto(a, "L3"), w])
  {
    TwoJumpTable(w);
    ChainAt0([w]);
    assert [a, b] + [w] == [a, b, w] && [a3, b] + [w] == [a3, b, w];
    PastScannedAt1();
  }

  /** Position 1 of `a; b; w`: w shifts into position 1, and the only row
      still to scan, row 1, does not match its first operand L1. */
  lemma PastScannedAt1()
    ensures Outer(T2, SweepState([a3, b, w], true, [rep23]), 1) == Done(true, [a3, w])
  {
    var s1 := SweepState([a3, b, w], true, [rep23]);
    var s2 := s1.(tmp := [a3, w]);
    assert GotoRedirectStep(T2, s1, 1, 0) == s1;
    assert RemoveAt(s1.tmp, 1) == s2.tmp;
    assert Purge(s1, 1, 0) == Purge(s2, 1, 1) == Ok(s2);
    // row 1's label L2 is not w's first operand L1
    assert GotoRedirectStep(T2, s2, 1, 1) == s2;
    assert Purge(s2, 1, 0) == Ok(s2);
    assert GotoScan(T2, s2, 1, 1) == GotoScan(T2, s2, 1, 2) == Ok(s2);
    assert GotoScan(T2, s1, 1, 0) == Ok(s2);
    assert Outer(T2, s2, 2) == Done(true, [a3, w]);
  }

  /** A self-loop has nothing to thread and comes back unchanged. */
  lemma SelfLoopUnchanged()
    ensures Sweep([Instruction("L", Goto, "L", "", "")]) == Done(false, [Instruction("L", Goto, "L", "", "")])
  {
    var l := Instruction("L", Goto, "L", "", "");
    var table := [GtotScaner(0, "L", "L")];
    assert [l][..0] == [];
    assert ScanTable([l]) == table;
    var s0 := SweepState([l], false, []);
    assert GotoRedirectStep(table, s0, 0, 0) == s0;
    assert GotoScan(table, s0, 0, 0) == GotoScan(table, s0, 0, 1) == Ok(s0);
    assert Outer(table, s0, 0) == Outer(table, s0, 1) == Done(false, [l]);
  }

  /** The table records ifgoto rows too, so a goto to the label of an ifgoto
      is redirected to the ifgoto's target: the unconditional jump no longer
      passes through the condition. */
  lemma GotoThroughIfGoto()
    ensures var c := Instruction("L2", IfGoto, "c", "L3", "");
            Sweep([a, c]) == Done(true, [RedirectGoto(a, "L3"), c])
  {
    var c := Instruction("L2", IfGoto, "c", "L3", "");
    assert [a][..0] == [];
    assert ScanTable([a]) == [row0];
    assert [a, c][..1] == [a];
    assert ScanTable([a, c]) == [row0] + [row1] == T2;
    var s0 := SweepState([a, c], false, []);
    var s1 := SweepState([a3, c], true, [rep23]);
    assert GotoRedirectStep(T2, s0, 0, 0) == s0;
    assert GotoScan(T2, s0, 0, 0) == GotoScan(T2, s0, 0, 1);
    assert GotoRedirectStep(T2, s0, 0, 1) == s1;
    assert Purge(s1, 0, 1) == Ok(s1);
    assert Purge(s1, 0, 0) == Ok(s1);
    assert GotoScan(T2, s0, 0, 1) == GotoScan(T2, s1, 0, 2) == Ok(s1);
    assert Outer(T2, s0, 0) == Outer(T2, s1, 1);
    // the ifgoto's target L3 is no row's label: nothing changes at position 1
    assert IfGotoRedirectStep(T2, s1, 1, 0) == s1;
    assert IfGotoRedirectStep(T2, s1, 1, 1) == s1;
    assert IfGotoScan(T2, s1, 1, 0) == IfGotoScan(T2, s1, 1, 1) == IfGotoScan(T2, s1, 1, 2) == s1;
    assert Outer(T2, s1, 1) == Outer(T2, s1, 2) == Done(true, [a3, c]);
  }

  /** An ifgoto `L4: ifgoto L2 L5` whose condition operand happens to be the
      label L2, and its row. */
  const c4: Instruction := Instruction("L4", IfGoto, "L2", "L5", "")
  const row2c: GtotScaner := GtotScaner(2, "L4", "L5")
  const T3c: seq<GtotScaner> := [row0, row1, row2c]

  /** Position 0 of `a; b; c4; x`: as in ChainAt0, and row 2 does not match
      the new target L3. */
  lemma IfGotoChainAt0()
    ensures Outer(T3c, SweepState([a, b, c4, x], false, []), 0)
         == Outer(T3c, SweepState([a3, b, c4, x], true, [rep23]), 1)
  {
    var s0 := SweepState([a, b, c4, x], false, []);
    var s1 := SweepState([a3, b, c4, x], true, [rep23]);
    assert GotoRedirectStep(T3c, s0, 0, 0) == s0;
    assert GotoScan(T3c, s0, 0, 0) == GotoScan(T3c, s0, 0, 1);
    assert GotoRedirectStep(T3c, s0, 0, 1) == s1;
    assert Purge(s1, 0, 1) == Ok(s1);
    assert Purge(s1, 0, 0) == Ok(s1);
    assert GotoRedirectStep(T3c, s1, 0, 2) == s1;
    assert GotoScan(T3c, s1, 0, 2) == GotoScan(T3c, s1, 0, 3) == Ok(s1);
    assert GotoScan(T3c, s0, 0, 1) == Ok(s1);
  }

  /** Position 1 of `a; b; c4; x`: `L2: goto L3` is removed, c4 shifts into
      its place and row 1 matches its condition operand L2. */
  lemma IfGotoChainAt1()
    ensures Outer(T3c, SweepState([a3, b, c4, x], true, [rep23]), 1)
         == Done(true, [a3, RedirectGoto(c4, "L3"), x])
  {
    var c' := RedirectGoto(c4, "L3");
    var s1 := SweepState([a3, b, c4, x], true, [rep23]);
    var s2 := s1.(tmp := [a3, c4, x]);
    var s3 := SweepState([a3, c', x], true, [rep23, rep23]);
    assert GotoRedirectStep(T3c, s1, 1, 0) == s1;
    assert RemoveAt(s1.tmp, 1) == s2.tmp;
    assert Purge(s1, 1, 0) == Purge(s2, 1, 1) == Ok(s2);
    assert GotoRedirectStep(T3c, s2, 1, 1) == s3;
    assert Purge(s3, 1, 0) == Purge(s3, 1, 1) == Purge(s3, 1, 2) == Ok(s3);
    assert GotoRedirectStep(T3c, s3, 1, 2) == s3;
    assert GotoScan(T3c, s3, 1, 2) == GotoScan(T3c, s3, 1, 3) == Ok(s3);
    assert GotoScan(T3c, s2, 1, 1) == Ok(s3);
    assert GotoScan(T3c, s1, 1, 0) == Ok(s3);
    assert Outer(T3c, s3, 2) == Outer(T3c, s3, 3) == Done(true, [a3, c', x]);
  }

  /** An ifgoto whose target does not thread, shifted into the place of a
      removed goto, is still handled by the goto branch. When its condition
      operand names a row's label it is overwritten by an unconditional goto,
      and its condition is lost. */
  lemma ShiftedIfGotoBecomesGoto()
    ensures Sweep([a, b, c4, x]) == Done(true, [RedirectGoto(a, "L3"), RedirectGoto(c4, "L3"), x])
  {
    TwoJumpTable(x);
    assert [a, b, c4][..2] == [a, b];
    assert ScanTable([a, b, c4]) == [row0, row1] + [row2c] == T3c;
    assert [a, b, c4, x][..3] == [a, b, c4];
    assert ScanTable([a, b, c4, x]) == T3c;
    IfGotoChainAt0();
    IfGotoChainAt1();
  }

  /** The chain `L1: goto L2; L2: goto L3; L3: goto L4; L4: z`, its table,
      and the states it passes through. */
  const d: Instruction := Instruction("L3", Goto, "L4", "", "")
  const z: Instruction := Instruction("L4", "assign", "a", "", "b")
  const row2d: GtotScaner := GtotScaner(2, "L3", "L4")
  const T3d: seq<GtotScaner> := [row0, row1, row2d]
  const a4: Instruction := Instruction("L1", Goto, "L4", "", "")
  const rep34: Replacement := Replacement("L3", "L4")

  /** Row 2 of the three-hop chain compares with the goto's new target L3
      and redirects it on to L4. */
  lemma ThreeHopRow2()
    ensures GotoScan(T3d, SweepState([a3, b, d, z], true, [rep23]), 0, 2)
         == Ok(SweepState([a4, b, d, z], true, [rep23, rep34]))
  {
    var s1 := SweepState([a3, b, d, z], true, [rep23]);
    var s2 := SweepState([a4, b, d, z], true, [rep23, rep34]);
    assert GotoRedirectStep(T3d, s1, 0, 2) == s2;
    assert Purge(s2, 0, 0) == Purge(s2, 0, 1) == Purge(s2, 0, 2) == Ok(s2);
    assert GotoScan(T3d, s2, 0, 3) == Ok(s2);
  }

  /** Position 0 of the three-hop chain: row 1 redirects L1 to L3, then row
      2 redirects it on to L4. */
  lemma ThreeHopAt0()
    ensures Outer(T3d, SweepState([a, b, d, z], false, []), 0)
         == Outer(T3d, SweepState([a4, b, d, z], true, [rep23, rep34]), 1)
  {
    var s0 := SweepState([a, b, d, z], false, []);
    var s1 := SweepState([a3, b, d, z], true, [rep23]);
    assert GotoRedirectStep(T3d, s0, 0, 0) == s0;
    assert GotoScan(T3d, s0, 0, 0) == GotoScan(T3d, s0, 0, 1);
    assert GotoRedirectStep(T3d, s0, 0, 1) == s1;
    assert Purge(s1, 0, 1) == Ok(s1);
    assert Purge(s1, 0, 0) == Ok(s1);
    ThreeHopRow2();
    assert GotoScan(T3d, s0, 0, 1) == GotoScan(T3d, s1, 0, 2);
  }

  /** The foreach at position 1 of the three-hop chain removes `L2: goto L3`,
      then `L3: goto L4`, which has shifted into its place. */
  lemma ThreeHopPurge()
    ensures Purge(SweepState([a4, b, d, z], true, [rep23, rep34]), 1, 0)
         == Ok(SweepState([a4, z], true, [rep23, rep34]))
  {
    var s2 := SweepState([a4, b, d, z], true, [rep23, rep34]);
    var s3 := s2.(tmp := [a4, d, z]);
    var s4 := s2.(tmp := [a4, z]);
    assert RemoveAt(s2.tmp, 1) == s3.tmp;
    assert RemoveAt(s3.tmp, 1) == s4.tmp;
    assert Purge(s2, 1, 0) == Purge(s3, 1, 1) == Purge(s4, 1, 2) == Ok(s4);
  }

  /** Position 1 of the three-hop chain: after the two removals z is at
      position 1 and no row matches it. */
  lemma ThreeHopAt1()
    ensures Outer(T3d, SweepState([a4, b, d, z], true, [rep23, rep34]), 1) == Done(true, [a4, z])
  {
    var s2 := SweepState([a4, b, d, z], true, [rep23, rep34]);
    var s4 := s2.(tmp := [a4, z]);
    assert GotoRedirectStep(T3d, s2, 1, 0) == s2;
    ThreeHopPurge();
    assert GotoRedirectStep(T3d, s4, 1, 1) == s4;
    assert GotoRedirectStep(T3d, s4, 1, 2) == s4;
    assert Purge(s4, 1, 0) == Purge(s4, 1, 1) == Purge(s4, 1, 2) == Ok(s4);
    assert GotoScan(T3d, s4, 1, 2) == GotoScan(T3d, s4, 1, 3) == Ok(s4);
    assert GotoScan(T3d, s4, 1, 1) == Ok(s4);
    assert GotoScan(T3d, s2, 1, 0) == Ok(s4);
    assert Outer(T3d, s4, 2) == Done(true, [a4, z]);
  }

  /** Line 46 compares a row with the goto's current target, so one scan of
      the table can redirect a goto twice: along `L1: goto L2; L2: goto L3;
      L3: goto L4` the first goto goes straight to L4, and one foreach removes
      both intermediate gotos with their labels L2 and L3. */
  lemma ThreeHopChainCollapses()
    ensures Sweep([a, b, d, z]) == Done(true, [RedirectGoto(a, "L4"), z])
  {
    TwoJumpTable(z);
    assert [a, b, d][..2] == [a, b];
    assert ScanTable([a, b, d]) == [row0, row1] + [row2d] == T3d;
    assert [a, b, d, z][..3] == [a, b, d];
    assert ScanTable([a, b, d, z]) == T3d;
    ThreeHopAt0();
    ThreeHopAt1();
  }

  /** The program `A: goto L2; L0: n0; L2: goto L3; L5: n5; L3: x`, where L0
      falls through into `goto L3` and so skips L5, and its table. */
  const g: Instruction := Instruction("A", Goto, "L2", "", "")
  const n0: Instruction := Instruction("L0", "assign", "a", "", "b")
  const n5: Instruction := Instruction("L5", "assign", "a", "", "b")
  const rowA: GtotScaner := GtotScaner(0, "A", "L2")
  const rowB: GtotScaner := GtotScaner(2, "L2", "L3")
  const TF: seq<GtotScaner> := [rowA, rowB]
  const g3: Instruction := Instruction("A", Goto, "L3", "", "")

  lemma FallThroughTable()
    ensures ScanTable([g, n0, b, n5, x]) == TF
  {
    assert [g][..0] == [];
    assert ScanTable([g]) == [rowA];
    assert [g, n0][..1] == [g];
    assert ScanTable([g, n0]) == [rowA];
    assert [g, n0, b][..2] == [g, n0];
    assert ScanTable([g, n0, b]) == [rowA] + [rowB];
    assert [g, n0, b, n5][..3] == [g, n0, b];
    assert ScanTable([g, n0, b, n5]) == TF;
    assert [g, n0, b, n5, x][..4] == [g, n0, b, n5];
  }

  /** Positions 0 and 1: row B redirects `A: goto L2` to L3; n0 is skipped. */
  lemma FallThroughAt0()
    ensures Outer(TF, SweepState([g, n0, b, n5, x], false, []), 0)
         == Outer(TF, SweepState([g3, n0, b, n5, x], true, [rep23]), 2)
  {
    var s0 := SweepState([g, n0, b, n5, x], false, []);
    var s1 := SweepState([g3, n0, b, n5, x], true, [rep23]);
    assert GotoRedirectStep(TF, s0, 0, 0) == s0;
    assert GotoScan(TF, s0, 0, 0) == GotoScan(TF, s0, 0, 1);
    assert GotoRedirectStep(TF, s0, 0, 1) == s1;
    assert Purge(s1, 0, 1) == Ok(s1);
    assert Purge(s1, 0, 0) == Ok(s1);
    assert GotoScan(TF, s0, 0, 1) == GotoScan(TF, s1, 0, 2) == Ok(s1);
    assert Outer(TF, s1, 1) == Outer(TF, s1, 2);
  }

  /** Positions 2 and 3: `L2: goto L3` is removed, n5 shifts into its place
      and no row matches it; x is skipped. */
  lemma FallThroughAt2()
    ensures Outer(TF, SweepState([g3, n0, b, n5, x], true, [rep23]), 2) == Done(true, [g3, n0, n5, x])
  {
    var s1 := SweepState([g3, n0, b, n5, x], true, [rep23]);
    var s2 := s1.(tmp := [g3, n0, n5, x]);
    assert GotoRedirectStep(TF, s1, 2, 0) == s1;
    assert RemoveAt(s1.tmp, 2) == s2.tmp;
    assert Purge(s1, 2, 0) == Purge(s2, 2, 1) == Ok(s2);
    assert GotoRedirectStep(TF, s2, 2, 1) == s2;
    assert Purge(s2, 2, 0) == Ok(s2);
    assert GotoScan(TF, s2, 2, 1) == GotoScan(TF, s2, 2, 2) == Ok(s2);
    assert GotoScan(TF, s1, 2, 0) == Ok(s2);
    assert Outer(TF, s2, 3) == Outer(TF, s2, 4) == Done(true, [g3, n0, n5, x]);
  }

  /** Removing a goto that is reached by falling through changes what the
      program does: in the input, L0 falls into `goto L3` and skips L5; in
      the output, L0 falls into L5. */
  lemma FallThroughIntoRemovedGoto()
    ensures Sweep([g, n0, b, n5, x]) == Done(true, [RedirectGoto(g, "L3"), n0, n5, x])
  {
    FallThroughTable();
    FallThroughAt0();
    FallThroughAt2();
  }

  /** The smallest cycle `L1: goto L2; L2: goto L1` and its table. */
  const c: Instruction := Instruction("L2", Goto, "L1", "", "")
  const rowC: GtotScaner := GtotScaner(1, "L2", "L1")
  const TC: seq<GtotScaner> := [row0, rowC]
  const a1: Instruction := Instruction("L1", Goto, "L1", "", "")
  const c2: Instruction := Instruction("L2", Goto, "L2", "", "")
  const rep21: Replacement := Replacement("L2", "L1")
  const rep12: Replacement := Replacement("L1", "L2")

  lemma CycleTable()
    ensures ScanTable([a, c]) == TC
  {
    assert [a][..0] == [];
    assert ScanTable([a]) == [row0];
    assert [a, c][..1] == [a];
  }

  /** Position 0 of the cycle: row C redirects `L1: goto L2` to L1, and the
      foreach removes nothing. */
  lemma CycleAt0()
    ensures Outer(TC, SweepState([a, c], false, []), 0)
         == Outer(TC, SweepState([a1, c], true, [rep21]), 1)
  {
    var s0 := SweepState([a, c], false, []);
    var s1 := SweepState([a1, c], true, [rep21]);
    assert GotoRedirectStep(TC, s0, 0, 0) == s0;
    assert GotoScan(TC, s0, 0, 0) == GotoScan(TC, s0, 0, 1);
    assert GotoRedirectStep(TC, s0, 0, 1) == s1;
    assert Purge(s1, 0, 1) == Ok(s1);
    assert Purge(s1, 0, 0) == Ok(s1);
    assert GotoScan(TC, s0, 0, 1) == GotoScan(TC, s1, 0, 2) == Ok(s1);
  }

  /** Position 1 of the cycle: row 0 redirects `L2: goto L1` to L2, row C
      redirects it back to L1, and the foreach then removes it and reads
      position 1 of the one-element list. */
  lemma CycleAt1()
    ensures Outer(TC, SweepState([a1, c], true, [rep21]), 1) == IndexOutOfRange(1)
  {
    var s1 := SweepState([a1, c], true, [rep21]);
    var s2 := SweepState([a1, c2], true, [rep21, rep12]);
    var s3 := SweepState([a1, c], true, [rep21, rep12, rep21]);
    var s4 := s3.(tmp := [a1]);
    assert GotoRedirectStep(TC, s1, 1, 0) == s2;
    assert Purge(s2, 1, 2) == Ok(s2);
    assert Purge(s2, 1, 0) == Purge(s2, 1, 1) == Ok(s2);
    assert GotoRedirectStep(TC, s2, 1, 1) == s3;
    assert RemoveAt(s3.tmp, 1) == s4.tmp;
    assert Purge(s3, 1, 0) == Purge(s4, 1, 1) == OutOfRange(1);
    assert GotoScan(TC, s2, 1, 1) == OutOfRange(1);
    assert GotoScan(TC, s1, 1, 0) == OutOfRange(1);
  }

  /** A cycle of two gotos also ends in the read past the end: the second
      goto is redirected twice, then removed, and the foreach reads its
      place once more. */
  lemma CycleReadsPastTheEnd()
    ensures Sweep([a, c]) == IndexOutOfRange(1)
  {
    CycleTable();
    CycleAt0();
    CycleAt1();
  }
}
