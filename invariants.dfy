/** Inductive invariants of the rewrite phase, one per loop, and the lemmas
    that each loop body keeps them. */
module SweepInvariants {
  import opened Tac
  import opened GotoSweep
  import opened JumpTable
  import opened Provenance

  /** Every recorded replacement redirects away from the label of a recorded
      jump to a different, recorded target, and its old label threads. */
  ghost predicate ReplacementsOk(table: seq<GtotScaner>, reps: seq<Replacement>)
  {
    forall r :: r in reps ==>
      r.oldLabel != r.newLabel && r.oldLabel in RowLabels(table) && r.newLabel in Targets(table)
      && Threadable(table, r.oldLabel)
  }

  /** Positions from i on hold the input's last instructions, in order, and
      positions after i are still untouched. */
  ghost predicate SuffixUntouched(prog: seq<Instruction>, tmp: seq<Instruction>, i: nat, pos: seq<nat>)
    requires |pos| == |tmp| <= |prog|
  {
    (forall q :: i <= q < |pos| ==> pos[q] == q + (|prog| - |tmp|))
    && (forall q :: i < q < |pos| ==> tmp[q] == prog[pos[q]])
  }

  /** While nothing has changed the list is the input, and no jump before
      position i had a row to redirect it. */
  ghost predicate Unchanged(prog: seq<Instruction>, table: seq<GtotScaner>, s: SweepState, i: nat)
  {
    s.tmp == prog && s.replacements == []
    && forall k :: 0 <= k < |table| && table[k].index < i ==> !Threadable(table, table[k].labelfrom)
  }

  /** What holds of the working state while position i is processed. */
  ghost predicate Core(prog: seq<Instruction>, table: seq<GtotScaner>, s: SweepState, i: nat, pos: seq<nat>)
  {
    |s.tmp| <= |prog|
    && ProvenanceOf(prog, table, s.tmp, pos)
    && SuffixUntouched(prog, s.tmp, i, pos)
    && ReplacementsOk(table, s.replacements)
    && (NoThreading(table) ==> !s.wasChanged)
    && (!s.wasChanged ==> Unchanged(prog, table, s, i))
  }

  /** At the head of the outer loop the instruction at i is untouched too. */
  ghost predicate OuterInv(prog: seq<Instruction>, table: seq<GtotScaner>, s: SweepState, i: nat, pos: seq<nat>)
  {
    Core(prog, table, s, i, pos) && (i < |s.tmp| ==> s.tmp[i] == prog[pos[i]])
  }

  /** The instruction the goto branch works on: a goto (derived from a goto,
      or from anything once shifted down) or an untouched instruction that a
      removal shifted into i. */
  ghost predicate GotoBranchTarget(prog: seq<Instruction>, tmp: seq<Instruction>, i: nat, pos: seq<nat>)
    requires i < |tmp| && |pos| == |tmp| && pos[i] < |prog|
  {
    (IsGoto(tmp[i]) && (IsGoto(prog[pos[i]]) || i < pos[i]))
    || (i < pos[i] && tmp[i] == prog[pos[i]])
  }

  /** Inside the goto branch. While nothing has changed, rows before j do not match. */
  ghost predicate GotoInv(prog: seq<Instruction>, table: seq<GtotScaner>, s: SweepState, i: nat, j: nat, pos: seq<nat>)
  {
    Core(prog, table, s, i, pos)
    && j <= |table|
    && (i < |s.tmp| ==> GotoBranchTarget(prog, s.tmp, i, pos))
    && (!s.wasChanged ==>
          i < |prog| && IsGoto(prog[i])
          && forall j' :: 0 <= j' < j ==> !Candidate(table, j', prog[i].Argument1))
  }

  /** Inside the ifgoto branch, which never removes. */
  ghost predicate IfGotoInv(prog: seq<Instruction>, table: seq<GtotScaner>, s: SweepState, i: nat, j: nat, pos: seq<nat>)
  {
    Core(prog, table, s, i, pos)
    && j <= |table|
    && i < |s.tmp| && IsIfGoto(s.tmp[i])
    && (!s.wasChanged ==>
          IsIfGoto(prog[i])
          && forall j' :: 0 <= j' < j ==> !Candidate(table, j', prog[i].Argument2))
  }

  /** The removal at line 58 keeps the goto-branch invariant. */
  lemma RemoveKeepsGotoInv(prog: seq<Instruction>, table: seq<GtotScaner>, s: SweepState, i: nat, j: nat, pos: seq<nat>, k: nat)
    requires GotoInv(prog, table, s, i, j, pos) && s.wasChanged
    requires i < |s.tmp| && k < |s.replacements|
    requires s.tmp[i].Label == s.replacements[k].oldLabel && s.tmp[i].Argument1 == s.replacements[k].newLabel
    ensures GotoInv(prog, table, s.(tmp := RemoveAt(s.tmp, i)), i, j, RemoveAt(pos, i))
  {
    var rep := s.replacements[k];
    assert rep in s.replacements;
    RemoveKeepsProvenance(prog, table, s.tmp, pos, i);
    var tmp', pos' := RemoveAt(s.tmp, i), RemoveAt(pos, i);
    assert SuffixUntouched(prog, tmp', i, pos') by {
      forall q | i <= q < |pos'|
        ensures pos'[q] == q + (|prog| - |tmp'|)
      {
        assert pos'[q] == pos[q + 1];
      }
    }
    if i < |tmp'| {
      assert tmp'[i] == prog[pos[i + 1]] && pos'[i] == pos[i + 1];
    }
  }

  /** Removing the instruction at i keeps the provenance, provided the input
      instruction it came from carries the label of a row that threads and is
      not a stable self-loop. */
  lemma RemoveKeepsProvenance(prog: seq<Instruction>, table: seq<GtotScaner>, tmp: seq<Instruction>, pos: seq<nat>, i: nat)
    requires ProvenanceOf(prog, table, tmp, pos) && i < |tmp|
    requires tmp[i].Label in RowLabels(table) && Threadable(table, tmp[i].Label)
    requires tmp[i].Label != tmp[i].Argument1
    ensures ProvenanceOf(prog, table, RemoveAt(tmp, i), RemoveAt(pos, i))
  {
    var tmp', pos' := RemoveAt(tmp, i), RemoveAt(pos, i);
    forall q | 0 <= q < |pos'|
      ensures DerivedFrom(prog, table, tmp'[q], q, pos'[q])
    {
      if q >= i {
        assert DerivedFrom(prog, table, tmp[q + 1], q + 1, pos[q + 1]);
      }
    }
    var p0 := pos[i];
    assert DerivedFrom(prog, table, tmp[i], i, p0);
    assert RemovedOk(prog, table, p0);
    forall p | 0 <= p < |prog| && p !in pos'
      ensures RemovedOk(prog, table, p)
    {
      if p != p0 {
        assert p !in pos;
      }
    }
  }

  /** Purge: the foreach keeps the goto-branch invariant or fails, and it
      fails only when the table has something to thread. */
  lemma {:induction false} PurgeSound(prog: seq<Instruction>, table: seq<GtotScaner>, s: SweepState, i: nat, j: nat, pos: seq<nat>, k: nat)
    returns (r: ScanResult<SweepState>, pos': seq<nat>)
    requires GotoInv(prog, table, s, i, j, pos) && s.wasChanged && k <= |s.replacements|
    ensures r == Purge(s, i, k)
    ensures r.Ok? ==> GotoInv(prog, table, r.value, i, j, pos')
    ensures r.OutOfRange? ==> !NoThreading(table)
    decreases |s.replacements| - k, 1
  {
    if k < |s.replacements| && i < |s.tmp| {
      r, pos' := PurgeStep(prog, table, s, i, j, pos, k);
    } else {
      r, pos' := Purge(s, i, k), pos;
    }
  }

  /** One iteration of the foreach: remove the instruction at i if it matches
      the k-th replacement, then go on with the next one. */
  lemma {:induction false} PurgeStep(prog: seq<Instruction>, table: seq<GtotScaner>, s: SweepState, i: nat, j: nat, pos: seq<nat>, k: nat)
    returns (r: ScanResult<SweepState>, pos': seq<nat>)
    requires GotoInv(prog, table, s, i, j, pos) && s.wasChanged && k < |s.replacements| && i < |s.tmp|
    ensures r == Purge(s, i, k)
    ensures r.Ok? ==> GotoInv(prog, table, r.value, i, j, pos')
    ensures r.OutOfRange? ==> !NoThreading(table)
    decreases |s.replacements| - k, 0
  {
    var rep := s.replacements[k];
    if s.tmp[i].Label == rep.oldLabel && s.tmp[i].Argument1 == rep.newLabel {
      var s' := s.(tmp := RemoveAt(s.tmp, i));
      assert Purge(s, i, k) == Purge(s', i, k + 1);
      RemoveKeepsGotoInv(prog, table, s, i, j, pos, k);
      r, pos' := PurgeSound(prog, table, s', i, j, RemoveAt(pos, i), k + 1);
    } else {
      assert Purge(s, i, k) == Purge(s, i, k + 1);
      r, pos' := PurgeSound(prog, table, s, i, j, pos, k + 1);
    }
  }

  /** A redirect at i, recorded by a replacement of a row's label by a
      different row's target, keeps the core invariant. */
  lemma RedirectKeepsCore(prog: seq<Instruction>, table: seq<GtotScaner>, s: SweepState, i: nat, pos: seq<nat>, o: Instruction, rep: Replacement)
    requires Core(prog, table, s, i, pos) && i < |s.tmp|
    requires DerivedFrom(prog, table, o, i, pos[i])
    requires rep.oldLabel != rep.newLabel && rep.oldLabel in RowLabels(table) && rep.newLabel in Targets(table)
    requires Threadable(table, rep.oldLabel)
    requires !NoThreading(table)
    ensures Core(prog, table, SweepState(s.tmp[i := o], true, s.replacements + [rep]), i, pos)
  {
    var tmp := s.tmp[i := o];
    forall q | 0 <= q < |pos|
      ensures DerivedFrom(prog, table, tmp[q], q, pos[q])
    {
      if q != i {
        assert tmp[q] == s.tmp[q];
      }
    }
    assert ProvenanceOf(prog, table, tmp, pos);
    assert SuffixUntouched(prog, tmp, i, pos) by {
      forall q | i < q < |pos|
        ensures tmp[q] == prog[pos[q]]
      {
        assert tmp[q] == s.tmp[q];
      }
    }
    var reps := s.replacements + [rep];
    forall r | r in reps
      ensures r.oldLabel != r.newLabel && r.oldLabel in RowLabels(table) && r.newLabel in Targets(table)
      ensures Threadable(table, r.oldLabel)
    {
      if r != rep {
        assert r in s.replacements;
      }
    }
    assert ReplacementsOk(table, reps);
  }

  /** The instruction written at line 50 is still derived from the same input
      instruction. */
  lemma RedirectGotoDerived(prog: seq<Instruction>, table: seq<GtotScaner>, tmp: seq<Instruction>, i: nat, pos: seq<nat>, j: nat)
    requires j < |table|
    requires i < |tmp| && |pos| == |tmp| && pos[i] < |prog|
    requires DerivedFrom(prog, table, tmp[i], i, pos[i]) && GotoBranchTarget(prog, tmp, i, pos)
    requires Candidate(table, j, tmp[i].Argument1)
    ensures DerivedFrom(prog, table, RedirectGoto(tmp[i], table[j].labelfrom), i, pos[i])
    ensures GotoBranchTarget(prog, tmp[i := RedirectGoto(tmp[i], table[j].labelfrom)], i, pos)
  {
  }

  /** A row that matches the jump at i while nothing has changed shows that
      the table has something to thread. */
  lemma FirstRedirect(prog: seq<Instruction>, table: seq<GtotScaner>, s: SweepState, i: nat, j: nat, t: string, pos: seq<nat>)
    requires IsTableOf(table, prog) && j < |table| && Candidate(table, j, t)
    requires Core(prog, table, s, i, pos) && i < |s.tmp|
    requires !s.wasChanged ==> IsJump(prog[i]) && JumpTarget(prog[i]) == t
    ensures !NoThreading(table)
  {
  }

  /** The redirect at lines 46-51 keeps the goto-branch invariant, advancing j. */
  lemma GotoRedirectKeepsInv(prog: seq<Instruction>, table: seq<GtotScaner>, s: SweepState, i: nat, j: nat, pos: seq<nat>)
    requires IsTableOf(table, prog)
    requires GotoInv(prog, table, s, i, j, pos) && j < |table| && i < |s.tmp|
    ensures GotoInv(prog, table, GotoRedirectStep(table, s, i, j), i, j + 1, pos)
  {
    var cur := s.tmp[i];
    if Candidate(table, j, cur.Argument1) {
      var t := table[j].labelfrom;
      var rep := Replacement(cur.Argument1, t);
      FirstRedirect(prog, table, s, i, j, cur.Argument1, pos);
      RedirectGotoDerived(prog, table, s.tmp, i, pos, j);
      RedirectKeepsCore(prog, table, s, i, pos, RedirectGoto(cur, t), rep);
    }
  }

  /** GotoScan: the j loop keeps the goto-branch invariant or fails, and it
      fails only when the table has something to thread. */
  lemma {:induction false} GotoScanSound(prog: seq<Instruction>, table: seq<GtotScaner>, s: SweepState, i: nat, j: nat, pos: seq<nat>)
    returns (r: ScanResult<SweepState>, pos': seq<nat>)
    requires IsTableOf(table, prog)
    requires GotoInv(prog, table, s, i, j, pos)
    ensures r == GotoScan(table, s, i, j)
    ensures r.Ok? ==> GotoInv(prog, table, r.value, i, |table|, pos')
    ensures r.OutOfRange? ==> !NoThreading(table)
    decreases |table| - j, 2
  {
    if j < |table| && i < |s.tmp| {
      r, pos' := GotoScanStep(prog, table, s, i, j, pos);
    } else {
      r, pos' := GotoScan(table, s, i, j), pos;
    }
  }

  /** One iteration of the j loop: the redirect, then the rest. */
  lemma {:induction false} GotoScanStep(prog: seq<Instruction>, table: seq<GtotScaner>, s: SweepState, i: nat, j: nat, pos: seq<nat>)
    returns (r: ScanResult<SweepState>, pos': seq<nat>)
    requires IsTableOf(table, prog)
    requires GotoInv(prog, table, s, i, j, pos) && j < |table| && i < |s.tmp|
    ensures r == GotoScan(table, s, i, j)
    ensures r.Ok? ==> GotoInv(prog, table, r.value, i, |table|, pos')
    ensures r.OutOfRange? ==> !NoThreading(table)
    decreases |table| - j, 1
  {
    var s1 := GotoRedirectStep(table, s, i, j);
    GotoRedirectKeepsInv(prog, table, s, i, j, pos);
    r, pos' := ContinueScanSound(prog, table, s1, i, j + 1, pos);
  }

  /** The purge at lines 52-61, once anything has changed, followed by the
      rest of the j loop. */
  lemma {:induction false} ContinueScanSound(prog: seq<Instruction>, table: seq<GtotScaner>, s: SweepState, i: nat, j: nat, pos: seq<nat>)
    returns (r: ScanResult<SweepState>, pos': seq<nat>)
    requires IsTableOf(table, prog)
    requires GotoInv(prog, table, s, i, j, pos) && 0 < j <= |table|
    ensures r == ContinueScan(table, s, i, j)
    ensures r.Ok? ==> GotoInv(prog, table, r.value, i, |table|, pos')
    ensures r.OutOfRange? ==> !NoThreading(table)
    decreases |table| - j + 1, 0
  {
    if s.wasChanged {
      var purged, pos1 := PurgeSound(prog, table, s, i, j, pos, 0);
      if purged.Ok? {
        r, pos' := GotoScanSound(prog, table, purged.value, i, j, pos1);
      } else {
        r, pos' := OutOfRange(purged.index), pos;
      }
    } else {
      r, pos' := GotoScanSound(prog, table, s, i, j, pos);
    }
  }

  /** The instruction written at line 72 is still derived from the same input
      instruction. */
  lemma RedirectIfGotoDerived(prog: seq<Instruction>, table: seq<GtotScaner>, cur: Instruction, i: nat, p: nat, j: nat)
    requires j < |table| && p < |prog|
    requires DerivedFrom(prog, table, cur, i, p) && IsIfGoto(cur)
    requires Candidate(table, j, cur.Argument2)
    ensures DerivedFrom(prog, table, RedirectIfGoto(cur, table[j].labelfrom), i, p)
  {
  }

  /** The redirect at lines 68-73 keeps the ifgoto-branch invariant, advancing j. */
  lemma IfGotoRedirectKeepsInv(prog: seq<Instruction>, table: seq<GtotScaner>, s: SweepState, i: nat, j: nat, pos: seq<nat>)
    requires IsTableOf(table, prog)
    requires IfGotoInv(prog, table, s, i, j, pos) && j < |table|
    ensures IfGotoInv(prog, table, IfGotoRedirectStep(table, s, i, j), i, j + 1, pos)
  {
    var cur := s.tmp[i];
    if Candidate(table, j, cur.Argument2) {
      var t := table[j].labelfrom;
      var rep := Replacement(cur.Argument2, t);
      FirstRedirect(prog, table, s, i, j, cur.Argument2, pos);
      RedirectIfGotoDerived(prog, table, cur, i, pos[i], j);
      RedirectKeepsCore(prog, table, s, i, pos, RedirectIfGoto(cur, t), rep);
    }
  }

  /** IfGotoScan keeps the ifgoto-branch invariant. */
  lemma {:induction false} IfGotoScanSound(prog: seq<Instruction>, table: seq<GtotScaner>, s: SweepState, i: nat, j: nat, pos: seq<nat>)
    returns (r: SweepState)
    requires IsTableOf(table, prog)
    requires IfGotoInv(prog, table, s, i, j, pos)
    ensures r == IfGotoScan(table, s, i, j)
    ensures IfGotoInv(prog, table, r, i, |table|, pos)
    decreases |table| - j, 1
  {
    if j < |table| {
      r := IfGotoScanStep(prog, table, s, i, j, pos);
    } else {
      r := IfGotoScan(table, s, i, j);
    }
  }

  /** One iteration of the j loop of the ifgoto branch. */
  lemma {:induction false} IfGotoScanStep(prog: seq<Instruction>, table: seq<GtotScaner>, s: SweepState, i: nat, j: nat, pos: seq<nat>)
    returns (r: SweepState)
    requires IsTableOf(table, prog)
    requires IfGotoInv(prog, table, s, i, j, pos) && j < |table|
    ensures r == IfGotoScan(table, s, i, j)
    ensures IfGotoInv(prog, table, r, i, |table|, pos)
    decreases |table| - j, 0
  {
    var s' := IfGotoRedirectStep(table, s, i, j);
    assert IfGotoScan(table, s, i, j) == IfGotoScan(table, s', i, j + 1);
    IfGotoRedirectKeepsInv(prog, table, s, i, j, pos);
    r := IfGotoScanSound(prog, table, s', i, j + 1, pos);
  }
}
