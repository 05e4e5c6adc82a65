/** Where the instructions of a sweep's output come from, stated against the
    jump table the sweep consults. */
module Provenance {
  import opened Tac
  import opened GotoSweep

  /** Some row of the table can redirect a jump to t. */
  ghost predicate Threadable(table: seq<GtotScaner>, t: string)
  {
    exists j :: 0 <= j < |table| && Candidate(table, j, t)
  }

  /** A jump that no row of the table can redirect. */
  ghost predicate Stable(table: seq<GtotScaner>, ins: Instruction)
  {
    IsJump(ins) && !Threadable(table, JumpTarget(ins))
  }

  /** No row's target can be redirected by another row. */
  ghost predicate NoThreading(table: seq<GtotScaner>)
  {
    forall k :: 0 <= k < |table| ==> !Threadable(table, table[k].labelfrom)
  }

  /** The targets recorded in the table. */
  ghost function Targets(table: seq<GtotScaner>): set<string>
  {
    set k | 0 <= k < |table| :: table[k].labelfrom
  }

  /** The jump labels recorded in the table. */
  ghost function RowLabels(table: seq<GtotScaner>): set<string>
  {
    set k | 0 <= k < |table| :: table[k].jumpLabel
  }

  ghost predicate Increasing(pos: seq<nat>)
  {
    forall a, b :: 0 <= a < b < |pos| ==> pos[a] < pos[b]
  }

  /** o is the goto that line 50 makes out of orig: orig's label, a recorded
      target, both other operands cleared. */
  ghost predicate RedirectedGoto(table: seq<GtotScaner>, o: Instruction, orig: Instruction)
  {
    o == RedirectGoto(orig, o.Argument1) && o.Argument1 in Targets(table)
  }

  /** o is the ifgoto orig as line 72 redirects it: label and condition kept,
      a recorded target, result cleared. */
  ghost predicate RedirectedIfGoto(table: seq<GtotScaner>, o: Instruction, orig: Instruction)
  {
    IsIfGoto(orig) && o == RedirectIfGoto(orig, o.Argument2) && o.Argument2 in Targets(table)
  }

  /** Output instruction o, at output position q, comes from input position p:
      it is the input instruction itself or a redirect of it. A goto can be
      made out of a non-goto only when p > q, that is once an earlier removal
      has shifted it down. A stable jump is kept as it is, except for a
      non-goto shifted down in that way, which can only have become a goto. */
  ghost predicate DerivedFrom(prog: seq<Instruction>, table: seq<GtotScaner>, o: Instruction, q: nat, p: nat)
  {
    p < |prog|
    && (o == prog[p]
        || (RedirectedGoto(table, o, prog[p]) && (IsGoto(prog[p]) || q < p))
        || RedirectedIfGoto(table, o, prog[p]))
    && (Stable(table, prog[p]) ==> o == prog[p] || (!IsGoto(prog[p]) && q < p && IsGoto(o)))
  }

  /** What is known of an input instruction that the sweep removed: its label
      is the label of a recorded jump, that label can be redirected by some
      row, and it is not a stable self-loop `L: goto L`. */
  ghost predicate RemovedOk(prog: seq<Instruction>, table: seq<GtotScaner>, p: nat)
    requires p < |prog|
  {
    prog[p].Label in RowLabels(table)
    && Threadable(table, prog[p].Label)
    && !(IsGoto(prog[p]) && prog[p].Label == prog[p].Argument1 && Stable(table, prog[p]))
  }

  /** pos maps each output position to the input position it comes from, in
      increasing order: the output is the input with some instructions
      removed and some redirected. */
  ghost predicate ProvenanceOf(prog: seq<Instruction>, table: seq<GtotScaner>, out: seq<Instruction>, pos: seq<nat>)
  {
    |pos| == |out| && Increasing(pos)
    && (forall q :: 0 <= q < |pos| ==> DerivedFrom(prog, table, out[q], q, pos[q]))
    && (forall p :: 0 <= p < |prog| && p !in pos ==> RemovedOk(prog, table, p))
  }

  /** A strictly increasing sequence below n is no longer than n, and its
      q-th element is at least q. */
  lemma {:induction false} IncreasingBounded(pos: seq<nat>, n: nat)
    requires Increasing(pos)
    requires forall q :: 0 <= q < |pos| ==> pos[q] < n
    ensures |pos| <= n
    ensures forall q :: 0 <= q < |pos| ==> q <= pos[q]
  {
    if pos != [] {
      var last := |pos| - 1;
      IncreasingBounded(pos[..last], pos[last]);
      assert forall q :: 0 <= q < last ==> pos[..last][q] == pos[q];
    }
  }

  /** An increasing sequence of length n below n is 0, 1, ..., n-1. */
  lemma IncreasingFull(pos: seq<nat>, n: nat)
    requires Increasing(pos) && |pos| == n
    requires forall q :: 0 <= q < |pos| ==> pos[q] < n
    ensures forall q :: 0 <= q < n ==> pos[q] == q
  {
    IncreasingBounded(pos, n);
    forall q | 0 <= q < n ensures pos[q] == q {
      if q < pos[q] {
        // the n - q - 1 elements after q are distinct and lie in (pos[q], n)
        var tail := pos[q + 1..];
        assert forall x :: 0 <= x < |tail| ==> tail[x] >= pos[q] + 1 >= q + 2;
        var shifted := seq(|tail|, x requires 0 <= x < |tail| => tail[x] - q - 2);
        IncreasingBounded(shifted, n - q - 2);
      }
    }
  }
}
