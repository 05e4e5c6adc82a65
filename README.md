# Goto-to-goto threading of three-address code

This project models `ThreeAddressCodeGotoToGoto.ReplaceGotoToGoto`, one
sweep of the jump-threading optimisation of the SimpleLang compiler's
three-address code (TAC), and proves what that sweep does.

The sweep works in two phases, both imperative:

1. A loop copies the input list into a working list `tmpcommands`. It also
   builds a jump table `list`, one `GtotScaner` row per jump in program
   order: the jump's position, its own label, and the label it jumps to.
   That is `Argument1` for a `goto` and `Argument2` for an `ifgoto`.
2. A rewrite loop walks the working list by index `i`.
   - At a `goto`, it scans every row `j`. When the row's label is the goto's
     target and the row's target differs, the goto is rewritten to jump to
     the row's target. The pair (old target, new target) is appended to
     `replacements`, and `wasChanged` is set.
   - Then, in every iteration of the `j` loop once anything has changed, a
     foreach over `replacements` removes the instruction at `i` each time
     its label is a replacement's old target and its first operand that
     replacement's new target.
   - At an `ifgoto`, the same scan rewrites the conditional target. Nothing
     is removed.

The model keeps the code's behaviour as written:

- A removal does not step `i` back. The instruction shifted into `i` is
  still handled by the rest of the `goto` branch, from the next row on. If
  its first operand names the label of a row not yet scanned whose target
  differs, it is overwritten by a goto, whatever it was. Rows the scan has
  already passed are not consulted again, so an instruction that only
  matches one of those is kept (`Scenarios.ShiftedPastScannedRowKept`).
- After a removal at the last position, the next read of `tmpcommands[i]`
  raises `ArgumentOutOfRangeException`. The model returns this as the
  outcome `IndexOutOfRange(i)`.
- The table holds `ifgoto` rows too. A `goto` to the label of an `ifgoto`
  whose target differs from that label is therefore redirected to the
  `ifgoto`'s target.
- Line 46 compares each row with the goto's current target, which an earlier
  row may already have rewritten. One scan of the table can therefore
  redirect a goto several times, and a chain whose rows come in program
  order collapses by several hops in a single sweep.

Modules:

- `Tac` holds the instruction record. `GotoSweep` holds the row, replacement
  and outcome datatypes and the reference functions. These follow the loops
  one by one: `ScanTable`, `Purge`, `GotoScan`, `IfGotoScan`, `Outer` and
  `Sweep`.
- `ThreeAddressCodeGotoToGoto` holds the imperative procedure, with
  `while` loops over `seq` locals. Each loop sits in a method of its own
  (`BuildTable`, `RewriteJumps`, `GotoBranch`, `IfGotoBranch`,
  `RemoveReplaced`) and is proved to compute its reference function.
- `JumpTable` proves what the table records.
- `Provenance`, `SweepInvariants` and `SweepSoundness` state and prove the
  loop invariants.
- `GotoToGotoTheorems` restates the result on the instruction list alone.
- `Scenarios` works through small concrete programs.

The theorems say the following.

- A label `t` *threads* when some jump labelled `t` goes somewhere other
  than `t`. The sweep reports a change exactly when some jump targets a
  label that threads. When it reports none, it returns its input unchanged.
  It fails only on a program that has something to thread.
- The output is the input with some instructions removed and some rewritten,
  in the same order. A strictly increasing map `pos` sends each output
  position to the input position it came from.
  - Each output instruction keeps its label.
  - A rewritten instruction is a goto or ifgoto redirected to a target the
    input already jumped to.
  - Only an instruction moved down by a removal can turn into a goto.
  - A goto whose target does not thread is either removed or kept unchanged.
    An ifgoto whose target does not thread is kept unchanged unless a
    removal shifted it down. It can then at most become a goto or be
    removed; it is never rewritten as an ifgoto.
  - Every removed instruction carries the label of some jump, and that label
    threads.
  - A self-loop `L: goto L` whose label does not thread is never removed.
- No label and no jump target appears in the output that was not in the
  input.
- When the length is kept, every instruction stays in its place, unchanged
  or redirected.

The model follows the code as written. Several of its behaviours are not
what a jump-threading pass should do, and three of them change the meaning
of the program:

- A goto to the label of an `ifgoto` whose target differs from that label
  is redirected to the `ifgoto`'s target (`Scenarios.GotoThroughIfGoto`). The goto now skips the
  condition: when the condition is false, the input falls through after the
  `ifgoto`, but the output jumps to its target anyway.
- An instruction shifted into the place of a removed goto is handled as a
  goto. If its first operand names the label of a row not yet scanned whose
  own target differs, it is overwritten by an unconditional goto
  (`Scenarios.ShiftedInstructionBecomesGoto`); a row already scanned is not
  consulted again (`Scenarios.ShiftedPastScannedRowKept`). This turns
  an assignment into a jump, and an `ifgoto` into a `goto` that drops its
  condition (`Scenarios.ShiftedIfGotoBecomesGoto`).
- Removing a goto also removes the place that the instruction before it
  falls through to. In `A: goto L2; L0: x; L2: goto L3; L5: y; L3: z` the
  goto at L2 is removed, so the assignment at L0, which used to fall
  through to L2 and on to L3, now falls through to L5 instead
  (`Scenarios.FallThroughIntoRemovedGoto`).
- A removed instruction takes its label with it: threading
  `L1: goto L2; L2: goto L3` drops `L2` from the program
  (`Scenarios.ChainIsThreaded`, `Scenarios.ThreeHopChainCollapses`). A jump
  to L2 that the sweep did not redirect is left without a target, and an
  instruction that fell through into the removed goto falls through to the
  next one.
- Removing the last instruction makes the next read of `tmpcommands[i]`
  fail (`Scenarios.ChainAtEndReadsPastTheEnd`). The smallest cycle,
  `L1: goto L2; L2: goto L1`, ends the same way: the second goto is
  redirected to L2 and back to L1, removed, and the foreach then reads its
  place again (`Scenarios.CycleReadsPastTheEnd`).
- The table is consulted while the working list is changed in place. The
  only instruction ever removed is the one at `i`, and it is removed when it
  matches any recorded replacement.
- `ThreeAddressCodeGotoToGoto.cs` performs exactly one sweep. It has no loop
  to a fixpoint, no iteration cap and no check for jumps to labels that do
  not exist.

## Model

| member | source | states |
|---|---|---|
| GotoSweep.Candidate | TACOptimizations/ThreeAddressCodeGotoToGoto.cs:46 | the test of lines 46 and 68: row j's label is the jump's current target and the row's target differs from it; JumpTable.CandidateThreads and GotoToGotoTheorems.ThreadableIff state what it means for the program |
| GotoSweep.Outcome | TACOptimizations/ThreeAddressCodeGotoToGoto.cs:21-78 | the sweep's result: `Done(wasChanged, instructions)` for the pair returned at line 78, or `IndexOutOfRange(i)` for the exception the list indexer raises when `tmpcommands[i]` is read past the end |
| GotoSweep.GtotScaner | TACOptimizations/ThreeAddressCodeGotoToGoto.cs:7-19 | a table row: the position of a jump, its own label (`label` in the source, `jumpLabel` here) and the label it jumps to (`labelfrom`); the rows' meaning is stated by JumpTable.ScanTableSpec |
| GotoSweep.TableEntry | TACOptimizations/ThreeAddressCodeGotoToGoto.cs:30-37 | an instruction contributes one row exactly when it is a jump, holding its position, its label and its jump target; properties of the whole table are in JumpTable.ScanTableSpec |
| GotoSweep.ScanTable | TACOptimizations/ThreeAddressCodeGotoToGoto.cs:27-38 | the table loop yields at most one row per instruction; JumpTable.ScanTableSpec states exactly which rows |
| GotoSweep.RedirectGoto | TACOptimizations/ThreeAddressCodeGotoToGoto.cs:50 | the instruction written at line 50 is a goto with the old label, jumping to the given target, with its second operand and result empty |
| GotoSweep.RedirectIfGoto | TACOptimizations/ThreeAddressCodeGotoToGoto.cs:72 | the instruction written at line 72 is an ifgoto with the old label and condition, jumping to the given target, with its result empty |
| GotoSweep.GotoRedirectStep | TACOptimizations/ThreeAddressCodeGotoToGoto.cs:46-51 | the list keeps its length and only position i can change; when row j is not a Candidate for its first operand (row label equal to it, row target different, the test of line 46) nothing changes; otherwise position i becomes RedirectGoto of the old instruction to the row's target, which differs from the old target, the flag is set and exactly the pair (old target, row target) is appended to the replacements |
| GotoSweep.IfGotoRedirectStep | TACOptimizations/ThreeAddressCodeGotoToGoto.cs:68-73 | the list keeps its length and only position i can change; when row j is not a Candidate for its second operand (the test of line 68) nothing changes; otherwise position i becomes RedirectIfGoto of the old instruction to the row's target, which differs from the old target, the flag is set and exactly the pair (old target, row target) is appended to the replacements |
| GotoSweep.Outer | TACOptimizations/ThreeAddressCodeGotoToGoto.cs:40-76 | the outer loop never lengthens the list and never clears the flag; its invariants are in SweepSoundness.OuterSound |
| GotoSweep.Sweep | TACOptimizations/ThreeAddressCodeGotoToGoto.cs:21-79 | one whole sweep never lengthens the program; the theorems of GotoToGotoTheorems are about this function |
| GotoSweep.RemoveAt | TACOptimizations/ThreeAddressCodeGotoToGoto.cs:58 | removing at i keeps the elements before i and shifts the later ones down one place |
| GotoSweep.Purge | TACOptimizations/ThreeAddressCodeGotoToGoto.cs:54-60 | the foreach over the replacements never lengthens the list and leaves the flag and the replacements alone |
| GotoSweep.GotoScan | TACOptimizations/ThreeAddressCodeGotoToGoto.cs:44-62 | the j loop of the goto branch never lengthens the list and never clears the flag |
| GotoSweep.ContinueScan | TACOptimizations/ThreeAddressCodeGotoToGoto.cs:52-62 | the rest of a j iteration after the redirect, the foreach once anything has changed and then the remaining rows, never lengthens the list and never clears the flag |
| GotoSweep.IfGotoScan | TACOptimizations/ThreeAddressCodeGotoToGoto.cs:66-74 | the j loop of the ifgoto branch keeps the length of the list (it never removes) and never clears the flag |
| JumpTable.ScanTableSpec | TACOptimizations/ThreeAddressCodeGotoToGoto.cs:27-38 | the table has one row per jump, in program order, with that jump's position, label and target (Argument1 of a goto, Argument2 of an ifgoto), and no other rows |
| JumpTable.CandidateThreads | TACOptimizations/ThreeAddressCodeGotoToGoto.cs:46 | a row that matches a target t at line 46 is a jump labelled t going elsewhere, so t threads; the row's label and target are a jump label and a jump target of the input |
| SweepInvariants.RemoveKeepsProvenance | TACOptimizations/ThreeAddressCodeGotoToGoto.cs:58 | removing, at i, an instruction whose label is a threading jump label and which is not a self-loop keeps the output derived from the input, with the removed input position recorded as removed |
| SweepInvariants.RemoveKeepsGotoInv | TACOptimizations/ThreeAddressCodeGotoToGoto.cs:56-58 | a removal inside the goto branch keeps the goto-branch invariant |
| SweepInvariants.PurgeSound | TACOptimizations/ThreeAddressCodeGotoToGoto.cs:52-61 | the foreach keeps the goto-branch invariant, and it reads past the end only when the table has something to thread |
| SweepInvariants.PurgeStep | TACOptimizations/ThreeAddressCodeGotoToGoto.cs:54-60 | one iteration of the foreach followed by the rest keeps the goto-branch invariant |
| SweepInvariants.RedirectKeepsCore | TACOptimizations/ThreeAddressCodeGotoToGoto.cs:48-50 | setting the flag, recording a replacement from a threading jump label to a different jump target and overwriting position i keeps the core invariant, including that every recorded old label threads |
| SweepInvariants.RedirectGotoDerived | TACOptimizations/ThreeAddressCodeGotoToGoto.cs:50 | the goto written at line 50 is a redirect of the same input instruction to a recorded target, and a stable input goto is never rewritten this way |
| SweepInvariants.FirstRedirect | TACOptimizations/ThreeAddressCodeGotoToGoto.cs:46-48 | a row that matches while nothing has changed shows that some row's target threads |
| SweepInvariants.GotoRedirectKeepsInv | TACOptimizations/ThreeAddressCodeGotoToGoto.cs:46-51 | the redirect step of the goto branch keeps its invariant for the next j |
| SweepInvariants.GotoScanSound | TACOptimizations/ThreeAddressCodeGotoToGoto.cs:44-62 | the j loop of the goto branch keeps its invariant to the end, and it reads past the end only when the table has something to thread |
| SweepInvariants.GotoScanStep | TACOptimizations/ThreeAddressCodeGotoToGoto.cs:46-61 | one iteration of the j loop (redirect, then purge once changed) followed by the rest keeps the goto-branch invariant |
| SweepInvariants.ContinueScanSound | TACOptimizations/ThreeAddressCodeGotoToGoto.cs:52-62 | the purge (once anything has changed) followed by the remaining j iterations keeps the goto-branch invariant, and fails only when the table has something to thread |
| SweepInvariants.RedirectIfGotoDerived | TACOptimizations/ThreeAddressCodeGotoToGoto.cs:72 | the ifgoto written at line 72 is still derived from the same input instruction: it keeps the label and condition of that input ifgoto and takes a recorded target; since the result is not a goto, the input instruction cannot be a stable jump (a stable input is kept, or only a shifted non-goto may become a goto) |
| SweepInvariants.IfGotoRedirectKeepsInv | TACOptimizations/ThreeAddressCodeGotoToGoto.cs:68-73 | the redirect step of the ifgoto branch keeps its invariant for the next j |
| SweepInvariants.IfGotoScanSound | TACOptimizations/ThreeAddressCodeGotoToGoto.cs:66-74 | the j loop of the ifgoto branch keeps its invariant to the end |
| SweepInvariants.IfGotoScanStep | TACOptimizations/ThreeAddressCodeGotoToGoto.cs:68-73 | one iteration of the ifgoto j loop followed by the rest keeps the invariant |
| SweepSoundness.AdvanceOuter | TACOptimizations/ThreeAddressCodeGotoToGoto.cs:40 | moving i past a non-jump, or past a jump no row could redirect, keeps the outer invariant |
| SweepSoundness.FinishedUnchanged | TACOptimizations/ThreeAddressCodeGotoToGoto.cs:40 | when the outer loop ends with nothing changed, no row's target threads |
| SweepSoundness.OuterSound | TACOptimizations/ThreeAddressCodeGotoToGoto.cs:40-78 | the outer loop ends in a list derived from the input, reports a change exactly when some row's target threads, returns the input when it reports none, and fails only when some row's target threads |
| SweepSoundness.EnterGoto | TACOptimizations/ThreeAddressCodeGotoToGoto.cs:42-44 | on entering the goto branch the goto-branch invariant holds before the first row |
| SweepSoundness.LeaveGoto | TACOptimizations/ThreeAddressCodeGotoToGoto.cs:62-63 | after the last row of the goto branch the outer invariant holds at the next position |
| SweepSoundness.EnterIfGoto | TACOptimizations/ThreeAddressCodeGotoToGoto.cs:64-66 | on entering the ifgoto branch the ifgoto-branch invariant holds before the first row |
| SweepSoundness.LeaveIfGoto | TACOptimizations/ThreeAddressCodeGotoToGoto.cs:74-75 | after the last row of the ifgoto branch the outer invariant holds at the next position |
| SweepSoundness.GotoBranchSound | TACOptimizations/ThreeAddressCodeGotoToGoto.cs:42-63 | the whole goto branch computes GotoScan, keeps the outer invariant for the next position, and reads past the end only when some row's target threads |
| SweepSoundness.IfGotoBranchSound | TACOptimizations/ThreeAddressCodeGotoToGoto.cs:64-75 | the whole ifgoto branch computes IfGotoScan and keeps the outer invariant for the next position |
| SweepSoundness.OuterAtGoto | TACOptimizations/ThreeAddressCodeGotoToGoto.cs:40-63 | after the goto branch the outer loop goes on from the next position with a list no longer than before, or ends in the out-of-range outcome |
| SweepSoundness.OuterGotoStep | TACOptimizations/ThreeAddressCodeGotoToGoto.cs:40-63 | an iteration of the outer loop at a goto followed by the rest of the loop gives what OuterSound states |
| SweepSoundness.AfterGoto | TACOptimizations/ThreeAddressCodeGotoToGoto.cs:62-78 | given only what the goto branch guarantees, the rest of the outer loop gives what OuterSound states |
| SweepSoundness.OuterIfGotoStep | TACOptimizations/ThreeAddressCodeGotoToGoto.cs:64-76 | an iteration of the outer loop at an ifgoto followed by the rest of the loop gives what OuterSound states |
| SweepSoundness.OuterOtherStep | TACOptimizations/ThreeAddressCodeGotoToGoto.cs:40-42 | an iteration at an instruction that is neither goto nor ifgoto changes nothing, and the rest of the loop gives what OuterSound states |
| SweepSoundness.StartInv | TACOptimizations/ThreeAddressCodeGotoToGoto.cs:23-29 | the copied input, with the flag false and no replacements, meets the outer invariant with the identity map |
| SweepSoundness.SweepSound | TACOptimizations/ThreeAddressCodeGotoToGoto.cs:21-79 | the whole sweep, stated against its table: provenance of the output, change flag exactly when the table has something to thread, input returned when unchanged, failure only when something threads |
| GotoToGotoTheorems.TableSets | TACOptimizations/ThreeAddressCodeGotoToGoto.cs:30-37 | the table's targets are exactly the input's jump targets and its labels exactly the input's jump labels |
| GotoToGotoTheorems.ThreadableIff | TACOptimizations/ThreeAddressCodeGotoToGoto.cs:46 | some row matches a target t exactly when t threads in the input, both directions |
| GotoToGotoTheorems.NoThreadingIff | TACOptimizations/ThreeAddressCodeGotoToGoto.cs:46 | no row's target can be matched exactly when no jump of the input targets a label that threads |
| GotoToGotoTheorems.StableIff | TACOptimizations/ThreeAddressCodeGotoToGoto.cs:46 | a jump no row can redirect is exactly a jump whose target does not thread |
| GotoToGotoTheorems.SweepChangeIff | TACOptimizations/ThreeAddressCodeGotoToGoto.cs:21-79 | wasChanged is true exactly when some jump targets a label that threads; when it is false the input comes back unchanged; an out-of-range read happens only on such a program |
| GotoToGotoTheorems.SweepIdentityIff | TACOptimizations/ThreeAddressCodeGotoToGoto.cs:21-79 | the sweep returns (false, input) exactly when no jump targets a label that threads |
| GotoToGotoTheorems.ProvenanceFacts | TACOptimizations/ThreeAddressCodeGotoToGoto.cs:40-76 | an output derived from the input is no longer than it, keeps each instruction's label, adds no label and no jump target, and drops only instructions whose label is a jump's label and threads |
| GotoToGotoTheorems.OutputTargetsKept | TACOptimizations/ThreeAddressCodeGotoToGoto.cs:50-72 | every jump target of a derived output is a jump target of the input |
| GotoToGotoTheorems.RemovedLabelsThread | TACOptimizations/ThreeAddressCodeGotoToGoto.cs:56-58 | every input instruction left out of a derived output carries the label of a jump, and that label threads |
| GotoToGotoTheorems.StableSelfLoopKept | TACOptimizations/ThreeAddressCodeGotoToGoto.cs:46-58 | a self-loop `L: goto L` whose label does not thread stays in the output, unchanged |
| GotoToGotoTheorems.NoRemovalFacts | TACOptimizations/ThreeAddressCodeGotoToGoto.cs:40-76 | when nothing was removed, non-jumps and stable jumps are unchanged at their place and every other jump is at most redirected to an input jump target |
| GotoToGotoTheorems.SweepOutputShape | TACOptimizations/ThreeAddressCodeGotoToGoto.cs:21-79 | the sweep's output, via an increasing position map: length, labels and jump targets bounded by the input; every removed instruction's label is a jump label that threads; stable self-loops kept |
| GotoToGotoTheorems.SweepWithoutRemoval | TACOptimizations/ThreeAddressCodeGotoToGoto.cs:21-79 | when the sweep keeps the length, each position holds its own instruction, unchanged or redirected, and non-jumps and stable jumps are unchanged |
| ThreeAddressCodeGotoToGoto.BuildTable | TACOptimizations/ThreeAddressCodeGotoToGoto.cs:27-38 | the first loop copies the commands unchanged and builds exactly ScanTable of them |
| ThreeAddressCodeGotoToGoto.RewriteJumps | TACOptimizations/ThreeAddressCodeGotoToGoto.cs:40-78 | the second loop, from the copied list with the flag false and no replacements, computes Outer from position 0 |
| ThreeAddressCodeGotoToGoto.RemoveReplaced | TACOptimizations/ThreeAddressCodeGotoToGoto.cs:54-60 | the foreach loop computes Purge: removals at i, or the out-of-range read |
| ThreeAddressCodeGotoToGoto.GotoBranch | TACOptimizations/ThreeAddressCodeGotoToGoto.cs:44-62 | the j loop of the goto branch computes GotoScan and never lengthens the list |
| ThreeAddressCodeGotoToGoto.IfGotoBranch | TACOptimizations/ThreeAddressCodeGotoToGoto.cs:66-74 | the j loop of the ifgoto branch computes IfGotoScan and keeps the length |
| ThreeAddressCodeGotoToGoto.ReplaceGotoToGoto | TACOptimizations/ThreeAddressCodeGotoToGoto.cs:21-79 | the procedure computes Sweep; it reports a change exactly when something threads, returns its input when it reports none, never lengthens the list or adds labels or jump targets, and fails only when something threads |
| Scenarios.TwoJumpTable | TACOptimizations/ThreeAddressCodeGotoToGoto.cs:27-38 | the table of `L1: goto L2; L2: goto L3` (plus a non-jump) is its two rows |
| Scenarios.ChainIsThreaded | TACOptimizations/ThreeAddressCodeGotoToGoto.cs:40-78 | `L1: goto L2; L2: goto L3; L3: x` becomes `L1: goto L3; L3: x` with wasChanged true |
| Scenarios.ChainAtEndReadsPastTheEnd | TACOptimizations/ThreeAddressCodeGotoToGoto.cs:46 | `L1: goto L2; L2: goto L3` reads position 1 after it was removed |
| Scenarios.CycleReadsPastTheEnd | TACOptimizations/ThreeAddressCodeGotoToGoto.cs:40-60 | `L1: goto L2; L2: goto L1` ends as `IndexOutOfRange(1)`: at i=1 the goto is redirected twice, removed by the foreach, and the next replacement reads position 1 of the one-element list |
| Scenarios.ShiftedInstructionBecomesGoto | TACOptimizations/ThreeAddressCodeGotoToGoto.cs:46-58 | an assignment shifted into the removed goto's place, with first operand L2, is overwritten by `L3: goto L3` |
| Scenarios.ShiftedPastScannedRowKept | TACOptimizations/ThreeAddressCodeGotoToGoto.cs:44-62 | in `L1: goto L2; L2: goto L3; L3: assign L1 _ b` the assignment shifted into place 1 names L1, whose row the scan has already passed, so it is kept: the result is `L1: goto L3; L3: assign L1 _ b` |
| Scenarios.FallThroughIntoRemovedGoto | TACOptimizations/ThreeAddressCodeGotoToGoto.cs:40-78 | `A: goto L2; L0: x; L2: goto L3; L5: y; L3: z` becomes `A: goto L3; L0: x; L5: y; L3: z`: the goto at L2 is removed and L0 now falls through to L5 |
| Scenarios.SelfLoopUnchanged | TACOptimizations/ThreeAddressCodeGotoToGoto.cs:46 | `L: goto L` comes back unchanged with wasChanged false |
| Scenarios.GotoThroughIfGoto | TACOptimizations/ThreeAddressCodeGotoToGoto.cs:34-50 | `L1: goto L2; L2: ifgoto c L3` becomes `L1: goto L3; L2: ifgoto c L3`: the goto skips the condition |
| Scenarios.ShiftedIfGotoBecomesGoto | TACOptimizations/ThreeAddressCodeGotoToGoto.cs:46-58 | in `L1: goto L2; L2: goto L3; L4: ifgoto L2 L5; L3: x` the ifgoto, whose target L5 does not thread, shifts into the removed goto's place and becomes `L4: goto L3`, losing its condition |
| Scenarios.ThreeHopChainCollapses | TACOptimizations/ThreeAddressCodeGotoToGoto.cs:44-60 | `L1: goto L2; L2: goto L3; L3: goto L4; L4: z` becomes `L1: goto L4; L4: z` in one sweep: two redirects in one scan of the table, two removals in one foreach |

## Left out

- The instruction class (`Instruction`, its constructors and printing) is not part of this model. It is a record of five strings, compared by value.
- SimpleLanguage.Tests/AST/ASTTestsBase.cs is not part of this model. It only parses source text for tests.
- `GtotScaner.index` is stored and never read by the sweep. The model keeps it, and the proofs use it only to tie each row to its jump.
- The exception type is not modelled. Any read past the end of `tmpcommands` ends the sweep as `IndexOutOfRange` with the position read.
- C# `null` strings and reference identity of `Instruction` objects are not modelled. The sweep never mutates an instruction; it only replaces list elements.
- A caller that re-runs the sweep until it reports no change, with an iteration cap, and a check for jumps to undefined labels are not part of this model: `ThreeAddressCodeGotoToGoto.cs` contains none of them.
