/** ThreeAddressCodeGotoToGoto.ReplaceGotoToGoto as the imperative procedure
    it is: a loop that copies the input and builds the jump table, then the
    rewrite loop with its two inner loops and the foreach over the recorded
    replacements. The two branches of the rewrite loop are methods of their
    own; each is proved to compute its reference function, so every theorem
    about Sweep holds of ReplaceGotoToGoto. */
module ThreeAddressCodeGotoToGoto {
  import opened Tac
  import opened GotoSweep
  import opened GotoToGotoTheorems

  /** The foreach over the recorded replacements: the instruction at i is
      removed each time its label and first operand match one, and whatever
      shifts into i is checked against the replacements that follow. Reading
      past the end of the working list fails. */
  method RemoveReplaced(s: SweepState, i: nat) returns (r: ScanResult<SweepState>)
    ensures r == Purge(s, i, 0)
  {
    var tmpcommands := s.tmp;
    var k := 0;
    while k < |s.replacements|
      invariant k <= |s.replacements|
      invariant Purge(s.(tmp := tmpcommands), i, k) == Purge(s, i, 0)
    {
      if i >= |tmpcommands| {
        return OutOfRange(i);
      }
      var rep := s.replacements[k];
      if tmpcommands[i].Label == rep.oldLabel && tmpcommands[i].Argument1 == rep.newLabel {
        tmpcommands := RemoveAt(tmpcommands, i);
      }
      k := k + 1;
    }
    r := Ok(s.(tmp := tmpcommands));
  }

  /** The goto branch at position i: the j loop over the table, each
      iteration redirecting the instruction at i when row j matches and then,
      once anything has changed, removing it for every replacement it matches.
      Reading past the end of the working list fails. */
  method GotoBranch(list: seq<GtotScaner>, s: SweepState, i: nat) returns (r: ScanResult<SweepState>)
    ensures r == GotoScan(list, s, i, 0)
    ensures r.Ok? ==> |r.value.tmp| <= |s.tmp|
  {
    var tmpcommands, wasChanged, replacements := s.tmp, s.wasChanged, s.replacements;
    var j := 0;
    while j < |list|
      invariant j <= |list|
      invariant GotoScan(list, SweepState(tmpcommands, wasChanged, replacements), i, j) == GotoScan(list, s, i, 0)
    {
      if i >= |tmpcommands| {
        return OutOfRange(i);
      }
      ghost var sj := SweepState(tmpcommands, wasChanged, replacements);
      var cur := tmpcommands[i];
      if list[j].jumpLabel == cur.Argument1 && list[j].labelfrom != cur.Argument1 {
        wasChanged := true;
        replacements := replacements + [Replacement(cur.Argument1, list[j].labelfrom)];
        tmpcommands := tmpcommands[i := Instruction(cur.Label, Goto, list[j].labelfrom, "", "")];
      }
      assert SweepState(tmpcommands, wasChanged, replacements) == GotoRedirectStep(list, sj, i, j);
      if wasChanged {
        var purged := RemoveReplaced(SweepState(tmpcommands, wasChanged, replacements), i);
        if purged.OutOfRange? {
          return purged;
        }
        tmpcommands := purged.value.tmp;
      }
      j := j + 1;
    }
    r := Ok(SweepState(tmpcommands, wasChanged, replacements));
  }

  /** The ifgoto branch at position i: the j loop over the table, each
      iteration redirecting the ifgoto at i when row j matches its target. */
  method IfGotoBranch(list: seq<GtotScaner>, s: SweepState, i: nat) returns (r: SweepState)
    requires i < |s.tmp|
    ensures r == IfGotoScan(list, s, i, 0)
    ensures |r.tmp| == |s.tmp|
  {
    var tmpcommands, wasChanged, replacements := s.tmp, s.wasChanged, s.replacements;
    var j := 0;
    while j < |list|
      invariant j <= |list| && |tmpcommands| == |s.tmp|
      invariant IfGotoScan(list, SweepState(tmpcommands, wasChanged, replacements), i, j) == IfGotoScan(list, s, i, 0)
    {
      ghost var sj := SweepState(tmpcommands, wasChanged, replacements);
      var cur := tmpcommands[i];
      if list[j].jumpLabel == cur.Argument2 && list[j].labelfrom != cur.Argument2 {
        wasChanged := true;
        replacements := replacements + [Replacement(cur.Argument2, list[j].labelfrom)];
        tmpcommands := tmpcommands[i := Instruction(cur.Label, IfGoto, cur.Argument1, list[j].labelfrom, "")];
      }
      assert SweepState(tmpcommands, wasChanged, replacements) == IfGotoRedirectStep(list, sj, i, j);
      j := j + 1;
    }
    r := SweepState(tmpcommands, wasChanged, replacements);
  }

  /** The first loop: copy the commands and record one row per jump. */
  method BuildTable(commands: seq<Instruction>) returns (list: seq<GtotScaner>, tmpcommands: seq<Instruction>)
    ensures tmpcommands == commands
    ensures list == ScanTable(commands)
  {
    list, tmpcommands := [], [];
    var i := 0;
    while i < |commands|
      invariant i <= |commands|
      invariant tmpcommands == commands[..i]
      invariant list == ScanTable(commands[..i])
    {
      assert commands[..i + 1][..i] == commands[..i];
      tmpcommands := tmpcommands + [commands[i]];
      if IsGoto(commands[i]) {
        list := list + [GtotScaner(i, commands[i].Label, commands[i].Argument1)];
      } else if IsIfGoto(commands[i]) {
        list := list + [GtotScaner(i, commands[i].Label, commands[i].Argument2)];
      }
      i := i + 1;
    }
    assert commands[..i] == commands;
  }

  /** The second loop: visit every position of the working list, threading
      each goto and ifgoto through the table. */
  method RewriteJumps(list: seq<GtotScaner>, tmpcommands: seq<Instruction>) returns (r: Outcome)
    ensures r == Outer(list, SweepState(tmpcommands, false, []), 0)
  {
    var s := SweepState(tmpcommands, false, []);
    var i := 0;
    while i < |s.tmp|
      invariant Outer(list, s, i) == Outer(list, SweepState(tmpcommands, false, []), 0)
      decreases |s.tmp| - i
    {
      if IsGoto(s.tmp[i]) {
        var scanned := GotoBranch(list, s, i);
        if scanned.OutOfRange? {
          return IndexOutOfRange(scanned.index);
        }
        s := scanned.value;
      } else if IsIfGoto(s.tmp[i]) {
        s := IfGotoBranch(list, s, i);
      }
      i := i + 1;
    }
    return Done(s.wasChanged, s.tmp);
  }

  /** One sweep of goto-to-goto threading. Reading the working list past its
      end, which the source's indexer rejects with an exception, is the
      outcome IndexOutOfRange. */
  method ReplaceGotoToGoto(commands: seq<Instruction>) returns (r: Outcome)
    ensures r == Sweep(commands)
    ensures r.Done? ==> (r.wasChanged <==> !NothingToThread(commands))
    ensures r.Done? && !r.wasChanged ==> r.instructions == commands
    ensures r.Done? ==>
              |r.instructions| <= |commands|
              && Labels(r.instructions) <= Labels(commands)
              && JumpTargets(r.instructions) <= JumpTargets(commands)
    ensures r.IndexOutOfRange? ==> !NothingToThread(commands)
  {
    var list, tmpcommands := BuildTable(commands);
    r := RewriteJumps(list, tmpcommands);
    SweepChangeIff(commands);
    ghost var pos := SweepOutputShape(commands);
  }
}
