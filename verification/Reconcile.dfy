/**
 `reconcileText` (scripts/aipos-state-reconcile.js): mark the state entries whose branch was merged as COMPLETED by
 splicing one line into their block while the scan goes on. The specification splits the lines at top-level keys and
 maps one transformation over the blocks; the splicing loop is proved to compute it.
 */
module Reconcile {
  import opened Prelude
  import opened Text

  const CONTROL_KEYS := {
    "current_non_live_work_order", "claimed_state", "verified_state", "next", "in_progress", "verification",
    "continuity", "human_authority", "restricted_live_authority", "serialized_human_environment_gate"
  }

  // ----- What a line is -----

  predicate IsKeyStart(c: char) {
    'A' <= c <= 'Z' || 'a' <= c <= 'z' || c == '_'
  }

  predicate IsKeyChar(c: char) {
    IsKeyStart(c) || IsDigit(c)
  }

  function KeyRun(line: string): (n: nat)
    ensures n <= |line|
  {
    if |line| == 0 || !IsKeyChar(line[0]) then 0 else 1 + KeyRun(line[1..])
  }

  /** `^([A-Za-z_][A-Za-z0-9_]*):` */
  predicate IsTopLevelKey(line: string) {
    |line| > 0 && IsKeyStart(line[0]) && KeyRun(line) < |line| && line[KeyRun(line)] == ':'
  }

  function KeyOf(line: string): string {
    line[..KeyRun(line)]
  }

  /** `replace(/^["']|["']$/g, "")` */
  function Unquote(s: string): string {
    var rest := if |s| > 0 && s[0] in {'"', '\''} then s[1..] else s;
    if |rest| > 0 && rest[|rest| - 1] in {'"', '\''} then rest[..|rest| - 1] else rest
  }

  /** The value of a field line, without its label, quotes and surrounding space. */
  function FieldValue(line: string, prefix: string): string
    requires StartsWith(line, prefix)
  {
    Trim(Unquote(TrimStart(line[|prefix|..])))
  }

  const BRANCH_LABEL := "  branch:"
  const STATUS_LABEL := "  status:"
  const MERGED_LABEL := "  merged_pr:"
  const COMPLETED_LINE := "  status: COMPLETED"

  predicate IsStatusWord(s: string) {
    forall i :: 0 <= i < |s| ==> 'A' <= s[i] <= 'Z' || IsDigit(s[i]) || s[i] == '_'
  }

  /** The statuses an entry may be completed from. */
  predicate InFlight(status: string) {
    || status in {"READY_FOR_REVIEW", "IN_PROGRESS", "VERIFYING"}
    || (IsStatusWord(status) &&
        (|| StartsWith(status, "IMPLEMENTED_LOCAL") || StartsWith(status, "CANDIDATE")
          || StartsWith(status, "LOCAL_VALIDATED")
         || Contains(status, "PENDING")))
  }

  // ----- One block -----

  type Merged = map<string, nat>

  datatype Change = Change(key: string, from: string, pr: nat)

  function IndexOfLabel(lines: seq<string>, prefix: string): (i: nat)
    ensures i <= |lines|
    ensures i < |lines| ==> StartsWith(lines[i], prefix)
    ensures forall k :: 0 <= k < i ==> !StartsWith(lines[k], prefix)
  {
    if |lines| == 0 || StartsWith(lines[0], prefix) then 0 else 1 + IndexOfLabel(lines[1..], prefix)
  }

  /** Where the status line of a block is replaced, and the change made, if the block is an entry to complete. */
  datatype Edit = Edit(at: nat, change: Change)

  function EditOf(key: string, body: seq<string>, merged: Merged): (edit: Option<Edit>)
    ensures edit.Some? ==> edit.value.at < |body|
  {
    if !StartsWith(key, "current_") || key in CONTROL_KEYS then None
    else if IndexOfLabel(body, MERGED_LABEL) < |body| then None
    else
      var branchAt, statusAt := IndexOfLabel(body, BRANCH_LABEL), IndexOfLabel(body, STATUS_LABEL);
      if branchAt == |body| || statusAt == |body| then None
      else
        var branch, status := FieldValue(body[branchAt], BRANCH_LABEL), FieldValue(body[statusAt], STATUS_LABEL);
        if branch !in merged || !InFlight(status) then None
        else Some(Edit(statusAt, Change(key, status, merged[branch])))
  }

  function MergedLine(pr: nat): string {
    MERGED_LABEL + " " + Decimal(pr)
  }

  function ApplyEdit(body: seq<string>, edit: Option<Edit>): seq<string>
    requires edit.Some? ==> edit.value.at < |body|
  {
    if edit.None? then body
    else body[..edit.value.at] + [COMPLETED_LINE, MergedLine(edit.value.change.pr)] + body[edit.value.at + 1..]
  }

  /** A block is a top-level key line and the lines up to the next one. */
  datatype Block = Block(keyLine: string, body: seq<string>)

  function BlockLines(b: Block): seq<string> {
    [b.keyLine] + b.body
  }

  function BlockEdit(b: Block, merged: Merged): Option<Edit> {
    EditOf(KeyOf(b.keyLine), b.body, merged)
  }

  function TransformBlock(b: Block, merged: Merged): Block {
    b.(body := ApplyEdit(b.body, BlockEdit(b, merged)))
  }

  function BlockChanges(b: Block, merged: Merged): seq<Change> {
    if BlockEdit(b, merged).None? then [] else [BlockEdit(b, merged).value.change]
  }

  // ----- The whole text, as blocks -----

  function NextKey(lines: seq<string>): (n: nat)
    ensures n <= |lines|
    ensures forall i :: 0 <= i < n ==> !IsTopLevelKey(lines[i])
    ensures n < |lines| ==> IsTopLevelKey(lines[n])
  {
    if |lines| == 0 || IsTopLevelKey(lines[0]) then 0 else 1 + NextKey(lines[1..])
  }

  /** The blocks of lines that start at a top-level key. */
  function Blocks(lines: seq<string>): seq<Block>
    requires |lines| > 0 ==> IsTopLevelKey(lines[0])
    decreases |lines|
  {
    if |lines| == 0 then []
    else
      var n := NextKey(lines[1..]);
      [Block(lines[0], lines[1..][..n])] + Blocks(lines[1..][n..])
  }

  function Flatten(blocks: seq<Block>): seq<string> {
    if |blocks| == 0 then [] else BlockLines(blocks[0]) + Flatten(blocks[1..])
  }

  function TransformBlocks(blocks: seq<Block>, merged: Merged): seq<Block> {
    if |blocks| == 0 then [] else [TransformBlock(blocks[0], merged)] + TransformBlocks(blocks[1..], merged)
  }

  function AllChanges(blocks: seq<Block>, merged: Merged): seq<Change> {
    if |blocks| == 0 then [] else BlockChanges(blocks[0], merged) + AllChanges(blocks[1..], merged)
  }

  datatype Reconciled = Reconciled(lines: seq<string>, changed: seq<Change>)

  /** Split at top-level keys, transform every block, concatenate. */
  function ReconcileLines(lines: seq<string>, merged: Merged): Reconciled {
    var n := NextKey(lines);
    var blocks := Blocks(lines[n..]);
    Reconciled(lines[..n] + Flatten(TransformBlocks(blocks, merged)), AllChanges(blocks, merged))
  }

  // ----- Blocks and lines -----

  lemma {:induction false} NextKeyIs(lines: seq<string>, n: nat)
    requires n <= |lines| && (forall i :: 0 <= i < n ==> !IsTopLevelKey(lines[i]))
    requires n < |lines| ==> IsTopLevelKey(lines[n])
    ensures NextKey(lines) == n
  {
    if n > 0 {
      NextKeyIs(lines[1..], n - 1);
    }
  }

  /** The first block ends where the next top-level key is. */
  lemma FirstBlock(lines: seq<string>, end: nat)
    requires 0 < end <= |lines| && IsTopLevelKey(lines[0])
    requires forall i :: 0 < i < end ==> !IsTopLevelKey(lines[i])
    requires end < |lines| ==> IsTopLevelKey(lines[end])
    ensures Blocks(lines) == [Block(lines[0], lines[1..end])] + Blocks(lines[end..])
  {
    hide IsTopLevelKey;
    NextKeyIs(lines[1..], end - 1);
    assert lines[1..][..end - 1] == lines[1..end];
    assert lines[1..][end - 1..] == lines[end..];
  }

  ghost predicate IsBlock(b: Block) {
    IsTopLevelKey(b.keyLine) && forall i :: 0 <= i < |b.body| ==> !IsTopLevelKey(b.body[i])
  }

  ghost predicate AreBlocks(blocks: seq<Block>) {
    forall i :: 0 <= i < |blocks| ==> IsBlock(blocks[i])
  }

  lemma {:induction false} BlocksAreBlocks(lines: seq<string>)
    requires |lines| > 0 ==> IsTopLevelKey(lines[0])
    ensures AreBlocks(Blocks(lines)) && Flatten(Blocks(lines)) == lines
    decreases |lines|
  {
    if |lines| > 0 {
      hide IsTopLevelKey, Blocks, Flatten, AreBlocks, IsBlock;
      var end := FirstBlockEnd(lines);
      BlocksAreBlocks(lines[end..]);
      var first, rest := Block(lines[0], lines[1..end]), Blocks(lines[end..]);
      ConsBlocks(first, rest);
      assert Flatten(Blocks(lines)) == BlockLines(first) + lines[end..];
      FirstBlockLines(lines, end);
    }
  }

  lemma FirstBlockEnd(lines: seq<string>) returns (end: nat)
    requires |lines| > 0
    requires IsTopLevelKey(lines[0])
    ensures 0 < end <= |lines| && (end < |lines| ==> IsTopLevelKey(lines[end]))
    ensures IsBlock(Block(lines[0], lines[1..end]))
      && Blocks(lines) == [Block(lines[0], lines[1..end])] + Blocks(lines[end..])
  {
    hide IsTopLevelKey, Blocks, NextKey;
    end := NextKey(lines[1..]) + 1;
    forall i | 0 < i < end ensures !IsTopLevelKey(lines[i]) {
      assert lines[1..][i - 1] == lines[i];
    }
    assert end < |lines| ==> lines[1..][end - 1] == lines[end];
    FirstBlock(lines, end);
  }

  lemma FirstBlockLines(lines: seq<string>, end: nat)
    requires 0 < end <= |lines|
    ensures BlockLines(Block(lines[0], lines[1..end])) + lines[end..] == lines
  {
  }

  lemma ConsBlocks(b: Block, blocks: seq<Block>)
    requires IsBlock(b) && AreBlocks(blocks)
    ensures AreBlocks([b] + blocks) && Flatten([b] + blocks) == BlockLines(b) + Flatten(blocks)
  {
    hide IsBlock;
    assert ([b] + blocks)[1..] == blocks;
  }

  lemma FlattenStartsWithKey(blocks: seq<Block>)
    requires AreBlocks(blocks)
    ensures |Flatten(blocks)| > 0 ==> IsTopLevelKey(Flatten(blocks)[0])
  {
  }

  /** The first block of blocks laid out one after another. */
  lemma FlattenSplits(blocks: seq<Block>)
    requires AreBlocks(blocks) && |blocks| > 0
    ensures var lines, end := Flatten(blocks), 1 + |blocks[0].body|;
      && end <= |lines| && lines[0] == blocks[0].keyLine && lines[1..end] == blocks[0].body
      && lines[end..] == Flatten(blocks[1..])
      && IsTopLevelKey(lines[0]) && (forall i :: 0 < i < end ==> !IsTopLevelKey(lines[i]))
      && (end < |lines| ==> IsTopLevelKey(lines[end]))
  {
    hide IsTopLevelKey;
    var lines, end := Flatten(blocks), 1 + |blocks[0].body|;
    assert AreBlocks(blocks[1..]);
    FlattenStartsWithKey(blocks[1..]);
    assert lines == BlockLines(blocks[0]) + Flatten(blocks[1..]);
    assert forall i :: 0 < i < end ==> lines[i] == blocks[0].body[i - 1];
  }

  /** Laid out and split again, blocks come back. */
  lemma {:induction false} BlocksOfFlatten(blocks: seq<Block>)
    requires AreBlocks(blocks)
    ensures |Flatten(blocks)| > 0 ==> IsTopLevelKey(Flatten(blocks)[0])
    ensures Blocks(Flatten(blocks)) == blocks
  {
    hide IsTopLevelKey, Flatten, Blocks;
    if |blocks| > 0 {
      FlattenSplits(blocks);
      assert AreBlocks(blocks[1..]);
      BlocksOfFlatten(blocks[1..]);
      FirstBlock(Flatten(blocks), 1 + |blocks[0].body|);
      assert blocks[0] == Block(blocks[0].keyLine, blocks[0].body);
      assert blocks == [blocks[0]] + blocks[1..];
    } else {
      NothingFlattened(blocks);
    }
  }

  lemma NothingFlattened(blocks: seq<Block>)
    requires blocks == []
    ensures Flatten(blocks) == [] && Blocks([]) == []
  {
  }

  /** Transforming a text block by block: the first block on its own, then the rest. */
  lemma PendingSplits(lines: seq<string>, end: nat, merged: Merged)
    requires 0 < end <= |lines| && IsTopLevelKey(lines[0])
    requires forall i :: 0 < i < end ==> !IsTopLevelKey(lines[i])
    requires end < |lines| ==> IsTopLevelKey(lines[end])
    ensures var first := Block(lines[0], lines[1..end]); var rest := Blocks(lines[end..]);
      && Flatten(TransformBlocks(Blocks(lines), merged)) ==
        BlockLines(TransformBlock(first, merged)) + Flatten(TransformBlocks(rest, merged))
      && AllChanges(Blocks(lines), merged) == BlockChanges(first, merged) + AllChanges(rest, merged)
  {
    FirstBlock(lines, end);
    hide Blocks, IsTopLevelKey, TransformBlock, BlockChanges, BlockLines;
  }

  /** The lines after the edit of the block that starts at `start`, as one splice. */
  function Splice(lines: seq<string>, start: nat, edit: Option<Edit>): seq<string>
    requires edit.Some? ==> start + 1 + edit.value.at < |lines|
  {
    if edit.None? then lines
    else
      var at := start + 1 + edit.value.at;
      lines[..at] + [COMPLETED_LINE, MergedLine(edit.value.change.pr)] + lines[at + 1..]
  }

  /** What flushing the block from `start` to `end` leaves. */
  function Flushed(lines: seq<string>, start: int, end: int, changed: seq<Change>, merged: Merged): Reconciled
    requires -1 <= start < end <= |lines|
  {
    if start < 0 then Reconciled(lines, changed)
    else
      var edit := EditOf(KeyOf(lines[start]), lines[start + 1..end], merged);
      if edit.None? then Reconciled(lines, changed)
      else Reconciled(Splice(lines, start, edit), changed + [edit.value.change])
  }

  /** Splicing the status line inside the whole text transforms its block and nothing else. */
  lemma FlushTransformsBlock(lines: seq<string>, start: nat, end: nat, changed: seq<Change>, merged: Merged)
    requires start < end <= |lines|
    ensures var block := Block(lines[start], lines[start + 1..end]);
      Flushed(lines, start, end, changed, merged) == Reconciled(
        lines[..start] + BlockLines(TransformBlock(block, merged)) + lines[end..],
          changed + BlockChanges(block, merged))
  {
    hide EditOf, MergedLine, KeyOf;
    var block := Block(lines[start], lines[start + 1..end]);
    var edit := BlockEdit(block, merged);
    if edit.None? {
      SegmentParts(lines, start, end);
    } else {
      SpliceParts(lines, start, end, edit.value.at, [COMPLETED_LINE, MergedLine(edit.value.change.pr)]);
    }
  }

  lemma SegmentParts<T>(s: seq<T>, start: nat, end: nat)
    requires start < end <= |s|
    ensures s == s[..start] + ([s[start]] + s[start + 1..end]) + s[end..]
  {
  }

  /** A splice inside a segment, seen from the whole sequence. */
  lemma SpliceParts<T>(s: seq<T>, start: nat, end: nat, at: nat, middle: seq<T>)
    requires start < end <= |s| && at < end - start - 1
    ensures var body, k := s[start + 1..end], start + 1 + at;
      s[..k] + middle + s[k + 1..] == s[..start] + ([s[start]] + (body[..at] + middle + body[at + 1..])) + s[end..]
  {
    var body, k := s[start + 1..end], start + 1 + at;
    assert s[..k] == s[..start] + [s[start]] + body[..at];
    assert s[k + 1..] == body[at + 1..] + s[end..];
  }

  lemma AppendThree<T>(a: seq<T>, b: seq<T>, c: seq<T>)
    ensures a + (b + c) == (a + b) + c
  {
  }

  /** What a half-done text will become: everything before `start` is final, a block starts at `start`. */
  function PendingLines(lines: seq<string>, start: int, changed: seq<Change>, merged: Merged): Reconciled
    requires -1 <= start < |lines| && (start >= 0 ==> IsTopLevelKey(lines[start]))
  {
    if start < 0 then ReconcileLines(lines, merged)
    else
      var blocks := Blocks(lines[start..]);
      Reconciled(lines[..start] + Flatten(TransformBlocks(blocks, merged)), changed + AllChanges(blocks, merged))
  }

  /** The pending text, with the current block apart from the rest. */
  lemma PendingApart(lines: seq<string>, start: nat, end: nat, changed: seq<Change>, merged: Merged)
    requires start < end <= |lines| && IsTopLevelKey(lines[start]) && (end < |lines| ==> IsTopLevelKey(lines[end]))
    requires forall i :: start < i < end ==> !IsTopLevelKey(lines[i])
    ensures var block := Block(lines[start], lines[start + 1..end]); var rest := Blocks(lines[end..]);
      PendingLines(lines, start, changed, merged) == Reconciled(
        (lines[..start] + BlockLines(TransformBlock(block, merged))) + Flatten(TransformBlocks(rest, merged)),
        (changed + BlockChanges(block, merged)) + AllChanges(rest, merged))
  {
    hide Blocks, TransformBlocks, TransformBlock, BlockChanges, AllChanges, Flatten, BlockLines, IsTopLevelKey;
    var block, rest := Block(lines[start], lines[start + 1..end]), Blocks(lines[end..]);
    TailSplits(lines, start, end, merged);
    AppendThree(lines[..start], BlockLines(TransformBlock(block, merged)), Flatten(TransformBlocks(rest, merged)));
    AppendThree(changed, BlockChanges(block, merged), AllChanges(rest, merged));
  }

  lemma TailSplits(lines: seq<string>, start: nat, end: nat, merged: Merged)
    requires start < end <= |lines| && IsTopLevelKey(lines[start]) && (end < |lines| ==> IsTopLevelKey(lines[end]))
    requires forall i :: start < i < end ==> !IsTopLevelKey(lines[i])
    ensures var first := Block(lines[start], lines[start + 1..end]); var rest := Blocks(lines[end..]);
      && Flatten(TransformBlocks(Blocks(lines[start..]), merged)) ==
        BlockLines(TransformBlock(first, merged)) + Flatten(TransformBlocks(rest, merged))
      && AllChanges(Blocks(lines[start..]), merged) == BlockChanges(first, merged) + AllChanges(rest, merged)
  {
    hide Blocks, TransformBlocks, TransformBlock, BlockChanges, AllChanges, Flatten, BlockLines, IsTopLevelKey;
    var tail := lines[start..];
    assert forall i :: 0 < i < end - start ==> tail[i] == lines[start + i];
    PendingSplits(tail, end - start, merged);
    assert tail[1..end - start] == lines[start + 1..end];
    assert tail[end - start..] == lines[end..];
  }

  /** Completing the block at `start` and moving to the key at `end` does not change what the text will become. */
  lemma PendingMoves(lines: seq<string>, start: nat, end: nat, changed: seq<Change>, merged: Merged)
    requires start < end < |lines| && IsTopLevelKey(lines[start]) && IsTopLevelKey(lines[end])
    requires forall i :: start < i < end ==> !IsTopLevelKey(lines[i])
    ensures var block := Block(lines[start], lines[start + 1..end]);
      var done := lines[..start] + BlockLines(TransformBlock(block, merged));
      var after := done + lines[end..];
      && |done| < |after| && IsTopLevelKey(after[|done|])
      && PendingLines(after, |done|, changed + BlockChanges(block, merged), merged) ==
        PendingLines(lines, start, changed, merged)
  {
    PendingApart(lines, start, end, changed, merged);
    hide Blocks, TransformBlocks, TransformBlock, BlockChanges, AllChanges, Flatten, BlockLines, IsTopLevelKey;
    var block := Block(lines[start], lines[start + 1..end]);
    var done := lines[..start] + BlockLines(TransformBlock(block, merged));
    var after := done + lines[end..];
    assert after[|done|] == lines[end];
    assert after[|done|..] == lines[end..] && after[..|done|] == done;
  }

  /** Reaching the first top-level key. */
  lemma PendingStarts(lines: seq<string>, index: nat, changed: seq<Change>, merged: Merged)
    requires index < |lines| && IsTopLevelKey(lines[index]) && changed == []
    requires forall i :: 0 <= i < index ==> !IsTopLevelKey(lines[i])
    ensures PendingLines(lines, index, changed, merged) == PendingLines(lines, -1, changed, merged)
  {
    hide IsTopLevelKey;
    NextKeyIs(lines, index);
  }

  /** Flushing at a top-level key keeps what the text will become; the key has moved by what the block grew. */
  lemma FlushMoves(lines: seq<string>, start: int, end: nat, changed: seq<Change>, merged: Merged)
    requires -1 <= start < end < |lines| && IsTopLevelKey(lines[end]) && (start >= 0 ==> IsTopLevelKey(lines[start]))
    requires forall i :: start < i < end ==> !IsTopLevelKey(lines[i])
    requires start < 0 ==> changed == []
    ensures var after := Flushed(lines, start, end, changed, merged);
      var moved := end + |after.lines| - |lines|;
      && 0 <= moved < |after.lines| && IsTopLevelKey(after.lines[moved])
      && PendingLines(after.lines, moved, after.changed, merged) == PendingLines(lines, start, changed, merged)
  {
    hide IsTopLevelKey, PendingLines, TransformBlock, BlockChanges, BlockLines;
    if start >= 0 {
      FlushTransformsBlock(lines, start, end, changed, merged);
      PendingMoves(lines, start, end, changed, merged);
      hide Flushed;
    } else {
      PendingStarts(lines, end, changed, merged);
    }
  }

  /** The flush after the loop produces the result. */
  lemma FlushFinishes(lines: seq<string>, start: int, changed: seq<Change>, merged: Merged)
    requires -1 <= start < |lines| && (start >= 0 ==> IsTopLevelKey(lines[start]))
    requires forall i :: start < i < |lines| ==> !IsTopLevelKey(lines[i])
    requires start < 0 ==> changed == []
    ensures Flushed(lines, start, |lines|, changed, merged) == PendingLines(lines, start, changed, merged)
  {
    hide IsTopLevelKey, TransformBlock, BlockChanges, BlockLines, Flatten, TransformBlocks, AllChanges;
    if start < 0 {
      NextKeyIs(lines, |lines|);
      NoBlocks(merged);
      assert lines[|lines|..] == [] && lines[..|lines|] == lines;
    } else {
      PendingApart(lines, start, |lines|, changed, merged);
      FlushTransformsBlock(lines, start, |lines|, changed, merged);
      NoBlocks(merged);
      hide Flushed, PendingLines, Blocks;
      assert lines[|lines|..] == [];
    }
  }

  lemma NoBlocks(merged: Merged)
    ensures Flatten(TransformBlocks(Blocks([]), merged)) == [] && AllChanges(Blocks([]), merged) == []
  {
  }

  // ----- The splicing loop -----

  class Reconciler {
    const merged: Merged
    var lines: seq<string>
    var changed: seq<Change>
    /** Index of the current block's key line, or -1 before the first. */
    var start: int

    constructor (merged: Merged, text: string)
      ensures this.merged == merged && lines == SplitLines(text) && changed == [] && start == -1
    {
      this.merged := merged;
      lines, changed, start := SplitLines(text), [], -1;
    }

    /** Completes the block from `start` to `end` in place, if it is one to complete. */
    method Flush(end: int)
      requires -1 <= start < end <= |lines|
      modifies this`lines, this`changed
      ensures Reconciled(lines, changed) == Flushed(old(lines), start, end, old(changed), merged)
    {
      hide EditOf, MergedLine, KeyOf;
      if start < 0 { return; }
      var edit := EditOf(KeyOf(lines[start]), lines[start + 1..end], merged);
      if edit.None? { return; }
      var at := start + 1 + edit.value.at;
      lines := lines[..at] + [COMPLETED_LINE, MergedLine(edit.value.change.pr)] + lines[at + 1..];
      changed := changed + [edit.value.change];
    }

    /** What the text will become, given that everything before `start` is done. */
    ghost function Pending(): Reconciled
      requires -1 <= start < |lines| && (start >= 0 ==> IsTopLevelKey(lines[start]))
      reads this
    {
      PendingLines(lines, start, changed, merged)
    }

    /** Flushing the current block at a top-level key, and moving on to the block that starts there. */
    method NextBlock(index: nat) returns (moved: nat)
      requires -1 <= start < index < |lines|
      requires start >= 0 ==> IsTopLevelKey(lines[start])
      requires forall i :: start < i < index ==> !IsTopLevelKey(lines[i])
      requires IsTopLevelKey(lines[index])
      requires start < 0 ==> changed == []
      modifies this
      ensures start == moved < |lines| && IsTopLevelKey(lines[start])
      ensures |lines| - moved == old(|lines|) - index
      ensures Pending() == old(Pending())
    {
      hide IsTopLevelKey, PendingLines, Flushed;
      var before := |lines|;
      FlushMoves(lines, start, index, changed, merged);
      ghost var after := Flushed(lines, start, index, changed, merged);
      Flush(index);
      assert lines == after.lines && changed == after.changed;
      moved := index + (|lines| - before);
      start := moved;
    }

    method Reconcile()
      requires start == -1 && changed == [] && |lines| > 0
      modifies this
      ensures Reconciled(lines, changed) == ReconcileLines(old(lines), merged)
    {
      hide IsTopLevelKey, TransformBlock, BlockChanges;
      ghost var target := ReconcileLines(lines, merged);
      var index := 0;
      while index < |lines|
        invariant -1 <= start < index <= |lines| || (start == -1 && index == 0)
        invariant start < |lines|
        invariant start >= 0 ==> IsTopLevelKey(lines[start])
        invariant start < 0 ==> changed == []
        invariant forall i :: start < i < index ==> !IsTopLevelKey(lines[i])
        invariant Pending() == target
        decreases |lines| - index
      {
        if IsTopLevelKey(lines[index]) {
          index := NextBlock(index);
        }
        index := index + 1;
      }
      LastBlock();
    }

    /** The flush after the loop. */
    method LastBlock()
      requires -1 <= start < |lines|
      requires start >= 0 ==> IsTopLevelKey(lines[start])
      requires forall i :: start < i < |lines| ==> !IsTopLevelKey(lines[i])
      requires start < 0 ==> changed == []
      modifies this`lines, this`changed
      ensures Reconciled(lines, changed) == old(Pending())
    {
      hide IsTopLevelKey, PendingLines, Flushed;
      FlushFinishes(lines, start, changed, merged);
      Flush(|lines|);
    }
  }
}
