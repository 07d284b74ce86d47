/**
 Laws of the state reconciler (scripts/aipos-state-reconcile.js): one line more per change, everything else in place,
 control keys alone, nothing left to do on a second run; and the table of merged branches keeps the largest number.
 */
module ReconcileLaws {
  import opened Prelude
  import opened Text
  import opened Reconcile

  // ----- The inserted lines -----

  lemma InsertedLines(pr: nat)
    ensures !IsTopLevelKey(COMPLETED_LINE) && !IsTopLevelKey(MergedLine(pr))
    ensures StartsWith(MergedLine(pr), MERGED_LABEL)
    ensures NoNewline(COMPLETED_LINE) && NoNewline(MergedLine(pr))
  {
    assert MergedLine(pr)[0] == ' ' && COMPLETED_LINE[0] == ' ';
    assert MergedLine(pr) == MERGED_LABEL + (" " + Decimal(pr));
  }

  /** A block has a line with a label exactly when the search for it succeeds. */
  lemma LabelFound(lines: seq<string>, prefix: string, k: nat)
    requires k < |lines| && StartsWith(lines[k], prefix)
    ensures IndexOfLabel(lines, prefix) <= k
  {
  }

  // ----- Blocks -----

  lemma TransformedIsBlock(b: Block, merged: Merged)
    requires IsBlock(b)
    ensures IsBlock(TransformBlock(b, merged))
  {
    hide EditOf, IsTopLevelKey;
    var edit := BlockEdit(b, merged);
    if edit.Some? {
      InsertedLines(edit.value.change.pr);
    }
  }

  /** A transformed block carries its merged number, so it is not an entry to complete any more. */
  lemma TransformedIsDone(b: Block, merged: Merged)
    ensures BlockEdit(TransformBlock(b, merged), merged).None?
  {
    hide IsTopLevelKey, InFlight, FieldValue;
    var edit := BlockEdit(b, merged);
    if edit.Some? {
      var body := ApplyEdit(b.body, edit);
      InsertedLines(edit.value.change.pr);
      assert body[edit.value.at + 1] == MergedLine(edit.value.change.pr);
      LabelFound(body, MERGED_LABEL, edit.value.at + 1);
    }
  }

  /** Transforming a list of blocks keeps its length and its keys, one block at a time. */
  lemma {:induction false} TransformedAt(blocks: seq<Block>, merged: Merged, i: nat)
    requires i < |blocks|
    ensures |TransformBlocks(blocks, merged)| == |blocks|
    ensures TransformBlocks(blocks, merged)[i] == TransformBlock(blocks[i], merged)
  {
    hide TransformBlock;
    if i > 0 {
      TransformedAt(blocks[1..], merged, i - 1);
    } else {
      TransformedLength(blocks[1..], merged);
    }
  }

  lemma {:induction false} TransformedLength(blocks: seq<Block>, merged: Merged)
    ensures |TransformBlocks(blocks, merged)| == |blocks|
  {
    if |blocks| > 0 {
      TransformedLength(blocks[1..], merged);
    }
  }

  lemma TransformedAreBlocks(blocks: seq<Block>, merged: Merged)
    requires AreBlocks(blocks)
    ensures AreBlocks(TransformBlocks(blocks, merged))
  {
    TransformedLength(blocks, merged);
    hide IsBlock, TransformBlock, TransformBlocks;
    forall i | 0 <= i < |blocks| ensures IsBlock(TransformBlocks(blocks, merged)[i]) {
      TransformedAt(blocks, merged, i);
      TransformedIsBlock(blocks[i], merged);
    }
  }

  /** `after` is `before` with the status line at `at` replaced by the two new lines. */
  predicate StatusReplaced(before: seq<string>, after: seq<string>, at: nat, pr: nat) {
    && at < |before| && StartsWith(before[at], STATUS_LABEL)
    && after == before[..at] + ["  status: COMPLETED", "  merged_pr: " + Decimal(pr)] + before[at + 1..]
  }

  lemma MergedLineIs(pr: nat)
    ensures MergedLine(pr) == "  merged_pr: " + Decimal(pr)
  {
    hide Decimal;
  }

  /** Every block comes out as it was, or with its status line replaced by two lines and nothing else touched. */
  lemma BlocksKeepOtherLines(blocks: seq<Block>, merged: Merged, i: nat)
    requires i < |blocks|
    ensures |TransformBlocks(blocks, merged)| == |blocks|
    ensures var before, after := blocks[i], TransformBlocks(blocks, merged)[i];
      && after.keyLine == before.keyLine
      && (after.body == before.body || exists at, pr :: StatusReplaced(before.body, after.body, at, pr))
    ensures KeyOf(blocks[i].keyLine) in CONTROL_KEYS || !StartsWith(KeyOf(blocks[i].keyLine), "current_") ==>
      TransformBlocks(blocks, merged)[i] == blocks[i]
  {
    TransformedAt(blocks, merged, i);
    hide TransformBlocks, InFlight, FieldValue, KeyOf, MergedLine, StartsWith;
    var edit := BlockEdit(blocks[i], merged);
    if edit.Some? {
      MergedLineIs(edit.value.change.pr);
      assert StatusReplaced(blocks[i].body, TransformBlock(blocks[i], merged).body, edit.value.at,
        edit.value.change.pr);
    }
  }

  /** The text grows by one line per change. */
  lemma {:induction false} BlocksGrow(blocks: seq<Block>, merged: Merged)
    ensures |Flatten(TransformBlocks(blocks, merged))| == |Flatten(blocks)| + |AllChanges(blocks, merged)|
  {
    if |blocks| > 0 {
      hide EditOf;
      BlocksGrow(blocks[1..], merged);
      assert |BlockLines(TransformBlock(blocks[0], merged))| ==
        |BlockLines(blocks[0])| + |BlockChanges(blocks[0], merged)|;
    }
  }

  predicate Makes(b: Block, merged: Merged, change: Change) {
    BlockEdit(b, merged).Some? && BlockEdit(b, merged).value.change == change
  }

  /** Every reported change is an entry of the text whose branch is merged under the reported number. */
  lemma {:induction false} ChangesAreGrounded(blocks: seq<Block>, merged: Merged, c: nat)
    requires c < |AllChanges(blocks, merged)|
    ensures exists i :: 0 <= i < |blocks| && Makes(blocks[i], merged, AllChanges(blocks, merged)[c])
  {
    hide EditOf;
    var first := BlockChanges(blocks[0], merged);
    if c < |first| {
      assert Makes(blocks[0], merged, AllChanges(blocks, merged)[c]);
    } else {
      ChangesAreGrounded(blocks[1..], merged, c - |first|);
      var i :| 0 <= i < |blocks[1..]| && Makes(blocks[1..][i], merged, AllChanges(blocks[1..], merged)[c - |first|]);
      assert blocks[i + 1] == blocks[1..][i];
    }
  }

  lemma {:induction false} NothingLeftInBlocks(blocks: seq<Block>, merged: Merged)
    requires forall i :: 0 <= i < |blocks| ==> BlockEdit(blocks[i], merged).None?
    ensures TransformBlocks(blocks, merged) == blocks && AllChanges(blocks, merged) == []
  {
    if |blocks| > 0 {
      hide EditOf;
      NothingLeftInBlocks(blocks[1..], merged);
      assert blocks == [blocks[0]] + blocks[1..];
    }
  }

  // ----- The whole text -----

  lemma {:induction false} NextKeyOfConcat(head: seq<string>, tail: seq<string>)
    requires forall i :: 0 <= i < |head| ==> !IsTopLevelKey(head[i])
    requires |tail| > 0 ==> IsTopLevelKey(tail[0])
    ensures NextKey(head + tail) == |head|
  {
    hide IsTopLevelKey;
    NextKeyIs(head + tail, |head|);
  }

  /** The result splits into the same preamble and the transformed blocks. */
  lemma ResultBlocks(lines: seq<string>, merged: Merged)
    ensures var n := NextKey(lines); var after := ReconcileLines(lines, merged).lines;
      var transformed := TransformBlocks(Blocks(lines[n..]), merged);
      && NextKey(after) == n && after[..n] == lines[..n] && after[n..] == Flatten(transformed)
      && (|after[n..]| > 0 ==> IsTopLevelKey(after[n..][0])) && Blocks(after[n..]) == transformed
  {
    var n := NextKey(lines);
    var blocks := Blocks(lines[n..]);
    BlocksAreBlocks(lines[n..]);
    TransformedAreBlocks(blocks, merged);
    var transformed := TransformBlocks(blocks, merged);
    BlocksOfFlatten(transformed);
    hide IsTopLevelKey, Flatten, TransformBlocks, AreBlocks, Blocks, NextKey;
    NextKeyOfConcat(lines[..n], Flatten(transformed));
    var after := lines[..n] + Flatten(transformed);
    assert after[n..] == Flatten(transformed);
  }

  /** One line more per change. */
  lemma ReconcileGrows(lines: seq<string>, merged: Merged)
    ensures var r := ReconcileLines(lines, merged); |r.lines| == |lines| + |r.changed|
  {
    var n := NextKey(lines);
    BlocksAreBlocks(lines[n..]);
    BlocksGrow(Blocks(lines[n..]), merged);
  }

  /** A second run finds nothing to change. */
  lemma ReconcileIsIdempotent(lines: seq<string>, merged: Merged)
    ensures var once := ReconcileLines(lines, merged).lines;
      ReconcileLines(once, merged) == Reconciled(once, [])
  {
    var once, n := ReconcileLines(lines, merged).lines, NextKey(lines);
    var blocks := Blocks(lines[n..]);
    var transformed := TransformBlocks(blocks, merged);
    ResultBlocks(lines, merged);
    TransformedLength(blocks, merged);
    hide TransformBlocks, TransformBlock, Flatten, BlockEdit, IsTopLevelKey, Blocks, NextKey, AllChanges;
    forall i | 0 <= i < |transformed| ensures BlockEdit(transformed[i], merged).None? {
      TransformedAt(blocks, merged, i);
      TransformedIsDone(blocks[i], merged);
    }
    NothingLeftInBlocks(transformed, merged);
  }

  // ----- Text -----

  function ReconcileText(text: string, merged: Merged): string {
    JoinLines(ReconcileLines(SplitLines(text), merged).lines)
  }

  method ReconcileWholeText(text: string, merged: Merged) returns (result: string, changed: seq<Change>)
    ensures result == ReconcileText(text, merged)
    ensures changed == ReconcileLines(SplitLines(text), merged).changed
  {
    var r := new Reconciler(merged, text);
    r.Reconcile();
    result, changed := JoinLines(r.lines), r.changed;
  }

  ghost predicate NoNewlines(lines: seq<string>) {
    forall i :: 0 <= i < |lines| ==> NoNewline(lines[i])
  }

  lemma NoNewlinesConcat(a: seq<string>, b: seq<string>)
    ensures NoNewlines(a + b) <==> NoNewlines(a) && NoNewlines(b)
  {
    hide NoNewline;
    assert forall i :: 0 <= i < |a| ==> a[i] == (a + b)[i];
    assert forall i :: 0 <= i < |b| ==> b[i] == (a + b)[|a| + i];
  }

  lemma {:induction false} BlocksNoNewline(blocks: seq<Block>, merged: Merged)
    requires NoNewlines(Flatten(blocks))
    ensures NoNewlines(Flatten(TransformBlocks(blocks, merged)))
  {
    hide NoNewlines, TransformBlock, BlockLines;
    if |blocks| > 0 {
      NoNewlinesConcat(BlockLines(blocks[0]), Flatten(blocks[1..]));
      BlocksNoNewline(blocks[1..], merged);
      BlockNoNewline(blocks[0], merged);
      NoNewlinesConcat(BlockLines(TransformBlock(blocks[0], merged)), Flatten(TransformBlocks(blocks[1..], merged)));
    }
  }

  lemma BlockNoNewline(b: Block, merged: Merged)
    requires NoNewlines(BlockLines(b))
    ensures NoNewlines(BlockLines(TransformBlock(b, merged)))
  {
    hide EditOf, NoNewline;
    assert forall i :: 0 <= i < |b.body| ==> b.body[i] == BlockLines(b)[i + 1];
    assert BlockLines(b)[0] == b.keyLine;
    var edit := BlockEdit(b, merged);
    if edit.Some? {
      InsertedLines(edit.value.change.pr);
      hide MergedLine;
    }
  }

  lemma ReconciledNoNewline(lines: seq<string>, merged: Merged)
    requires NoNewlines(lines)
    ensures NoNewlines(ReconcileLines(lines, merged).lines)
  {
    hide NoNewlines, Blocks, Flatten, TransformBlocks, AreBlocks;
    var n := NextKey(lines);
    BlocksAreBlocks(lines[n..]);
    assert lines == lines[..n] + lines[n..];
    NoNewlinesConcat(lines[..n], lines[n..]);
    BlocksNoNewline(Blocks(lines[n..]), merged);
    NoNewlinesConcat(lines[..n], Flatten(TransformBlocks(Blocks(lines[n..]), merged)));
  }

  /** Reconciling a reconciled text leaves it as it is. */
  lemma ReconcileTextIsIdempotent(text: string, merged: Merged)
    ensures ReconcileText(ReconcileText(text, merged), merged) == ReconcileText(text, merged)
    ensures ReconcileLines(SplitLines(ReconcileText(text, merged)), merged).changed == []
  {
    var lines := SplitLines(text);
    var once := ReconcileLines(lines, merged).lines;
    ReconcileGrows(lines, merged);
    ReconciledNoNewline(lines, merged);
    hide ReconcileLines, SplitLines, NoNewline;
    SplitOfJoin(once);
    ReconcileIsIdempotent(lines, merged);
  }

  // ----- The table of merged branches -----

  function UpToTab(s: string): string {
    if |s| == 0 || s[0] == '\t' then "" else [s[0]] + UpToTab(s[1..])
  }

  function AfterTab(s: string): string {
    if |s| == 0 then "" else if s[0] == '\t' then s[1..] else AfterTab(s[1..])
  }

  /** `^[1-9][0-9]{0,6}$` */
  predicate IsPrNumber(s: string) {
    1 <= |s| <= 7 && AllDigits(s) && s[0] != '0'
  }

  datatype Entry = Entry(branch: string, number: nat)

  function EntryOf(line: string): Option<Entry> {
    var branch, number := UpToTab(line), UpToTab(AfterTab(line));
    if branch == "" || !IsPrNumber(number) then None else Some(Entry(branch, NumberOf(number)))
  }

  /** `m` holds, for every branch that has a valid line, the largest number of its lines. */
  ghost predicate IsLargest(lines: seq<string>, m: Merged) {
    && (forall i :: 0 <= i < |lines| && EntryOf(lines[i]).Some? ==>
      var e := EntryOf(lines[i]).value; e.branch in m && e.number <= m[e.branch])
    && (forall b :: b in m ==> exists i :: 0 <= i < |lines| && EntryOf(lines[i]) == Some(Entry(b, m[b])))
  }

  method ParseMerged(text: string) returns (merged: Merged)
    ensures IsLargest(SplitLines(ReplaceCrLf(text)), merged)
  {
    hide EntryOf;
    var lines := SplitLines(ReplaceCrLf(text));
    merged := map[];
    for i := 0 to |lines|
      invariant IsLargest(lines[..i], merged)
    {
      ghost var before := merged;
      var entry := EntryOf(lines[i]);
      if entry.Some? && (entry.value.branch !in merged || merged[entry.value.branch] < entry.value.number) {
        merged := merged[entry.value.branch := entry.value.number];
      }
      LargestGrows(lines, i, before, merged);
    }
    assert lines[..|lines|] == lines;
  }

  lemma LargestGrows(lines: seq<string>, i: nat, before: Merged, after: Merged)
    requires i < |lines| && IsLargest(lines[..i], before)
    requires var e := EntryOf(lines[i]);
      after == if e.Some? && (e.value.branch !in before || before[e.value.branch] < e.value.number)
        then before[e.value.branch := e.value.number] else before
    ensures IsLargest(lines[..i + 1], after)
  {
    hide EntryOf;
    var done := lines[..i + 1];
    assert done == lines[..i] + [lines[i]];
    forall b | b in after ensures exists k :: 0 <= k < |done| && EntryOf(done[k]) == Some(Entry(b, after[b])) {
      if b in before && after[b] == before[b] {
        var k :| 0 <= k < i && EntryOf(lines[..i][k]) == Some(Entry(b, before[b]));
        assert done[k] == lines[..i][k];
      } else {
        assert EntryOf(done[i]) == Some(Entry(b, after[b]));
      }
    }
    forall k | 0 <= k < |done| && EntryOf(done[k]).Some?
      ensures var e := EntryOf(done[k]).value; e.branch in after && e.number <= after[e.branch]
    {
      if k < i {
        assert done[k] == lines[..i][k];
      }
    }
  }

  /** The table does not depend on the order or repetition of lines. */
  lemma MergedTableIsUnique(a: seq<string>, b: seq<string>, m: Merged, n: Merged)
    requires IsLargest(a, m) && IsLargest(b, n)
    requires forall line :: line in a <==> line in b
    ensures m == n
  {
    TableBelow(a, b, m, n);
    TableBelow(b, a, n, m);
  }

  lemma TableBelow(a: seq<string>, b: seq<string>, m: Merged, n: Merged)
    requires IsLargest(a, m) && IsLargest(b, n)
    requires forall line :: line in a ==> line in b
    ensures forall k :: k in m ==> k in n && m[k] <= n[k]
  {
    hide EntryOf;
    forall k | k in m ensures k in n && m[k] <= n[k] {
      var i :| 0 <= i < |a| && EntryOf(a[i]) == Some(Entry(k, m[k]));
      assert a[i] in b;
      var j :| 0 <= j < |b| && b[j] == a[i];
    }
  }
}
