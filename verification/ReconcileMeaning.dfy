/**
 Which entries of the state file are completed (scripts/aipos-state-reconcile.js), said by their lines: what a key line
 is, what a field's value is, and when a block's status line is replaced.
 */
module ReconcileMeaning {
  import opened Prelude
  import opened Text
  import opened Reconcile
  import opened ReconcileLaws

  // ----- Key lines -----

  /** A letter or underscore, then letters, digits and underscores. */
  predicate IsKey(key: string) {
    && |key| > 0
    && ('A' <= key[0] <= 'Z' || 'a' <= key[0] <= 'z' || key[0] == '_')
    && forall i :: 0 <= i < |key| ==>
         'A' <= key[i] <= 'Z' || 'a' <= key[i] <= 'z' || '0' <= key[i] <= '9' || key[i] == '_'
  }

  lemma {:induction false} KeyRunStops(key: string, rest: string)
    requires forall i :: 0 <= i < |key| ==> IsKeyChar(key[i])
    ensures KeyRun(key + ":" + rest) == |key|
  {
    var line := key + ":" + rest;
    if |key| == 0 {
      assert line[0] == ':';
    } else {
      KeyRunStops(key[1..], rest);
      assert line[0] == key[0] && line[1..] == key[1..] + ":" + rest;
    }
  }

  lemma {:induction false} KeyRunIsKey(line: string)
    ensures forall i :: 0 <= i < KeyRun(line) ==> IsKeyChar(line[i])
  {
    if |line| > 0 && IsKeyChar(line[0]) {
      KeyRunIsKey(line[1..]);
      assert forall i :: 0 < i < KeyRun(line) ==> line[i] == line[1..][i - 1];
    }
  }

  /** A line begins an entry exactly when it is a key, a colon and anything; the key is what stands before the colon. */
  lemma TopLevelIff(line: string, key: string)
    ensures IsTopLevelKey(line) && KeyOf(line) == key <==>
      IsKey(key) && |key| < |line| && line[..|key|] == key && line[|key|] == ':'
  {
    KeyRunIsKey(line);
    if IsKey(key) && |key| < |line| && line[..|key|] == key && line[|key|] == ':' {
      assert line == key + ":" + line[|key| + 1..];
      KeyRunStops(key, line[|key| + 1..]);
    }
  }

  // ----- Field values -----

  /** A word that neither begins nor ends with a quote or white space. */
  predicate IsBare(word: string) {
    && |word| > 0
    && !IsSpace(word[0]) && word[0] !in {'"', '\''}
    && !IsSpace(word[|word| - 1]) && word[|word| - 1] !in {'"', '\''}
  }

  lemma {:induction false} TrimStartDropsBlank(blank: string, s: string)
    requires Blank(blank) && |s| > 0 && !IsSpace(s[0])
    ensures TrimStart(blank + s) == s
  {
    hide IsSpace;
    if |blank| == 0 {
      assert blank + s == s;
    } else {
      assert (blank + s)[0] == blank[0] && (blank + s)[1..] == blank[1..] + s;
      TrimStartDropsBlank(blank[1..], s);
    }
  }

  lemma {:induction false} TrimEndDropsBlank(s: string, blank: string)
    requires Blank(blank) && |s| > 0 && !IsSpace(s[|s| - 1])
    ensures TrimEnd(s + blank) == s
    decreases |blank|
  {
    hide IsSpace;
    if |blank| == 0 {
      assert s + blank == s;
    } else {
      var n := |blank| - 1;
      assert (s + blank)[..|s| + n] == s + blank[..n] && (s + blank)[|s| + n] == blank[n];
      TrimEndDropsBlank(s, blank[..n]);
    }
  }

  lemma TrimDropsBlank(left: string, word: string, right: string)
    requires Blank(left) && Blank(right) && IsBare(word)
    ensures Trim(left + word + right) == word
  {
    hide IsSpace, TrimStart, TrimEnd, Blank;
    var rest := word + right;
    assert left + word + right == left + rest && rest[0] == word[0];
    TrimStartDropsBlank(left, rest);
    TrimEndDropsBlank(word, right);
  }

  /** The value of a field is the word after its label, whatever white space is around it, quoted or not. */
  lemma FieldValueIsWord(prefix: string, blank: string, quote: string, left: string, word: string, right: string)
    requires Blank(blank) && Blank(left) && Blank(right) && IsBare(word)
    requires quote in {"\"", "'"} || (quote == "" && left == "")
    ensures var line := prefix + blank + quote + left + word + right + quote;
      StartsWith(line, prefix) && FieldValue(line, prefix) == word
  {
    hide TrimStart, TrimEnd, Blank, Trim;
    var inner := left + word + right;
    var line, quoted := prefix + blank + quote + left + word + right + quote, quote + inner + quote;
    assert line == prefix + (blank + quoted);
    assert line[|prefix|..] == blank + quoted;
    FirstOfQuoted(quote, left, word, right);
    TrimStartDropsBlank(blank, quoted);
    UnquoteInner(quote, left, word, right);
    TrimDropsBlank(left, word, right);
  }

  lemma FirstOfQuoted(quote: string, left: string, word: string, right: string)
    requires IsBare(word) && (quote in {"\"", "'"} || (quote == "" && left == ""))
    ensures var quoted := quote + (left + word + right) + quote; |quoted| > 0 && !IsSpace(quoted[0])
  {
    var quoted := quote + (left + word + right) + quote;
    assert quoted[0] == if quote == "" then word[0] else quote[0];
  }

  lemma UnquoteInner(quote: string, left: string, word: string, right: string)
    requires IsBare(word) && Blank(left) && Blank(right)
    requires quote in {"\"", "'"} || (quote == "" && left == "")
    ensures Unquote(quote + (left + word + right) + quote) == left + word + right
  {
    var inner := left + word + right;
    var s := quote + inner + quote;
    if quote == "" {
      assert s == inner && inner[0] == word[0];
      assert inner[|inner| - 1] == if right == "" then word[|word| - 1] else right[|right| - 1];
    } else {
      hide IsSpace;
      assert s[0] == quote[0] && s[1..] == inner + quote;
      assert (inner + quote)[..|inner|] == inner && (inner + quote)[|inner|] == quote[0];
    }
  }

  // ----- Which blocks are completed -----

  /** Capital letters, digits and underscores only. */
  predicate IsWord(s: string) {
    forall i :: 0 <= i < |s| ==> 'A' <= s[i] <= 'Z' || '0' <= s[i] <= '9' || s[i] == '_'
  }

  ghost predicate Mentions(s: string, part: string) {
    exists i :: 0 <= i <= |s| && part <= s[i..]
  }

  /** A status from which an entry may be completed. */
  ghost predicate IsOpenStatus(status: string) {
    || status == "READY_FOR_REVIEW" || status == "IN_PROGRESS" || status == "VERIFYING"
    || (&& IsWord(status)
        && (|| "IMPLEMENTED_LOCAL" <= status || "CANDIDATE" <= status || "LOCAL_VALIDATED" <= status
            || Mentions(status, "PENDING")))
  }

  lemma {:induction false} ContainsIff(s: string, part: string)
    ensures Contains(s, part) <==> Mentions(s, part)
  {
    if |part| <= |s| && !(part <= s) {
      ContainsIff(s[1..], part);
      if i :| 0 <= i <= |s| && part <= s[i..] {
        assert i > 0;
        assert s[i..] == s[1..][i - 1..];
      }
      if i :| 0 <= i <= |s| - 1 && part <= s[1..][i..] {
        assert s[1..][i..] == s[i + 1..];
      }
    } else if part <= s {
      assert part <= s[0..];
    }
  }

  lemma OpenStatusIff(status: string)
    ensures InFlight(status) <==> IsOpenStatus(status)
  {
    ContainsIff(status, "PENDING");
    hide Contains, Mentions;
  }

  /** Line `at` is the first of its kind. */
  ghost predicate IsFirst(lines: seq<string>, head: string, at: nat) {
    at < |lines| && head <= lines[at] && forall k :: 0 <= k < at ==> !(head <= lines[k])
  }

  lemma {:induction false} IndexIff(lines: seq<string>, head: string)
    ensures IndexOfLabel(lines, head) < |lines| <==> exists k :: 0 <= k < |lines| && head <= lines[k]
    ensures forall at: nat :: IsFirst(lines, head, at) <==> at < |lines| && at == IndexOfLabel(lines, head)
  {
    var i := IndexOfLabel(lines, head);
    assert i < |lines| ==> head <= lines[i];
    assert forall k :: 0 <= k < i ==> !StartsWith(lines[k], head);
  }

  /**
   The entry under this key, with these lines, is to be completed: a current one that no control reads, not completed
   before, whose branch is merged, as the first branch line names it, and whose first status line says it is open.
   */
  ghost predicate IsToComplete(key: string, body: seq<string>, merged: Merged, at: nat, status: string, pr: nat) {
    && "current_" <= key && key !in CONTROL_KEYS
    && (forall k :: 0 <= k < |body| ==> !("  merged_pr:" <= body[k]))
    && IsFirst(body, "  status:", at) && status == FieldValue(body[at], "  status:") && IsOpenStatus(status)
    && exists b: nat :: IsFirst(body, "  branch:", b) && IsMergedAs(body[b], merged, pr)
  }

  predicate IsMergedAs(branchLine: string, merged: Merged, pr: nat)
    requires "  branch:" <= branchLine
  {
    var branch := FieldValue(branchLine, "  branch:");
    branch in merged && merged[branch] == pr
  }

  /**
   An entry is edited exactly when it is to be completed, at its status line and with the number its branch merged as.
   */
  lemma EditIff(key: string, body: seq<string>, merged: Merged, at: nat, from: string, pr: nat)
    ensures EditOf(key, body, merged) == Some(Edit(at, Change(key, from, pr))) <==>
      IsToComplete(key, body, merged, at, from, pr)
  {
    hide IndexOfLabel, FieldValue, InFlight, IsOpenStatus, IsFirst, CONTROL_KEYS;
    IndexIff(body, "  merged_pr:");
    IndexIff(body, "  branch:");
    IndexIff(body, "  status:");
    OpenStatusIff(from);
    EditParts(key, body, merged, at, from, pr);
  }

  lemma EditParts(key: string, body: seq<string>, merged: Merged, at: nat, from: string, pr: nat)
    requires IndexOfLabel(body, "  merged_pr:") < |body| <==> exists k :: 0 <= k < |body| && "  merged_pr:" <= body[k]
    requires forall b: nat :: IsFirst(body, "  branch:", b) <==> b < |body| && b == IndexOfLabel(body, "  branch:")
    requires forall b: nat :: IsFirst(body, "  status:", b) <==> b < |body| && b == IndexOfLabel(body, "  status:")
    requires InFlight(from) <==> IsOpenStatus(from)
    ensures EditOf(key, body, merged) == Some(Edit(at, Change(key, from, pr))) <==>
      IsToComplete(key, body, merged, at, from, pr)
  {
    hide IndexOfLabel, FieldValue, InFlight, IsOpenStatus, IsFirst, CONTROL_KEYS;
    var branchAt, statusAt := IndexOfLabel(body, BRANCH_LABEL), IndexOfLabel(body, STATUS_LABEL);
    if branchAt < |body| {
      assert IsFirst(body, "  branch:", branchAt);
    }
    if statusAt < |body| {
      assert IsFirst(body, "  status:", statusAt);
    }
  }

  /** The changes reported are those of the entries to complete, and no others. */
  lemma {:induction false} ReportedIff(blocks: seq<Block>, merged: Merged, change: Change)
    ensures change in AllChanges(blocks, merged) <==> exists i :: 0 <= i < |blocks| && Makes(blocks[i], merged, change)
  {
    hide EditOf, KeyOf;
    if |blocks| > 0 {
      ReportedIff(blocks[1..], merged, change);
      assert change in BlockChanges(blocks[0], merged) <==> Makes(blocks[0], merged, change);
      hide Makes, BlockChanges;
      if i :| 0 <= i < |blocks| && Makes(blocks[i], merged, change) {
        assert i > 0 ==> blocks[1..][i - 1] == blocks[i];
      }
      if i :| 0 <= i < |blocks| - 1 && Makes(blocks[1..][i], merged, change) {
        assert blocks[i + 1] == blocks[1..][i];
      }
    }
  }

  /** A block makes a change exactly when it is an entry to complete, under its own key. */
  lemma MakesIff(b: Block, merged: Merged, change: Change)
    ensures Makes(b, merged, change) <==>
      change.key == KeyOf(b.keyLine)
      && exists at: nat :: IsToComplete(change.key, b.body, merged, at, change.from, change.pr)
  {
    hide EditOf, IsToComplete, KeyOf;
    var edit := BlockEdit(b, merged);
    EditKeepsKey(KeyOf(b.keyLine), b.body, merged);
    if edit.Some? {
      EditIff(KeyOf(b.keyLine), b.body, merged, edit.value.at, edit.value.change.from, edit.value.change.pr);
    }
    forall at: nat | IsToComplete(change.key, b.body, merged, at, change.from, change.pr)
      ensures EditOf(change.key, b.body, merged) == Some(Edit(at, Change(change.key, change.from, change.pr)))
    {
      EditIff(change.key, b.body, merged, at, change.from, change.pr);
    }
  }

  lemma EditKeepsKey(key: string, body: seq<string>, merged: Merged)
    ensures EditOf(key, body, merged).Some? ==> EditOf(key, body, merged).value.change.key == key
  {
    hide IndexOfLabel, FieldValue, InFlight;
  }
}
