/** What every import run keeps: coherent candidates, rows and actions, and one directory entry per CSV row at most. */
module ImportInvariants {
  import opened Common
  import opened ImportText
  import opened ImportTables

  // ---- The invariant ----

  ghost predicate RowOk(rules: Rules, kind: Kind, raw: RawRow, row: Row) {
    && row.raw == raw
    && row.normalized == rules.normalize(kind, raw).0
    && row.isValid == row.normalized.Some?
    && (row.status == RowInvalid <==> !row.isValid)
  }

  ghost predicate BatchOk(rules: Rules, batch: Batch, rows: seq<Row>) {
    if batch.status == Uploaded then rows == []
    else
      && batch.file.Table?
      && |rows| == |batch.file.rows| == batch.counts.total
      && forall i :: 0 <= i < |rows| ==> RowOk(rules, batch.kind, batch.file.rows[i], rows[i])
  }

  ghost predicate Shapes(rules: Rules, t: Tables) {
    && |t.base| == |t.entries| == |t.origins|
    && |t.rows| == |t.batches|
    && forall b :: 0 <= b < |t.rows| ==> BatchOk(rules, t.batches[b], t.rows[b])
  }

  /** The only (candidate, row) status pairs that occur. */
  ghost predicate StatusPair(c: CandidateStatus, r: RowStatus) {
    match c
    case Open => r == RowDuplicate
    case Merged => r == RowMerged
    case Ignored => r == RowIgnored
    case UndoApplied => r == RowDuplicate
  }

  ghost predicate Live(t: Tables, a: int) { 0 <= a < |t.actions| && !t.actions[a].undone }

  ghost predicate CandidateOk(t: Tables, c: nat)
    requires c in t.candidates
  {
    var cand := t.candidates[c];
    && c < t.nextCandidate
    && HasRow(t, cand.row) && cand.row.batch < |t.batches|
    && t.batches[cand.row.batch].kind == MemberKind
    && cand.target < |t.entries|
    && RowAt(t, cand.row).isValid
    && StatusPair(cand.status, RowAt(t, cand.row).status)
    && (cand.status == Merged ==>
        cand.action.Some? && Live(t, cand.action.value) && t.actions[cand.action.value].candidate == c)
  }

  ghost predicate OneCandidatePerRow(t: Tables) {
    forall c, d :: c in t.candidates && d in t.candidates && t.candidates[c].row == t.candidates[d].row ==> c == d
  }

  ghost predicate UnderReview(s: RowStatus) { s == RowDuplicate || s == RowMerged || s == RowIgnored }

  /** A row that is flagged, merged or ignored has its candidate. */
  ghost predicate Backed(t: Tables) {
    forall r :: HasRow(t, r) && UnderReview(RowAt(t, r).status)
      ==> exists c :: CandidateFor(t, c, r)
  }

  /** The snapshot covers exactly the columns written. */
  ghost predicate SnapshotMatches(act: Action) { forall f :: act.before.At(f).Some? <==> act.applied.At(f).Some? }

  /** A live action's candidate, if a re-normalization has not deleted it, is settled and aims at the same entry. */
  ghost predicate ActionOk(t: Tables, a: nat)
    requires a < |t.actions|
  {
    var act := t.actions[a];
    && act.target < |t.entries|
    && act.candidate < t.nextCandidate
    && SnapshotMatches(act)
    && (!act.undone && act.candidate in t.candidates ==>
          !Unresolved(t.candidates[act.candidate].status) && t.candidates[act.candidate].target == act.target)
  }

  ghost predicate OneLiveActionPerCandidate(t: Tables) {
    forall a, b :: Live(t, a) && Live(t, b) && t.actions[a].candidate == t.actions[b].candidate ==> a == b
  }

  ghost predicate CandidatesOk(t: Tables) { forall c :: c in t.candidates ==> CandidateOk(t, c) }

  ghost predicate ActionsOk(t: Tables) { forall a :: 0 <= a < |t.actions| ==> ActionOk(t, a) }

  ghost predicate Coherent(rules: Rules, t: Tables) {
    && Shapes(rules, t)
    && CandidatesOk(t)
    && OneCandidatePerRow(t)
    && Backed(t)
    && ActionsOk(t)
    && OneLiveActionPerCandidate(t)
  }

  /** The normalized content of a CSV row: fixed, because the file of a batch is. */
  ghost function Content(rules: Rules, t: Tables, r: RowRef): Option<Normalized>
    requires Shapes(rules, t)
  {
    if r.batch < |t.batches| && t.batches[r.batch].file.Table? && r.index < |t.batches[r.batch].file.rows|
    then rules.normalize(t.batches[r.batch].kind, t.batches[r.batch].file.rows[r.index]).0
    else None
  }

  /** Entry `e` was created by row `r`. */
  ghost predicate CreatedBy(t: Tables, e: int, r: RowRef) { 0 <= e < |t.origins| && t.origins[e] == Some(r) }

  ghost predicate AtMostOneEntryPerRow(t: Tables) {
    forall e, f, r :: CreatedBy(t, e, r) && CreatedBy(t, f, r) ==> e == f
  }

  ghost predicate Once(rules: Rules, t: Tables)
    requires Shapes(rules, t)
  {
    && AtMostOneEntryPerRow(t)
    && (forall e, r ::
        CreatedBy(t, e, r) ==>
        Content(rules, t, r).Some? && t.entries[e].displayName == NameOf(Content(rules, t, r).value))
    && (forall e, r ::
        CreatedBy(t, e, r) && HasRow(t, r) && t.batches[r.batch].kind == MemberKind ==> RowAt(t, r).status != RowValid)
  }

  ghost predicate Inv(rules: Rules, t: Tables) { Coherent(rules, t) && Once(rules, t) }

  lemma FreshInv(rules: Rules, t: Tables)
    requires Fresh(t)
    ensures Inv(rules, t)
  {
  }

  // ---- Upload and outside edits ----

  /**
   * The invariant reads no column values, and nothing of the batches beyond their files, kinds and whether they
   * were normalized.
   */
  lemma FrameKeeps(rules: Rules, t: Tables, t': Tables)
    requires Inv(rules, t)
    requires t'.candidates == t.candidates && t'.nextCandidate == t.nextCandidate && t'.actions == t.actions
    requires t'.origins == t.origins && |t'.entries| == |t.entries| == |t'.base|
    requires forall e :: 0 <= e < |t.entries| ==> t'.entries[e].displayName == t.entries[e].displayName
    requires |t'.rows| == |t'.batches| && t.rows <= t'.rows && t.batches <= t'.batches
    requires forall b :: |t.batches| <= b < |t'.batches| ==> t'.batches[b].status == Uploaded && t'.rows[b] == []
    ensures Inv(rules, t')
  {
    assert forall r :: HasRow(t', r) ==> HasRow(t, r) && RowAt(t', r) == RowAt(t, r);
    forall c | c in t'.candidates ensures CandidateOk(t', c) { assert CandidateOk(t, c); }
    forall r | HasRow(t', r) && UnderReview(RowAt(t', r).status)
      ensures exists c :: CandidateFor(t', c, r)
    {
      var c :| CandidateFor(t, c, r);
      assert CandidateFor(t', c, r);
    }
    forall a | 0 <= a < |t'.actions| ensures ActionOk(t', a) { assert ActionOk(t, a); }
    assert forall a :: Live(t', a) <==> Live(t, a);
    assert Shapes(rules, t');
    assert forall e, r :: CreatedBy(t', e, r) <==> CreatedBy(t, e, r);
    assert forall e, r :: CreatedBy(t, e, r) ==> Content(rules, t', r) == Content(rules, t, r);
  }

  lemma UploadKeeps(rules: Rules, t: Tables, kind: Kind, file: Upload)
    requires Inv(rules, t)
    ensures Inv(rules, AddBatch(t, kind, file))
  {
    FrameKeeps(rules, t, AddBatch(t, kind, file));
  }

  lemma SetFieldsKeeps(rules: Rules, t: Tables, e: nat, fields: Fields)
    requires Inv(rules, t) && e < |t.entries|
    ensures Inv(rules, SetFields(t, e, fields))
  {
    FrameKeeps(rules, t, SetFields(t, e, fields));
  }

  lemma EditKeeps(rules: Rules, t: Tables, e: nat, f: Field, v: Option<string>)
    requires Inv(rules, t)
    ensures Inv(rules, EditEntry(t, e, f, v))
  {
    if e < |t.entries| { SetFieldsKeeps(rules, t, e, t.entries[e].fields.With(f, v)); }
  }

  // ---- Review decisions: merge, ignore, undo ----

  /**
   * `t'` is `t` after a decision on candidate `c`: only that candidate, its row's status and effect, its actions
   * and column values may differ.
   */
  ghost predicate Decides(t: Tables, t': Tables, c: nat) {
    && c in t.candidates && c in t'.candidates
    && t'.candidates == t.candidates[c := t'.candidates[c]]
    && t'.candidates[c].row == t.candidates[c].row && t'.candidates[c].target == t.candidates[c].target
    && HasRow(t, t.candidates[c].row) && HasRow(t', t.candidates[c].row)
    && t'.rows == PutRow(t, t.candidates[c].row, RowAt(t', t.candidates[c].row)).rows
    && UnderReview(RowAt(t', t.candidates[c].row).status)
    && RowAt(t', t.candidates[c].row).(status := RowAt(t, t.candidates[c].row).status,
        effect := RowAt(t, t.candidates[c].row).effect)
         == RowAt(t, t.candidates[c].row)
    && t'.batches == t.batches && t'.nextCandidate == t.nextCandidate && t'.base == t.base && t'.origins == t.origins
    && |t'.entries| == |t.entries| && (forall e ::
        0 <= e < |t.entries| ==> t'.entries[e].displayName == t.entries[e].displayName)
    && |t.actions| <= |t'.actions|
    && (forall a ::
        0 <= a < |t.actions| && t'.actions[a] != t.actions[a] ==>
        t.actions[a].candidate == t'.actions[a].candidate == c)
  }

  lemma DecidedRows(t: Tables, t': Tables, c: nat)
    requires Decides(t, t', c)
    ensures forall r :: HasRow(t', r) <==> HasRow(t, r)
    ensures forall r :: HasRow(t, r) && r != t.candidates[c].row ==> RowAt(t', r) == RowAt(t, r)
  {
  }

  lemma DecidedShapes(rules: Rules, t: Tables, t': Tables, c: nat)
    requires Inv(rules, t) && Decides(t, t', c)
    ensures Shapes(rules, t')
  {
    assert CandidateOk(t, c);
    var r0 := t.candidates[c].row;
    forall b | 0 <= b < |t'.rows|
      ensures BatchOk(rules, t'.batches[b], t'.rows[b])
    {
      assert BatchOk(rules, t.batches[b], t.rows[b]);
      if b == r0.batch {
        assert RowOk(rules, t.batches[b].kind, t.batches[b].file.rows[r0.index], RowAt(t, r0));
        assert forall i :: 0 <= i < |t.rows[b]| && i != r0.index ==> t'.rows[b][i] == t.rows[b][i];
      }
    }
  }

  lemma DecidedCandidates(rules: Rules, t: Tables, t': Tables, c: nat)
    requires Inv(rules, t) && Decides(t, t', c) && CandidateOk(t', c)
    ensures CandidatesOk(t') && OneCandidatePerRow(t')
  {
    DecidedRows(t, t', c);
    forall d | d in t'.candidates
      ensures CandidateOk(t', d)
    {
      if d != c {
        assert CandidateOk(t, d);
        assert t.candidates[d].row != t.candidates[c].row;
      }
    }
  }

  lemma DecidedBacked(rules: Rules, t: Tables, t': Tables, c: nat)
    requires Inv(rules, t) && Decides(t, t', c)
    ensures Backed(t')
  {
    DecidedRows(t, t', c);
    forall r | HasRow(t', r) && UnderReview(RowAt(t', r).status)
      ensures exists d :: CandidateFor(t', d, r)
    {
      if r == t.candidates[c].row {
        assert CandidateFor(t', c, r);
      } else {
        var d :| CandidateFor(t, d, r);
        assert CandidateFor(t', d, r);
      }
    }
  }

  lemma DecidedOnce(rules: Rules, t: Tables, t': Tables, c: nat)
    requires Inv(rules, t) && Decides(t, t', c) && Shapes(rules, t')
    ensures Once(rules, t')
  {
    DecidedRows(t, t', c);
    assert forall e, r :: CreatedBy(t', e, r) <==> CreatedBy(t, e, r);
    assert forall r :: Content(rules, t', r) == Content(rules, t, r);
  }

  lemma DecisionKeeps(rules: Rules, t: Tables, t': Tables, c: nat)
    requires Inv(rules, t) && Decides(t, t', c) && CandidateOk(t', c)
    requires ActionsOk(t') && OneLiveActionPerCandidate(t')
    ensures Inv(rules, t')
  {
    DecidedShapes(rules, t, t', c);
    DecidedCandidates(rules, t, t', c);
    DecidedBacked(rules, t, t', c);
    DecidedOnce(rules, t, t', c);
  }

  lemma IgnoreKeeps(rules: Rules, t: Tables, c: nat)
    requires Inv(rules, t) && c in t.candidates
    ensures Ignore(t, c).Ok? && Inv(rules, Ignore(t, c).value)
  {
    assert CandidateOk(t, c);
    var t' := Ignore(t, c).value;
    assert Decides(t, t', c);
    forall a | 0 <= a < |t'.actions| ensures ActionOk(t', a) { assert ActionOk(t, a); }
    assert forall a :: Live(t', a) <==> Live(t, a);
    DecisionKeeps(rules, t, t', c);
  }

  lemma MergeDecides(rules: Rules, t: Tables, c: nat)
    requires Inv(rules, t) && Merge(t, c).Ok?
    ensures Decides(t, Merge(t, c).value, c) && CandidateOk(Merge(t, c).value, c)
  {
    assert CandidateOk(t, c);
  }

  lemma MergeActions(rules: Rules, t: Tables, c: nat)
    requires Inv(rules, t) && Merge(t, c).Ok?
    ensures ActionsOk(Merge(t, c).value) && OneLiveActionPerCandidate(Merge(t, c).value)
  {
    var t' := Merge(t, c).value;
    assert CandidateOk(t, c);
    forall a | 0 <= a < |t'.actions|
      ensures ActionOk(t', a)
    {
      if a < |t.actions| { assert ActionOk(t, a); }
    }
    forall a | Live(t', a) && a < |t.actions|
      ensures Live(t, a) && t'.actions[a] == t.actions[a] && t.actions[a].candidate != c
    {
      assert ActionOk(t, a) && Live(t, a);
    }
  }

  lemma MergeKeeps(rules: Rules, t: Tables, c: nat)
    requires Inv(rules, t) && Merge(t, c).Ok?
    ensures Inv(rules, Merge(t, c).value)
  {
    MergeDecides(rules, t, c);
    MergeActions(rules, t, c);
    DecisionKeeps(rules, t, Merge(t, c).value, c);
  }

  lemma UndoKeeps(rules: Rules, t: Tables, a: nat)
    requires Inv(rules, t) && Undo(t, a).Ok?
    ensures Inv(rules, Undo(t, a).value)
  {
    var act := t.actions[a];
    var c := act.candidate;
    var t1 := SetFields(t, act.target, Restored(t.entries[act.target].fields, act.before));
    SetFieldsKeeps(rules, t, act.target, Restored(t.entries[act.target].fields, act.before));
    RetireKeeps(rules, t1, a);
  }

  /** Retiring a live action and handing its candidate, if there still is one, back to review. */
  lemma RetireKeeps(rules: Rules, t: Tables, a: nat)
    requires Inv(rules, t) && Live(t, a)
    ensures Inv(rules, Reopen(t.(actions := t.actions[a := t.actions[a].(undone := true)]), t.actions[a].candidate))
  {
    var c := t.actions[a].candidate;
    var t1 := t.(actions := t.actions[a := t.actions[a].(undone := true)]);
    var t' := Reopen(t1, c);
    assert ActionOk(t, a);
    forall x | Live(t', x)
      ensures Live(t, x) && x != a && t.actions[x].candidate != c
    {
      assert Live(t, x);
    }
    forall x | 0 <= x < |t'.actions|
      ensures ActionOk(t', x)
    {
      assert ActionOk(t, x);
      if !t'.actions[x].undone { assert Live(t', x); }
    }
    if c in t.candidates {
      assert CandidateOk(t, c);
      assert Decides(t, t', c);
      DecisionKeeps(rules, t, t', c);
    } else {
      DropActionKeeps(rules, t, a);
    }
  }

  lemma DropActionKeeps(rules: Rules, t: Tables, a: nat)
    requires Inv(rules, t) && Live(t, a) && t.actions[a].candidate !in t.candidates
    ensures Inv(rules, t.(actions := t.actions[a := t.actions[a].(undone := true)]))
  {
    var t' := t.(actions := t.actions[a := t.actions[a].(undone := true)]);
    assert forall r :: HasRow(t', r) <==> HasRow(t, r);
    forall c | c in t'.candidates ensures CandidateOk(t', c) { assert CandidateOk(t, c); }
    forall x | 0 <= x < |t'.actions| ensures ActionOk(t', x) { assert ActionOk(t, x); }
    assert forall x :: Live(t', x) ==> Live(t, x);
    assert Backed(t') by {
      forall r | HasRow(t', r) && UnderReview(RowAt(t', r).status)
        ensures exists d :: CandidateFor(t', d, r)
      {
        var d :| CandidateFor(t, d, r);
        assert CandidateFor(t', d, r);
      }
    }
    assert forall e, r :: CreatedBy(t', e, r) <==> CreatedBy(t, e, r);
    assert forall r :: Content(rules, t', r) == Content(rules, t, r);
  }
}
