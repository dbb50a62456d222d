/**
 * Merge and undo as an algebra: while only merges and undos write an entry's columns, the entry is its original
 * columns overridden by what the live merge actions wrote, and undoing works in any order.
 */
module ImportOverlay {
  import opened Common
  import opened ImportText
  import opened ImportTables
  import opened ImportInvariants
  import opened ImportRuns
  import opened ImportApply

  /** Live action `a` wrote column `f` of entry `e`. */
  ghost predicate Claims(t: Tables, a: int, e: nat, f: Field) {
    Live(t, a) && t.actions[a].target == e && t.actions[a].applied.At(f).Some?
  }

  /** A claimed column shows what its claimant wrote, over the blank original its snapshot remembers. */
  ghost predicate ClaimHolds(t: Tables, a: nat, f: Field)
    requires a < |t.actions| && t.actions[a].applied.At(f).Some?
  {
    var act := t.actions[a];
    && act.target < |t.entries| == |t.base|
    && t.entries[act.target].fields.At(f) == act.applied.At(f)
    && !BlankColumn(act.applied.At(f))
    && act.before.At(f) == Some(t.base[act.target].At(f)) && BlankColumn(t.base[act.target].At(f))
  }

  ghost predicate ClaimsHold(t: Tables) {
    forall a, e, f :: Claims(t, a, e, f) ==> ClaimHolds(t, a, f)
  }

  ghost predicate ClaimsDisjoint(t: Tables) {
    forall a, b, e, f :: Claims(t, a, e, f) && Claims(t, b, e, f) ==> a == b
  }

  ghost predicate Unclaimed(t: Tables, e: nat, f: Field) { forall a :: !Claims(t, a, e, f) }

  ghost predicate RestOriginal(t: Tables) {
    && |t.base| == |t.entries|
    && forall e: nat, f :: e < |t.entries| && Unclaimed(t, e, f) ==> t.entries[e].fields.At(f) == t.base[e].At(f)
  }

  ghost predicate Overlay(t: Tables) { ClaimsHold(t) && ClaimsDisjoint(t) && RestOriginal(t) }

  // ---- Steps that write no existing column ----

  lemma AppendKeepsOverlay(rules: Rules, t: Tables, t': Tables)
    requires Inv(rules, t) && Overlay(t)
    requires t'.actions == t.actions
    requires |t.entries| <= |t'.entries| == |t'.base|
    requires forall e :: 0 <= e < |t.entries| ==> t'.entries[e].fields == t.entries[e].fields && t'.base[e] == t.base[e]
    requires forall e :: |t.entries| <= e < |t'.entries| ==> t'.base[e] == t'.entries[e].fields
    ensures Overlay(t')
  {
    assert forall a, e, f :: Claims(t', a, e, f) <==> Claims(t, a, e, f);
    forall a, e, f | Claims(t', a, e, f)
      ensures ClaimHolds(t', a, f)
    {
      assert ClaimHolds(t, a, f);
    }
    forall e: nat, f | e < |t.entries| && Unclaimed(t', e, f)
      ensures t'.entries[e].fields.At(f) == t'.base[e].At(f)
    {
      assert Unclaimed(t, e, f);
    }
  }

  /** New entries at the end at most, each with its original columns. */
  ghost predicate Appends(t: Tables, t': Tables) {
    && t.entries <= t'.entries && t.base <= t'.base
    && |t.base| == |t.entries| && |t'.base| == |t'.entries|
    && t'.actions == t.actions
    && forall e :: |t.entries| <= e < |t'.entries| ==> t'.base[e] == t'.entries[e].fields
  }

  lemma ApplyRowAppends(rules: Rules, s: Sweep, r: RowRef)
    requires Inv(rules, s.t) && HasRow(s.t, r)
    ensures Appends(s.t, ApplyRow(rules, s, r).t)
  {
    ApplyVerdict(rules, s, r);
    if RowAt(s.t, r).status == RowValid { ApplyRowEnters(rules, s, r); }
  }

  /** An apply only appends entries. */
  lemma {:induction false} ApplyRowsAppend(rules: Rules, t: Tables, b: nat, n: nat)
    requires Inv(rules, t) && Sound(rules) && b < |t.rows| && n <= |t.rows[b]|
    ensures Appends(t, ApplyRows(rules, t, b, n).t)
  {
    if n > 0 {
      ApplyRowsAppend(rules, t, b, n - 1);
      ApplyRowsSweep(rules, t, b, n - 1);
      ApplyRowAppends(rules, ApplyRows(rules, t, b, n - 1), RowRef(b, n - 1));
    }
  }

  // ---- Merge ----

  /** `t'` is `t` after a new action filled blank columns of its target with visible text, keeping a snapshot. */
  ghost predicate Fills(t: Tables, t': Tables) {
    && |t'.actions| == |t.actions| + 1 && t'.actions[..|t.actions|] == t.actions && t'.base == t.base
    && var act := t'.actions[|t.actions|];
    && !act.undone && act.target < |t.entries| == |t'.entries|
    && (forall e :: 0 <= e < |t.entries| && e != act.target ==> t'.entries[e].fields == t.entries[e].fields)
    && (forall f :: act.applied.At(f).Some? ==>
          && BlankColumn(t.entries[act.target].fields.At(f)) && !BlankColumn(act.applied.At(f))
          && t'.entries[act.target].fields.At(f) == act.applied.At(f)
          && act.before.At(f) == Some(t.entries[act.target].fields.At(f)))
    && (forall f ::
        act.applied.At(f).None? ==> t'.entries[act.target].fields.At(f) == t.entries[act.target].fields.At(f))
  }

  lemma FillKeepsOverlay(t: Tables, t': Tables)
    requires Overlay(t) && Fills(t, t')
    ensures Overlay(t')
  {
    var n := |t.actions|;
    forall a | 0 <= a < n ensures t'.actions[a] == t.actions[a] { assert t'.actions[a] == t'.actions[..n][a]; }
    forall b, e: nat, f | Claims(t, b, e, f)
      ensures e < |t.entries| && !BlankColumn(t.entries[e].fields.At(f))
    {
      assert ClaimHolds(t, b, f);
    }
    forall a, e, f | Claims(t', a, e, f)
      ensures ClaimHolds(t', a, f)
      ensures a == n ==> forall b :: !Claims(t, b, e, f)
      ensures a != n ==> Claims(t, a, e, f)
    {
      if a != n {
        assert Claims(t, a, e, f);
        assert ClaimHolds(t, a, f);
      } else {
        forall b ensures !Claims(t, b, e, f) {}
        assert Unclaimed(t, e, f);
      }
    }
    forall e: nat, f | e < |t'.entries| && Unclaimed(t', e, f)
      ensures t'.entries[e].fields.At(f) == t'.base[e].At(f)
    {
      forall a ensures !Claims(t, a, e, f) { assert Claims(t, a, e, f) ==> Claims(t', a, e, f); }
      assert Unclaimed(t, e, f);
      assert !Claims(t', n, e, f);
    }
  }

  lemma MergeKeepsOverlay(rules: Rules, t: Tables, c: nat)
    requires Inv(rules, t) && Sound(rules) && Overlay(t) && Merge(t, c).Ok?
    ensures Overlay(Merge(t, c).value)
  {
    MergeWritesVisible(rules, t, c);
    FillKeepsOverlay(t, Merge(t, c).value);
  }

  lemma MergeWritesVisible(rules: Rules, t: Tables, c: nat)
    requires Inv(rules, t) && Sound(rules) && Merge(t, c).Ok?
    ensures forall f :: var v := Merge(t, c).value.actions[|t.actions|].applied.At(f); v.Some? ==> !BlankColumn(v)
  {
    assert CandidateOk(t, c);
    var r := t.candidates[c].row;
    assert BatchOk(rules, t.batches[r.batch], t.rows[r.batch]);
    assert RowOk(rules, t.batches[r.batch].kind, t.batches[r.batch].file.rows[r.index], RowAt(t, r));
  }

  // ---- Undo ----

  /** While nobody else writes the columns, the safe-undo guard never refuses. */
  lemma LiveUndoSucceeds(rules: Rules, t: Tables, a: nat)
    requires Inv(rules, t) && Overlay(t) && Live(t, a)
    ensures Undo(t, a).Ok?
  {
    assert ActionOk(t, a);
    forall f | t.actions[a].applied.At(f).Some?
      ensures t.entries[t.actions[a].target].fields.At(f) == t.actions[a].applied.At(f)
    {
      assert Claims(t, a, t.actions[a].target, f);
      assert ClaimHolds(t, a, f);
    }
  }

  lemma UndoKeepsOverlay(rules: Rules, t: Tables, a: nat)
    requires Inv(rules, t) && Overlay(t) && Undo(t, a).Ok?
    ensures Overlay(Undo(t, a).value)
  {
    var t' := Undo(t, a).value;
    assert ActionOk(t, a);
    forall b, e, f | Claims(t', b, e, f)
      ensures Claims(t, b, e, f) && b != a && ClaimHolds(t', b, f)
    {
      assert Claims(t, b, e, f) && b != a;
      assert ClaimHolds(t, b, f);
      assert !Claims(t, a, e, f);
    }
    forall e: nat, f | e < |t'.entries| && Unclaimed(t', e, f)
      ensures t'.entries[e].fields.At(f) == t'.base[e].At(f)
    {
      if Claims(t, a, e, f) {
        assert ClaimHolds(t, a, f);
      } else {
        forall b ensures !Claims(t, b, e, f) { assert Claims(t, b, e, f) && b != a ==> Claims(t', b, e, f); }
        assert Unclaimed(t, e, f);
      }
    }
  }

  // ---- Runs ----

  ghost predicate NoEdits(steps: seq<Step>) { forall i :: 0 <= i < |steps| ==> !steps[i].EditStep? }

  lemma StepKeepsOverlay(rules: Rules, t: Tables, s: Step)
    requires Inv(rules, t) && Sound(rules) && Overlay(t) && !s.EditStep?
    ensures Overlay(Next(rules, t, s))
  {
    var t' := Next(rules, t, s);
    match s
    case UploadStep(kind, file) => AppendKeepsOverlay(rules, t, t');
    case NormalizeStep(b) => AppendKeepsOverlay(rules, t, t');
    case ApplyStep(b) =>
      if Apply(rules, t, b).Ok? {
        ApplyRowsAppend(rules, t, b, |t.rows[b]|);
        AppendKeepsOverlay(rules, t, t');
      }
    case MergeStep(c) => if Merge(t, c).Ok? { MergeKeepsOverlay(rules, t, c); }
    case IgnoreStep(c) => AppendKeepsOverlay(rules, t, t');
    case UndoStep(a) => if Undo(t, a).Ok? { UndoKeepsOverlay(rules, t, a); }
  }

  lemma {:induction false} RunKeepsOverlay(rules: Rules, t: Tables, steps: seq<Step>)
    requires Inv(rules, t) && Sound(rules) && Overlay(t) && NoEdits(steps)
    ensures Overlay(Run(rules, t, steps))
    decreases |steps|
  {
    if steps != [] {
      StepKeeps(rules, t, steps[0]);
      StepKeepsOverlay(rules, t, steps[0]);
      NextKeepsShape(rules, t, steps[0]);
      RunKeepsOverlay(rules, Next(rules, t, steps[0]), steps[1..]);
    }
  }

  lemma FreshOverlay(t: Tables)
    requires Fresh(t)
    ensures Overlay(t)
  {
  }

  /**
   * In every state a run of pipeline operations reaches: two live merge actions never wrote the same column of one
   * entry, a column a live action wrote shows that text, every other column is the original, and any live action
   * can be undone.
   */
  lemma EntryIsOriginalPlusLiveMerges(rules: Rules, t: Tables, steps: seq<Step>, e: nat, f: Field)
    requires Fresh(t) && Sound(rules) && NoEdits(steps) && e < |Run(rules, t, steps).entries|
    ensures
      var r := Run(rules, t, steps);
      && |r.base| == |r.entries|
      && (forall a, b :: Claims(r, a, e, f) && Claims(r, b, e, f) ==> a == b)
      && (forall a :: Claims(r, a, e, f) ==> r.entries[e].fields.At(f) == r.actions[a].applied.At(f))
      && (Unclaimed(r, e, f) ==> r.entries[e].fields.At(f) == r.base[e].At(f))
      && (forall a: nat :: Live(r, a) ==> Undo(r, a).Ok?)
  {
    FreshInv(rules, t);
    FreshOverlay(t);
    RunKeeps(rules, t, steps);
    RunKeepsOverlay(rules, t, steps);
    var r := Run(rules, t, steps);
    forall a | Claims(r, a, e, f)
      ensures r.entries[e].fields.At(f) == r.actions[a].applied.At(f)
    {
      assert ClaimHolds(r, a, f);
    }
    forall a: nat | Live(r, a)
      ensures Undo(r, a).Ok?
    {
      LiveUndoSucceeds(rules, r, a);
    }
  }

  // ---- Undoing many, in any order ----

  /** Undo the given actions one after the other, stopping at the first refusal. */
  function UndoEach(t: Tables, order: seq<nat>): Outcome<Tables, ImportError>
    decreases |order|
  {
    if order == [] then Ok(t)
    else
      match Undo(t, order[0])
      case Rejected(e) => Rejected(e)
      case Ok(t') => UndoEach(t', order[1..])
  }

  /** `t'` is `t` with the actions in `done` retired; originals and what the actions recorded are as they were. */
  ghost predicate Retired(t: Tables, t': Tables, done: seq<nat>) {
    && |t'.actions| == |t.actions| && t'.base == t.base
    && (forall a :: Live(t', a) <==> Live(t, a) && a !in done)
    && (forall a :: 0 <= a < |t.actions| ==> t'.actions[a].(undone := false) == t.actions[a].(undone := false))
  }

  lemma UndoRetires(rules: Rules, t: Tables, a: nat)
    requires Inv(rules, t) && Overlay(t) && Live(t, a)
    ensures Undo(t, a).Ok?
    ensures var t' := Undo(t, a).value; Inv(rules, t') && Overlay(t') && Retired(t, t', [a])
  {
    LiveUndoSucceeds(rules, t, a);
    UndoKeeps(rules, t, a);
    UndoKeepsOverlay(rules, t, a);
  }

  /** Undoing distinct live actions succeeds in whatever order, and leaves live exactly the others. */
  lemma {:induction false} UndoEachSucceeds(rules: Rules, t: Tables, order: seq<nat>)
    requires Inv(rules, t) && Overlay(t)
    requires forall i :: 0 <= i < |order| ==> Live(t, order[i])
    requires forall i, j :: 0 <= i < j < |order| ==> order[i] != order[j]
    ensures UndoEach(t, order).Ok?
    ensures var t' := UndoEach(t, order).value; Inv(rules, t') && Overlay(t') && Retired(t, t', order)
    decreases |order|
  {
    if order != [] {
      UndoRetires(rules, t, order[0]);
      UndoRestSucceeds(rules, t, Undo(t, order[0]).value, order);
    }
  }

  lemma {:induction false} UndoRestSucceeds(rules: Rules, t: Tables, t1: Tables, order: seq<nat>)
    requires order != [] && Retired(t, t1, [order[0]]) && Inv(rules, t1) && Overlay(t1)
    requires forall i :: 0 <= i < |order| ==> Live(t, order[i])
    requires forall i, j :: 0 <= i < j < |order| ==> order[i] != order[j]
    ensures UndoEach(t1, order[1..]).Ok?
    ensures var t' := UndoEach(t1, order[1..]).value; Inv(rules, t') && Overlay(t') && Retired(t, t', order)
    decreases |order|, 0
  {
    UndoEachSucceeds(rules, t1, order[1..]);
    assert forall a :: a in order <==> a == order[0] || a in order[1..];
  }

  /**
   * Undoing all live merges of an entry, in any order, after any run of the pipeline, gives the entry back exactly
   * the columns it was created with.
   */
  lemma UndoingAllRestoresTheOriginal(rules: Rules, t: Tables, steps: seq<Step>, order: seq<nat>, e: nat)
    requires Fresh(t) && Sound(rules) && NoEdits(steps)
    requires forall i :: 0 <= i < |order| ==> Live(Run(rules, t, steps), order[i])
    requires forall i, j :: 0 <= i < j < |order| ==> order[i] != order[j]
    requires e < |Run(rules, t, steps).entries|
    requires forall a: nat ::
      Live(Run(rules, t, steps), a) && Run(rules, t, steps).actions[a].target == e ==> a in order
    ensures
      var r := Run(rules, t, steps);
      var u := UndoEach(r, order);
      u.Ok? && e < |u.value.entries| && e < |r.base| && u.value.entries[e].fields == r.base[e]
  {
    FreshInv(rules, t);
    FreshOverlay(t);
    RunKeeps(rules, t, steps);
    RunKeepsOverlay(rules, t, steps);
    var r := Run(rules, t, steps);
    UndoEachSucceeds(rules, r, order);
    var u := UndoEach(r, order).value;
    assert |u.entries| == |u.base| == |r.entries|;
    forall f: Field
      ensures u.entries[e].fields.At(f) == r.base[e].At(f)
    {
      forall a ensures !Claims(u, a, e, f) { assert Claims(u, a, e, f) ==> Live(r, a) && a !in order; }
      assert Unclaimed(u, e, f);
    }
    SameColumns(u.entries[e].fields, r.base[e]);
  }

  /** Two live actions can be undone in either order, with the same tables as a result. */
  lemma UndosCommute(rules: Rules, t: Tables, a: nat, b: nat)
    requires Inv(rules, t) && Overlay(t) && Live(t, a) && Live(t, b) && a != b
    ensures Undo(t, a).Ok? && Undo(t, b).Ok?
    ensures Undo(Undo(t, a).value, b).Ok? && Undo(Undo(t, a).value, b) == Undo(Undo(t, b).value, a)
  {
    UndoRetires(rules, t, a);
    UndoRetires(rules, t, b);
    UndoRetires(rules, Undo(t, a).value, b);
    UndoRetires(rules, Undo(t, b).value, a);
    assert ActionOk(t, a) && ActionOk(t, b);
    var act, bct := t.actions[a], t.actions[b];
    ReopensCommute(rules, t, act.candidate, bct.candidate);
    SnapshotsCommute(t, a, b);
    UndoParts(t, Undo(t, a).value, a);
    UndoParts(t, Undo(t, b).value, b);
    UndoParts(Undo(t, a).value, Undo(Undo(t, a).value, b).value, b);
    UndoParts(Undo(t, b).value, Undo(Undo(t, b).value, a).value, a);
    ReopenReads(Undo(t, a).value, Reopen(t, act.candidate), bct.candidate);
    ReopenReads(Undo(t, b).value, Reopen(t, bct.candidate), act.candidate);
    var ab, ba := Undo(Undo(t, a).value, b).value, Undo(Undo(t, b).value, a).value;
    assert ab.entries == ba.entries && ab.actions == ba.actions && ab.rows == ba.rows && ab.candidates == ba.candidates;
  }

  /** An undo's effect, table by table. */
  lemma UndoParts(t: Tables, t': Tables, a: nat)
    requires Undo(t, a) == Ok(t')
    ensures a < |t.actions| && t.actions[a].target < |t.entries|
    ensures t'.entries == WithSnapshot(t.entries, t.actions[a])
    ensures t'.actions == t.actions[a := t.actions[a].(undone := true)]
    ensures t'.rows == Reopen(t, t.actions[a].candidate).rows
      && t'.candidates == Reopen(t, t.actions[a].candidate).candidates
    ensures t' == t.(entries := t'.entries, actions := t'.actions, rows := t'.rows, candidates := t'.candidates)
  {
  }

  function WithSnapshot(entries: seq<Entry>, act: Action): seq<Entry>
    requires act.target < |entries|
  {
    entries[act.target := entries[act.target].(fields := Restored(entries[act.target].fields, act.before))]
  }

  lemma DisjointSnapshotsCommute(fields: Fields, m: Snapshot, n: Snapshot)
    requires forall f :: m.At(f).None? || n.At(f).None?
    ensures Restored(Restored(fields, m), n) == Restored(Restored(fields, n), m)
  {
    SameColumns(Restored(Restored(fields, m), n), Restored(Restored(fields, n), m));
  }

  /** Live actions write disjoint columns, so their snapshots can be put back in either order. */
  lemma SnapshotsCommute(t: Tables, a: nat, b: nat)
    requires ClaimsDisjoint(t) && Live(t, a) && Live(t, b) && a != b
    requires t.actions[a].target < |t.entries| && t.actions[b].target < |t.entries|
    requires SnapshotMatches(t.actions[a]) && SnapshotMatches(t.actions[b])
    ensures WithSnapshot(WithSnapshot(t.entries, t.actions[a]), t.actions[b]) ==
      WithSnapshot(WithSnapshot(t.entries, t.actions[b]), t.actions[a])
  {
    var act, bct := t.actions[a], t.actions[b];
    if act.target == bct.target {
      assert forall f ::
        act.before.At(f).Some? && bct.before.At(f).Some? ==> Claims(t, a, act.target, f) && Claims(t, b, act.target, f);
      DisjointSnapshotsCommute(t.entries[act.target].fields, act.before, bct.before);
    }
  }

  lemma PutRowsCommute(t: Tables, r: RowRef, x: Row, q: RowRef, y: Row)
    requires HasRow(t, r) && HasRow(t, q) && r != q
    ensures PutRow(PutRow(t, r, x), q, y).rows == PutRow(PutRow(t, q, y), r, x).rows
  {
    if r.batch == q.batch {
      assert t.rows[r.batch][r.index := x][q.index := y] == t.rows[r.batch][q.index := y][r.index := x];
    }
  }

  function Reopened(row: Row): Row { row.(status := RowDuplicate, effect := None) }

  lemma ReopenPresent(t: Tables, c: nat)
    requires c in t.candidates && HasRow(t, t.candidates[c].row)
    ensures
      var r := t.candidates[c].row;
      && Reopen(t, c).rows == PutRow(t, r, Reopened(RowAt(t, r))).rows
      && Reopen(t, c).candidates == t.candidates[c := t.candidates[c].(status := UndoApplied)]
  {
  }

  /** Different candidates belong to different rows, so they can be handed back in either order. */
  lemma ReopensCommute(rules: Rules, t: Tables, c: nat, d: nat)
    requires Inv(rules, t) && c != d
    ensures
      var cd, dc := Reopen(Reopen(t, c), d), Reopen(Reopen(t, d), c);
      cd.rows == dc.rows && cd.candidates == dc.candidates
  {
    if c in t.candidates && d in t.candidates {
      assert CandidateOk(t, c) && CandidateOk(t, d) && t.candidates[c].row != t.candidates[d].row;
      ReopensOfTwo(t, c, d);
    }
  }

  lemma ReopensOfTwo(t: Tables, c: nat, d: nat)
    requires c != d && c in t.candidates && d in t.candidates && t.candidates[c].row != t.candidates[d].row
    requires HasRow(t, t.candidates[c].row) && HasRow(t, t.candidates[d].row)
    ensures
      var cd, dc := Reopen(Reopen(t, c), d), Reopen(Reopen(t, d), c);
      cd.rows == dc.rows && cd.candidates == dc.candidates
  {
    var r, q := t.candidates[c].row, t.candidates[d].row;
    var tc, td := Reopen(t, c), Reopen(t, d);
    ReopenPresent(t, c);
    ReopenPresent(t, d);
    assert HasRow(tc, q) && RowAt(tc, q) == RowAt(t, q);
    assert HasRow(td, r) && RowAt(td, r) == RowAt(t, r);
    ReopenPresent(tc, d);
    ReopenPresent(td, c);
    PutRowsCommute(t, r, Reopened(RowAt(t, r)), q, Reopened(RowAt(t, q)));
  }

  /** Handing a candidate back reads and writes rows and candidates only. */
  lemma ReopenReads(t: Tables, u: Tables, c: nat)
    requires t.rows == u.rows && t.candidates == u.candidates
    ensures Reopen(t, c).rows == Reopen(u, c).rows && Reopen(t, c).candidates == Reopen(u, c).candidates
  {
  }

  // ---- Round trips ----

  /**
   * Undoing a merge right away, from any state at all: the directory is exactly as before the merge, and the
   * candidate is back in review, so that merging it again writes the same columns again.
   */
  lemma MergeUndoRoundTrip(t: Tables, c: nat)
    requires Merge(t, c).Ok?
    ensures
      var m := Merge(t, c).value;
      var u := Undo(m, |t.actions|);
      && u.Ok? && u.value.entries == t.entries
      && c in u.value.candidates && u.value.candidates[c].status == UndoApplied
      && RowAt(u.value, t.candidates[c].row).status == RowDuplicate
      && Merge(u.value, c).Ok?
      && Merge(u.value, c).value.entries == m.entries
      && Merge(u.value, c).value.actions[|t.actions| + 1] == m.actions[|t.actions|]
  {
    var m := Merge(t, c).value;
    var act := m.actions[|t.actions|];
    var current := t.entries[act.target].fields;
    SameColumns(Restored(m.entries[act.target].fields, act.before), current);
    var u := Undo(m, |t.actions|).value;
    assert u.entries[act.target] == t.entries[act.target];
    assert u.entries == t.entries;
  }

  /**
   * With outside edits in play, an undo is all or nothing. It goes through exactly when the action is live, its entry
   * exists and every column it wrote still shows what it wrote; then exactly those columns return to their snapshot
   * and every other column and entry is left alone. Otherwise nothing changes.
   */
  lemma UndoRestoresItsColumnsOrNothing(rules: Rules, t: Tables, steps: seq<Step>, a: nat)
    requires Fresh(t) && Sound(rules) && a < |Run(rules, t, steps).actions|
    ensures
      var r := Run(rules, t, steps);
      var act := r.actions[a];
      var r' := Next(rules, r, UndoStep(a));
      && act.target < |r.entries| && SnapshotMatches(act)
      && (Undo(r, a).Ok? <==> Live(r, a) && forall f ::
          act.applied.At(f).Some? ==> r.entries[act.target].fields.At(f) == act.applied.At(f))
      && (Undo(r, a).Rejected? ==> r' == r)
      && (Undo(r, a).Ok? ==>
            && |r'.entries| == |r.entries| && !Live(r', a)
            && (forall x :: 0 <= x < |r.entries| && x != act.target ==> r'.entries[x] == r.entries[x])
            && r'.entries[act.target].displayName == r.entries[act.target].displayName
            && (forall f :: act.applied.At(f).Some? ==> act.before.At(f) == Some(r'.entries[act.target].fields.At(f)))
            && (forall f ::
                act.applied.At(f).None? ==> r'.entries[act.target].fields.At(f) == r.entries[act.target].fields.At(f)))
  {
    FreshInv(rules, t);
    RunKeeps(rules, t, steps);
    assert ActionOk(Run(rules, t, steps), a);
  }

  /**
   * Ignoring has no status guard, so a merged candidate can be ignored: the merge stays live and its columns stay
   * written, the candidate can no longer be merged, and undoing the action takes the candidate out of `ignored`.
   */
  lemma IgnoringAMergedCandidateKeepsTheMerge(t: Tables, c: nat)
    requires Merge(t, c).Ok?
    ensures
      var m := Merge(t, c).value;
      var g := Ignore(m, c);
      && g.Ok? && g.value.candidates[c].status == Ignored
      && Live(g.value, |t.actions|) && g.value.entries == m.entries
      && Merge(g.value, c) == Rejected(NotMergeable)
      && Undo(g.value, |t.actions|).Ok?
      && Undo(g.value, |t.actions|).value.candidates[c].status == UndoApplied
      && Undo(g.value, |t.actions|).value.entries == t.entries
  {
    MergeUndoRoundTrip(t, c);
  }

  /**
   * Ignoring leaves a live merge behind exactly when the candidate was merged: no other candidate not yet ignored
   * has one.
   */
  lemma IgnoredKeepsLiveMergeIff(rules: Rules, t: Tables, steps: seq<Step>, c: nat)
    requires Fresh(t) && Sound(rules) && c in Run(rules, t, steps).candidates
    requires Run(rules, t, steps).candidates[c].status != Ignored
    ensures
      var r := Run(rules, t, steps);
      var g := Ignore(r, c);
      && g.Ok? && g.value.candidates[c].status == Ignored
      && ((exists a :: Live(g.value, a) && g.value.actions[a].candidate == c) <==> r.candidates[c].status == Merged)
  {
    FreshInv(rules, t);
    RunKeeps(rules, t, steps);
    var r := Run(rules, t, steps);
    assert CandidateOk(r, c);
    var g := Ignore(r, c);
    assert g.Ok? && g.value.actions == r.actions;
    if r.candidates[c].status == Merged {
      assert Live(g.value, r.candidates[c].action.value);
    }
    if a :| Live(g.value, a) && g.value.actions[a].candidate == c { assert ActionOk(r, a); }
  }
}
