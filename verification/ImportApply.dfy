/**
 * Applying a batch: what becomes of each row, the counts it returns, and idempotence; then the invariant over whole
 * runs.
 */
module ImportApply {
  import opened Common
  import opened ImportText
  import opened ImportTables
  import opened ImportInvariants
  import opened ImportRuns

  /** Entering one row touches the directory only: it adds at most one entry, named after the row and credited to it. */
  lemma EnterShape(rules: Rules, t: Tables, n: Normalized, r: RowRef)
    ensures
      var t' := Enter(rules, t, n, r).0;
      && t'.rows == t.rows && t'.batches == t.batches && t'.candidates == t.candidates
      && t'.nextCandidate == t.nextCandidate && t'.actions == t.actions
    ensures
      var t' := Enter(rules, t, n, r).0;
      || (n.Roster? && t'.entries == t.entries && t'.base == t.base && t'.origins == t.origins)
      || ((n.Roster? ==> FirstIndex(t.entries, NameIs(rules.lower, NameOf(n))).None?)
          && (exists e: Entry ::
              e.displayName == NameOf(n) && t'.entries == t.entries + [e] && t'.base == t.base + [e.fields])
          && t'.origins == t.origins + [Some(r)])
  {
    if n.Member? {
      var e := Entry(n.displayName, n.fields);
      assert Enter(rules, t, n, r).0.entries == t.entries + [e];
    } else if FirstIndex(t.entries, NameIs(rules.lower, n.performer)).None? {
      var e := RosterEntry(n);
      assert Enter(rules, t, n, r).0.entries == t.entries + [e];
    }
  }

  /**
   * In a coherent state a row's status alone decides what an apply does with it. In particular a row that has a
   * candidate is never entered as a new record: only a row with status `valid` is.
   */
  lemma ApplyVerdict(rules: Rules, s: Sweep, r: RowRef)
    requires Inv(rules, s.t) && HasRow(s.t, r)
    ensures
      var row := RowAt(s.t, r);
      var s' := ApplyRow(rules, s, r);
      match row.status
      case RowApplied => s' == s.(processed := s.processed + 1)
      case RowMerged => s' == s.(processed := s.processed + 1)
      case RowIgnored => s' == s.(processed := s.processed + 1)
      case RowInvalid => s' == s
      case RowDuplicate => s' == s.(unresolved := s.unresolved + 1)
      case RowValid =>
        && row.normalized.Some?
        && (forall c :: !CandidateFor(s.t, c, r))
        && var (t, effect) := Enter(rules, s.t, row.normalized.value, r);
        && s' == Sweep(PutRow(t, r, row.(status := RowApplied, effect := Some(effect))), s.processed + 1, s.unresolved)
  {
    var row := RowAt(s.t, r);
    assert BatchOk(rules, s.t.batches[r.batch], s.t.rows[r.batch]);
    assert RowOk(rules, s.t.batches[r.batch].kind, s.t.batches[r.batch].file.rows[r.index], row);
    forall c | CandidateFor(s.t, c, r)
      ensures StatusPair(s.t.candidates[c].status, row.status)
    {
      assert CandidateOk(s.t, c);
    }
    if row.status == RowDuplicate {
      var c :| CandidateFor(s.t, c, r);
      assert Unresolved(s.t.candidates[c].status);
    }
    EnterShape(rules, s.t, if row.normalized.Some? then row.normalized.value else Roster("", "", None, ""), r);
  }

  /**
   * A row may be entered at most once: a valid row has not created an entry before, and an entry it would create
   * twice is found instead.
   */
  lemma NotYetEntered(rules: Rules, t: Tables, r: RowRef, e: int)
    requires Inv(rules, t) && HasRow(t, r) && RowAt(t, r).status == RowValid && RowAt(t, r).normalized.Some?
    requires
      || RowAt(t, r).normalized.value.Member?
      || FirstIndex(t.entries, NameIs(rules.lower, NameOf(RowAt(t, r).normalized.value))).None?
    requires Sound(rules)
    ensures !CreatedBy(t, e, r)
  {
    var n := RowAt(t, r).normalized.value;
    assert BatchOk(rules, t.batches[r.batch], t.rows[r.batch]);
    assert RowOk(rules, t.batches[r.batch].kind, t.batches[r.batch].file.rows[r.index], RowAt(t, r));
    assert forall k ::
      0 <= k < |t.entries| && t.entries[k].displayName == NameOf(n) ==> NameIs(rules.lower, NameOf(n))(t.entries[k]);
  }

  /** `t'` is `t` with valid row `r` applied and at most one entry, credited to `r`, added. */
  ghost predicate Enters(rules: Rules, t: Tables, t': Tables, r: RowRef) {
    && HasRow(t, r) && RowAt(t, r).status == RowValid && RowAt(t, r).normalized.Some?
    && HasRow(t', r) && t'.rows == PutRow(t, r, RowAt(t', r)).rows
    && RowAt(t', r) == RowAt(t, r).(status := RowApplied, effect := RowAt(t', r).effect)
    && t'.batches == t.batches && t'.candidates == t.candidates
    && t'.nextCandidate == t.nextCandidate && t'.actions == t.actions
    && |t.entries| <= |t'.entries| <= |t.entries| + 1
    && (forall e :: 0 <= e < |t.entries| ==> t'.entries[e] == t.entries[e])
    && |t'.base| == |t'.origins| == |t'.entries|
    && (forall e :: 0 <= e < |t.base| && e < |t.entries| ==> t'.base[e] == t.base[e])
    && (forall e :: 0 <= e < |t.origins| && e < |t.entries| ==> t'.origins[e] == t.origins[e])
    && (|t'.entries| == |t.entries| + 1 ==>
          && t'.origins[|t.entries|] == Some(r)
          && t'.entries[|t.entries|].displayName == NameOf(RowAt(t, r).normalized.value)
          && t'.base[|t.entries|] == t'.entries[|t.entries|].fields
          && (|| RowAt(t, r).normalized.value.Member?
              || FirstIndex(t.entries, NameIs(rules.lower, NameOf(RowAt(t, r).normalized.value))).None?))
    && (RowAt(t, r).normalized.value.Member? ==> |t'.entries| == |t.entries| + 1)
  }

  lemma EntersShapes(rules: Rules, t: Tables, t': Tables, r: RowRef)
    requires Inv(rules, t) && Enters(rules, t, t', r)
    ensures Shapes(rules, t')
  {
    forall b | 0 <= b < |t'.rows|
      ensures BatchOk(rules, t'.batches[b], t'.rows[b])
    {
      assert BatchOk(rules, t.batches[b], t.rows[b]);
      if b == r.batch {
        assert RowOk(rules, t.batches[b].kind, t.batches[b].file.rows[r.index], RowAt(t, r));
        assert forall i :: 0 <= i < |t.rows[b]| && i != r.index ==> t'.rows[b][i] == t.rows[b][i];
      }
    }
  }

  lemma EntersCoherent(rules: Rules, t: Tables, t': Tables, r: RowRef)
    requires Inv(rules, t) && Enters(rules, t, t', r)
    ensures CandidatesOk(t') && OneCandidatePerRow(t') && Backed(t') && ActionsOk(t') && OneLiveActionPerCandidate(t')
  {
    assert forall x :: HasRow(t', x) <==> HasRow(t, x);
    assert forall x :: HasRow(t, x) && x != r ==> RowAt(t', x) == RowAt(t, x);
    forall c | c in t'.candidates ensures CandidateOk(t', c) { assert CandidateOk(t, c); }
    forall x | HasRow(t', x) && UnderReview(RowAt(t', x).status)
      ensures exists c :: CandidateFor(t', c, x)
    {
      var c :| CandidateFor(t, c, x);
      assert CandidateFor(t', c, x);
    }
    forall a | 0 <= a < |t'.actions| ensures ActionOk(t', a) { assert ActionOk(t, a); }
    assert forall a :: Live(t', a) <==> Live(t, a);
  }

  lemma EntersOnce(rules: Rules, t: Tables, t': Tables, r: RowRef)
    requires Inv(rules, t) && Enters(rules, t, t', r) && Shapes(rules, t') && Sound(rules)
    ensures Once(rules, t')
  {
    var n := RowAt(t, r).normalized.value;
    assert BatchOk(rules, t.batches[r.batch], t.rows[r.batch]);
    assert RowOk(rules, t.batches[r.batch].kind, t.batches[r.batch].file.rows[r.index], RowAt(t, r));
    assert forall x :: Content(rules, t', x) == Content(rules, t, x);
    assert Content(rules, t, r) == Some(n);
    forall e, x | CreatedBy(t', e, x)
      ensures CreatedBy(t, e, x) || (e == |t.entries| && x == r && forall f :: !CreatedBy(t, f, r))
    {
      if e == |t.entries| {
        forall f ensures !CreatedBy(t, f, r) { NotYetEntered(rules, t, r, f); }
      } else {
        assert CreatedBy(t, e, x);
      }
    }
    forall e, x | CreatedBy(t', e, x) && HasRow(t', x) && t'.batches[x.batch].kind == MemberKind
      ensures RowAt(t', x).status != RowValid
    {
      if x != r {
        assert CreatedBy(t, e, x);
        assert HasRow(t, x) && RowAt(t', x) == RowAt(t, x);
      }
    }
  }

  lemma EntersKeeps(rules: Rules, t: Tables, t': Tables, r: RowRef)
    requires Inv(rules, t) && Enters(rules, t, t', r) && Sound(rules)
    ensures Inv(rules, t')
  {
    EntersShapes(rules, t, t', r);
    EntersCoherent(rules, t, t', r);
    EntersOnce(rules, t, t', r);
  }

  lemma ApplyRowEnters(rules: Rules, s: Sweep, r: RowRef)
    requires Inv(rules, s.t) && HasRow(s.t, r) && RowAt(s.t, r).status == RowValid
    ensures Enters(rules, s.t, ApplyRow(rules, s, r).t, r)
  {
    ApplyVerdict(rules, s, r);
    EnterShape(rules, s.t, RowAt(s.t, r).normalized.value, r);
  }

  lemma ApplyRowKeeps(rules: Rules, s: Sweep, r: RowRef)
    requires Inv(rules, s.t) && HasRow(s.t, r) && Sound(rules)
    ensures Inv(rules, ApplyRow(rules, s, r).t)
  {
    ApplyVerdict(rules, s, r);
    if RowAt(s.t, r).status == RowValid {
      ApplyRowEnters(rules, s, r);
      EntersKeeps(rules, s.t, ApplyRow(rules, s, r).t, r);
    }
  }

  /** A row after an apply: a valid one is applied, any other is as it was. */
  ghost predicate RowApplies(before: Row, after: Row) {
    if before.status == RowValid then after == before.(status := RowApplied, effect := after.effect)
    else after == before
  }

  /** The first `n` rows are dealt with, and the counts say how. */
  ghost predicate Swept(t: Tables, b: nat, n: nat, s: Sweep)
    requires b < |t.rows| && n <= |t.rows[b]|
  {
    && s.t.batches == t.batches && s.t.candidates == t.candidates && s.t.actions == t.actions
    && |s.t.rows| == |t.rows| && s.t.rows == t.rows[b := s.t.rows[b]] && |s.t.rows[b]| == |t.rows[b]|
    && (forall i :: 0 <= i < n ==> RowApplies(t.rows[b][i], s.t.rows[b][i]))
    && s.t.rows[b][n..] == t.rows[b][n..]
    && s.processed == Tally(s.t.rows[b][..n], SETTLED)
    && s.unresolved == Tally(s.t.rows[b][..n], {RowDuplicate})
  }

  lemma ApplyRowSweeps(rules: Rules, t: Tables, b: nat, n: nat, s: Sweep)
    requires b < |t.rows| && n < |t.rows[b]| && Swept(t, b, n, s) && Inv(rules, s.t)
    ensures Swept(t, b, n + 1, ApplyRow(rules, s, RowRef(b, n)))
  {
    var r := RowRef(b, n);
    var s' := ApplyRow(rules, s, r);
    assert s.t.rows[b][n] == s.t.rows[b][n..][0] == t.rows[b][n..][0];
    ApplyVerdict(rules, s, r);
    if RowAt(s.t, r).status == RowValid { ApplyRowEnters(rules, s, r); }
    OneRowTallied(s.t.rows[b], s'.t.rows[b], n);
  }

  lemma OneRowTallied(rows: seq<Row>, rows': seq<Row>, n: nat)
    requires n < |rows| && |rows'| == |rows| && rows' == rows[n := rows'[n]]
    ensures Tally(rows'[..n + 1], SETTLED) == Tally(rows[..n], SETTLED) + (if rows'[n].status in SETTLED then 1 else 0)
    ensures Tally(rows'[..n + 1], {RowDuplicate}) ==
      Tally(rows[..n], {RowDuplicate}) + (if rows'[n].status == RowDuplicate then 1 else 0)
    ensures rows'[n + 1..] == rows[n..][1..]
  {
    assert rows'[..n + 1] == rows[..n] + [rows'[n]];
    TallyAppend(rows[..n], rows'[n], SETTLED);
    TallyAppend(rows[..n], rows'[n], {RowDuplicate});
  }

  lemma SweepsOn(rules: Rules, t: Tables, b: nat, n: nat, s: Sweep)
    requires Sound(rules) && b < |t.rows| && n < |t.rows[b]| && Swept(t, b, n, s) && Inv(rules, s.t)
    ensures
      var s' := ApplyRow(rules, s, RowRef(b, n));
      Swept(t, b, n + 1, s') && Inv(rules, s'.t)
  {
    ApplyRowSweeps(rules, t, b, n, s);
    ApplyRowKeeps(rules, s, RowRef(b, n));
  }

  lemma {:induction false} ApplyRowsSweep(rules: Rules, t: Tables, b: nat, n: nat)
    requires Inv(rules, t) && Sound(rules) && b < |t.rows| && n <= |t.rows[b]|
    ensures Swept(t, b, n, ApplyRows(rules, t, b, n)) && Inv(rules, ApplyRows(rules, t, b, n).t)
  {
    if n > 0 {
      ApplyRowsSweep(rules, t, b, n - 1);
      SweepsOn(rules, t, b, n - 1, ApplyRows(rules, t, b, n - 1));
    }
  }

  /** Updating a normalized batch's status and its processed and duplicate counts. */
  lemma CountsKeep(rules: Rules, t: Tables, b: nat, status: BatchStatus, processed: nat, duplicates: nat)
    requires Inv(rules, t) && b < |t.batches| && t.batches[b].status != Uploaded && status != Uploaded
    ensures Inv(rules, t.(batches := t.batches[b := t.batches[b].(status := status,
                            counts := t.batches[b].counts.(processed := processed, duplicates := duplicates))]))
  {
    var t' := t.(batches := t.batches[b := t.batches[b].(status := status,
                   counts := t.batches[b].counts.(processed := processed, duplicates := duplicates))]);
    assert forall r :: HasRow(t', r) <==> HasRow(t, r);
    assert forall r :: HasRow(t, r) ==> RowAt(t', r) == RowAt(t, r);
    forall c | c in t'.candidates ensures CandidateOk(t', c) { assert CandidateOk(t, c); }
    forall r | HasRow(t', r) && UnderReview(RowAt(t', r).status)
      ensures exists c :: CandidateFor(t', c, r)
    {
      var c :| CandidateFor(t, c, r);
      assert CandidateFor(t', c, r);
    }
    forall a | 0 <= a < |t'.actions| ensures ActionOk(t', a) { assert ActionOk(t, a); }
    assert forall a :: Live(t', a) <==> Live(t, a);
    forall x | 0 <= x < |t'.rows|
      ensures BatchOk(rules, t'.batches[x], t'.rows[x])
    {
      assert BatchOk(rules, t.batches[x], t.rows[x]);
    }
    assert forall e, r :: CreatedBy(t', e, r) <==> CreatedBy(t, e, r);
    assert forall r :: Content(rules, t', r) == Content(rules, t, r);
  }

  lemma ApplyKeeps(rules: Rules, t: Tables, b: nat)
    requires Inv(rules, t) && Sound(rules) && Apply(rules, t, b).Ok?
    ensures Inv(rules, Apply(rules, t, b).value)
  {
    ApplyRowsSweep(rules, t, b, |t.rows[b]|);
    var s := ApplyRows(rules, t, b, |t.rows[b]|);
    CountsKeep(rules, s.t, b, if s.unresolved > 0 then NeedsReview else Processed, s.processed,
        |BatchCandidates(s.t.candidates, b)|);
  }

  /**
   * What an apply returns adds up: every row is processed, an unresolved duplicate, or invalid; the batch is
   * `processed` exactly when no duplicate is left unresolved; no row is left merely valid.
   */
  lemma ApplyConserves(rules: Rules, t: Tables, b: nat)
    requires Inv(rules, t) && Sound(rules) && Apply(rules, t, b).Ok?
    ensures
      var t' := Apply(rules, t, b).value;
      var rows := t'.rows[b];
      && t'.batches[b].counts.total == |rows| == |t.rows[b]|
      && |rows| == t'.batches[b].counts.processed + Tally(rows, {RowDuplicate}) + Tally(rows, {RowInvalid})
      && (t'.batches[b].status == Processed <==> forall i :: 0 <= i < |rows| ==> rows[i].status != RowDuplicate)
      && (t'.batches[b].status == NeedsReview <==> exists i :: 0 <= i < |rows| && rows[i].status == RowDuplicate)
      && (forall i :: 0 <= i < |rows| ==> RowApplies(t.rows[b][i], rows[i]))
  {
    ApplyRowsSweep(rules, t, b, |t.rows[b]|);
    var s := ApplyRows(rules, t, b, |t.rows[b]|);
    var rows := s.t.rows[b];
    assert rows[..|rows|] == rows;
    TallyPartition(rows);
    TallyZero(rows, RowDuplicate);
    assert BatchOk(rules, t.batches[b], t.rows[b]);
  }

  /** Once no row is merely valid, sweeping the rows changes no table. */
  lemma {:induction false} QuietSweep(rules: Rules, t: Tables, b: nat, n: nat)
    requires Inv(rules, t) && b < |t.rows| && n <= |t.rows[b]|
    requires forall i :: 0 <= i < |t.rows[b]| ==> t.rows[b][i].status != RowValid
    ensures ApplyRows(rules, t, b, n).t == t
  {
    if n > 0 {
      QuietSweep(rules, t, b, n - 1);
      ApplyVerdict(rules, ApplyRows(rules, t, b, n - 1), RowRef(b, n - 1));
    }
  }

  /** Applying an applied batch again changes nothing (timestamps are not modelled). */
  lemma ApplyIdempotent(rules: Rules, t: Tables, b: nat)
    requires Inv(rules, t) && Sound(rules) && Apply(rules, t, b).Ok?
    ensures var t' := Apply(rules, t, b).value; Apply(rules, t', b) == Ok(t')
  {
    var t' := Apply(rules, t, b).value;
    ApplyKeeps(rules, t, b);
    ApplyConserves(rules, t, b);
    ApplyRowsSweep(rules, t, b, |t.rows[b]|);
    QuietSweep(rules, t', b, |t'.rows[b]|);
    ApplyRowsSweep(rules, t', b, |t'.rows[b]|);
    var s, s' := ApplyRows(rules, t, b, |t.rows[b]|), ApplyRows(rules, t', b, |t'.rows[b]|);
    assert s.t.rows[b] == s'.t.rows[b];
    assert t'.batches[b := t'.batches[b]] == t'.batches;
  }

  // ---- Whole runs ----

  lemma StepKeeps(rules: Rules, t: Tables, s: Step)
    requires Inv(rules, t) && Sound(rules)
    ensures Inv(rules, Next(rules, t, s))
  {
    match s
    case UploadStep(kind, file) => UploadKeeps(rules, t, kind, file);
    case NormalizeStep(b) => if Normalize(rules, t, b).Ok? { NormalizeKeeps(rules, t, b); }
    case ApplyStep(b) => if Apply(rules, t, b).Ok? { ApplyKeeps(rules, t, b); }
    case MergeStep(c) => if Merge(t, c).Ok? { MergeKeeps(rules, t, c); }
    case IgnoreStep(c) => if Ignore(t, c).Ok? { IgnoreKeeps(rules, t, c); }
    case UndoStep(a) => if Undo(t, a).Ok? { UndoKeeps(rules, t, a); }
    case EditStep(e, f, v) => EditKeeps(rules, t, e, f, v);
  }

  lemma {:induction false} RunKeeps(rules: Rules, t: Tables, steps: seq<Step>)
    requires Inv(rules, t) && Sound(rules)
    ensures Inv(rules, Run(rules, t, steps))
    decreases |steps|
  {
    if steps != [] {
      StepKeeps(rules, t, steps[0]);
      NextKeepsShape(rules, t, steps[0]);
      RunKeeps(rules, Next(rules, t, steps[0]), steps[1..]);
    }
  }

  /**
   * Exactly-once effect: over any run of the pipeline, outside edits of columns included, a CSV row creates at
   * most one directory entry.
   */
  lemma EachRowCreatesAtMostOneEntry(rules: Rules, t: Tables, steps: seq<Step>, row: RowRef, e: int, f: int)
    requires Fresh(t) && Sound(rules)
    ensures var r := Run(rules, t, steps); CreatedBy(r, e, row) && CreatedBy(r, f, row) ==> e == f
  {
    FreshInv(rules, t);
    RunKeeps(rules, t, steps);
  }

  /**
   * Coherence over any run: each candidate and its row carry one of four status pairs, and no candidate has two
   * live merge actions.
   */
  lemma CandidatesStayCoherent(rules: Rules, t: Tables, steps: seq<Step>, c: nat)
    requires Fresh(t) && Sound(rules) && c in Run(rules, t, steps).candidates
    ensures
      var r := Run(rules, t, steps);
      var cand := r.candidates[c];
      && HasRow(r, cand.row)
      && (cand.status, RowAt(r, cand.row).status) in {(Open, RowDuplicate), (Merged, RowMerged),
          (Ignored, RowIgnored), (UndoApplied, RowDuplicate)}
      && (forall a, b ::
          Live(r, a) && Live(r, b) && r.actions[a].candidate == c && r.actions[b].candidate == c ==> a == b)
      && (cand.status == Merged ==> exists a :: Live(r, a) && r.actions[a].candidate == c)
      && (Unresolved(cand.status) ==> forall a :: Live(r, a) ==> r.actions[a].candidate != c)
  {
    FreshInv(rules, t);
    RunKeeps(rules, t, steps);
    var r := Run(rules, t, steps);
    assert CandidateOk(r, c);
    forall a | Live(r, a) && r.actions[a].candidate == c
      ensures !Unresolved(r.candidates[c].status)
    {
      assert ActionOk(r, a);
    }
  }
}
