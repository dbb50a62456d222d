/**
 * The pipeline in its own, imperative form: loops that walk rows, columns and snapshots and update tables in place.
 * Each operation is proved to commit exactly what its table-level description says, which is what the lemmas of the
 * other import modules are about.
 */
module ImportDesk {
  import opened Common
  import opened ImportText
  import opened ImportTables

  ghost predicate ListsEveryFieldOnce(fields: seq<Field>) {
    && (forall f: Field :: f in fields)
    && (forall i, j :: 0 <= i < j < |fields| ==> fields[i] != fields[j])
  }

  lemma UpdatableFieldsCover()
    ensures ListsEveryFieldOnce(UPDATABLE_FIELDS)
  {
    forall f: Field
      ensures f in UPDATABLE_FIELDS
    {
      match f
      case StageName => assert UPDATABLE_FIELDS[0] == f;
      case Email => assert UPDATABLE_FIELDS[1] == f;
      case Phone => assert UPDATABLE_FIELDS[2] == f;
      case AddressLine1 => assert UPDATABLE_FIELDS[3] == f;
      case Biography => assert UPDATABLE_FIELDS[4] == f;
      case Region => assert UPDATABLE_FIELDS[5] == f;
    }
  }

  /**
   * Of the changes to make, `goal`, those to visited columns are made, and what those columns showed before is
   * remembered.
   */
  ghost predicate FilledUpTo(goal: Changes, current: Fields, visited: set<Field>, now: Fields, before: Snapshot,
      applied: Changes)
  {
    forall f ::
      if f in visited && goal.At(f).Some?
      then applied.At(f) == goal.At(f) && before.At(f) == Some(current.At(f)) && now.At(f) == goal.At(f)
      else applied.At(f) == None && before.At(f) == None && now.At(f) == current.At(f)
  }

  /** Making one change `v`, if there is one. */
  ghost predicate FillsOne(v: Option<string>, field: Field, now: Fields, before: Snapshot, applied: Changes,
      now': Fields, before': Snapshot, applied': Changes)
  {
    if v.Some?
    then now' == now.With(field, v) && before' == before.With(field, Some(now.At(field)))
      && applied' == applied.With(field, v)
    else now' == now && before' == before && applied' == applied
  }

  lemma FillStep(goal: Changes, current: Fields, visited: set<Field>, field: Field,
                 now: Fields, before: Snapshot, applied: Changes, now': Fields, before': Snapshot, applied': Changes)
    requires FilledUpTo(goal, current, visited, now, before, applied) && field !in visited
    requires FillsOne(goal.At(field), field, now, before, applied, now', before', applied')
    ensures FilledUpTo(goal, current, visited + {field}, now', before', applied')
  {
  }

  /** A column not visited yet still decides what comes in as it did at the start. */
  lemma FillingUnvisited(n: Normalized, current: Fields, now: Fields, field: Field)
    requires now.At(field) == current.At(field)
    ensures Filling(n, now, field) == Fillable(n, current).At(field)
  {
  }

  lemma FillDone(goal: Changes, current: Fields, visited: set<Field>, now: Fields, before: Snapshot, applied: Changes)
    requires FilledUpTo(goal, current, visited, now, before, applied) && forall f: Field :: f in visited
    ensures applied == goal && before == SnapshotOf(current, applied) && now == Written(current, applied)
  {
    SameColumns(applied, goal);
    SameColumns(before, SnapshotOf(current, applied));
    SameColumns(now, Written(current, applied));
  }

  /** The counters of a sweep only count. */
  lemma ApplyRowShifts(rules: Rules, t: Tables, processed: nat, unresolved: nat, r: RowRef)
    requires HasRow(t, r)
    ensures
      var one := ApplyRow(rules, Sweep(t, 0, 0), r);
      ApplyRow(rules, Sweep(t, processed, unresolved), r) ==
        Sweep(one.t, processed + one.processed, unresolved + one.unresolved)
  {
  }

  /** The counters of a normalization only count. */
  lemma DraftRowCounts(rules: Rules, entries: seq<Entry>, b: nat, kind: Kind, raw: RawRow, d: Draft)
    ensures
      var one := DraftRow(rules, entries, b, kind, raw, d.(valid := 0, issues := 0, duplicates := 0));
      DraftRow(rules, entries, b, kind, raw, d)
      == one.(valid := d.valid + one.valid, issues := d.issues + one.issues,
          duplicates := d.duplicates + one.duplicates)
  {
  }

  class Desk {
    const rules: Rules
    var entries: seq<Entry>
    var items: seq<Item>
    var links: seq<Link>
    var batches: seq<Batch>
    var rows: seq<seq<Row>>
    var candidates: map<nat, Candidate>
    var nextCandidate: nat
    var actions: seq<Action>
    ghost var base: seq<Fields>
    ghost var origins: seq<Option<RowRef>>

    ghost predicate Valid()
      reads this
    {
      |rows| == |batches|
    }

    ghost function Contents(): Tables
      reads this
    {
      Tables(entries, items, links, batches, rows, candidates, nextCandidate, actions, base, origins)
    }

    constructor (rules: Rules, entries: seq<Entry>, items: seq<Item>, links: seq<Link>)
      ensures Valid() && Fresh(Contents())
      ensures this.rules == rules && this.entries == entries && this.items == items && this.links == links
    {
      this.rules := rules;
      this.entries, this.items, this.links := entries, items, links;
      batches, rows, candidates, nextCandidate, actions := [], [], map[], 0, [];
      base := seq(|entries|, i requires 0 <= i < |entries| => entries[i].fields);
      origins := seq(|entries|, i => None);
    }

    /** The e-mail scan walks the entries; the name look-up is a query. */
    method FindMemberDuplicate(name: string, email: Option<string>) returns (r: Option<(nat, Reason)>)
      ensures r == MemberDuplicate(rules.lower, entries, name, email)
    {
      if email.Some? && email.value != "" {
        var p := EmailIs(rules.lower, email.value);
        ghost var first := FirstIndex(entries, p);
        for i := 0 to |entries|
          invariant forall j :: 0 <= j < i ==> !p(entries[j])
        {
          if p(entries[i]) {
            return Some((i, EmailMatch));
          }
        }
      }
      var byName := FirstIndex(entries, NameIs(rules.lower, name));
      r := if byName.Some? then Some((byName.value, DisplayNameMatch)) else None;
    }

    /**
     * One row of a normalization: it is appended, and flagged by a new candidate if it looks like an entry there
     * is.
     */
    method NormalizeOneRow(b: nat, kind: Kind, raw: RawRow) returns (status: RowStatus, issues: nat)
      requires b < |rows|
      modifies `rows, `candidates, `nextCandidate
      ensures |rows| == |old(rows)| && rows == old(rows)[b := rows[b]]
      ensures DraftRow(rules, entries, b, kind, raw, Draft(old(rows)[b], old(candidates), old(nextCandidate), 0, 0, 0))
              == Draft(rows[b], candidates, nextCandidate, if status == RowValid then 1 else 0, issues,
                  if status == RowDuplicate then 1 else 0)
    {
      var (normalized, count) := rules.normalize(kind, raw);
      var found: Option<(nat, Reason)> := None;
      issues := count;
      status := RowInvalid;
      if normalized.Some? {
        var n := normalized.value;
        if n.Member? {
          found := FindMemberDuplicate(n.displayName, n.fields.email);
        }
        status := RowValid;
        if found.Some? {
          candidates := candidates[nextCandidate := Candidate(RowRef(b, |rows[b]|), found.value.0, found.value.1,
              Open, None)];
          nextCandidate := nextCandidate + 1;
          status := RowDuplicate;
        }
      }
      rows := rows[b := rows[b] + [Row(raw, normalized, normalized.Some?, status, None)]];
    }

    method NormalizeBatch(b: nat) returns (r: Outcome<Counts, ImportError>)
      requires Valid()
      modifies this
      ensures Valid()
      ensures Contents() == Commit(old(Contents()), Normalize(rules, old(Contents()), b))
      ensures r.Ok? <==> Normalize(rules, old(Contents()), b).Ok?
      ensures r.Ok? ==> b < |batches| && r.value == batches[b].counts
      ensures r.Rejected? ==> Normalize(rules, old(Contents()), b) == Rejected(r.error)
    {
      if b >= |batches| { return Rejected(NotFound); }
      var batch := batches[b];
      match batch.file {
        case NotCsv => return Rejected(OnlyCsv);
        case NoHeader => return Rejected(BadHeader);
        case Table(file) =>
          var valid, issueCount, duplicates := NormalizeRows(b, batch.kind, file);
          batches := batches[b := batch.(status := Normal, counts := Counts(|file|, valid, issueCount, duplicates, 0))];
          r := Ok(batches[b].counts);
      }
    }

    /** The row loop of a normalization, after the batch's old rows and candidates have been deleted. */
    method NormalizeRows(b: nat, kind: Kind, file: seq<RawRow>) returns (valid: nat, issueCount: nat, duplicates: nat)
      requires Valid() && b < |rows|
      modifies `rows, `candidates, `nextCandidate
      ensures |rows| == |old(rows)| && rows == old(rows)[b := rows[b]]
      ensures DraftRows(rules, entries, b, kind, file, EmptyDraft(old(Contents()), b), |file|)
              == Draft(rows[b], candidates, nextCandidate, valid, issueCount, duplicates)
    {
      ghost var empty := EmptyDraft(Contents(), b);
      candidates := WithoutBatch(candidates, b);
      rows := rows[b := []];
      valid, issueCount, duplicates := 0, 0, 0;
      for i := 0 to |file|
        invariant |rows| == |old(rows)| && rows == old(rows)[b := rows[b]]
        invariant DraftRows(rules, entries, b, kind, file, empty, i)
                  == Draft(rows[b], candidates, nextCandidate, valid, issueCount, duplicates)
      {
        ghost var d := Draft(rows[b], candidates, nextCandidate, valid, issueCount, duplicates);
        var status, issues := NormalizeOneRow(b, kind, file[i]);
        DraftRowCounts(rules, entries, b, kind, file[i], d);
        issueCount := issueCount + issues;
        valid := valid + (if status == RowValid then 1 else 0);
        duplicates := duplicates + (if status == RowDuplicate then 1 else 0);
      }
    }

    method CreateEntry(e: Entry, ghost origin: RowRef) returns (id: nat)
      modifies this`entries, this`base, this`origins
      ensures Contents() == AddEntry(old(Contents()), e, origin) && id == |old(entries)|
    {
      id := |entries|;
      entries := entries + [e];
      base, origins := base + [e.fields], origins + [Some(origin)];
    }

    method FindOrCreateDirectoryEntry(n: Normalized, ghost origin: RowRef) returns (id: nat)
      requires n.Roster?
      modifies this`entries, this`base, this`origins
      ensures (Contents(), id) == FindOrCreateEntry(rules, old(Contents()), n, origin)
    {
      var existing := FirstIndex(entries, NameIs(rules.lower, n.performer));
      if existing.Some? {
        return existing.value;
      }
      id := CreateEntry(RosterEntry(n), origin);
    }

    method FindOrCreateRepertoireItem(n: Normalized) returns (id: nat)
      requires n.Roster?
      modifies this`items
      ensures (Contents(), id) == FindOrCreateItem(rules, old(Contents()), n)
    {
      var existing := FirstIndex(items, TitleIs(rules.lower, n.title));
      if existing.Some? {
        id := existing.value;
        if Truthy(n.composer) && !Truthy(items[id].composer) {
          items := items[id := items[id].(composer := n.composer)];
        }
      } else {
        id := |items|;
        items := items + [Item(n.title, n.composer)];
      }
    }

    method EnsurePerformerLink(l: Link)
      modifies this`links
      ensures Contents() == EnsureLink(old(Contents()), l)
    {
      if l in links { return; }
      links := links + [l];
    }

    /** The records a row is applied as. */
    method EnterRow(n: Normalized, ghost origin: RowRef) returns (effect: Effect)
      modifies this`entries, this`base, this`origins, this`items, this`links
      ensures (Contents(), effect) == Enter(rules, old(Contents()), n, origin)
    {
      match n {
        case Member(name, fields) =>
          var id := CreateEntry(Entry(name, fields), origin);
          effect := OnEntry(id);
        case Roster(_, _, _, _) =>
          var e := FindOrCreateDirectoryEntry(n, origin);
          var i := FindOrCreateRepertoireItem(n);
          EnsurePerformerLink(Link(e, i));
          effect := OnLink(Link(e, i));
      }
    }

    /** One row of an apply; `done` and `open` say which counter it moves. */
    method ApplyOneRow(r: RowRef) returns (done: bool, open: bool)
      requires HasRow(Contents(), r)
      modifies this
      ensures ApplyRow(rules, Sweep(old(Contents()), 0, 0), r) ==
        Sweep(Contents(), if done then 1 else 0, if open then 1 else 0)
    {
      var row := rows[r.batch][r.index];
      if Settled(row.status) { return true, false; }
      if !row.isValid || row.normalized.None? { return false, false; }
      var duplicates := set c | c in candidates && candidates[c].row == r;
      ghost var t := Contents();
      if exists c | c in duplicates :: Unresolved(candidates[c].status) {
        ghost var c :| c in duplicates && Unresolved(candidates[c].status);
        assert CandidateFor(t, c, r);
        return false, true;
      }
      assert !HasUnresolved(t, r) by {
        assert forall c :: CandidateFor(t, c, r) ==> c in duplicates;
      }
      if exists c | c in duplicates :: candidates[c].status == Ignored {
        ghost var c :| c in duplicates && candidates[c].status == Ignored;
        assert CandidateFor(t, c, r);
        rows := rows[r.batch := rows[r.batch][r.index := row.(status := RowIgnored)]];
        return true, false;
      }
      assert !HasIgnored(t, r) by {
        assert forall c :: CandidateFor(t, c, r) ==> c in duplicates;
      }
      var effect := EnterRow(row.normalized.value, r);
      rows := rows[r.batch := rows[r.batch][r.index := row.(status := RowApplied, effect := Some(effect))]];
      return true, false;
    }

    /** The row loop of an apply. */
    method SweepRows(b: nat) returns (processed: nat, unresolved: nat)
      requires Valid() && b < |rows|
      modifies this
      ensures Valid()
      ensures ApplyRows(rules, old(Contents()), b, |old(rows)[b]|) == Sweep(Contents(), processed, unresolved)
    {
      ghost var t := Contents();
      processed, unresolved := 0, 0;
      var i := 0;
      while i < |rows[b]|
        invariant |rows| == |t.rows| && |rows[b]| == |t.rows[b]| && batches == t.batches
        invariant i <= |rows[b]|
        invariant ApplyRows(rules, t, b, i) == Sweep(Contents(), processed, unresolved)
      {
        ApplyRowShifts(rules, Contents(), processed, unresolved, RowRef(b, i));
        ghost var s := ApplyRows(rules, t, b, i + 1);
        var done, open := ApplyOneRow(RowRef(b, i));
        processed, unresolved, i := processed + (if done then 1 else 0), unresolved + (if open then 1 else 0), i + 1;
      }
    }

    method ApplyBatch(b: nat) returns (r: Outcome<Counts, ImportError>)
      requires Valid()
      modifies this
      ensures Valid()
      ensures Contents() == Commit(old(Contents()), Apply(rules, old(Contents()), b))
      ensures r.Ok? <==> Apply(rules, old(Contents()), b).Ok?
      ensures r.Ok? ==> b < |batches| && r.value == batches[b].counts
      ensures r.Rejected? ==> Apply(rules, old(Contents()), b) == Rejected(r.error)
    {
      if b >= |batches| { return Rejected(NotFound); }
      if batches[b].status == Uploaded { return Rejected(NotNormalized); }
      var processed, unresolved := SweepRows(b);
      var batch := batches[b];
      batches := batches[b := batch.(
        status := if unresolved > 0 then NeedsReview else Processed,
        counts := batch.counts.(processed := processed, duplicates := |BatchCandidates(candidates, b)|))];
      r := Ok(batches[b].counts);
    }

    /** One column of a merge: filled, and remembered, if something comes in and it is blank. */
    method FillColumn(target: nat, n: Normalized, field: Field, before: Snapshot, applied: Changes)
      returns (before': Snapshot, applied': Changes)
      requires target < |entries|
      modifies this`entries
      ensures |entries| == |old(entries)|
      ensures entries == old(entries)[target := old(entries)[target].(fields := entries[target].fields)]
      ensures FillsOne(Filling(n, old(entries)[target].fields, field), field, old(entries)[target].fields, before,
          applied, entries[target].fields, before', applied')
    {
      before', applied' := before, applied;
      var incoming, existing := Incoming(n, field), entries[target].fields.At(field);
      if Truthy(incoming) && BlankColumn(existing) {
        before' := before.With(field, Some(existing));
        entries := entries[target := entries[target].(fields := entries[target].fields.With(field, incoming))];
        applied' := applied.With(field, incoming);
      }
    }

    /** The column loop of a merge, over a list that names every column once. */
    method FillBlankColumns(target: nat, n: Normalized, fields: seq<Field>) returns (before: Snapshot, applied: Changes)
      requires target < |entries|
      requires ListsEveryFieldOnce(fields)
      modifies this`entries
      ensures applied == Fillable(n, old(entries)[target].fields)
      ensures before == SnapshotOf(old(entries)[target].fields, applied)
      ensures Contents() == SetFields(old(Contents()), target, Written(old(entries)[target].fields, applied))
    {
      ghost var current := entries[target].fields;
      ghost var goal := Fillable(n, current);
      before, applied := Each(f => None), Each(f => None);
      ghost var visited: set<Field> := {};
      for k := 0 to |fields|
        invariant |entries| == |old(entries)|
        invariant entries == old(entries)[target := old(entries)[target].(fields := entries[target].fields)]
        invariant forall j :: 0 <= j < |fields| ==> (fields[j] in visited <==> j < k)
        invariant FilledUpTo(goal, current, visited, entries[target].fields, before, applied)
      {
        ghost var now := entries[target].fields;
        ghost var b, a := before, applied;
        FillingUnvisited(n, current, now, fields[k]);
        before, applied := FillColumn(target, n, fields[k], before, applied);
        FillStep(goal, current, visited, fields[k], now, b, a, entries[target].fields, before, applied);
        visited := visited + {fields[k]};
      }
      forall f: Field ensures f in visited { assert f in fields; }
      FillDone(goal, current, visited, entries[target].fields, before, applied);
    }

    method MergeCandidate(c: nat) returns (r: Outcome<nat, ImportError>)
      requires Valid()
      modifies this
      ensures Valid()
      ensures Contents() == Commit(old(Contents()), Merge(old(Contents()), c))
      ensures r.Ok? <==> Merge(old(Contents()), c).Ok?
      ensures r.Ok? ==> r.value == |old(actions)| < |actions|
      ensures r.Rejected? ==> Merge(old(Contents()), c) == Rejected(r.error)
    {
      if c !in candidates { return Rejected(NotFound); }
      var cand := candidates[c];
      if !Unresolved(cand.status) { return Rejected(NotMergeable); }
      if cand.row.batch >= |rows| || cand.row.index >= |rows[cand.row.batch]| || cand.target >= |entries| {
        return Rejected(DependenciesMissing);
      }
      var row := rows[cand.row.batch][cand.row.index];
      if row.normalized.None? { return Rejected(DependenciesMissing); }
      UpdatableFieldsCover();
      var before, applied := FillBlankColumns(cand.target, row.normalized.value, UPDATABLE_FIELDS);
      r := Ok(|actions|);
      candidates := candidates[c := cand.(status := Merged, action := Some(|actions|))];
      actions := actions + [Action(c, cand.target, before, applied, false)];
      rows := rows[cand.row.batch := rows[cand.row.batch][cand.row.index := row.(status := RowMerged,
          effect := Some(OnEntry(cand.target)))]];
    }

    method IgnoreCandidate(c: nat) returns (r: Outcome<(), ImportError>)
      requires Valid()
      modifies this
      ensures Valid()
      ensures Contents() == Commit(old(Contents()), Ignore(old(Contents()), c))
      ensures r.Ok? <==> c in old(candidates)
    {
      if c !in candidates { return Rejected(NotFound); }
      var cand := candidates[c];
      candidates := candidates[c := cand.(status := Ignored)];
      if cand.row.batch < |rows| && cand.row.index < |rows[cand.row.batch]| {
        var row := rows[cand.row.batch][cand.row.index];
        rows := rows[cand.row.batch := rows[cand.row.batch][cand.row.index := row.(status := RowIgnored)]];
      }
      r := Ok(());
    }

    /** The safe-undo guard walks the columns the merge wrote. */
    method StillAsWritten(act: Action, fields: seq<Field>) returns (ok: bool)
      requires act.target < |entries|
      requires ListsEveryFieldOnce(fields)
      ensures ok <==> Untouched(entries[act.target].fields, act.applied)
    {
      for k := 0 to |fields|
        invariant forall j ::
          0 <= j < k && act.applied.At(fields[j]).Some? ==>
            entries[act.target].fields.At(fields[j]) == act.applied.At(fields[j])
      {
        if act.applied.At(fields[k]).Some? && entries[act.target].fields.At(fields[k]) != act.applied.At(fields[k]) {
          return false;
        }
      }
      forall f | act.applied.At(f).Some?
        ensures entries[act.target].fields.At(f) == act.applied.At(f)
      {
        assert f in fields;
      }
      ok := true;
    }

    method RestoreSnapshot(act: Action, fields: seq<Field>)
      requires act.target < |entries|
      requires ListsEveryFieldOnce(fields)
      modifies this`entries
      ensures Contents() ==
        SetFields(old(Contents()), act.target, Restored(old(entries)[act.target].fields, act.before))
    {
      ghost var current := entries[act.target].fields;
      ghost var visited: set<Field> := {};
      for k := 0 to |fields|
        invariant |entries| == |old(entries)|
        invariant entries == old(entries)[act.target := old(entries)[act.target].(fields := entries[act.target].fields)]
        invariant forall j :: 0 <= j < |fields| ==> (fields[j] in visited <==> j < k)
        invariant forall f ::
          entries[act.target].fields.At(f) ==
            if f in visited && act.before.At(f).Some? then act.before.At(f).value else current.At(f)
      {
        var previous := act.before.At(fields[k]);
        if previous.Some? {
          entries := entries[act.target := entries[act.target].(fields := entries[act.target].fields.With(fields[k],
              previous.value))];
        }
        visited := visited + {fields[k]};
      }
      forall f: Field ensures f in visited { assert f in fields; }
      SameColumns(entries[act.target].fields, Restored(current, act.before));
    }

    method ReopenCandidate(c: nat)
      modifies this`candidates, this`rows
      ensures Contents() == Reopen(old(Contents()), c)
      ensures |rows| == |old(rows)|
    {
      if c in candidates {
        var cand := candidates[c];
        candidates := candidates[c := cand.(status := UndoApplied)];
        if cand.row.batch < |rows| && cand.row.index < |rows[cand.row.batch]| {
          var row := rows[cand.row.batch][cand.row.index];
          rows := rows[cand.row.batch := rows[cand.row.batch][cand.row.index := row.(status := RowDuplicate,
              effect := None)]];
        }
      }
    }

    method UndoMerge(a: nat) returns (r: Outcome<(), ImportError>)
      requires Valid()
      modifies this
      ensures Valid()
      ensures Contents() == Commit(old(Contents()), Undo(old(Contents()), a))
      ensures r.Ok? <==> Undo(old(Contents()), a).Ok?
      ensures r.Rejected? ==> Undo(old(Contents()), a) == Rejected(r.error)
    {
      if a >= |actions| { return Rejected(NotFound); }
      var act := actions[a];
      if act.undone { return Rejected(AlreadyUndone); }
      if act.target >= |entries| { return Rejected(TargetGone); }
      UpdatableFieldsCover();
      var ok := StillAsWritten(act, UPDATABLE_FIELDS);
      if !ok { return Rejected(EditedSince); }
      RestoreSnapshot(act, UPDATABLE_FIELDS);
      actions := actions[a := act.(undone := true)];
      ReopenCandidate(act.candidate);
      r := Ok(());
    }
  }
}
