/** Re-importing a roster: whatever happened since, applying an applied roster batch again adds nothing. */
module ImportRoster {
  import opened Common
  import opened ImportText
  import opened ImportTables
  import opened ImportInvariants
  import opened ImportRuns
  import opened ImportApply

  /** The directory already holds everything a roster row asks for, where the pipeline's look-ups will find it. */
  ghost predicate Settles(rules: Rules, t: Tables, n: Normalized)
    requires n.Roster?
  {
    var e := FirstIndex(t.entries, NameIs(rules.lower, n.performer));
    var i := FirstIndex(t.items, TitleIs(rules.lower, n.title));
    && e.Some? && i.Some?
    && (Truthy(n.composer) ==> Truthy(t.items[i.value].composer))
    && Link(e.value, i.value) in t.links
  }

  lemma SettledEntersNothing(rules: Rules, t: Tables, n: Normalized, r: RowRef)
    requires n.Roster? && Settles(rules, t, n)
    ensures Enter(rules, t, n, r).0 == t
  {
  }

  lemma EnteringSettles(rules: Rules, t: Tables, n: Normalized, r: RowRef)
    requires n.Roster?
    ensures Settles(rules, Enter(rules, t, n, r).0, n)
  {
    var (t1, e) := FindOrCreateEntry(rules, t, n, r);
    EntryIsFound(rules, t, n, r);
    var (t2, i) := FindOrCreateItem(rules, t1, n);
    ItemIsFound(rules, t1, n);
    assert Link(e, i) in EnsureLink(t2, Link(e, i)).links;
  }

  lemma EntryIsFound(rules: Rules, t: Tables, n: Normalized, r: RowRef)
    requires n.Roster?
    ensures var (t1, e) := FindOrCreateEntry(rules, t, n, r);
      FirstIndex(t1.entries, NameIs(rules.lower, n.performer)) == Some(e)
  {
    var p := NameIs(rules.lower, n.performer);
    var (t1, e) := FindOrCreateEntry(rules, t, n, r);
    assert p(t1.entries[e]) && forall j :: 0 <= j < e ==> !p(t1.entries[j]);
    var found := FirstIndex(t1.entries, p);
  }

  lemma ItemIsFound(rules: Rules, t: Tables, n: Normalized)
    requires n.Roster?
    ensures
      var (t1, i) := FindOrCreateItem(rules, t, n);
      && FirstIndex(t1.items, TitleIs(rules.lower, n.title)) == Some(i)
      && (Truthy(n.composer) ==> Truthy(t1.items[i].composer))
      && t1.entries == t.entries
  {
    var p := TitleIs(rules.lower, n.title);
    var (t1, i) := FindOrCreateItem(rules, t, n);
    assert p(t1.items[i]) && forall j :: 0 <= j < i ==> !p(t1.items[j]);
    var found := FirstIndex(t1.items, p);
  }

  // ---- The directory only grows ----

  /** Names, titles, known composers and links survive. */
  ghost predicate Grows(t: Tables, t': Tables) {
    && |t.entries| <= |t'.entries| && (forall e ::
        0 <= e < |t.entries| ==> t'.entries[e].displayName == t.entries[e].displayName)
    && |t.items| <= |t'.items|
    && (forall i ::
        0 <= i < |t.items| ==>
        t'.items[i].title == t.items[i].title && (Truthy(t.items[i].composer) ==> Truthy(t'.items[i].composer)))
    && (forall l :: l in t.links ==> l in t'.links)
  }

  lemma SettlesStable(rules: Rules, t: Tables, t': Tables, n: Normalized)
    requires n.Roster? && Settles(rules, t, n) && Grows(t, t')
    ensures Settles(rules, t', n)
  {
    FirstIndexStable(t.entries, t'.entries, NameIs(rules.lower, n.performer));
    FirstIndexStable(t.items, t'.items, TitleIs(rules.lower, n.title));
  }

  lemma GrowsOnward(t: Tables, u: Tables, v: Tables)
    requires Grows(t, u) && Grows(u, v)
    ensures Grows(t, v)
  {
  }

  lemma AddedEntryGrows(t: Tables, e: Entry, r: RowRef)
    ensures Grows(t, AddEntry(t, e, r))
  {
  }

  lemma FoundEntryGrows(rules: Rules, t: Tables, n: Normalized, r: RowRef)
    requires n.Roster?
    ensures Grows(t, FindOrCreateEntry(rules, t, n, r).0)
  {
    AddedEntryGrows(t, RosterEntry(n), r);
  }

  lemma FoundItemGrows(rules: Rules, t: Tables, n: Normalized)
    requires n.Roster?
    ensures Grows(t, FindOrCreateItem(rules, t, n).0)
  {
  }

  lemma LinkGrows(t: Tables, l: Link)
    ensures Grows(t, EnsureLink(t, l))
  {
  }

  lemma EnterGrows(rules: Rules, t: Tables, n: Normalized, r: RowRef)
    ensures Grows(t, Enter(rules, t, n, r).0)
  {
    match n
    case Member(name, fields) => AddedEntryGrows(t, Entry(name, fields), r);
    case Roster(_, _, _, _) =>
      var (t1, e) := FindOrCreateEntry(rules, t, n, r);
      var (t2, i) := FindOrCreateItem(rules, t1, n);
      FoundEntryGrows(rules, t, n, r);
      FoundItemGrows(rules, t1, n);
      LinkGrows(t2, Link(e, i));
      GrowsOnward(t, t1, t2);
      GrowsOnward(t, t2, EnsureLink(t2, Link(e, i)));
  }

  lemma ApplyRowGrows(rules: Rules, s: Sweep, r: RowRef)
    requires HasRow(s.t, r)
    ensures Grows(s.t, ApplyRow(rules, s, r).t)
  {
    if RowAt(s.t, r).normalized.Some? { EnterGrows(rules, s.t, RowAt(s.t, r).normalized.value, r); }
  }

  lemma {:induction false} ApplyRowsGrow(rules: Rules, t: Tables, b: nat, n: nat)
    requires b < |t.rows| && n <= |t.rows[b]|
    ensures Grows(t, ApplyRows(rules, t, b, n).t)
  {
    if n > 0 {
      ApplyRowsGrow(rules, t, b, n - 1);
      ApplyRowGrows(rules, ApplyRows(rules, t, b, n - 1), RowRef(b, n - 1));
    }
  }

  /** Batches keep their kind and file. */
  ghost predicate SameUploads(t: Tables, t': Tables) {
    && |t.batches| <= |t'.batches|
    && forall b ::
        0 <= b < |t.batches| ==> t'.batches[b].kind == t.batches[b].kind && t'.batches[b].file == t.batches[b].file
  }

  lemma BatchStepGrows(rules: Rules, t: Tables, b: nat)
    requires |t.rows| == |t.batches|
    ensures Normalize(rules, t, b).Ok? ==>
      Grows(t, Normalize(rules, t, b).value) && SameUploads(t, Normalize(rules, t, b).value)
    ensures Apply(rules, t, b).Ok? ==> Grows(t, Apply(rules, t, b).value) && SameUploads(t, Apply(rules, t, b).value)
  {
    if b < |t.batches| { ApplyRowsGrow(rules, t, b, |t.rows[b]|); }
  }

  lemma ReviewStepGrows(t: Tables, x: nat)
    ensures Merge(t, x).Ok? ==> Grows(t, Merge(t, x).value) && SameUploads(t, Merge(t, x).value)
    ensures Ignore(t, x).Ok? ==> Grows(t, Ignore(t, x).value) && SameUploads(t, Ignore(t, x).value)
    ensures Undo(t, x).Ok? ==> Grows(t, Undo(t, x).value) && SameUploads(t, Undo(t, x).value)
  {
  }

  lemma StepGrows(rules: Rules, t: Tables, s: Step)
    requires |t.rows| == |t.batches|
    ensures Grows(t, Next(rules, t, s)) && SameUploads(t, Next(rules, t, s))
  {
    match s
    case UploadStep(kind, file) =>
    case NormalizeStep(b) => BatchStepGrows(rules, t, b);
    case ApplyStep(b) => BatchStepGrows(rules, t, b);
    case MergeStep(c) => ReviewStepGrows(t, c);
    case IgnoreStep(c) => ReviewStepGrows(t, c);
    case UndoStep(a) => ReviewStepGrows(t, a);
    case EditStep(e, f, v) =>
  }

  lemma {:induction false} RunGrows(rules: Rules, t: Tables, steps: seq<Step>)
    requires |t.rows| == |t.batches|
    ensures Grows(t, Run(rules, t, steps)) && SameUploads(t, Run(rules, t, steps))
    decreases |steps|
  {
    if steps != [] {
      StepGrows(rules, t, steps[0]);
      NextKeepsShape(rules, t, steps[0]);
      RunGrows(rules, Next(rules, t, steps[0]), steps[1..]);
      GrowsOnward(t, Next(rules, t, steps[0]), Run(rules, t, steps));
    }
  }

  // ---- Applied roster rows are settled ----

  ghost predicate RosterRow(t: Tables, r: RowRef) {
    HasRow(t, r) && r.batch < |t.batches| && t.batches[r.batch].kind == RosterKind
  }

  ghost predicate AppliedSettled(rules: Rules, t: Tables) {
    forall r :: RosterRow(t, r) && RowAt(t, r).status == RowApplied ==>
      RowAt(t, r).normalized.Some? && RowAt(t, r).normalized.value.Roster?
      && Settles(rules, t, RowAt(t, r).normalized.value)
  }

  /** Applied roster rows stay settled when the directory grows and no roster row becomes applied. */
  lemma GrowthKeepsSettled(rules: Rules, t: Tables, t': Tables)
    requires AppliedSettled(rules, t) && Grows(t, t')
    requires forall r :: RosterRow(t', r) && RowAt(t', r).status == RowApplied ==>
               RosterRow(t, r) && RowAt(t, r).status == RowApplied && RowAt(t', r).normalized == RowAt(t, r).normalized
    ensures AppliedSettled(rules, t')
  {
    forall r | RosterRow(t', r) && RowAt(t', r).status == RowApplied
      ensures RowAt(t', r).normalized.Some? && RowAt(t', r).normalized.value.Roster?
        && Settles(rules, t', RowAt(t', r).normalized.value)
    {
      assert RosterRow(t, r);
      SettlesStable(rules, t, t', RowAt(t, r).normalized.value);
    }
  }

  lemma ApplyRowKeepsSettled(rules: Rules, s: Sweep, r: RowRef)
    requires Inv(rules, s.t) && Sound(rules) && HasRow(s.t, r) && AppliedSettled(rules, s.t)
    ensures AppliedSettled(rules, ApplyRow(rules, s, r).t)
  {
    ApplyVerdict(rules, s, r);
    ApplyRowGrows(rules, s, r);
    var row := RowAt(s.t, r);
    if row.status == RowValid {
      ApplyRowEnters(rules, s, r);
      var t' := ApplyRow(rules, s, r).t;
      assert BatchOk(rules, s.t.batches[r.batch], s.t.rows[r.batch]);
      assert RowOk(rules, s.t.batches[r.batch].kind, s.t.batches[r.batch].file.rows[r.index], row);
      var entered := Enter(rules, s.t, row.normalized.value, r).0;
      if row.normalized.value.Roster? {
        EnteringSettles(rules, s.t, row.normalized.value, r);
        SettlesStable(rules, entered, t', row.normalized.value);
      }
      forall q | RosterRow(t', q) && RowAt(t', q).status == RowApplied
        ensures RowAt(t', q).normalized.Some? && RowAt(t', q).normalized.value.Roster?
          && Settles(rules, t', RowAt(t', q).normalized.value)
      {
        if q != r {
          assert RosterRow(s.t, q) && RowAt(t', q) == RowAt(s.t, q);
          SettlesStable(rules, s.t, t', RowAt(s.t, q).normalized.value);
        }
      }
    }
  }

  lemma {:induction false} ApplyRowsKeepSettled(rules: Rules, t: Tables, b: nat, n: nat)
    requires Inv(rules, t) && Sound(rules) && AppliedSettled(rules, t) && b < |t.rows| && n <= |t.rows[b]|
    ensures AppliedSettled(rules, ApplyRows(rules, t, b, n).t)
  {
    if n > 0 {
      ApplyRowsKeepSettled(rules, t, b, n - 1);
      ApplyRowsSweep(rules, t, b, n - 1);
      ApplyRowKeepsSettled(rules, ApplyRows(rules, t, b, n - 1), RowRef(b, n - 1));
    }
  }

  lemma ApplyKeepsSettled(rules: Rules, t: Tables, b: nat)
    requires Inv(rules, t) && Sound(rules) && AppliedSettled(rules, t) && Apply(rules, t, b).Ok?
    ensures AppliedSettled(rules, Apply(rules, t, b).value)
  {
    ApplyRowsKeepSettled(rules, t, b, |t.rows[b]|);
    GrowthKeepsSettled(rules, ApplyRows(rules, t, b, |t.rows[b]|).t, Apply(rules, t, b).value);
  }

  lemma NormalizeKeepsSettled(rules: Rules, t: Tables, b: nat)
    requires Inv(rules, t) && Sound(rules) && AppliedSettled(rules, t) && Normalize(rules, t, b).Ok?
    ensures AppliedSettled(rules, Normalize(rules, t, b).value)
  {
    var t' := Normalize(rules, t, b).value;
    var file := t.batches[b].file.rows;
    DraftRowsOk(rules, t, b, file, |file|);
    forall r | RosterRow(t', r) && RowAt(t', r).status == RowApplied
      ensures RosterRow(t, r) && RowAt(t', r) == RowAt(t, r)
    {
      assert r.batch != b;
    }
    GrowthKeepsSettled(rules, t, t');
  }

  /** A review decision concerns a member row and applies none. */
  lemma DecisionKeepsSettled(rules: Rules, t: Tables, t': Tables, c: nat)
    requires Inv(rules, t) && AppliedSettled(rules, t) && Grows(t, t') && Decides(t, t', c)
    ensures AppliedSettled(rules, t')
  {
    DecidedRows(t, t', c);
    GrowthKeepsSettled(rules, t, t');
  }

  lemma IgnoreKeepsSettled(rules: Rules, t: Tables, c: nat)
    requires Inv(rules, t) && AppliedSettled(rules, t) && Ignore(t, c).Ok?
    ensures AppliedSettled(rules, Ignore(t, c).value)
  {
    assert CandidateOk(t, c);
    DecisionKeepsSettled(rules, t, Ignore(t, c).value, c);
  }

  lemma UndoDecides(rules: Rules, t: Tables, a: nat)
    requires Inv(rules, t) && Undo(t, a).Ok? && t.actions[a].candidate in t.candidates
    ensures Decides(t, Undo(t, a).value, t.actions[a].candidate)
  {
    assert CandidateOk(t, t.actions[a].candidate);
  }

  lemma UndoKeepsSettled(rules: Rules, t: Tables, a: nat)
    requires Inv(rules, t) && AppliedSettled(rules, t) && Undo(t, a).Ok?
    ensures AppliedSettled(rules, Undo(t, a).value)
  {
    var c := t.actions[a].candidate;
    ReviewStepGrows(t, a);
    if c in t.candidates {
      UndoDecides(rules, t, a);
      DecisionKeepsSettled(rules, t, Undo(t, a).value, c);
    } else {
      assert Undo(t, a).value.rows == t.rows && Undo(t, a).value.batches == t.batches;
      GrowthKeepsSettled(rules, t, Undo(t, a).value);
    }
  }

  lemma StepKeepsSettled(rules: Rules, t: Tables, s: Step)
    requires Inv(rules, t) && Sound(rules) && AppliedSettled(rules, t)
    ensures AppliedSettled(rules, Next(rules, t, s))
  {
    var t' := Next(rules, t, s);
    StepGrows(rules, t, s);
    match s
    case UploadStep(kind, file) => GrowthKeepsSettled(rules, t, t');
    case NormalizeStep(b) => if Normalize(rules, t, b).Ok? { NormalizeKeepsSettled(rules, t, b); }
    case ApplyStep(b) => if Apply(rules, t, b).Ok? { ApplyKeepsSettled(rules, t, b); }
    case MergeStep(c) => if Merge(t, c).Ok? { MergeDecides(rules, t, c); DecisionKeepsSettled(rules, t, t', c); }
    case IgnoreStep(c) => if Ignore(t, c).Ok? { IgnoreKeepsSettled(rules, t, c); }
    case UndoStep(a) => if Undo(t, a).Ok? { UndoKeepsSettled(rules, t, a); }
    case EditStep(e, f, v) => GrowthKeepsSettled(rules, t, t');
  }

  lemma {:induction false} RunKeepsSettled(rules: Rules, t: Tables, steps: seq<Step>)
    requires Inv(rules, t) && Sound(rules) && AppliedSettled(rules, t)
    ensures AppliedSettled(rules, Run(rules, t, steps))
    decreases |steps|
  {
    if steps != [] {
      StepKeeps(rules, t, steps[0]);
      StepKeepsSettled(rules, t, steps[0]);
      NextKeepsShape(rules, t, steps[0]);
      RunKeepsSettled(rules, Next(rules, t, steps[0]), steps[1..]);
    }
  }

  // ---- The theorem ----

  /** Everything the file of roster batch `b` asks for is in the directory. */
  ghost predicate FileSettled(rules: Rules, t: Tables, b: nat)
    requires b < |t.batches| && t.batches[b].file.Table?
  {
    forall i :: 0 <= i < |t.batches[b].file.rows| ==>
      var n := rules.normalize(RosterKind, t.batches[b].file.rows[i]).0;
      n.Some? ==> n.value.Roster? && Settles(rules, t, n.value)
  }

  /** Roster rows never have candidates, so after an apply every sound one is applied. */
  lemma ApplySettlesTheFile(rules: Rules, t: Tables, b: nat)
    requires Inv(rules, t) && Sound(rules) && AppliedSettled(rules, t) && Apply(rules, t, b).Ok?
      && t.batches[b].kind == RosterKind
    ensures var t' := Apply(rules, t, b).value; t'.batches[b].file.Table? && FileSettled(rules, t', b)
  {
    var t' := Apply(rules, t, b).value;
    ApplyKeeps(rules, t, b);
    ApplyKeepsSettled(rules, t, b);
    ApplyConserves(rules, t, b);
    assert BatchOk(rules, t'.batches[b], t'.rows[b]);
    forall i | 0 <= i < |t'.batches[b].file.rows| && rules.normalize(RosterKind, t'.batches[b].file.rows[i]).0.Some?
      ensures var n := rules.normalize(RosterKind, t'.batches[b].file.rows[i]).0;
        n.value.Roster? && Settles(rules, t', n.value)
    {
      var r := RowRef(b, i);
      assert RowOk(rules, RosterKind, t'.batches[b].file.rows[i], RowAt(t', r));
      assert RosterRow(t', r);
      forall c ensures !CandidateFor(t', c, r) { if c in t'.candidates { assert CandidateOk(t', c); } }
      assert !UnderReview(RowAt(t', r).status);
      assert RowApplies(t.rows[b][i], t'.rows[b][i]);
    }
  }

  /** One row of a settled roster file adds nothing. */
  lemma SettledRowAddsNothing(rules: Rules, t: Tables, s: Sweep, r: RowRef)
    requires Inv(rules, s.t) && HasRow(s.t, r) && s.t.entries == t.entries && s.t.items == t.items
      && s.t.links == t.links
    requires RowAt(s.t, r).normalized.Some? ==>
      RowAt(s.t, r).normalized.value.Roster? && Settles(rules, t, RowAt(s.t, r).normalized.value)
    ensures var s' := ApplyRow(rules, s, r); s'.t.entries == t.entries && s'.t.items == t.items && s'.t.links == t.links
  {
    ApplyVerdict(rules, s, r);
    if RowAt(s.t, r).normalized.Some? {
      SettlesStable(rules, t, s.t, RowAt(s.t, r).normalized.value);
      SettledEntersNothing(rules, s.t, RowAt(s.t, r).normalized.value, r);
    }
  }

  lemma {:induction false} SettledFileAddsNothing(rules: Rules, t: Tables, b: nat, n: nat)
    requires Inv(rules, t) && Sound(rules) && b < |t.rows| && n <= |t.rows[b]| && t.batches[b].kind == RosterKind
    requires t.batches[b].file.Table? && FileSettled(rules, t, b)
    ensures var s := ApplyRows(rules, t, b, n); s.t.entries == t.entries && s.t.items == t.items && s.t.links == t.links
  {
    if n > 0 {
      SettledFileAddsNothing(rules, t, b, n - 1);
      ApplyRowsSweep(rules, t, b, n - 1);
      var s := ApplyRows(rules, t, b, n - 1);
      FileRowSettled(rules, t, s, b, n - 1);
      SettledRowAddsNothing(rules, t, s, RowRef(b, n - 1));
    }
  }

  lemma FileRowSettled(rules: Rules, t: Tables, s: Sweep, b: nat, i: nat)
    requires Inv(rules, s.t) && HasRow(s.t, RowRef(b, i)) && s.t.batches == t.batches && b < |t.batches|
    requires t.batches[b].kind == RosterKind && t.batches[b].file.Table? && FileSettled(rules, t, b)
    ensures
      var n := RowAt(s.t, RowRef(b, i)).normalized;
      n.Some? ==> n.value.Roster? && Settles(rules, t, n.value)
  {
    assert BatchOk(rules, s.t.batches[b], s.t.rows[b]);
    assert RowOk(rules, RosterKind, t.batches[b].file.rows[i], s.t.rows[b][i]);
  }

  /**
   * Once a roster batch has been applied, applying it again adds no entry, no item, no link and no composer,
   * whatever steps (re-normalizations included) come in between.
   */
  lemma RosterReapplyAddsNothing(rules: Rules, t: Tables, before: seq<Step>, b: nat, between: seq<Step>)
    requires Fresh(t) && Sound(rules)
    requires
      var t1 := Run(rules, t, before);
      Apply(rules, t1, b).Ok? && t1.batches[b].kind == RosterKind
    ensures
      var t1 := Run(rules, t, before);
      var t2 := Run(rules, Next(rules, t1, ApplyStep(b)), between);
      var t3 := Next(rules, t2, ApplyStep(b));
      t3.entries == t2.entries && t3.items == t2.items && t3.links == t2.links
  {
    FreshInv(rules, t);
    RunKeeps(rules, t, before);
    RunKeepsSettled(rules, t, before);
    var t1 := Run(rules, t, before);
    var applied := Apply(rules, t1, b).value;
    ApplyKeeps(rules, t1, b);
    ApplySettlesTheFile(rules, t1, b);
    RunKeeps(rules, applied, between);
    RunGrows(rules, applied, between);
    var t2 := Run(rules, applied, between);
    forall i | 0 <= i < |t2.batches[b].file.rows| && rules.normalize(RosterKind, t2.batches[b].file.rows[i]).0.Some?
      ensures var n := rules.normalize(RosterKind, t2.batches[b].file.rows[i]).0;
        n.value.Roster? && Settles(rules, t2, n.value)
    {
      SettlesStable(rules, applied, t2, rules.normalize(RosterKind, t2.batches[b].file.rows[i]).0.value);
    }
    SettledFileAddsNothing(rules, t2, b, |t2.rows[b]|);
  }
}
