/**
 * What becomes of each CSV row, traced back to its cells: how normalizing flags it, the entry an apply creates for it,
 * and what a merge of it, an undo and an ignore leave.
 */
module ImportFates {
  import opened Common
  import opened ImportText
  import opened ImportTables
  import opened ImportInvariants
  import opened ImportRuns
  import opened ImportApply
  import opened ImportColumns

  /** The cells a row of an import was read from. */
  ghost function RawOf(t: Tables, r: RowRef): RawRow
    requires r.batch < |t.batches| && t.batches[r.batch].file.Table? && r.index < |t.batches[r.batch].file.rows|
  {
    t.batches[r.batch].file.rows[r.index]
  }

  /** The row is of a batch of that kind whose file has it. */
  ghost predicate OfKind(t: Tables, r: RowRef, kind: Kind) {
    && HasRow(t, r) && r.batch < |t.batches| && t.batches[r.batch].kind == kind
    && t.batches[r.batch].file.Table? && r.index < |t.batches[r.batch].file.rows|
  }

  lemma RowsComeFromTheFile(rules: Rules, t: Tables, r: RowRef)
    requires Inv(rules, t) && HasRow(t, r)
    ensures OfKind(t, r, t.batches[r.batch].kind)
    ensures RowAt(t, r).normalized == rules.normalize(t.batches[r.batch].kind, RawOf(t, r)).0
    ensures RowAt(t, r).isValid == RowAt(t, r).normalized.Some?
  {
    assert BatchOk(rules, t.batches[r.batch], t.rows[r.batch]);
    assert RowOk(rules, t.batches[r.batch].kind, t.batches[r.batch].file.rows[r.index], t.rows[r.batch][r.index]);
  }

  // ---- Review ----

  /** In any coherent state exactly the candidates still under review can be merged, and each has what it takes. */
  lemma MergesIff(rules: Rules, t: Tables, c: nat)
    requires Inv(rules, t) && Sound(rules)
    ensures Merge(t, c).Ok? <==> c in t.candidates && t.candidates[c].status in {Open, UndoApplied}
    ensures c in t.candidates ==>
      && HasDependencies(t, c) && OfKind(t, t.candidates[c].row, MemberKind)
      && RowAt(t, t.candidates[c].row).normalized.value.Member?
  {
    if c in t.candidates {
      assert CandidateOk(t, c);
      RowsComeFromTheFile(rules, t, t.candidates[c].row);
    }
  }

  lemma RowHoldsItsCells(lower: Lower, t: Tables, r: RowRef)
    requires Inv(PipelineRules(lower), t) && OfKind(t, r, MemberKind) && RowAt(t, r).normalized.Some?
    ensures MemberName(RawOf(t, r)).Some?
    ensures RowAt(t, r).normalized == Some(Member(MemberName(RawOf(t, r)).value, MemberCells(RawOf(t, r))))
  {
    RowsComeFromTheFile(PipelineRules(lower), t, r);
    MemberRowReadsItsCells(RawOf(t, r));
  }

  /** `t'` is `t` after a merge of candidate `c`, whose row has `cells` in its columns. */
  ghost predicate MergedFrom(t: Tables, t': Tables, c: nat, cells: Fields)
    requires HasDependencies(t, c)
  {
    var cand := t.candidates[c];
    var was := t.entries[cand.target].fields;
    && t'.entries == t.entries[cand.target := t.entries[cand.target].(fields := MergedColumns(was, cells))]
    && t'.actions == t.actions +
         [Action(c, cand.target, NotedColumns(was, cells), AppliedColumns(was, cells), false)]
    && t'.candidates == t.candidates[c := cand.(status := Merged, action := Some(|t.actions|))]
    && t'.rows == PutRow(t, cand.row, RowAt(t, cand.row).(
         status := RowMerged, effect := Some(OnEntry(cand.target)))).rows
  }

  lemma MergeLeaves(t: Tables, c: nat, cells: Fields)
    requires HasDependencies(t, c) && Merge(t, c).Ok?
    requires RowAt(t, t.candidates[c].row).normalized.value.Member?
    requires RowAt(t, t.candidates[c].row).normalized.value.fields == cells
    ensures MergedFrom(t, Merge(t, c).value, c, cells)
  {
    MergeFillsColumnByColumn(t, c);
  }

  /**
   * In a coherent state a merge fills each blank column of the entry from the cell of that column's own name in the CSV
   * row, and leaves the others; the action notes exactly that, and candidate and row follow.
   */
  lemma MergeReadsItsRow(lower: Lower, t: Tables, c: nat)
    requires Inv(PipelineRules(lower), t) && Sound(PipelineRules(lower)) && Merge(t, c).Ok?
    ensures
      && HasDependencies(t, c) && OfKind(t, t.candidates[c].row, MemberKind)
      && MergedFrom(t, Merge(t, c).value, c, MemberCells(RawOf(t, t.candidates[c].row)))
  {
    MergesIff(PipelineRules(lower), t, c);
    RowHoldsItsCells(lower, t, t.candidates[c].row);
    MergeLeaves(t, c, MemberCells(RawOf(t, t.candidates[c].row)));
  }

  /** So it is after any run, outside edits included. */
  lemma MergeReadsTheFile(lower: Lower, start: Tables, steps: seq<Step>, c: nat)
    requires Fresh(start) && Merge(Run(PipelineRules(lower), start, steps), c).Ok?
    ensures
      var t := Run(PipelineRules(lower), start, steps);
      && HasDependencies(t, c) && OfKind(t, t.candidates[c].row, MemberKind)
      && MergedFrom(t, Merge(t, c).value, c, MemberCells(RawOf(t, t.candidates[c].row)))
  {
    PipelineRulesSound(lower);
    FreshInv(PipelineRules(lower), start);
    RunKeeps(PipelineRules(lower), start, steps);
    MergeReadsItsRow(lower, Run(PipelineRules(lower), start, steps), c);
  }

  /** What ignoring and undoing write to the candidate and its row. */
  lemma DecisionsLeave(rules: Rules, t: Tables, c: nat, a: nat)
    requires Inv(rules, t)
    ensures c in t.candidates ==>
      && Ignore(t, c).Ok? && HasRow(t, t.candidates[c].row)
      && var cand, t' := t.candidates[c], Ignore(t, c).value;
      && t' == PutRow(t, cand.row, RowAt(t, cand.row).(status := RowIgnored)).(
           candidates := t.candidates[c := cand.(status := Ignored)])
    ensures Undo(t, a).Ok? ==>
      && a < |t.actions| && !t.actions[a].undone
      && Undo(t, a).value.actions == t.actions[a := t.actions[a].(undone := true)]
      && (t.actions[a].candidate in t.candidates ==>
            && var x, t' := t.actions[a].candidate, Undo(t, a).value;
            && HasRow(t, t.candidates[x].row)
            && t'.candidates == t.candidates[x := t.candidates[x].(status := UndoApplied)]
            && t'.rows == PutRow(t, t.candidates[x].row, RowAt(t, t.candidates[x].row).(
                 status := RowDuplicate, effect := None)).rows)
      && (t.actions[a].candidate !in t.candidates ==>
            Undo(t, a).value.candidates == t.candidates && Undo(t, a).value.rows == t.rows)
  {
    if c in t.candidates { assert CandidateOk(t, c); }
    if Undo(t, a).Ok? && t.actions[a].candidate in t.candidates { assert CandidateOk(t, t.actions[a].candidate); }
  }

  // ---- Apply ----

  /** Row `r` has been applied and has created `entry`, at position `e`. */
  ghost predicate CreatedAt(t: Tables, r: RowRef, entry: Entry, e: int) {
    && 0 <= e < |t.entries| && t.entries[e] == entry && CreatedBy(t, e, r) && HasRow(t, r)
    && RowAt(t, r).status == RowApplied && RowAt(t, r).effect == Some(OnEntry(e))
  }

  ghost predicate Created(t: Tables, r: RowRef, entry: Entry) { exists e :: CreatedAt(t, r, entry, e) }

  /** A valid member row with the name and columns of `entry`. */
  ghost predicate Describes(t: Tables, r: RowRef, entry: Entry) {
    && HasRow(t, r) && RowAt(t, r).status == RowValid
    && RowAt(t, r).normalized == Some(Member(entry.displayName, entry.fields))
  }

  lemma RowCreates(rules: Rules, s: Sweep, r: RowRef, entry: Entry)
    requires Inv(rules, s.t) && Describes(s.t, r, entry)
    ensures Created(ApplyRow(rules, s, r).t, r, entry)
  {
    ApplyVerdict(rules, s, r);
    assert CreatedAt(ApplyRow(rules, s, r).t, r, entry, |s.t.entries|);
  }

  /** Applying a further row keeps what earlier ones created. */
  lemma LaterRowKeeps(rules: Rules, s: Sweep, r: RowRef, q: RowRef, entry: Entry)
    requires Inv(rules, s.t) && HasRow(s.t, r) && q != r && Created(s.t, q, entry)
    ensures Created(ApplyRow(rules, s, r).t, q, entry)
  {
    var e :| CreatedAt(s.t, q, entry, e);
    ApplyVerdict(rules, s, r);
    if RowAt(s.t, r).status == RowValid { ApplyRowEnters(rules, s, r); }
    assert CreatedAt(ApplyRow(rules, s, r).t, q, entry, e);
  }

  lemma NextRowCreates(rules: Rules, t: Tables, b: nat, n: nat, i: nat, s: Sweep, entry: Entry)
    requires Inv(rules, s.t) && b < |t.rows| && i <= n < |t.rows[b]| && Swept(t, b, n, s)
    requires Describes(t, RowRef(b, i), entry) && (i < n ==> Created(s.t, RowRef(b, i), entry))
    ensures Created(ApplyRow(rules, s, RowRef(b, n)).t, RowRef(b, i), entry)
  {
    if i == n {
      assert s.t.rows[b][n] == s.t.rows[b][n..][0] == t.rows[b][n..][0];
      RowCreates(rules, s, RowRef(b, n), entry);
    } else {
      LaterRowKeeps(rules, s, RowRef(b, n), RowRef(b, i), entry);
    }
  }

  /** The sweep is in order up to row `n`. */
  ghost predicate InOrder(rules: Rules, t: Tables, b: nat, n: nat)
    requires b < |t.rows| && n <= |t.rows[b]|
  {
    Swept(t, b, n, ApplyRows(rules, t, b, n)) && Inv(rules, ApplyRows(rules, t, b, n).t)
  }

  lemma {:induction false} SweepCreates(rules: Rules, t: Tables, b: nat, n: nat, i: nat, entry: Entry)
    requires b < |t.rows| && i < n <= |t.rows[b]| && Describes(t, RowRef(b, i), entry)
    requires forall k :: i <= k < n ==> InOrder(rules, t, b, k)
    ensures Created(ApplyRows(rules, t, b, n).t, RowRef(b, i), entry)
  {
    assert InOrder(rules, t, b, n - 1);
    if i < n - 1 { SweepCreates(rules, t, b, n - 1, i, entry); }
    NextRowCreates(rules, t, b, n - 1, i, ApplyRows(rules, t, b, n - 1), entry);
  }

  lemma ApplyCreates(rules: Rules, t: Tables, b: nat, i: nat, entry: Entry)
    requires Inv(rules, t) && Sound(rules) && Apply(rules, t, b).Ok? && b < |t.rows|
    requires Describes(t, RowRef(b, i), entry)
    ensures Created(Apply(rules, t, b).value, RowRef(b, i), entry)
  {
    forall k | i <= k < |t.rows[b]|
      ensures InOrder(rules, t, b, k)
    {
      ApplyRowsSweep(rules, t, b, k);
    }
    SweepCreates(rules, t, b, |t.rows[b]|, i, entry);
    var e :| CreatedAt(ApplyRows(rules, t, b, |t.rows[b]|).t, RowRef(b, i), entry, e);
    assert CreatedAt(Apply(rules, t, b).value, RowRef(b, i), entry, e);
  }

  /** Every valid member row of an applied batch has created an entry whose name and columns are its cells. */
  lemma ApplyCreatesFromTheFile(lower: Lower, t: Tables, b: nat, i: nat)
    requires Inv(PipelineRules(lower), t) && Apply(PipelineRules(lower), t, b).Ok? && b < |t.rows|
    requires OfKind(t, RowRef(b, i), MemberKind) && t.rows[b][i].status == RowValid
    ensures
      var raw := RawOf(t, RowRef(b, i));
      && MemberName(raw).Some?
      && Created(Apply(PipelineRules(lower), t, b).value, RowRef(b, i), Entry(MemberName(raw).value, MemberCells(raw)))
  {
    var r, raw := RowRef(b, i), RawOf(t, RowRef(b, i));
    PipelineRulesSound(lower);
    ValidIsNormalized(PipelineRules(lower), t, r);
    RowHoldsItsCells(lower, t, r);
    ApplyCreates(PipelineRules(lower), t, b, i, Entry(MemberName(raw).value, MemberCells(raw)));
  }

  lemma ValidIsNormalized(rules: Rules, t: Tables, r: RowRef)
    requires Inv(rules, t) && HasRow(t, r) && RowAt(t, r).status == RowValid
    ensures RowAt(t, r).normalized.Some?
  {
    assert BatchOk(rules, t.batches[r.batch], t.rows[r.batch]);
    assert RowOk(rules, t.batches[r.batch].kind, t.batches[r.batch].file.rows[r.index], t.rows[r.batch][r.index]);
  }

  /** An apply goes through for any batch that has been normalized. */
  lemma AppliesIff(rules: Rules, t: Tables, b: nat)
    requires |t.rows| == |t.batches|
    ensures Apply(rules, t, b).Ok? <==> b < |t.batches| && t.batches[b].status in {Normal, NeedsReview, Processed}
    ensures Normalize(rules, t, b).Ok? <==> b < |t.batches| && t.batches[b].file.Table?
    ensures Normalize(rules, t, b).Ok? ==> Normalize(rules, t, b).value.batches[b].status == Normal
  {
  }

  // ---- Normalize ----

  /** Entry `k` has that e-mail, compared in lower case. */
  ghost predicate EmailAt(lower: Lower, entries: seq<Entry>, email: Option<string>, k: int) {
    && 0 <= k < |entries| && email.Some? && email.value != ""
    && entries[k].fields.email.Some? && entries[k].fields.email.value != ""
    && lower(entries[k].fields.email.value) == lower(email.value)
  }

  ghost predicate NameAt(lower: Lower, entries: seq<Entry>, name: string, k: int) {
    0 <= k < |entries| && lower(entries[k].displayName) == lower(name)
  }

  /** A member is taken for the first entry with its e-mail; if there is none, for the first with its name. */
  lemma FlaggedIff(lower: Lower, entries: seq<Entry>, name: string, email: Option<string>)
    ensures
      match MemberDuplicate(lower, entries, name, email)
      case Some((k, EmailMatch)) =>
        EmailAt(lower, entries, email, k) && forall i :: 0 <= i < k ==> !EmailAt(lower, entries, email, i)
      case Some((k, DisplayNameMatch)) =>
        && NameAt(lower, entries, name, k) && (forall i :: 0 <= i < k ==> !NameAt(lower, entries, name, i))
        && forall i :: !EmailAt(lower, entries, email, i)
      case None =>
        (forall i :: !EmailAt(lower, entries, email, i)) && forall i :: !NameAt(lower, entries, name, i)
  {
    if email.Some? && email.value != "" { EmailPredicate(lower, entries, email.value); }
    assert forall i :: 0 <= i < |entries| ==>
      (NameAt(lower, entries, name, i) <==> NameIs(lower, name)(entries[i]));
  }

  lemma EmailPredicate(lower: Lower, entries: seq<Entry>, email: string)
    requires email != ""
    ensures forall i :: 0 <= i < |entries| ==>
      (EmailAt(lower, entries, Some(email), i) <==> EmailIs(lower, email)(entries[i]))
  {
  }

  /** What has been drafted for row `i` of batch `b`: kept as read, and flagged by a candidate if it is a duplicate. */
  ghost predicate Drafted(rules: Rules, entries: seq<Entry>, b: nat, kind: Kind, raw: RawRow, i: nat, d: Draft) {
    && i < |d.rows|
    && var n := rules.normalize(kind, raw).0;
    && var dup := if n.Some? && n.value.Member?
                  then MemberDuplicate(rules.lower, entries, n.value.displayName, n.value.fields.email) else None;
    && d.rows[i] == Row(raw, n, n.Some?,
                        if n.None? then RowInvalid else if dup.Some? then RowDuplicate else RowValid, None)
    && (dup.Some? ==> exists c ::
          && c in d.candidates && c < d.nextCandidate
          && d.candidates[c] == Candidate(RowRef(b, i), dup.value.0, dup.value.1, Open, None))
  }

  lemma NextIsDrafted(rules: Rules, entries: seq<Entry>, b: nat, kind: Kind, raw: RawRow, d: Draft)
    ensures Drafted(rules, entries, b, kind, raw, |d.rows|, DraftRow(rules, entries, b, kind, raw, d))
  {
    var d' := DraftRow(rules, entries, b, kind, raw, d);
    if d'.rows[|d.rows|].status == RowDuplicate {
      assert d.nextCandidate in d'.candidates && d.nextCandidate < d'.nextCandidate;
    }
  }

  lemma StaysDrafted(
      rules: Rules, entries: seq<Entry>, b: nat, kind: Kind, raw: RawRow, i: nat, d: Draft, later: RawRow)
    requires Drafted(rules, entries, b, kind, raw, i, d)
    ensures Drafted(rules, entries, b, kind, raw, i, DraftRow(rules, entries, b, kind, later, d))
  {
    var d' := DraftRow(rules, entries, b, kind, later, d);
    assert d'.rows[i] == d.rows[i];
    assert forall c :: c in d.candidates && c < d.nextCandidate ==>
      c in d'.candidates && c < d'.nextCandidate && d'.candidates[c] == d.candidates[c];
  }

  lemma {:induction false} EveryRowIsDrafted(
      rules: Rules, entries: seq<Entry>, b: nat, kind: Kind, file: seq<RawRow>, start: Draft, n: nat, i: nat)
    requires start.rows == [] && i < n <= |file|
    ensures Drafted(rules, entries, b, kind, file[i], i, DraftRows(rules, entries, b, kind, file, start, n))
  {
    var before := DraftRows(rules, entries, b, kind, file, start, n - 1);
    if i == n - 1 {
      NextIsDrafted(rules, entries, b, kind, file[i], before);
    } else {
      EveryRowIsDrafted(rules, entries, b, kind, file, start, n - 1, i);
      StaysDrafted(rules, entries, b, kind, file[i], i, before, file[n - 1]);
    }
  }

  /** The candidate that flags row `r` as a duplicate of entry `target`. */
  ghost predicate FlaggedAs(t: Tables, r: RowRef, target: nat, reason: Reason) {
    exists c :: c in t.candidates && t.candidates[c] == Candidate(r, target, reason, Open, None)
  }

  /**
   * Normalizing keeps each row of the file as read; a row with nothing to name it by is invalid, a member row that
   * looks like an entry is flagged as its duplicate, any other row is valid.
   */
  lemma NormalizeDecides(rules: Rules, t: Tables, b: nat, i: nat)
    requires |t.rows| == |t.batches| && Normalize(rules, t, b).Ok? && i < |t.batches[b].file.rows|
    ensures
      var t' := Normalize(rules, t, b).value;
      var raw := t.batches[b].file.rows[i];
      var n := rules.normalize(t.batches[b].kind, raw).0;
      && i < |t'.rows[b]|
      && var row := t'.rows[b][i];
      && row.raw == raw && row.normalized == n && row.isValid == n.Some? && row.effect == None
      && (n.None? ==> row.status == RowInvalid)
      && (n.Some? && n.value.Roster? ==> row.status == RowValid)
      && (n.Some? && n.value.Member? ==>
            match MemberDuplicate(rules.lower, t.entries, n.value.displayName, n.value.fields.email)
            case None => row.status == RowValid
            case Some((target, reason)) =>
              row.status == RowDuplicate && FlaggedAs(t', RowRef(b, i), target, reason))
  {
    var file := t.batches[b].file.rows;
    EveryRowIsDrafted(rules, t.entries, b, t.batches[b].kind, file, EmptyDraft(t, b), |file|, i);
  }

  /** All the issues the rows of a file have. */
  ghost function Issues(rules: Rules, kind: Kind, file: seq<RawRow>): nat {
    if file == [] then 0 else rules.normalize(kind, file[0]).1 + Issues(rules, kind, file[1..])
  }

  lemma {:induction false} IssuesAppend(rules: Rules, kind: Kind, file: seq<RawRow>, raw: RawRow)
    ensures Issues(rules, kind, file + [raw]) == Issues(rules, kind, file) + rules.normalize(kind, raw).1
  {
    if file == [] {
      assert file + [raw] == [raw] && Issues(rules, kind, [raw][1..]) == 0;
    } else {
      assert (file + [raw])[1..] == file[1..] + [raw];
      IssuesAppend(rules, kind, file[1..], raw);
    }
  }

  lemma {:induction false} DraftCountsIssues(
      rules: Rules, entries: seq<Entry>, b: nat, kind: Kind, file: seq<RawRow>, start: Draft, n: nat)
    requires n <= |file| && start.issues == 0
    ensures DraftRows(rules, entries, b, kind, file, start, n).issues == Issues(rules, kind, file[..n])
  {
    if n > 0 {
      DraftCountsIssues(rules, entries, b, kind, file, start, n - 1);
      assert file[..n] == file[..n - 1] + [file[n - 1]];
      IssuesAppend(rules, kind, file[..n - 1], file[n - 1]);
    }
  }

  /**
   * The counts of a normalized batch: its rows, those valid, those flagged, and all issues found; none processed yet.
   */
  lemma NormalizeCounts(rules: Rules, t: Tables, b: nat)
    requires Inv(rules, t) && Sound(rules) && Normalize(rules, t, b).Ok?
    ensures
      var t' := Normalize(rules, t, b).value;
      t'.batches[b].counts == Counts(
        total := |t'.rows[b]|,
        valid := Tally(t'.rows[b], {RowValid}),
        issues := Issues(rules, t.batches[b].kind, t.batches[b].file.rows),
        duplicates := Tally(t'.rows[b], {RowDuplicate}),
        processed := 0)
  {
    var file := t.batches[b].file.rows;
    DraftRowsOk(rules, t, b, file, |file|);
    DraftCountsIssues(rules, t.entries, b, t.batches[b].kind, file, EmptyDraft(t, b), |file|);
    assert file[..|file|] == file;
  }

  lemma SweepKeepsCandidates(rules: Rules, t: Tables, b: nat)
    requires Inv(rules, t) && Sound(rules) && b < |t.rows|
    ensures ApplyRows(rules, t, b, |t.rows[b]|).t.candidates == t.candidates
  {
    ApplyRowsSweep(rules, t, b, |t.rows[b]|);
  }

  /** An apply leaves the batch's number of candidates as its duplicate count, and touches no other batch. */
  lemma ApplyCountsCandidates(rules: Rules, t: Tables, b: nat)
    requires Inv(rules, t) && Sound(rules) && Apply(rules, t, b).Ok?
    ensures
      var t' := Apply(rules, t, b).value;
      && t'.batches[b].counts.duplicates == |set c | c in t.candidates && t.candidates[c].row.batch == b|
      && t'.candidates == t.candidates
      && (forall x :: 0 <= x < |t.batches| && x != b ==> t'.batches[x] == t.batches[x])
  {
    SweepKeepsCandidates(rules, t, b);
    assert BatchCandidates(t.candidates, b) == set c | c in t.candidates && t.candidates[c].row.batch == b;
  }

  // ---- Roster rows ----

  /** The first position a text is found at, compared in lower case. */
  ghost predicate FoundAt(lower: Lower, names: seq<string>, name: string, k: nat) {
    && k < |names| && lower(names[k]) == lower(name)
    && forall i :: 0 <= i < k ==> lower(names[i]) != lower(name)
  }

  ghost function EntryNames(t: Tables): seq<string> {
    seq(|t.entries|, i requires 0 <= i < |t.entries| => t.entries[i].displayName)
  }

  ghost function ItemTitles(t: Tables): seq<string> {
    seq(|t.items|, i requires 0 <= i < |t.items| => t.items[i].title)
  }

  /** An item's composer after a row has named one: what it had, or the row's if it had none. */
  ghost function Completed(had: Option<string>, given: Option<string>): Option<string> {
    match had
    case Some(composer) => if composer == "" && given.Some? && given.value != "" then given else had
    case None => if given.Some? && given.value != "" then given else had
  }

  /** The entry a roster row is about: the first of its performer's name, else a new one with name and region only. */
  lemma RosterEntryIs(rules: Rules, t: Tables, n: Normalized, r: RowRef)
    requires n.Roster?
    ensures
      var (t', e) := FindOrCreateEntry(rules, t, n, r);
      && FoundAt(rules.lower, EntryNames(t'), n.performer, e) && t'.items == t.items && t'.links == t.links
      && (if e < |t.entries| then t'.entries == t.entries
          else t'.entries == t.entries + [Entry(n.performer, PerField(
                 stageName := None, email := None, phone := None, addressLine1 := None, biography := None,
                 region := Some(n.region)))])
  {
    ColumnByColumn(RosterEntry(n).fields);
  }

  /** The item it is about: the first of its title, a missing composer filled in, else a new one. */
  lemma RosterItemIs(rules: Rules, t: Tables, n: Normalized)
    requires n.Roster?
    ensures
      var (t', i) := FindOrCreateItem(rules, t, n);
      && FoundAt(rules.lower, ItemTitles(t'), n.title, i) && t'.entries == t.entries && t'.links == t.links
      && (if i < |t.items| then
            t'.items == t.items[i := Item(t.items[i].title, Completed(t.items[i].composer, n.composer))]
          else t'.items == t.items + [Item(n.title, n.composer)])
  {
    var i := FindOrCreateItem(rules, t, n).1;
    if i < |t.items| { assert t.items[i := t.items[i]] == t.items; }
  }

  /** Entering a roster row is finding or adding the two, and linking them once. */
  lemma RosterRowEnters(rules: Rules, t: Tables, n: Normalized, r: RowRef)
    requires n.Roster?
    ensures
      var (t1, e) := FindOrCreateEntry(rules, t, n, r);
      var (t2, i) := FindOrCreateItem(rules, t1, n);
      var (t', effect) := Enter(rules, t, n, r);
      && effect == OnLink(Link(e, i)) && t'.entries == t1.entries && t'.items == t2.items
      && t'.links == (if Link(e, i) in t.links then t.links else t.links + [Link(e, i)])
      && FoundAt(rules.lower, EntryNames(t'), n.performer, e) && FoundAt(rules.lower, ItemTitles(t'), n.title, i)
  {
    RosterEntryIs(rules, t, n, r);
    RosterItemIs(rules, FindOrCreateEntry(rules, t, n, r).0, n);
  }
}
