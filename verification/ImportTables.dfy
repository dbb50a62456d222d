/**
 * The import tables as one value, and what each pipeline operation commits to them.
 *
 * Entries, items, links, merge actions and batches are never deleted by the pipeline, so they are sequences
 * whose positions are their ids. Candidates are deleted by a re-normalization, so they live in a map under ids
 * that are never reused. The rows of a batch are kept in row-number order (row number = index + 2).
 *
 * `base` and `origins` are history: the columns each entry was created with, and the CSV row that created it.
 */
module ImportTables {
  import opened Common
  import opened ImportText

  datatype Entry = Entry(displayName: string, fields: Fields)

  datatype Item = Item(title: string, composer: Option<string>)

  datatype Link = Link(entry: nat, item: nat)

  datatype RowRef = RowRef(batch: nat, index: nat)

  datatype RowStatus = RowValid | RowInvalid | RowDuplicate | RowApplied | RowMerged | RowIgnored

  datatype Effect = OnEntry(entry: nat) | OnLink(link: Link)

  datatype Row = Row(raw: RawRow, normalized: Option<Normalized>, isValid: bool, status: RowStatus,
      effect: Option<Effect>)

  datatype CandidateStatus = Open | Merged | Ignored | UndoApplied

  datatype Reason = EmailMatch | DisplayNameMatch

  datatype Candidate = Candidate(row: RowRef, target: nat, reason: Reason, status: CandidateStatus, action: Option<nat>)

  /** What a merge wrote, column by column; `None` where it left the column alone. */
  type Changes = PerField<Option<string>>

  /** What the written columns showed before. */
  type Snapshot = PerField<Option<Option<string>>>

  datatype Action = Action(candidate: nat, target: nat, before: Snapshot, applied: Changes, undone: bool)

  datatype Upload = NotCsv | NoHeader | Table(rows: seq<RawRow>)

  datatype BatchStatus = Uploaded | Normal | NeedsReview | Processed

  datatype Counts = Counts(total: nat, valid: nat, issues: nat, duplicates: nat, processed: nat)

  datatype Batch = Batch(kind: Kind, file: Upload, status: BatchStatus, counts: Counts)

  datatype Tables = Tables(
    entries: seq<Entry>,
    items: seq<Item>,
    links: seq<Link>,
    batches: seq<Batch>,
    rows: seq<seq<Row>>,
    candidates: map<nat, Candidate>,
    nextCandidate: nat,
    actions: seq<Action>,
    base: seq<Fields>,
    origins: seq<Option<RowRef>>)

  datatype ImportError =
    | NotFound | OnlyCsv | BadHeader | NotNormalized
    | NotMergeable | DependenciesMissing
    | AlreadyUndone | TargetGone | EditedSince

  // ---- Queries ----

  predicate HasRow(t: Tables, r: RowRef) { r.batch < |t.rows| && r.index < |t.rows[r.batch]| }

  function RowAt(t: Tables, r: RowRef): Row
    requires HasRow(t, r)
  {
    t.rows[r.batch][r.index]
  }

  function PutRow(t: Tables, r: RowRef, row: Row): Tables
    requires HasRow(t, r)
  {
    t.(rows := t.rows[r.batch := t.rows[r.batch][r.index := row]])
  }

  predicate CandidateFor(t: Tables, c: nat, r: RowRef) { c in t.candidates && t.candidates[c].row == r }

  predicate Unresolved(s: CandidateStatus) { s == Open || s == UndoApplied }

  predicate HasUnresolved(t: Tables, r: RowRef) {
    exists c | c in t.candidates.Keys :: CandidateFor(t, c, r) && Unresolved(t.candidates[c].status)
  }

  predicate HasIgnored(t: Tables, r: RowRef) {
    exists c | c in t.candidates.Keys :: CandidateFor(t, c, r) && t.candidates[c].status == Ignored
  }

  function NameIs(lower: Lower, name: string): Entry -> bool { (e: Entry) => lower(e.displayName) == lower(name) }

  function EmailIs(lower: Lower, email: string): Entry -> bool {
    (e: Entry) => e.fields.email.Some? && e.fields.email.value != "" && lower(e.fields.email.value) == lower(email)
  }

  function TitleIs(lower: Lower, title: string): Item -> bool { (i: Item) => lower(i.title) == lower(title) }

  /** A member row duplicates the first entry with its e-mail, otherwise the first entry with its name. */
  function MemberDuplicate(lower: Lower, entries: seq<Entry>, name: string,
      email: Option<string>): Option<(nat, Reason)>
  {
    var byEmail := if email.Some? && email.value != "" then FirstIndex(entries, EmailIs(lower, email.value)) else None;
    if byEmail.Some? then Some((byEmail.value, EmailMatch))
    else
      var byName := FirstIndex(entries, NameIs(lower, name));
      if byName.Some? then Some((byName.value, DisplayNameMatch)) else None
  }

  // ---- Normalize ----

  /** What the row loop of a normalization has produced so far. */
  datatype Draft = Draft(rows: seq<Row>, candidates: map<nat, Candidate>, nextCandidate: nat, valid: nat, issues: nat,
      duplicates: nat)

  function DraftRow(rules: Rules, entries: seq<Entry>, b: nat, kind: Kind, raw: RawRow, d: Draft): Draft {
    var (normalized, issues) := rules.normalize(kind, raw);
    var d := d.(issues := d.issues + issues);
    if normalized.None? then
      d.(rows := d.rows + [Row(raw, None, false, RowInvalid, None)])
    else
      var n := normalized.value;
      var dup := if n.Member? then MemberDuplicate(rules.lower, entries, n.displayName, n.fields.email) else None;
      match dup
      case Some((target, reason)) =>
        d.(rows := d.rows + [Row(raw, normalized, true, RowDuplicate, None)],
           candidates := d.candidates[d.nextCandidate := Candidate(RowRef(b, |d.rows|), target, reason, Open, None)],
           nextCandidate := d.nextCandidate + 1,
           duplicates := d.duplicates + 1)
      case None =>
        d.(rows := d.rows + [Row(raw, normalized, true, RowValid, None)], valid := d.valid + 1)
  }

  function DraftRows(rules: Rules, entries: seq<Entry>, b: nat, kind: Kind, file: seq<RawRow>, start: Draft,
      n: nat): (d: Draft)
    requires n <= |file|
    ensures |d.rows| == |start.rows| + n
  {
    if n == 0 then start
    else DraftRow(rules, entries, b, kind, file[n - 1], DraftRows(rules, entries, b, kind, file, start, n - 1))
  }

  function WithoutBatch(cs: map<nat, Candidate>, b: nat): map<nat, Candidate> { cs - BatchCandidates(cs, b) }

  function EmptyDraft(t: Tables, b: nat): Draft { Draft([], WithoutBatch(t.candidates, b), t.nextCandidate, 0, 0, 0) }

  function Normalize(rules: Rules, t: Tables, b: nat): Outcome<Tables, ImportError>
    requires |t.rows| == |t.batches|
  {
    if b >= |t.batches| then Rejected(NotFound)
    else
      match t.batches[b].file
      case NotCsv => Rejected(OnlyCsv)
      case NoHeader => Rejected(BadHeader)
      case Table(file) =>
        var d := DraftRows(rules, t.entries, b, t.batches[b].kind, file, EmptyDraft(t, b), |file|);
        Ok(t.(rows := t.rows[b := d.rows], candidates := d.candidates, nextCandidate := d.nextCandidate,
              batches := t.batches[b := t.batches[b].(status := Normal,
                  counts := Counts(|file|, d.valid, d.issues, d.duplicates, 0))]))
  }

  // ---- Apply ----

  function AddEntry(t: Tables, e: Entry, origin: RowRef): Tables {
    t.(entries := t.entries + [e], base := t.base + [e.fields], origins := t.origins + [Some(origin)])
  }

  function RosterColumn(region: string, f: Field): Option<string> { if f == Region then Some(region) else None }

  function RosterEntry(n: Normalized): Entry
    requires n.Roster?
  {
    Entry(n.performer, Each(f => RosterColumn(n.region, f)))
  }

  function FindOrCreateEntry(rules: Rules, t: Tables, n: Normalized, origin: RowRef): (Tables, nat)
    requires n.Roster?
  {
    match FirstIndex(t.entries, NameIs(rules.lower, n.performer))
    case Some(e) => (t, e)
    case None => (AddEntry(t, RosterEntry(n), origin), |t.entries|)
  }

  predicate Truthy(s: Option<string>) { s.Some? && s.value != "" }

  function FindOrCreateItem(rules: Rules, t: Tables, n: Normalized): (Tables, nat)
    requires n.Roster?
  {
    match FirstIndex(t.items, TitleIs(rules.lower, n.title))
    case Some(i) =>
      if Truthy(n.composer) && !Truthy(t.items[i].composer)
      then (t.(items := t.items[i := t.items[i].(composer := n.composer)]), i)
      else (t, i)
    case None => (t.(items := t.items + [Item(n.title, n.composer)]), |t.items|)
  }

  function EnsureLink(t: Tables, l: Link): Tables { if l in t.links then t else t.(links := t.links + [l]) }

  /** The directory changes of one row that is applied, and the effect recorded on the row. */
  function Enter(rules: Rules, t: Tables, n: Normalized, origin: RowRef): (Tables, Effect) {
    match n
    case Member(name, fields) => (AddEntry(t, Entry(name, fields), origin), OnEntry(|t.entries|))
    case Roster(_, _, _, _) =>
      var (t1, e) := FindOrCreateEntry(rules, t, n, origin);
      var (t2, i) := FindOrCreateItem(rules, t1, n);
      (EnsureLink(t2, Link(e, i)), OnLink(Link(e, i)))
  }

  datatype Sweep = Sweep(t: Tables, processed: nat, unresolved: nat)

  predicate Settled(s: RowStatus) { s == RowApplied || s == RowMerged || s == RowIgnored }

  function ApplyRow(rules: Rules, s: Sweep, r: RowRef): Sweep
    requires HasRow(s.t, r)
  {
    var row := RowAt(s.t, r);
    if Settled(row.status) then s.(processed := s.processed + 1)
    else if !row.isValid || row.normalized.None? then s
    else if HasUnresolved(s.t, r) then s.(unresolved := s.unresolved + 1)
    else if HasIgnored(s.t, r) then
      Sweep(PutRow(s.t, r, row.(status := RowIgnored)), s.processed + 1, s.unresolved)
    else
      var (t, effect) := Enter(rules, s.t, row.normalized.value, r);
      Sweep(PutRow(t, r, row.(status := RowApplied, effect := Some(effect))), s.processed + 1, s.unresolved)
  }

  function ApplyRows(rules: Rules, t: Tables, b: nat, n: nat): (s: Sweep)
    requires b < |t.rows| && n <= |t.rows[b]|
    ensures |s.t.rows| == |t.rows| && |s.t.rows[b]| == |t.rows[b]| && s.t.batches == t.batches
  {
    if n == 0 then Sweep(t, 0, 0) else ApplyRow(rules, ApplyRows(rules, t, b, n - 1), RowRef(b, n - 1))
  }

  function BatchCandidates(cs: map<nat, Candidate>, b: nat): set<nat> { set c | c in cs && cs[c].row.batch == b }

  function Apply(rules: Rules, t: Tables, b: nat): Outcome<Tables, ImportError>
    requires |t.rows| == |t.batches|
  {
    if b >= |t.batches| then Rejected(NotFound)
    else if t.batches[b].status == Uploaded then Rejected(NotNormalized)
    else
      var s := ApplyRows(rules, t, b, |t.rows[b]|);
      var batch := s.t.batches[b];
      Ok(s.t.(batches := s.t.batches[b := batch.(
        status := if s.unresolved > 0 then NeedsReview else Processed,
        counts := batch.counts.(processed := s.processed, duplicates := |BatchCandidates(s.t.candidates, b)|))]))
  }

  // ---- Merge, ignore, undo ----

  /** What a merge writes: incoming text, where the entry's column is blank. */
  function Filling(n: Normalized, current: Fields, f: Field): Option<string> {
    if Truthy(Incoming(n, f)) && BlankColumn(current.At(f)) then Incoming(n, f) else None
  }

  function Fillable(n: Normalized, current: Fields): Changes { Each(f => Filling(n, current, f)) }

  function SnapshotOf(current: Fields, applied: Changes): Snapshot {
    Each(f => if applied.At(f).Some? then Some(current.At(f)) else None)
  }

  function Written(current: Fields, applied: Changes): Fields {
    Each(f => if applied.At(f).Some? then applied.At(f) else current.At(f))
  }

  function Restored(current: Fields, before: Snapshot): Fields {
    Each(f => if before.At(f).Some? then before.At(f).value else current.At(f))
  }

  function SetFields(t: Tables, e: nat, fields: Fields): Tables
    requires e < |t.entries|
  {
    t.(entries := t.entries[e := t.entries[e].(fields := fields)])
  }

  function Merge(t: Tables, c: nat): Outcome<Tables, ImportError> {
    if c !in t.candidates then Rejected(NotFound)
    else
      var cand := t.candidates[c];
      if !Unresolved(cand.status) then Rejected(NotMergeable)
      else if !HasRow(t, cand.row) || RowAt(t, cand.row).normalized.None? || cand.target >= |t.entries|
      then Rejected(DependenciesMissing)
      else
        var row := RowAt(t, cand.row);
        var current := t.entries[cand.target].fields;
        var applied := Fillable(row.normalized.value, current);
        var t1 := SetFields(t, cand.target, Written(current, applied));
        var t2 := PutRow(t1, cand.row, row.(status := RowMerged, effect := Some(OnEntry(cand.target))));
        Ok(t2.(actions := t.actions + [Action(c, cand.target, SnapshotOf(current, applied), applied, false)],
               candidates := t.candidates[c := cand.(status := Merged, action := Some(|t.actions|))]))
  }

  function Ignore(t: Tables, c: nat): Outcome<Tables, ImportError> {
    if c !in t.candidates then Rejected(NotFound)
    else
      var cand := t.candidates[c];
      var t1 := t.(candidates := t.candidates[c := cand.(status := Ignored)]);
      Ok(if HasRow(t, cand.row) then PutRow(t1, cand.row, RowAt(t, cand.row).(status := RowIgnored)) else t1)
  }

  /** The safe-undo guard: every column the merge wrote still holds what it wrote. */
  predicate Untouched(current: Fields, applied: Changes) {
    forall f: Field :: applied.At(f).Some? ==> current.At(f) == applied.At(f)
  }

  /** An undo hands the candidate, if it still exists, and its row back to review. */
  function Reopen(t: Tables, c: nat): Tables {
    if c !in t.candidates then t
    else
      var cand := t.candidates[c];
      var t1 := t.(candidates := t.candidates[c := cand.(status := UndoApplied)]);
      if HasRow(t, cand.row) then PutRow(t1, cand.row, RowAt(t, cand.row).(status := RowDuplicate, effect := None))
      else t1
  }

  function Undo(t: Tables, a: nat): Outcome<Tables, ImportError> {
    if a >= |t.actions| then Rejected(NotFound)
    else
      var act := t.actions[a];
      if act.undone then Rejected(AlreadyUndone)
      else if act.target >= |t.entries| then Rejected(TargetGone)
      else if !Untouched(t.entries[act.target].fields, act.applied) then Rejected(EditedSince)
      else
        var t1 := SetFields(t, act.target, Restored(t.entries[act.target].fields, act.before));
        Ok(Reopen(t1.(actions := t.actions[a := act.(undone := true)]), act.candidate))
  }

  // ---- Runs ----

  /** `Edit` is a change to an entry's columns made outside the pipeline. */
  datatype Step =
    | UploadStep(kind: Kind, file: Upload)
    | NormalizeStep(batch: nat)
    | ApplyStep(batch: nat)
    | MergeStep(candidate: nat)
    | IgnoreStep(candidate: nat)
    | UndoStep(action: nat)
    | EditStep(entry: nat, field: Field, value: Option<string>)

  function AddBatch(t: Tables, kind: Kind, file: Upload): Tables {
    t.(batches := t.batches + [Batch(kind, file, Uploaded, Counts(0, 0, 0, 0, 0))], rows := t.rows + [[]])
  }

  function EditEntry(t: Tables, e: nat, f: Field, v: Option<string>): Tables {
    if e < |t.entries| then SetFields(t, e, t.entries[e].fields.With(f, v)) else t
  }

  function Commit(before: Tables, r: Outcome<Tables, ImportError>): Tables {
    match r
    case Ok(t) => t
    case Rejected(_) => before
  }

  function Next(rules: Rules, t: Tables, s: Step): Tables
    requires |t.rows| == |t.batches|
  {
    match s
    case UploadStep(kind, file) => AddBatch(t, kind, file)
    case NormalizeStep(b) => Commit(t, Normalize(rules, t, b))
    case ApplyStep(b) => Commit(t, Apply(rules, t, b))
    case MergeStep(c) => Commit(t, Merge(t, c))
    case IgnoreStep(c) => Commit(t, Ignore(t, c))
    case UndoStep(a) => Commit(t, Undo(t, a))
    case EditStep(e, f, v) => EditEntry(t, e, f, v)
  }

  lemma NextKeepsShape(rules: Rules, t: Tables, s: Step)
    requires |t.rows| == |t.batches|
    ensures var t' := Next(rules, t, s); |t'.rows| == |t'.batches|
  {
  }

  function Run(rules: Rules, t: Tables, steps: seq<Step>): (r: Tables)
    requires |t.rows| == |t.batches|
    ensures |r.rows| == |r.batches|
    decreases |steps|
  {
    if steps == [] then t
    else
      NextKeepsShape(rules, t, steps[0]);
      Run(rules, Next(rules, t, steps[0]), steps[1..])
  }

  /** A directory before its first import: any entries, items and links, no import rows. */
  predicate Fresh(t: Tables) {
    && t.batches == [] && t.rows == [] && t.candidates == map[] && t.nextCandidate == 0 && t.actions == []
    && |t.base| == |t.entries| == |t.origins|
    && (forall e :: 0 <= e < |t.entries| ==> t.base[e] == t.entries[e].fields)
    && (forall e :: 0 <= e < |t.entries| ==> t.origins[e] == None)
  }
}
