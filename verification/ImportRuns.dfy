/** Normalizing and applying a batch: counts, exactly-once entry, and the invariant over whole import runs. */
module ImportRuns {
  import opened Common
  import opened ImportText
  import opened ImportTables
  import opened ImportInvariants

  // ---- Row counts ----

  /** How many rows have one of the given statuses. */
  function Tally(rows: seq<Row>, ss: set<RowStatus>): nat {
    if rows == [] then 0 else Tally(rows[..|rows| - 1], ss) + (if rows[|rows| - 1].status in ss then 1 else 0)
  }

  lemma TallyAppend(rows: seq<Row>, row: Row, ss: set<RowStatus>)
    ensures Tally(rows + [row], ss) == Tally(rows, ss) + (if row.status in ss then 1 else 0)
  {
    assert (rows + [row])[..|rows|] == rows;
  }

  lemma {:induction false} TallyZero(rows: seq<Row>, s: RowStatus)
    ensures Tally(rows, {s}) == 0 <==> forall i :: 0 <= i < |rows| ==> rows[i].status != s
  {
    if rows != [] { TallyZero(rows[..|rows| - 1], s); }
  }

  const SETTLED: set<RowStatus> := {RowApplied, RowMerged, RowIgnored}

  lemma {:induction false} TallyPartition(rows: seq<Row>)
    requires forall i :: 0 <= i < |rows| ==> rows[i].status != RowValid
    ensures |rows| == Tally(rows, SETTLED) + Tally(rows, {RowDuplicate}) + Tally(rows, {RowInvalid})
  {
    if rows != [] { TallyPartition(rows[..|rows| - 1]); }
  }

  // ---- Normalize ----

  ghost predicate NewCandidate(t: Tables, b: nat, d: Draft, c: nat)
    requires c in d.candidates && b < |t.batches|
  {
    var cand := d.candidates[c];
    && t.nextCandidate <= c < d.nextCandidate
    && cand.row.batch == b && cand.row.index < |d.rows|
    && d.rows[cand.row.index].status == RowDuplicate && d.rows[cand.row.index].isValid
    && cand.status == Open && cand.target < |t.entries|
    && t.batches[b].kind == MemberKind
  }

  ghost predicate Flags(d: Draft, c: nat, r: RowRef) { c in d.candidates && d.candidates[c].row == r }

  ghost predicate DraftCandidates(t: Tables, b: nat, d: Draft)
    requires b < |t.batches|
  {
    && t.nextCandidate <= d.nextCandidate
    && (forall c :: c in d.candidates && c >= t.nextCandidate ==> NewCandidate(t, b, d, c))
    && (forall c :: c in d.candidates ==> c < d.nextCandidate)
    && (forall c :: c < t.nextCandidate ==>
          (c in d.candidates <==> c in t.candidates && t.candidates[c].row.batch != b)
          && (c in d.candidates ==> d.candidates[c] == t.candidates[c]))
    && (forall c, e ::
          (c in d.candidates && e in d.candidates && c >= t.nextCandidate && e >= t.nextCandidate
           && d.candidates[c].row == d.candidates[e].row) ==>
          c == e)
    && (forall i :: 0 <= i < |d.rows| && d.rows[i].status == RowDuplicate ==> exists c :: Flags(d, c, RowRef(b, i)))
  }

  ghost predicate DraftContent(rules: Rules, t: Tables, b: nat, file: seq<RawRow>, d: Draft)
    requires b < |t.batches|
  {
    && |d.rows| <= |file|
    && (forall i :: 0 <= i < |d.rows| ==> RowOk(rules, t.batches[b].kind, file[i], d.rows[i]))
    && (forall i :: 0 <= i < |d.rows| ==> d.rows[i].status in {RowValid, RowInvalid, RowDuplicate})
    && (forall i :: 0 <= i < |d.rows| && d.rows[i].status == RowValid && t.batches[b].kind == MemberKind ==>
          FirstIndex(t.entries, NameIs(rules.lower, NameOf(d.rows[i].normalized.value))).None?)
    && d.valid == Tally(d.rows, {RowValid}) && d.duplicates == Tally(d.rows, {RowDuplicate})
  }

  /** `d'` is `d` with one more row that either is no duplicate, or is flagged by one new candidate. */
  ghost predicate MayFlag(entries: seq<Entry>, b: nat, kind: Kind, d: Draft, d': Draft) {
    && |d'.rows| == |d.rows| + 1 && d'.rows[..|d.rows|] == d.rows
    && var row := d'.rows[|d.rows|];
    if row.status == RowDuplicate then
      && row.isValid && kind == MemberKind
      && d'.nextCandidate == d.nextCandidate + 1 && d.nextCandidate in d'.candidates
      && d'.candidates == d.candidates[d.nextCandidate := d'.candidates[d.nextCandidate]]
      && d'.candidates[d.nextCandidate].row == RowRef(b, |d.rows|)
      && d'.candidates[d.nextCandidate].status == Open
      && d'.candidates[d.nextCandidate].target < |entries|
    else
      d'.candidates == d.candidates && d'.nextCandidate == d.nextCandidate
  }

  lemma DraftRowFlags(rules: Rules, entries: seq<Entry>, b: nat, kind: Kind, raw: RawRow, d: Draft)
    requires Sound(rules)
    ensures MayFlag(entries, b, kind, d, DraftRow(rules, entries, b, kind, raw, d))
  {
  }

  /** Every flagged row of the longer draft has its candidate. */
  lemma DraftRowFlagged(t: Tables, b: nat, d: Draft, d': Draft, i: nat)
    requires b < |t.batches| && DraftCandidates(t, b, d) && MayFlag(t.entries, b, t.batches[b].kind, d, d')
    requires i < |d'.rows| && d'.rows[i].status == RowDuplicate
    ensures exists c :: Flags(d', c, RowRef(b, i))
  {
    if i < |d.rows| {
      assert d'.rows[..|d.rows|][i] == d'.rows[i];
      var c: nat :| Flags(d, c, RowRef(b, i));
      assert c < d.nextCandidate;
      assert Flags(d', c, RowRef(b, i));
    } else {
      assert Flags(d', d.nextCandidate, RowRef(b, i));
    }
  }

  lemma DraftRowNew(t: Tables, b: nat, d: Draft, d': Draft, c: nat)
    requires b < |t.batches| && DraftCandidates(t, b, d) && MayFlag(t.entries, b, t.batches[b].kind, d, d')
    requires c in d'.candidates && c >= t.nextCandidate
    ensures NewCandidate(t, b, d', c)
  {
    if c in d.candidates && c != d.nextCandidate {
      assert NewCandidate(t, b, d, c);
      assert d'.rows[..|d.rows|][d.candidates[c].row.index] == d'.rows[d.candidates[c].row.index];
    }
  }

  lemma DraftRowCandidates(t: Tables, b: nat, d: Draft, d': Draft)
    requires b < |t.batches| && DraftCandidates(t, b, d) && MayFlag(t.entries, b, t.batches[b].kind, d, d')
    ensures DraftCandidates(t, b, d')
  {
    forall i: nat | i < |d'.rows| && d'.rows[i].status == RowDuplicate
      ensures exists c :: Flags(d', c, RowRef(b, i))
    {
      DraftRowFlagged(t, b, d, d', i);
    }
    forall c | c in d'.candidates && c >= t.nextCandidate
      ensures NewCandidate(t, b, d', c)
    {
      DraftRowNew(t, b, d, d', c);
    }
    forall c | c in d.candidates && c >= t.nextCandidate
      ensures d.candidates[c].row != RowRef(b, |d.rows|)
    {
      assert NewCandidate(t, b, d, c);
    }
  }

  /** `d'` is `d` with one more row, counted by its status. */
  ghost predicate OneMoreRow(rules: Rules, entries: seq<Entry>, kind: Kind, raw: RawRow, d: Draft, d': Draft) {
    && |d'.rows| == |d.rows| + 1 && d'.rows == d.rows + [d'.rows[|d.rows|]]
    && var row := d'.rows[|d.rows|];
    && RowOk(rules, kind, raw, row)
    && row.status in {RowValid, RowInvalid, RowDuplicate}
    && (row.status == RowValid && kind == MemberKind ==>
        FirstIndex(entries, NameIs(rules.lower, NameOf(row.normalized.value))).None?)
    && d'.valid == d.valid + (if row.status == RowValid then 1 else 0)
    && d'.duplicates == d.duplicates + (if row.status == RowDuplicate then 1 else 0)
  }

  lemma DraftRowShape(rules: Rules, entries: seq<Entry>, b: nat, kind: Kind, raw: RawRow, d: Draft)
    requires Sound(rules)
    ensures OneMoreRow(rules, entries, kind, raw, d, DraftRow(rules, entries, b, kind, raw, d))
  {
  }

  lemma DraftRowContent(rules: Rules, t: Tables, b: nat, file: seq<RawRow>, d: Draft, d': Draft)
    requires b < |t.batches| && DraftContent(rules, t, b, file, d) && |d.rows| < |file|
    requires OneMoreRow(rules, t.entries, t.batches[b].kind, file[|d.rows|], d, d')
    ensures DraftContent(rules, t, b, file, d')
  {
    var row := d'.rows[|d.rows|];
    TallyAppend(d.rows, row, {RowValid});
    TallyAppend(d.rows, row, {RowDuplicate});
  }

  lemma {:induction false} DraftRowsOk(rules: Rules, t: Tables, b: nat, file: seq<RawRow>, n: nat)
    requires Inv(rules, t) && b < |t.batches| && Sound(rules) && n <= |file|
    ensures var d := DraftRows(rules, t.entries, b, t.batches[b].kind, file, EmptyDraft(t, b), n);
            DraftCandidates(t, b, d) && DraftContent(rules, t, b, file, d)
  {
    if n == 0 {
      forall c | c in t.candidates ensures c < t.nextCandidate { assert CandidateOk(t, c); }
    } else {
      DraftRowsOk(rules, t, b, file, n - 1);
      var d := DraftRows(rules, t.entries, b, t.batches[b].kind, file, EmptyDraft(t, b), n - 1);
      DraftRowFlags(rules, t.entries, b, t.batches[b].kind, file[n - 1], d);
      DraftRowCandidates(t, b, d, DraftRow(rules, t.entries, b, t.batches[b].kind, file[n - 1], d));
      DraftRowShape(rules, t.entries, b, t.batches[b].kind, file[n - 1], d);
      DraftRowContent(rules, t, b, file, d, DraftRow(rules, t.entries, b, t.batches[b].kind, file[n - 1], d));
    }
  }

  /** `t'` has batch `b` replaced by what a complete draft says. */
  ghost predicate Adopts(t: Tables, t': Tables, b: nat, d: Draft) {
    && b < |t.batches| == |t.rows|
    && t'.rows == t.rows[b := d.rows] && t'.candidates == d.candidates && t'.nextCandidate == d.nextCandidate
    && t'.entries == t.entries && t'.actions == t.actions && t'.base == t.base && t'.origins == t.origins
    && |t'.batches| == |t.batches|
    && forall x ::
        0 <= x < |t.batches| ==> t'.batches[x].kind == t.batches[x].kind && t'.batches[x].file == t.batches[x].file
  }

  lemma AdoptedCandidates(rules: Rules, t: Tables, t': Tables, b: nat, d: Draft)
    requires Inv(rules, t) && Adopts(t, t', b, d) && DraftCandidates(t, b, d)
    ensures CandidatesOk(t') && OneCandidatePerRow(t')
  {
    forall c | c in t'.candidates
      ensures CandidateOk(t', c)
      ensures c < t.nextCandidate ==>
        c in t.candidates && t'.candidates[c] == t.candidates[c] && t'.candidates[c].row.batch != b
      ensures c >= t.nextCandidate ==> t'.candidates[c].row.batch == b
    {
      if c < t.nextCandidate {
        assert CandidateOk(t, c);
        assert RowAt(t', t.candidates[c].row) == RowAt(t, t.candidates[c].row);
      } else {
        assert NewCandidate(t, b, d, c);
      }
    }
  }

  lemma AdoptedBacked(rules: Rules, t: Tables, t': Tables, b: nat, file: seq<RawRow>, d: Draft)
    requires Inv(rules, t) && Adopts(t, t', b, d) && DraftCandidates(t, b, d) && DraftContent(rules, t, b, file, d)
    ensures Backed(t')
  {
    forall r | HasRow(t', r) && UnderReview(RowAt(t', r).status)
      ensures exists c :: CandidateFor(t', c, r)
    {
      if r.batch == b {
        var c: nat :| Flags(d, c, RowRef(b, r.index));
        assert CandidateFor(t', c, r);
      } else {
        assert HasRow(t, r) && RowAt(t', r) == RowAt(t, r);
        var c :| CandidateFor(t, c, r);
        assert CandidateOk(t, c);
        assert CandidateFor(t', c, r);
      }
    }
  }

  lemma NormalizeCandidates(rules: Rules, t: Tables, b: nat)
    requires Inv(rules, t) && Sound(rules) && Normalize(rules, t, b).Ok?
    ensures var t' := Normalize(rules, t, b).value; CandidatesOk(t') && OneCandidatePerRow(t') && Backed(t')
  {
    var file := t.batches[b].file.rows;
    DraftRowsOk(rules, t, b, file, |file|);
    var d := DraftRows(rules, t.entries, b, t.batches[b].kind, file, EmptyDraft(t, b), |file|);
    AdoptedCandidates(rules, t, Normalize(rules, t, b).value, b, d);
    AdoptedBacked(rules, t, Normalize(rules, t, b).value, b, file, d);
  }

  lemma NormalizeRest(rules: Rules, t: Tables, b: nat)
    requires Inv(rules, t) && Sound(rules) && Normalize(rules, t, b).Ok?
    ensures var t' := Normalize(rules, t, b).value;
            Shapes(rules, t') && ActionsOk(t') && OneLiveActionPerCandidate(t')
  {
    var t' := Normalize(rules, t, b).value;
    var file := t.batches[b].file.rows;
    DraftRowsOk(rules, t, b, file, |file|);
    forall x | 0 <= x < |t'.rows|
      ensures BatchOk(rules, t'.batches[x], t'.rows[x])
    {
      assert BatchOk(rules, t.batches[x], t.rows[x]);
    }
    forall a | 0 <= a < |t'.actions| ensures ActionOk(t', a) { assert ActionOk(t, a); }
    assert forall a :: Live(t', a) <==> Live(t, a);
  }

  lemma NormalizeOnce(rules: Rules, t: Tables, b: nat)
    requires Inv(rules, t) && Sound(rules) && Normalize(rules, t, b).Ok? && Shapes(rules, Normalize(rules, t, b).value)
    ensures Once(rules, Normalize(rules, t, b).value)
  {
    var t' := Normalize(rules, t, b).value;
    var file := t.batches[b].file.rows;
    DraftRowsOk(rules, t, b, file, |file|);
    assert forall e, r :: CreatedBy(t', e, r) <==> CreatedBy(t, e, r);
    assert forall r :: Content(rules, t', r) == Content(rules, t, r);
    forall e, r | CreatedBy(t', e, r) && HasRow(t', r) && t'.batches[r.batch].kind == MemberKind
      ensures RowAt(t', r).status != RowValid
    {
      if r.batch == b {
        var n := Content(rules, t, r).value;
        assert NameIs(rules.lower, NameOf(n))(t.entries[e]);
        assert RowAt(t', r).normalized == Some(n);
      }
    }
  }

  lemma NormalizeKeeps(rules: Rules, t: Tables, b: nat)
    requires Inv(rules, t) && Sound(rules) && Normalize(rules, t, b).Ok?
    ensures Inv(rules, Normalize(rules, t, b).value)
  {
    NormalizeCandidates(rules, t, b);
    NormalizeRest(rules, t, b);
    NormalizeOnce(rules, t, b);
  }

  /** Every row of the file is counted once: as valid, as a duplicate, or as a row with issues. */
  lemma NormalizeConserves(rules: Rules, t: Tables, b: nat)
    requires Inv(rules, t) && Sound(rules) && Normalize(rules, t, b).Ok?
    ensures var t' := Normalize(rules, t, b).value;
            var counts := t'.batches[b].counts;
            && counts.total == |t.batches[b].file.rows| == |t'.rows[b]|
            && counts.total == counts.valid + counts.duplicates + Tally(t'.rows[b], {RowInvalid})
            && t'.entries == t.entries && t'.actions == t.actions
  {
    var file := t.batches[b].file.rows;
    DraftRowsOk(rules, t, b, file, |file|);
    DraftPartition(DraftRows(rules, t.entries, b, t.batches[b].kind, file, EmptyDraft(t, b), |file|).rows);
  }

  lemma {:induction false} DraftPartition(rows: seq<Row>)
    requires forall i :: 0 <= i < |rows| ==> rows[i].status in {RowValid, RowInvalid, RowDuplicate}
    ensures |rows| == Tally(rows, {RowValid}) + Tally(rows, {RowDuplicate}) + Tally(rows, {RowInvalid})
  {
    if rows != [] { DraftPartition(rows[..|rows| - 1]); }
  }
}
