/**
 * Which cell of a CSV file ends up in which column: of a normalized row, of an entry an apply creates, and of an entry
 * a merge fills. Columns, headers and defaults are named one by one.
 */
module ImportColumns {
  import opened Common
  import opened ImportText
  import opened ImportTables
  import opened ImportInvariants
  import opened ImportApply

  // ---- Cells ----

  /** White space, by code point. */
  lemma SpacesByCodePoint(c: char)
    ensures IsSpace(c) <==>
      var code := c as int;
      || 9 <= code <= 13 || 28 <= code <= 32 || 0x2000 <= code <= 0x200A
      || code in {0x85, 0xA0, 0x1680, 0x2028, 0x2029, 0x202F, 0x205F, 0x3000}
  {
  }

  ghost predicate AllSpace(s: string) { forall i :: 0 <= i < |s| ==> IsSpace(s[i]) }

  ghost predicate NoSpaceAtTheEnds(s: string) { s != "" ==> !IsSpace(s[0]) && !IsSpace(s[|s| - 1]) }

  lemma {:induction false} TrimLeftDrops(pre: string, s: string)
    requires AllSpace(pre)
    ensures TrimLeft(pre + s) == TrimLeft(s)
  {
    if pre == "" {
      assert pre + s == s;
    } else {
      assert (pre + s)[1..] == pre[1..] + s;
      TrimLeftDrops(pre[1..], s);
    }
  }

  lemma {:induction false} TrimRightDrops(s: string, post: string)
    requires AllSpace(post)
    ensures TrimRight(s + post) == TrimRight(s)
  {
    if post == "" {
      assert s + post == s;
    } else {
      assert (s + post)[..|s + post| - 1] == s + post[..|post| - 1];
      TrimRightDrops(s, post[..|post| - 1]);
    }
  }

  lemma TrimLeftStops(mid: string, post: string)
    requires mid != "" && !IsSpace(mid[0])
    ensures TrimLeft(mid + post) == mid + post
  {
    assert (mid + post)[0] == mid[0];
  }

  lemma OnlySpaceTrimmed(post: string)
    requires AllSpace(post)
    ensures TrimLeft(post) == ""
  {
    TrimLeftDrops(post, "");
    assert post + "" == post;
  }

  lemma TrimmedLeft(pre: string, mid: string, post: string)
    requires AllSpace(pre) && AllSpace(post) && NoSpaceAtTheEnds(mid)
    ensures TrimLeft(pre + mid + post) == if mid == "" then "" else mid + post
  {
    assert pre + mid + post == pre + (mid + post);
    TrimLeftDrops(pre, mid + post);
    if mid == "" {
      assert mid + post == post;
      OnlySpaceTrimmed(post);
    } else {
      TrimLeftStops(mid, post);
    }
  }

  lemma TrimmedRight(mid: string, post: string)
    requires AllSpace(post) && NoSpaceAtTheEnds(mid)
    ensures TrimRight(mid + post) == mid
  {
    TrimRightDrops(mid, post);
  }

  /** Stripping keeps what stands between the white space around it. */
  lemma StripKeepsTheMiddle(pre: string, mid: string, post: string)
    requires AllSpace(pre) && AllSpace(post) && NoSpaceAtTheEnds(mid)
    ensures Strip(pre + mid + post) == mid
  {
    TrimmedLeft(pre, mid, post);
    if mid != "" { TrimmedRight(mid, post); }
  }

  /** A cell is the text between the white space in it, and empty if the file lacks the column. */
  lemma CellIsTheMiddle(row: RawRow, key: Header, pre: string, mid: string, post: string)
    requires AllSpace(pre) && AllSpace(post) && NoSpaceAtTheEnds(mid)
    requires key in row ==> row[key] == pre + mid + post
    ensures Cell(row, key) == if key in row then mid else ""
  {
    StripKeepsTheMiddle(pre, mid, post);
  }

  /** The text, or nothing if it is empty. */
  ghost function Visible(s: string): Option<string> { if s == "" then None else Some(s) }

  /** What a cell shows, if it shows anything. */
  ghost function Shown(row: RawRow, key: Header): Option<string> { Visible(Cell(row, key)) }

  ghost function FirstShown(a: Option<string>, b: Option<string>): Option<string> { if a.Some? then a else b }

  ghost function Joined(first: Option<string>, last: Option<string>): Option<string> {
    if first.Some? && last.Some? then Some(first.value + " " + last.value) else FirstShown(first, last)
  }

  /** A member is named by `display_name`, else `name`, else by first and last name. */
  ghost function MemberName(row: RawRow): Option<string> {
    FirstShown(FirstShown(Shown(row, HDisplayName), Shown(row, HName)),
        Joined(Shown(row, HFirstName), Shown(row, HLastName)))
  }

  ghost function RegionShown(row: RawRow): string {
    match Shown(row, HRegion)
    case Some(region) => region
    case None => "Imported Region"
  }

  /** The columns of a member row, each from the cell of its own name. */
  ghost function MemberCells(row: RawRow): Fields {
    PerField(
      stageName := Shown(row, HStageName),
      email := Shown(row, HEmail),
      phone := Shown(row, HPhone),
      addressLine1 := Shown(row, HAddressLine1),
      biography := Shown(row, HBiography),
      region := Some(RegionShown(row)))
  }

  ghost predicate Stripped(s: string) { Strip(s) == s && NoSpaceAtTheEnds(s) }

  lemma CellIsStripped(row: RawRow, key: Header)
    ensures Stripped(Cell(row, key))
  {
    if key in row {
      StripIdempotent(row[key]);
      var l := TrimLeft(row[key]);
      var r := TrimRight(l);
      if r != "" { assert r[0] == l[0]; }
    }
  }

  lemma OneOfTwoIsStripped(a: string, b: string)
    requires Stripped(a) && Stripped(b)
    ensures Strip(Or(a, b)) == Or(a, b)
  {
  }

  lemma NoSpaceNoStrip(s: string)
    requires NoSpaceAtTheEnds(s)
    ensures Strip(s) == s
  {
  }

  lemma FullNameOfBoth(first: string, last: string)
    requires NoSpaceAtTheEnds(first) && NoSpaceAtTheEnds(last) && first != "" && last != ""
    ensures FullName(first, last) == first + " " + last
  {
    var full := first + " " + last;
    assert full[0] == first[0] && full[|full| - 1] == last[|last| - 1];
    NoSpaceNoStrip(full);
  }

  lemma FullNameOfOne(first: string, last: string)
    requires NoSpaceAtTheEnds(first) && NoSpaceAtTheEnds(last) && (first == "" || last == "")
    ensures FullName(first, last) == if first == "" then last else first
  {
    if first == "" {
      assert first + last == last;
      NoSpaceNoStrip(last);
    } else {
      assert first + last == first;
      NoSpaceNoStrip(first);
    }
  }

  lemma FullNameIsJoined(first: string, last: string)
    requires NoSpaceAtTheEnds(first) && NoSpaceAtTheEnds(last)
    ensures Visible(FullName(first, last)) == Joined(Visible(first), Visible(last))
  {
    if first != "" && last != "" {
      FullNameOfBoth(first, last);
    } else {
      FullNameOfOne(first, last);
    }
  }

  lemma NameFromStripped(explicit: string, first: string, last: string)
    requires Strip(explicit) == explicit && Strip(first) == first && Strip(last) == last
    ensures NameFrom(explicit, first, last) == if explicit != "" then explicit else FullName(first, last)
  {
  }

  lemma NamesAreStripped(row: RawRow)
    ensures
      var explicit := Or(Cell(row, HDisplayName), Cell(row, HName));
      MemberDisplayName(row) ==
        if explicit != "" then explicit else FullName(Cell(row, HFirstName), Cell(row, HLastName))
  {
    CellIsStripped(row, HDisplayName);
    CellIsStripped(row, HName);
    CellIsStripped(row, HFirstName);
    CellIsStripped(row, HLastName);
    OneOfTwoIsStripped(Cell(row, HDisplayName), Cell(row, HName));
    NameFromStripped(Or(Cell(row, HDisplayName), Cell(row, HName)), Cell(row, HFirstName), Cell(row, HLastName));
  }

  lemma NameMade(display: string, name: string, full: string, joined: Option<string>)
    requires Visible(full) == joined
    ensures Visible(if Or(display, name) != "" then Or(display, name) else full) ==
      FirstShown(FirstShown(Visible(display), Visible(name)), joined)
  {
  }

  lemma NamedByTheCells(row: RawRow)
    ensures MemberName(row) == Visible(MemberDisplayName(row))
  {
    NamesAreStripped(row);
    CellIsStripped(row, HFirstName);
    CellIsStripped(row, HLastName);
    FullNameIsJoined(Cell(row, HFirstName), Cell(row, HLastName));
    NameMade(Cell(row, HDisplayName), Cell(row, HName), FullName(Cell(row, HFirstName), Cell(row, HLastName)),
        Joined(Shown(row, HFirstName), Shown(row, HLastName)));
  }

  lemma ColumnsFromTheCells(row: RawRow)
    ensures MemberFields(row) == MemberCells(row)
  {
    var fields := MemberFields(row);
    assert fields.At(StageName) == MemberColumn(row, StageName) && fields.At(Email) == MemberColumn(row, Email);
    assert fields.At(Phone) == MemberColumn(row, Phone) && fields.At(AddressLine1) == MemberColumn(row, AddressLine1);
    assert fields.At(Biography) == MemberColumn(row, Biography) && fields.At(Region) == MemberColumn(row, Region);
  }

  /** A member row is normalized exactly if its cells name somebody, and then its columns are its cells. */
  lemma MemberRowReadsItsCells(row: RawRow)
    ensures NormalizeRow(MemberKind, row) ==
      match MemberName(row)
      case Some(name) => (Some(Member(name, MemberCells(row))), 0)
      case None => (None, 1)
  {
    NamedByTheCells(row);
    ColumnsFromTheCells(row);
  }

  ghost function Missing(cell: Option<string>): nat { if cell.None? then 1 else 0 }

  /** What a roster row makes of the six texts it reads. */
  ghost function RosterMade(a: string, b: string, c: string, d: string, composer: string, region: string)
    : (Option<Normalized>, nat)
  {
    var performer, title := FirstShown(Visible(a), Visible(b)), FirstShown(Visible(c), Visible(d));
    if performer.Some? && title.Some?
    then (Some(Roster(performer.value, title.value, Visible(composer),
                      if region == "" then "Imported Region" else region)), 0)
    else (None, Missing(performer) + Missing(title))
  }

  lemma RosterOfTexts(a: string, b: string, c: string, d: string, composer: string, region: string)
    ensures RosterOf(Or(a, b), Or(c, d), composer, region) == RosterMade(a, b, c, d, composer, region)
  {
  }

  lemma RosterTextsAreStripped(row: RawRow)
    ensures NormalizeRow(RosterKind, row) ==
      RosterOf(Or(Cell(row, HPerformerName), Cell(row, HDisplayName)),
               Or(Cell(row, HRepertoireTitle), Cell(row, HTitle)), Cell(row, HComposer), Cell(row, HRegion))
  {
    CellIsStripped(row, HPerformerName);
    CellIsStripped(row, HDisplayName);
    CellIsStripped(row, HRepertoireTitle);
    CellIsStripped(row, HTitle);
    CellIsStripped(row, HComposer);
    CellIsStripped(row, HRegion);
    OneOfTwoIsStripped(Cell(row, HPerformerName), Cell(row, HDisplayName));
    OneOfTwoIsStripped(Cell(row, HRepertoireTitle), Cell(row, HTitle));
  }

  /** A roster row needs a performer and a title; each of them has a second header to be read from. */
  lemma RosterRowReadsItsCells(row: RawRow)
    ensures NormalizeRow(RosterKind, row) ==
      RosterMade(Cell(row, HPerformerName), Cell(row, HDisplayName), Cell(row, HRepertoireTitle), Cell(row, HTitle),
                 Cell(row, HComposer), Cell(row, HRegion))
  {
    RosterTextsAreStripped(row);
    RosterOfTexts(Cell(row, HPerformerName), Cell(row, HDisplayName), Cell(row, HRepertoireTitle), Cell(row, HTitle),
        Cell(row, HComposer), Cell(row, HRegion));
  }

  // ---- Merging ----

  /** A merge writes a column that is NULL, empty or white space, if the row has something for it. */
  ghost predicate Fills(was: Option<string>, given: Option<string>) {
    (was.None? || Strip(was.value) == "") && given.Some? && given.value != ""
  }

  ghost function Merged(was: Option<string>, given: Option<string>): Option<string> {
    if Fills(was, given) then given else was
  }

  ghost function Applied(was: Option<string>, given: Option<string>): Option<string> {
    if Fills(was, given) then given else None
  }

  ghost function Noted(was: Option<string>, given: Option<string>): Option<Option<string>> {
    if Fills(was, given) then Some(was) else None
  }

  /** Each column merged with the row's value for that very column. */
  ghost function MergedColumns(was: Fields, given: Fields): Fields {
    PerField(
      stageName := Merged(was.stageName, given.stageName),
      email := Merged(was.email, given.email),
      phone := Merged(was.phone, given.phone),
      addressLine1 := Merged(was.addressLine1, given.addressLine1),
      biography := Merged(was.biography, given.biography),
      region := Merged(was.region, given.region))
  }

  /** What was written, under the name of the column it was written to. */
  ghost function AppliedColumns(was: Fields, given: Fields): Changes {
    PerField(
      stageName := Applied(was.stageName, given.stageName),
      email := Applied(was.email, given.email),
      phone := Applied(was.phone, given.phone),
      addressLine1 := Applied(was.addressLine1, given.addressLine1),
      biography := Applied(was.biography, given.biography),
      region := Applied(was.region, given.region))
  }

  /** What the written columns showed before, under their own names. */
  ghost function NotedColumns(was: Fields, given: Fields): Snapshot {
    PerField(
      stageName := Noted(was.stageName, given.stageName),
      email := Noted(was.email, given.email),
      phone := Noted(was.phone, given.phone),
      addressLine1 := Noted(was.addressLine1, given.addressLine1),
      biography := Noted(was.biography, given.biography),
      region := Noted(was.region, given.region))
  }

  /** `c` has a row and an entry to work with. */
  ghost predicate HasDependencies(t: Tables, c: nat) {
    && c in t.candidates && HasRow(t, t.candidates[c].row)
    && RowAt(t, t.candidates[c].row).normalized.Some? && t.candidates[c].target < |t.entries|
  }

  lemma FillingIs(n: Normalized, current: Fields, f: Field, given: Option<string>)
    requires Incoming(n, f) == given
    ensures Filling(n, current, f) == Applied(current.At(f), given)
  {
  }

  lemma FillableIs(n: Normalized, current: Fields)
    requires n.Member?
    ensures Fillable(n, current) == AppliedColumns(current, n.fields)
  {
    FillingIs(n, current, StageName, n.fields.stageName);
    FillingIs(n, current, Email, n.fields.email);
    FillingIs(n, current, Phone, n.fields.phone);
    FillingIs(n, current, AddressLine1, n.fields.addressLine1);
    FillingIs(n, current, Biography, n.fields.biography);
    FillingIs(n, current, Region, n.fields.region);
    var fillable := Fillable(n, current);
    assert fillable.At(StageName) == Filling(n, current, StageName) && fillable.At(Email) == Filling(n, current, Email);
    assert fillable.At(Phone) == Filling(n, current, Phone) && fillable.At(Region) == Filling(n, current, Region);
    assert fillable.At(AddressLine1) == Filling(n, current, AddressLine1);
    assert fillable.At(Biography) == Filling(n, current, Biography);
  }

  lemma ColumnByColumn<T>(p: PerField<T>)
    ensures p == PerField(stageName := p.At(StageName), email := p.At(Email), phone := p.At(Phone),
                          addressLine1 := p.At(AddressLine1), biography := p.At(Biography), region := p.At(Region))
  {
  }

  lemma WrittenAndNoted(was: Fields, given: Fields)
    ensures Written(was, AppliedColumns(was, given)) == MergedColumns(was, given)
    ensures SnapshotOf(was, AppliedColumns(was, given)) == NotedColumns(was, given)
  {
    ColumnByColumn(Written(was, AppliedColumns(was, given)));
    ColumnByColumn(SnapshotOf(was, AppliedColumns(was, given)));
  }

  /**
   * A merge of a member row fills each blank column of the entry with the row's own value of that column and leaves the
   * others alone; the action remembers what was written, and over what, under the same columns.
   */
  lemma MergeFillsColumnByColumn(t: Tables, c: nat)
    requires HasDependencies(t, c) && RowAt(t, t.candidates[c].row).normalized.value.Member? && Merge(t, c).Ok?
    ensures
      var cand := t.candidates[c];
      var was, given := t.entries[cand.target].fields, RowAt(t, cand.row).normalized.value.fields;
      var t' := Merge(t, c).value;
      && t'.entries == t.entries[cand.target := t.entries[cand.target].(fields := MergedColumns(was, given))]
      && t'.actions == t.actions +
           [Action(c, cand.target, NotedColumns(was, given), AppliedColumns(was, given), false)]
  {
    var cand := t.candidates[c];
    var n, was := RowAt(t, cand.row).normalized.value, t.entries[cand.target].fields;
    FillableIs(n, was);
    WrittenAndNoted(was, n.fields);
  }
}
