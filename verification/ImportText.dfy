/** Cells of an uploaded CSV and the two row normalizers of the import pipeline. */
module ImportText {
  import opened Common

  /** The six directory-entry columns a merge may fill, in the order the merge visits them. */
  datatype Field = StageName | Email | Phone | AddressLine1 | Biography | Region

  const UPDATABLE_FIELDS: seq<Field> := [StageName, Email, Phone, AddressLine1, Biography, Region]

  const DEFAULT_REGION := "Imported Region"

  /** One value per column. */
  datatype PerField<T> = PerField(stageName: T, email: T, phone: T, addressLine1: T, biography: T, region: T) {
    function At(f: Field): T {
      match f
      case StageName => stageName
      case Email => email
      case Phone => phone
      case AddressLine1 => addressLine1
      case Biography => biography
      case Region => region
    }

    function With(f: Field, v: T): (r: PerField<T>)
      ensures r.At(f) == v && forall g :: g != f ==> r.At(g) == At(g)
    {
      match f
      case StageName => this.(stageName := v)
      case Email => this.(email := v)
      case Phone => this.(phone := v)
      case AddressLine1 => this.(addressLine1 := v)
      case Biography => this.(biography := v)
      case Region => this.(region := v)
    }
  }

  function Each<T>(g: Field -> T): (r: PerField<T>)
    ensures forall f :: r.At(f) == g(f)
  {
    PerField(g(StageName), g(Email), g(Phone), g(AddressLine1), g(Biography), g(Region))
  }

  /** Two rows of columns that agree on every column are the same. */
  lemma SameColumns<T>(a: PerField<T>, b: PerField<T>)
    requires forall f :: a.At(f) == b.At(f)
    ensures a == b
  {
    assert a.At(StageName) == b.At(StageName) && a.At(Email) == b.At(Email) && a.At(Phone) == b.At(Phone);
    assert a.At(AddressLine1) == b.At(AddressLine1) && a.At(Biography) == b.At(Biography)
      && a.At(Region) == b.At(Region);
  }

  /** The columns of a directory entry, `None` standing for SQL NULL. */
  type Fields = PerField<Option<string>>

  /**
   * The CSV columns the normalizers read; any other column of the file is kept with the raw row but never looked
   * at.
   */
  datatype Header =
    | HDisplayName | HName | HFirstName | HLastName
    | HStageName | HRegion | HEmail | HPhone | HAddressLine1 | HBiography
    | HPerformerName | HRepertoireTitle | HTitle | HComposer

  type RawRow = map<Header, string>

  datatype Kind = MemberKind | RosterKind

  datatype Normalized =
    | Member(displayName: string, fields: Fields)
    | Roster(performer: string, title: string, composer: Option<string>, region: string)

  // ---- Python's str.strip ----

  predicate IsSpace(c: char) {
    || '\t' <= c <= '\r'
    || '\U{1C}' <= c <= ' '
    || c == '\U{85}' || c == '\U{A0}' || c == '\U{1680}'
    || '\U{2000}' <= c <= '\U{200A}'
    || c == '\U{2028}' || c == '\U{2029}' || c == '\U{202F}' || c == '\U{205F}' || c == '\U{3000}'
  }

  function TrimLeft(s: string): (r: string)
    ensures |r| <= |s| && r == s[|s| - |r|..]
    ensures r != "" ==> !IsSpace(r[0])
  {
    if s != "" && IsSpace(s[0]) then TrimLeft(s[1..]) else s
  }

  function TrimRight(s: string): (r: string)
    ensures |r| <= |s| && r == s[..|r|]
    ensures r != "" ==> !IsSpace(r[|r| - 1])
  {
    if s != "" && IsSpace(s[|s| - 1]) then TrimRight(s[..|s| - 1]) else s
  }

  function Strip(s: string): string { TrimRight(TrimLeft(s)) }

  predicate Blank(s: string) { Strip(s) == "" }

  /** A column a merge may fill: NULL, empty or white space only. */
  predicate BlankColumn(v: Option<string>) { v.None? || Blank(v.value) }

  /** Stripping twice is stripping once; so a cell that survives stripping is never blank. */
  lemma StripIdempotent(s: string)
    ensures Strip(Strip(s)) == Strip(s)
    ensures Strip(s) != "" ==> !Blank(Strip(s))
  {
    var l := TrimLeft(s);
    var r := TrimRight(l);
    if r != "" {
      assert r[0] == l[0];
    }
  }

  // ---- Row normalizers ----

  /** A cell as the parser hands it on: stripped, and empty when the file lacks the column. */
  function Cell(row: RawRow, key: Header): string { if key in row then Strip(row[key]) else "" }

  function Or(a: string, b: string): string { if a != "" then a else b }

  function OrNull(a: string): Option<string> { if a != "" then Some(a) else None }

  function FullName(first: string, last: string): string {
    Strip(if first != "" && last != "" then first + " " + last else first + last)
  }

  /** A given name wins over one made of first and last name. */
  function NameFrom(explicit: string, first: string, last: string): string {
    if explicit != "" && Strip(explicit) != "" then Strip(explicit) else FullName(Strip(first), Strip(last))
  }

  function MemberDisplayName(row: RawRow): string {
    NameFrom(Or(Cell(row, HDisplayName), Cell(row, HName)), Cell(row, HFirstName), Cell(row, HLastName))
  }

  /** The CSV header a column is read from. */
  function HeaderOf(f: Field): Header {
    match f
    case StageName => HStageName
    case Email => HEmail
    case Phone => HPhone
    case AddressLine1 => HAddressLine1
    case Biography => HBiography
    case Region => HRegion
  }

  function MemberColumn(row: RawRow, f: Field): Option<string> {
    if f == Region then Some(Or(Cell(row, HeaderOf(f)), DEFAULT_REGION)) else OrNull(Cell(row, HeaderOf(f)))
  }

  function MemberFields(row: RawRow): Fields { Each(f => MemberColumn(row, f)) }

  function RosterOf(performer: string, title: string, composer: string, region: string): (Option<Normalized>, nat) {
    var issues := (if performer == "" then 1 else 0) + (if title == "" then 1 else 0);
    if issues > 0 then (None, issues)
    else (Some(Roster(performer, title, OrNull(composer), Or(region, DEFAULT_REGION))), 0)
  }

  /** The normalized row (absent when the row has issues) and how many issues it has. */
  function NormalizeRow(kind: Kind, row: RawRow): (r: (Option<Normalized>, nat))
    ensures r.0.Some? <==> r.1 == 0
    ensures r.0.Some? ==> (r.0.value.Member? <==> kind == MemberKind)
  {
    match kind
    case MemberKind =>
      var name := MemberDisplayName(row);
      if name == "" then (None, 1) else (Some(Member(name, MemberFields(row))), 0)
    case RosterKind =>
      RosterOf(
        Strip(Or(Cell(row, HPerformerName), Cell(row, HDisplayName))),
        Strip(Or(Cell(row, HRepertoireTitle), Cell(row, HTitle))),
        Strip(Cell(row, HComposer)), Strip(Cell(row, HRegion)))
  }

  /** The name an applied row is filed under in the directory. */
  function NameOf(n: Normalized): string { if n.Member? then n.displayName else n.performer }

  /** `normalized.get(field)` as the merge reads it. */
  function Incoming(n: Normalized, f: Field): Option<string> {
    match n
    case Member(_, fields) => fields.At(f)
    case Roster(_, _, _, region) => if f == Region then Some(region) else None
  }

  lemma VisibleText(s: string)
    requires s != "" && !IsSpace(s[0]) && !IsSpace(s[|s| - 1])
    ensures Strip(s) == s && !Blank(s)
  {
  }

  /** NULL, or text that is not just white space. */
  predicate NullOrVisible(v: Option<string>) { v.Some? ==> v.value != "" && !Blank(v.value) }

  lemma CellIsVisible(row: RawRow, key: Header)
    ensures NullOrVisible(OrNull(Cell(row, key)))
  {
    if key in row { StripIdempotent(row[key]); }
  }

  lemma DefaultRegionIsVisible()
    ensures NullOrVisible(Some(DEFAULT_REGION))
  {
    VisibleText(DEFAULT_REGION);
  }

  lemma MemberColumnIsVisible(row: RawRow, f: Field)
    ensures NullOrVisible(MemberColumn(row, f))
  {
    CellIsVisible(row, HeaderOf(f));
    DefaultRegionIsVisible();
  }

  /**
   * Whatever a normalized member row hands to a merge is visible text: this is what keeps later merges off a
   * filled column.
   */
  lemma IncomingIsVisible(raw: RawRow, f: Field)
    requires NormalizeRow(MemberKind, raw).0.Some?
    ensures NullOrVisible(Incoming(NormalizeRow(MemberKind, raw).0.value, f))
  {
    MemberColumnIsVisible(raw, f);
  }

  // ---- The text rules the rest of the pipeline is built on ----

  type Lower = string -> string

  /** Case folding is left abstract; `normalize` is `NormalizeRow` in the pipeline itself. */
  datatype Rules = Rules(lower: Lower, normalize: (Kind, RawRow) -> (Option<Normalized>, nat))

  /**
   * All the pipeline relies on: a row is normalized iff it has no issues, into the shape of its batch's kind, with
   * no invisible member text.
   */
  ghost predicate Sound(rules: Rules) {
    forall kind, raw ::
      var r := rules.normalize(kind, raw);
      && (r.0.Some? <==> r.1 == 0)
      && (r.0.Some? ==> (r.0.value.Member? <==> kind == MemberKind))
      && (r.0.Some? && kind == MemberKind ==> forall f :: NullOrVisible(Incoming(r.0.value, f)))
  }

  function PipelineRules(lower: Lower): Rules { Rules(lower, NormalizeRow) }

  lemma PipelineRulesSound(lower: Lower)
    ensures Sound(PipelineRules(lower))
  {
    forall kind, raw, f | NormalizeRow(kind, raw).0.Some? && kind == MemberKind
      ensures NullOrVisible(Incoming(NormalizeRow(kind, raw).0.value, f))
    {
      IncomingIsVisible(raw, f);
    }
  }
}
