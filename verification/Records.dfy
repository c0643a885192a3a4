/** Stored records, their validation, and the files they are kept in. */
module Records {
  import opened Results
  import opened Trig
  import opened Law
  import opened Cycle
  import opened WholeTurn
  import opened JointReport

  // ---- Names --------------------------------------------------------------------------------------

  predicate IsSpace(ch: char) {
    '\t' <= ch <= '\r' || ch in {' ', '\U{0085}', '\U{00A0}', '\U{1680}', '\U{2028}', '\U{2029}', '\U{202F}', '\U{205F}',
                                 '\U{3000}'}
    || '\U{2000}' <= ch <= '\U{200A}'
  }

  predicate Blank(name: string) {
    forall i :: 0 <= i < |name| ==> IsSpace(name[i])
  }

  predicate IsNameChar(ch: char) {
    'A' <= ch <= 'Z' || 'a' <= ch <= 'z' || '0' <= ch <= '9' || ch in {'_', '.', '-'} || '\U{4E00}' <= ch <= '\U{9FFF}'
  }

  function CheckName(name: string): Result<()> {
    if Blank(name) then Failure(BlankName)
    else if name == "" || exists i :: 0 <= i < |name| && !IsNameChar(name[i]) then Failure(BadName)
    else if name == "." || name == ".." then Failure(BadName)
    else Success(())
  }

  // ---- Records ------------------------------------------------------------------------------------

  datatype Recipe = Recipe(name: string, tp: LawName, h: real, beta: real) {
    function Validate(): Result<()> {
      if Blank(name) then Failure(BlankName)
      else if !Known(tp) then Failure(UnknownLaw)
      else if h <= 0.0 then Failure(NonPositiveLift)
      else if beta <= 0.0 || beta >= 360.0 then Failure(BadMotionAngle)
      else Success(())
    }
  }

  datatype CycleRecord = CycleRecord(name: string, h: real, riseLaw: LawName, returnLaw: LawName, riseAngle: real,
                                     outerDwell: real, returnAngle: real, innerDwell: real)
  {
    /** The angles are checked with a borrowed speed of 1. */
    function Validate(): Result<()> {
      if Blank(name) then Failure(BlankName)
      else Config(riseLaw, returnLaw, h, riseAngle, outerDwell, returnAngle, innerDwell, 1.0).Validate()
    }

    function ToConfig(omega: real): Config {
      Config(riseLaw, returnLaw, h, riseAngle, outerDwell, returnAngle, innerDwell, omega)
    }
  }

  /** The borrowed speed decides nothing: a cycle record is accepted exactly when its name is not blank and
      it gives a valid turn at every positive speed. */
  lemma CycleRecordAccepted(r: CycleRecord)
    ensures r.Validate().Success? <==>
      !Blank(r.name) && forall omega :: 0.0 < omega ==> r.ToConfig(omega).Valid()
  {
    assert r.ToConfig(1.0).Valid() ==> forall omega :: 0.0 < omega ==> r.ToConfig(omega).Valid();
    assert 0.0 < 1.0;
  }

  /** An accepted cycle record stitches, samples and reports its joints without error at every speed. */
  lemma AcceptedCycleIsUsable(t: Circle, r: CycleRecord, omega: real)
    requires r.Validate().Success? && 0.0 < omega
    ensures var c := r.ToConfig(omega);
      && c.Valid() && Stitched(c).Usable() && Stitched(c).JointList(t).Success?
      && forall theta :: 0.0 <= theta <= 360.0 ==> Stitched(c).Point(t, theta).Success?
  {
    hide Segments.Point, Segments.JointList, StitchedList;
    CycleRecordAccepted(r);
    var c := r.ToConfig(omega);
    ReportComplete(t, c);
    forall theta | 0.0 <= theta <= 360.0
      ensures Stitched(c).Point(t, theta).Success?
    {
      PointAnswers(t, c, theta);
    }
  }

  datatype RecordKind = RecipeKind | CycleKind

  datatype Record = OfRecipe(recipe: Recipe) | OfCycle(cycle: CycleRecord) {
    function Home(): Slot {
      match this
      case OfRecipe(r) => Slot(RecipeKind, r.name)
      case OfCycle(r) => Slot(CycleKind, r.name)
    }

    /** The checks a record passes before it is written. */
    function Check(): Result<()> {
      var _ :- match this case OfRecipe(r) => r.Validate() case OfCycle(r) => r.Validate();
      CheckName(Home().name)
    }
  }

  /** Where a record is kept: one slot for each kind and name. */
  datatype Slot = Slot(kind: RecordKind, name: string)

  // ---- File names -----------------------------------------------------------------------------------

  function Prefix(kind: RecordKind): string {
    match kind
    case RecipeKind => "recipe_"
    case CycleKind => "cycle_"
  }

  const SUFFIX := ".json"
  const TEMP_SUFFIX := ".tmp"

  function FileName(slot: Slot): string {
    Prefix(slot.kind) + slot.name + SUFFIX
  }

  function TempName(file: string): string {
    file + TEMP_SUFFIX
  }

  predicate EndsWith(s: string, e: string) {
    |e| <= |s| && s[|s| - |e|..] == e
  }

  /** The listing pattern of a kind: its prefix, anything, the suffix. */
  predicate Globbed(kind: RecordKind, file: string) {
    Prefix(kind) <= file && |Prefix(kind)| + |SUFFIX| <= |file| && EndsWith(file, SUFFIX)
  }

  /** Distinct slots never share a file. */
  lemma FileNameInjective(a: Slot, b: Slot)
    requires FileName(a) == FileName(b)
    ensures a == b
  {
    assert FileName(a)[0] == Prefix(a.kind)[0] && FileName(b)[0] == Prefix(b.kind)[0];
    assert a.kind == b.kind;
    var p := |Prefix(a.kind)|;
    assert FileName(a)[p..|FileName(a)| - 5] == a.name;
    assert FileName(b)[p..|FileName(b)| - 5] == b.name;
  }

  /** A temporary file is never a record's file, nor listed, and distinct files have distinct temporaries. */
  lemma TempNeverVisible(file: string, slot: Slot, kind: RecordKind)
    ensures TempName(file) != FileName(slot) && !Globbed(kind, TempName(file))
    ensures forall file' :: TempName(file) == TempName(file') ==> file == file'
  {
    var n := |TempName(file)|;
    assert TempName(file)[n - 1] == 'p';
    assert FileName(slot)[|FileName(slot)| - 1] == 'n';
    assert n >= 5 ==> TempName(file)[n - 5..][4] == 'p';
    assert SUFFIX[4] == 'n';
    forall file' | TempName(file) == TempName(file')
      ensures file == file'
    {
      assert file == TempName(file)[..n - 4] == TempName(file')[..n - 4] == file';
    }
  }

  /** The pattern of a kind lists exactly the files of its own slots. */
  lemma GlobExact(kind: RecordKind, slot: Slot)
    ensures Globbed(kind, FileName(slot)) <==> slot.kind == kind
  {
    var f := FileName(slot);
    assert f[|f| - 5..] == SUFFIX;
    assert f[..|Prefix(slot.kind)|] == Prefix(slot.kind);
    assert f[0] == Prefix(slot.kind)[0];
    assert Globbed(kind, f) ==> f[0] == Prefix(kind)[0];
  }
}
