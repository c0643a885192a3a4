/** The record directory as a step machine: saves under one lock, each a temporary write followed by a
    rename, any of which may fail or be cut short by a crash.

    The directory of every run is shown to refine the map from slots to the record last renamed there. */
module StoreRuns {
  import opened Results
  import opened Records

  datatype Option<+T> = None | Some(value: T)

  /** Text encoding and decoding, and what decoding makes of any other text. */
  datatype Codec<!Text> = Codec(encode: Record -> Text, decode: (RecordKind, Text) -> Option<Record>)

  ghost predicate RoundTrips<Text>(codec: Codec<Text>) {
    forall r: Record :: r.Check().Success? ==> codec.decode(r.Home().kind, codec.encode(r)) == Some(r)
  }

  /** The save in progress: nothing, a record about to be written, or one written and about to be renamed. */
  datatype Phase = Idle | Writing(record: Record) | Staged(record: Record)

  datatype State<Text> = State(files: map<string, Text>, phase: Phase)

  /** `left` is what a failed or interrupted write leaves in the temporary file, if anything. */
  datatype Event<Text> =
    | Begin(record: Record)
    | WriteOk
    | WriteFailed(left: Option<Text>)
    | RenameOk
    | RenameFailed(removed: bool)
    | Crash(left: Option<Text>)

  function TargetOf(r: Record): string {
    FileName(r.Home())
  }

  function LeaveBehind<Text>(files: map<string, Text>, r: Record, left: Option<Text>): map<string, Text> {
    match left
    case None => files
    case Some(text) => files[TempName(TargetOf(r)) := text]
  }

  predicate Enabled<Text>(s: State<Text>, e: Event<Text>) {
    match e
    case Begin(r) => s.phase.Idle? && r.Check().Success?
    case WriteOk => s.phase.Writing?
    case WriteFailed(_) => s.phase.Writing?
    case RenameOk => s.phase.Staged? && TempName(TargetOf(s.phase.record)) in s.files
    case RenameFailed(_) => s.phase.Staged?
    case Crash(_) => true
  }

  /** A rename moves the temporary file onto the record's file in one step. */
  function Renamed<Text>(files: map<string, Text>, target: string): map<string, Text>
    requires TempName(target) in files
  {
    (files - {TempName(target)})[target := files[TempName(target)]]
  }

  function Next<Text>(codec: Codec<Text>, s: State<Text>, e: Event<Text>): State<Text>
    requires Enabled(s, e)
  {
    match e
    case Begin(r) => s.(phase := Writing(r))
    case WriteOk =>
      State(s.files[TempName(TargetOf(s.phase.record)) := codec.encode(s.phase.record)], Staged(s.phase.record))
    case WriteFailed(left) => State(LeaveBehind(s.files, s.phase.record, left), Idle)
    case RenameOk => State(Renamed(s.files, TargetOf(s.phase.record)), Idle)
    case RenameFailed(removed) =>
      State(if removed then s.files - {TempName(TargetOf(s.phase.record))} else s.files, Idle)
    case Crash(left) =>
      State(if s.phase.Writing? then LeaveBehind(s.files, s.phase.record, left) else s.files, Idle)
  }

  // ---- Runs ------------------------------------------------------------------------------------------

  /** The state after a run from an empty directory, if every event of the run was enabled. */
  function After<Text>(codec: Codec<Text>, es: seq<Event<Text>>): Option<State<Text>> {
    if es == [] then Some(State(map[], Idle))
    else
      match After(codec, es[..|es| - 1])
      case None => None
      case Some(s) => if Enabled(s, es[|es| - 1]) then Some(Next(codec, s, es[|es| - 1])) else None
  }

  /** The record of the save still in progress at the end of a history. */
  function Pending<Text>(es: seq<Event<Text>>): Option<Record> {
    if es == [] then None
    else
      match es[|es| - 1]
      case Begin(r) => Some(r)
      case WriteOk => Pending(es[..|es| - 1])
      case _ => None
  }

  /** The record last renamed into a slot, read off the history alone. */
  function LastRenamed<Text>(es: seq<Event<Text>>, slot: Slot): Option<Record> {
    if es == [] then None
    else
      var before := es[..|es| - 1];
      match Pending(before)
      case Some(r) => if es[|es| - 1].RenameOk? && r.Home() == slot then Some(r) else LastRenamed(before, slot)
      case None => LastRenamed(before, slot)
  }

  // ---- What is visible --------------------------------------------------------------------------------

  /** What reading a slot finds. */
  function Read<Text>(codec: Codec<Text>, files: map<string, Text>, slot: Slot): Result<Record> {
    if FileName(slot) !in files then Failure(NotFound)
    else
      match codec.decode(slot.kind, files[FileName(slot)])
      case None => Failure(Unreadable)
      case Some(r) => Success(r)
  }

  /** A slot holds what the history last renamed there, which was checked and belongs there. */
  ghost predicate Holds<Text>(codec: Codec<Text>, files: map<string, Text>, es: seq<Event<Text>>, slot: Slot) {
    match LastRenamed(es, slot)
    case None => FileName(slot) !in files
    case Some(r) =>
      r.Home() == slot && r.Check().Success? && FileName(slot) in files && files[FileName(slot)] == codec.encode(r)
  }

  /** Every file is a temporary or the file of some slot. */
  ghost predicate OnlyOurs<Text>(files: map<string, Text>) {
    forall f :: f in files ==> IsOurs(f)
  }

  ghost predicate IsOurs(f: string) {
    (exists file :: f == TempName(file)) || (exists slot :: f == FileName(slot))
  }

  /** The save in progress is the pending record, checked, and once staged its text is in the temporary. */
  ghost predicate InStep<Text>(codec: Codec<Text>, s: State<Text>, es: seq<Event<Text>>) {
    match s.phase
    case Idle => Pending(es) == None
    case Writing(r) => Pending(es) == Some(r) && r.Check().Success?
    case Staged(r) =>
      && Pending(es) == Some(r) && r.Check().Success?
      && TempName(TargetOf(r)) in s.files && s.files[TempName(TargetOf(r))] == codec.encode(r)
  }

  ghost predicate Refines<Text>(codec: Codec<Text>, s: State<Text>, es: seq<Event<Text>>) {
    && InStep(codec, s, es)
    && OnlyOurs(s.files)
    && forall slot :: Holds(codec, s.files, es, slot)
  }

  // ---- Every step keeps the refinement -----------------------------------------------------------------

  /** Changing a temporary file changes no slot. */
  lemma TempIsInvisible<Text>(codec: Codec<Text>, files: map<string, Text>, files': map<string, Text>, file: string,
                              es: seq<Event<Text>>, slot: Slot)
    requires Holds(codec, files, es, slot)
    requires files' - {TempName(file)} == files - {TempName(file)}
    ensures Holds(codec, files', es, slot)
  {
    TempNeverVisible(file, slot, slot.kind);
    var f := FileName(slot);
    assert f in files' <==> f in files' - {TempName(file)};
    assert f in files <==> f in files - {TempName(file)};
    if f in files {
      assert (files' - {TempName(file)})[f] == (files - {TempName(file)})[f];
    }
  }

  lemma TempStepKeeps<Text>(codec: Codec<Text>, files: map<string, Text>, files': map<string, Text>, file: string,
                            es: seq<Event<Text>>, e: Event<Text>)
    requires OnlyOurs(files) && forall slot :: Holds(codec, files, es, slot)
    requires files' - {TempName(file)} == files - {TempName(file)} && !e.RenameOk?
    ensures OnlyOurs(files') && forall slot :: Holds(codec, files', es + [e], slot)
  {
    assert (es + [e])[..|es + [e]| - 1] == es;
    forall slot
      ensures Holds(codec, files', es + [e], slot)
    {
      TempIsInvisible(codec, files, files', file, es, slot);
      assert LastRenamed(es + [e], slot) == LastRenamed(es, slot);
    }
    forall f | f in files'
      ensures IsOurs(f)
    {
      if f != TempName(file) {
        assert f in files' - {TempName(file)};
        assert f in files;
      }
    }
  }

  lemma RenameKeeps<Text>(codec: Codec<Text>, files: map<string, Text>, r: Record, es: seq<Event<Text>>)
    requires OnlyOurs(files) && forall slot :: Holds(codec, files, es, slot)
    requires Pending(es) == Some(r) && r.Check().Success?
    requires TempName(TargetOf(r)) in files && files[TempName(TargetOf(r))] == codec.encode(r)
    ensures OnlyOurs(Renamed(files, TargetOf(r)))
    ensures forall slot :: Holds(codec, Renamed(files, TargetOf(r)), es + [RenameOk], slot)
  {
    var es' := es + [RenameOk];
    var files' := Renamed(files, TargetOf(r));
    assert es'[..|es'| - 1] == es;
    forall slot
      ensures Holds(codec, files', es', slot)
    {
      assert Holds(codec, files, es, slot);
      TempNeverVisible(TargetOf(r), slot, slot.kind);
      if FileName(slot) == TargetOf(r) {
        FileNameInjective(slot, r.Home());
      }
    }
    forall f | f in files'
      ensures IsOurs(f)
    {
      if f != TargetOf(r) {
        assert f in files;
      }
    }
  }

  lemma StepRefines<Text>(codec: Codec<Text>, s: State<Text>, es: seq<Event<Text>>, e: Event<Text>)
    requires Refines(codec, s, es) && Enabled(s, e)
    ensures Refines(codec, Next(codec, s, e), es + [e])
  {
    var s' := Next(codec, s, e);
    assert (es + [e])[..|es + [e]| - 1] == es;
    match e
    case RenameOk => RenameKeeps(codec, s.files, s.phase.record, es);
    case Begin(r) => TempStepKeeps(codec, s.files, s'.files, TargetOf(r), es, e);
    case _ =>
      var file := if s.phase.Idle? then "" else TargetOf(s.phase.record);
      TempStepKeeps(codec, s.files, s'.files, file, es, e);
  }

  lemma {:induction false} RunRefines<Text>(codec: Codec<Text>, es: seq<Event<Text>>)
    requires After(codec, es).Some?
    ensures Refines(codec, After(codec, es).value, es)
    decreases |es|
  {
    if es != [] {
      var before := es[..|es| - 1];
      RunRefines(codec, before);
      StepRefines(codec, After(codec, before).value, before, es[|es| - 1]);
      assert before + [es[|es| - 1]] == es;
    }
  }

  /** After any run of saves, failed saves and crashes, reading a slot gives exactly the record last renamed
      there, which passed its checks and carries that slot's name; or nothing when there was none. */
  lemma VisibleIsLastRenamed<Text>(codec: Codec<Text>, es: seq<Event<Text>>, slot: Slot)
    requires RoundTrips(codec) && After(codec, es).Some?
    ensures var r := Read(codec, After(codec, es).value.files, slot);
      match LastRenamed(es, slot)
      case None => r == Failure(NotFound)
      case Some(rec) => r == Success(rec) && rec.Home() == slot && rec.Check().Success?
  {
    RunRefines(codec, es);
    assert Holds(codec, After(codec, es).value.files, es, slot);
  }

  /** A crash, a failed write or a failed rename never changes what is visible. */
  lemma FailuresAreInvisible<Text>(codec: Codec<Text>, es: seq<Event<Text>>, e: Event<Text>, slot: Slot)
    requires RoundTrips(codec) && After(codec, es + [e]).Some? && !e.RenameOk?
    ensures After(codec, es).Some?
    ensures Read(codec, After(codec, es + [e]).value.files, slot) == Read(codec, After(codec, es).value.files, slot)
  {
    assert (es + [e])[..|es + [e]| - 1] == es;
    VisibleIsLastRenamed(codec, es, slot);
    VisibleIsLastRenamed(codec, es + [e], slot);
    assert LastRenamed(es + [e], slot) == LastRenamed(es, slot);
  }
}
