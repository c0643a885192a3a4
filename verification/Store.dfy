/** The record store: saves, reads and listings of a directory under one lock. */
module Store {
  import opened Results
  import opened Records
  import opened StoreRuns
  import opened PathOrder

  /** How the operating system answers one save. */
  datatype Answers<+Text> = Answers(writeOk: bool, left: Option<Text>, renameOk: bool, removed: bool)

  /** The events of one save that passed its checks. */
  function SaveEvents<Text>(r: Record, os: Answers<Text>): seq<Event<Text>> {
    if !os.writeOk then [Begin(r), WriteFailed(os.left)]
    else if !os.renameOk then [Begin(r), WriteOk, RenameFailed(os.removed)]
    else [Begin(r), WriteOk, RenameOk]
  }

  function SaveOutcome<Text>(os: Answers<Text>): Result<()> {
    if !os.writeOk then Failure(WriteError)
    else if !os.renameOk then Failure(RenameError)
    else Success(())
  }

  lemma AfterStep<Text>(codec: Codec<Text>, es: seq<Event<Text>>, s: State<Text>, e: Event<Text>)
    requires After(codec, es) == Some(s) && Enabled(s, e)
    ensures After(codec, es + [e]) == Some(Next(codec, s, e))
  {
    assert (es + [e])[..|es + [e]| - 1] == es;
  }

  // ---- Listing ------------------------------------------------------------------------------------

  ghost predicate SortedGlob<Text>(files: map<string, Text>, kind: RecordKind, fs: seq<string>) {
    StrictlySorted(fs) && forall f :: f in fs <==> f in files && Globbed(kind, f)
  }

  /** The records of a list of files, unreadable ones skipped. */
  function Readable<Text>(codec: Codec<Text>, files: map<string, Text>, kind: RecordKind, fs: seq<string>): seq<Record>
    requires forall f :: f in fs ==> f in files
  {
    if fs == [] then []
    else
      var before := Readable(codec, files, kind, fs[..|fs| - 1]);
      match codec.decode(kind, files[fs[|fs| - 1]])
      case None => before
      case Some(r) => before + [r]
  }

  /** In a directory reached by any run, a listed file is some slot's, and holds that slot's record. */
  lemma ListedFile<Text>(codec: Codec<Text>, es: seq<Event<Text>>, kind: RecordKind, f: string) returns (r: Record)
    requires RoundTrips(codec) && After(codec, es).Some?
    requires f in After(codec, es).value.files && Globbed(kind, f)
    ensures r.Home().kind == kind && FileName(r.Home()) == f
    ensures codec.decode(kind, After(codec, es).value.files[f]) == Some(r)
    ensures Read(codec, After(codec, es).value.files, r.Home()) == Success(r)
  {
    RunRefines(codec, es);
    var files := After(codec, es).value.files;
    assert IsOurs(f);
    if exists file :: f == TempName(file) {
      var file :| f == TempName(file);
      TempNeverVisible(file, Slot(kind, ""), kind);
    }
    var slot :| f == FileName(slot);
    GlobExact(kind, slot);
    assert Holds(codec, files, es, slot);
    r := LastRenamed(es, slot).value;
    VisibleIsLastRenamed(codec, es, slot);
  }

  lemma {:induction false} ReadableFiles<Text>(codec: Codec<Text>, es: seq<Event<Text>>, kind: RecordKind,
                                             fs: seq<string>)
    requires RoundTrips(codec) && After(codec, es).Some?
    requires forall f :: f in fs ==> f in After(codec, es).value.files && Globbed(kind, f)
    ensures var files := After(codec, es).value.files;
      var rs := Readable(codec, files, kind, fs);
      && |rs| == |fs|
      && forall i :: 0 <= i < |rs| ==>
           && rs[i].Home().kind == kind && FileName(rs[i].Home()) == fs[i]
           && Read(codec, files, rs[i].Home()) == Success(rs[i])
    decreases |fs|
  {
    hide After, Read, FileName, TempName, Globbed, Record.Home;
    if fs != [] {
      var before := fs[..|fs| - 1];
      ReadableFiles(codec, es, kind, before);
      var r := ListedFile(codec, es, kind, fs[|fs| - 1]);
    }
  }

  /** A listing gives, in path order and once each, exactly the records that reading their slots gives. */
  lemma ListingIsExact<Text>(codec: Codec<Text>, es: seq<Event<Text>>, kind: RecordKind, fs: seq<string>)
    requires RoundTrips(codec) && After(codec, es).Some?
    requires SortedGlob(After(codec, es).value.files, kind, fs)
    ensures var files := After(codec, es).value.files;
      var rs := Readable(codec, files, kind, fs);
      && (forall r :: r in rs <==> r.Home().kind == kind && Read(codec, files, r.Home()) == Success(r))
      && (forall i, j :: 0 <= i < j < |rs| ==>
            LexLe(FileName(rs[i].Home()), FileName(rs[j].Home())) && rs[i].Home() != rs[j].Home())
  {
    var files := After(codec, es).value.files;
    var rs := Readable(codec, files, kind, fs);
    ReadableFiles(codec, es, kind, fs);
    forall r
      ensures r in rs <==> r.Home().kind == kind && Read(codec, files, r.Home()) == Success(r)
    {
      if r.Home().kind == kind && Read(codec, files, r.Home()) == Success(r) {
        GlobExact(kind, r.Home());
        assert FileName(r.Home()) in fs;
        var i :| 0 <= i < |fs| && fs[i] == FileName(r.Home());
        FileNameInjective(rs[i].Home(), r.Home());
        assert rs[i] == r;
      }
    }
  }

  // ---- The store ------------------------------------------------------------------------------------

  /** Every method runs under the lock, so the directory is idle before and after it. */
  class Store<!Text> {
    const codec: Codec<Text>
    var files: map<string, Text>
    /** Everything that has happened to the directory. */
    ghost var history: seq<Event<Text>>

    ghost predicate Valid()
      reads this
    {
      After(codec, history) == Some(State(files, Idle))
    }

    /** Opens a directory left by any earlier run, a crashed one included. */
    constructor (codec: Codec<Text>, files: map<string, Text>, ghost history: seq<Event<Text>>)
      requires After(codec, history).Some? && After(codec, history).value.files == files
      ensures Valid() && this.codec == codec && this.files == files && this.history == history + [Crash(None)]
    {
      this.codec := codec;
      this.files := files;
      this.history := history + [Crash(None)];
      new;
      AfterStep(codec, history, After(codec, history).value, Crash(None));
    }

    method AtomicWrite(r: Record, os: Answers<Text>) returns (res: Result<()>)
      requires Valid() && r.Check().Success?
      modifies this
      ensures Valid() && history == old(history) + SaveEvents(r, os) && res == SaveOutcome(os)
    {
      hide After, FileName, TempName, Record.Check, Record.Home;
      var text := codec.encode(r);
      var final := FileName(r.Home());
      var tmp := TempName(final);
      AfterStep(codec, history, State(files, Idle), Begin(r));
      history := history + [Begin(r)];
      if !os.writeOk {
        AfterStep(codec, history, State(files, Writing(r)), WriteFailed(os.left));
        history := history + [WriteFailed(os.left)];
        if os.left.Some? {
          files := files[tmp := os.left.value];
        }
        assert history == old(history) + SaveEvents(r, os);
        return Failure(WriteError);
      }
      AfterStep(codec, history, State(files, Writing(r)), WriteOk);
      history := history + [WriteOk];
      files := files[tmp := text];
      if !os.renameOk {
        AfterStep(codec, history, State(files, Staged(r)), RenameFailed(os.removed));
        history := history + [RenameFailed(os.removed)];
        if os.removed {
          files := files - {tmp};
        }
        assert history == old(history) + SaveEvents(r, os);
        return Failure(RenameError);
      }
      AfterStep(codec, history, State(files, Staged(r)), RenameOk);
      history := history + [RenameOk];
      files := (files - {tmp})[final := files[tmp]];
      assert history == old(history) + SaveEvents(r, os);
      return Success(());
    }

    /** A save changes what is visible only when it reports success, and then only its own slot. */
    method Save(r: Record, os: Answers<Text>) returns (res: Result<()>)
      requires Valid() && RoundTrips(codec)
      modifies this
      ensures Valid()
      ensures res == if r.Check().Failure? then Failure(r.Check().error) else SaveOutcome(os)
      ensures history == old(history) + (if r.Check().Failure? then [] else SaveEvents(r, os))
      ensures forall slot :: Read(codec, files, slot)
                          == if res.Success? && slot == r.Home() then Success(r) else old(Read(codec, files, slot))
    {
      var check := r.Check();
      if check.Failure? {
        assert history == old(history) + [];
        return Failure(check.error);
      }
      res := AtomicWrite(r, os);
      forall slot
        ensures Read(codec, files, slot)
             == if res.Success? && slot == r.Home() then Success(r) else old(Read(codec, files, slot))
      {
        SaveIsVisible(codec, old(history), r, os, slot);
        VisibleIsLastRenamed(codec, old(history), slot);
        VisibleIsLastRenamed(codec, history, slot);
      }
    }

    method Get(kind: RecordKind, name: string) returns (r: Result<Record>)
      ensures r == if CheckName(name).Failure? then Failure(CheckName(name).error)
                   else Read(codec, files, Slot(kind, name))
    {
      var _ :- CheckName(name);
      var file := FileName(Slot(kind, name));
      if file !in files {
        return Failure(NotFound);
      }
      var v := codec.decode(kind, files[file]);
      if v.None? {
        return Failure(Unreadable);
      }
      return Success(v.value);
    }

    method Glob(kind: RecordKind) returns (fs: seq<string>)
      ensures SortedGlob(files, kind, fs)
    {
      hide LexLe, Globbed;
      fs := [];
      var rest := set f | f in files.Keys && Globbed(kind, f);
      while rest != {}
        invariant StrictlySorted(fs)
        invariant forall f, g :: f in fs && g in rest ==> LexLe(f, g) && f != g
        invariant forall f :: (f in fs || f in rest) <==> f in files && Globbed(kind, f)
        decreases |rest|
      {
        LeastExists(rest);
        var f :| f in rest && forall g :: g in rest ==> LexLe(f, g);
        fs := fs + [f];
        rest := rest - {f};
      }
    }

    method List(kind: RecordKind) returns (rs: seq<Record>)
      ensures exists fs :: SortedGlob(files, kind, fs) && rs == Readable(codec, files, kind, fs)
    {
      var fs := Glob(kind);
      rs := [];
      for i := 0 to |fs|
        invariant rs == Readable(codec, files, kind, fs[..i])
      {
        assert fs[..i + 1][..i] == fs[..i];
        var v := codec.decode(kind, files[fs[i]]);
        if v.Some? {
          rs := rs + [v.value];
        }
      }
      assert fs[..|fs|] == fs;
    }
  }

  /** The history of one save renames its record into its own slot, or nothing. */
  lemma SaveIsVisible<Text>(codec: Codec<Text>, es: seq<Event<Text>>, r: Record, os: Answers<Text>, slot: Slot)
    ensures LastRenamed(es + SaveEvents(r, os), slot)
         == if SaveOutcome(os).Success? && slot == r.Home() then Some(r) else LastRenamed(es, slot)
  {
    var a := es + [Begin(r)];
    LastOf(es, Begin(r), slot);
    if !os.writeOk {
      LastOf(a, WriteFailed(os.left), slot);
      assert es + SaveEvents(r, os) == a + [WriteFailed(os.left)];
    } else {
      var b := a + [WriteOk];
      LastOf(a, WriteOk, slot);
      var e := if os.renameOk then RenameOk else RenameFailed(os.removed);
      LastOf(b, e, slot);
      assert es + SaveEvents(r, os) == b + [e];
    }
  }

  lemma LastOf<Text>(es: seq<Event<Text>>, e: Event<Text>, slot: Slot)
    ensures Pending(es + [e]) == match e case Begin(r) => Some(r) case WriteOk => Pending(es) case _ => None
    ensures LastRenamed(es + [e], slot)
         == if e.RenameOk? && Pending(es).Some? && Pending(es).value.Home() == slot then Pending(es)
            else LastRenamed(es, slot)
  {
    assert (es + [e])[..|es + [e]| - 1] == es;
  }
}
