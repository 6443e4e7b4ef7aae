/**
  `organize_files` and the exit status of the organizer's `main`: every data
  file found under the source directory is moved into the directory of its
  sanitized user name, under a name that is not taken yet.
 */
module Organizer {
  import opened Wrappers
  import opened Text
  import opened Values
  import opened Paths
  import opened OrganizerRules

  /** What happens when a file is moved: both steps succeed, the copy fails,
      or the copy succeeds and the removal of the original fails. */
  datatype MoveFault = NoFault | CopyFails | RemoveFails

  /** The files after a move of src to dst. */
  function AfterMove(files: Files, src: Entry, dst: Entry, fault: MoveFault): Files
    requires src in files
  {
    if fault.CopyFails? then files
    else if fault.RemoveFails? then files[dst := files[src]]
    else files[dst := files[src]] - {src}
  }

  /** A move adds dst with the contents of src, may remove src, and leaves
      every other file as it was. */
  lemma AfterMoveFacts(files: Files, src: Entry, dst: Entry, fault: MoveFault)
    requires src in files && dst !in files
    ensures forall e :: e in files && e != src ==> e in AfterMove(files, src, dst, fault) && AfterMove(files, src, dst, fault)[e] == files[e]
    ensures forall e :: e in AfterMove(files, src, dst, fault) && e !in files ==> e == dst && !fault.CopyFails?
    ensures dst in AfterMove(files, src, dst, fault) <==> !fault.CopyFails?
    ensures dst in AfterMove(files, src, dst, fault) ==> AfterMove(files, src, dst, fault)[dst] == files[src]
    ensures src in AfterMove(files, src, dst, fault) <==> !fault.NoFault?
  {
  }

  /** The files of the disk, each with what loading it gives. A path that is
      not a key (a directory, or a file that is gone) cannot be loaded. */
  type Files = map<Entry, LoadOutcome>

  /** `load_data_file`: the document, or None on any failure. */
  function LoadData(files: Files, e: Entry): (r: Option<Value>)
    ensures r.Some? <==> e in files && files[e].Parsed?
    ensures r.Some? ==> r.value == files[e].value
  {
    if e in files && files[e].Parsed? then Some(files[e].value) else None
  }

  /** The components of the path of the file e. */
  function EntryParts(e: Entry): seq<string> {
    e.dir.parts + [e.name]
  }

  /** `p.exists()`: some file is at the path or below it, so the path is a
      file or a directory. */
  predicate Exists(files: Files, p: Path) {
    exists e :: e in files && e.dir.anchor == p.anchor && p.parts <= EntryParts(e)
  }

  /** The names taken in directory dir: those of its files and of its
      subdirectories. */
  function NamesIn(files: Files, dir: Path): set<string> {
    set e | e in files && e.dir.anchor == dir.anchor && dir.parts < EntryParts(e) :: EntryParts(e)[|dir.parts|]
  }

  /** The name of a file directly in dir is taken. */
  lemma NamesInFiles(files: Files, dir: Path, e: Entry)
    requires e in files && e.dir == dir
    ensures e.name in NamesIn(files, dir)
  {
    assert EntryParts(e)[|dir.parts|] == e.name;
  }

  /** A name is taken in dir exactly when `dir / name` exists. */
  lemma NamesExist(files: Files, dir: Path, name: Component)
    ensures name in NamesIn(files, dir) <==> Exists(files, Child(dir, name))
  {
    var n, path := |dir.parts|, Child(dir, name);
    if name in NamesIn(files, dir) {
      var e :| e in files && e.dir.anchor == dir.anchor && dir.parts < EntryParts(e) && EntryParts(e)[n] == name;
      assert path.parts == EntryParts(e)[..n + 1];
    }
    if Exists(files, path) {
      var e :| e in files && e.dir.anchor == path.anchor && path.parts <= EntryParts(e);
      assert EntryParts(e)[n] == path.parts[n];
    }
  }

  /** A file exists. */
  lemma FileExists(files: Files, e: Entry)
    requires e in files
    ensures Exists(files, Child(e.dir, e.name))
  {
  }

  /** The disk, whose files the moves change. */
  class FileSystem {
    var files: Files

    constructor (files: Files)
      ensures this.files == files
    {
      this.files := files;
    }

    /** `shutil.copy2` followed by `os.remove`, onto a path where nothing
        exists. */
    method Move(src: Entry, dst: Entry, fault: MoveFault) returns (ok: bool)
      requires src in files && !Exists(files, Child(dst.dir, dst.name))
      modifies this
      ensures ok <==> fault.NoFault?
      ensures files == AfterMove(old(files), src, dst, fault)
    {
      if dst in files {
        FileExists(files, dst);
      }
      if fault.CopyFails? {
        return false;
      }
      files := files[dst := files[src]];
      if fault.RemoveFails? {
        return false;
      }
      files := files - {src};
      return true;
    }
  }

  /** What `organize_files` did with one path. */
  datatype FileOutcome =
    | Skipped                 // an example or `.gitkeep`
    | Ignored                 // not a data file
    | Failed                  // not loaded, or no usable user name
    | Crashed                 // raised: the run stops here
    | MoveFailed(dst: Entry)  // the copy or the removal failed
    | Moved(dst: Entry)       // moved to dst

  /** The outcomes counted in `errors`. */
  predicate IsError(o: FileOutcome) {
    o.Failed? || o.MoveFailed?
  }

  /** The outcomes of the paths `organize_files` counts or raises on, that is,
      of all paths but the skipped and the ignored ones. */
  predicate Counted(o: FileOutcome) {
    !(o.Skipped? || o.Ignored?)
  }

  /** The collision loop: the file's own name if it is free in dir, otherwise
      `stem_1 + suffix`, `stem_2 + suffix`, ... until a free one is found. */
  method ChooseTarget(fs: FileSystem, dir: Path, name: Component) returns (target: Component, ghost k: nat)
    ensures ChosenIndex(NamesIn(fs.files, dir), name, k) && target == Candidate(name, k)
    ensures !Exists(fs.files, Child(dir, target))
  {
    ghost var existing := NamesIn(fs.files, dir);
    target := name;
    var counter: nat := 1;
    NamesExist(fs.files, dir, target);
    while Exists(fs.files, Child(dir, target))
      invariant counter >= 1 && target == Candidate(name, counter - 1)
      invariant forall j :: 0 <= j < counter - 1 ==> Candidate(name, j) in existing
      invariant target in existing <==> Exists(fs.files, Child(dir, target))
      decreases |existing| - (counter - 1)
    {
      TriedBeforeWithin(existing, name, counter);
      TriedBeforeSize(name, counter);
      SubsetSize(TriedBefore(name, counter), existing);
      var stem := Stem(name);
      var suffix := Suffix(name);
      CandidatePart(name, counter);
      target := stem + "_" + NatToString(counter) + suffix;
      NamesExist(fs.files, dir, target);
      counter := counter + 1;
    }
    k := counter - 1;
  }

  /** What one round of the loop of `organize_files` does with the path src:
      the outcome that the decision for the file and the fault of its move call
      for, and the files afterwards. A moved file goes to the first free name of
      its user's directory. */
  ghost predicate Round(before: Files, src: Entry, root: Path, fault: MoveFault, outcome: FileOutcome, after: Files)
  {
    var d := Decide(src.name, LoadData(before, src));
    if outcome.Skipped? then d.Skip? && after == before
    else if outcome.Crashed? then d.Crash? && after == before
    else if outcome.Ignored? then d.NotData? && after == before
    else if outcome.Failed? then (d.LoadFailed? || d.NoUsername? || d.BadUsername?) && after == before
    else
      && d.MoveTo? && (outcome.Moved? <==> fault.NoFault?)
      && outcome.dst.dir == UserDir(root, d.user)
      && (exists k :: ChosenIndex(NamesIn(before, outcome.dst.dir), src.name, k) && outcome.dst.name == Candidate(src.name, k))
      && src in before
      && after == AfterMove(before, src, outcome.dst, fault)
  }

  /** A round leaves exactly the skipped and ignored files out of the counts,
      and its outcome is the one the decision and the fault call for. */
  lemma RoundOutcome(before: Files, src: Entry, root: Path, fault: MoveFault, outcome: FileOutcome, after: Files)
    requires Round(before, src, root, fault, outcome, after)
    ensures Counted(outcome) <==> IsEligible(src.name)
    ensures var d := Decide(src.name, LoadData(before, src));
      && (outcome.Skipped? <==> d.Skip?)
      && (outcome.Ignored? <==> d.NotData?)
      && (outcome.Failed? <==> d.LoadFailed? || d.NoUsername? || d.BadUsername?)
      && (outcome.Crashed? <==> d.Crash?)
      && (outcome.Moved? <==> d.MoveTo? && fault.NoFault?)
      && (outcome.MoveFailed? <==> d.MoveTo? && !fault.NoFault?)
  {
    DecideFacts(src.name, LoadData(before, src));
  }

  /** A round leaves a path out of the counts exactly when it is ineligible. */
  lemma RoundEligible(before: Files, src: Entry, root: Path, fault: MoveFault, outcome: FileOutcome, after: Files)
    requires Round(before, src, root, fault, outcome, after)
    ensures Counted(outcome) <==> IsEligible(src.name)
  {
    RoundOutcome(before, src, root, fault, outcome, after);
  }

  /** A move never overwrites a file. A successful one puts the contents at the
      target and removes the source; a failed one keeps the source, and the
      target, if the copy was made, holds the same contents. New files lie in a
      user directory, and every other file is kept. */
  lemma RoundFiles(before: Files, src: Entry, root: Path, fault: MoveFault, outcome: FileOutcome, after: Files)
    requires Round(before, src, root, fault, outcome, after)
    ensures outcome.Moved? ==>
      && outcome.dst !in before && outcome.dst in after && after[outcome.dst] == before[src]
      && src !in after
    ensures outcome.MoveFailed? ==>
      && outcome.dst !in before && (outcome.dst in after ==> after[outcome.dst] == before[src])
      && src in after && after[src] == before[src]
    ensures outcome.Moved? || outcome.MoveFailed? ==> !Exists(before, Child(outcome.dst.dir, outcome.dst.name))
    ensures !(outcome.Moved? || outcome.MoveFailed?) ==> after == before
    ensures forall e :: e in before && e != src ==> e in after && after[e] == before[e]
    ensures forall e :: e in after && e !in before ==> InUserDir(root, e.dir)
  {
    if outcome.Moved? || outcome.MoveFailed? {
      var d := Decide(src.name, LoadData(before, src));
      var dst := outcome.dst;
      RoundTarget(before, src, root, fault, outcome, after);
      AfterMoveFacts(before, src, dst, fault);
      UserDirFacts(root, d.user, d.user);
    }
  }

  /** The target of a move is a path where nothing exists. */
  lemma RoundTarget(before: Files, src: Entry, root: Path, fault: MoveFault, outcome: FileOutcome, after: Files)
    requires Round(before, src, root, fault, outcome, after)
    requires outcome.Moved? || outcome.MoveFailed?
    ensures !Exists(before, Child(outcome.dst.dir, outcome.dst.name)) && outcome.dst !in before
  {
    var dst := outcome.dst;
    var k :| ChosenIndex(NamesIn(before, dst.dir), src.name, k) && dst.name == Candidate(src.name, k);
    NamesExist(before, dst.dir, dst.name);
    if dst in before {
      FileExists(before, dst);
    }
  }

  /** One round of the loop of `organize_files`, for the path src. */
  method ProcessFile(fs: FileSystem, src: Entry, root: Path, fault: MoveFault) returns (outcome: FileOutcome)
    modifies fs
    ensures Round(old(fs.files), src, root, fault, outcome, fs.files)
  {
    var d := Decide(src.name, LoadData(fs.files, src));
    if d.Skip? {
      outcome := Skipped;
    } else if d.NotData? {
      outcome := Ignored;
    } else if d.Crash? {
      outcome := Crashed;
    } else if !d.MoveTo? {
      outcome := Failed;
    } else {
      ghost var k;
      outcome, k := MoveToUser(fs, src, root, d.user, fault);
    }
  }

  /** The move of a loaded file into the directory of user, under the first
      free name. */
  method MoveToUser(fs: FileSystem, src: Entry, root: Path, user: string, fault: MoveFault)
    returns (outcome: FileOutcome, ghost k: nat)
    requires src in fs.files
    modifies fs
    ensures outcome.Moved? || outcome.MoveFailed?
    ensures outcome.Moved? <==> fault.NoFault?
    ensures outcome.dst.dir == UserDir(root, user)
    ensures ChosenIndex(NamesIn(old(fs.files), outcome.dst.dir), src.name, k)
    ensures outcome.dst.name == Candidate(src.name, k)
    ensures fs.files == AfterMove(old(fs.files), src, outcome.dst, fault)
  {
    var userDir := UserDir(root, user);
    var targetName;
    targetName, k := ChooseTarget(fs, userDir, src.name);
    var dst := Entry(userDir, targetName);
    var ok := fs.Move(src, dst, fault);
    if ok {
      outcome := Moved(dst);
    } else {
      outcome := MoveFailed(dst);
    }
  }

  /** The fault that happens when src is moved. */
  function FaultOf(faults: map<Entry, MoveFault>, src: Entry): MoveFault {
    if src in faults then faults[src] else NoFault
  }

  /** The loop over sources went from the files `before` to the files `after`
      through the intermediate files `states`, round i giving outcomes[i]. */
  ghost predicate Rounds(before: Files, sources: seq<Entry>, root: Path, faults: map<Entry, MoveFault>,
                         outcomes: seq<FileOutcome>, states: seq<Files>, after: Files)
    decreases |sources|
  {
    && |outcomes| == |sources| && |states| == |sources| + 1 && states[|sources|] == after
    && if sources == [] then before == after
       else
         var n := |sources| - 1;
         && Rounds(before, sources[..n], root, faults, outcomes[..n], states[..n + 1], states[n])
         && Round(states[n], sources[n], root, FaultOf(faults, sources[n]), outcomes[n], after)
  }

  /** One more round extends the run by one path. */
  lemma RoundsExtend(before: Files, sources: seq<Entry>, root: Path, faults: map<Entry, MoveFault>,
                     outcomes: seq<FileOutcome>, states: seq<Files>, mid: Files, src: Entry, outcome: FileOutcome, after: Files)
    requires Rounds(before, sources, root, faults, outcomes, states, mid)
    requires Round(mid, src, root, FaultOf(faults, src), outcome, after)
    ensures Rounds(before, sources + [src], root, faults, outcomes + [outcome], states + [after], after)
  {
    var n := |sources|;
    assert (sources + [src])[..n] == sources;
    assert (outcomes + [outcome])[..n] == outcomes;
    assert (states + [after])[..n + 1] == states;
  }

  /** The loop after i paths extends to i + 1 paths. */
  lemma RunStep(before: Files, sources: seq<Entry>, i: nat, root: Path, faults: map<Entry, MoveFault>,
                outcomes: seq<FileOutcome>, states: seq<Files>, mid: Files, outcome: FileOutcome, after: Files)
    requires i < |sources|
    requires Rounds(before, sources[..i], root, faults, outcomes, states, mid)
    requires Round(mid, sources[i], root, FaultOf(faults, sources[i]), outcome, after)
    ensures Rounds(before, sources[..i + 1], root, faults, outcomes + [outcome], states + [after], after)
  {
    assert sources[..i + 1] == sources[..i] + [sources[i]];
    RoundsExtend(before, sources[..i], root, faults, outcomes, states, mid, sources[i], outcome, after);
  }

  /** Only the last outcome of a run may be a crash. */
  predicate CrashLast(outcomes: seq<FileOutcome>) {
    forall j :: 0 <= j < |outcomes| - 1 ==> !outcomes[j].Crashed?
  }

  /** One more outcome after a run that did not crash keeps only the last
      outcome a crash, and adds to the counts what the outcome is. */
  lemma OutcomeStep(outcomes: seq<FileOutcome>, outcome: FileOutcome)
    requires CrashLast(outcomes) && (outcomes != [] ==> !outcomes[|outcomes| - 1].Crashed?)
    ensures CrashLast(outcomes + [outcome])
    ensures MovedCount(outcomes + [outcome]) == MovedCount(outcomes) + (if outcome.Moved? then 1 else 0)
    ensures ErrorCount(outcomes + [outcome]) == ErrorCount(outcomes) + (if IsError(outcome) then 1 else 0)
  {
    var next := outcomes + [outcome];
    assert next[..|outcomes|] == outcomes;
    assert forall j :: 0 <= j < |outcomes| ==> next[j] == outcomes[j];
  }

  /** A run whose last outcome is no crash has no crash at all. */
  lemma NoCrash(outcomes: seq<FileOutcome>)
    requires CrashLast(outcomes) && (outcomes == [] || !outcomes[|outcomes| - 1].Crashed?)
    ensures forall i :: 0 <= i < |outcomes| ==> !outcomes[i].Crashed?
  {
  }

  /** A run starts from the files `before`. */
  lemma {:induction false} RoundsStart(before: Files, sources: seq<Entry>, root: Path, faults: map<Entry, MoveFault>,
                                       outcomes: seq<FileOutcome>, states: seq<Files>, after: Files)
    requires Rounds(before, sources, root, faults, outcomes, states, after)
    ensures states[0] == before
    decreases |sources|
  {
    if sources != [] {
      var n := |sources| - 1;
      RoundsStart(before, sources[..n], root, faults, outcomes[..n], states[..n + 1], states[n]);
    }
  }

  /** In every round, exactly the ineligible paths are skipped or ignored. */
  lemma {:induction false} RoundsEligible(before: Files, sources: seq<Entry>, root: Path, faults: map<Entry, MoveFault>,
                                          outcomes: seq<FileOutcome>, states: seq<Files>, after: Files)
    requires Rounds(before, sources, root, faults, outcomes, states, after)
    ensures forall i :: 0 <= i < |sources| ==> (Counted(outcomes[i]) <==> IsEligible(sources[i].name))
    decreases |sources|
  {
    if sources != [] {
      var n := |sources| - 1;
      RoundsEligible(before, sources[..n], root, faults, outcomes[..n], states[..n + 1], states[n]);
      RoundEligible(states[n], sources[n], root, FaultOf(faults, sources[n]), outcomes[n], after);
      assert forall i :: 0 <= i < n ==> sources[..n][i] == sources[i] && outcomes[..n][i] == outcomes[i];
    }
  }

  /** A run touches no file outside its paths, and every file it creates
      lies in a user directory. */
  lemma {:induction false} RoundsFiles(before: Files, sources: seq<Entry>, root: Path, faults: map<Entry, MoveFault>,
                                       outcomes: seq<FileOutcome>, states: seq<Files>, after: Files)
    requires Rounds(before, sources, root, faults, outcomes, states, after)
    ensures forall e :: e in before && e !in sources ==> e in after && after[e] == before[e]
    ensures forall e :: e in after && e !in before ==> InUserDir(root, e.dir)
    decreases |sources|
  {
    if sources != [] {
      var n := |sources| - 1;
      var mid := states[n];
      RoundsFiles(before, sources[..n], root, faults, outcomes[..n], states[..n + 1], mid);
      RoundFiles(mid, sources[n], root, FaultOf(faults, sources[n]), outcomes[n], after);
      assert forall e :: e !in sources ==> e !in sources[..n] && e != sources[n];
    }
  }

  /** How many outcomes are successful moves. */
  function MovedCount(outcomes: seq<FileOutcome>): (n: nat)
    ensures n <= |outcomes|
  {
    if outcomes == [] then 0
    else MovedCount(outcomes[..|outcomes| - 1]) + (if outcomes[|outcomes| - 1].Moved? then 1 else 0)
  }

  /** How many outcomes are errors. */
  function ErrorCount(outcomes: seq<FileOutcome>): (n: nat)
    ensures n <= |outcomes|
  {
    if outcomes == [] then 0
    else ErrorCount(outcomes[..|outcomes| - 1]) + (if IsError(outcomes[|outcomes| - 1]) then 1 else 0)
  }

  /** When no path made the run raise and exactly the ineligible paths are
      skipped or ignored, every eligible path is counted once, as moved or as
      an error. */
  lemma {:induction false} CountsAdd(sources: seq<Entry>, outcomes: seq<FileOutcome>)
    requires |outcomes| == |sources|
    requires forall i :: 0 <= i < |sources| ==> !outcomes[i].Crashed?
    requires forall i :: 0 <= i < |sources| ==> (Counted(outcomes[i]) <==> IsEligible(sources[i].name))
    ensures MovedCount(outcomes) + ErrorCount(outcomes) == CountEligible(sources)
  {
    if sources != [] {
      var n := |sources| - 1;
      assert forall i :: 0 <= i < n ==> sources[..n][i] == sources[i] && outcomes[..n][i] == outcomes[i];
      CountsAdd(sources[..n], outcomes[..n]);
    }
  }

  /** No error was counted exactly when no outcome is an error. */
  lemma {:induction false} ErrorCountZero(outcomes: seq<FileOutcome>)
    ensures ErrorCount(outcomes) == 0 <==> forall i :: 0 <= i < |outcomes| ==> !IsError(outcomes[i])
  {
    if outcomes != [] {
      var n := |outcomes| - 1;
      ErrorCountZero(outcomes[..n]);
      assert forall i :: 0 <= i < n ==> outcomes[..n][i] == outcomes[i];
    }
  }

  /** A run that stops early only on a crash has an error or ends in a crash
      exactly when it did not reach all n paths or some counted outcome is
      not a move. */
  lemma ExitStatus(n: nat, outcomes: seq<FileOutcome>)
    requires |outcomes| <= n && CrashLast(outcomes)
    requires (outcomes == [] || !outcomes[|outcomes| - 1].Crashed?) ==> |outcomes| == n
    ensures (ErrorCount(outcomes) > 0 || (outcomes != [] && outcomes[|outcomes| - 1].Crashed?))
      <==> !(|outcomes| == n && forall i :: 0 <= i < |outcomes| && Counted(outcomes[i]) ==> outcomes[i].Moved?)
  {
    ErrorCountZero(outcomes);
    if outcomes != [] && outcomes[|outcomes| - 1].Crashed? {
      var last := |outcomes| - 1;
      assert Counted(outcomes[last]) && !outcomes[last].Moved?;
    } else if ErrorCount(outcomes) > 0 {
      var i :| 0 <= i < |outcomes| && IsError(outcomes[i]);
      assert Counted(outcomes[i]) && !outcomes[i].Moved?;
    }
  }

  /** When exactly the eligible paths are counted, every eligible path was
      moved exactly when every counted outcome is a move. */
  lemma EligibleMoved(sources: seq<Entry>, outcomes: seq<FileOutcome>)
    requires |outcomes| == |sources|
    requires forall i :: 0 <= i < |outcomes| ==> (Counted(outcomes[i]) <==> IsEligible(sources[i].name))
    ensures (forall i :: 0 <= i < |sources| && IsEligible(sources[i].name) ==> outcomes[i].Moved?)
      <==> (forall i :: 0 <= i < |outcomes| && Counted(outcomes[i]) ==> outcomes[i].Moved?)
  {
  }

  /** What a run over the first n paths promises about all the paths: which
      outcomes are counted, which files it leaves alone or creates, and, when
      it reached every path without raising, how many it counted. */
  lemma RunFacts(before: Files, sources: seq<Entry>, n: nat, root: Path, faults: map<Entry, MoveFault>,
                 outcomes: seq<FileOutcome>, states: seq<Files>, after: Files)
    requires n <= |sources|
    requires Rounds(before, sources[..n], root, faults, outcomes, states, after)
    ensures forall i :: 0 <= i < n ==> (Counted(outcomes[i]) <==> IsEligible(sources[i].name))
    ensures forall e :: e in before && e !in sources ==> e in after && after[e] == before[e]
    ensures forall e :: e in after && e !in before ==> InUserDir(root, e.dir)
    ensures n == |sources| && CrashLast(outcomes) && (outcomes == [] || !outcomes[|outcomes| - 1].Crashed?) ==>
      MovedCount(outcomes) + ErrorCount(outcomes) == CountEligible(sources)
  {
    var done := sources[..n];
    RoundsEligible(before, done, root, faults, outcomes, states, after);
    RoundsFiles(before, done, root, faults, outcomes, states, after);
    assert forall e :: e in done ==> e in sources;
    assert forall j :: 0 <= j < n ==> done[j] == sources[j];
    if n == |sources| && CrashLast(outcomes) && (outcomes == [] || !outcomes[|outcomes| - 1].Crashed?) {
      NoCrash(outcomes);
      assert done == sources;
      CountsAdd(sources, outcomes);
    }
  }

  /** `organize_files`: every path found under the source directory, in the
      order given, with the move faults that happen, until a document makes
      it raise; returns how many files were moved and how many errors there
      were, or that it raised. */
  method OrganizeFiles(fs: FileSystem, sources: seq<Entry>, root: Path, faults: map<Entry, MoveFault>)
    returns (processed: nat, errors: nat, crashed: bool, ghost outcomes: seq<FileOutcome>, ghost states: seq<Files>)
    modifies fs
    ensures |outcomes| <= |sources|
    ensures Rounds(old(fs.files), sources[..|outcomes|], root, faults, outcomes, states, fs.files)
    ensures crashed <==> outcomes != [] && outcomes[|outcomes| - 1].Crashed?
    ensures !crashed ==> |outcomes| == |sources|
    ensures CrashLast(outcomes)
    ensures processed == MovedCount(outcomes) && errors == ErrorCount(outcomes)
    ensures forall i :: 0 <= i < |outcomes| ==> (Counted(outcomes[i]) <==> IsEligible(sources[i].name))
    ensures !crashed ==> processed + errors == CountEligible(sources)
    ensures forall e :: e in old(fs.files) && e !in sources ==> e in fs.files && fs.files[e] == old(fs.files)[e]
    ensures forall e :: e in fs.files && e !in old(fs.files) ==> InUserDir(root, e.dir)
  {
    processed, errors, crashed, outcomes, states := ProcessAll(fs, sources, root, faults);
    RunFacts(old(fs.files), sources, |outcomes|, root, faults, outcomes, states, fs.files);
  }

  /** The round of the loop for the i-th path, which extends the run over
      the paths before it by that path. */
  method ProcessNext(fs: FileSystem, ghost start: Files, sources: seq<Entry>, i: nat, root: Path, faults: map<Entry, MoveFault>,
                     ghost outcomes: seq<FileOutcome>, ghost states: seq<Files>)
    returns (outcome: FileOutcome)
    requires i < |sources|
    requires Rounds(start, sources[..i], root, faults, outcomes, states, fs.files)
    modifies fs
    ensures Rounds(start, sources[..i + 1], root, faults, outcomes + [outcome], states + [fs.files], fs.files)
  {
    ghost var before := fs.files;
    outcome := ProcessFile(fs, sources[i], root, FaultOf(faults, sources[i]));
    RunStep(start, sources, i, root, faults, outcomes, states, before, outcome, fs.files);
  }

  /** The loop of `organize_files` with its two counters: one round per path
      until a round raises. */
  method ProcessAll(fs: FileSystem, sources: seq<Entry>, root: Path, faults: map<Entry, MoveFault>)
    returns (processed: nat, errors: nat, crashed: bool, ghost outcomes: seq<FileOutcome>, ghost states: seq<Files>)
    modifies fs
    ensures |outcomes| <= |sources|
    ensures Rounds(old(fs.files), sources[..|outcomes|], root, faults, outcomes, states, fs.files)
    ensures crashed <==> outcomes != [] && outcomes[|outcomes| - 1].Crashed?
    ensures !crashed ==> |outcomes| == |sources|
    ensures CrashLast(outcomes)
    ensures processed == MovedCount(outcomes) && errors == ErrorCount(outcomes)
  {
    processed, errors, crashed := 0, 0, false;
    outcomes, states := [], [fs.files];
    var i := 0;
    while i < |sources| && !crashed
      invariant i <= |sources| && |outcomes| == i
      invariant Rounds(old(fs.files), sources[..i], root, faults, outcomes, states, fs.files)
      invariant processed == MovedCount(outcomes) && errors == ErrorCount(outcomes)
      invariant crashed <==> outcomes != [] && outcomes[i - 1].Crashed?
      invariant CrashLast(outcomes)
    {
      var outcome := ProcessNext(fs, old(fs.files), sources, i, root, faults, outcomes, states);
      OutcomeStep(outcomes, outcome);
      ghost var next := outcomes + [outcome];
      if outcome.Moved? {
        processed := processed + 1;
      } else if IsError(outcome) {
        errors := errors + 1;
      } else if outcome.Crashed? {
        crashed := true;
      }
      outcomes := next;
      states := states + [fs.files];
      i := i + 1;
    }
  }

  /** `main`: too few arguments or a missing source directory give status 1
      without touching the disk; otherwise the files are organized, and the
      status is 1 exactly when some error was counted or a document made the
      run raise, that is, exactly when some eligible file was not moved. */
  method RunOrganizer(fs: FileSystem, args: seq<string>, sourceExists: bool, sources: seq<Entry>,
                      faults: map<Entry, MoveFault>)
    returns (code: int, ghost outcomes: seq<FileOutcome>, ghost states: seq<Files>)
    modifies fs
    ensures code == 0 || code == 1
    ensures |args| < 3 || !sourceExists ==> code == 1 && fs.files == old(fs.files)
    ensures |args| >= 3 && sourceExists ==>
      && |outcomes| <= |sources|
      && Rounds(old(fs.files), sources[..|outcomes|], ParsePath(args[2]), faults, outcomes, states, fs.files)
      && (code == 1 <==> ErrorCount(outcomes) > 0 || (outcomes != [] && outcomes[|outcomes| - 1].Crashed?))
      && (code == 0 <==> |outcomes| == |sources| && forall i :: 0 <= i < |sources| && IsEligible(sources[i].name) ==> outcomes[i].Moved?)
  {
    outcomes, states := [], [];
    if |args| < 3 {
      return 1, outcomes, states;
    }
    if !sourceExists {
      return 1, outcomes, states;
    }
    var processed, errors, crashed;
    processed, errors, crashed, outcomes, states := OrganizeFiles(fs, sources, ParsePath(args[2]), faults);
    code := if crashed || errors > 0 then 1 else 0;
    ExitStatus(|sources|, outcomes);
    if |outcomes| == |sources| {
      EligibleMoved(sources, outcomes);
    }
  }
}
