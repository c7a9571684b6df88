/** Installing an update on Windows (internal/selfupdate/update.go, internal/runner/runner_windows.go): the
    node stages a binary and then its manifest; the runner later verifies and swaps. Each step is one
    file operation, any of them may fail, and everything may stop between any two. */
module UpdateSpec {
  import opened Common
  import opened Manifests

  /** The installed binary, its `.old`, the staged binary and the staged manifest. */
  datatype Disk = Disk(bin: Option<Bytes>, backup: Option<Bytes>, staged: Option<Bytes>, note: Option<Note>)

  // ---------- the steps ----------

  /** Where the runner, or the node that it runs, is. `Swap` and later follow a successful check. */
  datatype Pc =
    | Idle | Running
    // applyStaged
    | ReadNote | StatStaged(want: string) | Check(want: string)
    | DropNote | DropStaged
    | MakeBin | DropOldBackup | KeepBackup | Swap | Restore | DropBackup | DropUsedNote
    // stageWindows
    | ClearNote(m: Manifest) | ClearStaged(m: Manifest) | Fetch(m: Manifest)
    | Stage(m: Manifest, data: Bytes) | WriteNote(m: Manifest)

  predicate Staging(pc: Pc) { pc.ClearNote? || pc.ClearStaged? || pc.Fetch? || pc.Stage? || pc.WriteNote? }

  /** `proposed`: every manifest that was ever to be installed here. */
  datatype Sys = Sys(disk: Disk, pc: Pc, proposed: set<Note>)

  predicate NoteRemoved(s: Sys, s': Sys) {
    Removed(s.disk.note, s'.disk.note) && s' == s.(disk := s.disk.(note := s'.disk.note), pc := s'.pc)
  }

  predicate StagedRemoved(s: Sys, s': Sys) {
    Removed(s.disk.staged, s'.disk.staged) && s' == s.(disk := s.disk.(staged := s'.disk.staged), pc := s'.pc)
  }

  predicate BackupRemoved(s: Sys, s': Sys) {
    Removed(s.disk.backup, s'.disk.backup) && s' == s.(disk := s.disk.(backup := s'.disk.backup), pc := s'.pc)
  }

  /** An `os.Rename` of `from` to `to` that succeeded. One that fails changes nothing. */
  predicate Renamed(from: Option<Bytes>, to: Option<Bytes>, from': Option<Bytes>, to': Option<Bytes>) {
    from.Some? && to' == from && from' == None
  }

  /** Nothing but the binary and its backup has changed. */
  predicate Moved(s: Sys, s': Sys) {
    s' == s.(disk := s.disk.(bin := s'.disk.bin, backup := s'.disk.backup), pc := s'.pc)
  }

  ghost predicate Next(digest: Digest, s: Sys, s': Sys) {
    || s' == s.(pc := Idle)                        // the end of applyStaged, a crash, or the death of the node
    || (Staging(s.pc) && s' == s.(pc := Running))  // stageWindows returned an error
    || match s.pc
       case Idle =>
         || s' == s.(pc := ReadNote)
         || (s.disk.bin.Some? && s' == s.(pc := Running))
       case Running =>
         && s'.pc.ClearNote? && ValidManifest(s'.pc.m)
         && s' == s.(pc := ClearNote(s'.pc.m), proposed := s.proposed + {Written(s'.pc.m)})
       // applyStaged
       case ReadNote =>
         && s.disk.note.Some?
         && s' == s.(pc := if Readable(s.disk.note.value) then StatStaged(s.disk.note.value.sha256) else DropNote)
       case StatStaged(want) => s' == s.(pc := if s.disk.staged.Some? then Check(want) else DropNote)
       case Check(want) =>
         && s.disk.staged.Some?
         && s' == s.(pc := if Matches(digest, s.disk.staged.value, want) then MakeBin else DropNote)
       case DropNote => NoteRemoved(s, s') && s'.pc == DropStaged
       case DropStaged => StagedRemoved(s, s') && s'.pc == Idle
       case MakeBin => s' == s.(pc := DropOldBackup)
       case DropOldBackup => BackupRemoved(s, s') && s'.pc == (if s.disk.bin.Some? then KeepBackup else Swap)
       case KeepBackup =>
         s'.pc == Swap && Renamed(s.disk.bin, s.disk.backup, s'.disk.bin, s'.disk.backup) && Moved(s, s')
       case Swap =>
         || s' == s.(pc := Restore)
         || (s'.pc == DropBackup && Renamed(s.disk.staged, s.disk.bin, s'.disk.staged, s'.disk.bin)
             && s' == s.(disk := s.disk.(staged := s'.disk.staged, bin := s'.disk.bin), pc := s'.pc))
       case Restore =>
         s'.pc == Idle && Renamed(s.disk.backup, s.disk.bin, s'.disk.backup, s'.disk.bin) && Moved(s, s')
       case DropBackup => BackupRemoved(s, s') && s'.pc == DropUsedNote
       case DropUsedNote => NoteRemoved(s, s') && s'.pc == Idle
       // stageWindows
       case ClearNote(m) => NoteRemoved(s, s') && s'.pc == ClearStaged(m)
       case ClearStaged(m) => StagedRemoved(s, s') && s'.pc == Fetch(m)
       case Fetch(m) => s'.pc.Stage? && s' == s.(pc := Stage(m, s'.pc.data)) && Downloaded(digest, m, s'.pc.data)
       case Stage(m, data) => s' == s.(disk := s.disk.(staged := Some(data)), pc := WriteNote(m))
       case WriteNote(m) => s' == s.(disk := s.disk.(note := Some(Written(m))), pc := Running)
  }

  // ---------- what every step keeps ----------

  /** The binary the node was installed with, or bytes that match a manifest sent for this node. */
  ghost predicate Trusted(digest: Digest, original: Bytes, proposed: set<Note>, data: Bytes) {
    data == original || exists n :: n in proposed && n.Note? && Matches(digest, data, n.sha256)
  }

  /** A staged binary that the runner will accept. */
  predicate Recoverable(digest: Digest, d: Disk) {
    && d.note.Some? && Readable(d.note.value)
    && d.staged.Some? && Matches(digest, d.staged.value, d.note.value.sha256)
  }

  /** There is a node to run, or one to install. */
  predicate Safe(digest: Digest, d: Disk) { d.bin.Some? || Recoverable(digest, d) }

  ghost predicate Genuine(digest: Digest, original: Bytes, s: Sys) {
    && (s.disk.bin.Some? ==> Trusted(digest, original, s.proposed, s.disk.bin.value))
    && (s.disk.backup.Some? ==> Trusted(digest, original, s.proposed, s.disk.backup.value))
    && (s.disk.note.Some? ==> s.disk.note.value in s.proposed)
  }

  predicate Accepted(s: Sys, m: Manifest) { ValidManifest(m) && Written(m) in s.proposed }

  /** What the code has found out by the time it is at `pc`. */
  predicate Found(digest: Digest, s: Sys) {
    match s.pc
    case StatStaged(want) => s.disk.note.Some? && Readable(s.disk.note.value) && s.disk.note.value.sha256 == want
    case Check(want) => s.disk.note.Some? && Readable(s.disk.note.value) && s.disk.note.value.sha256 == want
    case DropNote => !Recoverable(digest, s.disk)
    case DropStaged => !Recoverable(digest, s.disk)
    case MakeBin => Recoverable(digest, s.disk)
    case DropOldBackup => Recoverable(digest, s.disk)
    case KeepBackup => Recoverable(digest, s.disk)
    case Swap => Recoverable(digest, s.disk)
    case Restore => Recoverable(digest, s.disk)
    case DropBackup => s.disk.bin.Some? && s.disk.staged == None
    case DropUsedNote => s.disk.bin.Some? && s.disk.staged == None
    case Idle => true
    case ReadNote => true
    case Running => s.disk.bin.Some?
    case ClearNote(m) => s.disk.bin.Some? && Accepted(s, m)
    case ClearStaged(m) => s.disk.bin.Some? && Accepted(s, m)
    case Fetch(m) => s.disk.bin.Some? && Accepted(s, m)
    case Stage(m, data) => s.disk.bin.Some? && Accepted(s, m) && Matches(digest, data, m.sha256)
    case WriteNote(m) =>
      s.disk.bin.Some? && Accepted(s, m) && s.disk.staged.Some? && Matches(digest, s.disk.staged.value, m.sha256)
  }

  ghost predicate SysInv(digest: Digest, original: Bytes, s: Sys) {
    && Safe(digest, s.disk) && Genuine(digest, original, s) && Found(digest, s)
  }

  predicate Applying(pc: Pc) { !Staging(pc) && !pc.Idle? && !pc.Running? }

  lemma ApplyKeepsSafe(digest: Digest, s: Sys, s': Sys)
    requires Safe(digest, s.disk) && Found(digest, s) && Next(digest, s, s') && Applying(s.pc)
    ensures Safe(digest, s'.disk) && Found(digest, s')
  {
    hide Matches, Readable;
  }

  lemma ApplyKeepsGenuine(digest: Digest, original: Bytes, s: Sys, s': Sys)
    requires Genuine(digest, original, s) && Found(digest, s) && Next(digest, s, s') && Applying(s.pc)
    ensures Genuine(digest, original, s')
  {
    hide Trusted, Matches, Readable;
    if s.pc.Swap? { SwapIsTrusted(digest, original, s); }
  }

  /** What is swapped in was checked against the manifest that lies beside it. */
  lemma SwapIsTrusted(digest: Digest, original: Bytes, s: Sys)
    requires Genuine(digest, original, s) && Found(digest, s) && s.pc.Swap?
    ensures s.disk.staged.Some? && Trusted(digest, original, s.proposed, s.disk.staged.value)
  {
    assert s.disk.note.value in s.proposed;
  }

  lemma StageKeepsSafe(digest: Digest, s: Sys, s': Sys)
    requires Safe(digest, s.disk) && Found(digest, s) && Next(digest, s, s') && Staging(s.pc)
    ensures Safe(digest, s'.disk) && Found(digest, s')
  {
    hide Matches, Readable, ValidManifest;
  }

  lemma StageKeepsGenuine(digest: Digest, original: Bytes, s: Sys, s': Sys)
    requires Genuine(digest, original, s) && Found(digest, s) && Next(digest, s, s') && Staging(s.pc)
    ensures Genuine(digest, original, s')
  {
    hide Trusted, Matches, Readable, ValidManifest;
  }

  lemma TrustGrows(digest: Digest, original: Bytes, a: set<Note>, b: set<Note>, x: Option<Bytes>)
    requires a <= b && (x.Some? ==> Trusted(digest, original, a, x.value))
    ensures x.Some? ==> Trusted(digest, original, b, x.value)
  {}

  lemma StepKeeps(digest: Digest, original: Bytes, s: Sys, s': Sys)
    requires SysInv(digest, original, s) && Next(digest, s, s')
    ensures SysInv(digest, original, s')
  {
    hide Matches, Readable, Trusted, ValidManifest;
    if Applying(s.pc) {
      ApplyKeepsSafe(digest, s, s');
      ApplyKeepsGenuine(digest, original, s, s');
    } else if Staging(s.pc) {
      StageKeepsSafe(digest, s, s');
      StageKeepsGenuine(digest, original, s, s');
    } else {
      TrustGrows(digest, original, s.proposed, s'.proposed, s.disk.bin);
      TrustGrows(digest, original, s.proposed, s'.proposed, s.disk.backup);
    }
  }

  // ---------- runs ----------

  /** The node was installed as `original`; leftovers of an earlier installation may lie in staging. */
  ghost predicate Run(digest: Digest, original: Bytes, ss: seq<Sys>) {
    && ss != []
    && ss[0].disk.bin == Some(original) && ss[0].disk.backup == None && ss[0].pc == Idle
    && (ss[0].disk.note.Some? ==> ss[0].disk.note.value in ss[0].proposed)
    && forall k | 0 <= k < |ss| - 1 :: Next(digest, ss[k], ss[k + 1])
  }

  lemma {:induction false} RunKeeps(digest: Digest, original: Bytes, ss: seq<Sys>, k: nat)
    requires Run(digest, original, ss) && k < |ss|
    ensures SysInv(digest, original, ss[k])
  {
    if k > 0 {
      RunKeeps(digest, original, ss, k - 1);
      StepKeeps(digest, original, ss[k - 1], ss[k]);
    }
  }

  /** Wherever a run stops: the binary, if present, is the original or matches a manifest sent for this
      node, and if it is missing a staged binary and a readable manifest that it matches are there. */
  lemma RunIsSafe(digest: Digest, original: Bytes, ss: seq<Sys>, k: nat)
    requires Run(digest, original, ss) && k < |ss|
    ensures Hex(digest) && ss[k].disk.bin.Some? ==>
              var bin := ss[k].disk.bin.value;
              || bin == original
              || exists note :: note in ss[k].proposed && note.Note? && Spells(note.sha256, digest(bin))
    ensures Hex(digest) && ss[k].disk.bin.None? ==>
              var d := ss[k].disk;
              && d.note.Some? && Readable(d.note.value) && d.staged.Some?
              && Spells(d.note.value.sha256, digest(d.staged.value))
    ensures ss[k].disk.bin.Some? ==> Trusted(digest, original, ss[k].proposed, ss[k].disk.bin.value)
    ensures ss[k].disk.bin.None? ==> Recoverable(digest, ss[k].disk)
  {
    RunKeeps(digest, original, ss, k);
    hide Matches, Spells, Next, Hex;
    var d := ss[k].disk;
    if Hex(digest) && d.bin.Some? && d.bin.value != original {
      var note :| note in ss[k].proposed && note.Note? && Matches(digest, d.bin.value, note.sha256);
      MatchesExactly(digest, d.bin.value, note.sha256);
    }
    if Hex(digest) && d.bin.None? { MatchesExactly(digest, d.staged.value, d.note.value.sha256); }
  }

  // ---------- a staged update is not lost ----------

  /** `data` waits in staging, ready to be installed, or it is the installed binary. */
  predicate Held(digest: Digest, s: Sys, data: Bytes) {
    || (Recoverable(digest, s.disk) && s.disk.staged == Some(data))
    || (s.disk.bin == Some(data) && s.disk.staged == None)
  }

  lemma ApplyHolds(digest: Digest, s: Sys, s': Sys, data: Bytes)
    requires Found(digest, s) && Next(digest, s, s') && Held(digest, s, data) && Applying(s.pc)
    ensures Held(digest, s', data)
  {
    hide Matches, Readable;
  }

  lemma StepHolds(digest: Digest, original: Bytes, s: Sys, s': Sys, data: Bytes)
    requires SysInv(digest, original, s) && Next(digest, s, s') && Held(digest, s, data) && !Staging(s.pc)
    ensures Held(digest, s', data)
  {
    if Applying(s.pc) {
      hide Next, Held, Found;
      ApplyHolds(digest, s, s', data);
    } else {
      hide Matches, Readable, Found, ValidManifest;
    }
  }

  lemma WrittenIsHeld(digest: Digest, original: Bytes, s: Sys, s': Sys)
    requires SysInv(digest, original, s) && Next(digest, s, s') && s.pc.WriteNote?
    requires s'.pc == Running && s'.disk.note == Some(Written(s.pc.m))
    ensures s.disk.staged.Some? && Held(digest, s', s.disk.staged.value)
  {
    hide Matches, Genuine, ValidManifest, Readable, Safe;
    ValidIsReadable(s.pc.m);
  }

  /** Once the manifest is written the update stays staged or becomes the installed binary, through every
      failure and every crash, until the node begins to stage another one. */
  lemma {:induction false} UpdateIsNotLost(digest: Digest, original: Bytes, ss: seq<Sys>, i: nat, k: nat)
    requires Run(digest, original, ss) && i < k < |ss|
    requires ss[i].pc.WriteNote? && ss[i + 1].pc == Running && ss[i + 1].disk.note == Some(Written(ss[i].pc.m))
    requires forall j | i < j < k :: !Staging(ss[j].pc)
    ensures ss[i].disk.staged.Some? && Held(digest, ss[k], ss[i].disk.staged.value)
  {
    hide Next, SysInv, Held, Staging, Written;
    RunKeeps(digest, original, ss, k - 1);
    assert Next(digest, ss[k - 1], ss[k]);
    hide Run;
    if k == i + 1 {
      WrittenIsHeld(digest, original, ss[i], ss[k]);
    } else {
      UpdateIsNotLost(digest, original, ss, i, k - 1);
      StepHolds(digest, original, ss[k - 1], ss[k], ss[i].disk.staged.value);
    }
  }

  // ---------- applyStaged without failures ----------

  /** What `applyStaged` leaves when every file operation succeeds. */
  function Installed(digest: Digest, d: Disk): Disk {
    if d.note.None? then d
    else if Recoverable(digest, d) then Disk(d.staged, None, None, None)
    else d.(note := None, staged := None)
  }

  /** The step that `applyStaged` takes next when no operation fails. */
  function Undisturbed(digest: Digest, s: Sys): (s': Sys)
    ensures Applying(s.pc) ==> Rank(s'.pc) < Rank(s.pc)
  {
    match s.pc
    case ReadNote =>
      s.(pc := if s.disk.note.None? then Idle
               else if Readable(s.disk.note.value) then StatStaged(s.disk.note.value.sha256) else DropNote)
    case StatStaged(want) => s.(pc := if s.disk.staged.Some? then Check(want) else DropNote)
    case Check(want) =>
      s.(pc := if s.disk.staged.None? then Idle
               else if Matches(digest, s.disk.staged.value, want) then MakeBin else DropNote)
    case DropNote => s.(disk := s.disk.(note := None), pc := DropStaged)
    case DropStaged => s.(disk := s.disk.(staged := None), pc := Idle)
    case MakeBin => s.(pc := DropOldBackup)
    case DropOldBackup => s.(disk := s.disk.(backup := None), pc := if s.disk.bin.Some? then KeepBackup else Swap)
    case KeepBackup =>
      if s.disk.bin.Some? then s.(disk := s.disk.(bin := None, backup := s.disk.bin), pc := Swap) else s.(pc := Idle)
    case Swap =>
      if s.disk.staged.Some? then s.(disk := s.disk.(staged := None, bin := s.disk.staged), pc := DropBackup)
      else s.(pc := Restore)
    case DropBackup => s.(disk := s.disk.(backup := None), pc := DropUsedNote)
    case DropUsedNote => s.(disk := s.disk.(note := None), pc := Idle)
    case _ => s.(pc := Idle)
  }

  /** How many steps `applyStaged` has left at most. */
  function Rank(pc: Pc): nat {
    match pc
    case ReadNote => 9
    case StatStaged(_) => 8
    case Check(_) => 7
    case MakeBin => 6
    case DropOldBackup => 5
    case KeepBackup => 4
    case Swap => 3
    case DropNote => 2
    case DropBackup => 2
    case DropStaged => 1
    case DropUsedNote => 1
    case Restore => 1
    case _ => 0
  }

  lemma UndisturbedIsNext(digest: Digest, s: Sys)
    requires Applying(s.pc)
    ensures Next(digest, s, Undisturbed(digest, s))
  {
    hide Matches, Readable;
  }

  /** Where the steps of an undisturbed `applyStaged` lead, one after the other. */
  function Steps(digest: Digest, s: Sys): (path: seq<Sys>)
    ensures path != [] && path[0] == s
    ensures forall k | 0 <= k < |path| - 1 :: Applying(path[k].pc) && path[k + 1] == Undisturbed(digest, path[k])
    ensures !Applying(path[|path| - 1].pc)
    decreases Rank(s.pc)
  {
    if Applying(s.pc) then [s] + Steps(digest, Undisturbed(digest, s)) else [s]
  }

  function Last(digest: Digest, s: Sys): Sys {
    var path := Steps(digest, s);
    path[|path| - 1]
  }

  lemma LastStep(digest: Digest, s: Sys)
    ensures Last(digest, s) == if Applying(s.pc) then Last(digest, Undisturbed(digest, s)) else s
  {
    if Applying(s.pc) {
      var rest := Steps(digest, Undisturbed(digest, s));
      assert Steps(digest, s) == [s] + rest;
      assert ([s] + rest)[|rest|] == rest[|rest| - 1];
    }
  }

  lemma CleanupEnds(digest: Digest, s: Sys)
    requires s.pc.DropNote?
    ensures Last(digest, s) == s.(disk := s.disk.(note := None, staged := None), pc := Idle)
  {
    hide Steps, Last, Matches, Readable;
    LastStep(digest, s);
    LastStep(digest, Undisturbed(digest, s));
    LastStep(digest, Undisturbed(digest, Undisturbed(digest, s)));
  }

  lemma SwapEnds(digest: Digest, s: Sys)
    requires s.pc.Swap? && s.disk.staged.Some?
    ensures Last(digest, s) == s.(disk := Disk(s.disk.staged, None, None, None), pc := Idle)
  {
    hide Steps, Last, Matches, Readable;
    LastStep(digest, s);
    var s1 := Undisturbed(digest, s);
    LastStep(digest, s1);
    LastStep(digest, Undisturbed(digest, s1));
    LastStep(digest, Undisturbed(digest, Undisturbed(digest, s1)));
  }

  lemma InstallEnds(digest: Digest, s: Sys)
    requires s.pc.MakeBin? && s.disk.staged.Some?
    ensures Last(digest, s) == s.(disk := Disk(s.disk.staged, None, None, None), pc := Idle)
  {
    hide Steps, Last, Matches, Readable;
    LastStep(digest, s);
    var s1 := Undisturbed(digest, s);
    LastStep(digest, s1);
    var s2 := Undisturbed(digest, s1);
    if s2.pc.Swap? {
      SwapEnds(digest, s2);
    } else {
      LastStep(digest, s2);
      SwapEnds(digest, Undisturbed(digest, s2));
    }
  }

  /** The steps of an undisturbed `applyStaged` end with what `Installed` says. */
  lemma ApplyEnds(digest: Digest, s: Sys)
    requires s.pc.ReadNote?
    ensures Last(digest, s) == s.(disk := Installed(digest, s.disk), pc := Idle)
  {
    hide Steps, Last, Matches, Readable;
    LastStep(digest, s);
    var s1 := Undisturbed(digest, s);
    LastStep(digest, s1);
    if s1.pc.DropNote? {
      CleanupEnds(digest, s1);
    } else if s1.pc.StatStaged? {
      var s2 := Undisturbed(digest, s1);
      LastStep(digest, s2);
      if s2.pc.DropNote? {
        CleanupEnds(digest, s2);
      } else {
        var s3 := Undisturbed(digest, s2);
        if s3.pc.DropNote? { CleanupEnds(digest, s3); } else { InstallEnds(digest, s3); }
      }
    }
  }

  lemma {:induction false} StepsExtend(digest: Digest, original: Bytes, ss: seq<Sys>, path: seq<Sys>)
    requires Run(digest, original, ss) && path != [] && Next(digest, ss[|ss| - 1], path[0])
    requires forall k | 0 <= k < |path| - 1 :: Next(digest, path[k], path[k + 1])
    ensures Run(digest, original, ss + path)
  {
    hide Next;
    var all := ss + path;
    forall k | 0 <= k < |all| - 1 ensures Next(digest, all[k], all[k + 1]) {
      if k < |ss| - 1 {
        assert all[k] == ss[k] && all[k + 1] == ss[k + 1];
      } else if k == |ss| - 1 {
        assert all[k] == ss[|ss| - 1] && all[k + 1] == path[0];
      } else {
        assert all[k] == path[k - |ss|] && all[k + 1] == path[k - |ss| + 1];
      }
    }
  }

  /** After every run, however it was disturbed, the steps of one undisturbed `applyStaged` continue it and
      end with a node to run, which can be trusted; an update that was held is installed. */
  lemma ApplyRestores(digest: Digest, original: Bytes, ss: seq<Sys>) returns (path: seq<Sys>)
    requires Run(digest, original, ss) && ss[|ss| - 1].pc == Idle
    ensures path != [] && path[0] == ss[|ss| - 1].(pc := ReadNote)
    ensures forall k | 0 <= k < |path| - 1 :: path[k + 1] == Undisturbed(digest, path[k])
    ensures Run(digest, original, ss + path)
    ensures var s, s' := ss[|ss| - 1], path[|path| - 1];
            && s'.pc == Idle && s'.disk == Installed(digest, s.disk) && s'.disk.bin.Some?
            && Trusted(digest, original, s'.proposed, s'.disk.bin.value)
            && forall data | Held(digest, s, data) :: s'.disk.bin == Some(data)
  {
    var s := ss[|ss| - 1];
    path := Steps(digest, s.(pc := ReadNote));
    ApplyEnds(digest, s.(pc := ReadNote));
    forall k | 0 <= k < |path| - 1 ensures Next(digest, path[k], path[k + 1]) { UndisturbedIsNext(digest, path[k]); }
    StepsExtend(digest, original, ss, path);
    RunIsSafe(digest, original, ss, |ss| - 1);
    RunIsSafe(digest, original, ss + path, |ss + path| - 1);
    assert (ss + path)[|ss + path| - 1] == path[|path| - 1];
  }
}
