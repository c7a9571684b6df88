/** The file operations of `stageWindows` and `applyStaged` in their order, each free to fail. The trace
    holds the disk after every one of them, so what is proved of the trace is proved of every crash. */
module UpdateFiles {
  import opened Common
  import opened Manifests
  import opened UpdateSpec

  /** `os.Rename`; `ok` says whether it works on a file that is there. */
  method Rename(from: Option<Bytes>, to: Option<Bytes>, ok: bool)
    returns (from': Option<Bytes>, to': Option<Bytes>, done: bool)
    ensures done <==> ok && from.Some?
    ensures if done then Renamed(from, to, from', to') else from' == from && to' == to
  {
    from', to', done := from, to, ok && from.Some?;
    if done { from', to' := None, from; }
  }

  /** Which file operations of one `applyStaged` work, each when it is reached. */
  datatype Luck = Luck(dropNote: bool, dropStaged: bool, mkdir: bool, dropOldBackup: bool, keepBackup: bool,
                       swap: bool, restore: bool, dropBackup: bool, dropUsedNote: bool)

  /** No operation fails. */
  predicate Calm(l: Luck) {
    l.dropNote && l.dropStaged && l.mkdir && l.dropOldBackup && l.keepBackup && l.swap && l.restore && l.dropBackup
    && l.dropUsedNote
  }

  /** Which file operations of one `stageWindows` work. */
  datatype StageLuck = StageLuck(mkdir: bool, dropNote: bool, dropStaged: bool, rename: bool, write: bool)

  const POWERS: seq<nat> := [1, 2, 4, 8, 16]

  /** An update that the node is told to install, and what becomes of its download and its files. */
  datatype Offer = Offer(m: Manifest, body: Option<Bytes>, luck: StageLuck)

  /** One turn of the runner's loop: the installation, the updates offered to the node while it runs, and
      whether the service is stopped before the next turn. */
  datatype Round = Round(luck: Luck, offers: seq<Offer>, stopped: bool)

  // ---------- what the operations leave on the disk ----------

  function Cleaned(d: Disk, l: Luck): Disk {
    d.(note := if l.dropNote then None else d.note, staged := if l.dropStaged then None else d.staged)
  }

  /** What is staged goes in: the old binary aside, the staged one in its place, or the old one back. */
  function Swapped(d: Disk, l: Luck): Disk {
    var d1 := d.(backup := if l.dropOldBackup then None else d.backup);
    if d1.bin.Some? && !l.keepBackup then d1
    else
      var d2 := if d1.bin.Some? then d1.(bin := None, backup := d1.bin) else d1;
      if l.swap && d.staged.Some? then
        Disk(d.staged, if l.dropBackup then None else d2.backup, None, if l.dropUsedNote then None else d.note)
      else if l.restore && d2.backup.Some? then d2.(bin := d2.backup, backup := None)
      else d2
  }

  /** The four ways in which the exchange of the binaries can end. */
  lemma SwappedCases(d: Disk, l: Luck)
    ensures var left := if l.dropOldBackup then None else d.backup;
            var aside := if d.bin.Some? then d.bin else left;
            && (d.bin.Some? && !l.keepBackup ==> Swapped(d, l) == Disk(d.bin, left, d.staged, d.note))
            && (d.bin.None? || l.keepBackup ==>
                  Swapped(d, l) ==
                  if l.swap && d.staged.Some?
                  then Disk(d.staged, if l.dropBackup then None else aside, None,
                            if l.dropUsedNote then None else d.note)
                  else if l.restore && aside.Some? then Disk(aside, None, d.staged, d.note)
                  else Disk(None, aside, d.staged, d.note))
  {}

  /** One `applyStaged`. */
  function Applied(digest: Digest, d: Disk, l: Luck): Disk {
    if d.note.None? then d
    else if !Recoverable(digest, d) then Cleaned(d, l)
    else if !l.mkdir then d
    else Swapped(d, l)
  }

  /** `Apply` stages this offer. */
  predicate Accepts(digest: Digest, o: Offer) {
    && ValidManifest(o.m) && o.luck.mkdir && o.body.Some? && Downloaded(digest, o.m, o.body.value)
    && o.luck.rename && o.luck.write
  }

  /** What is staged has the announced size and digest. */
  lemma AcceptsExactly(digest: Digest, o: Offer)
    requires Hex(digest)
    ensures Accepts(digest, o) <==>
              && ValidManifest(o.m) && o.luck.mkdir && o.luck.rename && o.luck.write
              && o.body.Some? && |o.body.value| == o.m.size && Spells(o.m.sha256, digest(o.body.value))
  {
    hide ValidManifest;
    if o.body.Some? { MatchesExactly(digest, o.body.value, o.m.sha256); }
  }

  /** One `Apply` on Windows. */
  function StagedTo(digest: Digest, d: Disk, o: Offer): Disk {
    if !ValidManifest(o.m) || !o.luck.mkdir then d
    else
      var d1 := d.(note := if o.luck.dropNote then None else d.note,
                   staged := if o.luck.dropStaged then None else d.staged);
      if o.body.None? || !Downloaded(digest, o.m, o.body.value) || !o.luck.rename then d1
      else d1.(staged := o.body, note := if o.luck.write then Some(Written(o.m)) else d1.note)
  }

  /** One life of the node: it ends early with the first update that it stages. */
  function Lived(digest: Digest, d: Disk, offers: seq<Offer>): Disk
    decreases |offers|
  {
    if offers == [] then d
    else if Accepts(digest, offers[0]) then StagedTo(digest, d, offers[0])
    else Lived(digest, StagedTo(digest, d, offers[0]), offers[1..])
  }

  /** One turn of the loop: an installation, and a life of the node if there is a binary to run. */
  function Turned(digest: Digest, d: Disk, round: Round): Disk {
    var d1 := Applied(digest, d, round.luck);
    if d1.bin.Some? then Lived(digest, d1, round.offers) else d1
  }

  function TurnedAll(digest: Digest, d: Disk, rounds: seq<Round>): Disk {
    if rounds == [] then d else Turned(digest, TurnedAll(digest, d, rounds[..|rounds| - 1]), rounds[|rounds| - 1])
  }

  /** Without failures an installation leaves what `Installed` says. */
  lemma CalmInstalls(digest: Digest, d: Disk, l: Luck)
    requires Calm(l)
    ensures Applied(digest, d, l) == Installed(digest, d)
    ensures Recoverable(digest, d) ==> Applied(digest, d, l) == Disk(d.staged, None, None, None)
    ensures !Recoverable(digest, d) && d.note.Some? ==> Applied(digest, d, l) == Disk(d.bin, d.backup, None, None)
    ensures d.note.None? ==> Applied(digest, d, l) == d
  {
    hide Matches, Readable;
  }

  lemma NotRecoverable(digest: Digest, d: Disk)
    requires d.note.Some? && !Readable(d.note.value)
    ensures !Recoverable(digest, d)
  {}

  lemma EndIsStep(digest: Digest, s: Sys)
    ensures Next(digest, s, s.(pc := Idle))
  {}

  lemma MkdirStep(digest: Digest, s: Sys)
    requires s.pc == MakeBin
    ensures Next(digest, s, s.(pc := DropOldBackup))
  {}

  lemma NoteStep(digest: Digest, s: Sys, s': Sys)
    requires NoteRemoved(s, s')
    requires || (s.pc == DropNote && s'.pc == DropStaged) || (s.pc == DropUsedNote && s'.pc == Idle)
             || (s.pc.ClearNote? && s'.pc == ClearStaged(s.pc.m))
    ensures Next(digest, s, s')
  {}

  lemma StagedStep(digest: Digest, s: Sys, s': Sys)
    requires StagedRemoved(s, s')
    requires (s.pc == DropStaged && s'.pc == Idle) || (s.pc.ClearStaged? && s'.pc == Fetch(s.pc.m))
    ensures Next(digest, s, s')
  {}

  lemma BackupStep(digest: Digest, s: Sys, s': Sys)
    requires BackupRemoved(s, s')
    requires || (s.pc == DropBackup && s'.pc == DropUsedNote)
             || (s.pc == DropOldBackup && s'.pc == if s.disk.bin.Some? then KeepBackup else Pc.Swap)
    ensures Next(digest, s, s')
  {}

  lemma KeepStep(digest: Digest, s: Sys, s': Sys)
    requires s.pc == KeepBackup && s'.proposed == s.proposed
    requires s'.disk.note == s.disk.note && s'.disk.staged == s.disk.staged
    requires if s'.pc == Pc.Swap then Renamed(s.disk.bin, s.disk.backup, s'.disk.bin, s'.disk.backup)
             else s'.pc == Idle && s'.disk == s.disk
    ensures Next(digest, s, s')
  {}

  lemma SwapStep(digest: Digest, s: Sys, s': Sys)
    requires s.pc == Pc.Swap && s'.proposed == s.proposed && s'.disk.note == s.disk.note
    requires s'.disk.backup == s.disk.backup
    requires if s'.pc == DropBackup then Renamed(s.disk.staged, s.disk.bin, s'.disk.staged, s'.disk.bin)
             else s'.pc == Restore && s'.disk == s.disk
    ensures Next(digest, s, s')
  {}

  lemma RestoreStep(digest: Digest, s: Sys, s': Sys)
    requires s.pc == Restore && s'.pc == Idle && s'.proposed == s.proposed
    requires s'.disk.note == s.disk.note && s'.disk.staged == s.disk.staged
    requires s'.disk == s.disk || Renamed(s.disk.backup, s.disk.bin, s'.disk.backup, s'.disk.bin)
    ensures Next(digest, s, s')
  {}

  lemma RecoverableSpells(digest: Digest, d: Disk)
    requires Hex(digest) && Recoverable(digest, d)
    ensures d.note.value.Note? && Spells(d.note.value.sha256, digest(d.staged.value))
  {
    MatchesExactly(digest, d.staged.value, d.note.value.sha256);
  }

  /** If the swap fails and the old binary can be put back, it is; the update still waits. */
  lemma FailedSwapRestores(digest: Digest, d: Disk, l: Luck)
    requires Recoverable(digest, d) && d.bin.Some? && l.mkdir && l.keepBackup && !l.swap && l.restore
    ensures var d' := Applied(digest, d, l); d'.bin == d.bin && d'.staged == d.staged && d'.note == d.note
  {
    hide Matches, Readable;
  }

  /** What cannot be installed is removed. */
  lemma BadIsRemoved(digest: Digest, d: Disk, l: Luck)
    requires d.note.Some? && !Recoverable(digest, d) && l.dropNote && l.dropStaged
    ensures Applied(digest, d, l) == d.(note := None, staged := None)
  {
    hide Matches, Readable;
  }

  /** An offer that fails takes away what was staged before, if that can be removed. */
  lemma FailedOfferClears(digest: Digest, d: Disk, o: Offer)
    requires ValidManifest(o.m) && o.luck.mkdir && o.luck.dropNote && o.luck.dropStaged
    requires o.body.None? || !Downloaded(digest, o.m, o.body.value) || !o.luck.rename
    ensures StagedTo(digest, d, o) == d.(note := None, staged := None)
  {
    hide Matches, ValidManifest;
  }

  /** A life of the node ends with the first update that it stages, whatever it would be offered then. */
  lemma {:induction false} LifeEndsAtFirst(digest: Digest, d: Disk, offers: seq<Offer>, k: nat)
    requires k < |offers| && Accepts(digest, offers[k]) && forall j | 0 <= j < k :: !Accepts(digest, offers[j])
    ensures Lived(digest, d, offers) == Lived(digest, d, offers[..k + 1])
    ensures Lived(digest, d, offers).staged == offers[k].body
    ensures Lived(digest, d, offers).note == Some(Written(offers[k].m))
    decreases k
  {
    hide Accepts, StagedTo;
    if k == 0 {
      AcceptedIsStaged(digest, d, offers[0]);
      assert offers[..1][0] == offers[0];
    } else {
      LifeEndsAtFirst(digest, StagedTo(digest, d, offers[0]), offers[1..], k - 1);
      assert offers[1..][..k] == offers[..k + 1][1..];
      assert offers[..k + 1][0] == offers[0];
    }
  }

  lemma AcceptedIsStaged(digest: Digest, d: Disk, o: Offer)
    requires Accepts(digest, o)
    ensures StagedTo(digest, d, o).staged == o.body && StagedTo(digest, d, o).note == Some(Written(o.m))
  {
    hide Matches, ValidManifest;
  }

  /** A good download stored under its manifest can be installed. */
  lemma DownloadMatches(digest: Digest, m: Manifest, data: Bytes)
    requires ValidManifest(m) && Downloaded(digest, m, data)
    ensures Readable(Written(m)) && Matches(digest, data, m.sha256)
  {
    ValidIsReadable(m);
  }

  lemma AcceptedIsRecoverable(digest: Digest, d: Disk, o: Offer)
    requires Accepts(digest, o)
    ensures Recoverable(digest, StagedTo(digest, d, o)) && StagedTo(digest, d, o).staged == o.body
  {
    DownloadMatches(digest, o.m, o.body.value);
  }

  /** The operations that an installation depends on work. */
  predicate Installs(l: Luck) { l.mkdir && l.keepBackup && l.swap }

  predicate Waits(digest: Digest, d: Disk, data: Bytes) { Recoverable(digest, d) && d.staged == Some(data) }

  predicate Runs(d: Disk, data: Bytes) { d.bin == Some(data) && d.staged == None }

  /** A turn in which nothing is offered keeps an update that waits, or installs it; it installs it if the
      operations that matter work, and then it stays. */
  lemma TurnKeepsUpdate(digest: Digest, d: Disk, round: Round, data: Bytes)
    requires (Waits(digest, d, data) || Runs(d, data)) && round.offers == []
    ensures var d' := Turned(digest, d, round);
            && (Waits(digest, d', data) || Runs(d', data))
            && (Waits(digest, d', data) ==> Waits(digest, d, data) && !Installs(round.luck))
  {
    hide Matches, Readable;
  }

  lemma {:induction false} TurnsKeepUpdate(digest: Digest, d: Disk, rounds: seq<Round>, data: Bytes)
    requires Waits(digest, d, data)
    requires forall k | 0 <= k < |rounds| :: rounds[k].offers == []
    ensures var d' := TurnedAll(digest, d, rounds);
            && (Waits(digest, d', data) || Runs(d', data))
            && (Waits(digest, d', data) ==> forall k | 0 <= k < |rounds| :: !Installs(rounds[k].luck))
  {
    hide Waits, Runs, Turned, Installs;
    if rounds != [] {
      var n := |rounds| - 1;
      TurnsKeepUpdate(digest, d, rounds[..n], data);
      TurnKeepsUpdate(digest, TurnedAll(digest, d, rounds[..n]), rounds[n], data);
    }
  }

  /** An update that the node has staged is installed by the first of the following turns in which directory,
      backup and swap work, whatever fails before, and stays installed while the node stages no other. */
  lemma UpdateArrives(digest: Digest, d: Disk, o: Offer, rounds: seq<Round>)
    requires Accepts(digest, o)
    requires forall k | 0 <= k < |rounds| :: rounds[k].offers == []
    requires exists k :: 0 <= k < |rounds| && Installs(rounds[k].luck)
    ensures TurnedAll(digest, StagedTo(digest, d, o), rounds).bin == o.body
  {
    hide StagedTo, TurnedAll, Installs;
    AcceptedIsRecoverable(digest, d, o);
    TurnsKeepUpdate(digest, StagedTo(digest, d, o), rounds, o.body.value);
  }

  lemma {:induction false} TurnsSplit(digest: Digest, d: Disk, round: Round, rounds: seq<Round>)
    ensures TurnedAll(digest, d, [round] + rounds) == TurnedAll(digest, Turned(digest, d, round), rounds)
  {
    hide Turned;
    var all := [round] + rounds;
    if rounds == [] {
      assert all[..0] == [] && all[0] == round;
    } else {
      TurnsSplit(digest, d, round, rounds[..|rounds| - 1]);
      assert all[..|all| - 1] == [round] + rounds[..|rounds| - 1] && all[|all| - 1] == rounds[|rounds| - 1];
    }
  }

  /** From the offer to the binary: the first good offer of a turn in which there is a binary to run is the binary after
      any following turns without offers, if in one of them directory, backup and swap work. Without a binary no node
      runs, and nothing is staged. */
  lemma OfferArrives(digest: Digest, d: Disk, round: Round, rounds: seq<Round>, k: nat)
    requires k < |round.offers| && Accepts(digest, round.offers[k])
    requires forall j | 0 <= j < k :: !Accepts(digest, round.offers[j])
    requires forall i | 0 <= i < |rounds| :: rounds[i].offers == []
    requires exists i :: 0 <= i < |rounds| && Installs(rounds[i].luck)
    ensures Applied(digest, d, round.luck).bin.Some? ==>
              TurnedAll(digest, d, [round] + rounds).bin == round.offers[k].body
    ensures Applied(digest, d, round.luck).bin.None? ==>
              TurnedAll(digest, d, [round] + rounds) == TurnedAll(digest, Applied(digest, d, round.luck), rounds)
  {
    hide Applied, Lived, TurnedAll, Accepts, Installs;
    TurnsSplit(digest, d, round, rounds);
    if Applied(digest, d, round.luck).bin.Some? {
      LifeEndsAtFirst(digest, Applied(digest, d, round.luck), round.offers, k);
      AcceptedWaits(digest, Turned(digest, d, round), round.offers[k]);
      TurnsKeepUpdate(digest, Turned(digest, d, round), rounds, round.offers[k].body.value);
    }
  }

  lemma AcceptedWaits(digest: Digest, d: Disk, o: Offer)
    requires Accepts(digest, o) && d.staged == o.body && d.note == Some(Written(o.m))
    ensures o.body.Some? && Waits(digest, d, o.body.value)
  {
    DownloadMatches(digest, o.m, o.body.value);
  }

  class Home {
    const digest: Digest
    ghost const original: Bytes
    var bin: Option<Bytes>
    var backup: Option<Bytes>
    var staged: Option<Bytes>
    var note: Option<Note>
    ghost var pc: Pc
    ghost var proposed: set<Note>
    ghost var trace: seq<Sys>

    ghost function Files(): Disk
      reads this
    {
      Disk(bin, backup, staged, note)
    }

    ghost function State(): Sys
      reads this
    {
      Sys(Files(), pc, proposed)
    }

    ghost predicate Valid()
      reads this
    {
      trace != [] && Run(digest, original, trace) && trace[|trace| - 1] == State()
    }

    /** An installed node, with whatever an earlier installation left in staging. */
    constructor (digest: Digest, original: Bytes, staged: Option<Bytes>, note: Option<Note>)
      ensures Valid() && pc == Idle && this.digest == digest && this.original == original
    {
      this.digest, this.original := digest, original;
      this.bin, this.backup, this.staged, this.note := Some(original), None, staged, note;
      this.pc, this.proposed := Idle, if note.Some? then {note.value} else {};
      this.trace := [Sys(Disk(Some(original), None, staged, note), Idle, if note.Some? then {note.value} else {})];
    }

    /** The step that has just been made is recorded, and the code goes on at `pc'`. */
    ghost method Reach(pc': Pc)
      requires trace != [] && Run(digest, original, trace) && Next(digest, trace[|trace| - 1], State().(pc := pc'))
      modifies this`pc, this`trace
      ensures Valid() && pc == pc' && trace == old(trace) + [State()]
    {
      hide Next;
      pc := pc';
      trace := trace + [State()];
    }

    /** Wherever the machine stopped on the way here, there was a node to run or one to recover. */
    lemma EveryMomentIsSafe()
      requires Valid()
      ensures forall k | 0 <= k < |trace| :: Safe(digest, trace[k].disk)
      ensures bin.Some? ==> Trusted(digest, original, proposed, bin.value)
    {
      hide Safe, Trusted;
      forall k | 0 <= k < |trace| ensures Safe(digest, trace[k].disk) { RunKeeps(digest, original, trace, k); }
      RunIsSafe(digest, original, trace, |trace| - 1);
    }

    /** `cleanupStaged`, lines 173-176 of runner_windows.go. */
    method CleanupStaged(l: Luck)
      requires Valid() && pc == DropNote
      modifies this`note, this`staged, this`pc, this`trace
      ensures Valid() && pc == Idle && old(trace) <= trace
      ensures Files() == Cleaned(old(Files()), l)
    {
      hide Run, Next;
      ghost var s := State();
      note := Remove(note, l.dropNote);
      NoteStep(digest, s, State().(pc := DropStaged));
      Reach(DropStaged);
      s := State();
      staged := Remove(staged, l.dropStaged);
      StagedStep(digest, s, State().(pc := Idle));
      Reach(Idle);
    }

    /** Lines 133-140: the digest that the staged manifest asks for, if it can be read. */
    method ReadStagedNote(l: Luck) returns (want: Option<string>, err: Option<string>)
      requires Valid() && pc == Idle
      modifies this`note, this`staged, this`pc, this`trace
      ensures Valid() && old(trace) <= trace
      ensures want.Some? <==> old(note).Some? && Readable(old(note).value)
      ensures want.Some? ==> Files() == old(Files()) && want.value == old(note).value.sha256
                             && pc == StatStaged(want.value)
      ensures want.None? ==> pc == Idle && (err == None <==> old(note).None?)
      ensures want.None? ==> Files() == Applied(digest, old(Files()), l)
    {
      hide Run, Matches, Recoverable;
      want, err := None, None;
      Reach(ReadNote);
      if note.None? {
        Reach(Idle);
      } else if Readable(note.value) {
        want := Some(note.value.sha256);
        Reach(StatStaged(want.value));
      } else {
        NotRecoverable(digest, Files());
        Reach(DropNote);
        CleanupStaged(l);
        err := Some("read staged manifest");
      }
    }

    /** Lines 141-150: the staged binary must be there and match. */
    method VerifyStaged(want: string, l: Luck) returns (ok: bool)
      requires Valid() && pc == StatStaged(want) && note.Some? && Readable(note.value) && note.value.sha256 == want
      modifies this`note, this`staged, this`pc, this`trace
      ensures Valid() && old(trace) <= trace
      ensures ok <==> Recoverable(digest, old(Files()))
      ensures ok ==> pc == MakeBin && Files() == old(Files())
      ensures !ok ==> pc == Idle && Files() == Cleaned(old(Files()), l)
    {
      hide Run, Matches, Readable;
      ok := false;
      if staged.None? {
        Reach(DropNote);
        CleanupStaged(l);
        return;
      }
      Reach(Check(want));
      ok := Matches(digest, staged.value, want);
      if ok {
        Reach(MakeBin);
      } else {
        Reach(DropNote);
        CleanupStaged(l);
      }
    }

    /** Lines 157-162: the old binary moves aside. */
    method SetAside(l: Luck) returns (ok: bool)
      requires Valid() && pc == DropOldBackup
      modifies this`bin, this`backup, this`pc, this`trace
      ensures Valid() && old(trace) <= trace && pc == (if ok then Pc.Swap else Idle)
      ensures ok <==> old(bin).None? || l.keepBackup
      ensures bin == if l.keepBackup then None else old(bin)
      ensures backup ==
              if old(bin).Some? && l.keepBackup then old(bin) else if l.dropOldBackup then None else old(backup)
    {
      hide Run, Next;
      ghost var s := State();
      backup := Remove(backup, l.dropOldBackup);
      BackupStep(digest, s, State().(pc := if bin.Some? then KeepBackup else Pc.Swap));
      ok := true;
      if bin.Some? {
        Reach(KeepBackup);
        s := State();
        bin, backup, ok := Rename(bin, backup, l.keepBackup);
        KeepStep(digest, s, State().(pc := if ok then Pc.Swap else Idle));
        Reach(if ok then Pc.Swap else Idle);
      } else {
        Reach(Pc.Swap);
      }
    }

    /** Lines 163-166: the staged binary takes its place, or the old one comes back. */
    method Replace(l: Luck) returns (ok: bool)
      requires Valid() && pc == Pc.Swap
      modifies this`bin, this`backup, this`staged, this`pc, this`trace
      ensures Valid() && old(trace) <= trace && pc == (if ok then DropBackup else Idle)
      ensures ok <==> l.swap && old(staged).Some?
      ensures ok ==> bin == old(staged) && staged == None && backup == old(backup)
      ensures !ok ==> staged == old(staged)
      ensures !ok ==> if l.restore && old(backup).Some? then bin == old(backup) && backup == None
                      else bin == old(bin) && backup == old(backup)
    {
      hide Run, Next;
      ghost var s := State();
      staged, bin, ok := Rename(staged, bin, l.swap);
      SwapStep(digest, s, State().(pc := if ok then DropBackup else Restore));
      Reach(if ok then DropBackup else Restore);
      if !ok {
        s := State();
        var restored;
        backup, bin, restored := Rename(backup, bin, l.restore);
        RestoreStep(digest, s, State().(pc := Idle));
        Reach(Idle);
      }
    }

    /** Lines 167-168. */
    method Tidy(l: Luck)
      requires Valid() && pc == DropBackup
      modifies this`backup, this`note, this`pc, this`trace
      ensures Valid() && old(trace) <= trace && pc == Idle
      ensures backup == (if l.dropBackup then None else old(backup))
              && note == (if l.dropUsedNote then None else old(note))
    {
      hide Run, Next;
      ghost var s := State();
      backup := Remove(backup, l.dropBackup);
      BackupStep(digest, s, State().(pc := DropUsedNote));
      Reach(DropUsedNote);
      s := State();
      note := Remove(note, l.dropUsedNote);
      NoteStep(digest, s, State().(pc := Idle));
      Reach(Idle);
    }

    /** Lines 152-168. */
    method Install(l: Luck) returns (err: Option<string>)
      requires Valid() && pc == MakeBin && staged.Some?
      modifies this`bin, this`backup, this`staged, this`note, this`pc, this`trace
      ensures Valid() && pc == Idle && old(trace) <= trace
      ensures err == None <==> l.mkdir && (old(bin).Some? ==> l.keepBackup) && l.swap
      ensures Files() == if l.mkdir then Swapped(old(Files()), l) else old(Files())
    {
      hide Run, Next, Swapped;
      SwappedCases(Files(), l);
      EndIsStep(digest, State());
      if !l.mkdir {
        Reach(Idle);
        return Some("create node bin dir");
      }
      MkdirStep(digest, State());
      Reach(DropOldBackup);
      var ok := SetAside(l);
      if !ok { return Some("backup old node"); }
      ok := Replace(l);
      if !ok { return Some("replace node"); }
      Tidy(l);
      err := None;
    }

    /** `applyStaged`. It reports success exactly when nothing is staged, or what is staged is acceptable and
        the directory, the rename of an existing binary and the swap work; without failures the files are as
        `Installed` says. */
    method ApplyStaged(l: Luck) returns (err: Option<string>)
      requires Valid() && pc == Idle
      modifies this`bin, this`backup, this`staged, this`note, this`pc, this`trace
      ensures Valid() && pc == Idle && old(trace) <= trace
      ensures err == None <==>
                old(note).None?
                || (Recoverable(digest, old(Files())) && l.mkdir && (old(bin).Some? ==> l.keepBackup) && l.swap)
      ensures Files() == Applied(digest, old(Files()), l)
      ensures old(note).None? ==> Files() == old(Files())
      ensures err == None && old(note).Some? ==> bin == old(staged) && staged == None
      ensures err == None && old(note).Some? && Hex(digest) ==>
                old(note).value.Note? && bin.Some? && Spells(old(note).value.sha256, digest(bin.value))
      ensures Calm(l) ==> Files() == Installed(digest, old(Files()))
    {
      hide Run, Matches, Readable, Installed, Hex, Spells;
      if Calm(l) { CalmInstalls(digest, Files(), l); }
      if Hex(digest) && Recoverable(digest, Files()) { RecoverableSpells(digest, Files()); }
      ghost var d := Files();
      var want, ok;
      want, err := ReadStagedNote(l);
      if want.None? {
        if d.note.Some? { NotRecoverable(digest, d); }
        return;
      }
      ok := VerifyStaged(want.value, l);
      if !ok { return Some("verify staged node"); }
      err := Install(l);
    }

    /** `Apply` has accepted `m`. */
    ghost method Propose(m: Manifest)
      requires Valid() && pc == Running && ValidManifest(m)
      modifies this`pc, this`proposed, this`trace
      ensures Valid() && pc == ClearNote(m) && old(trace) <= trace && proposed == old(proposed) + {Written(m)}
    {
      hide Run, Matches, ValidManifest;
      proposed := proposed + {Written(m)};
      Reach(ClearNote(m));
    }

    /** Lines 166-182 of update.go: what was staged before is removed first. */
    method ClearStaging(m: Manifest, l: StageLuck)
      requires Valid() && pc == ClearNote(m)
      modifies this`staged, this`note, this`pc, this`trace
      ensures Valid() && pc == Fetch(m) && old(trace) <= trace
      ensures note == (if l.dropNote then None else old(note)) && staged == (if l.dropStaged then None else old(staged))
    {
      hide Run, Next;
      ghost var s := State();
      note := Remove(note, l.dropNote);
      NoteStep(digest, s, State().(pc := ClearStaged(m)));
      Reach(ClearStaged(m));
      s := State();
      staged := Remove(staged, l.dropStaged);
      StagedStep(digest, s, State().(pc := Fetch(m)));
      Reach(Fetch(m));
    }

    /** Lines 190-201: the verified download is put in place, then its manifest is written. */
    method Store(m: Manifest, data: Bytes, l: StageLuck) returns (err: Option<string>)
      requires Valid() && pc == Pc.Stage(m, data)
      modifies this`staged, this`note, this`pc, this`trace
      ensures Valid() && pc == Running && old(trace) <= trace
      ensures err == None <==> l.rename && l.write
      ensures staged == (if l.rename then Some(data) else old(staged))
      ensures note == (if l.rename && l.write then Some(Written(m)) else old(note))
    {
      hide Run;
      err := None;
      if !l.rename {
        Reach(Running);
        return Some("stage update file");
      }
      staged := Some(data);
      Reach(WriteNote(m));
      if !l.write {
        Reach(Running);
        return Some("write staged manifest");
      }
      note := Some(Written(m));
      Reach(Running);
    }

    /** `Apply` on Windows, with `validate` and `stageWindows`: the binary first, its manifest last. It reports
        success exactly when the manifest is valid, the download good and the operations that are not ignored
        work; then the runner will accept what is staged. */
    method Stage(o: Offer) returns (err: Option<string>)
      requires Valid() && pc == Running
      modifies this`staged, this`note, this`pc, this`proposed, this`trace
      ensures Valid() && pc == Running && old(trace) <= trace
      ensures err == None <==> Accepts(digest, o)
      ensures Files() == StagedTo(digest, old(Files()), o)
      ensures !ValidManifest(o.m) ==> Files() == old(Files())
      ensures err == None ==> Recoverable(digest, Files()) && staged == o.body && note == Some(Written(o.m))
    {
      hide Run, Matches, ValidManifest, Readable, Downloaded;
      var m, l := o.m, o.luck;
      if !ValidManifest(m) || !l.mkdir { return Some("invalid update"); }
      Propose(m);
      ClearStaging(m, l);
      var data := Download(digest, m, o.body);
      if data.None? {
        Reach(Running);
        return Some("download update");
      }
      DownloadMatches(digest, m, data.value);
      Reach(Pc.Stage(m, data.value));
      err := Store(m, data.value, l);
    }

    /** `loop`: install what is staged, run the node, wait, and start over until the service is stopped. Every
        turn leaves the disk as `Turned` says; whatever fails, there is a node to run or one to recover at every
        moment, and the waits double from one second to 32. A stop during a wait counts for the turn before. */
    method Loop(rounds: seq<Round>) returns (waits: seq<nat>)
      requires Valid() && pc == Idle
      modifies this
      ensures Valid() && pc == Idle && old(trace) <= trace
      ensures |waits| <= |rounds| && forall k | 0 <= k < |waits| :: !rounds[k].stopped
      ensures |waits| < |rounds| ==> rounds[|waits|].stopped
      ensures Files() == TurnedAll(digest, old(Files()), rounds[..if |waits| < |rounds| then |waits| + 1 else |waits|])
      ensures forall k | 0 <= k < |waits| :: waits[k] == if k < 5 then [1, 2, 4, 8, 16][k] * SECOND else 32 * SECOND
      ensures forall k | 0 <= k < |trace| :: Safe(digest, trace[k].disk)
    {
      hide Run, Recoverable, Safe, Turned, Applied, Lived;
      waits := [];
      var backoff := SECOND;
      for i := 0 to |rounds|
        invariant Valid() && pc == Idle && old(trace) <= trace
        invariant |waits| == i && forall k | 0 <= k < i :: !rounds[k].stopped
        invariant Files() == TurnedAll(digest, old(Files()), rounds[..i])
        invariant forall k | 0 <= k < |waits| :: waits[k] == if k < 5 then POWERS[k] * SECOND else 32 * SECOND
        invariant backoff == if |waits| < 5 then POWERS[|waits|] * SECOND else 32 * SECOND
      {
        Turn(rounds[i]);
        assert rounds[..i + 1][..i] == rounds[..i];
        if rounds[i].stopped { break; }
        waits := waits + [backoff];
        if backoff < 30 * SECOND { backoff := backoff * 2; }
      }
      EveryMomentIsSafe();
    }

    /** One turn of `loop`. */
    method Turn(round: Round)
      requires Valid() && pc == Idle
      modifies this`bin, this`backup, this`staged, this`note, this`pc, this`proposed, this`trace
      ensures Valid() && pc == Idle && old(trace) <= trace
      ensures Files() == Turned(digest, old(Files()), round)
    {
      hide Run, Recoverable, Applied, Lived;
      var err := ApplyStaged(round.luck);
      if bin.Some? { RunNode(round.offers); }
    }

    /** One life of the node, in which it may try to stage updates. */
    method RunNode(offers: seq<Offer>)
      requires Valid() && pc == Idle && bin.Some?
      modifies this`staged, this`note, this`pc, this`proposed, this`trace
      ensures Valid() && pc == Idle && old(trace) <= trace
      ensures Files() == Lived(digest, old(Files()), offers)
    {
      hide Run, Recoverable, Accepts, StagedTo;
      Enter(Running);
      for i := 0 to |offers|
        invariant Valid() && pc == Running && old(trace) <= trace
        invariant Lived(digest, Files(), offers[i..]) == Lived(digest, old(Files()), offers)
      {
        var err := Stage(offers[i]);
        assert offers[i..][0] == offers[i] && offers[i..][1..] == offers[i + 1..];
        if err == None {
          Enter(Idle);
          return;
        }
      }
      Enter(Idle);
    }

    ghost method Enter(pc': Pc)
      requires Valid() && (pc' == Idle || (pc' == Running && pc == Idle && bin.Some?))
      modifies this`pc, this`trace
      ensures Valid() && pc == pc' && trace == old(trace) + [State()]
    {
      hide Run;
      Reach(pc');
    }
  }
}
