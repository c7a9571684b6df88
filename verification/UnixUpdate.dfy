/** Installing an update on Linux and macOS (internal/selfupdate/update.go): a release directory per
    version and a `current` link that is switched by one rename. */
module UnixUpdate {
  import opened Common
  import opened Manifests

  /** Each release directory with its binary, if it has one; where `current` and its temporary link lead. */
  datatype Tree = Tree(releases: map<string, Option<Bytes>>, current: Option<string>, temp: Option<string>)

  datatype Pc =
    | Idle
    | MakeDir(m: Manifest) | Fetch(m: Manifest) | Install(m: Manifest, data: Bytes)
    | DropTemp(m: Manifest) | MakeTemp(m: Manifest) | Switch(m: Manifest) | Undo

  datatype Sys = Sys(tree: Tree, pc: Pc, proposed: set<Note>)

  predicate Present(t: Tree, version: string) { version in t.releases && t.releases[version].Some? }

  ghost predicate Next(digest: Digest, s: Sys, s': Sys) {
    || s' == s.(pc := Idle)   // an error or the end of `applyUnix`, a crash
    || match s.pc
       case Idle => exists m :: ValidManifest(m) && s' == s.(pc := MakeDir(m), proposed := s.proposed + {Written(m)})
       case MakeDir(m) =>
         s' == s.(tree := s.tree.(releases := if m.version in s.tree.releases then s.tree.releases
                                              else s.tree.releases[m.version := None]),
                  pc := Fetch(m))
       case Fetch(m) => s'.pc.Install? && s' == s.(pc := Install(m, s'.pc.data)) && Downloaded(digest, m, s'.pc.data)
       case Install(m, data) => s' == s.(tree := s.tree.(releases := s.tree.releases[m.version := Some(data)]),
                                         pc := DropTemp(m))
       case DropTemp(m) =>
         Removed(s.tree.temp, s'.tree.temp) && s' == s.(tree := s.tree.(temp := s'.tree.temp), pc := MakeTemp(m))
       case MakeTemp(m) => s.tree.temp == None && s' == s.(tree := s.tree.(temp := Some(m.version)), pc := Switch(m))
       case Switch(m) =>
         || s' == s.(pc := Undo)
         || (s.tree.temp.Some? && s' == s.(tree := s.tree.(current := s.tree.temp, temp := None), pc := Idle))
       case Undo => Removed(s.tree.temp, s'.tree.temp) && s' == s.(tree := s.tree.(temp := s'.tree.temp), pc := Idle)
  }

  /** The release was there from the start, or it matches a manifest that was sent for this very version. */
  ghost predicate Trusted(digest: Digest, original: map<string, Option<Bytes>>, proposed: set<Note>, version: string,
                          data: Bytes) {
    || (version in original && original[version] == Some(data))
    || exists n :: n in proposed && n.Note? && n.version == version && Matches(digest, data, n.sha256)
  }

  ghost predicate SysInv(digest: Digest, original: map<string, Option<Bytes>>, s: Sys) {
    && s.tree.current.Some? && Present(s.tree, s.tree.current.value)
    && (s.tree.temp.Some? ==> Present(s.tree, s.tree.temp.value))
    && (forall v | Present(s.tree, v) :: Trusted(digest, original, s.proposed, v, s.tree.releases[v].value))
    && match s.pc
       case Idle => true
       case Undo => true
       case MakeDir(m) => Written(m) in s.proposed
       case Fetch(m) => Written(m) in s.proposed
       case Install(m, data) => Written(m) in s.proposed && Matches(digest, data, m.sha256)
       case DropTemp(m) => Present(s.tree, m.version)
       case MakeTemp(m) => Present(s.tree, m.version)
       case Switch(m) => s.tree.temp == Some(m.version)
  }

  lemma BeginKeeps(digest: Digest, original: map<string, Option<Bytes>>, s: Sys, s': Sys)
    requires SysInv(digest, original, s) && Next(digest, s, s') && s.pc.Idle?
    ensures SysInv(digest, original, s')
  {
    hide Matches, ValidManifest;
    forall v | Present(s'.tree, v) ensures Trusted(digest, original, s'.proposed, v, s'.tree.releases[v].value) {
      assert Trusted(digest, original, s.proposed, v, s.tree.releases[v].value);
    }
  }

  lemma InstallKeeps(digest: Digest, original: map<string, Option<Bytes>>, s: Sys, s': Sys)
    requires SysInv(digest, original, s) && Next(digest, s, s') && s.pc.Install?
    ensures SysInv(digest, original, s')
  {
    hide Matches, ValidManifest, Downloaded;
    forall v | Present(s'.tree, v) ensures Trusted(digest, original, s'.proposed, v, s'.tree.releases[v].value) {
      if v == s.pc.m.version && s'.pc != Idle {
        assert Written(s.pc.m) in s'.proposed;
      } else {
        assert Trusted(digest, original, s.proposed, v, s.tree.releases[v].value);
      }
    }
  }

  lemma StepKeeps(digest: Digest, original: map<string, Option<Bytes>>, s: Sys, s': Sys)
    requires SysInv(digest, original, s) && Next(digest, s, s')
    ensures SysInv(digest, original, s')
  {
    hide Matches, ValidManifest, Trusted;
    match s.pc
    case Idle => BeginKeeps(digest, original, s, s');
    case Install(_, _) => InstallKeeps(digest, original, s, s');
    case _ =>
  }

  ghost predicate Run(digest: Digest, ss: seq<Sys>) {
    && ss != []
    && ss[0].tree.current.Some? && Present(ss[0].tree, ss[0].tree.current.value) && ss[0].tree.temp == None
    && ss[0].pc == Idle
    && forall k | 0 <= k < |ss| - 1 :: Next(digest, ss[k], ss[k + 1])
  }

  lemma {:induction false} RunKeeps(digest: Digest, ss: seq<Sys>, k: nat)
    requires Run(digest, ss) && k < |ss|
    ensures SysInv(digest, ss[0].tree.releases, ss[k])
  {
    if k > 0 {
      RunKeeps(digest, ss, k - 1);
      StepKeeps(digest, ss[0].tree.releases, ss[k - 1], ss[k]);
    }
  }

  /** Wherever a run stops, `current` leads to a binary that was installed from the start or that matches
      a manifest sent for the version it is filed under. */
  lemma CurrentIsSafe(digest: Digest, ss: seq<Sys>, k: nat)
    requires Run(digest, ss) && k < |ss|
    ensures var t := ss[k].tree;
            t.current.Some? && Present(t, t.current.value)
            && Trusted(digest, ss[0].tree.releases, ss[k].proposed, t.current.value, t.releases[t.current.value].value)
    ensures var t := ss[k].tree;
            var version := t.current.value; var bin := t.releases[version].value;
            Hex(digest) ==>
              || (version in ss[0].tree.releases && ss[0].tree.releases[version] == Some(bin))
              || exists note :: note in ss[k].proposed && note.Note? && note.version == version
                                && Spells(note.sha256, digest(bin))
  {
    RunKeeps(digest, ss, k);
    hide Matches, Spells, Next, Hex;
    var t := ss[k].tree;
    var version := t.current.value;
    var bin := t.releases[version].value;
    if Hex(digest) && !(version in ss[0].tree.releases && ss[0].tree.releases[version] == Some(bin)) {
      var note :| note in ss[k].proposed && note.Note? && note.version == version && Matches(digest, bin, note.sha256);
      MatchesExactly(digest, bin, note.sha256);
    }
  }

  /** Which file operations of one installation work. The temporary link can be made only once an old one is
      gone. */
  datatype Luck = Luck(mkdir: bool, install: bool, dropTemp: bool, link: bool, switch: bool, undo: bool)

  /** The files of one installation, with the trace of every state they went through. */
  class Home {
    const digest: Digest
    var releases: map<string, Option<Bytes>>
    var current: Option<string>
    var temp: Option<string>
    ghost var pc: Pc
    ghost var proposed: set<Note>
    ghost var trace: seq<Sys>

    ghost function State(): Sys
      reads this
    {
      Sys(Tree(releases, current, temp), pc, proposed)
    }

    ghost predicate Valid()
      reads this
    {
      trace != [] && Run(digest, trace) && trace[|trace| - 1] == State()
    }

    constructor (digest: Digest, version: string, binary: Bytes)
      ensures Valid() && pc == Idle && current == Some(version) && releases == map[version := Some(binary)]
    {
      this.digest, releases, current, temp := digest, map[version := Some(binary)], Some(version), None;
      pc, proposed := Idle, {};
      trace := [Sys(Tree(map[version := Some(binary)], Some(version), None), Idle, {})];
    }

    ghost method Reach(pc': Pc)
      requires trace != [] && Run(digest, trace) && Next(digest, trace[|trace| - 1], State().(pc := pc'))
      modifies this`pc, this`trace
      ensures Valid() && pc == pc' && trace == old(trace) + [State()]
    {
      hide Next;
      pc := pc';
      trace := trace + [State()];
    }

    /** `switchCurrent`: an old temporary link must go before a new one can be made. */
    method SwitchCurrent(m: Manifest, l: Luck) returns (err: Option<string>)
      requires Valid() && pc == DropTemp(m)
      modifies this`current, this`temp, this`pc, this`trace
      ensures Valid() && pc == Idle && old(trace) <= trace
      ensures err == None <==> (old(temp).None? || l.dropTemp) && l.link && l.switch
      ensures err == None ==> current == Some(m.version) && temp == None
      ensures err != None ==> current == old(current)
    {
      hide Run, Downloaded, ValidManifest;
      temp := Remove(temp, l.dropTemp);
      Reach(MakeTemp(m));
      if temp.Some? || !l.link {
        Reach(Idle);
        return Some("stage current symlink");
      }
      temp := Some(m.version);
      Reach(Switch(m));
      err := RenameLink(m, l);
    }

    /** `switchCurrent`, lines 313-317. */
    method RenameLink(m: Manifest, l: Luck) returns (err: Option<string>)
      requires Valid() && pc == Switch(m) && temp == Some(m.version)
      modifies this`current, this`temp, this`pc, this`trace
      ensures Valid() && pc == Idle && old(trace) <= trace
      ensures err == None <==> l.switch
      ensures err == None ==> current == Some(m.version) && temp == None
      ensures err != None ==> current == old(current)
    {
      hide Run, Downloaded, ValidManifest;
      if !l.switch {
        Reach(Undo);
        temp := Remove(temp, l.undo);
        Reach(Idle);
        return Some("switch current symlink");
      }
      current, temp := temp, None;
      Reach(Idle);
      return None;
    }

    /** Lines 210-230: the verified download becomes the binary of its release. */
    method InstallRelease(m: Manifest, body: Option<Bytes>, l: Luck) returns (ok: bool)
      requires Valid() && pc == MakeDir(m)
      modifies this`releases, this`pc, this`trace
      ensures Valid() && pc == (if ok then DropTemp(m) else Idle) && old(trace) <= trace
      ensures ok <==> l.mkdir && body.Some? && Downloaded(digest, m, body.value) && l.install
      ensures ok ==> releases == old(releases)[m.version := body]
      ensures !ok ==> forall v | v in old(releases) :: v in releases && releases[v] == old(releases)[v]
    {
      hide Run, Downloaded, ValidManifest;
      ok := false;
      if !l.mkdir {
        Reach(Idle);
        return;
      }
      if m.version !in releases { releases := releases[m.version := None]; }
      Reach(Fetch(m));
      var data := Download(digest, m, body);
      if data.None? {
        Reach(Idle);
        return;
      }
      Reach(Install(m, data.value));
      if !l.install {
        Reach(Idle);
        return;
      }
      releases := releases[m.version := data];
      Reach(DropTemp(m));
      ok := true;
    }

    /** `Apply` with `applyUnix`; `active`: the version of the running executable. It asks for a restart
        exactly when the manifest is valid and not active, the download good, and every operation that is not
        ignored works; then `current` leads to the download. */
    method ApplyUnix(m: Manifest, active: Option<string>, body: Option<Bytes>, l: Luck)
      returns (err: Option<string>, restart: bool)
      requires Valid() && pc == Idle
      modifies this
      ensures Valid() && pc == Idle && old(trace) <= trace
      ensures restart <==>
                && ValidManifest(m) && active != Some(m.version)
                && l.mkdir && body.Some? && Downloaded(digest, m, body.value) && l.install
                && (old(temp).None? || l.dropTemp) && l.link && l.switch
      ensures restart ==> err == None && current == Some(m.version) && releases == old(releases)[m.version := body]
      ensures err == None && !restart <==> ValidManifest(m) && active == Some(m.version)
      ensures !restart ==> current == old(current)
      ensures !ValidManifest(m) || active == Some(m.version) ==> State() == old(State())
      ensures restart && Hex(digest) ==> body.Some? && |body.value| == m.size && Spells(m.sha256, digest(body.value))
    {
      if Hex(digest) && body.Some? { MatchesExactly(digest, body.value, m.sha256); }
      hide Run, Next, Downloaded, ValidManifest, Spells, Hex;
      if !ValidManifest(m) { return Some("invalid update"), false; }
      if active == Some(m.version) { return None, false; }
      Propose(m);
      var ok := InstallRelease(m, body, l);
      if !ok { return Some("install release binary"), false; }
      err := SwitchCurrent(m, l);
      restart := err == None;
    }

    ghost method Propose(m: Manifest)
      requires Valid() && pc == Idle && ValidManifest(m)
      modifies this`pc, this`proposed, this`trace
      ensures Valid() && pc == MakeDir(m) && old(trace) <= trace
    {
      hide Run, ValidManifest;
      proposed := proposed + {Written(m)};
      Reach(MakeDir(m));
    }
  }
}
