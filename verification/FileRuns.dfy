/** Reference counts and privacy of positions over any run of the file system calls. */
module FileRuns {
  import opened Lists
  import opened Counting
  import opened OpenFiles
  import opened FileCalls

  /** References that a call gives up without dropping them: a file whose open operation failed,
      and the working directory of a child whose fork failed while copying files. */
  function Lost(s: Files, c: Call): multiset<FileId>
    requires Allowed(s, c)
  {
    match c
    case Open(p, heap, target, accepted, _) =>
      if heap && target.Some? && !accepted && FreeSlot(s, p, 0, None).Some? then multiset{target.value} else multiset{}
    case Chdir(_, target, accepted) => if target.Some? && !accepted then multiset{target.value} else multiset{}
    case Fork(p, _, _, _, _) =>
      if p in s.cwds && FailPoint(s, c, 0) < MAX_OPEN_FILES then multiset{s.cwds[p]} else multiset{}
    case _ => multiset{}
  }

  /** The processes a call may change. */
  function Actors(c: Call): set<Pid> {
    if c.Fork? then {c.child} else {c.p}
  }

  ghost predicate Effect(s: Files, c: Call, t: Files)
    requires Allowed(s, c)
  {
    FilesInv(t) && t.table == s.table && t.loose == s.loose + Lost(s, c) && OthersUntouched(s, t, Actors(c))
  }

  lemma OpenEffect(s: Files, c: Call)
    requires FilesInv(s) && Allowed(s, c) && c.Open?
    ensures Effect(s, c, DoOpen(s, c).0)
  {
    if FreeSlot(s, c.p, 0, None).Some? && c.target.Some? && c.heap {
      TableHas(s, c.target.value);
      GrabOk(s, c.target.value);
      if c.accepted {
        AttachOk(s, c.p, FreeSlot(s, c.p, 0, None).value, c.o, c.target.value, 0);
      }
    }
  }

  lemma CloseEffect(s: Files, c: Call)
    requires FilesInv(s) && Allowed(s, c) && c.Close?
    ensures Effect(s, c, DoClose(s, c).0)
  {
    if Filled(s, c.p, c.fd) {
      DropSlotOk(s, c.p, c.fd);
      DropSlotFrame(s, c.p, c.fd);
    }
  }

  lemma ShareFrame(s: Files, p: Pid, fd: nat, from: nat)
    requires FilesInv(s) && (p, from) in s.slots && s.slots[(p, from)] in s.opens
    ensures OthersUntouched(s, Share(s, p, fd, s.slots[(p, from)]), {p})
  {
    var t := Share(s, p, fd, s.slots[(p, from)]);
    forall q | q !in {p} ensures Untouched(s, t, q) {
      assert forall i: nat {:trigger (q, i)} :: Private(s.slots, (q, i), (p, from));
    }
  }

  lemma Dup2Effect(s: Files, c: Call)
    requires FilesInv(s) && Allowed(s, c) && c.Dup2?
    ensures Effect(s, c, DoDup2(s, c).0)
  {
    if 0 <= c.newfd < MAX_OPEN_FILES && Filled(s, c.p, c.oldfd) && c.oldfd != c.newfd {
      DropSlotOk(s, c.p, c.newfd);
      DropSlotFrame(s, c.p, c.newfd);
      var u := DropSlot(s, c.p, c.newfd);
      var o := u.slots[(c.p, c.oldfd)];
      ShareOk(u, c.p, c.newfd, o, c.oldfd);
      ShareFrame(u, c.p, c.newfd, c.oldfd);
      UntouchedTrans(s, u, Share(u, c.p, c.newfd, o), {c.p});
    }
  }

  lemma InstallFrame(s: Files, p: Pid, fd: nat, o: OpenId, f: FileId, pos: nat)
    requires o !in s.opens
    ensures OthersUntouched(s, Install(s, p, fd, o, f, pos), {p})
  {}

  lemma PipeEffect(s: Files, c: Call)
    requires FilesInv(s) && Allowed(s, c) && c.Pipe?
    ensures Effect(s, c, DoPipe(s, c).0)
  {
    var r := FreeSlot(s, c.p, 0, None);
    if r.Some? {
      var w := FreeSlot(s, c.p, 0, r);
      if w.Some? && c.valid && c.mallocs >= PIPE_MALLOCS {
        PipeWorks(s, c, r.value, w.value);
      }
    }
  }

  lemma TwoNewFiles(s: Files, fr: FileId, fw: FileId)
    requires FilesInv(s) && fr !in s.files && fw !in s.files && fr != fw
    ensures var u := NewFile(NewFile(s, fr), fw);
            && FilesInv(u) && u.opens == s.opens && u.slots == s.slots && u.cwds == s.cwds && u.live == s.live
            && u.table == s.table && u.loose == s.loose + multiset{fr} + multiset{fw}
  {
    NewFileOk(s, fr);
    NewFileOk(NewFile(s, fr), fw);
  }

  lemma InstallTwo(s: Files, p: Pid, r: nat, o: OpenId, f: FileId, w: nat, x: OpenId, g: FileId)
    requires FilesInv(s) && f in s.loose && g in s.loose - multiset{f} && o !in s.opens && x !in s.opens && o != x
             && p in s.live
    requires (p, r) !in s.slots && (p, w) !in s.slots && r != w && r < MAX_OPEN_FILES && w < MAX_OPEN_FILES
    ensures var t := Install(Install(s, p, r, o, f, 0), p, w, x, g, 0);
            FilesInv(t) && t.loose == s.loose - multiset{f} - multiset{g} && OthersUntouched(s, t, {p})
  {
    var u := Install(s, p, r, o, f, 0);
    InstallOk(s, p, r, o, f, 0);
    InstallOk(u, p, w, x, g, 0);
    InstallFrame(s, p, r, o, f, 0);
    InstallFrame(u, p, w, x, g, 0);
    UntouchedTrans(s, u, Install(u, p, w, x, g, 0), {p});
  }

  /** New files alone change nothing that a process sees. */
  lemma NewFilesUnseen(s: Files, u: Files, t: Files, ps: set<Pid>)
    requires u.opens == s.opens && u.slots == s.slots && u.cwds == s.cwds && u.live == s.live
             && OthersUntouched(u, t, ps)
    ensures OthersUntouched(s, t, ps)
  {
    forall q | q !in ps ensures Untouched(s, t, q) { assert Untouched(u, t, q); }
  }

  lemma PipeWorks(s: Files, c: Call, r: nat, w: nat)
    requires FilesInv(s) && Allowed(s, c) && c.Pipe? && r != w && r < MAX_OPEN_FILES && w < MAX_OPEN_FILES
    requires (c.p, r) !in s.slots && (c.p, w) !in s.slots
    ensures var t := Install(Install(NewFile(NewFile(s, c.fr), c.fw), c.p, r, c.or, c.fr, 0), c.p, w, c.ow, c.fw, 0);
            FilesInv(t) && t.table == s.table && t.loose == s.loose && OthersUntouched(s, t, {c.p})
  {
    TwoNewFiles(s, c.fr, c.fw);
    var u := NewFile(NewFile(s, c.fr), c.fw);
    InstallTwo(u, c.p, r, c.or, c.fr, w, c.ow, c.fw);
    NewFilesUnseen(s, u, Install(Install(u, c.p, r, c.or, c.fr, 0), c.p, w, c.ow, c.fw, 0), {c.p});
    assert s.loose + multiset{c.fr} + multiset{c.fw} - multiset{c.fr} - multiset{c.fw} == s.loose;
  }

  lemma ChdirEnters(u: Files, p: Pid, f: FileId)
    requires FilesInv(u) && f in u.loose && p in u.live
    ensures p in u.cwds ==> u.cwds[p] in u.files && u.files[u.cwds[p]].refs > 0
    ensures var t := EnterDir(DropDir(u, p), p, f);
            FilesInv(t) && t.table == u.table && t.loose == u.loose - multiset{f} && OthersUntouched(u, t, {p})
  {
    DropDirOk(u, p);
    DropDirFrame(u, p);
    var d := DropDir(u, p);
    EnterDirOk(d, p, f);
    var t := EnterDir(d, p, f);
    forall q | q !in {p} ensures Untouched(u, t, q) { assert Untouched(u, d, q); }
  }

  lemma ChdirReturns(s: Files, f: FileId)
    requires FilesInv(s) && f in s.files
    ensures var u := Grab(s, f);
            f in u.files && u.files[f].refs > 0 && FilesInv(u) && f in u.loose
            && FilesInv(Unref(u, f)) && Unref(u, f).loose == s.loose
  {
    GrabOk(s, f);
    UnrefOk(Grab(s, f), f);
    assert s.loose + multiset{f} - multiset{f} == s.loose;
  }

  lemma ChdirMoves(s: Files, p: Pid, f: FileId)
    requires FilesInv(s) && f in s.files && p in s.live
    ensures var u := Grab(s, f);
            && (p in u.cwds ==> u.cwds[p] in u.files && u.files[u.cwds[p]].refs > 0)
            && var t := EnterDir(DropDir(u, p), p, f);
               FilesInv(t) && t.table == s.table && t.loose == s.loose && OthersUntouched(s, t, {p})
  {
    GrabOk(s, f);
    var u := Grab(s, f);
    ChdirEnters(u, p, f);
    assert s.loose + multiset{f} - multiset{f} == s.loose;
    var t := EnterDir(DropDir(u, p), p, f);
    forall q | q !in {p} ensures Untouched(s, t, q) { assert Untouched(u, t, q); }
  }

  lemma ChdirAccepted(s: Files, c: Call, f: FileId)
    requires FilesInv(s) && Allowed(s, c) && c.Chdir? && c.target == Some(f) && c.accepted
    ensures Effect(s, c, DoChdir(s, c).0)
  {
    TableHas(s, f);
    if s.files[f].directory {
      ChdirMoves(s, c.p, f);
    } else {
      ChdirReturns(s, f);
    }
  }

  lemma ChdirEffect(s: Files, c: Call)
    requires FilesInv(s) && Allowed(s, c) && c.Chdir?
    ensures Effect(s, c, DoChdir(s, c).0)
  {
    if c.target.Some? {
      if c.accepted {
        ChdirAccepted(s, c, c.target.value);
      } else {
        TableHas(s, c.target.value);
        GrabOk(s, c.target.value);
      }
    }
  }

  /** The old directory dropped first, the descriptor keeps the new one. */
  lemma FchdirMoves(s: Files, p: Pid, fd: nat, f: FileId)
    requires FilesInv(s) && p in s.live && (p, fd) in s.slots
    requires s.slots[(p, fd)] in s.opens && f == s.opens[s.slots[(p, fd)]].file
    ensures p in s.cwds ==> s.cwds[p] in s.files && s.files[s.cwds[p]].refs > 0
    ensures var u := DropDir(s, p);
            && f in u.files
            && var t := EnterDir(Grab(u, f), p, f);
               FilesInv(t) && t.table == s.table && t.loose == s.loose && OthersUntouched(s, t, {p})
  {
    DropDirOk(s, p);
    DropDirFrame(s, p);
    var u := DropDir(s, p);
    NothingDangles(u, p, fd);
    GrabOk(u, f);
    EnterDirOk(Grab(u, f), p, f);
    assert s.loose + multiset{f} - multiset{f} == s.loose;
    var t := EnterDir(Grab(u, f), p, f);
    forall q | q !in {p} ensures Untouched(s, t, q) { assert Untouched(s, u, q); }
  }

  lemma FchdirEffect(s: Files, c: Call)
    requires FilesInv(s) && Allowed(s, c) && c.Fchdir?
    ensures Effect(s, c, DoFchdir(s, c).0)
  {
    if Filled(s, c.p, c.fd) {
      NothingDangles(s, c.p, c.fd);
      var f := s.opens[s.slots[(c.p, c.fd as nat)]].file;
      if s.files[f].directory {
        FchdirMoves(s, c.p, c.fd as nat, f);
      }
    }
  }

  lemma ForkEffect(s: Files, c: Call)
    requires FilesInv(s) && Allowed(s, c) && c.Fork?
    ensures Effect(s, c, DoFork(s, c).0)
  {
    SpawnOk(s, c);
    SpawnDirs(s, c);
    var v := Spawn(s, c);
    var u := CloneUpTo(v, c, MAX_OPEN_FILES);
    CloneUpToFrame(v, c, MAX_OPEN_FILES);
    ClonedOthers(v, u, c);
    UntouchedTrans(s, v, u, {c.child});
    var stop := FailPoint(s, c, 0);
    if stop < MAX_OPEN_FILES {
      ForkUndone(s, c, v, u);
    }
  }

  lemma ClonedOthers(s: Files, t: Files, c: Call)
    requires c.Fork? && CloneReady(s, c) && ClonedTo(s, t, c, MAX_OPEN_FILES)
    ensures OthersUntouched(s, t, {c.child})
  {}

  /** The copies freed, the child has no slots left. */
  lemma ForkUndoneSlots(s: Files, c: Call, v: Files, u: Files, stop: nat)
    requires FilesInv(v) && FilesInv(u) && c.Fork? && CloneReady(v, c) && u == CloneUpTo(v, c, MAX_OPEN_FILES)
    requires v.slots == s.slots && stop < MAX_OPEN_FILES && (c.p, stop) in s.slots && !c.heaps[stop]
    ensures forall k :: k in DropUpTo(u, c.child, stop).slots ==> k.0 != c.child
  {
    var d := DropUpTo(u, c.child, stop);
    CloneUpToFrame(v, c, MAX_OPEN_FILES);
    DropUpToFrame(u, c.child, stop);
    forall k | k in d.slots ensures k.0 != c.child {
      if k.0 == c.child {
        assert Cloned(v, u, c, k.1);
        NoneAfterFailure(v, u, c, stop, k.1);
        assert false;
      }
    }
  }

  /** A child with no slots is destroyed; its directory reference stays behind. */
  lemma DestroyOk(d: Files, child: Pid)
    requires FilesInv(d) && forall k :: k in d.slots ==> k.0 != child
    ensures var l := LeaveDir(d, child); FilesInv(l.(live := l.live - {child}))
  {
    LeaveDirOk(d, child);
    StopLiving(LeaveDir(d, child), child);
  }

  lemma UndoneFields(c: Call, v: Files, u: Files, stop: nat)
    requires FilesInv(v) && FilesInv(u) && c.Fork? && CloneReady(v, c) && u == CloneUpTo(v, c, MAX_OPEN_FILES)
    ensures var d := DropUpTo(u, c.child, stop);
            d.cwds == v.cwds && d.live == v.live && d.table == v.table && d.loose == v.loose
            && OthersUntouched(u, d, {c.child})
  {
    CloneUpToFrame(v, c, MAX_OPEN_FILES);
    DropUpToFrame(u, c.child, stop);
  }

  /** The references of a failed fork: only the child's working directory is lost. */
  lemma UndoneLoss(s: Files, c: Call, d: Files)
    requires Allowed(s, c) && c.Fork? && FailPoint(s, c, 0) < MAX_OPEN_FILES
    requires d.table == s.table && d.loose == s.loose && d.live == s.live + {c.child}
    requires (c.p in s.cwds <==> c.child in d.cwds) && (c.p in s.cwds ==> d.cwds[c.child] == s.cwds[c.p])
    ensures var l := LeaveDir(d, c.child);
            var t := l.(live := l.live - {c.child});
            t.table == s.table && t.loose == s.loose + Lost(s, c) && t.live == s.live
  {}

  lemma ForkUndone(s: Files, c: Call, v: Files, u: Files)
    requires FilesInv(s) && FilesInv(v) && FilesInv(u) && Allowed(s, c) && c.Fork? && CloneReady(v, c)
    requires u == CloneUpTo(v, c, MAX_OPEN_FILES) && v == Spawn(s, c)
    requires FailPoint(s, c, 0) < MAX_OPEN_FILES && OthersUntouched(s, u, {c.child})
    ensures var l := LeaveDir(DropUpTo(u, c.child, FailPoint(s, c, 0)), c.child);
            Effect(s, c, l.(live := l.live - {c.child}))
  {
    var stop := FailPoint(s, c, 0);
    var d := DropUpTo(u, c.child, stop);
    assert v.slots == s.slots && v.loose == s.loose && v.table == s.table && v.live == s.live + {c.child} by {
      SpawnOk(s, c);
    }
    SpawnDirs(s, c);
    UndoneFields(c, v, u, stop);
    UndoneLoss(s, c, d);
    ForkUndoneSlots(s, c, v, u, stop);
    DestroyOk(d, c.child);
    ForkUndoneOthers(s, c, u, d);
  }

  lemma ForkUndoneOthers(s: Files, c: Call, u: Files, d: Files)
    requires c.Fork? && OthersUntouched(s, u, {c.child}) && OthersUntouched(u, d, {c.child})
    ensures var l := LeaveDir(d, c.child); OthersUntouched(s, l.(live := l.live - {c.child}), {c.child})
  {
    UntouchedTrans(s, u, d, {c.child});
    var l := LeaveDir(d, c.child);
    var t := l.(live := l.live - {c.child});
    forall q | q !in {c.child} ensures Untouched(s, t, q) { assert Untouched(s, d, q); }
  }

  /** No slot at or after the failed one is filled in the child. */
  lemma NoneAfterFailure(v: Files, u: Files, c: Call, stop: nat, i: nat)
    requires FilesInv(v) && c.Fork? && CloneReady(v, c) && u == CloneUpTo(v, c, MAX_OPEN_FILES)
    requires stop <= i < MAX_OPEN_FILES && (c.p, stop) in v.slots && !c.heaps[stop]
    ensures (c.child, i) !in u.slots
  {
    StuckAfter(v, c, stop, MAX_OPEN_FILES);
    CloneUpToFrame(v, c, stop);
  }

  lemma {:induction false} StuckAfter(v: Files, c: Call, stop: nat, n: nat)
    requires FilesInv(v) && c.Fork? && CloneReady(v, c) && stop <= n <= MAX_OPEN_FILES
    requires stop < MAX_OPEN_FILES && (c.p, stop) in v.slots && !c.heaps[stop]
    ensures CloneUpTo(v, c, n) == CloneUpTo(v, c, stop)
  {
    if n > stop {
      StuckAfter(v, c, stop, n - 1);
      CloneStays(v, c, n);
    }
  }

  /** A process with no slots and no directory can go. */
  lemma StopLiving(s: Files, p: Pid)
    requires FilesInv(s) && p !in s.cwds && forall k :: k in s.slots ==> k.0 != p
    ensures FilesInv(s.(live := s.live - {p}))
  {
    var t := s.(live := s.live - {p});
    forall f ensures FileOk(t, f) { assert FileOk(s, f); }
    forall o ensures OpenOk(t, o) { assert OpenOk(s, o); }
  }

  lemma ExitEffect(s: Files, c: Call)
    requires FilesInv(s) && Allowed(s, c) && c.Exit?
    ensures Effect(s, c, DoExit(s, c).0)
    ensures var t := DoExit(s, c).0; c.p !in t.live && c.p !in t.cwds && forall k :: k in t.slots ==> k.0 != c.p
  {
    var u := DropUpTo(s, c.p, MAX_OPEN_FILES);
    DropUpToFrame(s, c.p, MAX_OPEN_FILES);
    DropDirOk(u, c.p);
    DropDirFrame(u, c.p);
    var d := DropDir(u, c.p);
    StopLiving(d, c.p);
    var t := d.(live := d.live - {c.p});
    forall q | q !in {c.p} ensures Untouched(s, t, q) { assert Untouched(s, u, q); }
  }

  lemma MoveEffect(s: Files, c: Call)
    requires FilesInv(s) && Allowed(s, c) && c.Move?
    ensures Effect(s, c, DoMove(s, c).0)
  {
    if Filled(s, c.p, c.fd) {
      NothingDangles(s, c.p, c.fd);
      var k := (c.p, c.fd as nat);
      var o := s.slots[k];
      var t := DoMove(s, c).0;
      forall f ensures FileOk(t, f) {
        assert FileOk(s, f);
        OpensSame(s.opens, o, t.opens[o], f);
      }
      forall x ensures OpenOk(t, x) { assert OpenOk(s, x); }
      forall q | q !in {c.p} ensures Untouched(s, t, q) {
        assert forall i: nat {:trigger (q, i)} :: Private(s.slots, (q, i), k);
      }
    }
  }

  /** Every call keeps all counts exact, loses references only where Lost says,
      and changes nothing of any other process: its slots, its directory, and its open files with their positions. */
  lemma CallEffect(s: Files, c: Call)
    requires FilesInv(s) && Allowed(s, c)
    ensures Effect(s, c, Do(s, c).0)
  {
    match c
    case Open(_, _, _, _, _) => OpenEffect(s, c);
    case Close(_, _) => CloseEffect(s, c);
    case Dup2(_, _, _) => Dup2Effect(s, c);
    case Pipe(_, _, _, _, _, _, _) => PipeEffect(s, c);
    case Chdir(_, _, _) => ChdirEffect(s, c);
    case Fchdir(_, _) => FchdirEffect(s, c);
    case Fork(_, _, _, _, _) => ForkEffect(s, c);
    case Exit(_) => ExitEffect(s, c);
    case Move(_, _, _) => MoveEffect(s, c);
  }

  // ---- runs ----

  /** After boot: only table references, and no process has files. */
  ghost predicate FilesInit(s: Files) {
    && s.opens == map[] && s.slots == map[] && s.cwds == map[] && s.loose == multiset{}
    && forall f {:trigger s.table[f]} :: if f in s.files then s.files[f].refs == s.table[f] > 0 else s.table[f] == 0
  }

  /** Do is defined where the counts agree; RunInv shows that a run never leaves that. */
  ghost predicate Called(s: Files, c: Call, t: Files) {
    FilesInv(s) ==> Allowed(s, c) && t == Do(s, c).0
  }

  ghost predicate FileRun(tr: seq<Files>, cs: seq<Call>) {
    && |tr| == |cs| + 1
    && FilesInit(tr[0])
    && forall i :: 0 <= i < |cs| ==> Called(tr[i], cs[i], tr[i + 1])
  }

  lemma FilesInitInv(s: Files)
    requires FilesInit(s)
    ensures FilesInv(s)
  {
    forall f ensures FileOk(s, f) {
      assert Openers(s.opens, f) == {};
      RefsPositive(s.cwds, f);
    }
    forall o ensures OpenOk(s, o) { RefsPositive(s.slots, o); }
  }

  lemma CalledEffect(s: Files, c: Call, t: Files)
    requires FilesInv(s) && Called(s, c, t)
    ensures FilesInv(t)
    ensures Allowed(s, c) && t.loose == s.loose + Lost(s, c) && t.table == s.table
  {
    CallEffect(s, c);
  }

  lemma {:induction false} RunInv(tr: seq<Files>, cs: seq<Call>, n: nat)
    requires FileRun(tr, cs) && n <= |cs|
    ensures FilesInv(tr[n])
  {
    if n == 0 {
      FilesInitInv(tr[0]);
    } else {
      RunInv(tr, cs, n - 1);
      assert Called(tr[n - 1], cs[n - 1], tr[n]);
      CalledEffect(tr[n - 1], cs[n - 1], tr[n]);
    }
  }

  lemma RunStep(tr: seq<Files>, cs: seq<Call>, n: nat)
    requires FileRun(tr, cs) && 0 < n <= |cs|
    ensures Allowed(tr[n - 1], cs[n - 1])
    ensures tr[n].loose == tr[n - 1].loose + Lost(tr[n - 1], cs[n - 1]) && tr[n].table == tr[n - 1].table
  {
    RunInv(tr, cs, n - 1);
    assert Called(tr[n - 1], cs[n - 1], tr[n]);
    CalledEffect(tr[n - 1], cs[n - 1], tr[n]);
  }

  /** References lost in the first n calls. */
  ghost function LostSoFar(tr: seq<Files>, cs: seq<Call>, n: nat): multiset<FileId>
    requires FileRun(tr, cs) && n <= |cs|
  {
    if n == 0 then multiset{}
    else
      RunStep(tr, cs, n);
      LostSoFar(tr, cs, n - 1) + Lost(tr[n - 1], cs[n - 1])
  }

  lemma {:induction false} RunKeeps(tr: seq<Files>, cs: seq<Call>, n: nat)
    requires FileRun(tr, cs) && n <= |cs|
    ensures tr[n].loose == LostSoFar(tr, cs, n)
    ensures tr[n].table == tr[0].table
  {
    if n > 0 {
      RunKeeps(tr, cs, n - 1);
      RunStep(tr, cs, n);
    }
  }

  /** Over any run: an open file's count is the number of descriptor slots that name it; a file's count is
      the number of open files, working directories and table entries that name it, plus the references lost;
      and nothing that is named has been freed. */
  lemma ReferenceCounts(tr: seq<Files>, cs: seq<Call>, n: nat)
    requires FileRun(tr, cs) && n <= |cs|
    ensures var s := tr[n];
            && (forall o :: o in s.opens ==> s.opens[o].refs == Refs(s.slots, o) > 0)
            && (forall f :: f in s.files ==>
                  s.files[f].refs == OpensOn(s.opens, f) + Refs(s.cwds, f) + tr[0].table[f] + LostSoFar(tr, cs, n)[f])
            && (forall k :: k in s.slots ==> s.slots[k] in s.opens && s.opens[s.slots[k]].file in s.files)
            && (forall p :: p in s.cwds ==> s.cwds[p] in s.files)
            && (forall f :: tr[0].table[f] > 0 ==> f in s.files)
            && (forall j, k :: j in s.slots && k in s.slots && s.slots[j] == s.slots[k] ==> j.0 == k.0)
  {
    RunInv(tr, cs, n);
    RunKeeps(tr, cs, n);
    var s := tr[n];
    forall o | o in s.opens ensures s.opens[o].refs == Refs(s.slots, o) > 0 { assert OpenOk(s, o); }
    forall f | f in s.files || s.table[f] > 0 ensures f in s.files
        && s.files[f].refs == FileRefs(s, f) { assert FileOk(s, f); }
    forall k | k in s.slots ensures s.slots[k] in s.opens && s.opens[s.slots[k]].file in s.files { NothingDangles(s,
        k.0, k.1); }
    forall p | p in s.cwds ensures s.cwds[p] in s.files { NothingDangles(s, p, 0); }
    forall j, k | j in s.slots && k in s.slots && s.slots[j] == s.slots[k]
      ensures j.0 == k.0 { assert Private(s.slots, j, k); }
  }

  /** The child's slot i is a new open file of its own on the file of the parent's slot i; both empty or both filled. */
  ghost predicate SlotCopied(s: Files, t: Files, c: Call, i: nat)
    requires c.Fork?
  {
    && ((c.child, i) in t.slots <==> (c.p, i) in s.slots)
    && ((c.p, i) in s.slots ==>
          && t.slots[(c.child, i)] in t.opens && t.slots[(c.child, i)] !in s.opens
          && s.slots[(c.p, i)] in s.opens
          && t.opens[t.slots[(c.child, i)]].file == s.opens[s.slots[(c.p, i)]].file
          && t.opens[t.slots[(c.child, i)]].refs == 1)
  }

  lemma CloneCopiesSlot(v: Files, u: Files, c: Call, i: nat)
    requires c.Fork? && CloneReady(v, c) && ClonedTo(v, u, c, MAX_OPEN_FILES) && i < MAX_OPEN_FILES
    requires FailPoint(v, c, 0) == MAX_OPEN_FILES
    ensures SlotCopied(v, u, c, i)
  {
    if (c.child, i) in u.slots {
      assert (c.child, i) !in v.slots;
      assert Cloned(v, u, c, i);
    } else {
      assert FailsBefore(v, c, i + 1) || (c.p, i) !in v.slots;
    }
  }

  lemma {:induction false} SameFailPoint(s: Files, v: Files, c: Call, from: nat)
    requires c.Fork? && |c.heaps| == MAX_OPEN_FILES && from <= MAX_OPEN_FILES && s.slots == v.slots
    ensures FailPoint(s, c, from) == FailPoint(v, c, from)
    decreases MAX_OPEN_FILES - from
  {
    if from < MAX_OPEN_FILES {
      SameFailPoint(s, v, c, from + 1);
    }
  }

  lemma SpawnDirs(s: Files, c: Call)
    requires FilesInv(s) && Allowed(s, c) && c.Fork?
    ensures var v := Spawn(s, c);
            (c.p in s.cwds <==> c.child in v.cwds) && (c.p in s.cwds ==> v.cwds[c.child] == s.cwds[c.p])
  {}

  /** Every allocation for a filled slot of the parent succeeds. */
  ghost predicate Works(s: Files, c: Call)
    requires c.Fork? && |c.heaps| == MAX_OPEN_FILES
  {
    forall i: nat :: i < MAX_OPEN_FILES && (c.p, i) in s.slots ==> c.heaps[i]
  }

  lemma ForkSucceeds(s: Files, c: Call)
    requires FilesInv(s) && Allowed(s, c) && c.Fork? && FailPoint(s, c, 0) == MAX_OPEN_FILES
    ensures var (t, r) := Do(s, c);
            && r == c.child && t.live == s.live + {c.child}
            && (c.p in s.cwds <==> c.child in t.cwds) && (c.p in s.cwds ==> t.cwds[c.child] == s.cwds[c.p])
  {
    SpawnOk(s, c);
    SpawnDirs(s, c);
    CloneUpToFrame(Spawn(s, c), c, MAX_OPEN_FILES);
  }

  lemma ForkLeavesNoChild(s: Files, c: Call)
    requires FilesInv(s) && Allowed(s, c) && c.Fork? && FailPoint(s, c, 0) < MAX_OPEN_FILES
    ensures Do(s, c).1 == -1 && Do(s, c).0.live == s.live
  {
    SpawnOk(s, c);
    var u := CloneUpTo(Spawn(s, c), c, MAX_OPEN_FILES);
    assert u.live == s.live + {c.child} by { CloneUpToFrame(Spawn(s, c), c, MAX_OPEN_FILES); }
    DropUpToFrame(u, c.child, FailPoint(s, c, 0));
  }

  lemma ForkCopiesSlots(s: Files, c: Call)
    requires FilesInv(s) && Allowed(s, c) && c.Fork? && FailPoint(s, c, 0) == MAX_OPEN_FILES
    ensures var t := Do(s, c).0;
            forall i: nat {:trigger SlotCopied(s, t, c, i)} :: i < MAX_OPEN_FILES ==> SlotCopied(s, t, c, i)
  {
    SpawnOk(s, c);
    var v := Spawn(s, c);
    var u := CloneUpTo(v, c, MAX_OPEN_FILES);
    SameFailPoint(s, v, c, 0);
    CloneUpToFrame(v, c, MAX_OPEN_FILES);
    assert Do(s, c).0 == u;
    forall i: nat | i < MAX_OPEN_FILES ensures SlotCopied(s, Do(s, c).0, c, i) {
      CloneCopiesSlot(v, u, c, i);
      assert SlotCopied(v, u, c, i);
    }
  }

  /** A fork works exactly when every allocation it needs does. The child then gets, for each of the parent's
      filled slots and no other, an open file of its own on the same file, and the same working directory;
      the parent's are as they were. A fork that fails leaves no child. */
  lemma ForkCopies(s: Files, c: Call)
    requires FilesInv(s) && Allowed(s, c) && c.Fork?
    ensures var (t, r) := Do(s, c);
            && Untouched(s, t, c.p)
            && r == (if Works(s, c) then c.child as int else -1)
            && t.live == (if Works(s, c) then s.live + {c.child} else s.live)
            && (Works(s, c) ==>
                  (c.p in s.cwds <==> c.child in t.cwds) && (c.p in s.cwds ==> t.cwds[c.child] == s.cwds[c.p]))
            && (Works(s, c) ==>
                  forall i: nat {:trigger SlotCopied(s, t, c, i)} :: i < MAX_OPEN_FILES ==> SlotCopied(s, t, c, i))
  {
    assert OthersUntouched(s, Do(s, c).0, {c.child}) by { ForkEffect(s, c); }
    assert Untouched(s, Do(s, c).0, c.p);
    if FailPoint(s, c, 0) == MAX_OPEN_FILES {
      ForkSucceeds(s, c);
      ForkCopiesSlots(s, c);
    } else {
      ForkLeavesNoChild(s, c);
    }
  }
}
