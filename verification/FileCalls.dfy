/** The system calls that open, share and close files, as functions on the state of all open files,
    and what each keeps: the copying loop of fork and the closing loop of exit are recursive functions
    whose frames say which slots and objects they touch. */
module FileCalls {
  import opened Lists
  import opened OpenFiles

  /** Whatever heap and lookup decide is a parameter: `heap` and `heaps` say which allocations succeed,
      `target` is what the filesystem's table finds, `accepted` whether its open operation succeeds. */
  datatype Call =
    | Open(p: Pid, heap: bool, target: Option<FileId>, accepted: bool, o: OpenId)
    | Close(p: Pid, fd: int)
    | Dup2(p: Pid, oldfd: int, newfd: int)
    | Pipe(p: Pid, valid: bool, mallocs: nat, fr: FileId, fw: FileId, or: OpenId, ow: OpenId)
    | Chdir(p: Pid, target: Option<FileId>, accepted: bool)
    | Fchdir(p: Pid, fd: int)
    | Fork(p: Pid, child: Pid, heaps: seq<bool>, ids: seq<OpenId>, pos: seq<nat>)
    | Exit(p: Pid)
    | Move(p: Pid, fd: int, to: nat)     // lseek and every transfer: the position changes

  /** Allocations of one sys_pipe. */
  const PIPE_MALLOCS: nat := 6

  /** Caller exists, and new objects get unused addresses. */
  predicate Allowed(s: Files, c: Call) {
    c.p in s.live &&
    match c
    case Open(_, _, target, _, o) => o !in s.opens && (target.Some? ==> target.value in s.table)
    case Pipe(_, _, _, fr, fw, or, ow) =>
      fr !in s.files && fw !in s.files && fr != fw && or !in s.opens && ow !in s.opens && or != ow
    case Chdir(_, target, _) => target.Some? ==> target.value in s.table
    case Fork(_, child, heaps, ids, pos) =>
      && child !in s.live && |heaps| == |ids| == |pos| == MAX_OPEN_FILES
      && (forall i :: 0 <= i < |ids| ==> ids[i] !in s.opens)
      && (forall i, j :: 0 <= i < j < |ids| ==> ids[i] != ids[j])
    case _ => true
  }

  /** The lowest empty slot at or above `from`, other than `skip`. */
  function FreeSlot(s: Files, p: Pid, from: nat, skip: Option<nat>): (r: Option<nat>)
    requires from <= MAX_OPEN_FILES
    ensures r.Some? ==> from <= r.value < MAX_OPEN_FILES && (p, r.value) !in s.slots && Some(r.value) != skip
    ensures forall i :: from <= i < (if r.Some? then r.value else MAX_OPEN_FILES) && Some(i) != skip ==>
            (p, i) in s.slots
    decreases MAX_OPEN_FILES - from
  {
    if from == MAX_OPEN_FILES then None
    else if (p, from) !in s.slots && Some(from) != skip then Some(from)
    else FreeSlot(s, p, from + 1, skip)
  }

  predicate Filled(s: Files, p: Pid, fd: int) {
    0 <= fd < MAX_OPEN_FILES && (p, fd as nat) in s.slots
  }

  /** Process q's slots, and the open files behind them, are as they were. */
  ghost predicate Untouched(s: Files, t: Files, q: Pid) {
    && (q in s.live ==> q in t.live)
    && (q in s.cwds <==> q in t.cwds) && (q in s.cwds ==> t.cwds[q] == s.cwds[q])
    && forall fd: nat :: ((q, fd) in s.slots <==> (q, fd) in t.slots)
         && ((q, fd) in s.slots && s.slots[(q, fd)] in s.opens ==>
               && t.slots[(q, fd)] == s.slots[(q, fd)] && s.slots[(q, fd)] in t.opens
               && t.opens[s.slots[(q, fd)]] == s.opens[s.slots[(q, fd)]])
  }

  ghost predicate OthersUntouched(s: Files, t: Files, ps: set<Pid>) {
    forall q {:trigger Untouched(s, t, q)} :: q !in ps ==> Untouched(s, t, q)
  }

  lemma UntouchedTrans(s: Files, t: Files, u: Files, ps: set<Pid>)
    requires OthersUntouched(s, t, ps) && OthersUntouched(t, u, ps)
    ensures OthersUntouched(s, u, ps)
  {
    forall q | q !in ps ensures Untouched(s, u, q) {
      assert Untouched(s, t, q) && Untouched(t, u, q);
    }
  }

  lemma DropSlotFrame(s: Files, p: Pid, fd: nat)
    requires FilesInv(s)
    ensures Droppable(s, p, fd)
    ensures var t := DropSlot(s, p, fd);
            && t.slots == s.slots - {(p, fd)} && t.cwds == s.cwds && t.live == s.live
            && t.table == s.table && t.loose == s.loose
            && t.opens.Keys <= s.opens.Keys && OthersUntouched(s, t, {p})
  {
    DropSlotOk(s, p, fd);
    if (p, fd) in s.slots && s.opens[s.slots[(p, fd)]].refs == 1 {
      var f := s.opens[s.slots[(p, fd)]].file;
      assert s.loose + multiset{f} - multiset{f} == s.loose;
    }
    assert (p, fd) !in s.slots ==> s.slots - {(p, fd)} == s.slots;
    var t := DropSlot(s, p, fd);
    forall q | q !in {p} ensures Untouched(s, t, q) {
      assert forall i: nat {:trigger (q, i)} :: Private(s.slots, (q, i), (p, fd));
    }
  }

  ghost function DropNext(s: Files, p: Pid, fd: nat): (t: Files)
    requires FilesInv(s)
    ensures Droppable(s, p, fd) && t == DropSlot(s, p, fd) && FilesInv(t)
  {
    DropSlotOk(s, p, fd);
    DropSlot(s, p, fd)
  }

  /** Slots 0 to n-1 dropped in order, as sys_exit and a failed fork do. */
  ghost function DropUpTo(s: Files, p: Pid, n: nat): (t: Files)
    requires FilesInv(s)
    ensures FilesInv(t)
  {
    if n == 0 then s
    else
      DropNext(DropUpTo(s, p, n - 1), p, n - 1)
  }

  /** What dropping the slots of p leaves alone. */
  ghost predicate Dropped(s: Files, t: Files, p: Pid, n: nat) {
    && t.cwds == s.cwds && t.live == s.live && t.table == s.table && t.loose == s.loose
    && t.opens.Keys <= s.opens.Keys
    && forall k :: k in t.slots <==> k in s.slots && !(k.0 == p && k.1 < n)
  }

  lemma DroppedOneMore(s: Files, u: Files, t: Files, p: Pid, n: nat)
    requires n > 0 && Dropped(s, u, p, n - 1) && t.slots == u.slots - {(p, n - 1)}
    requires t.cwds == u.cwds && t.live == u.live && t.table == u.table && t.loose == u.loose
             && t.opens.Keys <= u.opens.Keys
    ensures Dropped(s, t, p, n)
  {}

  lemma {:induction false} DropUpToFrame(s: Files, p: Pid, n: nat)
    requires FilesInv(s)
    ensures Dropped(s, DropUpTo(s, p, n), p, n) && OthersUntouched(s, DropUpTo(s, p, n), {p})
  {
    if n > 0 {
      DropUpToFrame(s, p, n - 1);
      DropOneFrame(s, DropUpTo(s, p, n - 1), p, n);
    }
  }

  lemma DropOneFrame(s: Files, u: Files, p: Pid, n: nat)
    requires FilesInv(u) && n > 0 && Dropped(s, u, p, n - 1) && OthersUntouched(s, u, {p})
    ensures Droppable(u, p, n - 1)
    ensures var t := DropSlot(u, p, n - 1); Dropped(s, t, p, n) && OthersUntouched(s, t, {p})
  {
    DropSlotFrame(u, p, n - 1);
    var t := DropSlot(u, p, n - 1);
    DroppedOneMore(s, u, t, p, n);
    UntouchedTrans(s, u, t, {p});
  }

  /** A new reference to f that ends in the slot of a new open file. */
  function Attach(s: Files, p: Pid, fd: nat, o: OpenId, f: FileId, pos: nat): Files
    requires f in s.files
  {
    Install(Grab(s, f), p, fd, o, f, pos)
  }

  lemma AttachOk(s: Files, p: Pid, fd: nat, o: OpenId, f: FileId, pos: nat)
    requires FilesInv(s) && f in s.files && o !in s.opens && (p, fd) !in s.slots && p in s.live && fd < MAX_OPEN_FILES
    ensures var t := Attach(s, p, fd, o, f, pos);
            FilesInv(t) && t.loose == s.loose && t.files.Keys == s.files.Keys && OthersUntouched(s, t, {p})
  {
    GrabOk(s, f);
    InstallOk(Grab(s, f), p, fd, o, f, pos);
    assert s.loose + multiset{f} - multiset{f} == s.loose;
  }

  // ---- fork ----

  /** One turn of process_clone_files' loop that copies an open file. */
  function CloneSlot(s: Files, c: Call, i: nat, o: OpenId): Files
    requires c.Fork? && i < |c.ids| == |c.pos| && OpenHasFileIn(s, o)
  {
    Attach(s, c.child, i, c.ids[i], s.opens[o].file, c.pos[i])
  }

  /** The state after n turns of the loop; it stops changing at the first allocation that fails. */
  ghost function CloneUpTo(s: Files, c: Call, n: nat): (t: Files)
    requires FilesInv(s) && c.Fork? && n <= MAX_OPEN_FILES && CloneReady(s, c)
    ensures FilesInv(t)
    decreases n, 0
  {
    if n == 0 then s
    else
      var u := CloneUpTo(s, c, n - 1);
      if FailsBefore(s, c, n) || (c.p, n - 1) !in s.slots then u
      else
        CloneUpToFrame(s, c, n - 1);
        CloneTurn(s, u, c, n);
        CloneSlot(u, c, n - 1, s.slots[(c.p, n - 1)])
  }

  lemma {:induction false} CloneUpToFrame(s: Files, c: Call, n: nat)
    requires FilesInv(s) && c.Fork? && n <= MAX_OPEN_FILES && CloneReady(s, c)
    ensures ClonedTo(s, CloneUpTo(s, c, n), c, n)
    decreases n, 2
  {
    if n == 0 {
      NoTurnsYet(s, c);
    } else {
      CloneUpToFrame(s, c, n - 1);
      FrameOn(s, c, n);
    }
  }

  lemma {:induction false} FrameOn(s: Files, c: Call, n: nat)
    requires FilesInv(s) && c.Fork? && 0 < n <= MAX_OPEN_FILES && CloneReady(s, c)
    ensures ClonedTo(s, CloneUpTo(s, c, n - 1), c, n - 1) ==> ClonedTo(s, CloneUpTo(s, c, n), c, n)
    decreases n, 1, 2
  {
    if FailsBefore(s, c, n) || (c.p, n - 1) !in s.slots {
      FrameStays(s, c, n);
    } else {
      FrameGoes(s, c, n);
    }
  }

  lemma {:induction false} FrameStays(s: Files, c: Call, n: nat)
    requires FilesInv(s) && c.Fork? && 0 < n <= MAX_OPEN_FILES && CloneReady(s, c)
    requires FailsBefore(s, c, n) || (c.p, n - 1) !in s.slots
    ensures ClonedTo(s, CloneUpTo(s, c, n - 1), c, n - 1) ==> ClonedTo(s, CloneUpTo(s, c, n), c, n)
    decreases n, 1, 1
  {
    NoTurn(s, CloneUpTo(s, c, n - 1), c, n);
    CloneStays(s, c, n);
  }

  lemma {:induction false} FrameGoes(s: Files, c: Call, n: nat)
    requires FilesInv(s) && c.Fork? && 0 < n <= MAX_OPEN_FILES && CloneReady(s, c)
    requires !FailsBefore(s, c, n) && (c.p, n - 1) in s.slots
    ensures ClonedTo(s, CloneUpTo(s, c, n - 1), c, n - 1) ==> ClonedTo(s, CloneUpTo(s, c, n), c, n)
    decreases n, 1, 1
  {
    if ClonedTo(s, CloneUpTo(s, c, n - 1), c, n - 1) {
      OneTurn(s, CloneUpTo(s, c, n - 1), c, n);
      CloneGoes(s, c, n);
    }
  }

  lemma NoTurnsYet(s: Files, c: Call)
    requires FilesInv(s) && c.Fork? && CloneReady(s, c)
    ensures ClonedTo(s, CloneUpTo(s, c, 0), c, 0)
    decreases 0, 1
  {}

  lemma {:induction false} CloneStays(s: Files, c: Call, n: nat)
    requires FilesInv(s) && c.Fork? && 0 < n <= MAX_OPEN_FILES && CloneReady(s, c)
    requires FailsBefore(s, c, n) || (c.p, n - 1) !in s.slots
    ensures CloneUpTo(s, c, n) == CloneUpTo(s, c, n - 1)
    decreases n, 1, 0
  {}

  lemma {:induction false} CloneGoes(s: Files, c: Call, n: nat)
    requires FilesInv(s) && c.Fork? && 0 < n <= MAX_OPEN_FILES && CloneReady(s, c)
    requires !FailsBefore(s, c, n) && (c.p, n - 1) in s.slots
    requires OpenHasFileIn(CloneUpTo(s, c, n - 1), s.slots[(c.p, n - 1)])
    ensures CloneUpTo(s, c, n) == CloneSlot(CloneUpTo(s, c, n - 1), c, n - 1, s.slots[(c.p, n - 1)])
    decreases n, 1, 0
  {}

  lemma NoTurn(s: Files, u: Files, c: Call, n: nat)
    requires c.Fork? && 0 < n <= MAX_OPEN_FILES && CloneReady(s, c)
    ensures ClonedTo(s, u, c, n - 1) && (FailsBefore(s, c, n) || (c.p, n - 1) !in s.slots) ==> ClonedTo(s, u, c, n)
  {}

  lemma OneTurn(s: Files, u: Files, c: Call, n: nat)
    requires FilesInv(s) && FilesInv(u) && c.Fork? && 0 < n <= MAX_OPEN_FILES && CloneReady(s, c)
    requires !FailsBefore(s, c, n) && (c.p, n - 1) in s.slots
    ensures ClonedTo(s, u, c, n - 1) ==> OpenHasFileIn(u, s.slots[(c.p, n - 1)])
    ensures ClonedTo(s, u, c, n - 1) ==> ClonedTo(s, CloneSlot(u, c, n - 1, s.slots[(c.p, n - 1)]), c, n)
  {
    if ClonedTo(s, u, c, n - 1) {
      CloneTurn(s, u, c, n);
    }
  }

  /** What the first n turns have done to the child's slots, and that they touched no other. */
  ghost predicate ClonedTo(s: Files, t: Files, c: Call, n: nat)
    requires c.Fork? && n <= MAX_OPEN_FILES && CloneReady(s, c)
  {
    && t.live == s.live && t.cwds == s.cwds && t.table == s.table && t.loose == s.loose && t.files.Keys == s.files.Keys
    && (forall k :: k in s.slots ==> k in t.slots && t.slots[k] == s.slots[k])
    && (forall k :: k in t.slots && k !in s.slots ==> k.0 == c.child && k.1 < n && Cloned(s, t, c, k.1))
    && (forall i: nat :: i < n && (c.p, i) in s.slots && !FailsBefore(s, c, i + 1) ==> (c.child, i) in t.slots)
    && (forall o :: o in s.opens ==> o in t.opens && t.opens[o] == s.opens[o])
    && (forall i: nat :: n <= i < MAX_OPEN_FILES ==> c.ids[i] !in t.opens)
  }

  /** The child's slot i holds a copy of its own of the parent's open file. */
  ghost predicate Cloned(s: Files, t: Files, c: Call, i: nat)
    requires c.Fork? && CloneReady(s, c)
  {
    && i < MAX_OPEN_FILES && (c.p, i) in s.slots && s.slots[(c.p, i)] in s.opens
    && (c.child, i) in t.slots && t.slots[(c.child, i)] == c.ids[i]
    && c.ids[i] in t.opens && t.opens[c.ids[i]] == OpenFile(s.opens[s.slots[(c.p, i)]].file, 1, c.pos[i])
  }

  lemma CloneTurn(s: Files, u: Files, c: Call, n: nat)
    requires FilesInv(s) && FilesInv(u) && c.Fork? && 0 < n <= MAX_OPEN_FILES && CloneReady(s, c)
    requires ClonedTo(s, u, c, n - 1) && !FailsBefore(s, c, n) && (c.p, n - 1) in s.slots
    ensures OpenHasFileIn(u, s.slots[(c.p, n - 1)])
    ensures var t := CloneSlot(u, c, n - 1, s.slots[(c.p, n - 1)]); FilesInv(t) && ClonedTo(s, t, c, n)
  {
    var o := s.slots[(c.p, n - 1)];
    NothingDangles(s, c.p, n - 1);
    OpenHasFile(u, o);
    assert (c.child, n - 1) !in u.slots;
    AttachOk(u, c.child, n - 1, c.ids[n - 1], u.opens[o].file, c.pos[n - 1]);
    CloneTurnFrame(s, u, c, n);
  }

  lemma CloneTurnFrame(s: Files, u: Files, c: Call, n: nat)
    requires c.Fork? && 0 < n <= MAX_OPEN_FILES && CloneReady(s, c)
    requires ClonedTo(s, u, c, n - 1) && (c.p, n - 1) in s.slots && OpenHasFileIn(s, s.slots[(c.p, n - 1)])
    requires OpenHasFileIn(u, s.slots[(c.p, n - 1)])
    ensures ClonedTo(s, CloneSlot(u, c, n - 1, s.slots[(c.p, n - 1)]), c, n)
  {
    var o := s.slots[(c.p, n - 1)];
    var f := u.opens[o].file;
    var t := CloneSlot(u, c, n - 1, o);
    assert u.loose + multiset{f} - multiset{f} == u.loose;
    forall k | k in t.slots && k !in s.slots ensures k.0 == c.child && k.1 < n && Cloned(s, t, c, k.1) {
      if k != (c.child, n - 1) {
        assert Cloned(s, u, c, k.1);
      }
    }
  }

  ghost predicate OpenHasFileIn(s: Files, o: OpenId) {
    o in s.opens && s.opens[o].file in s.files
  }

  ghost predicate CloneReady(s: Files, c: Call)
    requires c.Fork?
  {
    && c.p in s.live && c.child in s.live && c.p != c.child
    && |c.heaps| == |c.ids| == |c.pos| == MAX_OPEN_FILES
    && (forall i :: 0 <= i < |c.ids| ==> c.ids[i] !in s.opens)
    && (forall i, j :: 0 <= i < j < |c.ids| ==> c.ids[i] != c.ids[j])
    && forall i: nat :: (c.child, i) !in s.slots
  }

  /** An allocation for one of slots 0 to n-1 fails. */
  predicate FailsBefore(s: Files, c: Call, n: nat)
    requires c.Fork? && |c.heaps| == MAX_OPEN_FILES
  {
    exists i: nat :: i < n && i < MAX_OPEN_FILES && (c.p, i) in s.slots && !c.heaps[i]
  }

  // ---- the calls ----

  /** sys_open. A file whose open operation fails is never released. */
  ghost function DoOpen(s: Files, c: Call): (Files, int)
    requires FilesInv(s) && Allowed(s, c) && c.Open?
  {
    match (FreeSlot(s, c.p, 0, None), c.target)
    case (Some(fd), Some(f)) =>
      TableHas(s, f);
      if !c.heap then (s, -1)
      else if !c.accepted then (Grab(s, f), -1)
      else (Attach(s, c.p, fd, c.o, f, 0), fd as int)
    case _ => (s, -1)
  }

  ghost function DoClose(s: Files, c: Call): (Files, int)
    requires FilesInv(s) && c.Close?
  {
    if !Filled(s, c.p, c.fd) then (s, -1)
    else
      DropSlotOk(s, c.p, c.fd);
      (DropSlot(s, c.p, c.fd), 0)
  }

  /** sys_dup2: a filled target is closed first, except that a slot duplicates onto itself for free. */
  ghost function DoDup2(s: Files, c: Call): (Files, int)
    requires FilesInv(s) && c.Dup2?
  {
    if !(0 <= c.newfd < MAX_OPEN_FILES) || !Filled(s, c.p, c.oldfd) then (s, -1)
    else if c.oldfd == c.newfd then (s, c.newfd)
    else
      DropSlotOk(s, c.p, c.newfd);
      DropSlotFrame(s, c.p, c.newfd);
      var u := DropSlot(s, c.p, c.newfd);
      ShareOk(u, c.p, c.newfd, u.slots[(c.p, c.oldfd)], c.oldfd);
      (Share(u, c.p, c.newfd, u.slots[(c.p, c.oldfd)]), c.newfd)
  }

  /** sys_pipe: two new files, each with an open file of its own. */
  function DoPipe(s: Files, c: Call): (Files, int)
    requires c.Pipe?
  {
    match FreeSlot(s, c.p, 0, None)
    case None => (s, -1)
    case Some(r) =>
      match FreeSlot(s, c.p, 0, Some(r))
      case None => (s, -1)
      case Some(w) =>
        if !c.valid || c.mallocs < PIPE_MALLOCS then (s, -1)
        else (Install(Install(NewFile(NewFile(s, c.fr), c.fw), c.p, r, c.or, c.fr, 0), c.p, w, c.ow, c.fw, 0), 0)
  }

  /** sys_chdir. */
  ghost function DoChdir(s: Files, c: Call): (Files, int)
    requires FilesInv(s) && Allowed(s, c) && c.Chdir?
  {
    match c.target
    case None => (s, -1)
    case Some(f) =>
      TableHas(s, f);
      GrabOk(s, f);
      var u := Grab(s, f);
      if !c.accepted then (u, -1)
      else if !s.files[f].directory then (Unref(u, f), -1)
      else
        DropDirOk(u, c.p);
        (EnterDir(DropDir(u, c.p), c.p, f), 0)
  }

  /** sys_fchdir drops the old directory before it takes a reference to the new one;
      the descriptor keeps the file alive in between even if both are the same. */
  ghost function DoFchdir(s: Files, c: Call): (Files, int)
    requires FilesInv(s) && c.Fchdir?
  {
    if !Filled(s, c.p, c.fd) then (s, -1)
    else
      NothingDangles(s, c.p, c.fd);
      var f := s.opens[s.slots[(c.p, c.fd)]].file;
      if !s.files[f].directory then (s, -1)
      else
        DropDirOk(s, c.p);
        DropDirFrame(s, c.p);
        NothingDangles(DropDir(s, c.p), c.p, c.fd);
        (EnterDir(Grab(DropDir(s, c.p), f), c.p, f), 0)
  }

  /** The child appears with the parent's working directory and no open files. */
  ghost function Spawn(s: Files, c: Call): Files
    requires FilesInv(s) && c.Fork?
  {
    var u := s.(live := s.live + {c.child});
    NothingDangles(s, c.p, 0);
    if c.p in s.cwds then EnterDir(Grab(u, s.cwds[c.p]), c.child, s.cwds[c.p]) else u
  }

  /** The first slot whose allocation fails. */
  function FailPoint(s: Files, c: Call, from: nat): (r: nat)
    requires c.Fork? && |c.heaps| == MAX_OPEN_FILES && from <= MAX_OPEN_FILES
    ensures from <= r <= MAX_OPEN_FILES
    ensures forall i: nat :: from <= i < r && (c.p, i) in s.slots ==> c.heaps[i]
    ensures r < MAX_OPEN_FILES ==> (c.p, r) in s.slots && !c.heaps[r]
    decreases MAX_OPEN_FILES - from
  {
    if from == MAX_OPEN_FILES || ((c.p, from) in s.slots && !c.heaps[from]) then from
    else FailPoint(s, c, from + 1)
  }

  /** The files' part of sys_fork. If a copy fails, those made are freed and the child is destroyed,
      but the child's reference to the working directory is not dropped. */
  ghost function DoFork(s: Files, c: Call): (Files, int)
    requires FilesInv(s) && Allowed(s, c) && c.Fork?
  {
    SpawnOk(s, c);
    var u := CloneUpTo(Spawn(s, c), c, MAX_OPEN_FILES);
    var stop := FailPoint(s, c, 0);
    if stop == MAX_OPEN_FILES then (u, c.child as int)
    else
      var d := LeaveDir(DropUpTo(u, c.child, stop), c.child);
      (d.(live := d.live - {c.child}), -1)
  }

  ghost function DoExit(s: Files, c: Call): (Files, int)
    requires FilesInv(s) && c.Exit?
  {
    var u := DropUpTo(s, c.p, MAX_OPEN_FILES);
    DropDirOk(u, c.p);
    var d := DropDir(u, c.p);
    (d.(live := d.live - {c.p}), 0)
  }

  ghost function DoMove(s: Files, c: Call): (Files, int)
    requires FilesInv(s) && c.Move?
  {
    if !Filled(s, c.p, c.fd) then (s, -1)
    else
      NothingDangles(s, c.p, c.fd);
      var o := s.slots[(c.p, c.fd as nat)];
      (s.(opens := s.opens[o := s.opens[o].(pos := c.to)]), 0)
  }

  ghost function Do(s: Files, c: Call): (Files, int)
    requires FilesInv(s) && Allowed(s, c)
  {
    match c
    case Open(_, _, _, _, _) => DoOpen(s, c)
    case Close(_, _) => DoClose(s, c)
    case Dup2(_, _, _) => DoDup2(s, c)
    case Pipe(_, _, _, _, _, _, _) => DoPipe(s, c)
    case Chdir(_, _, _) => DoChdir(s, c)
    case Fchdir(_, _) => DoFchdir(s, c)
    case Fork(_, _, _, _, _) => DoFork(s, c)
    case Exit(_) => DoExit(s, c)
    case Move(_, _, _) => DoMove(s, c)
  }

  lemma TableHas(s: Files, f: FileId)
    requires FilesInv(s) && f in s.table
    ensures f in s.files
  {
    assert FileOk(s, f);
  }

  lemma DropDirFrame(s: Files, p: Pid)
    requires FilesInv(s)
    ensures p in s.cwds ==> s.cwds[p] in s.files && s.files[s.cwds[p]].refs > 0
    ensures var t := DropDir(s, p);
            && t.opens == s.opens && t.slots == s.slots && t.live == s.live && t.table == s.table && t.loose == s.loose
            && t.cwds == s.cwds - {p}
  {
    NothingDangles(s, p, 0);
    if p in s.cwds {
      assert s.loose + multiset{s.cwds[p]} - multiset{s.cwds[p]} == s.loose;
    } else {
      assert s.cwds - {p} == s.cwds;
    }
  }

  lemma LiveGrows(s: Files, child: Pid)
    requires FilesInv(s)
    ensures FilesInv(s.(live := s.live + {child}))
  {
    var u := s.(live := s.live + {child});
    forall f ensures FileOk(u, f) { assert FileOk(s, f); }
    forall o ensures OpenOk(u, o) { assert OpenOk(s, o); }
  }

  lemma SpawnOk(s: Files, c: Call)
    requires FilesInv(s) && Allowed(s, c) && c.Fork?
    ensures var t := Spawn(s, c);
            && FilesInv(t) && CloneReady(t, c) && t.slots == s.slots && t.opens == s.opens
            && t.loose == s.loose && t.table == s.table && t.live == s.live + {c.child}
            && OthersUntouched(s, t, {c.child})
  {
    var u := s.(live := s.live + {c.child});
    LiveGrows(s, c.child);
    NothingDangles(s, c.p, 0);
    if c.p in s.cwds {
      var f := s.cwds[c.p];
      GrabOk(u, f);
      EnterDirOk(Grab(u, f), c.child, f);
      assert s.loose + multiset{f} - multiset{f} == s.loose;
    }
  }
}
