/** file.c's objects updated in place; each method is proved equal to the corresponding call. */
module FileTable {
  import opened Lists
  import opened OpenFiles
  import opened FileCalls
  import opened FileRuns

  class Tables {
    var files: map<FileId, File>
    var opens: map<OpenId, OpenFile>
    var slots: map<(Pid, nat), OpenId>
    var cwds: map<Pid, FileId>
    ghost var live: set<Pid>
    ghost const table: multiset<FileId>
    ghost var loose: multiset<FileId>

    ghost function View(): Files
      reads this
    {
      Files(files, opens, slots, cwds, live, table, loose)
    }

    // ---- reference counts ----

    method FileRef(f: FileId)
      requires f in files
      modifies this`files, this`loose
      ensures View() == Grab(old(View()), f)
    {
      files := files[f := files[f].(refs := files[f].refs + 1)];
      loose := loose + multiset{f};
    }

    method FileUnref(f: FileId)
      requires f in files && files[f].refs > 0
      modifies this`files, this`loose
      ensures View() == Unref(old(View()), f)
    {
      files := files[f := files[f].(refs := files[f].refs - 1)];
      loose := loose - multiset{f};
      if files[f].refs == 0 {
        files := files - {f};
      }
    }

    method FileNew(f: FileId)
      modifies this`files, this`loose
      ensures View() == NewFile(old(View()), f)
    {
      files := files[f := File(1, false)];
      loose := loose + multiset{f};
    }

    method OpenFileRef(o: OpenId)
      requires o in opens
      modifies this`opens
      ensures opens == old(opens)[o := old(opens)[o].(refs := old(opens)[o].refs + 1)]
    {
      opens := opens[o := opens[o].(refs := opens[o].refs + 1)];
    }

    /** file_open_file_unref of the open file in a slot, and the slot cleared. */
    method ClearSlot(p: Pid, fd: nat)
      requires (p, fd) in slots && Droppable(View(), p, fd)
      modifies this`files, this`opens, this`slots, this`loose
      ensures View() == DropSlot(old(View()), p, fd)
    {
      ghost var s := View();
      var o := slots[(p, fd)];
      slots := slots - {(p, fd)};
      var r := opens[o];
      if r.refs == 1 {
        opens := opens - {o};
        loose := loose + multiset{r.file};
        FileUnref(r.file);
      } else {
        opens := opens[o := r.(refs := r.refs - 1)];
      }
      assert View() == DropSlot(s, p, fd);
    }

    method FillSlot(p: Pid, fd: nat, o: OpenId, f: FileId, pos: nat)
      modifies this`opens, this`slots, this`loose
      ensures View() == Install(old(View()), p, fd, o, f, pos)
    {
      opens := opens[o := OpenFile(f, 1, pos)];
      slots := slots[(p, fd) := o];
      loose := loose - multiset{f};
    }

    /** The search for an empty descriptor. */
    method FindSlot(p: Pid, skip: Option<nat>) returns (r: Option<nat>)
      ensures r == FreeSlot(View(), p, 0, skip)
    {
      var fd := 0;
      while fd < MAX_OPEN_FILES
        invariant 0 <= fd <= MAX_OPEN_FILES
        invariant FreeSlot(View(), p, 0, skip) == FreeSlot(View(), p, fd, skip)
      {
        if skip != Some(fd) && (p, fd) !in slots {
          return Some(fd);
        }
        fd := fd + 1;
      }
      return None;
    }

    // ---- system calls ----

    method SysOpen(p: Pid, heap: bool, target: Option<FileId>, accepted: bool, o: OpenId) returns (r: int)
      requires FilesInv(View()) && Allowed(View(), Open(p, heap, target, accepted, o))
      modifies this
      ensures (View(), r) == Do(old(View()), Open(p, heap, target, accepted, o)) && FilesInv(View())
    {
      ghost var s, c := View(), Open(p, heap, target, accepted, o);
      OpenEffect(s, c);
      var fd := FindSlot(p, None);
      if fd == None || !heap || target == None {
        return -1;
      }
      var f := target.value;
      TableHas(s, f);
      FileRef(f);
      if !accepted {
        return -1;
      }
      FillSlot(p, fd.value, o, f, 0);
      return fd.value;
    }

    method SysClose(p: Pid, fd: int) returns (r: int)
      requires FilesInv(View()) && Allowed(View(), Close(p, fd))
      modifies this
      ensures (View(), r) == Do(old(View()), Close(p, fd)) && FilesInv(View())
    {
      CloseEffect(View(), Close(p, fd));
      if fd < 0 || fd >= MAX_OPEN_FILES {
        return -1;
      }
      if (p, fd as nat) !in slots {
        return -1;
      }
      DropSlotOk(View(), p, fd);
      ClearSlot(p, fd);
      return 0;
    }

    method SysDup2(p: Pid, oldfd: int, newfd: int) returns (r: int)
      requires FilesInv(View()) && Allowed(View(), Dup2(p, oldfd, newfd))
      modifies this
      ensures (View(), r) == Do(old(View()), Dup2(p, oldfd, newfd)) && FilesInv(View())
    {
      ghost var s := View();
      Dup2Effect(s, Dup2(p, oldfd, newfd));
      if oldfd < 0 || oldfd >= MAX_OPEN_FILES || newfd < 0 || newfd >= MAX_OPEN_FILES {
        return -1;
      }
      if (p, oldfd as nat) !in slots {
        return -1;
      }
      if oldfd == newfd {
        return newfd;
      }
      DropSlotFrame(s, p, newfd);
      DropSlotOk(s, p, newfd);
      if (p, newfd as nat) in slots {
        ClearSlot(p, newfd);
      }
      ShareOk(View(), p, newfd, slots[(p, oldfd as nat)], oldfd);
      OpenFileRef(slots[(p, oldfd as nat)]);
      slots := slots[(p, newfd as nat) := slots[(p, oldfd as nat)]];
      return newfd;
    }

    /** sys_pipe; an allocation that fails undoes those before it. */
    method SysPipe(p: Pid, valid: bool, mallocs: nat, fr: FileId, fw: FileId, or: OpenId, ow: OpenId) returns (r: int)
      requires FilesInv(View()) && Allowed(View(), Pipe(p, valid, mallocs, fr, fw, or, ow))
      modifies this
      ensures (View(), r) == Do(old(View()), Pipe(p, valid, mallocs, fr, fw, or, ow)) && FilesInv(View())
    {
      PipeEffect(View(), Pipe(p, valid, mallocs, fr, fw, or, ow));
      if !valid {
        return -1;
      }
      var fdRead := FindSlot(p, None);
      if fdRead == None {
        return -1;
      }
      var fdWrite := FindSlot(p, fdRead);
      if fdWrite == None {
        return -1;
      }
      if mallocs < PIPE_MALLOCS - 1 {
        return -1;
      }
      if mallocs == PIPE_MALLOCS - 1 {
        FileFails(fr);
        return -1;
      }
      PipeFills(p, fdRead.value, fdWrite.value, fr, fw, or, ow);
      return 0;
    }

    /** The second file cannot be allocated: file_file_free of the first. */
    method FileFails(f: FileId)
      requires f !in files
      modifies this`files, this`loose
      ensures View() == old(View())
    {
      ghost var s := View();
      FileNew(f);
      files := files - {f};
      loose := loose - multiset{f};
      assert files == s.files && loose == s.loose;
    }

    method PipeFills(p: Pid, r: nat, w: nat, fr: FileId, fw: FileId, or: OpenId, ow: OpenId)
      modifies this`files, this`opens, this`slots, this`loose
      ensures View() == Install(Install(NewFile(NewFile(old(View()), fr), fw), p, r, or, fr, 0), p, w, ow, fw, 0)
    {
      FileNew(fr);
      FileNew(fw);
      FillSlot(p, r, or, fr, 0);
      FillSlot(p, w, ow, fw, 0);
    }

    /** The working directory dropped, as chdir, fchdir and exit do. */
    method ClearDir(p: Pid)
      requires FilesInv(View())
      modifies this`files, this`cwds, this`loose
      ensures FilesInv(View())
      ensures p in old(cwds) ==> old(cwds)[p] in old(files) && old(files)[old(cwds)[p]].refs > 0
      ensures View() == DropDir(old(View()), p)
    {
      DropDirOk(View(), p);
      if p in cwds {
        var f := cwds[p];
        cwds := cwds - {p};
        loose := loose + multiset{f};
        FileUnref(f);
      }
    }

    method SysChdir(p: Pid, target: Option<FileId>, accepted: bool) returns (r: int)
      requires FilesInv(View()) && Allowed(View(), Chdir(p, target, accepted))
      modifies this
      ensures (View(), r) == Do(old(View()), Chdir(p, target, accepted)) && FilesInv(View())
    {
      ghost var s := View();
      ChdirEffect(s, Chdir(p, target, accepted));
      if target == None {
        return -1;
      }
      var f := target.value;
      TableHas(s, f);
      GrabOk(s, f);
      FileRef(f);
      if !accepted {
        return -1;
      }
      if !files[f].directory {
        FileUnref(f);
        return -1;
      }
      ClearDir(p);
      cwds := cwds[p := f];
      loose := loose - multiset{f};
      return 0;
    }

    method SysFchdir(p: Pid, fd: int) returns (r: int)
      requires FilesInv(View()) && Allowed(View(), Fchdir(p, fd))
      modifies this
      ensures (View(), r) == Do(old(View()), Fchdir(p, fd)) && FilesInv(View())
    {
      ghost var s := View();
      FchdirEffect(s, Fchdir(p, fd));
      if fd < 0 || fd >= MAX_OPEN_FILES {
        return -1;
      }
      if (p, fd as nat) !in slots {
        return -1;
      }
      NothingDangles(s, p, fd);
      var f := opens[slots[(p, fd as nat)]].file;
      if !files[f].directory {
        return -1;
      }
      DropDirFrame(s, p);
      ClearDir(p);
      NothingDangles(View(), p, fd);
      FileRef(f);
      cwds := cwds[p := f];
      loose := loose - multiset{f};
      return 0;
    }

    /** One turn of the loop below. */
    method ClearNext(ghost s: Files, p: Pid, i: nat)
      requires FilesInv(s) && FilesInv(View()) && View() == DropUpTo(s, p, i)
      modifies this`files, this`opens, this`slots, this`loose
      ensures FilesInv(View()) && View() == DropUpTo(s, p, i + 1)
    {
      DropSlotOk(View(), p, i);
      if (p, i) in slots {
        ClearSlot(p, i);
      }
    }

    /** Slots 0 to n-1 cleared in order. */
    method ClearSlots(p: Pid, n: nat)
      requires FilesInv(View())
      modifies this`files, this`opens, this`slots, this`loose
      ensures FilesInv(View()) && View() == DropUpTo(old(View()), p, n)
    {
      ghost var s := View();
      var i := 0;
      while i < n
        invariant 0 <= i <= n
        invariant FilesInv(View()) && View() == DropUpTo(s, p, i)
      {
        ClearNext(s, p, i);
        i := i + 1;
      }
    }

    /** The files' part of sys_exit. */
    method ExitFiles(p: Pid)
      requires FilesInv(View()) && Allowed(View(), Exit(p))
      modifies this
      ensures View() == Do(old(View()), Exit(p)).0 && FilesInv(View())
    {
      ExitEffect(View(), Exit(p));
      ClearSlots(p, MAX_OPEN_FILES);
      ClearDir(p);
      live := live - {p};
    }

    /** The copy of one open file. */
    method CloneOne(ghost v: Files, ghost c: Call, p: Pid, child: Pid, i: nat, o: OpenId, pos: nat)
      requires c.Fork? && c.p == p && c.child == child && i < MAX_OPEN_FILES
      requires FilesInv(v) && CloneReady(v, c) && c.heaps[i] && c.ids[i] == o && c.pos[i] == pos
      requires View() == CloneUpTo(v, c, i) && !FailsBefore(v, c, i) && (p, i) in slots
      modifies this`files, this`opens, this`slots, this`loose
      ensures View() == CloneUpTo(v, c, i + 1)
    {
      ghost var u := View();
      CloneUpToFrame(v, c, i);
      assert (p, i) in v.slots && u.slots[(p, i)] == v.slots[(p, i)];
      CloneTurn(v, u, c, i + 1);
      var f := opens[slots[(p, i)]].file;
      FileRef(f);
      FillSlot(child, i, o, f, pos);
      assert View() == CloneSlot(u, c, i, v.slots[(p, i)]);
    }

    /** One turn of process_clone_files' loop: false if the slot is filled and its allocation fails. */
    method CloneTurns(ghost v: Files, ghost c: Call, p: Pid, child: Pid, i: nat, heap: bool, o: OpenId, pos: nat)
      returns (ok: bool)
      requires c.Fork? && c.p == p && c.child == child && i < MAX_OPEN_FILES
      requires FilesInv(v) && CloneReady(v, c) && c.heaps[i] == heap && c.ids[i] == o && c.pos[i] == pos
      requires View() == CloneUpTo(v, c, i) && FailPoint(v, c, 0) == FailPoint(v, c, i)
      modifies this`files, this`opens, this`slots, this`loose
      ensures ok ==> View() == CloneUpTo(v, c, i + 1) && FailPoint(v, c, 0) == FailPoint(v, c, i + 1)
      ensures !ok ==> View() == CloneUpTo(v, c, MAX_OPEN_FILES) && FailPoint(v, c, 0) == i
    {
      CloneLoop(v, c, i);
      if (p, i) in slots {
        if !heap {
          return false;
        }
        CloneOne(v, c, p, child, i, o, pos);
      }
      return true;
    }

    /** process_clone_files' loop: the number of the slot whose allocation failed, or MAX_OPEN_FILES. */
    method CloneFiles(ghost c: Call, p: Pid, child: Pid, heaps: seq<bool>, ids: seq<OpenId>, pos: seq<nat>)
      returns (stop: nat)
      requires FilesInv(View()) && c == Fork(p, child, heaps, ids, pos) && CloneReady(View(), c)
      modifies this`files, this`opens, this`slots, this`loose
      ensures View() == CloneUpTo(old(View()), c, MAX_OPEN_FILES)
      ensures stop == FailPoint(old(View()), c, 0)
    {
      ghost var v := View();
      stop := 0;
      while stop < MAX_OPEN_FILES
        invariant 0 <= stop <= MAX_OPEN_FILES
        invariant View() == CloneUpTo(v, c, stop)
        invariant FailPoint(v, c, 0) == FailPoint(v, c, stop)
      {
        var ok := CloneTurns(v, c, p, child, stop, heaps[stop], ids[stop], pos[stop]);
        if !ok {
          return;
        }
        stop := stop + 1;
      }
    }

    /** sys_fork up to the copy of the files. */
    method SpawnChild(ghost c: Call, p: Pid, ghost child: Pid, childDir: Pid)
      requires FilesInv(View()) && Allowed(View(), c) && c.Fork? && c.p == p && c.child == child == childDir
      modifies this
      ensures View() == Spawn(old(View()), c)
    {
      NothingDangles(View(), p, 0);
      live := live + {child};
      if p in cwds {
        FileRef(cwds[p]);
        cwds := cwds[childDir := cwds[p]];
        loose := loose - multiset{cwds[p]};
      }
    }

    /** The child goes; its working directory reference is left behind. */
    method DestroyChild(child: Pid)
      modifies this
      ensures View() == var l := LeaveDir(old(View()), child); l.(live := l.live - {child})
    {
      if child in cwds {
        loose := loose + multiset{cwds[child]};
        cwds := cwds - {child};
      }
      live := live - {child};
    }

    /** The files' part of sys_fork; the result is the child or -1. */
    method ForkFiles(p: Pid, child: Pid, heaps: seq<bool>, ids: seq<OpenId>, pos: seq<nat>) returns (r: int)
      requires FilesInv(View()) && Allowed(View(), Fork(p, child, heaps, ids, pos))
      modifies this
      ensures (View(), r) == Do(old(View()), Fork(p, child, heaps, ids, pos)) && FilesInv(View())
    {
      ghost var s, c := View(), Fork(p, child, heaps, ids, pos);
      ForkKeeps(s, c);
      SpawnChild(c, p, child, child);
      var stop := CloneFiles(c, p, child, heaps, ids, pos);
      if stop < MAX_OPEN_FILES {
        ClearSlots(child, stop);
        DestroyChild(child);
        return -1;
      }
      return child;
    }

    /** sys_lseek: absolute or relative, on 32-bit positions; SEEK_END and unknown modes fail. */
    method SysLseek(p: Pid, fd: int, offset: int, whence: int) returns (r: int)
      requires FilesInv(View()) && p in live
      modifies this`opens
      ensures FilesInv(View())
      ensures if Filled(old(View()), p, fd) && (whence == 0 || whence == 1) then
                var o := old(slots)[(p, fd as nat)];
                o in old(opens) &&
                var was := old(opens)[o].pos;
                var to := (if whence == 0 then offset else was + offset) % 0x1_0000_0000;
                View() == Do(old(View()), Move(p, fd, to)).0 && r ==
                    (if to < 0x8000_0000 then to else to - 0x1_0000_0000)
              else View() == old(View()) && r == -1
    {
      if fd < 0 || fd >= MAX_OPEN_FILES {
        return -1;
      }
      if (p, fd as nat) !in slots {
        return -1;
      }
      NothingDangles(View(), p, fd);
      var o := slots[(p, fd as nat)];
      if whence != SEEK_SET && whence != SEEK_CUR {
        return -1;
      }
      var to := (if whence == SEEK_SET then offset else opens[o].pos + offset) % 0x1_0000_0000;
      MoveEffect(View(), Move(p, fd, to));
      opens := opens[o := opens[o].(pos := to)];
      r := if to < 0x8000_0000 then to else to - 0x1_0000_0000;
    }
  }

  const SEEK_SET: int := 0
  const SEEK_CUR: int := 1

  lemma ParentSlot(v: Files, u: Files, c: Call, i: nat)
    requires c.Fork? && i <= MAX_OPEN_FILES && CloneReady(v, c) && ClonedTo(v, u, c, i)
    ensures (c.p, i) in u.slots <==> (c.p, i) in v.slots
  {}

  /** Where turn i of the copying loop leads. */
  lemma CloneLoop(v: Files, c: Call, i: nat)
    requires FilesInv(v) && c.Fork? && CloneReady(v, c) && i < MAX_OPEN_FILES
    requires FailPoint(v, c, 0) == FailPoint(v, c, i)
    ensures !FailsBefore(v, c, i)
    ensures (c.p, i) in CloneUpTo(v, c, i).slots <==> (c.p, i) in v.slots
    ensures (c.p, i) !in v.slots ==> CloneUpTo(v, c, i + 1) == CloneUpTo(v, c, i)
    ensures (c.p, i) !in v.slots || c.heaps[i] ==>
              FailPoint(v, c, 0) == FailPoint(v, c, i + 1) && !FailsBefore(v, c, i + 1)
    ensures (c.p, i) in v.slots && !c.heaps[i] ==>
              FailPoint(v, c, 0) == i && CloneUpTo(v, c, MAX_OPEN_FILES) == CloneUpTo(v, c, i)
  {
    CloneUpToFrame(v, c, i);
    ParentSlot(v, CloneUpTo(v, c, i), c, i);
    if (c.p, i) in v.slots && !c.heaps[i] {
      StuckAfter(v, c, i, MAX_OPEN_FILES);
    }
  }

  lemma ForkKeeps(s: Files, c: Call)
    requires FilesInv(s) && Allowed(s, c) && c.Fork?
    ensures FilesInv(Do(s, c).0)
    ensures FilesInv(Spawn(s, c)) && CloneReady(Spawn(s, c), c)
    ensures FailPoint(Spawn(s, c), c, 0) == FailPoint(s, c, 0)
  {
    ForkEffect(s, c);
    SpawnOk(s, c);
    SameFailPoint(s, Spawn(s, c), c, 0);
  }
}
