/** Open files and their reference counts: a process's descriptor slots refer to open files,
    open files and working directories refer to files. */
module OpenFiles {
  import opened Counting

  type Pid = nat
  type FileId = nat
  type OpenId = nat

  const MAX_OPEN_FILES: nat := 8

  datatype File = File(refs: nat, directory: bool)
  datatype OpenFile = OpenFile(file: FileId, refs: nat, pos: nat)

  /** `table` counts the references that filesystem tables and backing pointers hold for good.
      `loose` is history: references held by no slot, directory or table, in hand or lost. */
  datatype Files = Files(files: map<FileId, File>, opens: map<OpenId, OpenFile>, slots: map<(Pid, nat), OpenId>,
                         cwds: map<Pid, FileId>, live: set<Pid>, table: multiset<FileId>, loose: multiset<FileId>)

  // ---- reference operations ----

  /** file_file_ref on a file just looked up. */
  function Grab(s: Files, f: FileId): Files
    requires f in s.files
  {
    s.(files := s.files[f := s.files[f].(refs := s.files[f].refs + 1)], loose := s.loose + multiset{f})
  }

  /** file_file_new. */
  function NewFile(s: Files, f: FileId): Files {
    s.(files := s.files[f := File(1, false)], loose := s.loose + multiset{f})
  }

  /** file_file_unref: the last one frees the file. */
  function Unref(s: Files, f: FileId): Files
    requires f in s.files && s.files[f].refs > 0
  {
    s.(files := if s.files[f].refs == 1 then s.files - {f} else s.files[f := s.files[f].(refs := s.files[f].refs - 1)],
       loose := s.loose - multiset{f})
  }

  /** A new open file with one reference takes over a file reference and fills a slot. */
  function Install(s: Files, p: Pid, fd: nat, o: OpenId, f: FileId, pos: nat): Files {
    s.(opens := s.opens[o := OpenFile(f, 1, pos)], slots := s.slots[(p, fd) := o], loose := s.loose - multiset{f})
  }

  /** The working directory takes over a file reference. */
  function EnterDir(s: Files, p: Pid, f: FileId): Files {
    s.(cwds := s.cwds[p := f], loose := s.loose - multiset{f})
  }

  /** The working directory's reference is left in nobody's hands. */
  function LeaveDir(s: Files, p: Pid): Files {
    if p in s.cwds then s.(cwds := s.cwds - {p}, loose := s.loose + multiset{s.cwds[p]}) else s
  }

  /** file_file_unref of the working directory. */
  function DropDir(s: Files, p: Pid): Files
    requires p in s.cwds ==> s.cwds[p] in s.files && s.files[s.cwds[p]].refs > 0
  {
    if p in s.cwds then Unref(LeaveDir(s, p), s.cwds[p]) else s
  }

  /** file_open_file_ref, and a second slot of the same process. */
  function Share(s: Files, p: Pid, fd: nat, o: OpenId): Files
    requires o in s.opens
  {
    s.(opens := s.opens[o := s.opens[o].(refs := s.opens[o].refs + 1)], slots := s.slots[(p, fd) := o])
  }

  predicate Droppable(s: Files, p: Pid, fd: nat) {
    (p, fd) in s.slots ==>
      var o := s.slots[(p, fd)];
      o in s.opens && s.opens[o].refs > 0 && s.opens[o].file in s.files && s.files[s.opens[o].file].refs > 0
  }

  /** file_open_file_unref of a slot's open file, and the slot emptied. */
  function DropSlot(s: Files, p: Pid, fd: nat): Files
    requires Droppable(s, p, fd)
  {
    if (p, fd) !in s.slots then s
    else
      var o := s.slots[(p, fd)];
      var r := s.opens[o];
      if r.refs > 1 then s.(slots := s.slots - {(p, fd)}, opens := s.opens[o := r.(refs := r.refs - 1)])
      else Unref(s.(slots := s.slots - {(p, fd)}, opens := s.opens - {o}, loose := s.loose + multiset{r.file}), r.file)
  }

  // ---- the invariant ----

  ghost function Openers(opens: map<OpenId, OpenFile>, f: FileId): set<OpenId> {
    set o | o in opens && opens[o].file == f
  }

  ghost function OpensOn(opens: map<OpenId, OpenFile>, f: FileId): nat {
    |Openers(opens, f)|
  }

  /** Everything that refers to a file. */
  ghost function FileRefs(s: Files, f: FileId): nat {
    OpensOn(s.opens, f) + Refs(s.cwds, f) + s.table[f] + s.loose[f]
  }

  ghost predicate FileOk(s: Files, f: FileId) {
    if f in s.files then s.files[f].refs == FileRefs(s, f) > 0 else FileRefs(s, f) == 0
  }

  ghost predicate OpenOk(s: Files, o: OpenId) {
    if o in s.opens then s.opens[o].refs == Refs(s.slots, o) > 0 else Refs(s.slots, o) == 0
  }

  /** Two slots that name one open file belong to one process. */
  ghost predicate Private(slots: map<(Pid, nat), OpenId>, j: (Pid, nat), k: (Pid, nat)) {
    j in slots && k in slots && slots[j] == slots[k] ==> j.0 == k.0
  }

  ghost predicate SlotsOk(s: Files) {
    && (forall k :: k in s.slots ==> k.0 in s.live && k.1 < MAX_OPEN_FILES)
    && (forall j, k {:trigger Private(s.slots, j, k)} :: Private(s.slots, j, k))
    && s.cwds.Keys <= s.live
  }

  /** Each count is the number of references there are, and a thing exists exactly while it is referred to. */
  ghost predicate FilesInv(s: Files) {
    && (forall f {:trigger FileOk(s, f)} :: FileOk(s, f))
    && (forall o {:trigger OpenOk(s, o)} :: OpenOk(s, o))
    && SlotsOk(s)
  }

  lemma OpensInsert(opens: map<OpenId, OpenFile>, o: OpenId, r: OpenFile, f: FileId)
    requires o !in opens
    ensures OpensOn(opens[o := r], f) == OpensOn(opens, f) + (if r.file == f then 1 else 0)
  {
    assert Openers(opens[o := r], f) == if r.file == f then Openers(opens, f) + {o} else Openers(opens, f);
  }

  lemma OpensRemove(opens: map<OpenId, OpenFile>, o: OpenId, f: FileId)
    requires o in opens
    ensures OpensOn(opens - {o}, f) == OpensOn(opens, f) - (if opens[o].file == f then 1 else 0)
  {
    assert Openers(opens - {o}, f) == Openers(opens, f) - {o};
  }

  lemma OpensSame(opens: map<OpenId, OpenFile>, o: OpenId, r: OpenFile, f: FileId)
    requires o in opens && r.file == opens[o].file
    ensures OpensOn(opens[o := r], f) == OpensOn(opens, f)
  {
    assert Openers(opens[o := r], f) == Openers(opens, f);
  }

  /** What a filled slot and a working directory refer to exists. */
  lemma NothingDangles(s: Files, p: Pid, fd: nat)
    requires FilesInv(s)
    ensures Droppable(s, p, fd)
    ensures (p, fd) in s.slots ==> s.slots[(p, fd)] in s.opens && s.opens[s.slots[(p, fd)]].file in s.files
    ensures p in s.cwds ==> s.cwds[p] in s.files && s.files[s.cwds[p]].refs > 0
  {
    if (p, fd) in s.slots {
      var o := s.slots[(p, fd)];
      assert OpenOk(s, o);
      RefsPositive(s.slots, o);
      OpenHasFile(s, o);
    }
    if p in s.cwds {
      assert FileOk(s, s.cwds[p]);
      RefsPositive(s.cwds, s.cwds[p]);
    }
  }

  lemma OpenHasFile(s: Files, o: OpenId)
    requires FilesInv(s) && o in s.opens
    ensures s.opens[o].file in s.files && s.files[s.opens[o].file].refs > 0
  {
    var f := s.opens[o].file;
    assert FileOk(s, f);
    assert o in Openers(s.opens, f);
  }

  // ---- each operation keeps it ----

  lemma GrabOk(s: Files, f: FileId)
    requires FilesInv(s) && f in s.files
    ensures FilesInv(Grab(s, f))
  {
    var t := Grab(s, f);
    forall g ensures FileOk(t, g) { assert FileOk(s, g); }
    forall o ensures OpenOk(t, o) { assert OpenOk(s, o); }
  }

  lemma NewFileOk(s: Files, f: FileId)
    requires FilesInv(s) && f !in s.files
    ensures FilesInv(NewFile(s, f))
  {
    var t := NewFile(s, f);
    forall g ensures FileOk(t, g) { assert FileOk(s, g); }
    forall o ensures OpenOk(t, o) { assert OpenOk(s, o); }
  }

  lemma UnrefOk(s: Files, f: FileId)
    requires FilesInv(s) && f in s.loose
    ensures f in s.files && s.files[f].refs > 0 && FilesInv(Unref(s, f))
  {
    assert FileOk(s, f);
    var t := Unref(s, f);
    forall g ensures FileOk(t, g) { assert FileOk(s, g); }
    forall o ensures OpenOk(t, o) { assert OpenOk(s, o); }
  }

  lemma InstallOk(s: Files, p: Pid, fd: nat, o: OpenId, f: FileId, pos: nat)
    requires FilesInv(s) && f in s.loose && o !in s.opens && (p, fd) !in s.slots && p in s.live && fd < MAX_OPEN_FILES
    ensures FilesInv(Install(s, p, fd, o, f, pos))
  {
    var t := Install(s, p, fd, o, f, pos);
    assert OpenOk(s, o);
    RefsPositive(s.slots, o);
    forall j, k ensures Private(t.slots, j, k) { assert Private(s.slots, j, k); }
    forall g ensures FileOk(t, g) {
      assert FileOk(s, g);
      OpensInsert(s.opens, o, OpenFile(f, 1, pos), g);
    }
    forall x ensures OpenOk(t, x) {
      assert OpenOk(s, x);
      RefsInsert(s.slots, (p, fd), o, x);
    }
  }

  lemma EnterDirOk(s: Files, p: Pid, f: FileId)
    requires FilesInv(s) && f in s.loose && p !in s.cwds && p in s.live
    ensures FilesInv(EnterDir(s, p, f))
  {
    var t := EnterDir(s, p, f);
    forall g ensures FileOk(t, g) {
      assert FileOk(s, g);
      RefsInsert(s.cwds, p, f, g);
    }
    forall o ensures OpenOk(t, o) { assert OpenOk(s, o); }
  }

  lemma LeaveDirOk(s: Files, p: Pid)
    requires FilesInv(s)
    ensures FilesInv(LeaveDir(s, p))
  {
    var t := LeaveDir(s, p);
    forall g ensures FileOk(t, g) {
      assert FileOk(s, g);
      if p in s.cwds { RefsRemove(s.cwds, p, g); }
    }
    forall o ensures OpenOk(t, o) { assert OpenOk(s, o); }
  }

  lemma DropDirOk(s: Files, p: Pid)
    requires FilesInv(s)
    ensures p in s.cwds ==> s.cwds[p] in s.files && s.files[s.cwds[p]].refs > 0
    ensures FilesInv(DropDir(s, p))
  {
    NothingDangles(s, p, 0);
    LeaveDirOk(s, p);
    if p in s.cwds {
      UnrefOk(LeaveDir(s, p), s.cwds[p]);
    }
  }

  lemma ShareOk(s: Files, p: Pid, fd: nat, o: OpenId, from: nat)
    requires FilesInv(s) && (p, from) in s.slots && s.slots[(p, from)] == o && (p, fd) !in s.slots
             && fd < MAX_OPEN_FILES
    ensures o in s.opens && FilesInv(Share(s, p, fd, o))
  {
    NothingDangles(s, p, from);
    var t := Share(s, p, fd, o);
    forall j, k ensures Private(t.slots, j, k) {
      assert Private(s.slots, j, k) && Private(s.slots, j, (p, from)) && Private(s.slots, (p, from), k);
    }
    forall g ensures FileOk(t, g) {
      assert FileOk(s, g);
      OpensSame(s.opens, o, t.opens[o], g);
    }
    forall x ensures OpenOk(t, x) {
      assert OpenOk(s, x);
      RefsInsert(s.slots, (p, fd), o, x);
    }
  }

  lemma DropSlotOk(s: Files, p: Pid, fd: nat)
    requires FilesInv(s)
    ensures Droppable(s, p, fd) && FilesInv(DropSlot(s, p, fd))
  {
    NothingDangles(s, p, fd);
    if (p, fd) in s.slots {
      var o := s.slots[(p, fd)];
      var r := s.opens[o];
      assert OpenOk(s, o);
      var t := if r.refs > 1 then s.(slots := s.slots - {(p, fd)}, opens := s.opens[o := r.(refs := r.refs - 1)])
               else s.(slots := s.slots - {(p, fd)}, opens := s.opens - {o}, loose := s.loose + multiset{r.file});
      forall j, k ensures Private(t.slots, j, k) { assert Private(s.slots, j, k); }
      forall g ensures FileOk(t, g) {
        assert FileOk(s, g);
        if r.refs > 1 {
          OpensSame(s.opens, o, t.opens[o], g);
        } else {
          OpensRemove(s.opens, o, g);
        }
      }
      forall x ensures OpenOk(t, x) {
        assert OpenOk(s, x);
        RefsRemove(s.slots, (p, fd), x);
      }
      if r.refs == 1 {
        UnrefOk(t, r.file);
      }
    }
  }
}
