/** Reference counts when processes interleave inside their file calls. */
module FileSteps {
  import opened Counting
  import opened OpenFiles
  import FileRuns

  /** Runs here are cut at every critical section that touches a shared count. Slots, directories and
      references in hand belong to one process; the files they refer to are shared.
      `held` is what each process has in hand, in local variables; `building` maps a child that does not
      run yet to the parent that fills its slots; `lost` counts references that nobody has any more. */
  datatype Hands = Hands(files: Files, held: map<(Pid, nat), FileId>, lost: multiset<FileId>, building: map<Pid, Pid>)

  /** Actions of process p; k names a local variable of p, q is p itself or a child it builds. */
  datatype Action =
    | Look(p: Pid, k: nat, f: FileId)                             // file_file_ref of a table's file
    | RefOwn(p: Pid, k: nat, f: FileId)                           // file_file_ref behind p's own slot or directory
    | Make(p: Pid, k: nat, f: FileId)                             // file_file_new
    | Release(p: Pid, k: nat)                                     // file_file_unref
    | Forget(p: Pid, k: nat)                                      // the pointer goes, the reference stays
    | Fill(p: Pid, k: nat, q: Pid, fd: nat, o: OpenId, pos: nat)  // a new open file in a slot
    | Enter(p: Pid, k: nat, q: Pid)                               // the working directory is set
    | Leave(p: Pid, k: nat, q: Pid)                               // the working directory is taken in hand
    | Dup(p: Pid, fd: nat, from: nat)                             // file_open_file_ref, and a second slot
    | Drop(p: Pid, q: Pid, fd: nat)                               // file_open_file_unref, and the slot emptied
    | Spawn(p: Pid, q: Pid)                                       // process_new
    | Start(p: Pid, q: Pid)                                       // the child runs
    | Gone(p: Pid, q: Pid)                                        // exit, or the child of a failed fork

  /** p may work on q's slots and directory. */
  predicate Acts(h: Hands, p: Pid, q: Pid) {
    q in h.files.live && if q in h.building then h.building[q] == p else q == p
  }

  /** f is behind one of p's slots, or its working directory. */
  ghost predicate Owns(s: Files, p: Pid, f: FileId) {
    || (p in s.cwds && s.cwds[p] == f)
    || exists fd: nat :: (p, fd) in s.slots && s.slots[(p, fd)] in s.opens && s.opens[s.slots[(p, fd)]].file == f
  }

  ghost predicate Bare(h: Hands, q: Pid) {
    && q !in h.files.cwds && (forall j :: j in h.files.slots ==> j.0 != q) && (forall j :: j in h.held ==> j.0 != q)
  }

  /** When p can act, in terms of what is p's own: its slots, its directory, what it has in hand. */
  ghost predicate Can(h: Hands, a: Action) {
    var s := h.files;
    match a
    case Look(p, k, f) => Acts(h, p, p) && (p, k) !in h.held && f in s.table
    case RefOwn(p, k, f) => Acts(h, p, p) && (p, k) !in h.held && Owns(s, p, f)
    case Make(p, k, f) => Acts(h, p, p) && (p, k) !in h.held && f !in s.files
    case Release(p, k) => (p, k) in h.held
    case Forget(p, k) => (p, k) in h.held
    case Fill(p, k, q, fd, o, _) =>
      (p, k) in h.held && Acts(h, p, q) && o !in s.opens && (q, fd) !in s.slots && fd < MAX_OPEN_FILES
    case Enter(p, k, q) => (p, k) in h.held && Acts(h, p, q) && q !in s.cwds
    case Leave(p, k, q) => (p, k) !in h.held && Acts(h, p, q) && q in s.cwds
    case Dup(p, fd, from) => Acts(h, p, p) && (p, from) in s.slots && (p, fd) !in s.slots && fd < MAX_OPEN_FILES
    case Drop(p, q, fd) => Acts(h, p, q)
    case Spawn(p, q) => Acts(h, p, p) && q !in s.live && q !in h.building
    case Start(p, q) => q in h.building && h.building[q] == p
    case Gone(p, q) => Acts(h, p, q) && Bare(h, q)
  }

  /** The objects an action reads or frees exist, and no count falls below zero. */
  predicate Safe(h: Hands, a: Action) {
    var s := h.files;
    match a
    case Look(_, _, f) => f in s.files
    case RefOwn(_, _, f) => f in s.files
    case Release(p, k) => (p, k) in h.held && h.held[(p, k)] in s.files && s.files[h.held[(p, k)]].refs > 0
    case Forget(p, k) => (p, k) in h.held
    case Fill(p, k, _, _, _, _) => (p, k) in h.held && h.held[(p, k)] in s.files
    case Enter(p, k, _) => (p, k) in h.held && h.held[(p, k)] in s.files
    case Leave(_, _, q) => q in s.cwds && s.cwds[q] in s.files
    case Dup(p, _, from) => (p, from) in s.slots && s.slots[(p, from)] in s.opens
    case Drop(_, q, fd) => Droppable(s, q, fd)
    case _ => true
  }

  function Act(h: Hands, a: Action): Hands
    requires Safe(h, a)
  {
    var s := h.files;
    match a
    case Look(p, k, f) => h.(files := Grab(s, f), held := h.held[(p, k) := f])
    case RefOwn(p, k, f) => h.(files := Grab(s, f), held := h.held[(p, k) := f])
    case Make(p, k, f) => h.(files := NewFile(s, f), held := h.held[(p, k) := f])
    case Release(p, k) => h.(files := Unref(s, h.held[(p, k)]), held := h.held - {(p, k)})
    case Forget(p, k) => h.(held := h.held - {(p, k)}, lost := h.lost + multiset{h.held[(p, k)]})
    case Fill(p, k, q, fd, o, pos) =>
      h.(files := Install(s, q, fd, o, h.held[(p, k)], pos), held := h.held - {(p, k)})
    case Enter(p, k, q) => h.(files := EnterDir(s, q, h.held[(p, k)]), held := h.held - {(p, k)})
    case Leave(p, k, q) => h.(files := LeaveDir(s, q), held := h.held[(p, k) := s.cwds[q]])
    case Dup(p, fd, from) => h.(files := Share(s, p, fd, s.slots[(p, from)]))
    case Drop(p, q, fd) => h.(files := DropSlot(s, q, fd))
    case Spawn(p, q) => h.(files := s.(live := s.live + {q}), building := h.building[q := p])
    case Start(p, q) => h.(building := h.building - {q})
    case Gone(p, q) => h.(files := s.(live := s.live - {q}), building := h.building - {q})
  }

  // ---- the invariant ----

  /** Every count is the number of references there are; those in nobody's slot, directory or table
      are in somebody's hand, or lost. */
  ghost predicate InHand(h: Hands, f: FileId) {
    h.files.loose[f] == Refs(h.held, f) + h.lost[f]
  }

  ghost predicate HandsInv(h: Hands) {
    FilesInv(h.files) && forall f {:trigger InHand(h, f)} :: InHand(h, f)
  }

  lemma HeldIsLoose(h: Hands, j: (Pid, nat))
    requires HandsInv(h) && j in h.held
    ensures h.held[j] in h.files.loose && h.held[j] in h.files.files && h.files.files[h.held[j]].refs > 0
  {
    var f := h.held[j];
    assert InHand(h, f);
    RefsPositive(h.held, f);
    UnrefOk(h.files, f);
  }

  lemma OwnedExists(s: Files, p: Pid, f: FileId)
    requires FilesInv(s) && Owns(s, p, f)
    ensures f in s.files
  {
    if p in s.cwds && s.cwds[p] == f {
      NothingDangles(s, p, 0);
    } else {
      var fd: nat :| (p, fd) in s.slots && s.slots[(p, fd)] in s.opens && s.opens[s.slots[(p, fd)]].file == f;
      NothingDangles(s, p, fd);
    }
  }

  lemma CanIsSafe(h: Hands, a: Action)
    requires HandsInv(h) && Can(h, a)
    ensures Safe(h, a)
  {
    var s := h.files;
    match a
    case Look(_, _, f) => assert FileOk(s, f);
    case RefOwn(p, _, f) => OwnedExists(s, p, f);
    case Release(p, k) => HeldIsLoose(h, (p, k));
    case Fill(p, k, _, _, _, _) => HeldIsLoose(h, (p, k));
    case Enter(p, k, _) => HeldIsLoose(h, (p, k));
    case Leave(_, _, q) => NothingDangles(s, q, 0);
    case Dup(p, _, from) => NothingDangles(s, p, from);
    case Drop(_, q, fd) => NothingDangles(s, q, fd);
    case _ =>
  }

  /** A reference comes into a hand, or leaves it. */
  lemma Takes(h: Hands, t: Hands, j: (Pid, nat), f: FileId)
    requires forall g {:trigger InHand(h, g)} :: InHand(h, g)
    requires j !in h.held && t.held == h.held[j := f] && t.lost == h.lost
    requires t.files.loose == h.files.loose + multiset{f}
    ensures forall g {:trigger InHand(t, g)} :: InHand(t, g)
  {
    forall g ensures InHand(t, g) {
      assert InHand(h, g);
      RefsInsert(h.held, j, f, g);
    }
  }

  lemma Gives(h: Hands, t: Hands, j: (Pid, nat))
    requires forall g {:trigger InHand(h, g)} :: InHand(h, g)
    requires j in h.held && t.held == h.held - {j}
    requires || (t.lost == h.lost && t.files.loose == h.files.loose - multiset{h.held[j]})
             || (t.lost == h.lost + multiset{h.held[j]} && t.files.loose == h.files.loose)
    ensures forall g {:trigger InHand(t, g)} :: InHand(t, g)
  {
    RefsPositive(h.held, h.held[j]);
    forall g ensures InHand(t, g) {
      assert InHand(h, g);
      RefsRemove(h.held, j, g);
    }
  }

  lemma SameHands(h: Hands, t: Hands)
    requires forall g {:trigger InHand(h, g)} :: InHand(h, g)
    requires t.held == h.held && t.lost == h.lost && t.files.loose == h.files.loose
    ensures forall g {:trigger InHand(t, g)} :: InHand(t, g)
  {
    forall g ensures InHand(t, g) { assert InHand(h, g); }
  }

  // ---- every action keeps it ----

  lemma RefKeeps(h: Hands, j: (Pid, nat), f: FileId)
    requires HandsInv(h) && j !in h.held && f in h.files.files
    ensures HandsInv(h.(files := Grab(h.files, f), held := h.held[j := f]))
  {
    GrabOk(h.files, f);
    Takes(h, h.(files := Grab(h.files, f), held := h.held[j := f]), j, f);
  }

  lemma MakeKeeps(h: Hands, j: (Pid, nat), f: FileId)
    requires HandsInv(h) && j !in h.held && f !in h.files.files
    ensures HandsInv(h.(files := NewFile(h.files, f), held := h.held[j := f]))
  {
    NewFileOk(h.files, f);
    Takes(h, h.(files := NewFile(h.files, f), held := h.held[j := f]), j, f);
  }

  lemma GiveKeeps(h: Hands, a: Action)
    requires HandsInv(h) && Can(h, a) && Safe(h, a)
    requires a.Release? || a.Forget? || a.Fill? || a.Enter?
    ensures HandsInv(Act(h, a))
  {
    var j := (a.p, a.k);
    HeldIsLoose(h, j);
    var f := h.held[j];
    match a {
      case Release(_, _) => UnrefOk(h.files, f);
      case Forget(_, _) =>
      case Fill(_, _, q, fd, o, pos) => InstallOk(h.files, q, fd, o, f, pos);
      case Enter(_, _, q) => EnterDirOk(h.files, q, f);
    }
    Gives(h, Act(h, a), j);
  }

  lemma LeaveKeeps(h: Hands, j: (Pid, nat), q: Pid)
    requires HandsInv(h) && j !in h.held && q in h.files.cwds
    ensures HandsInv(h.(files := LeaveDir(h.files, q), held := h.held[j := h.files.cwds[q]]))
  {
    LeaveDirOk(h.files, q);
    Takes(h, h.(files := LeaveDir(h.files, q), held := h.held[j := h.files.cwds[q]]), j, h.files.cwds[q]);
  }

  lemma SlotKeeps(h: Hands, a: Action)
    requires HandsInv(h) && Can(h, a) && Safe(h, a) && (a.Dup? || a.Drop?)
    ensures HandsInv(Act(h, a))
  {
    match a {
      case Dup(p, fd, from) =>
        ShareOk(h.files, p, fd, h.files.slots[(p, from)], from);
      case Drop(_, q, fd) =>
        DropSlotOk(h.files, q, fd);
        DropSlotLoose(h.files, q, fd);
    }
    SameHands(h, Act(h, a));
  }

  lemma DropSlotLoose(s: Files, q: Pid, fd: nat)
    requires Droppable(s, q, fd)
    ensures DropSlot(s, q, fd).loose == s.loose
  {
    if (q, fd) in s.slots {
      var f := s.opens[s.slots[(q, fd)]].file;
      assert s.loose + multiset{f} - multiset{f} == s.loose;
    }
  }

  lemma LifeKeeps(h: Hands, a: Action)
    requires HandsInv(h) && Can(h, a) && (a.Spawn? || a.Start? || a.Gone?)
    ensures HandsInv(Act(h, a))
  {
    var s, t := h.files, Act(h, a).files;
    forall f ensures FileOk(t, f) { assert FileOk(s, f); }
    forall o ensures OpenOk(t, o) { assert OpenOk(s, o); }
    SameHands(h, Act(h, a));
  }

  lemma ActKeeps(h: Hands, a: Action)
    requires HandsInv(h) && Can(h, a)
    ensures Safe(h, a) && HandsInv(Act(h, a))
  {
    CanIsSafe(h, a);
    match a
    case Look(p, k, f) => RefKeeps(h, (p, k), f);
    case RefOwn(p, k, f) => RefKeeps(h, (p, k), f);
    case Make(p, k, f) => MakeKeeps(h, (p, k), f);
    case Leave(p, k, q) => LeaveKeeps(h, (p, k), q);
    case Dup(_, _, _) => SlotKeeps(h, a);
    case Drop(_, _, _) => SlotKeeps(h, a);
    case Spawn(_, _) => LifeKeeps(h, a);
    case Start(_, _) => LifeKeeps(h, a);
    case Gone(_, _) => LifeKeeps(h, a);
    case _ => GiveKeeps(h, a);
  }

  // ---- runs ----

  /** After boot: table references only. */
  ghost predicate HandsInit(h: Hands) {
    FileRuns.FilesInit(h.files) && h.held == map[] && h.lost == multiset{} && h.building == map[]
  }

  ghost predicate Next(h: Hands, a: Action, t: Hands) {
    Can(h, a) && Safe(h, a) && t == Act(h, a)
  }

  /** Any interleaving of any processes' actions. */
  ghost predicate Interleaving(tr: seq<Hands>, acts: seq<Action>) {
    && |tr| == |acts| + 1
    && HandsInit(tr[0])
    && forall i :: 0 <= i < |acts| ==> Next(tr[i], acts[i], tr[i + 1])
  }

  lemma {:induction false} InterleavingInv(tr: seq<Hands>, acts: seq<Action>, i: nat)
    requires Interleaving(tr, acts) && i <= |acts|
    ensures HandsInv(tr[i])
  {
    if i == 0 {
      FileRuns.FilesInitInv(tr[0].files);
      forall f ensures InHand(tr[0], f) { RefsPositive(tr[0].held, f); }
    } else {
      InterleavingInv(tr, acts, i - 1);
      assert Next(tr[i - 1], acts[i - 1], tr[i]);
      ActKeeps(tr[i - 1], acts[i - 1]);
    }
  }

  /** In every interleaving: whatever a process may do next with what is its own touches only objects
      that exist, and a file's count is exactly the number of open files, directories, table entries
      and hands that refer to it, and of references lost. */
  lemma NoUseAfterFree(tr: seq<Hands>, acts: seq<Action>, i: nat)
    requires Interleaving(tr, acts) && i <= |acts|
    ensures forall a :: Can(tr[i], a) ==> Safe(tr[i], a)
    ensures var h := tr[i];
            forall f :: f in h.files.files ==>
              h.files.files[f].refs == OpensOn(h.files.opens, f) + Refs(h.files.cwds, f) + h.files.table[f]
                                       + Refs(h.held, f) + h.lost[f]
  {
    InterleavingInv(tr, acts, i);
    var h := tr[i];
    forall a | Can(h, a) ensures Safe(h, a) { CanIsSafe(h, a); }
    forall f | f in h.files.files
      ensures h.files.files[f].refs == OpensOn(h.files.opens, f) + Refs(h.files.cwds, f) + h.files.table[f]
                                       + Refs(h.held, f) + h.lost[f] {
      assert FileOk(h.files, f) && InHand(h, f);
    }
  }
}
