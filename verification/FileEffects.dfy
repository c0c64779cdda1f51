/** What each file call does to the caller's slots, directory, positions and result. */
module FileEffects {
  import opened Lists
  import opened OpenFiles
  import opened FileCalls
  import opened FileRuns

  // ---- what a call leaves alone ----

  /** Every slot but k is filled as it was. */
  ghost predicate SameSlotsBut(s: Files, t: Files, k: (Pid, nat)) {
    forall j :: j != k ==> (j in s.slots <==> j in t.slots) && (j in s.slots ==> t.slots[j] == s.slots[j])
  }

  ghost predicate SameDirsBut(s: Files, t: Files, p: Pid) {
    forall q :: q != p ==> (q in s.cwds <==> q in t.cwds) && (q in s.cwds ==> t.cwds[q] == s.cwds[q])
  }

  /** Open files that are still there are open on the same file, at the same position. */
  ghost predicate SamePlaces(s: Files, t: Files) {
    forall o :: o in s.opens && o in t.opens ==> t.opens[o].file == s.opens[o].file && t.opens[o].pos == s.opens[o].pos
  }

  ghost predicate NoNewOpens(s: Files, t: Files) {
    forall o :: o in t.opens ==> o in s.opens
  }

  /** No file turns into a directory or out of one. */
  ghost predicate SameKinds(s: Files, t: Files) {
    forall f :: f in s.files && f in t.files ==> t.files[f].directory == s.files[f].directory
  }

  predicate InRange(fd: int) {
    0 <= fd < 8
  }

  predicate HasSlot(s: Files, p: Pid, fd: int) {
    InRange(fd) && (p, fd as nat) in s.slots
  }

  /** fd is the lowest empty slot of p, other than skip. */
  ghost predicate LowestEmpty(s: Files, p: Pid, fd: int, skip: int) {
    InRange(fd) && fd != skip && (p, fd as nat) !in s.slots
    && forall i: nat :: i < fd && i != skip ==> (p, i) in s.slots
  }

  ghost predicate HasEmpty(s: Files, p: Pid, skip: int) {
    exists i: nat :: i < 8 && i != skip && (p, i) !in s.slots
  }

  // ---- slots ----

  /** open fills the lowest empty slot with a new open file on the file found, at position 0; or it
      answers -1 and fills nothing. */
  lemma OpenDoes(s: Files, c: Call)
    requires FilesInv(s) && Allowed(s, c) && c.Open?
    ensures var (t, r) := Do(s, c);
            var works := c.heap && c.target.Some? && c.accepted && HasEmpty(s, c.p, -1);
            && t.cwds == s.cwds && t.live == s.live && SamePlaces(s, t) && SameKinds(s, t)
            && (works ==> && LowestEmpty(s, c.p, r, -1) && (c.p, r as nat) in t.slots
                          && SameSlotsBut(s, t, (c.p, r as nat))
                          && t.slots[(c.p, r as nat)] == c.o && c.o !in s.opens && c.o in t.opens
                          && t.opens[c.o].file == c.target.value && t.opens[c.o].pos == 0)
            && (!works ==> r == -1 && t.slots == s.slots && t.opens == s.opens)
  {
    var slot := FreeSlot(s, c.p, 0, None);
    if slot.Some? {
      assert (c.p, slot.value) !in s.slots;
    }
  }

  lemma DropDoes(s: Files, p: Pid, fd: nat)
    requires FilesInv(s)
    ensures Droppable(s, p, fd)
    ensures var t := DropSlot(s, p, fd);
            && (p, fd) !in t.slots && SameSlotsBut(s, t, (p, fd)) && t.cwds == s.cwds && t.live == s.live
            && SamePlaces(s, t) && NoNewOpens(s, t) && SameKinds(s, t)
  {
    DropSlotOk(s, p, fd);
  }

  /** close empties one slot. */
  lemma CloseDoes(s: Files, c: Call)
    requires FilesInv(s) && Allowed(s, c) && c.Close?
    ensures var (t, r) := Do(s, c);
            if HasSlot(s, c.p, c.fd) then
              && r == 0 && (c.p, c.fd as nat) !in t.slots && SameSlotsBut(s, t, (c.p, c.fd as nat))
              && t.cwds == s.cwds && t.live == s.live && SamePlaces(s, t) && NoNewOpens(s, t) && SameKinds(s, t)
            else t == s && r == -1
  {
    if HasSlot(s, c.p, c.fd) {
      DropDoes(s, c.p, c.fd as nat);
    }
  }

  lemma ShareDoes(s: Files, p: Pid, fd: nat, from: nat)
    requires FilesInv(s) && (p, from) in s.slots && (p, fd) !in s.slots
    ensures s.slots[(p, from)] in s.opens
    ensures var t := Share(s, p, fd, s.slots[(p, from)]);
            && (p, fd) in t.slots && t.slots[(p, fd)] == s.slots[(p, from)] && SameSlotsBut(s, t, (p, fd))
            && t.cwds == s.cwds && t.live == s.live && SamePlaces(s, t) && t.opens.Keys == s.opens.Keys
            && SameKinds(s, t)
  {
    NothingDangles(s, p, from);
  }

  /** dup2 makes the second slot name the first one's open file, whatever it named before; the open file
      keeps its file and position. A slot duplicated onto itself changes nothing. */
  lemma Dup2Does(s: Files, c: Call)
    requires FilesInv(s) && Allowed(s, c) && c.Dup2?
    ensures var (t, r) := Do(s, c);
            if InRange(c.newfd) && HasSlot(s, c.p, c.oldfd) then
              var a, b := (c.p, c.oldfd as nat), (c.p, c.newfd as nat);
              && r == c.newfd && a in t.slots && b in t.slots && t.slots[b] == t.slots[a] == s.slots[a]
              && SameSlotsBut(s, t, b) && t.cwds == s.cwds && t.live == s.live && SameKinds(s, t)
              && s.slots[a] in s.opens && s.slots[a] in t.opens && SamePlaces(s, t) && NoNewOpens(s, t)
              && (a == b ==> t == s)
            else t == s && r == -1
  {
    if InRange(c.newfd) && HasSlot(s, c.p, c.oldfd) {
      NothingDangles(s, c.p, c.oldfd as nat);
      if c.oldfd != c.newfd {
        DropDoes(s, c.p, c.newfd as nat);
        DropSlotOk(s, c.p, c.newfd as nat);
        ShareDoes(DropSlot(s, c.p, c.newfd as nat), c.p, c.newfd as nat, c.oldfd as nat);
      }
    }
  }

  /** pipe fills the two lowest empty slots, the read end first, with open files on two new files; or it
      answers -1 and changes nothing. */
  lemma PipeDoes(s: Files, c: Call)
    requires FilesInv(s) && Allowed(s, c) && c.Pipe?
    ensures var (t, r) := Do(s, c);
            var works := c.valid && c.mallocs >= 6
                         && exists a: nat, b: nat :: a < b < 8 && (c.p, a) !in s.slots && (c.p, b) !in s.slots;
            && (works ==> r == 0 && PipeMade(s, t, c))
            && (!works ==> r == -1 && t == s)
  {
    TwoLowest(s, c.p);
    var a := FreeSlot(s, c.p, 0, None);
    if a.Some? && FreeSlot(s, c.p, 0, a).Some? && c.valid && c.mallocs >= 6 {
      PipeMakes(s, c, a.value, FreeSlot(s, c.p, 0, a).value);
    }
  }

  /** The two searches find the two lowest empty slots, if there are two. */
  lemma TwoLowest(s: Files, p: Pid)
    ensures var a := FreeSlot(s, p, 0, None);
            && (a.Some? ==>
                  var b := FreeSlot(s, p, 0, a);
                  b.Some? ==> LowestEmpty(s, p, a.value, -1) && LowestEmpty(s, p, b.value, a.value)
                              && a.value < b.value)
            && ((a.Some? && FreeSlot(s, p, 0, a).Some?)
                <==> exists x: nat, y: nat :: x < y < 8 && (p, x) !in s.slots && (p, y) !in s.slots)
  {
    var a := FreeSlot(s, p, 0, None);
    if a.Some? {
      var b := FreeSlot(s, p, 0, a);
      if b.Some? {
        assert a.value != b.value && (p, b.value) !in s.slots;
        assert a.value < b.value;
      }
    }
  }

  lemma PipeMakes(s: Files, c: Call, a: nat, b: nat)
    requires FilesInv(s) && Allowed(s, c) && c.Pipe? && c.valid && c.mallocs >= 6
    requires FreeSlot(s, c.p, 0, None) == Some(a) && FreeSlot(s, c.p, 0, Some(a)) == Some(b)
    requires LowestEmpty(s, c.p, a, -1) && LowestEmpty(s, c.p, b, a) && a < b
    ensures Do(s, c).1 == 0 && PipeMade(s, Do(s, c).0, c)
  {
    var u := NewFile(NewFile(s, c.fr), c.fw);
    FillsTwo(u, c, a, b);
    assert PipeFills(s, Do(s, c).0, c, a, b);
  }

  lemma FillsTwo(u: Files, c: Call, a: nat, b: nat)
    requires c.Pipe? && a != b && c.or != c.ow && c.or !in u.opens && c.ow !in u.opens
    ensures var t := Install(Install(u, c.p, a, c.or, c.fr, 0), c.p, b, c.ow, c.fw, 0);
            && t.slots == u.slots[(c.p, a) := c.or][(c.p, b) := c.ow]
            && t.opens == u.opens[c.or := OpenFile(c.fr, 1, 0)][c.ow := OpenFile(c.fw, 1, 0)]
            && t.files == u.files && t.cwds == u.cwds && t.live == u.live
  {}

  ghost predicate PipeMade(s: Files, t: Files, c: Call)
    requires c.Pipe?
  {
    exists a: nat, b: nat :: PipeFills(s, t, c, a, b)
  }

  /** a and b are the two lowest empty slots, and now hold the ends. */
  ghost predicate PipeFills(s: Files, t: Files, c: Call, a: nat, b: nat)
    requires c.Pipe?
  {
    && LowestEmpty(s, c.p, a, -1) && LowestEmpty(s, c.p, b, a) && a < b
    && t.slots == s.slots[(c.p, a) := c.or][(c.p, b) := c.ow]
    && c.or !in s.opens && c.ow !in s.opens && c.or != c.ow
    && t.opens == s.opens[c.or := OpenFile(c.fr, 1, 0)][c.ow := OpenFile(c.fw, 1, 0)]
    && c.fr !in s.files && c.fw !in s.files && c.fr != c.fw && c.fr in t.files && c.fw in t.files
    && (forall f :: f in s.files ==> f in t.files && t.files[f] == s.files[f])
    && t.cwds == s.cwds && t.live == s.live
  }

  // ---- directories ----

  lemma DropDirDoes(s: Files, p: Pid)
    requires FilesInv(s)
    ensures p in s.cwds ==> s.cwds[p] in s.files && s.files[s.cwds[p]].refs > 0
    ensures var t := DropDir(s, p);
            && p !in t.cwds && SameDirsBut(s, t, p) && t.slots == s.slots && t.opens == s.opens && t.live == s.live
            && SameKinds(s, t)
  {
    DropDirOk(s, p);
  }

  /** chdir to a directory makes it the caller's; to anything else it answers -1 and changes no
      directory. No slot or position changes. */
  lemma ChdirDoes(s: Files, c: Call)
    requires FilesInv(s) && Allowed(s, c) && c.Chdir?
    ensures var (t, r) := Do(s, c);
            var works := c.target.Some? && c.accepted && c.target.value in s.files && s.files[c.target.value].directory;
            && t.slots == s.slots && t.opens == s.opens && t.live == s.live && SameKinds(s, t)
            && (works ==> r == 0 && c.p in t.cwds && t.cwds[c.p] == c.target.value && SameDirsBut(s, t, c.p))
            && (!works ==> r == -1 && t.cwds == s.cwds)
  {
    if c.target.Some? {
      var f := c.target.value;
      TableHas(s, f);
      if c.accepted && s.files[f].directory {
        EntersDir(s, c.p, f);
      } else {
        GrabOk(s, f);
      }
    }
  }

  lemma EntersDir(s: Files, p: Pid, f: FileId)
    requires FilesInv(s) && f in s.files
    ensures var u := Grab(s, f);
            && (p in u.cwds ==> u.cwds[p] in u.files && u.files[u.cwds[p]].refs > 0)
            && var t := EnterDir(DropDir(u, p), p, f);
               && p in t.cwds && t.cwds[p] == f && SameDirsBut(s, t, p)
               && t.slots == s.slots && t.opens == s.opens && t.live == s.live && SameKinds(s, t)
  {
    GrabOk(s, f);
    GrabDoes(s, f);
    var u := Grab(s, f);
    DropDirDoes(u, p);
    KindsOver(s, u, DropDir(u, p));
    assert EnterDir(DropDir(u, p), p, f).files == DropDir(u, p).files;
  }

  lemma GrabDoes(s: Files, f: FileId)
    requires f in s.files
    ensures var u := Grab(s, f);
            && u.files.Keys == s.files.Keys && SameKinds(s, u) && u.slots == s.slots && u.opens == s.opens
            && u.cwds == s.cwds && u.live == s.live
  {}

  lemma KindsOver(s: Files, u: Files, t: Files)
    requires s.files.Keys <= u.files.Keys && SameKinds(s, u) && SameKinds(u, t)
    ensures SameKinds(s, t)
  {}

  /** fchdir to the directory behind a descriptor. */
  lemma FchdirDoes(s: Files, c: Call)
    requires FilesInv(s) && Allowed(s, c) && c.Fchdir?
    ensures var (t, r) := Do(s, c);
            if HasSlot(s, c.p, c.fd) && IsDirectory(s, s.slots[(c.p, c.fd as nat)]) then
              && r == 0 && c.p in t.cwds && t.cwds[c.p] == s.opens[s.slots[(c.p, c.fd as nat)]].file
              && SameDirsBut(s, t, c.p) && t.slots == s.slots && t.opens == s.opens && t.live == s.live
              && SameKinds(s, t)
            else t == s && r == -1
  {
    if HasSlot(s, c.p, c.fd) {
      NothingDangles(s, c.p, c.fd as nat);
      DropDirDoes(s, c.p);
      DropDirOk(s, c.p);
      DropDirFrame(s, c.p);
      NothingDangles(DropDir(s, c.p), c.p, c.fd as nat);
    }
  }

  predicate IsDirectory(s: Files, o: OpenId) {
    o in s.opens && s.opens[o].file in s.files && s.files[s.opens[o].file].directory
  }

  // ---- positions, and the end ----

  /** A seek or transfer sets the position of one open file. */
  lemma MoveDoes(s: Files, c: Call)
    requires FilesInv(s) && Allowed(s, c) && c.Move?
    ensures var (t, r) := Do(s, c);
            if HasSlot(s, c.p, c.fd) then
              var o := s.slots[(c.p, c.fd as nat)];
              && r == 0 && o in s.opens && o in t.opens && t.opens.Keys == s.opens.Keys
              && t.opens[o].pos == c.to && t.opens[o].file == s.opens[o].file
              && (forall x :: x in s.opens && x != o ==> t.opens[x] == s.opens[x])
              && t.slots == s.slots && t.cwds == s.cwds && t.files == s.files && t.live == s.live
            else t == s && r == -1
  {
    if HasSlot(s, c.p, c.fd) {
      NothingDangles(s, c.p, c.fd as nat);
    }
  }

  /** exit empties the caller's slots and directory, and nobody else's. */
  lemma ExitDoes(s: Files, c: Call)
    requires FilesInv(s) && Allowed(s, c) && c.Exit?
    ensures var t := Do(s, c).0;
            && (forall j :: j in t.slots <==> j in s.slots && j.0 != c.p)
            && (forall q :: q in t.cwds <==> q in s.cwds && q != c.p)
            && t.live == s.live - {c.p}
  {
    ExitEffect(s, c);
    DropUpToFrame(s, c.p, 8);
    DropDirDoes(DropUpTo(s, c.p, 8), c.p);
    forall j | j in s.slots && j.0 != c.p ensures j in Do(s, c).0.slots {
      assert j in DropUpTo(s, c.p, 8).slots;
    }
  }
}
