/** What each critical section of the file calls does to counts, slots, directories and hands. */
module FileDeeds {
  import opened OpenFiles
  import opened FileSteps

  // ---- what an action leaves alone ----

  ghost predicate SameOpens(h: Hands, t: Hands) {
    t.files.opens == h.files.opens && t.files.slots == h.files.slots
  }

  ghost predicate SameDirs(h: Hands, t: Hands) {
    t.files.cwds == h.files.cwds
  }

  ghost predicate SameLives(h: Hands, t: Hands) {
    t.files.live == h.files.live && t.files.table == h.files.table && t.building == h.building
  }

  /** File f has n references, or is gone if there are none; nothing else happens to files. */
  ghost predicate Counts(h: Hands, t: Hands, f: FileId, n: int) {
    && f in h.files.files && n >= 0
    && (if n == 0 then f !in t.files.files
        else f in t.files.files && t.files.files[f] == File(n, h.files.files[f].directory))
    && forall g :: g != f ==> (g in h.files.files <==> g in t.files.files)
                              && (g in h.files.files ==> t.files.files[g] == h.files.files[g])
  }

  /** p has f in hand, in variable k, and every other hand holds what it held. */
  ghost predicate Picks(h: Hands, t: Hands, p: Pid, k: nat, f: FileId) {
    && (p, k) in t.held && t.held[(p, k)] == f && t.lost == h.lost
    && forall j :: j != (p, k) ==> (j in h.held <==> j in t.held) && (j in h.held ==> t.held[j] == h.held[j])
  }

  ghost predicate LetsGo(h: Hands, t: Hands, p: Pid, k: nat) {
    && (p, k) !in t.held
    && forall j :: j != (p, k) ==> (j in h.held <==> j in t.held) && (j in h.held ==> t.held[j] == h.held[j])
  }

  ghost predicate SameHeld(h: Hands, t: Hands) {
    t.held == h.held && t.lost == h.lost
  }

  // ---- files in hand ----

  /** file_file_ref adds one reference to the file, and leaves it in hand. */
  lemma RefDoes(h: Hands, a: Action)
    requires HandsInv(h) && Can(h, a) && (a.Look? || a.RefOwn?)
    ensures Safe(h, a) && a.f in h.files.files
    ensures var t := Act(h, a);
            && Counts(h, t, a.f, h.files.files[a.f].refs + 1) && Picks(h, t, a.p, a.k, a.f)
            && SameOpens(h, t) && SameDirs(h, t) && SameLives(h, t)
  {
    CanIsSafe(h, a);
  }

  lemma MakeDoes(h: Hands, a: Action)
    requires Can(h, a) && a.Make?
    ensures var t := Act(h, a);
            && a.f !in h.files.files && t.files.files == h.files.files[a.f := File(1, false)]
            && Picks(h, t, a.p, a.k, a.f) && SameOpens(h, t) && SameDirs(h, t) && SameLives(h, t)
  {}

  /** file_file_unref takes one reference away, and frees the file with the last. */
  lemma ReleaseDoes(h: Hands, a: Action)
    requires HandsInv(h) && Can(h, a) && a.Release?
    ensures Safe(h, a)
    ensures var t, f := Act(h, a), h.held[(a.p, a.k)];
            && f in h.files.files && Counts(h, t, f, h.files.files[f].refs - 1) && LetsGo(h, t, a.p, a.k)
            && t.lost == h.lost && SameOpens(h, t) && SameDirs(h, t) && SameLives(h, t)
  {
    CanIsSafe(h, a);
  }

  lemma ForgetDoes(h: Hands, a: Action)
    requires Can(h, a) && a.Forget?
    ensures var t, f := Act(h, a), h.held[(a.p, a.k)];
            t.files == h.files && LetsGo(h, t, a.p, a.k) && t.lost[f] == h.lost[f] + 1 && t.building == h.building
  {}

  // ---- slots ----

  /** The file in hand goes into a new open file with one reference, and that into the slot. */
  lemma FillDoes(h: Hands, a: Action)
    requires HandsInv(h) && Can(h, a) && a.Fill?
    ensures Safe(h, a)
    ensures var t := Act(h, a);
            && (a.q, a.fd) !in h.files.slots && t.files.slots == h.files.slots[(a.q, a.fd) := a.o]
            && a.o !in h.files.opens
            && t.files.opens == h.files.opens[a.o := OpenFile(h.held[(a.p, a.k)], 1, a.pos)]
            && t.files.files == h.files.files && LetsGo(h, t, a.p, a.k) && t.lost == h.lost
            && SameDirs(h, t) && SameLives(h, t)
  {
    CanIsSafe(h, a);
  }

  /** The second slot names the first one's open file, which has one more reference. */
  lemma DupDoes(h: Hands, a: Action)
    requires HandsInv(h) && Can(h, a) && a.Dup?
    ensures Safe(h, a)
    ensures var t, o := Act(h, a), h.files.slots[(a.p, a.from)];
            && t.files.slots == h.files.slots[(a.p, a.fd) := o] && o in h.files.opens
            && t.files.opens == h.files.opens[o := h.files.opens[o].(refs := h.files.opens[o].refs + 1)]
            && t.files.files == h.files.files && SameHeld(h, t) && SameDirs(h, t) && SameLives(h, t)
  {
    CanIsSafe(h, a);
  }

  ghost predicate OpenGone(h: Hands, t: Hands, o: OpenId) {
    o !in t.files.opens
    && forall x :: x != o ==> (x in h.files.opens <==> x in t.files.opens)
                              && (x in h.files.opens ==> t.files.opens[x] == h.files.opens[x])
  }

  /** The slot is empty; its open file has one reference less, and with the last one goes and takes its own
      reference to the file along. */
  lemma DropDoes(h: Hands, a: Action)
    requires HandsInv(h) && Can(h, a) && a.Drop? && (a.q, a.fd) in h.files.slots
    ensures Safe(h, a)
    ensures var s, t := h.files, Act(h, a);
            var o := s.slots[(a.q, a.fd)];
            && (a.q, a.fd) !in t.files.slots
            && (forall j :: j != (a.q, a.fd) ==> (j in s.slots <==> j in t.files.slots)
                                                 && (j in s.slots ==> t.files.slots[j] == s.slots[j]))
            && o in s.opens && s.opens[o].file in s.files
            && (if s.opens[o].refs > 1 then
                  && t.files.opens == s.opens[o := OpenFile(s.opens[o].file, s.opens[o].refs - 1, s.opens[o].pos)]
                  && t.files.files == s.files
                else OpenGone(h, t, o) && Counts(h, t, s.opens[o].file, s.files[s.opens[o].file].refs - 1))
            && SameHeld(h, t) && SameDirs(h, t) && SameLives(h, t)
  {
    CanIsSafe(h, a);
    DropDoesFile(h.files, a.q, a.fd);
  }

  lemma DropDoesFile(s: Files, q: Pid, fd: nat)
    requires Droppable(s, q, fd) && (q, fd) in s.slots
    ensures var t := DropSlot(s, q, fd);
            var o := s.slots[(q, fd)];
            && t.slots == s.slots - {(q, fd)} && t.cwds == s.cwds && t.live == s.live && t.table == s.table
            && (if s.opens[o].refs > 1 then t.files == s.files else t.opens == s.opens - {o})
  {}

  // ---- directories ----

  lemma EnterDoes(h: Hands, a: Action)
    requires HandsInv(h) && Can(h, a) && a.Enter?
    ensures Safe(h, a)
    ensures var t := Act(h, a);
            && a.q !in h.files.cwds && t.files.cwds == h.files.cwds[a.q := h.held[(a.p, a.k)]]
            && t.files.files == h.files.files && LetsGo(h, t, a.p, a.k) && t.lost == h.lost
            && SameOpens(h, t) && SameLives(h, t)
  {
    CanIsSafe(h, a);
  }

  lemma LeaveDoes(h: Hands, a: Action)
    requires HandsInv(h) && Can(h, a) && a.Leave?
    ensures Safe(h, a)
    ensures var t := Act(h, a);
            && a.q !in t.files.cwds
            && (forall q :: q != a.q ==> (q in h.files.cwds <==> q in t.files.cwds)
                                         && (q in h.files.cwds ==> t.files.cwds[q] == h.files.cwds[q]))
            && t.files.files == h.files.files && Picks(h, t, a.p, a.k, h.files.cwds[a.q])
            && SameOpens(h, t) && SameLives(h, t)
  {
    CanIsSafe(h, a);
  }

  // ---- processes ----

  /** process_new makes a child for p to fill; it runs once started; exit or a failed fork ends it. None of
      these touches a count, a slot or a directory. */
  lemma LifeDoes(h: Hands, a: Action)
    requires HandsInv(h) && Can(h, a) && (a.Spawn? || a.Start? || a.Gone?)
    ensures var t := Act(h, a);
            && t.files.files == h.files.files && SameOpens(h, t) && SameDirs(h, t) && SameHeld(h, t)
            && (a.Spawn? ==> t.files.live == h.files.live + {a.q} && a.q !in h.files.live
                             && t.building == h.building[a.q := a.p])
            && (a.Start? ==> t.files.live == h.files.live && t.building == h.building - {a.q})
            && (a.Gone? ==> t.files.live == h.files.live - {a.q} && t.building == h.building - {a.q})
  {}
}
