/** The memory image sys_execve builds: two pointer tables and two string areas at the top of
    user space, and the stack below them. */
module Execve {
  import opened Storage
  import opened Transfers
  import opened UserMemory

  type Strings = seq<seq<Byte>>

  function LittleEndian(w: int): (b: seq<Byte>)
    ensures |b| == 2
    ensures 0 <= w < 0x1_0000 ==> (b[0] as int) + 0x100 * (b[1] as int) == w
  {
    [w % 0x100, w / 0x100 % 0x100]
  }

  /** A pointer table. */
  function Table(ptrs: seq<nat>): (b: seq<Byte>)
    ensures |b| == 2 * |ptrs|
  {
    if ptrs == [] then [] else Table(ptrs[..|ptrs| - 1]) + LittleEndian(ptrs[|ptrs| - 1])
  }

  /** A string area. */
  function Pack(strings: Strings): seq<Byte> {
    if strings == [] then [] else Pack(strings[..|strings| - 1]) + strings[|strings| - 1] + [0]
  }

  /** Where the strings of an area at `at` lie. */
  function Addresses(at: nat, strings: Strings): (ptrs: seq<nat>)
    ensures |ptrs| == |strings|
  {
    if strings == [] then []
    else
      var front := strings[..|strings| - 1];
      Addresses(at, front) + [at + |Pack(front)|]
  }

  function EnvpOffset(argv: Strings): nat {
    2 * (|argv| + 1)
  }

  function ArgvStringsOffset(argv: Strings, envp: Strings): nat {
    EnvpOffset(argv) + 2 * (|envp| + 1)
  }

  function EnvpStringsOffset(argv: Strings, envp: Strings): nat {
    ArgvStringsOffset(argv, envp) + |Pack(argv)|
  }

  function ImageSize(argv: Strings, envp: Strings): nat {
    EnvpStringsOffset(argv, envp) + |Pack(envp)|
  }

  /** The tables and areas, edge to edge. */
  function Image(base: nat, argv: Strings, envp: Strings): (b: seq<Byte>)
    ensures |b| == ImageSize(argv, envp)
  {
    Table(Addresses(base + ArgvStringsOffset(argv, envp), argv) + [0])
    + Table(Addresses(base + EnvpStringsOffset(argv, envp), envp) + [0])
    + Pack(argv) + Pack(envp)
  }

  /** The new stack lies inside the 64 KiB that addresses can name. */
  predicate Fits(argv: Strings, envp: Strings) {
    ImageSize(argv, envp) + 8 <= USER_HIGH
  }

  function Base(argv: Strings, envp: Strings): nat
    requires Fits(argv, envp)
  {
    USER_HIGH - ImageSize(argv, envp)
  }

  /** User memory with the image and the arguments pushed; then with the program loaded and
      its start address pushed. */
  function Pushed(mem: seq<Byte>, argv: Strings, envp: Strings): (m: seq<Byte>)
    requires |mem| == 0x1_0000 && Fits(argv, envp)
    ensures |m| == 0x1_0000
  {
    var base := Base(argv, envp);
    var m0 := Splice(mem, base, Image(base, argv, envp));
    PushWords(m0, base, LittleEndian(base + EnvpOffset(argv)), LittleEndian(base), LittleEndian(|argv|))
  }

  function PushWords(m: seq<Byte>, sp: nat, e: seq<Byte>, a: seq<Byte>, c: seq<Byte>): (t: seq<Byte>)
    requires 6 <= sp <= |m| && |e| == 2 && |a| == 2 && |c| == 2
    ensures |t| == |m|
  {
    Splice(Splice(Splice(m, sp - 2, e), sp - 4, a), sp - 6, c)
  }

  function Loaded(mem: seq<Byte>, argv: Strings, envp: Strings, program: seq<Byte>): (m: seq<Byte>)
    requires |mem| == 0x1_0000 && Fits(argv, envp) && USER_LOW + |program| <= USER_HIGH
    ensures |m| == 0x1_0000
  {
    Splice(Splice(Pushed(mem, argv, envp), USER_LOW, program), Base(argv, envp) - 8, LittleEndian(USER_LOW))
  }

  // ---- reading tables and areas back ----

  lemma {:induction false} TableAt(ptrs: seq<nat>, i: nat)
    requires i < |ptrs| && ptrs[i] < 0x1_0000
    ensures Word(Table(ptrs), 2 * i) == ptrs[i]
  {
    var front := ptrs[..|ptrs| - 1];
    if i < |front| {
      TableAt(front, i);
    }
  }

  lemma {:induction false} PackAt(at: nat, strings: Strings, i: nat)
    requires i < |strings|
    ensures var a := Addresses(at, strings)[i];
            && at <= a && a - at + |strings[i]| + 1 <= |Pack(strings)|
            && Pack(strings)[a - at..a - at + |strings[i]|] == strings[i]
            && Pack(strings)[a - at + |strings[i]|] == 0
  {
    var front, last := strings[..|strings| - 1], strings[|strings| - 1];
    var p, q := Pack(front), Pack(strings);
    if i < |front| {
      PackAt(at, front, i);
      var a := Addresses(at, strings)[i];
      assert a == Addresses(at, front)[i];
      assert q[..|p|] == p;
      assert q[a - at..a - at + |strings[i]|] == p[a - at..a - at + |strings[i]|];
    } else {
      assert q[|p|..|p| + |last|] == last;
    }
  }

  /** m holds data at `at`. */
  predicate Holds(m: seq<Byte>, at: nat, data: seq<Byte>) {
    at + |data| <= |m| && m[at..at + |data|] == data
  }

  lemma {:induction false} HoldsPart(m: seq<Byte>, at: nat, data: seq<Byte>, i: nat, n: nat)
    requires Holds(m, at, data) && i + n <= |data|
    ensures Holds(m, at + i, data[i..i + n])
  {
    SubRange(m, at, |data|, i, n);
  }

  lemma {:induction false} HoldsAt(m: seq<Byte>, at: nat, data: seq<Byte>, i: nat)
    requires Holds(m, at, data) && i < |data|
    ensures m[at + i] == data[i]
  {
    assert m[at..at + |data|][i] == data[i];
  }

  lemma {:induction false} HoldsPair(m: seq<Byte>, at: nat, data: seq<Byte>, i: nat, w: int)
    requires Holds(m, at, data) && i + 1 < |data| && Word(data, i) == w
    ensures at + i + 1 < |m| && Word(m, at + i) == w
  {
    HoldsAt(m, at, data, i);
    HoldsAt(m, at, data, i + 1);
  }

  lemma {:induction false} HoldsEntry(m: seq<Byte>, at: nat, data: seq<Byte>, i: nat, w: int)
    requires Holds(m, at, data) && 2 * i + 1 < |data| && Word(data, 2 * i) == w
    ensures at + 2 * i + 1 < |m| && Word(m, at + 2 * i) == w
  {
    HoldsPair(m, at, data, 2 * i, w);
  }

  lemma {:induction false} HoldsWord(m: seq<Byte>, t: nat, ptrs: seq<nat>, i: nat)
    requires Holds(m, t, Table(ptrs)) && i < |ptrs| && ptrs[i] < 0x1_0000
    ensures t + 2 * i + 1 < |m| && Word(m, t + 2 * i) == ptrs[i]
  {
    TableAt(ptrs, i);
    HoldsEntry(m, t, Table(ptrs), i, ptrs[i]);
  }

  /** What a program may pass: short strings without NULs inside. */
  predicate Short(s: seq<Byte>) {
    |s| < USER_BUFFER_SIZE && 0 !in s
  }

  ghost predicate AllShort(strings: Strings) {
    |strings| < MAX_ENTRIES && forall i :: 0 <= i < |strings| ==> Short(strings[i])
  }

  lemma {:induction false} HoldsString(m: seq<Byte>, at: nat, strings: Strings, i: nat)
    requires |m| == 0x1_0000 && Holds(m, at, Pack(strings)) && i < |strings| && Short(strings[i])
    requires USER_LOW <= at && at + |Pack(strings)| <= USER_HIGH
    ensures var a := Addresses(at, strings)[i];
            0 < a < USER_HIGH && IsString(m, a, strings[i])
  {
    PackAt(at, strings, i);
    var a, n := Addresses(at, strings)[i], |strings[i]|;
    HoldsPart(m, at, Pack(strings), a - at, n);
    HoldsAt(m, at, Pack(strings), a - at + n);
  }

  predicate TableAndArea(m: seq<Byte>, t: nat, at: nat, strings: Strings) {
    Holds(m, t, Table(Addresses(at, strings) + [0])) && Holds(m, at, Pack(strings))
  }

  /** A pointer table and the string area it points into make a vector of the strings. */
  lemma {:induction false} HoldsVector(m: seq<Byte>, t: nat, at: nat, strings: Strings)
    requires |m| == 0x1_0000 && AllShort(strings)
    requires TableAndArea(m, t, at, strings)
    requires USER_LOW <= t && t + 2 * (|strings| + 1) <= USER_HIGH
    requires USER_LOW <= at && at + |Pack(strings)| <= USER_HIGH
    ensures IsVector(m, t, strings)
  {
    var ptrs := Addresses(at, strings) + [0];
    HoldsWord(m, t, ptrs, |strings|);
    forall i | 0 <= i < |strings|
      ensures Word(m, t + 2 * i) != 0 && IsString(m, Word(m, t + 2 * i), strings[i])
    {
      assert Short(strings[i]);
      HoldsString(m, at, strings, i);
      HoldsWord(m, t, ptrs, i);
    }
  }

  /** What a program passes is short. */
  lemma {:induction false} VectorIsShort(mem: seq<Byte>, v: nat, strings: Strings)
    requires |mem| == 0x1_0000 && IsVector(mem, v, strings)
    ensures AllShort(strings)
  {
    forall i | 0 <= i < |strings| ensures Short(strings[i]) {
      assert IsString(mem, Word(mem, v + 2 * i), strings[i]);
    }
  }

  // ---- the stack ----

  lemma {:induction false} SpliceHolds(s: seq<Byte>, at: nat, data: seq<Byte>)
    requires at + |data| <= |s|
    ensures Holds(Splice(s, at, data), at, data)
  {}

  lemma {:induction false} SpliceKeeps(s: seq<Byte>, at: nat, data: seq<Byte>, other: nat, kept: seq<Byte>)
    requires at + |data| <= |s| && Holds(s, other, kept)
    requires other + |kept| <= at || at + |data| <= other
    ensures Holds(Splice(s, at, data), other, kept)
  {
    var t := Splice(s, at, data);
    var a, b := t[other..other + |kept|], s[other..other + |kept|];
    assert forall i :: 0 <= i < |kept| ==> a[i] == b[i];
  }

  lemma {:induction false} PushedHolds(mem: seq<Byte>, argv: Strings, envp: Strings)
    requires |mem| == 0x1_0000 && Fits(argv, envp)
    ensures var base := Base(argv, envp);
            var m := Pushed(mem, argv, envp);
            && Holds(m, base, Image(base, argv, envp))
            && Holds(m, base - 2, LittleEndian(base + EnvpOffset(argv)))
            && Holds(m, base - 4, LittleEndian(base))
            && Holds(m, base - 6, LittleEndian(|argv|))
  {
    var base := Base(argv, envp);
    var image := Image(base, argv, envp);
    PushedWords(Splice(mem, base, image), base, image,
                LittleEndian(base + EnvpOffset(argv)), LittleEndian(base), LittleEndian(|argv|));
  }

  lemma {:induction false} PushedWords(m: seq<Byte>, sp: nat, image: seq<Byte>, e: seq<Byte>, a: seq<Byte>,
                                       c: seq<Byte>)
    requires 6 <= sp <= |m| && |e| == 2 && |a| == 2 && |c| == 2 && Holds(m, sp, image)
    ensures var t := PushWords(m, sp, e, a, c);
            Holds(t, sp, image) && Holds(t, sp - 2, e) && Holds(t, sp - 4, a) && Holds(t, sp - 6, c)
  {
    var m1 := Splice(m, sp - 2, e);
    var m2 := Splice(m1, sp - 4, a);
    SpliceKeeps(m, sp - 2, e, sp, image);
    SpliceKeeps(m1, sp - 4, a, sp, image);
    SpliceKeeps(m2, sp - 6, c, sp, image);
    SpliceKeeps(m1, sp - 4, a, sp - 2, e);
    SpliceKeeps(m2, sp - 6, c, sp - 2, e);
    SpliceKeeps(m2, sp - 6, c, sp - 4, a);
  }

  lemma {:induction false} LoadedHolds(mem: seq<Byte>, argv: Strings, envp: Strings, program: seq<Byte>)
    requires |mem| == 0x1_0000 && Fits(argv, envp) && USER_LOW + |program| <= Base(argv, envp) - 8
    ensures var base := Base(argv, envp);
            var m := Loaded(mem, argv, envp, program);
            && Holds(m, base, Image(base, argv, envp))
            && Holds(m, base - 2, LittleEndian(base + EnvpOffset(argv)))
            && Holds(m, base - 4, LittleEndian(base))
            && Holds(m, base - 6, LittleEndian(|argv|))
            && Holds(m, base - 8, LittleEndian(USER_LOW))
            && Holds(m, USER_LOW, program)
  {
    PushedHolds(mem, argv, envp);
    var base := Base(argv, envp);
    var m0, b := Pushed(mem, argv, envp), LittleEndian(USER_LOW);
    var m1 := Splice(m0, USER_LOW, program);
    SpliceHolds(m0, USER_LOW, program);
    SpliceKeeps(m1, base - 8, b, USER_LOW, program);
    SurvivesLoad(m0, base, program, base, Image(base, argv, envp));
    SurvivesLoad(m0, base, program, base - 2, LittleEndian(base + EnvpOffset(argv)));
    SurvivesLoad(m0, base, program, base - 4, LittleEndian(base));
    SurvivesLoad(m0, base, program, base - 6, LittleEndian(|argv|));
  }

  lemma {:induction false} SurvivesLoad(m: seq<Byte>, base: nat, program: seq<Byte>, at: nat, data: seq<Byte>)
    requires base - 6 <= at && Holds(m, at, data) && base <= |m| && USER_LOW + |program| <= base - 8
    ensures Holds(Splice(Splice(m, USER_LOW, program), base - 8, LittleEndian(USER_LOW)), at, data)
  {
    SpliceKeeps(m, USER_LOW, program, at, data);
    SpliceKeeps(Splice(m, USER_LOW, program), base - 8, LittleEndian(USER_LOW), at, data);
  }

  /** The words from the new stack pointer up: the start address, argc, argv, envp. */
  ghost predicate StackIs(m: seq<Byte>, sp: nat, start: nat, argc: nat, argv: nat, envp: nat)
    requires |m| == 0x1_0000 && sp + 8 <= |m|
  {
    Word(m, sp) == start && Word(m, sp + 2) == argc && Word(m, sp + 4) == argv && Word(m, sp + 6) == envp
  }

  lemma {:induction false} Edges(m: seq<Byte>, at: nat, a: seq<Byte>, b: seq<Byte>, c: seq<Byte>, d: seq<Byte>,
                                 t: nat, p: nat, q: nat)
    requires Holds(m, at, a + b + c + d) && t == at + |a| && p == t + |b| && q == p + |c|
    ensures Holds(m, at, a) && Holds(m, t, b) && Holds(m, p, c) && Holds(m, q, d)
  {
    var all := a + b + c + d;
    HoldsPart(m, at, all, 0, |a|);
    HoldsPart(m, at, all, |a|, |b|);
    HoldsPart(m, at, all, |a| + |b|, |c|);
    HoldsPart(m, at, all, |a| + |b| + |c|, |d|);
    assert all[0..|a|] == a && all[|a|..|a| + |b|] == b;
    assert all[|a| + |b|..|a| + |b| + |c|] == c && all[|a| + |b| + |c|..|all|] == d;
  }

  lemma {:induction false} ImageParts(m: seq<Byte>, base: nat, argv: Strings, envp: Strings)
    requires Holds(m, base, Image(base, argv, envp))
    ensures TableAndArea(m, base, base + ArgvStringsOffset(argv, envp), argv)
    ensures TableAndArea(m, base + EnvpOffset(argv), base + EnvpStringsOffset(argv, envp), envp)
  {
    var t, p, q := base + EnvpOffset(argv), base + ArgvStringsOffset(argv, envp), base + EnvpStringsOffset(argv, envp);
    var a, b := Table(Addresses(p, argv) + [0]), Table(Addresses(q, envp) + [0]);
    Edges(m, base, a, b, Pack(argv), Pack(envp), t, p, q);
  }

  lemma {:induction false} ArgvVector(m: seq<Byte>, base: nat, argv: Strings, envp: Strings)
    requires |m| == 0x1_0000 && AllShort(argv)
    requires USER_LOW <= base && base + ImageSize(argv, envp) <= USER_HIGH
    requires TableAndArea(m, base, base + ArgvStringsOffset(argv, envp), argv)
    ensures IsVector(m, base, argv)
  {
    HoldsVector(m, base, base + ArgvStringsOffset(argv, envp), argv);
  }

  lemma {:induction false} EnvpVector(m: seq<Byte>, base: nat, argv: Strings, envp: Strings)
    requires |m| == 0x1_0000 && AllShort(envp)
    requires USER_LOW <= base && base + ImageSize(argv, envp) <= USER_HIGH
    requires TableAndArea(m, base + EnvpOffset(argv), base + EnvpStringsOffset(argv, envp), envp)
    ensures IsVector(m, base + EnvpOffset(argv), envp)
  {
    HoldsVector(m, base + EnvpOffset(argv), base + EnvpStringsOffset(argv, envp), envp);
  }

  lemma {:induction false} ImageVectors(m: seq<Byte>, base: nat, argv: Strings, envp: Strings)
    requires |m| == 0x1_0000 && AllShort(argv) && AllShort(envp)
    requires USER_LOW <= base && base + ImageSize(argv, envp) <= USER_HIGH
    requires Holds(m, base, Image(base, argv, envp))
    ensures IsVector(m, base, argv)
    ensures IsVector(m, base + EnvpOffset(argv), envp)
  {
    ImageParts(m, base, argv, envp);
    ArgvVector(m, base, argv, envp);
    EnvpVector(m, base, argv, envp);
  }

  /** What a new program finds: its arguments on the stack, and behind the argv and envp
      pointers the strings, under the very rules execve applies to its caller's. */
  ghost predicate Passed(m: seq<Byte>, base: nat, argv: Strings, envp: Strings)
    requires |m| == 0x1_0000
  {
    && 8 <= base <= USER_HIGH
    && StackIs(m, base - 8, USER_LOW, |argv|, base, base + EnvpOffset(argv))
    && IsVector(m, base, argv) && IsVector(m, base + EnvpOffset(argv), envp)
  }

  /** The image reads back exactly, and fills user space from its base to the top. */
  lemma {:induction false} ImageReadsBack(mem: seq<Byte>, argv: Strings, envp: Strings, program: seq<Byte>)
    requires |mem| == 0x1_0000 && AllShort(argv) && AllShort(envp)
    requires Fits(argv, envp) && USER_LOW + |program| <= Base(argv, envp) - 8
    ensures Passed(Loaded(mem, argv, envp, program), Base(argv, envp), argv, envp)
    ensures var m := Loaded(mem, argv, envp, program);
            && m[USER_LOW..USER_LOW + |program|] == program
            && m[Base(argv, envp)..USER_HIGH] == Image(Base(argv, envp), argv, envp)
            && m[USER_HIGH..] == mem[USER_HIGH..] && m[..USER_LOW] == mem[..USER_LOW]
  {
    LoadedHolds(mem, argv, envp, program);
    ImagePasses(Loaded(mem, argv, envp, program), argv, envp);
    OutsideKept(mem, argv, envp, program);
  }

  lemma {:induction false} ImagePasses(m: seq<Byte>, argv: Strings, envp: Strings)
    requires |m| == 0x1_0000 && AllShort(argv) && AllShort(envp)
    requires Fits(argv, envp) && USER_LOW + 8 <= Base(argv, envp)
    requires Holds(m, Base(argv, envp), Image(Base(argv, envp), argv, envp))
    requires Holds(m, Base(argv, envp) - 2, LittleEndian(Base(argv, envp) + EnvpOffset(argv)))
    requires Holds(m, Base(argv, envp) - 4, LittleEndian(Base(argv, envp)))
    requires Holds(m, Base(argv, envp) - 6, LittleEndian(|argv|))
             && Holds(m, Base(argv, envp) - 8, LittleEndian(USER_LOW))
    ensures Passed(m, Base(argv, envp), argv, envp)
  {
    ImageVectors(m, Base(argv, envp), argv, envp);
    StackReadsBack(m, Base(argv, envp), |argv|, Base(argv, envp) + EnvpOffset(argv));
  }

  lemma {:induction false} StackReadsBack(m: seq<Byte>, base: nat, argc: nat, envp: nat)
    requires |m| == 0x1_0000 && 8 <= base && argc < 0x1_0000 && base < 0x1_0000 && envp < 0x1_0000
    requires Holds(m, base - 2, LittleEndian(envp)) && Holds(m, base - 4, LittleEndian(base))
    requires Holds(m, base - 6, LittleEndian(argc)) && Holds(m, base - 8, LittleEndian(USER_LOW))
    ensures StackIs(m, base - 8, USER_LOW, argc, base, envp)
  {
    HoldsPair(m, base - 2, LittleEndian(envp), 0, envp);
    HoldsPair(m, base - 4, LittleEndian(base), 0, base);
    HoldsPair(m, base - 6, LittleEndian(argc), 0, argc);
    HoldsPair(m, base - 8, LittleEndian(USER_LOW), 0, USER_LOW);
  }

  lemma {:induction false} OutsideKept(mem: seq<Byte>, argv: Strings, envp: Strings, program: seq<Byte>)
    requires |mem| == 0x1_0000 && Fits(argv, envp) && USER_LOW + |program| <= Base(argv, envp) - 8
    ensures var m := Loaded(mem, argv, envp, program);
            m[USER_HIGH..] == mem[USER_HIGH..] && m[..USER_LOW] == mem[..USER_LOW]
  {
    var m := Loaded(mem, argv, envp, program);
    assert forall i :: USER_HIGH <= i < |mem| ==> m[i] == mem[i];
    assert forall i :: 0 <= i < USER_LOW ==> m[i] == mem[i];
  }

  // ---- when it does not ----

  /** Every program of a size starts whole and with its arguments exactly when it ends below
      the new stack. */
  lemma {:induction false} LoadsWhole(mem: seq<Byte>, argv: Strings, envp: Strings, size: nat)
    requires |mem| == 0x1_0000 && AllShort(argv) && AllShort(envp)
    requires Fits(argv, envp) && USER_LOW + 8 <= Base(argv, envp) && USER_LOW + size <= USER_HIGH
    ensures USER_LOW + size <= Base(argv, envp) - 8
            <==> forall program: seq<Byte> :: |program| == size ==>
                   var m := Loaded(mem, argv, envp, program);
                   Passed(m, Base(argv, envp), argv, envp) && Holds(m, USER_LOW, program)
  {
    var base := Base(argv, envp);
    if USER_LOW + size <= base - 8 {
      forall program: seq<Byte> | |program| == size
        ensures var m := Loaded(mem, argv, envp, program);
                Passed(m, base, argv, envp) && Holds(m, USER_LOW, program)
      {
        ImageReadsBack(mem, argv, envp, program);
      }
    } else {
      Clobbered(mem, argv, envp, seq(size, i => 1));
    }
  }

  lemma {:induction false} Clobbered(mem: seq<Byte>, argv: Strings, envp: Strings, program: seq<Byte>)
    requires |mem| == 0x1_0000 && Fits(argv, envp) && USER_LOW + 8 <= Base(argv, envp)
    requires Base(argv, envp) - 8 < USER_LOW + |program| <= USER_HIGH
    requires forall i :: 0 <= i < |program| ==> program[i] == 1
    ensures !Holds(Loaded(mem, argv, envp, program), USER_LOW, program)
  {
    var m, at := Loaded(mem, argv, envp, program), Base(argv, envp) - 8;
    SpliceHolds(Splice(Pushed(mem, argv, envp), USER_LOW, program), at, LittleEndian(USER_LOW));
    HoldsAt(m, at, LittleEndian(USER_LOW), 0);
    if Holds(m, USER_LOW, program) {
      HoldsAt(m, USER_LOW, program, at - USER_LOW);
      assert false;
    }
  }

  /** 130 pointers to one string of 511 bytes. */
  function Crowd(): (mem: seq<Byte>)
    ensures |mem| == 0x1_0000
  {
    seq(0x1_0000, i requires 0 <= i < 0x1_0000 =>
      if 0x2000 <= i < 0x2000 + 511 then 97 as Byte
      else if 0x3000 <= i < 0x3000 + 260 && i % 2 == 1 then 0x20 as Byte
      else 0 as Byte)
  }

  lemma {:induction false} PackSize(strings: Strings)
    requires forall i :: 0 <= i < |strings| ==> |strings[i]| == 511
    ensures |Pack(strings)| == 512 * |strings|
  {
    if strings != [] {
      PackSize(strings[..|strings| - 1]);
    }
  }

  // ---- the sizes, as computed in 16 bits ----

  function Wrapped(n: int): (w: nat)
    ensures w < 0x1_0000 && (0 <= n < 0x1_0000 ==> w == n)
  {
    n % 0x1_0000
  }

  /** envp_strings_offset, vectors_buffer_size and the first value of new_sp, from wrapped sums. */
  function EnvpStringsComputed(argv: Strings, envp: Strings): nat {
    Wrapped(ArgvStringsOffset(argv, envp) + Wrapped(|Pack(argv)|))
  }

  function SizeComputed(argv: Strings, envp: Strings): nat {
    Wrapped(EnvpStringsComputed(argv, envp) + Wrapped(|Pack(envp)|))
  }

  function BaseComputed(argv: Strings, envp: Strings): nat {
    Wrapped(USER_HIGH - SizeComputed(argv, envp))
  }

  /** Both copying loops stay inside a buffer of the computed size. */
  predicate CopiesInside(argv: Strings, envp: Strings) {
    && ArgvStringsOffset(argv, envp) + |Pack(argv)| <= SizeComputed(argv, envp)
    && EnvpStringsComputed(argv, envp) + |Pack(envp)| <= SizeComputed(argv, envp)
  }

  /** The image and the four words below it lie in user space. */
  predicate StackInside(argv: Strings, envp: Strings) {
    USER_LOW <= BaseComputed(argv, envp) - 8 && BaseComputed(argv, envp) + ImageSize(argv, envp) <= USER_HIGH
  }

  lemma {:induction false} SizeIsWrapped(argv: Strings, envp: Strings)
    ensures SizeComputed(argv, envp) == Wrapped(ImageSize(argv, envp))
  {
    var a, b, c := ArgvStringsOffset(argv, envp), |Pack(argv)|, |Pack(envp)|;
    WrappedSum(a, b);
    WrappedSum(a + b, c);
    assert Wrapped(EnvpStringsComputed(argv, envp) + Wrapped(c)) == Wrapped(Wrapped(a + b) + Wrapped(c));
  }

  lemma {:induction false} WrappedSum(a: nat, b: nat)
    ensures Wrapped(a + Wrapped(b)) == Wrapped(a + b) == Wrapped(Wrapped(a) + Wrapped(b))
  {}

  /** The size asked of malloc is the image's, and the copying loops stay inside the buffer, exactly
      while the image is smaller than 64 KiB. */
  lemma {:induction false} SizesRight(argv: Strings, envp: Strings)
    requires AllShort(argv) && AllShort(envp)
    ensures SizeComputed(argv, envp) == ImageSize(argv, envp) <==> ImageSize(argv, envp) < 0x1_0000
    ensures CopiesInside(argv, envp) <==> ImageSize(argv, envp) < 0x1_0000
  {
    SizeIsWrapped(argv, envp);
    var a, b := ArgvStringsOffset(argv, envp), |Pack(argv)|;
    assert a < 0x1_0000;
    WrappedSum(a, b);
  }

  /** Image and stack lie in user space exactly while they are no larger than it. A larger image
      below 64 KiB puts the stack below user space, or wraps its base into the kernel's page. */
  lemma {:induction false} StackRight(argv: Strings, envp: Strings)
    requires AllShort(argv) && AllShort(envp)
    ensures StackInside(argv, envp) <==> ImageSize(argv, envp) + 8 <= USER_HIGH - USER_LOW
    ensures USER_HIGH - USER_LOW < ImageSize(argv, envp) + 8 && ImageSize(argv, envp) <= USER_HIGH ==>
              BaseComputed(argv, envp) - 8 < USER_LOW
    ensures USER_HIGH < ImageSize(argv, envp) < 0x1_0000 ==> USER_HIGH < BaseComputed(argv, envp)
  {
    SizeIsWrapped(argv, envp);
  }

  /** The checks accept vectors for which the sums overflow, as pointers may share a string: 66824
      bytes are copied to a buffer of 1288. */
  lemma {:induction false} SizesCanOverflow(strings: Strings)
    requires |strings| == 130 && forall i :: 0 <= i < 130 ==> strings[i] == Crowd()[0x2000..0x2000 + 511]
    ensures IsVector(Crowd(), 0x3000, strings) && IsVector(Crowd(), 0x3000 + 260, [])
    ensures ImageSize(strings, []) == 66824 && SizeComputed(strings, []) == 1288 && !CopiesInside(strings, [])
  {
    CrowdIsVector(strings);
    VectorIsShort(Crowd(), 0x3000, strings);
    PackSize(strings);
    SizeIsWrapped(strings, []);
    SizesRight(strings, []);
  }

  lemma {:induction false} CrowdIsVector(strings: Strings)
    requires |strings| == 130 && forall i :: 0 <= i < 130 ==> strings[i] == Crowd()[0x2000..0x2000 + 511]
    ensures IsVector(Crowd(), 0x3000, strings) && IsVector(Crowd(), 0x3000 + 260, [])
  {
    var mem := Crowd();
    forall i | 0 <= i < 130 ensures Word(mem, 0x3000 + 2 * i) == 0x2000 {
      assert (0x3000 + 2 * i) % 2 == 0 && (0x3000 + 2 * i + 1) % 2 == 1;
    }
    assert Word(mem, 0x3000 + 2 * 130) == 0;
    var s := mem[0x2000..0x2000 + 511];
    assert forall i :: 0 <= i < 511 ==> s[i] == 97;
    assert IsString(mem, 0x2000, strings[0]);
  }
}
