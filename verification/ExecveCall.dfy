/** sys_execve itself, in place. */
module ExecveCall {
  import opened Lists
  import opened Storage
  import opened Transfers
  import opened UserMemory
  import opened Execve

  /** The strings that a list of pointers names. */
  ghost predicate Named(mem: seq<Byte>, ptrs: seq<nat>, strings: Strings)
    requires |mem| == 0x1_0000
  {
    |strings| == |ptrs| && forall i :: 0 <= i < |ptrs| ==> IsString(mem, ptrs[i], strings[i])
  }

  /** mem_memcpy_kernel_from_user of a pointer table. */
  function Pointers(mem: seq<Byte>, v: nat, n: nat): (ptrs: seq<nat>)
    requires v + 2 * n <= |mem|
    ensures |ptrs| == n
    ensures forall i :: 0 <= i < n ==> ptrs[i] == Word(mem, v + 2 * i)
  {
    seq(n, i requires 0 <= i < n => Word(mem, v + 2 * i))
  }

  lemma {:induction false} PackMore(strings: Strings, s: seq<Byte>)
    ensures Pack(strings + [s]) == Pack(strings) + s + [0]
  {
    assert (strings + [s])[..|strings|] == strings;
  }

  lemma {:induction false} NamedMore(mem: seq<Byte>, ptrs: seq<nat>, i: nat, strings: Strings, t: seq<Byte>)
    requires |mem| == 0x1_0000 && i < |ptrs| && Named(mem, ptrs[..i], strings) && IsString(mem, ptrs[i], t)
    ensures Named(mem, ptrs[..i + 1], strings + [t])
  {}

  lemma {:induction false} SizeMore(strings: Strings, t: seq<Byte>, len: nat, size: nat)
    requires size == |Pack(strings)| % 0x1_0000 && len == |t|
    ensures (size + len + 1) % 0x1_0000 == |Pack(strings + [t])| % 0x1_0000
    ensures |Pack(strings)| + len + 1 == |Pack(strings + [t])|
  {
    PackMore(strings, t);
  }

  method FindString(s: Session, p: nat) returns (len: int, ghost t: seq<Byte>)
    requires s.Mapped() && p < 0x1_0000
    modifies s.userBuffer
    ensures len >= 0 ==> IsString(s.mem[..], p, t) && len == |t|
    ensures len < 0 ==> forall t :: !IsString(s.mem[..], p, t)
  {
    len := MemUserStrlen(s, p);
    t := if len < 0 then [] else s.mem[p..p + len];
  }

  /** The loop that verifies pointers and adds up sizes, in 16 bits; `total` is the sum unwrapped. */
  method MeasureStrings(s: Session, ptrs: seq<nat>) returns (size: int, total: nat, ghost strings: Strings)
    requires s.Mapped() && forall i :: 0 <= i < |ptrs| ==> ptrs[i] < 0x1_0000
    modifies s.userBuffer
    ensures size == -1 || 0 <= size < 0x1_0000
    ensures size >= 0 ==> Named(s.mem[..], ptrs, strings) && size == |Pack(strings)| % 0x1_0000
    ensures size >= 0 ==> total == |Pack(strings)|
    ensures size == -1 ==> forall t :: !Named(s.mem[..], ptrs, t)
  {
    size, total, strings := 0, 0, [];
    for i := 0 to |ptrs|
      invariant 0 <= size < 0x1_0000 && total == |Pack(strings)|
      invariant Named(s.mem[..], ptrs[..i], strings) && size == |Pack(strings)| % 0x1_0000
    {
      var len;
      ghost var t;
      len, t := FindString(s, ptrs[i]);
      if len < 0 {
        NotNamed(s.mem[..], ptrs, i);
        return -1, 0, [];
      }
      SizeMore(strings, t, len, size);
      NamedMore(s.mem[..], ptrs, i, strings, t);
      strings := strings + [t];
      size, total := (size + len + 1) % 0x1_0000, total + len + 1;
    }
    assert ptrs[..|ptrs|] == ptrs;
  }

  lemma {:induction false} IsNamed(mem: seq<Byte>, ptrs: seq<nat>, strings: Strings, i: nat)
    requires |mem| == 0x1_0000 && Named(mem, ptrs, strings) && i < |ptrs|
    ensures IsString(mem, ptrs[i], strings[i])
  {}

  lemma {:induction false} NotNamed(mem: seq<Byte>, ptrs: seq<nat>, i: nat)
    requires |mem| == 0x1_0000 && i < |ptrs| && forall t :: !IsString(mem, ptrs[i], t)
    ensures forall t :: !Named(mem, ptrs, t)
  {
    forall t ensures !Named(mem, ptrs, t) {
      if Named(mem, ptrs, t) {
        IsNamed(mem, ptrs, t, i);
        assert false;
      }
    }
  }

  lemma {:induction false} VectorIsNamed(mem: seq<Byte>, v: nat, n: nat, strings: Strings)
    requires |mem| == 0x1_0000 && IsTable(mem, v, n)
    ensures IsVector(mem, v, strings) <==> Named(mem, Pointers(mem, v, n), strings)
  {
    if IsVector(mem, v, strings) {
      OneTable(mem, v, |strings|, n);
    }
  }

  // ---- filling the buffer ----

  /** The buffer with some strings of a vector in place. */
  function Copied(was: seq<Byte>, tableAt: nat, areaAt: nat, at: nat, strings: Strings): seq<Byte>
    requires tableAt + 2 * |strings| <= areaAt && areaAt + |Pack(strings)| <= |was|
  {
    Splice(Splice(was, tableAt, Table(Addresses(at, strings))), areaAt, Pack(strings))
  }

  /** The buffer with a whole vector in place, its table ended by NULL. */
  function Filled(was: seq<Byte>, tableAt: nat, areaAt: nat, at: nat, strings: Strings): seq<Byte>
    requires tableAt + 2 * |strings| + 2 <= areaAt && areaAt + |Pack(strings)| <= |was|
  {
    Splice(Splice(was, tableAt, Table(Addresses(at, strings) + [0])), areaAt, Pack(strings))
  }

  lemma {:induction false} SpliceSwap(s: seq<Byte>, a: nat, x: seq<Byte>, b: nat, y: seq<Byte>)
    requires a + |x| <= b && b + |y| <= |s|
    ensures Splice(Splice(s, b, y), a, x) == Splice(Splice(s, a, x), b, y)
  {
    var t, u := Splice(Splice(s, b, y), a, x), Splice(Splice(s, a, x), b, y);
    SpliceKeeps(Splice(s, b, y), a, x, b, y);
    SpliceKeeps(Splice(s, a, x), b, y, a, x);
    forall i | 0 <= i < |s| ensures t[i] == u[i] {
      if a <= i < a + |x| {
        HoldsAt(t, a, x, i - a);
        HoldsAt(u, a, x, i - a);
      } else if b <= i < b + |y| {
        HoldsAt(t, b, y, i - b);
        HoldsAt(u, b, y, i - b);
      }
    }
  }

  lemma {:induction false} TableMore(ptrs: seq<nat>, p: nat)
    ensures Table(ptrs + [p]) == Table(ptrs) + LittleEndian(p)
  {
    assert (ptrs + [p])[..|ptrs|] == ptrs;
  }

  lemma {:induction false} AddressesMore(at: nat, strings: Strings, s: seq<Byte>)
    ensures Addresses(at, strings + [s]) == Addresses(at, strings) + [at + |Pack(strings)|]
  {
    assert (strings + [s])[..|strings|] == strings;
  }

  /** A word at the end of the first of two splices. */
  lemma {:induction false} ExtendFirst(s: seq<Byte>, a: nat, x: seq<Byte>, p: nat, w: seq<Byte>, b: nat, y: seq<Byte>)
    requires p == a + |x| && p + |w| <= b && b + |y| <= |s|
    ensures Splice(Splice(Splice(s, a, x), b, y), p, w) == Splice(Splice(s, a, x + w), b, y)
  {
    SpliceSwap(Splice(s, a, x), p, w, b, y);
    SpliceNextChunk(s, a, x, p, w);
  }

  lemma {:induction false} SpliceNextChunk(s: seq<Byte>, a: nat, x: seq<Byte>, p: nat, y: seq<Byte>)
    requires p == a + |x| && p + |y| <= |s|
    ensures Splice(Splice(s, a, x), p, y) == Splice(s, a, x + y)
  {
    SpliceChunks(s, a, x, y);
  }

  lemma {:induction false} CopyMore(was: seq<Byte>, tableAt: nat, areaAt: nat, at: nat, strings: Strings, s: seq<Byte>,
                                    before: seq<Byte>, a: nat, w: seq<Byte>, b: nat, text: seq<Byte>)
    requires tableAt + 2 * |strings| + 2 <= areaAt && areaAt + |Pack(strings)| + |s| + 1 <= |was|
    requires before == Copied(was, tableAt, areaAt, at, strings)
    requires a == tableAt + 2 * |strings| && w == LittleEndian(at + |Pack(strings)|)
    requires b == areaAt + |Pack(strings)| && text == s + [0]
    ensures |Pack(strings + [s])| == |Pack(strings)| + |s| + 1
    ensures Splice(Splice(before, a, w), b, text) == Copied(was, tableAt, areaAt, at, strings + [s])
  {
    var table, area := Table(Addresses(at, strings)), Pack(strings);
    PackMore(strings, s);
    AddressesMore(at, strings, s);
    TableMore(Addresses(at, strings), at + |area|);
    assert area + s + [0] == area + text;
    ExtendBoth(was, tableAt, table, w, areaAt, area, text, a, b);
  }

  /** A word at the end of the first and a text at the end of the second. */
  lemma {:induction false} ExtendBoth(s: seq<Byte>, tableAt: nat, x: seq<Byte>, w: seq<Byte>,
                                      areaAt: nat, y: seq<Byte>, text: seq<Byte>, a: nat, b: nat)
    requires tableAt + |x| + |w| <= areaAt && areaAt + |y| + |text| <= |s| && a == tableAt + |x| && b == areaAt + |y|
    ensures Splice(Splice(Splice(Splice(s, tableAt, x), areaAt, y), a, w), b, text)
            == Splice(Splice(s, tableAt, x + w), areaAt, y + text)
  {
    ExtendFirst(s, tableAt, x, a, w, areaAt, y);
    SpliceNextChunk(Splice(s, tableAt, x + w), areaAt, y, b, text);
  }

  lemma {:induction false} CopyEnds(was: seq<Byte>, tableAt: nat, areaAt: nat, at: nat, strings: Strings,
                                    before: seq<Byte>, a: nat, w: seq<Byte>)
    requires tableAt + 2 * |strings| + 2 <= areaAt && areaAt + |Pack(strings)| <= |was|
    requires before == Copied(was, tableAt, areaAt, at, strings)
    requires a == tableAt + 2 * |strings| && w == LittleEndian(0)
    ensures Splice(before, a, w) == Filled(was, tableAt, areaAt, at, strings)
  {
    TableMore(Addresses(at, strings), 0);
    ExtendFirst(was, tableAt, Table(Addresses(at, strings)), a, w, areaAt, Pack(strings));
  }

  /** A vector's strings are a prefix's strings and the rest. */
  lemma {:induction false} PackPrefix(strings: Strings, i: nat)
    requires i < |strings|
    ensures |Pack(strings[..i])| + |strings[i]| + 1 <= |Pack(strings)|
  {
    if i < |strings| - 1 {
      var front := strings[..|strings| - 1];
      PackPrefix(front, i);
      assert front[..i] == strings[..i];
    } else {
      assert strings[..i] == strings[..|strings| - 1];
    }
  }

  /** The second mem_user_strlen on a string finds what the first one found. */
  method StrlenAgain(s: Session, p: nat, ghost t: seq<Byte>) returns (len: nat)
    requires s.Mapped() && p < 0x1_0000 && IsString(s.mem[..], p, t)
    modifies s.userBuffer
    ensures len == |t| && p + len + 1 <= s.mem.Length && s.mem[p..p + len + 1] == t + [0]
  {
    ghost var mem := s.mem[..];
    var n := MemUserStrlen(s, p);
    assert s.mem[..] == mem && IsString(mem, p, t);
    if n < 0 {
      assert false;
    }
    len := n;
    OneString(mem, p, t, s.mem[p..p + len]);
  }

  lemma {:induction false} PrefixMore(strings: Strings, i: nat)
    requires i < |strings|
    ensures strings[..i + 1] == strings[..i] + [strings[i]]
    ensures |Pack(strings[..i + 1])| == |Pack(strings[..i])| + |strings[i]| + 1 <= |Pack(strings)|
  {
    assert strings[..i + 1] == strings[..i] + [strings[i]];
    PackMore(strings[..i], strings[i]);
    PackPrefix(strings, i);
  }

  method PutTwice(buffer: array<Byte>, a: nat, x: seq<Byte>, b: nat, y: seq<Byte>, ghost before: seq<Byte>)
    requires a + |x| <= buffer.Length && b + |y| <= buffer.Length && buffer[..] == before
    modifies buffer
    ensures buffer[..] == Splice(Splice(before, a, x), b, y)
  {
    PutBytes(buffer, a, x);
    PutBytes(buffer, b, y);
  }

  /** One string and its pointer. */
  method CopyString(s: Session, p: nat, buffer: array<Byte>, tableAt: nat, areaAt: nat, newSp: nat,
                    i: nat, offset: nat, ghost was: seq<Byte>, ghost done: Strings,
                        ghost t: seq<Byte>) returns (len: nat)
    requires s.Mapped() && buffer != s.mem && buffer != s.userBuffer && p < 0x1_0000
    requires IsString(s.mem[..], p, t) && i == |done| && offset == |Pack(done)|
    requires tableAt + 2 * i + 2 <= areaAt && areaAt + offset + |t| + 1 <= buffer.Length == |was|
    requires buffer[..] == Copied(was, tableAt, areaAt, newSp + areaAt, done)
    modifies buffer, s.userBuffer
    ensures len == |t| && |Pack(done + [t])| == offset + len + 1
    ensures buffer[..] == Copied(was, tableAt, areaAt, newSp + areaAt, done + [t])
  {
    len := StrlenAgain(s, p, t);
    var a, w := tableAt + 2 * i, LittleEndian(newSp + areaAt + offset);
    var b, text := areaAt + offset, s.mem[p..p + len + 1];
    ghost var before := Copied(was, tableAt, areaAt, newSp + areaAt, done);
    CopyMore(was, tableAt, areaAt, newSp + areaAt, done, t, before, a, w, b, text);
    PutTwice(buffer, a, w, b, text, before);
  }

  /** The loop that copies a vector's strings. */
  method CopyStrings(s: Session, ptrs: seq<nat>, buffer: array<Byte>, tableAt: nat, areaAt: nat, newSp: nat,
                     ghost was: seq<Byte>, ghost strings: Strings)
    requires s.Mapped() && buffer != s.mem && buffer != s.userBuffer && buffer[..] == was
    requires Named(s.mem[..], ptrs, strings)
    requires tableAt + 2 * |strings| + 2 <= areaAt && areaAt + |Pack(strings)| <= buffer.Length
    modifies buffer, s.userBuffer
    ensures buffer[..] == Copied(was, tableAt, areaAt, newSp + areaAt, strings)
  {
    var offset := 0;
    for i := 0 to |ptrs|
      invariant offset == |Pack(strings[..i])| <= |Pack(strings)|
      invariant buffer[..] == Copied(was, tableAt, areaAt, newSp + areaAt, strings[..i])
    {
      PrefixMore(strings, i);
      IsNamed(s.mem[..], ptrs, strings, i);
      var len := CopyString(s, ptrs[i], buffer, tableAt, areaAt, newSp, i, offset, was, strings[..i], strings[i]);
      offset := offset + len + 1;
    }
    assert strings[..|ptrs|] == strings;
  }

  /** The NULL that ends a vector's table. */
  method PutNull(buffer: array<Byte>, tableAt: nat, areaAt: nat, at: nat, n: nat, ghost was: seq<Byte>,
                 ghost strings: Strings)
    requires n == |strings| && tableAt + 2 * n + 2 <= areaAt && areaAt + |Pack(strings)| <= |was| == buffer.Length
    requires buffer[..] == Copied(was, tableAt, areaAt, at, strings)
    modifies buffer
    ensures buffer[..] == Filled(was, tableAt, areaAt, at, strings)
  {
    var a, w := tableAt + 2 * n, LittleEndian(0);
    CopyEnds(was, tableAt, areaAt, at, strings, buffer[..], a, w);
    PutBytes(buffer, a, w);
  }

  lemma {:induction false} FourParts(z: seq<Byte>, a: seq<Byte>, b: seq<Byte>, c: seq<Byte>, d: seq<Byte>, p: nat,
                                     q: nat, r: nat)
    requires p == |a| && q == |a| + |b| && r == |a| + |b| + |c| && |z| == r + |d|
    ensures Splice(Splice(Splice(Splice(z, 0, a), q, c), p, b), r, d) == a + b + c + d
  {
    var z1 := Splice(z, 0, a);
    var z2 := Splice(z1, q, c);
    var z3 := Splice(z2, p, b);
    SpliceKeeps(z1, q, c, 0, a);
    SpliceKeeps(z2, p, b, 0, a);
    SpliceKeeps(z2, p, b, q, c);
    assert z3[..p] == a && z3[p..q] == b && z3[q..r] == c;
    assert z3[..r] == a + b + c;
  }

  lemma {:induction false} ImageIs(base: nat, argv: Strings, envp: Strings, argvStrings: nat, envpStrings: nat)
    requires argvStrings == ArgvStringsOffset(argv, envp) && envpStrings == EnvpStringsOffset(argv, envp)
    ensures Image(base, argv, envp) == Table(Addresses(base + argvStrings, argv) + [0])
                                       + Table(Addresses(base + envpStrings, envp) + [0]) + Pack(argv) + Pack(envp)
  {}

  lemma {:induction false} FilledBoth(z: seq<Byte>, base: nat, argv: Strings, envp: Strings,
                                      mid: seq<Byte>, envpOffset: nat, argvStrings: nat, envpStrings: nat)
    requires |z| == ImageSize(argv, envp) && envpOffset == EnvpOffset(argv)
    requires argvStrings == ArgvStringsOffset(argv, envp) && envpStrings == EnvpStringsOffset(argv, envp)
    requires mid == Filled(z, 0, argvStrings, base + argvStrings, argv)
    ensures Filled(mid, envpOffset, envpStrings, base + envpStrings, envp) == Image(base, argv, envp)
  {
    var a, b := Table(Addresses(base + argvStrings, argv) + [0]), Table(Addresses(base + envpStrings, envp) + [0]);
    var c, d := Pack(argv), Pack(envp);
    FourParts(z, a, b, c, d, envpOffset, argvStrings, envpStrings);
    ImageIs(base, argv, envp, argvStrings, envpStrings);
  }

  /** One vector's table and strings. */
  method FillVector(s: Session, ptrs: seq<nat>, buffer: array<Byte>, tableAt: nat, areaAt: nat, newSp: nat,
                    ghost was: seq<Byte>, ghost strings: Strings)
    requires s.Mapped() && buffer != s.mem && buffer != s.userBuffer && buffer[..] == was
    requires Named(s.mem[..], ptrs, strings)
    requires tableAt + 2 * |strings| + 2 <= areaAt && areaAt + |Pack(strings)| <= buffer.Length
    modifies buffer, s.userBuffer
    ensures buffer[..] == Filled(was, tableAt, areaAt, newSp + areaAt, strings)
  {
    CopyStrings(s, ptrs, buffer, tableAt, areaAt, newSp, was, strings);
    PutNull(buffer, tableAt, areaAt, newSp + areaAt, |ptrs|, was, strings);
  }

  /** The second vector completes the image. */
  method FillSecond(s: Session, ev: seq<nat>, buffer: array<Byte>, envpOffset: nat, ghost argvStrings: nat,
                    envpStrings: nat,
                    newSp: nat, ghost z: seq<Byte>, ghost argv: Strings, ghost envp: Strings)
    requires s.Mapped() && Named(s.mem[..], ev, envp) && buffer != s.mem && buffer != s.userBuffer
    requires envpOffset == EnvpOffset(argv) && envpStrings == EnvpStringsOffset(argv, envp)
             && |z| == ImageSize(argv, envp)
    requires argvStrings == ArgvStringsOffset(argv, envp) && buffer[..] ==
             Filled(z, 0, argvStrings, newSp + argvStrings, argv)
    modifies buffer, s.userBuffer
    ensures buffer[..] == Image(newSp, argv, envp)
  {
    ghost var mid := buffer[..];
    FilledBoth(z, newSp, argv, envp, mid, envpOffset, argvStrings, envpStrings);
    FillVector(s, ev, buffer, envpOffset, envpStrings, newSp, mid, envp);
  }

  /** The whole image, in a kernel buffer. */
  method BuildImage(s: Session, av: seq<nat>, ev: seq<nat>, argvSize: nat, envpSize: nat, newSp: nat,
                    ghost argv: Strings, ghost envp: Strings) returns (buffer: array<Byte>)
    requires s.Mapped() && Named(s.mem[..], av, argv) && Named(s.mem[..], ev, envp)
    requires argvSize == |Pack(argv)| && envpSize == |Pack(envp)|
    modifies s.userBuffer
    ensures fresh(buffer) && buffer[..] == Image(newSp, argv, envp)
  {
    var envpOffset := (|av| + 1) * 2;
    var argvStrings := envpOffset + (|ev| + 1) * 2;
    var envpStrings := argvStrings + argvSize;
    buffer := new Byte[envpStrings + envpSize];
    ghost var z := buffer[..];
    FillVector(s, av, buffer, 0, argvStrings, newSp, z, argv);
    FillSecond(s, ev, buffer, envpOffset, argvStrings, envpStrings, newSp, z, argv, envp);
  }

  // ---- the call ----

  ghost predicate Given(mem: seq<Byte>, argvPtr: nat, envpPtr: nat, argv: Strings, envp: Strings)
    requires |mem| == 0x1_0000
  {
    IsVector(mem, argvPtr, argv) && IsVector(mem, envpPtr, envp)
  }

  /** What each malloc of the call gives. */
  datatype Heap = Heap(argvTable: bool, envpTable: bool, buffer: bool)

  /** The checks: both vectors, or a reason to fail. */
  method GatherVectors(s: Session, argvPtr: nat, envpPtr: nat, heap: Heap)
    returns (ok: bool, av: seq<nat>, ev: seq<nat>, argvSize: nat, envpSize: nat, total: nat,
             ghost argv: Strings, ghost envp: Strings)
    requires s.Mapped() && argvPtr < 0x1_0000 && envpPtr < 0x1_0000
    modifies s.userBuffer
    ensures ok ==> heap.argvTable && heap.envpTable && Given(s.mem[..], argvPtr, envpPtr, argv, envp)
    ensures ok ==> Named(s.mem[..], av, argv)
    ensures ok ==> Named(s.mem[..], ev, envp)
    ensures ok ==> argvSize == |Pack(argv)| % 0x1_0000 && envpSize == |Pack(envp)| % 0x1_0000
    ensures ok ==> total == |Pack(argv)| + |Pack(envp)|
    ensures !ok && heap.argvTable && heap.envpTable ==> forall a, e :: !Given(s.mem[..], argvPtr, envpPtr, a, e)
  {
    ok, av, ev, argvSize, envpSize, total, argv, envp := false, [], [], 0, 0, 0, [], [];
    var argc := MemUserVectorLen(s, argvPtr);
    var envc := MemUserVectorLen(s, envpPtr);
    if argc < 0 || envc < 0 {
      return;
    }
    if !heap.argvTable {
      return;
    }
    ghost var mem := s.mem[..];
    av := Pointers(s.mem[..], argvPtr, argc);
    forall t ensures IsVector(mem, argvPtr, t) <==> Named(mem, av, t) {
      VectorIsNamed(mem, argvPtr, argc, t);
    }
    var size, length;
    size, length, argv := MeasureStrings(s, av);
    if size < 0 {
      return;
    }
    argvSize, total := size, length;
    if !heap.envpTable {
      return;
    }
    ev := Pointers(s.mem[..], envpPtr, envc);
    forall t ensures IsVector(mem, envpPtr, t) <==> Named(mem, ev, t) {
      VectorIsNamed(mem, envpPtr, envc, t);
    }
    size, length, envp := MeasureStrings(s, ev);
    if size < 0 {
      return;
    }
    envpSize, total := size, total + length;
    ok := true;
  }

  /** The image to the top of user space, then envp, argv and argc below it. */
  method PushImage(s: Session, buffer: array<Byte>, newSp: nat, envpAt: nat, argc: nat,
                   ghost before: seq<Byte>, ghost argv: Strings, ghost envp: Strings)
    requires s.Mapped() && buffer != s.mem && s.mem[..] == before && Fits(argv, envp) && newSp == Base(argv, envp)
    requires envpAt == Base(argv, envp) + EnvpOffset(argv) && argc == |argv| && buffer[..] == Image(newSp, argv, envp)
    modifies s.mem
    ensures s.mem[..] == Pushed(before, argv, envp)
  {
    var image, e, a, c := buffer[..], LittleEndian(envpAt), LittleEndian(newSp), LittleEndian(argc);
    PushedIs(before, argv, envp, newSp, image, e, a, c);
    PutBytes(s.mem, newSp, image);
    PutWords(s, newSp, e, a, c, s.mem[..]);
  }

  lemma {:induction false} PushedIs(mem: seq<Byte>, argv: Strings, envp: Strings,
                                    base: nat, image: seq<Byte>, e: seq<Byte>, a: seq<Byte>, c: seq<Byte>)
    requires |mem| == 0x1_0000 && Fits(argv, envp) && base == Base(argv, envp) && image == Image(base, argv, envp)
    requires e == LittleEndian(Base(argv, envp) + EnvpOffset(argv)) && a == LittleEndian(base)
             && c == LittleEndian(|argv|)
    ensures PushWords(Splice(mem, base, image), base, e, a, c) == Pushed(mem, argv, envp)
  {}

  method PutWords(s: Session, sp: nat, e: seq<Byte>, a: seq<Byte>, c: seq<Byte>, ghost before: seq<Byte>)
    requires 6 <= sp <= s.mem.Length && |e| == 2 && |a| == 2 && |c| == 2 && s.mem[..] == before
    modifies s.mem
    ensures s.mem[..] == PushWords(before, sp, e, a, c)
  {
    PutTwice(s.mem, sp - 2, e, sp - 4, a, before);
    PutBytes(s.mem, sp - 6, c);
  }

  const PROGRAM_MAX: nat := 0xE000

  /** What sys_open gives: a free slot, a new open file, and its node. */
  datatype Opened = Opened(fd: int, o: OpenId, node: Node)

  /** The slot and the open file are free, and the node's first 0xE000 bytes can be asked for. */
  ghost predicate Openable(w: World, file: Option<Opened>) {
    file.Some? ==>
      && 0 <= file.value.fd < |w.slots| && w.slots[file.value.fd].None? && file.value.o !in w.opens
      && NodeOk(file.value.node) && (file.value.node == Card(0) ==> PROGRAM_MAX <= |w.disk|)
  }

  /** The program file's bytes that end up in memory. */
  function Program(w: World, node: Node): (program: seq<Byte>)
    ensures |program| <= PROGRAM_MAX
  {
    Piece(node, w.disk, 0, PROGRAM_MAX)
  }

  /** sys_open, sys_read and sys_close: the read's result goes unused. */
  method LoadProgram(s: Session, file: Opened)
    requires s.Valid() && Openable(s.View(), Some(file))
    modifies s`slots, s`opens, s.mem, s.userBuffer
    ensures s.Valid()
    ensures var w := old(s.View()); s.View() == w.(mem := Splice(w.mem, USER_LOW, Program(w, file.node)))
  {
    ghost var w := s.View();
    s.opens := s.opens[file.o := OpenFile(file.node, 0)];
    s.slots := s.slots[file.fd := Some(file.o)];
    ghost var v := s.View();
    OpenKeeps(w, file);
    var _ := s.SysRead(file.fd, USER_LOW, PROGRAM_MAX);
    s.opens := s.opens - {file.o};
    s.slots := s.slots[file.fd := None];
    assert s.slots == w.slots && s.opens == w.opens;
  }

  lemma {:induction false} OpenKeeps(w: World, file: Opened)
    requires WorldOk(w) && Openable(w, Some(file))
    ensures WorldOk(w.(opens := w.opens[file.o := OpenFile(file.node, 0)], slots := w.slots[file.fd := Some(file.o)]))
  {}

  /** What a successful set of arguments leads to. */
  ghost predicate Executed(w: World, v: World, r: int, sp: Option<nat>, argv: Strings, envp: Strings,
                           file: Option<Opened>)
    requires |w.mem| == 0x1_0000
  {
    && Fits(argv, envp)
    && if file.None? then r == -1 && sp == None && v == w.(mem := Pushed(w.mem, argv, envp))
       else r == 0 && sp == Some(Base(argv, envp) - 8)
            && v == w.(mem := Loaded(w.mem, argv, envp, Program(w, file.value.node)))
  }

  method Load(s: Session, newSp: nat, file: Option<Opened>, ghost w: World, ghost argv: Strings, ghost envp: Strings)
    returns (r: int, sp: Option<nat>)
    requires s.Valid() && WorldOk(w) && Openable(w, file) && Fits(argv, envp) && newSp == Base(argv, envp)
    requires s.View() == w.(mem := Pushed(w.mem, argv, envp))
    modifies s`slots, s`opens, s.mem, s.userBuffer
    ensures s.Valid() && Executed(w, s.View(), r, sp, argv, envp, file)
  {
    if file.None? {
      return -1, None;
    }
    LoadProgram(s, file.value);
    PushStart(s, newSp, Program(w, file.value.node), w, argv, envp);
    return 0, Some(newSp - 8);
  }

  /** Last, the address that execution starts at. */
  method PushStart(s: Session, newSp: nat, ghost program: seq<Byte>, ghost w: World, ghost argv: Strings,
                   ghost envp: Strings)
    requires s.Valid() && WorldOk(w) && Fits(argv, envp) && newSp == Base(argv, envp)
    requires USER_LOW + |program| <= USER_HIGH
    requires s.View() == w.(mem := Splice(Pushed(w.mem, argv, envp), USER_LOW, program))
    modifies s.mem
    ensures s.Valid() && s.View() == w.(mem := Loaded(w.mem, argv, envp, program))
  {
    PutBytes(s.mem, newSp - 8, LittleEndian(USER_LOW));
  }

  /** Everything after the checks. */
  method Start(s: Session, av: seq<nat>, ev: seq<nat>, argvSize: nat, envpSize: nat, total: nat, file: Option<Opened>,
               ghost w: World, ghost argv: Strings, ghost envp: Strings)
    returns (r: int, sp: Option<nat>, overrun: bool)
    requires s.Valid() && s.View() == w && Openable(w, file)
    requires Named(w.mem, av, argv) && Named(w.mem, ev, envp) && total == |Pack(argv)| + |Pack(envp)|
    requires argvSize == |Pack(argv)| % 0x1_0000 && envpSize == |Pack(envp)| % 0x1_0000
    modifies s`slots, s`opens, s.mem, s.userBuffer
    ensures s.Valid() && (overrun <==> !Fits(argv, envp))
    ensures Fits(argv, envp) ==> Executed(w, s.View(), r, sp, argv, envp, file)
  {
    var envpOffset := (|av| + 1) * 2;
    var argvStrings := envpOffset + (|ev| + 1) * 2;
    var size := ((argvStrings + argvSize) % 0x1_0000 + envpSize) % 0x1_0000;
    OverrunExactly(argv, envp, size, argvStrings + total);
    if size != argvStrings + total || size + 8 > USER_HIGH {
      return -1, None, true;
    }
    var newSp := USER_HIGH - size;
    var buffer := BuildImage(s, av, ev, argvSize, envpSize, newSp, argv, envp);
    PushImage(s, buffer, newSp, newSp + envpOffset, |av|, w.mem, argv, envp);
    r, sp := Load(s, newSp, file, w, argv, envp);
    overrun := false;
  }

  /** sys_execve. A call that its checks or malloc turn down changes nothing of the caller. One whose
      image with its stack does not fit below 0xF000 ends in `overrun`: the code goes on to write
      outside its buffer or, through wrapped addresses, outside the memory it means, which this model
      does not follow. One whose program cannot be opened fails with the caller's memory already
      overwritten; any other leaves exactly the image, the stack and the program. */
  method SysExecve(s: Session, argvPtr: nat, envpPtr: nat, heap: Heap, file: Option<Opened>)
    returns (r: int, sp: Option<nat>, overrun: bool)
    requires s.Valid() && argvPtr < 0x1_0000 && envpPtr < 0x1_0000 && Openable(s.View(), file)
    modifies s`slots, s`opens, s.mem, s.userBuffer
    ensures s.Valid()
    ensures heap == Heap(true, true, true) ==>
              forall a, e :: Given(old(s.mem[..]), argvPtr, envpPtr, a, e) ==>
                               && (overrun <==> !Fits(a, e))
                               && (Fits(a, e) ==> Executed(old(s.View()), s.View(), r, sp, a, e, file))
    ensures heap != Heap(true, true, true) || (forall a, e :: !Given(old(s.mem[..]), argvPtr, envpPtr, a, e)) ==>
              r == -1 && sp == None && !overrun && s.View() == old(s.View())
  {
    ghost var w := s.View();
    var ok, av, ev, argvSize, envpSize, total;
    ghost var argv, envp;
    ok, av, ev, argvSize, envpSize, total, argv, envp := GatherVectors(s, argvPtr, envpPtr, heap);
    if !ok {
      return -1, None, false;
    }
    OnlyGiven(w.mem, argvPtr, envpPtr, argv, envp);
    if !heap.buffer {
      return -1, None, false;
    }
    r, sp, overrun := Start(s, av, ev, argvSize, envpSize, total, file, w, argv, envp);
  }

  /** The model leaves off exactly where the computed size is wrong or the stack's addresses wrap. */
  lemma {:induction false} OverrunExactly(argv: Strings, envp: Strings, size: nat, written: nat)
    requires size == SizeComputed(argv, envp) && written == ImageSize(argv, envp)
    ensures size != written || size + 8 > USER_HIGH <==> !Fits(argv, envp)
    ensures Fits(argv, envp) ==> size == written
    ensures Fits(argv, envp) ==> |Pack(argv)| % 0x1_0000 == |Pack(argv)| && |Pack(envp)| % 0x1_0000 == |Pack(envp)|
  {
    SizeIsWrapped(argv, envp);
  }

  lemma {:induction false} OnlyGiven(mem: seq<Byte>, argvPtr: nat, envpPtr: nat, argv: Strings, envp: Strings)
    requires |mem| == 0x1_0000 && Given(mem, argvPtr, envpPtr, argv, envp)
    ensures forall a, e :: Given(mem, argvPtr, envpPtr, a, e) ==> a == argv && e == envp
  {
    forall a, e | Given(mem, argvPtr, envpPtr, a, e) ensures a == argv && e == envp {
      OneVector(mem, argvPtr, a, argv);
      OneVector(mem, envpPtr, e, envp);
    }
  }

  /** A program started with this stack pointer finds these vectors, and no others, behind the
      argv and envp pointers on its stack. */
  ghost predicate Inherits(m: seq<Byte>, sp: nat, argv: Strings, envp: Strings) {
    && |m| == 0x1_0000 && sp + 8 <= |m|
    && Word(m, sp) == 0x1000 && Word(m, sp + 2) == |argv|
    && var argvAt, envpAt := Word(m, sp + 4), Word(m, sp + 6);
       forall a, e :: Given(m, argvAt, envpAt, a, e) <==> a == argv && e == envp
  }

  lemma {:induction false} PassedOn(m: seq<Byte>, base: nat, argv: Strings, envp: Strings)
    requires |m| == 0x1_0000 && Passed(m, base, argv, envp)
    ensures Inherits(m, base - 8, argv, envp)
  {
    assert Word(m, base - 4) == base && Word(m, base - 2) == base + EnvpOffset(argv);
    OnlyGiven(m, base, base + EnvpOffset(argv), argv, envp);
  }

  /** The round trip: the vectors that a new program finds are the vectors its caller passed,
      and its pointers would pass execve's own checks again. */
  lemma {:induction false} ExecveHandsOn(w: World, v: World, r: int, sp: Option<nat>, argvPtr: nat, envpPtr: nat,
                                         argv: Strings, envp: Strings, file: Option<Opened>)
    requires |w.mem| == 0x1_0000 && Given(w.mem, argvPtr, envpPtr, argv, envp)
    requires file.Some? && Executed(w, v, r, sp, argv, envp, file)
    requires USER_LOW + |Program(w, file.value.node)| <= Base(argv, envp) - 8
    ensures r == 0 && sp.Some? && Inherits(v.mem, sp.value, argv, envp)
    ensures Holds(v.mem, USER_LOW, Program(w, file.value.node))
  {
    VectorIsShort(w.mem, argvPtr, argv);
    VectorIsShort(w.mem, envpPtr, envp);
    ImageReadsBack(w.mem, argv, envp, Program(w, file.value.node));
    PassedOn(v.mem, Base(argv, envp), argv, envp);
  }

  /** The program arrives: of the file's first 0xE000 bytes each one that lands below the new stack is
      in memory at 0x1000 and up, in order. */
  lemma {:induction false} ProgramArrives(w: World, v: World, r: int, sp: Option<nat>, argv: Strings, envp: Strings,
                                          file: Option<Opened>, content: seq<Byte>)
    requires |w.mem| == 0x1_0000 && file.Some? && Executed(w, v, r, sp, argv, envp, file)
    requires file.value.node == Plain(Some(content))
             || (file.value.node == Card(0) && 0xE000 <= |w.disk| && content == w.disk)
    ensures r == 0 && sp.Some? && |v.mem| == 0x1_0000 && sp.value <= 0xF000
    ensures forall j :: 0x1000 <= j < sp.value && j - 0x1000 < |content| && j - 0x1000 < 0xE000 ==>
              v.mem[j] == content[j - 0x1000]
  {
    ProgramIs(w, file.value.node, content);
    forall j | 0x1000 <= j < sp.value && j - 0x1000 < |content| && j - 0x1000 < 0xE000
      ensures v.mem[j] == content[j - 0x1000] {
      BelowStack(w.mem, argv, envp, Program(w, file.value.node), j);
    }
  }

  /** The new stack pointer: below 0xF000 lie two tables with their NULLs, the two areas of strings, and four
      words; and a call whose vectors leave no room for them overruns. */
  lemma {:induction false} StackAt(w: World, v: World, r: int, sp: Option<nat>, argv: Strings, envp: Strings,
                                   file: Option<Opened>)
    requires |w.mem| == 0x1_0000
    ensures Fits(argv, envp) <==> 2 * (|argv| + |envp| + 2) + |Pack(argv)| + |Pack(envp)| + 8 <= 0xF000
    ensures file.Some? && Executed(w, v, r, sp, argv, envp, file) ==>
              && r == 0 && sp.Some?
              && sp.value + 8 + 2 * (|argv| + |envp| + 2) + |Pack(argv)| + |Pack(envp)| == 0xF000
  {}

  /** A program file of up to 0xE000 bytes that ends below the new stack is in memory whole. */
  lemma {:induction false} ProgramWhole(w: World, v: World, r: int, sp: Option<nat>, argv: Strings, envp: Strings,
                                        file: Option<Opened>, image: seq<Byte>)
    requires |w.mem| == 0x1_0000 && file.Some? && Executed(w, v, r, sp, argv, envp, file)
    requires file.value.node == Plain(Some(image)) && |image| <= 0xE000
    requires sp.Some? && 0x1000 + |image| <= sp.value
    ensures sp.value <= |v.mem| && v.mem[0x1000..0x1000 + |image|] == image
  {
    ProgramArrives(w, v, r, sp, argv, envp, file, image);
    var found := v.mem[0x1000..0x1000 + |image|];
    forall i | 0 <= i < |image| ensures found[i] == image[i] {
      assert found[i] == v.mem[0x1000 + i];
    }
  }

  lemma {:induction false} ProgramIs(w: World, node: Node, content: seq<Byte>)
    requires node == Plain(Some(content)) || (node == Card(0) && 0xE000 <= |w.disk| && content == w.disk)
    ensures Program(w, node) <= content
    ensures |Program(w, node)| == if |content| < 0xE000 then |content| else 0xE000
  {
    PieceIs(node, w.disk, 0, PROGRAM_MAX);
  }

  lemma {:induction false} BelowStack(mem: seq<Byte>, argv: Strings, envp: Strings, program: seq<Byte>, j: nat)
    requires |mem| == 0x1_0000 && Fits(argv, envp) && USER_LOW + |program| <= USER_HIGH
    requires USER_LOW <= j < USER_LOW + |program| && j < Base(argv, envp) - 8
    ensures Loaded(mem, argv, envp, program)[j] == program[j - USER_LOW]
  {
    var m := Splice(Pushed(mem, argv, envp), USER_LOW, program);
    SpliceHolds(Pushed(mem, argv, envp), USER_LOW, program);
    HoldsAt(m, USER_LOW, program, j - USER_LOW);
  }
}
