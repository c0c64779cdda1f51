/** mem.c's view of user pointers: strings and pointer tables that a program hands to the
    kernel, read through a 512-byte window. */
module UserMemory {
  import opened Storage
  import opened Transfers

  const MAX_ENTRIES: nat := USER_BUFFER_SIZE / 2

  /** mem_user_valid_ptr. */
  predicate ValidPtr(p: int) {
    USER_LOW <= p < USER_HIGH
  }

  /** The little-endian word at p. */
  function Word(mem: seq<Byte>, p: nat): (w: nat)
    requires p + 1 < |mem|
    ensures w < 0x1_0000
  {
    (mem[p] as int) + 0x100 * (mem[p + 1] as int)
  }

  /** s is the NUL-terminated string at p, short enough for the window. */
  ghost predicate IsString(mem: seq<Byte>, p: nat, s: seq<Byte>)
    requires |mem| == 0x1_0000
  {
    && 0x1000 <= p < 0xF000 && |s| < 512
    && mem[p..p + |s|] == s && 0 !in s && mem[p + |s|] == 0
  }

  lemma {:induction false} OneString(mem: seq<Byte>, p: nat, s: seq<Byte>, t: seq<Byte>)
    requires |mem| == 0x1_0000 && IsString(mem, p, s) && IsString(mem, p, t)
    ensures s == t
  {
    if |s| < |t| {
      assert false;
    }
    if |t| < |s| {
      assert false;
    }
  }

  /** A table of n pointers and a NULL at v, the last byte of each inside user space. */
  ghost predicate IsTable(mem: seq<Byte>, v: nat, n: nat)
    requires |mem| == 0x1_0000
  {
    && 0x1000 <= v && n < 256 && v + 2 * n + 1 < 0xF000
    && (forall k :: 0 <= k < n ==> Word(mem, v + 2 * k) != 0)
    && Word(mem, v + 2 * n) == 0
  }

  lemma {:induction false} OneTable(mem: seq<Byte>, v: nat, m: nat, n: nat)
    requires |mem| == 0x1_0000 && IsTable(mem, v, m) && IsTable(mem, v, n)
    ensures m == n
  {
    if m < n {
      assert false;
    }
    if n < m {
      assert false;
    }
  }

  /** The strings that the table at v points to. */
  ghost predicate IsVector(mem: seq<Byte>, v: nat, strings: seq<seq<Byte>>)
    requires |mem| == 0x1_0000
  {
    && IsTable(mem, v, |strings|)
    && forall i :: 0 <= i < |strings| ==> IsString(mem, Word(mem, v + 2 * i), strings[i])
  }

  lemma {:induction false} OneVector(mem: seq<Byte>, v: nat, a: seq<seq<Byte>>, b: seq<seq<Byte>>)
    requires |mem| == 0x1_0000 && IsVector(mem, v, a) && IsVector(mem, v, b)
    ensures a == b
  {
    OneTable(mem, v, |a|, |b|);
    forall i | 0 <= i < |a| ensures a[i] == b[i] {
      OneString(mem, Word(mem, v + 2 * i), a[i], b[i]);
    }
  }

  /** libc strnlen. */
  function StrNLen(s: seq<Byte>, max: nat): (n: nat)
    requires max <= |s|
    ensures n <= max && 0 !in s[..n] && (n < max ==> s[n] == 0)
  {
    if max == 0 || s[0] == 0 then 0
    else
      var rest := StrNLen(s[1..], max - 1);
      assert s[..rest + 1] == [s[0]] + s[1..][..rest];
      rest + 1
  }

  /** mem_user_strlen: finds the string exactly when there is one. */
  method MemUserStrlen(s: Session, p: nat) returns (len: int)
    requires s.Mapped() && p < 0x1_0000
    modifies s.userBuffer
    ensures -1 <= len
    ensures 0 <= len ==> p + len <= 0x1_0000 && IsString(s.mem[..], p, s.mem[p..p + len])
    ensures len == -1 ==> forall t :: !IsString(s.mem[..], p, t)
  {
    if !ValidPtr(p) {
      return -1;
    }
    s.CopyToUserBuffer(p, USER_BUFFER_SIZE);
    ghost var window := s.mem[p..p + USER_BUFFER_SIZE];
    var n := StrNLen(s.userBuffer[..], USER_BUFFER_SIZE);
    assert s.userBuffer[..] == window;
    if n == USER_BUFFER_SIZE {
      NoString(s.mem[..], p);
      return -1;
    }
    assert s.mem[p..p + n] == window[..n];
    assert s.mem[p + n] == window[n];
    return n;
  }

  lemma {:induction false} NoString(mem: seq<Byte>, p: nat)
    requires |mem| == 0x1_0000 && ValidPtr(p) && 0 !in mem[p..p + USER_BUFFER_SIZE]
    ensures forall t :: !IsString(mem, p, t)
  {
    forall t ensures !IsString(mem, p, t) {
      if IsString(mem, p, t) {
        assert false;
      }
    }
  }

  /** mem_user_vector_len: finds the terminator exactly when there is one. */
  method MemUserVectorLen(s: Session, v: nat) returns (n: int)
    requires s.Mapped() && v < 0x1_0000
    modifies s.userBuffer
    ensures -1 <= n
    ensures 0 <= n ==> IsTable(s.mem[..], v, n)
    ensures n == -1 ==> forall k: nat :: !IsTable(s.mem[..], v, k)
  {
    if !ValidPtr(v) {
      return -1;
    }
    s.CopyToUserBuffer(v, USER_BUFFER_SIZE);
    ghost var window := s.mem[v..v + USER_BUFFER_SIZE];
    assert s.userBuffer[..] == window;
    n := 0;
    while n < MAX_ENTRIES
      invariant 0 <= n <= MAX_ENTRIES
      invariant forall k :: 0 <= k < n ==> ValidPtr(v + 2 * k + 1) && Word(s.mem[..], v + 2 * k) != 0
    {
      if !ValidPtr(v + (n + 1) * 2 - 1) {
        NoTable(s.mem[..], v, n);
        return -1;
      }
      assert Word(s.userBuffer[..], 2 * n) == Word(window, 2 * n) == Word(s.mem[..], v + 2 * n);
      if Word(s.userBuffer[..], 2 * n) == 0 {
        return;
      }
      n := n + 1;
    }
    NoTable(s.mem[..], v, n);
    return -1;
  }

  lemma {:induction false} NoTable(mem: seq<Byte>, v: nat, n: nat)
    requires |mem| == 0x1_0000 && ValidPtr(v) && n <= MAX_ENTRIES
    requires forall k :: 0 <= k < n ==> ValidPtr(v + 2 * k + 1) && Word(mem, v + 2 * k) != 0
    requires n == MAX_ENTRIES || !ValidPtr(v + 2 * n + 1)
    ensures forall k: nat :: !IsTable(mem, v, k)
  {
    forall k: nat ensures !IsTable(mem, v, k) {
      if IsTable(mem, v, k) {
        assert false;
      }
    }
  }
}
