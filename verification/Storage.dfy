/** dev_sd.c: transfers at any byte position over a card that only reads and writes whole
    512-byte blocks. */
module Storage {

  type Byte = x: int | 0 <= x < 256

  const SD_BLOCK_LEN: nat := 512

  /** s with data in place from index `at` on. */
  function Splice(s: seq<Byte>, at: nat, data: seq<Byte>): (t: seq<Byte>)
    requires at + |data| <= |s|
    ensures |t| == |s|
    ensures t[at..at + |data|] == data
    ensures forall i :: 0 <= i < |s| && !(at <= i < at + |data|) ==> t[i] == s[i]
  {
    s[..at] + data + s[at + |data|..]
  }

  /** Two adjacent chunks are one transfer. */
  lemma SpliceChunks(s: seq<Byte>, at: nat, a: seq<Byte>, b: seq<Byte>)
    requires at + |a| + |b| <= |s|
    ensures Splice(Splice(s, at, a), at + |a|, b) == Splice(s, at, a + b)
  {
    var t := Splice(Splice(s, at, a), at + |a|, b);
    var u := Splice(s, at, a + b);
    forall i | 0 <= i < |s| ensures t[i] == u[i] {
      if at <= i < at + |a| {
        assert t[i] == Splice(s, at, a)[i] == Splice(s, at, a)[at..at + |a|][i - at];
        assert u[i] == u[at..at + |a + b|][i - at];
      } else if at + |a| <= i < at + |a| + |b| {
        assert t[i] == t[at + |a|..at + |a| + |b|][i - at - |a|];
        assert u[i] == u[at..at + |a + b|][i - at];
      }
    }
  }

  /** A 16-bit value read as signed. */
  function Signed16(x: int): (r: int)
    ensures -0x8000 <= r < 0x8000 && (r - x) % 0x1_0000 == 0
  {
    var u := x % 0x1_0000;
    if u >= 0x8000 then u - 0x1_0000 else u
  }

  function Min(a: int, b: int): (m: int)
    ensures m <= a && m <= b && (m == a || m == b)
  {
    if a < b then a else b
  }

  // ---- single-block transfers, as an SD card performs them ----

  /** memcpy from a constant buffer. */
  method PutBytes(dst: array<Byte>, d: nat, data: seq<Byte>)
    requires d + |data| <= dst.Length
    modifies dst
    ensures dst[..] == Splice(old(dst[..]), d, data)
  {
    var i := 0;
    while i < |data|
      invariant 0 <= i <= |data|
      invariant dst[..] == Splice(old(dst[..]), d, data[..i])
    {
      dst[d + i] := data[i];
      SpliceChunks(old(dst[..]), d, data[..i], [data[i]]);
      assert data[..i + 1] == data[..i] + [data[i]];
      i := i + 1;
    }
    assert data[..i] == data;
  }

  /** CMD17: one block of the card into a buffer. */
  method ReadSingleBlock(disk: seq<Byte>, addr: nat, buf: array<Byte>, off: nat)
    requires addr % SD_BLOCK_LEN == 0 && addr + SD_BLOCK_LEN <= |disk| && off + SD_BLOCK_LEN <= buf.Length
    modifies buf
    ensures buf[..] == Splice(old(buf[..]), off, disk[addr..addr + SD_BLOCK_LEN])
  {
    PutBytes(buf, off, disk[addr..addr + SD_BLOCK_LEN]);
  }

  /** CMD24: one block of data onto the card. */
  method WriteSingleBlock(disk: array<Byte>, addr: nat, data: seq<Byte>)
    requires addr % SD_BLOCK_LEN == 0 && addr + SD_BLOCK_LEN <= disk.Length && |data| == SD_BLOCK_LEN
    modifies disk
    ensures disk[..] == Splice(old(disk[..]), addr, data)
  {
    PutBytes(disk, addr, data);
  }

  /** A block read into a buffer of the pool. */
  method BlockBuffer(disk: seq<Byte>, addr: nat) returns (block: array<Byte>)
    requires addr % SD_BLOCK_LEN == 0 && addr + SD_BLOCK_LEN <= |disk|
    ensures fresh(block) && block.Length == SD_BLOCK_LEN && block[..] == disk[addr..addr + SD_BLOCK_LEN]
  {
    block := new Byte[SD_BLOCK_LEN];
    ReadSingleBlock(disk, addr, block, 0);
  }

  /** How much of a transfer the next block carries. */
  function NextPiece(pos: nat, count: nat): (n: nat)
    requires count > 0
    ensures 0 < n <= count && pos % 512 + n <= 512
    ensures n == 512 ==> pos % 512 == 0
    ensures n < count ==> (pos + n) % 512 == 0
  {
    Min(count, SD_BLOCK_LEN - pos % SD_BLOCK_LEN)
  }

  /** The block that holds a piece lies on a card of whole blocks that holds the piece. */
  lemma BlockInside(pos: nat, n: nat, size: nat)
    requires size % SD_BLOCK_LEN == 0 && n > 0 && pos + n <= size
    ensures var addr := pos / SD_BLOCK_LEN * SD_BLOCK_LEN;
            addr % SD_BLOCK_LEN == 0 && addr + SD_BLOCK_LEN <= size && pos == addr + pos % SD_BLOCK_LEN
  {}

  /** A piece read out of its block is that range of the card. */
  lemma PieceOfBlock(disk: seq<Byte>, pos: nat, n: nat)
    requires |disk| % SD_BLOCK_LEN == 0 && n > 0 && pos + n <= |disk| && pos % SD_BLOCK_LEN + n <= SD_BLOCK_LEN
    ensures var addr := pos / SD_BLOCK_LEN * SD_BLOCK_LEN;
            addr + SD_BLOCK_LEN <= |disk|
            && disk[addr..addr + SD_BLOCK_LEN][pos % SD_BLOCK_LEN..pos % SD_BLOCK_LEN + n] == disk[pos..pos + n]
  {
    BlockInside(pos, n, |disk|);
    SubRange(disk, pos / SD_BLOCK_LEN * SD_BLOCK_LEN, SD_BLOCK_LEN, pos % SD_BLOCK_LEN, n);
  }

  /** Read-modify-write of one block changes exactly the piece. */
  lemma ReadModifyWrite(disk: seq<Byte>, pos: nat, data: seq<Byte>)
    requires |disk| % SD_BLOCK_LEN == 0 && |data| > 0 && pos + |data| <= |disk|
    requires pos % SD_BLOCK_LEN + |data| <= SD_BLOCK_LEN
    ensures var addr := pos / SD_BLOCK_LEN * SD_BLOCK_LEN;
            && addr + SD_BLOCK_LEN <= |disk|
            && Splice(disk, addr, Splice(disk[addr..addr + SD_BLOCK_LEN], pos % SD_BLOCK_LEN, data)) ==
               Splice(disk, pos, data)
  {
    BlockInside(pos, |data|, |disk|);
    var addr := pos / SD_BLOCK_LEN * SD_BLOCK_LEN;
    var k := pos % SD_BLOCK_LEN;
    var block := Splice(disk[addr..addr + SD_BLOCK_LEN], k, data);
    var t := Splice(disk, addr, block);
    var u := Splice(disk, pos, data);
    forall i | 0 <= i < |disk| ensures t[i] == u[i] {
      if addr <= i < addr + SD_BLOCK_LEN {
        assert t[i] == t[addr..addr + SD_BLOCK_LEN][i - addr] == block[i - addr];
        if pos <= i < pos + |data| {
          assert block[i - addr] == block[k..k + |data|][i - pos];
          assert u[i] == u[pos..pos + |data|][i - pos];
        }
      }
    }
  }

  /** One turn of sd_read's loop: a partial block goes through a buffer of its own. */
  method ReadPiece(disk: seq<Byte>, ghost piece: seq<Byte>, buf: array<Byte>, off: nat, n: nat, pos: nat)
    requires |disk| % SD_BLOCK_LEN == 0
    requires n > 0 && pos % SD_BLOCK_LEN + n <= SD_BLOCK_LEN && off + n <= buf.Length && pos + n <= |disk|
    requires piece == disk[pos..pos + n]
    modifies buf
    ensures buf[..] == Splice(old(buf[..]), off, piece)
  {
    PieceOfBlock(disk, pos, n);
    BlockInside(pos, n, |disk|);
    var addr := pos / SD_BLOCK_LEN * SD_BLOCK_LEN;
    if n < SD_BLOCK_LEN {
      var block := BlockBuffer(disk, addr);
      var k := pos % SD_BLOCK_LEN;
      PutBytes(buf, off, block[..][k..k + n]);
    } else {
      assert addr == pos;
      ReadSingleBlock(disk, addr, buf, off);
    }
  }

  /** A partial block is read, modified and written back. */
  method UpdateBlock(disk: array<Byte>, addr: nat, k: nat, data: seq<Byte>)
    requires addr % SD_BLOCK_LEN == 0 && addr + SD_BLOCK_LEN <= disk.Length && k + |data| <= SD_BLOCK_LEN
    modifies disk
    ensures disk[..] == Splice(old(disk[..]), addr, Splice(old(disk[..])[addr..addr + SD_BLOCK_LEN], k, data))
  {
    var block := BlockBuffer(disk[..], addr);
    PutBytes(block, k, data);
    WriteSingleBlock(disk, addr, block[..]);
  }

  /** One turn of sd_write's loop. */
  method WritePiece(disk: array<Byte>, data: seq<Byte>, pos: nat)
    requires disk.Length % SD_BLOCK_LEN == 0
    requires |data| > 0 && pos % SD_BLOCK_LEN + |data| <= SD_BLOCK_LEN && pos + |data| <= disk.Length
    modifies disk
    ensures disk[..] == Splice(old(disk[..]), pos, data)
  {
    ReadModifyWrite(disk[..], pos, data);
    BlockInside(pos, |data|, disk.Length);
    var addr := pos / SD_BLOCK_LEN * SD_BLOCK_LEN;
    if |data| < SD_BLOCK_LEN {
      UpdateBlock(disk, addr, pos % SD_BLOCK_LEN, data);
    } else {
      WriteSingleBlock(disk, addr, data);
      assert addr == pos;
    }
  }

  lemma SpliceMore(s: seq<Byte>, at: nat, data: seq<Byte>, done: nat, n: nat)
    requires done + n <= |data| && at + |data| <= |s|
    ensures Splice(Splice(s, at, data[..done]), at + done, data[done..done + n]) == Splice(s, at, data[..done + n])
  {
    SpliceChunks(s, at, data[..done], data[done..done + n]);
    assert data[..done + n] == data[..done] + data[done..done + n];
  }

  lemma SubRange(s: seq<Byte>, pos: nat, count: nat, done: nat, n: nat)
    requires pos + count <= |s| && done + n <= count
    ensures s[pos + done..pos + done + n] == s[pos..pos + count][done..done + n]
  {
    var t, u := s[pos..pos + count][done..done + n], s[pos + done..pos + done + n];
    assert forall i :: 0 <= i < n ==> t[i] == u[i];
  }

  /** One more byte in place. */
  lemma SpliceNext(s: seq<Byte>, data: seq<Byte>, done: nat)
    requires done < |s| && done < |data|
    ensures Splice(s, 0, data[..done])[done := data[done]] == Splice(s, 0, data[..done + 1])
  {
    SpliceMore(s[..done + 1], 0, data[..done + 1], done, 1);
  }

  /** The piece in its place after those already delivered. */
  method ReadNext(disk: seq<Byte>, ghost data: seq<Byte>, ghost was: seq<Byte>, buf: array<Byte>,
                  off: nat, done: nat, n: nat, pos: nat)
    requires |disk| % SD_BLOCK_LEN == 0 && n > 0 && pos % SD_BLOCK_LEN + n <= SD_BLOCK_LEN && pos + n <= |disk|
    requires off + |data| <= |was| == buf.Length && done + n <= |data| && disk[pos..pos + n] == data[done..done + n]
    requires buf[..] == Splice(was, off, data[..done])
    modifies buf
    ensures buf[..] == Splice(was, off, data[..done + n])
  {
    SpliceMore(was, off, data, done, n);
    ReadPiece(disk, data[done..done + n], buf, off + done, n, pos);
  }

  /** sd_read: exactly the range [pos, pos + count) of the card, at any alignment. */
  method SdRead(disk: seq<Byte>, minor: int, buf: array<Byte>, off: nat, count: nat, pos: nat) returns (result: int)
    requires |disk| % SD_BLOCK_LEN == 0
    requires off + count <= buf.Length && count < 0x1_0000 && (minor == 0 ==> pos + count <= |disk|)
    modifies buf
    ensures minor != 0 ==> result == -1 && buf[..] == old(buf[..])
    ensures minor == 0 ==> result == Signed16(count) && buf[..] == Splice(old(buf[..]), off, disk[pos..pos + count])
  {
    if minor != 0 {
      return -1;
    }
    ghost var was := buf[..];
    ghost var data := disk[pos..pos + count];
    var done := 0;
    while done < count
      invariant 0 <= done <= count
      invariant buf[..] == Splice(was, off, data[..done])
    {
      var bytesToDo := NextPiece(pos + done, count - done);
      SubRange(disk, pos, count, done, bytesToDo);
      ReadNext(disk, data, was, buf, off, done, bytesToDo, pos + done);
      done := done + bytesToDo;
    }
    assert data[..done] == data;
    return Signed16(done);
  }

  /** sd_write: the range [pos, pos + count) of the card becomes the buffer, and nothing else changes. */
  method SdWrite(disk: array<Byte>, minor: int, buf: seq<Byte>, pos: nat) returns (result: int)
    requires disk.Length % SD_BLOCK_LEN == 0 && |buf| < 0x1_0000 && (minor == 0 ==> pos + |buf| <= disk.Length)
    modifies disk
    ensures minor != 0 ==> result == -1 && disk[..] == old(disk[..])
    ensures minor == 0 ==> result == Signed16(|buf|) && disk[..] == Splice(old(disk[..]), pos, buf)
  {
    if minor != 0 {
      return -1;
    }
    ghost var was := disk[..];
    var done := 0;
    while done < |buf|
      invariant 0 <= done <= |buf|
      invariant disk[..] == Splice(was, pos, buf[..done])
    {
      var bytesToDo := NextPiece(pos + done, |buf| - done);
      WritePiece(disk, buf[done..done + bytesToDo], pos + done);
      SpliceMore(was, pos, buf, done, bytesToDo);
      done := done + bytesToDo;
    }
    assert buf[..done] == buf;
    return Signed16(done);
  }

  /** What was written to a range of the card is what a read of that range brings back. */
  lemma ReadAfterWrite(disk: seq<Byte>, pos: nat, data: seq<Byte>, mem: seq<Byte>, at: nat)
    requires pos + |data| <= |disk| && at + |data| <= |mem|
    ensures Splice(mem, at, Splice(disk, pos, data)[pos..pos + |data|]) == Splice(mem, at, data)
  {}
}
