/** sys_read and sys_write, in chunks of 512 bytes. */
module Transfers {
  import opened Lists
  import opened Storage
  import OpenFiles

  const USER_BUFFER_SIZE: nat := 0x200
  const USER_LOW: nat := 0x1000
  const USER_HIGH: nat := 0xF000

  /** A plain file is an initrd entry, which may have no image. */
  datatype Node = Plain(image: Option<seq<Byte>>) | Card(minor: int) | Directory
  datatype OpenFile = OpenFile(node: Node, pos: nat)
  type OpenId = OpenFiles.OpenId

  /** The calling process's memory and descriptor slots, and the card and open files of everybody.
      After dup2 several slots name one open file. */
  datatype World = World(mem: seq<Byte>, disk: seq<Byte>, slots: seq<Option<OpenId>>, opens: map<OpenId, OpenFile>)

  /** Sizes: a 16-bit file size, whole blocks on the card, 64 KiB of user addresses; and no slot
      names a freed open file, as FileRuns.ReferenceCounts proves. */
  ghost predicate WorldOk(w: World) {
    && |w.mem| == 0x1_0000 && |w.disk| % SD_BLOCK_LEN == 0 && |w.slots| == OpenFiles.MAX_OPEN_FILES
    && (forall fd :: 0 <= fd < |w.slots| && w.slots[fd].Some? ==> w.slots[fd].value in w.opens)
    && (forall o :: o in w.opens ==> NodeOk(w.opens[o].node))
  }

  predicate NodeOk(node: Node) {
    node.Plain? && node.image.Some? ==> |node.image.value| < 0x1_0000
  }

  // ---- what one flat transfer does ----

  function Content(node: Node, disk: seq<Byte>): seq<Byte> {
    if node.Plain? && node.image.Some? then node.image.value else if node == Card(0) then disk else []
  }

  /** How many bytes there are to read. */
  function Reach(node: Node, disk: seq<Byte>, pos: nat, count: nat): (n: nat)
    ensures n <= count && (n > 0 ==> pos + n <= |Content(node, disk)|)
    ensures n < count ==> |Content(node, disk)| <= pos + n
  {
    var size := |Content(node, disk)|;
    if pos >= size then 0 else Min(count, size - pos)
  }

  function Piece(node: Node, disk: seq<Byte>, pos: nat, count: nat): (data: seq<Byte>)
    ensures |data| == Reach(node, disk, pos, count)
  {
    var n := Reach(node, disk, pos, count);
    if n == 0 then [] else Content(node, disk)[pos..pos + n]
  }

  predicate IsOpen(w: World, fd: int) {
    0 <= fd < OpenFiles.MAX_OPEN_FILES && fd < |w.slots| && w.slots[fd].Some? && w.slots[fd].value in w.opens
  }

  /** The open file that a slot names. */
  function FileAt(w: World, fd: int): OpenFile
    requires IsOpen(w, fd)
  {
    w.opens[w.slots[fd].value]
  }

  predicate ReadAccepted(w: World, fd: int, buf: nat, count: nat) {
    IsOpen(w, fd) && USER_LOW <= buf && buf + count <= USER_HIGH
  }

  predicate WriteAccepted(w: World, fd: int, buf: nat, count: nat) {
    IsOpen(w, fd) && USER_LOW <= buf && buf + count < USER_HIGH
  }

  /** The card answers for its own blocks only. */
  predicate OnCard(w: World, fd: int, count: nat) {
    IsOpen(w, fd) && FileAt(w, fd).node == Card(0) ==> FileAt(w, fd).pos + count <= |w.disk|
  }

  /** The open file moved on; every slot that names it sees that. */
  function Advanced(w: World, fd: int, n: nat): map<OpenId, OpenFile>
    requires IsOpen(w, fd)
  {
    var f := FileAt(w, fd);
    w.opens[w.slots[fd].value := f.(pos := f.pos + n)]
  }

  function ReadCall(w: World, fd: int, buf: nat, count: nat): (World, int)
    requires WorldOk(w)
  {
    if !ReadAccepted(w, fd, buf, count) then (w, -1)
    else
      var f := FileAt(w, fd);
      var data := Piece(f.node, w.disk, f.pos, count);
      (w.(mem := Splice(w.mem, buf, data), opens := Advanced(w, fd, |data|)),
       if data == [] && count > 0 then -1 else Signed16(|data|))
  }

  function WriteCall(w: World, fd: int, buf: nat, count: nat): (World, int)
    requires WorldOk(w) && OnCard(w, fd, count)
  {
    if !WriteAccepted(w, fd, buf, count) then (w, -1)
    else
      var f := FileAt(w, fd);
      if f.node == Card(0) then
        (w.(disk := Splice(w.disk, f.pos, w.mem[buf..buf + count]), opens := Advanced(w, fd, count)), Signed16(count))
      else
        (w, if f.node.Plain? || count == 0 then 0 else -1)
  }

  /** lseek to an absolute position. */
  function SeekCall(w: World, fd: int, pos: nat): World
    requires IsOpen(w, fd)
  {
    w.(opens := w.opens[w.slots[fd].value := FileAt(w, fd).(pos := pos)])
  }

  // ---- reads ----

  /** After a full chunk, what the next one brings is what the whole transfer still lacks. */
  lemma NextChunk(node: Node, disk: seq<Byte>, pos: nat, count: nat, done: nat, inc: nat)
    requires done + inc <= count && done <= Reach(node, disk, pos, count)
    ensures var n := Reach(node, disk, pos + done, inc);
            && done + n <= Reach(node, disk, pos, count)
            && (n < inc ==> Reach(node, disk, pos, count) == done + n)
            && Piece(node, disk, pos + done, inc) == Piece(node, disk, pos, count)[done..done + n]
  {
    var n := Reach(node, disk, pos + done, inc);
    if n > 0 {
      SubRange(Content(node, disk), pos, Reach(node, disk, pos, count), done, n);
    }
  }

  /** fs_initrd_read: a read is cut off at the end of the file. */
  method FsInitrdRead(image: Option<seq<Byte>>, buf: array<Byte>, count: nat, pos: nat) returns (r: int)
    requires NodeOk(Plain(image)) && count <= buf.Length
    modifies buf
    ensures var data := Piece(Plain(image), [], pos, count);
            && r == (if image.None? || pos >= |image.value| then -1 else Signed16(|data|))
            && data <= buf[..]
    ensures image.Some? && pos < |image.value| ==>
              var n := if count < |image.value| - pos then count else |image.value| - pos;
              buf[..n] == image.value[pos..pos + n] && (r - n) % 0x1_0000 == 0
  {
    if image.Some? {
      var size := |image.value|;
      if pos >= size {
        return -1;
      }
      var n := if pos + count > size then size - pos else count;
      PutBytes(buf, 0, image.value[pos..pos + n]);
      return Signed16(n);
    }
    return -1;
  }

  /** file_read, for one chunk. */
  method FileRead(node: Node, disk: seq<Byte>, buf: array<Byte>, count: nat, pos: nat) returns (r: int)
    requires NodeOk(node) && |disk| % SD_BLOCK_LEN == 0 && 0 < count <= buf.Length == USER_BUFFER_SIZE
    requires node == Card(0) ==> pos + count <= |disk|
    modifies buf
    ensures var data := Piece(node, disk, pos, count);
            r == (if data == [] then -1 else |data|) && data <= buf[..]
  {
    match node {
      case Plain(image) =>
        r := FsInitrdRead(image, buf, count, pos);
      case Card(minor) =>
        r := SdRead(disk, minor, buf, 0, count, pos);
      case Directory =>
        r := -1;
    }
  }

  /** file_write, for one chunk: initrd has no write operation. */
  method FileWrite(node: Node, disk: array<Byte>, data: seq<Byte>, pos: nat) returns (r: int)
    requires disk.Length % SD_BLOCK_LEN == 0 && 0 < |data| <= USER_BUFFER_SIZE
    requires node == Card(0) ==> pos + |data| <= disk.Length
    modifies disk
    ensures node == Card(0) ==> r == |data| && disk[..] == Splice(old(disk[..]), pos, data)
    ensures node != Card(0) ==> r == (if node.Plain? then 0 else -1) && disk[..] == old(disk[..])
  {
    match node {
      case Plain(image) =>
        r := 0;
      case Card(minor) =>
        r := SdWrite(disk, minor, data, pos);
      case Directory =>
        r := -1;
    }
  }

  /** What sys_read has to deliver, and the state once it has delivered `done` of it. */
  function Wanted(w: World, fd: int, count: nat): seq<Byte>
    requires IsOpen(w, fd)
  {
    Piece(FileAt(w, fd).node, w.disk, FileAt(w, fd).pos, count)
  }

  function ReadSoFar(w: World, fd: int, buf: nat, count: nat, done: nat): World
    requires IsOpen(w, fd) && done <= |Wanted(w, fd, count)| && buf + count <= |w.mem|
  {
    w.(mem := Splice(w.mem, buf, Wanted(w, fd, count)[..done]), opens := Advanced(w, fd, done))
  }

  /** What one chunk does. */
  function ChunkRead(v: World, fd: int, at: nat, inc: nat): World
    requires IsOpen(v, fd) && at + inc <= |v.mem|
  {
    var data := Wanted(v, fd, inc);
    v.(mem := Splice(v.mem, at, data), opens := Advanced(v, fd, |data|))
  }

  lemma AdvancedTwice(w: World, v: World, fd: int, a: nat, b: nat)
    requires IsOpen(w, fd) && v.slots == w.slots && v.opens == Advanced(w, fd, a)
    ensures IsOpen(v, fd) && Advanced(v, fd, b) == Advanced(w, fd, a + b)
  {}

  /** The next chunk is the next part of what is wanted. */
  lemma WantedNext(w: World, fd: int, count: nat, done: nat, inc: nat, v: World)
    requires IsOpen(w, fd) && done <= |Wanted(w, fd, count)| && done + inc <= count
    requires v.slots == w.slots && v.disk == w.disk && v.opens == Advanced(w, fd, done)
    ensures IsOpen(v, fd)
    ensures var n := |Wanted(v, fd, inc)|;
            && done + n <= |Wanted(w, fd, count)|
            && (n < inc ==> done + n == |Wanted(w, fd, count)|)
            && Wanted(v, fd, inc) == Wanted(w, fd, count)[done..done + n]
  {
    NextChunk(FileAt(w, fd).node, w.disk, FileAt(w, fd).pos, count, done, inc);
  }

  lemma ReadOn(w: World, fd: int, buf: nat, count: nat, done: nat, inc: nat, v: World)
    requires WorldOk(w) && ReadAccepted(w, fd, buf, count) && OnCard(w, fd, count)
    requires done <= |Wanted(w, fd, count)| && done + inc <= count && v == ReadSoFar(w, fd, buf, count, done)
    ensures IsOpen(v, fd) && OnCard(v, fd, inc)
    ensures var n := |Wanted(v, fd, inc)|;
            && done + n <= |Wanted(w, fd, count)|
            && (n < inc ==> done + n == |Wanted(w, fd, count)|)
            && ChunkRead(v, fd, buf + done, inc) == ReadSoFar(w, fd, buf, count, done + n)
  {
    WantedNext(w, fd, count, done, inc, v);
    var n := |Wanted(v, fd, inc)|;
    SpliceMore(w.mem, buf, Wanted(w, fd, count), done, n);
    AdvancedTwice(w, v, fd, done, n);
  }

  lemma ReadReady(w: World, fd: int, buf: nat, count: nat, done: nat, inc: nat, v: World)
    requires WorldOk(w) && ReadAccepted(w, fd, buf, count) && OnCard(w, fd, count)
    requires done <= |Wanted(w, fd, count)| && done + inc <= count && v == ReadSoFar(w, fd, buf, count, done)
    ensures WorldOk(v) && IsOpen(v, fd) && OnCard(v, fd, inc) && buf + done + inc <= |v.mem|
  {
    ReadOn(w, fd, buf, count, done, inc, v);
  }

  /** Where a chunk with result r leads. */
  lemma ReadTurned(w: World, fd: int, buf: nat, count: nat, done: nat, inc: nat, v: World, r: int)
    requires WorldOk(w) && ReadAccepted(w, fd, buf, count) && OnCard(w, fd, count) && inc > 0
    requires done <= |Wanted(w, fd, count)| && done + inc <= count && v == ReadSoFar(w, fd, buf, count, done)
    requires IsOpen(v, fd) && r == (if Wanted(v, fd, inc) == [] then -1 else |Wanted(v, fd, inc)|)
    ensures var next := if r < 0 then done else done + r;
            && done <= next <= |Wanted(w, fd, count)| && (r < inc ==> next == |Wanted(w, fd, count)|)
            && ChunkRead(v, fd, buf + done, inc) == ReadSoFar(w, fd, buf, count, next)
  {
    ReadOn(w, fd, buf, count, done, inc, v);
  }

  lemma ReadStarts(w: World, fd: int, buf: nat, count: nat)
    requires ReadAccepted(w, fd, buf, count) && buf + count <= |w.mem|
    ensures ReadSoFar(w, fd, buf, count, 0) == w
  {
    assert Splice(w.mem, buf, []) == w.mem;
    assert Advanced(w, fd, 0) == w.opens;
  }

  lemma ReadEnds(w: World, fd: int, buf: nat, count: nat, done: nat, v: World)
    requires WorldOk(w) && ReadAccepted(w, fd, buf, count)
    requires done == |Wanted(w, fd, count)| && v == ReadSoFar(w, fd, buf, count, done)
    ensures v == ReadCall(w, fd, buf, count).0
    ensures ReadCall(w, fd, buf, count).1 == if done == 0 && count > 0 then -1 else Signed16(done)
  {
    assert Wanted(w, fd, count)[..done] == Wanted(w, fd, count);
  }

  // ---- writes ----

  predicate ToCard(w: World, fd: int) {
    IsOpen(w, fd) && FileAt(w, fd).node == Card(0)
  }

  function WriteSoFar(w: World, fd: int, buf: nat, count: nat, done: nat): World
    requires ToCard(w, fd) && OnCard(w, fd, count) && done <= count && buf + count <= |w.mem|
  {
    w.(disk := Splice(w.disk, FileAt(w, fd).pos, w.mem[buf..buf + count][..done]), opens := Advanced(w, fd, done))
  }

  /** What one chunk does to the card. */
  function ChunkWrite(v: World, fd: int, at: nat, inc: nat): World
    requires ToCard(v, fd) && OnCard(v, fd, inc) && at + inc <= |v.mem|
  {
    v.(disk := Splice(v.disk, FileAt(v, fd).pos, v.mem[at..at + inc]), opens := Advanced(v, fd, inc))
  }

  lemma WriteOn(w: World, fd: int, buf: nat, count: nat, done: nat, inc: nat, v: World)
    requires WorldOk(w) && WriteAccepted(w, fd, buf, count) && OnCard(w, fd, count) && ToCard(w, fd)
    requires done + inc <= count && v == WriteSoFar(w, fd, buf, count, done)
    ensures WorldOk(v) && ToCard(v, fd) && OnCard(v, fd, inc)
    ensures ChunkWrite(v, fd, buf + done, inc) == WriteSoFar(w, fd, buf, count, done + inc)
  {
    SubRange(w.mem, buf, count, done, inc);
    SpliceMore(w.disk, FileAt(w, fd).pos, w.mem[buf..buf + count], done, inc);
    AdvancedTwice(w, v, fd, done, inc);
  }

  /** Before any chunk of an accepted write, to the card or not. */
  lemma WriteReady(w: World, fd: int, buf: nat, count: nat, done: nat, inc: nat, v: World)
    requires WorldOk(w) && WriteAccepted(w, fd, buf, count) && OnCard(w, fd, count) && done + inc <= count
    requires if ToCard(w, fd) then v == WriteSoFar(w, fd, buf, count, done) else v == w
    ensures WorldOk(v) && IsOpen(v, fd) && OnCard(v, fd, inc) && FileAt(v, fd).node == FileAt(w, fd).node
    ensures ToCard(w, fd) ==> ChunkWrite(v, fd, buf + done, inc) == WriteSoFar(w, fd, buf, count, done + inc)
  {
    if ToCard(w, fd) {
      WriteOn(w, fd, buf, count, done, inc, v);
    }
  }

  lemma WriteStarts(w: World, fd: int, buf: nat, count: nat)
    requires ToCard(w, fd) && OnCard(w, fd, count) && buf + count <= |w.mem|
    ensures WriteSoFar(w, fd, buf, count, 0) == w
  {
    assert Splice(w.disk, FileAt(w, fd).pos, []) == w.disk;
    assert Advanced(w, fd, 0) == w.opens;
  }

  lemma WriteEnds(w: World, fd: int, buf: nat, count: nat, v: World)
    requires WorldOk(w) && WriteAccepted(w, fd, buf, count) && OnCard(w, fd, count) && ToCard(w, fd)
    requires v == WriteSoFar(w, fd, buf, count, count)
    ensures v == WriteCall(w, fd, buf, count).0 && WriteCall(w, fd, buf, count).1 == Signed16(count)
  {
    assert w.mem[buf..buf + count][..count] == w.mem[buf..buf + count];
  }

  // ---- what the calls promise ----

  /** The descriptors that name fd's open file have moved on by n, and nothing else has moved. */
  ghost predicate MovesTogether(w: World, v: World, fd: int, n: nat)
    requires IsOpen(w, fd)
  {
    && v.slots == w.slots && v.opens.Keys == w.opens.Keys
    && (forall k :: IsOpen(w, k) && w.slots[k] == w.slots[fd] ==>
        FileAt(v, k) == FileAt(w, fd).(pos := FileAt(w, fd).pos + n))
    && (forall k :: IsOpen(w, k) && w.slots[k] != w.slots[fd] ==> FileAt(v, k) == FileAt(w, k))
    && (forall o :: o in w.opens && Some(o) != w.slots[fd] ==> v.opens[o] == w.opens[o])
  }

  /** A read changes bytes of its buffer inside user space, and the position of one open file.
      Of the caller's descriptors exactly those that name that open file move, all together;
      no other open file of any process moves. */
  lemma ReadTouches(w: World, fd: int, buf: nat, count: nat)
    requires WorldOk(w)
    ensures var v := ReadCall(w, fd, buf, count).0;
            && WorldOk(v) && v.disk == w.disk
            && (forall i :: 0 <= i < |w.mem| && v.mem[i] != w.mem[i] ==>
                0x1000 <= buf <= i < buf + count <= 0xF000)
            && if ReadAccepted(w, fd, buf, count) then MovesTogether(w, v, fd, |Wanted(w, fd, count)|)
               else v == w
  {}

  /** A write to the card moves the same descriptors; it changes no memory. */
  lemma WriteTouches(w: World, fd: int, buf: nat, count: nat)
    requires WorldOk(w) && OnCard(w, fd, count)
    ensures var v := WriteCall(w, fd, buf, count).0;
            && WorldOk(v) && v.mem == w.mem
            && if WriteAccepted(w, fd, buf, count) && ToCard(w, fd) then MovesTogether(w, v, fd, count) else v == w
  {}

  /** Through a duplicated descriptor a read goes on where the other one stopped: two descriptors
      of one open file divide the file between them. */
  lemma DuplicatesShare(w: World, fd: int, k: int, buf: nat, a: nat, b: nat)
    requires WorldOk(w) && ReadAccepted(w, fd, buf, a + b) && OnCard(w, fd, a + b)
    requires IsOpen(w, k) && w.slots[k] == w.slots[fd]
    ensures ReadCall(ReadCall(w, fd, buf, a).0, k, buf + a, b).0 == ReadCall(w, fd, buf, a + b).0
  {
    ReadSplits(w, fd, buf, a, b);
    SameFileSameRead(ReadCall(w, fd, buf, a).0, fd, k, buf + a, b);
  }

  lemma SameFileSameRead(v: World, fd: int, k: int, at: nat, count: nat)
    requires WorldOk(v) && IsOpen(v, fd) && IsOpen(v, k) && v.slots[k] == v.slots[fd]
    ensures ReadCall(v, k, at, count) == ReadCall(v, fd, at, count)
  {}

  /** The 16-bit return value is the count exactly below 32 KiB; -1 says that nothing was there to read. */
  lemma ReadReturns(w: World, fd: int, buf: nat, count: nat)
    requires WorldOk(w) && ReadAccepted(w, fd, buf, count) && OnCard(w, fd, count)
    ensures var f := FileAt(w, fd);
            var n := |Wanted(w, fd, count)|;
            var r := ReadCall(w, fd, buf, count).1;
            && n == (if f.pos >= |Content(f.node, w.disk)| then 0 else Min(count, |Content(f.node, w.disk)| - f.pos))
            && (r == n <==> n < 0x8000 && (n > 0 || count == 0))
            && (r == -1 <==> n == 0 && count > 0)
            && (r < -1 <==> n >= 0x8000)
  {}

  /** The bytes that a read of this length finds at pos, spelled out for each kind of node. */
  lemma PieceIs(node: Node, disk: seq<Byte>, pos: nat, count: nat)
    ensures var data := Piece(node, disk, pos, count);
            match node
            case Plain(Some(image)) =>
              && (pos >= |image| ==> data == [])
              && (pos < |image| ==>
                    && |data| == (if count < |image| - pos then count else |image| - pos)
                    && data == image[pos..pos + |data|])
            case Card(minor) =>
              && (minor == 0 && pos + count <= |disk| ==> data == disk[pos..pos + count])
              && (minor != 0 ==> data == [])
            case _ => data == []
  {}

  /** An accepted read of an initrd file brings its bytes, from the position on, in order, up to the
      end of the file. */
  lemma ReadBringsFile(w: World, fd: int, buf: nat, count: nat, image: seq<Byte>)
    requires WorldOk(w) && 0 <= fd < 8 && IsOpen(w, fd) && 0x1000 <= buf && buf + count <= 0xF000
    requires FileAt(w, fd).node == Plain(Some(image))
    ensures var (v, r) := ReadCall(w, fd, buf, count);
            var pos := FileAt(w, fd).pos;
            var n := if pos >= |image| then 0 else if count < |image| - pos then count else |image| - pos;
            && (forall j :: buf <= j < buf + n ==> v.mem[j] == image[pos + j - buf])
            && (forall i :: 0 <= i < |w.mem| && !(buf <= i < buf + n) ==> v.mem[i] == w.mem[i])
            && IsOpen(v, fd) && FileAt(v, fd).pos == pos + n
            && (n == 0 && count > 0 ==> r == -1) && (n > 0 || count == 0 ==> (r - n) % 0x1_0000 == 0)
  {
    var pos := FileAt(w, fd).pos;
    PieceIs(Plain(Some(image)), w.disk, pos, count);
    BroughtAt(w.mem, buf, Piece(Plain(Some(image)), w.disk, pos, count), image, pos);
  }

  /** An accepted read of the card brings exactly the bytes there. */
  lemma ReadBringsCard(w: World, fd: int, buf: nat, count: nat)
    requires WorldOk(w) && 0 <= fd < 8 && IsOpen(w, fd) && 0x1000 <= buf && buf + count <= 0xF000
    requires FileAt(w, fd).node == Card(0) && FileAt(w, fd).pos + count <= |w.disk|
    ensures var (v, r) := ReadCall(w, fd, buf, count);
            var pos := FileAt(w, fd).pos;
            && (forall j :: buf <= j < buf + count ==> v.mem[j] == w.disk[pos + j - buf])
            && (forall i :: 0 <= i < |w.mem| && !(buf <= i < buf + count) ==> v.mem[i] == w.mem[i])
            && IsOpen(v, fd) && FileAt(v, fd).pos == pos + count && (r - count) % 0x1_0000 == 0
  {
    PieceIs(Card(0), w.disk, FileAt(w, fd).pos, count);
    BroughtAt(w.mem, buf, Piece(Card(0), w.disk, FileAt(w, fd).pos, count), w.disk, FileAt(w, fd).pos);
  }

  lemma BroughtAt(mem: seq<Byte>, buf: nat, data: seq<Byte>, content: seq<Byte>, pos: nat)
    requires buf + |data| <= |mem| && (|data| > 0 ==> pos + |data| <= |content| && data == content[pos..pos + |data|])
    ensures var m := Splice(mem, buf, data);
            && (forall j :: buf <= j < buf + |data| ==> m[j] == content[pos + j - buf])
            && (forall i :: 0 <= i < |mem| && !(buf <= i < buf + |data|) ==> m[i] == mem[i])
  {
    var m := Splice(mem, buf, data);
    forall j | buf <= j < buf + |data| ensures m[j] == content[pos + j - buf] {
      assert m[buf..buf + |data|][j - buf] == data[j - buf];
    }
  }

  /** An accepted write to the card puts the buffer's bytes there, in order, and nothing else changes;
      a write to anything else changes nothing. */
  lemma WritePuts(w: World, fd: int, buf: nat, count: nat)
    requires WorldOk(w) && 0 <= fd < 8 && IsOpen(w, fd) && 0x1000 <= buf && buf + count < 0xF000
    requires FileAt(w, fd).node == Card(0) ==> FileAt(w, fd).pos + count <= |w.disk|
    ensures var (v, r) := WriteCall(w, fd, buf, count);
            var pos := FileAt(w, fd).pos;
            && v.mem == w.mem && |v.disk| == |w.disk|
            && (FileAt(w, fd).node == Card(0) ==>
                  && (forall j :: pos <= j < pos + count ==> v.disk[j] == w.mem[buf + j - pos])
                  && (forall i :: 0 <= i < |w.disk| && !(pos <= i < pos + count) ==> v.disk[i] == w.disk[i])
                  && IsOpen(v, fd) && FileAt(v, fd).pos == pos + count && (r - count) % 0x1_0000 == 0)
            && (FileAt(w, fd).node != Card(0) ==>
                  v == w && r == if FileAt(w, fd).node.Plain? || count == 0 then 0 else -1)
  {
    if FileAt(w, fd).node == Card(0) {
      BroughtAt(w.disk, FileAt(w, fd).pos, w.mem[buf..buf + count], w.mem, buf);
    }
  }

  /** A call is turned down, with -1 and no effect, exactly for a bad descriptor or a buffer outside user space. */
  lemma TurnedDown(w: World, fd: int, buf: nat, count: nat)
    requires WorldOk(w)
    ensures !(0 <= fd < 8 && w.slots[fd].Some? && 0x1000 <= buf && buf + count <= 0xF000) ==>
              ReadCall(w, fd, buf, count) == (w, -1)
    ensures OnCard(w, fd, count) && !(0 <= fd < 8 && w.slots[fd].Some? && 0x1000 <= buf && buf + count < 0xF000) ==>
              WriteCall(w, fd, buf, count) == (w, -1)
  {}

  lemma ReadIsPrefix(w: World, fd: int, buf: nat, a: nat, b: nat)
    requires WorldOk(w) && ReadAccepted(w, fd, buf, a + b) && OnCard(w, fd, a + b)
    ensures |Wanted(w, fd, a)| <= |Wanted(w, fd, a + b)|
    ensures |Wanted(w, fd, a)| < a ==> |Wanted(w, fd, a)| == |Wanted(w, fd, a + b)|
    ensures ReadCall(w, fd, buf, a).0 == ReadSoFar(w, fd, buf, a + b, |Wanted(w, fd, a)|)
  {
    var f := FileAt(w, fd);
    NextChunk(f.node, w.disk, f.pos, a + b, 0, a);
    var n := |Wanted(w, fd, a)|;
    assert Wanted(w, fd, a + b)[..n] == Wanted(w, fd, a + b)[0..n];
  }

  lemma ReadNothing(v: World, fd: int, at: nat, count: nat)
    requires WorldOk(v) && ReadAccepted(v, fd, at, count) && Wanted(v, fd, count) == []
    ensures ReadCall(v, fd, at, count).0 == v
  {
    assert Splice(v.mem, at, []) == v.mem;
    assert Advanced(v, fd, 0) == v.opens;
  }

  lemma ReadAll(w: World, fd: int, buf: nat, count: nat, n: nat)
    requires WorldOk(w) && ReadAccepted(w, fd, buf, count) && n == |Wanted(w, fd, count)|
    ensures ReadCall(w, fd, buf, count).0 == ReadSoFar(w, fd, buf, count, n)
  {
    assert Wanted(w, fd, count)[..n] == Wanted(w, fd, count);
  }

  lemma ReadFills(w: World, fd: int, a: nat, b: nat)
    requires IsOpen(w, fd) && |Wanted(w, fd, a)| == a
    ensures var f := FileAt(w, fd);
            |Wanted(w, fd, a + b)| == a + Reach(f.node, w.disk, f.pos + a, b)
  {}

  lemma ChunkIsRead(v: World, fd: int, at: nat, inc: nat)
    requires WorldOk(v) && ReadAccepted(v, fd, at, inc)
    ensures ReadCall(v, fd, at, inc).0 == ChunkRead(v, fd, at, inc)
  {}

  lemma SoFarAccepts(w: World, fd: int, buf: nat, count: nat, done: nat, inc: nat)
    requires WorldOk(w) && ReadAccepted(w, fd, buf, count) && done <= |Wanted(w, fd, count)| && done + inc <= count
    ensures WorldOk(ReadSoFar(w, fd, buf, count, done))
    ensures ReadAccepted(ReadSoFar(w, fd, buf, count, done), fd, buf + done, inc)
  {}

  lemma ReadSplitsFull(w: World, fd: int, buf: nat, a: nat, b: nat, v: World)
    requires WorldOk(w) && ReadAccepted(w, fd, buf, a + b) && OnCard(w, fd, a + b)
    requires a == |Wanted(w, fd, a)| <= |Wanted(w, fd, a + b)| && v == ReadSoFar(w, fd, buf, a + b, a)
    requires WorldOk(v) && ReadAccepted(v, fd, buf + a, b)
    ensures ChunkRead(v, fd, buf + a, b) == ReadCall(w, fd, buf, a + b).0
  {
    var m := |Wanted(v, fd, b)|;
    ReadOn(w, fd, buf, a + b, a, b, v);
    assert a + m == |Wanted(w, fd, a + b)| by { ReadFills(w, fd, a, b); }
    ReadAll(w, fd, buf, a + b, a + m);
  }

  /** Two reads in a row are one read of both lengths, at the end of the file as well. */
  lemma ReadSplits(w: World, fd: int, buf: nat, a: nat, b: nat)
    requires WorldOk(w) && ReadAccepted(w, fd, buf, a + b) && OnCard(w, fd, a + b)
    ensures ReadCall(ReadCall(w, fd, buf, a).0, fd, buf + a, b).0 == ReadCall(w, fd, buf, a + b).0
  {
    ReadIsPrefix(w, fd, buf, a, b);
    var n := |Wanted(w, fd, a)|;
    var v := ReadSoFar(w, fd, buf, a + b, n);
    if n < a {
      ReadAll(w, fd, buf, a + b, n);
      assert Wanted(v, fd, b) == [];
      ReadNothing(v, fd, buf + a, b);
    } else {
      SoFarAccepts(w, fd, buf, a + b, a, b);
      ReadSplitsFull(w, fd, buf, a, b, v);
      ChunkIsRead(v, fd, buf + a, b);
    }
  }

  /** Bytes written to the card and read back, at any position and alignment, are the bytes
      that were in the user's buffer; the write changed nothing else of the card. */
  lemma WriteThenReadBack(w: World, fd: int, buf: nat, count: nat, into: nat)
    requires WorldOk(w) && ToCard(w, fd) && OnCard(w, fd, count)
    requires WriteAccepted(w, fd, buf, count) && ReadAccepted(w, fd, into, count)
    ensures var pos := FileAt(w, fd).pos;
            var written := WriteCall(w, fd, buf, count);
            var back := ReadCall(SeekCall(written.0, fd, pos), fd, into, count);
            && written.1 == back.1 == Signed16(count)
            && back.0.mem == Splice(w.mem, into, w.mem[buf..buf + count])
            && back.0.slots == w.slots && back.0.opens == written.0.opens && FileAt(back.0, fd).pos == pos + count
            && (forall i :: 0 <= i < |w.disk| && !(pos <= i < pos + count) ==> back.0.disk[i] == w.disk[i])
  {
    var pos := FileAt(w, fd).pos;
    var data := w.mem[buf..buf + count];
    var v := SeekCall(WriteCall(w, fd, buf, count).0, fd, pos);
    ReadAfterWrite(w.disk, pos, data, w.mem, into);
    assert v.opens == w.opens;
    assert Wanted(v, fd, count) == data;
  }

  /** The two calls disagree on a buffer that ends exactly where user space does, and only there. */
  lemma LastByteOfUserSpace(w: World, fd: int, buf: nat, count: nat)
    ensures WriteAccepted(w, fd, buf, count) <==> ReadAccepted(w, fd, buf, count) && buf + count != 0xF000
  {}

  /** Memory, the kernel's user buffer and the card, one process's descriptors, and the open files. */
  class Session {
    const mem: array<Byte>
    const userBuffer: array<Byte>
    const disk: array<Byte>
    var slots: seq<Option<OpenId>>
    var opens: map<OpenId, OpenFile>

    ghost predicate Valid()
      reads this, mem, disk
    {
      Apart() && WorldOk(View())
    }

    predicate Apart() {
      Mapped() && mem != disk && userBuffer != disk
    }

    predicate Mapped() {
      mem != userBuffer && mem.Length == 0x1_0000 && userBuffer.Length == USER_BUFFER_SIZE
    }

    ghost function View(): World
      reads this, mem, disk
    {
      World(mem[..], disk[..], slots, opens)
    }

    /** DMA from the user buffer; a count of zero would move 64 KiB. */
    method CopyFromUserBuffer(userPtr: nat, ghost data: seq<Byte>, count: nat)
      requires Apart() && 0 < count <= USER_BUFFER_SIZE && userPtr + count <= mem.Length
      requires userBuffer[..count] == data
      modifies mem
      ensures View() == old(View()).(mem := Splice(old(mem[..]), userPtr, data))
    {
      PutBytes(mem, userPtr, userBuffer[..count]);
    }

    /** One chunk of sys_read; -1 and no change at the end of the file. */
    method ReadChunk(ghost v: World, fd: int, userPtr: nat, inc: nat) returns (r: int)
      requires Apart() && View() == v && WorldOk(v) && IsOpen(v, fd) && OnCard(v, fd, inc)
      requires 0 < inc <= USER_BUFFER_SIZE && userPtr + inc <= mem.Length
      modifies this`opens, mem, userBuffer
      ensures r != 0
      ensures r == (if Wanted(v, fd, inc) == [] then -1 else |Wanted(v, fd, inc)|)
      ensures View() == ChunkRead(v, fd, userPtr, inc)
    {
      var o := slots[fd].value;
      var f := opens[o];
      ghost var data := Piece(f.node, disk[..], f.pos, inc);
      r := FileRead(f.node, disk[..], userBuffer, inc, f.pos);
      if r < 0 {
        return;
      }
      CopyFromUserBuffer(userPtr, data, r);
      opens := opens[o := f.(pos := f.pos + r)];
    }

    /** The first `done` bytes of the transfer have arrived. */
    ghost predicate HasRead(w: World, fd: int, buf: nat, count: nat, done: nat)
      requires IsOpen(w, fd) && buf + count <= |w.mem|
      reads this, mem, disk
    {
      done <= |Wanted(w, fd, count)| && View() == ReadSoFar(w, fd, buf, count, done)
    }

    /** One turn of sys_read's loop. */
    method ReadTurn(ghost w: World, fd: int, buf: nat, count: nat, ghost all: nat, done: nat, inc: nat) returns (r: int)
      requires Apart() && WorldOk(w) && ReadAccepted(w, fd, buf, count) && OnCard(w, fd, count)
      requires all == |Wanted(w, fd, count)| && 0 < inc <= USER_BUFFER_SIZE && done + inc <= count
      requires HasRead(w, fd, buf, count, done)
      modifies this`opens, mem, userBuffer
      ensures r != 0
      ensures var next := if r < 0 then done else done + r;
              && done <= next <= all && (r < inc ==> next == all) && HasRead(w, fd, buf, count, next)
    {
      ghost var v := View();
      ReadReady(w, fd, buf, count, done, inc, v);
      r := ReadChunk(v, fd, buf + done, inc);
      ReadTurned(w, fd, buf, count, done, inc, v, r);
    }

    /** sys_read's loop. */
    method ReadLoop(ghost w: World, fd: int, buf: nat, count: nat, ghost all: nat) returns (r: int)
      requires Apart() && View() == w && WorldOk(w) && ReadAccepted(w, fd, buf, count) && OnCard(w, fd, count)
      requires all == |Wanted(w, fd, count)|
      modifies this`opens, mem, userBuffer
      ensures HasRead(w, fd, buf, count, all) && r == if all == 0 && count > 0 then -1 else Signed16(all)
    {
      ReadStarts(w, fd, buf, count);
      var done := 0;
      while done < count
        invariant 0 <= done <= all <= count
        invariant HasRead(w, fd, buf, count, done)
      {
        var inc := Min(count - done, USER_BUFFER_SIZE);
        var thisCount := ReadTurn(w, fd, buf, count, all, done, inc);
        if thisCount < 0 {
          if done == 0 {
            return -1;
          }
          break;
        }
        done := done + thisCount;
        if thisCount < inc {
          break;
        }
      }
      return Signed16(done);
    }

    /** sys_read: the chunks add up to one flat transfer. */
    method SysRead(fd: int, buf: nat, count: nat) returns (r: int)
      requires Valid() && OnCard(View(), fd, count)
      modifies this`opens, mem, userBuffer
      ensures Valid() && (View(), r) == ReadCall(old(View()), fd, buf, count)
    {
      if fd < 0 || fd >= OpenFiles.MAX_OPEN_FILES {
        return -1;
      }
      if slots[fd].None? {
        return -1;
      }
      if buf < USER_LOW || buf + count > USER_HIGH {
        return -1;
      }
      ghost var w := View();
      ReadTouches(w, fd, buf, count);
      r := ReadLoop(w, fd, buf, count, |Wanted(w, fd, count)|);
      ReadEnds(w, fd, buf, count, |Wanted(w, fd, count)|, View());
    }

    method CopyToUserBuffer(userPtr: nat, count: nat)
      requires Mapped() && 0 < count <= USER_BUFFER_SIZE && userPtr + count <= mem.Length
      modifies userBuffer
      ensures userBuffer[..count] == mem[userPtr..userPtr + count]
    {
      PutBytes(userBuffer, 0, mem[userPtr..userPtr + count]);
      assert userBuffer[..count] == userBuffer[..][0..count];
    }

    /** One chunk of sys_write, to the card or to a file that takes nothing. */
    method WriteChunk(ghost v: World, fd: int, userPtr: nat, inc: nat) returns (r: int)
      requires Apart() && View() == v && WorldOk(v) && IsOpen(v, fd) && OnCard(v, fd, inc)
      requires 0 < inc <= USER_BUFFER_SIZE && userPtr + inc <= mem.Length
      modifies this`opens, userBuffer, disk
      ensures ToCard(v, fd) ==> r == inc && View() == ChunkWrite(v, fd, userPtr, inc)
      ensures !ToCard(v, fd) ==> r == (if FileAt(v, fd).node.Plain? then 0 else -1) && View() == v
    {
      CopyToUserBuffer(userPtr, inc);
      var o := slots[fd].value;
      var f := opens[o];
      r := FileWrite(f.node, disk, userBuffer[..inc], f.pos);
      if r < 0 {
        return;
      }
      opens := opens[o := f.(pos := f.pos + r)];
      assert r == 0 ==> opens == old(opens);
    }

    /** One turn of sys_write's loop. */
    method WriteTurn(ghost w: World, fd: int, buf: nat, count: nat, done: nat, inc: nat) returns (r: int)
      requires Apart() && WorldOk(w) && WriteAccepted(w, fd, buf, count) && OnCard(w, fd, count)
      requires 0 < inc <= USER_BUFFER_SIZE && done + inc <= count
      requires if ToCard(w, fd) then View() == WriteSoFar(w, fd, buf, count, done) else View() == w
      modifies this`opens, userBuffer, disk
      ensures ToCard(w, fd) ==> r == inc && View() == WriteSoFar(w, fd, buf, count, done + inc)
      ensures !ToCard(w, fd) ==> r == (if FileAt(w, fd).node.Plain? then 0 else -1) && View() == w
    {
      ghost var v := View();
      WriteReady(w, fd, buf, count, done, inc, v);
      r := WriteChunk(v, fd, buf + done, inc);
    }

    /** sys_write's loop. */
    method WriteLoop(ghost w: World, fd: int, buf: nat, count: nat) returns (r: int)
      requires Apart() && View() == w && WorldOk(w) && WriteAccepted(w, fd, buf, count) && OnCard(w, fd, count)
      modifies this`opens, userBuffer, disk
      ensures ToCard(w, fd) ==> View() == WriteSoFar(w, fd, buf, count, count) && r == Signed16(count)
      ensures !ToCard(w, fd) ==> View() == w && r == if FileAt(w, fd).node.Plain? || count == 0 then 0 else -1
    {
      if ToCard(w, fd) {
        WriteStarts(w, fd, buf, count);
      }
      var done := 0;
      while done < count
        invariant 0 <= done <= count
        invariant if ToCard(w, fd) then View() == WriteSoFar(w, fd, buf, count, done) else done == 0 && View() == w
      {
        var inc := Min(count - done, USER_BUFFER_SIZE);
        var thisCount := WriteTurn(w, fd, buf, count, done, inc);
        if thisCount < 0 {
          if done == 0 {
            return -1;
          }
          break;
        }
        done := done + thisCount;
        if thisCount < inc {
          break;
        }
      }
      return Signed16(done);
    }

    /** sys_write: the chunks add up to one flat transfer. */
    method SysWrite(fd: int, buf: nat, count: nat) returns (r: int)
      requires Valid() && OnCard(View(), fd, count)
      modifies this`opens, userBuffer, disk
      ensures Valid() && (View(), r) == WriteCall(old(View()), fd, buf, count)
    {
      if fd < 0 || fd >= OpenFiles.MAX_OPEN_FILES {
        return -1;
      }
      if slots[fd].None? {
        return -1;
      }
      if buf < USER_LOW || buf + count >= USER_HIGH {
        return -1;
      }
      ghost var w := View();
      WriteTouches(w, fd, buf, count);
      r := WriteLoop(w, fd, buf, count);
      if ToCard(w, fd) {
        WriteEnds(w, fd, buf, count, View());
      }
    }
  }
}
