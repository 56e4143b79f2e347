/** dev.c and the global state of the program: the device as an array of blocks,
    written one whole block at a time, the counters, and the open-file table. */
module Device {
  import opened Layout
  import opened Volume

  datatype Counters = Counters(freeBlocks: U32, freeInodes: U32)

  datatype OpenFile = OpenFile(used: bool, ino: U32, offset: U32, writable: bool)

  const MAX_OPEN: nat := 64

  // The words of the superblock and of the group descriptor as they are copied to disk.
  function SuperWord(total: U32, c: Counters, w: nat): U32
    requires w < 11
  {
    [0xEF53, 512, total, 256, c.freeBlocks, c.freeInodes, 69, 5, 3, 4, 1][w]
  }

  function SuperBlock(total: U32, c: Counters): Block {
    seq(512, i requires 0 <= i < 512 => if i < 44 then WordBytes(SuperWord(total, c, i / 4))[i % 4] else 0)
  }

  function GroupWord(c: Counters, w: nat): U32
    requires w < 5
  {
    [3, 4, 5, c.freeBlocks, c.freeInodes][w]
  }

  function GroupBlock(c: Counters): Block {
    seq(512, i requires 0 <= i < 512 => if i < 20 then WordBytes(GroupWord(c, i / 4))[i % 4] else 0)
  }

  // What fs_mount reads back from the two blocks.
  function ReadSuper(b: Block): Counters {
    Counters(Word(b, 16), Word(b, 20))
  }

  function ReadGroup(b: Block): Counters {
    Counters(Word(b, 12), Word(b, 16))
  }

  lemma CountersRoundTrip(total: U32, c: Counters)
    ensures ReadSuper(SuperBlock(total, c)) == c && ReadGroup(GroupBlock(c)) == c
    ensures Word(SuperBlock(total, c), 0) == 0xEF53 && Word(SuperBlock(total, c), 4) == 512
  {
    SuperWordAt(total, c, 0);
    SuperWordAt(total, c, 1);
    SuperWordAt(total, c, 4);
    SuperWordAt(total, c, 5);
    GroupWordAt(c, 3);
    GroupWordAt(c, 4);
  }

  lemma SuperWordAt(total: U32, c: Counters, w: nat)
    requires w < 11
    ensures Word(SuperBlock(total, c), 4 * w) == SuperWord(total, c, w)
  {
    WordFrom(SuperBlock(total, c), w, SuperWord(total, c, w));
  }

  lemma GroupWordAt(c: Counters, w: nat)
    requires w < 5
    ensures Word(GroupBlock(c), 4 * w) == GroupWord(c, w)
  {
    WordFrom(GroupBlock(c), w, GroupWord(c, w));
  }

  // The number of clear bits in bits[lo..hi].
  function CountClear(bits: seq<bool>, lo: nat, hi: nat): nat
    requires lo <= hi <= |bits|
  {
    if lo == hi then 0 else CountClear(bits, lo, hi - 1) + if bits[hi - 1] then 0 else 1
  }

  lemma {:induction false} CountClearSet(bits: seq<bool>, lo: nat, hi: nat, i: nat, val: bool)
    requires lo <= hi <= |bits| && i < |bits|
    ensures CountClear(bits[i := val], lo, hi)
      == CountClear(bits, lo, hi)
         + (if lo <= i < hi && bits[i] && !val then 1 else 0)
         - (if lo <= i < hi && !bits[i] && val then 1 else 0)
  {
    if lo < hi {
      CountClearSet(bits, lo, hi - 1, i, val);
    }
  }

  lemma {:induction false} CountClearZero(bits: seq<bool>, lo: nat, hi: nat)
    requires lo <= hi <= |bits|
    ensures CountClear(bits, lo, hi) == 0 <==> forall i :: lo <= i < hi ==> bits[i]
    ensures CountClear(bits, lo, hi) <= hi - lo
  {
    if lo < hi {
      CountClearZero(bits, lo, hi - 1);
    }
  }

  // trace holds the reading of every image since the start, the last one being that of dev.
  ghost predicate Recorded(dev: seq<Block>, vol: Vol, images: seq<seq<Block>>, trace: seq<Vol>) {
    && |images| == |trace|
    && (forall i {:trigger trace[i]} :: 0 <= i < |trace| ==> Decodes(images[i], trace[i]))
    && (trace != [] ==> images[|trace| - 1] == dev && trace[|trace| - 1] == vol)
  }

  class Disk {
    const total: nat
    var dev: seq<Block>
    var sb: Counters
    var gd: Counters
    var ofile: seq<OpenFile>
    var cwd: U32
    var uid: int
    var user: seq<Byte>
    var clock: U32

    // The typed reading of dev, and of every image that dev has been in.
    ghost var vol: Vol
    ghost var images: seq<seq<Block>>
    ghost var trace: seq<Vol>

    // The device as opened, whatever it holds, and the program as started.
    constructor (image: seq<Block>, now: U32)
      requires 69 < |image| <= 4096
      ensures Valid() && total == |image| && dev == image && trace == [] && clock == now
      ensures ofile == seq(64, _ => OpenFile(false, 0, 0, false)) && cwd == 1 && uid == 0
    {
      total, dev, clock := |image|, image, now;
      sb, gd := Counters(0, 0), Counters(0, 0);
      ofile := seq(64, _ => OpenFile(false, 0, 0, false));
      cwd, uid, user := 1, 0, [114, 111, 111, 116];
      vol, images, trace := View(image), [], [];
      new;
      ViewDecodes(image);
    }

    ghost predicate Valid()
      reads this
    {
      && |dev| == total == |vol.data| && |ofile| == MAX_OPEN
      && Decodes(dev, vol)
      && Recorded(dev, vol, images, trace)
    }

    // The counters agree with the bitmaps, with each other and with their copies on disk.
    ghost predicate Counted()
      reads this
      requires Valid()
    {
      && sb == gd
      && dev[1] == SuperBlock(total, sb) && dev[2] == GroupBlock(gd)
      && sb.freeBlocks == CountClear(vol.bb, 0, total)
      && sb.freeInodes == CountClear(vol.ib, 1, 257)
    }

    ghost predicate Ok()
      reads this
    {
      Valid() && Counted() && Sound(vol)
    }

    method DevReadBlock(b: nat) returns (r: int, buf: Block)
      requires Valid()
      ensures r == if b < total then FS_OK else FS_ERR
      ensures b < total ==> buf == dev[b]
      ensures InData(vol, b) ==> buf == vol.data[b]
    {
      if b >= total {
        return FS_ERR, ZeroBlock();
      }
      return FS_OK, dev[b];
    }

    // Each block write is one step of the trace; v is the reading of the image it leaves.
    method DevWriteBlock(buf: Block, b: nat, ghost v: Vol) returns (r: int)
      requires Valid()
      requires b < total ==> Decodes(dev[b := buf], v)
      modifies this`dev, this`vol, this`images, this`trace
      ensures Valid()
      ensures r == if b < total then FS_OK else FS_ERR
      ensures b < total ==> dev == old(dev)[b := buf] && vol == v && trace == old(trace) + [v]
      ensures b >= total ==> dev == old(dev) && vol == old(vol) && trace == old(trace)
    {
      if b >= total {
        return FS_ERR;
      }
      dev := dev[b := buf];
      vol := v;
      images := images + [dev];
      trace := trace + [v];
      return FS_OK;
    }

    // A write to a data block.
    method DevWriteData(buf: Block, b: nat) returns (r: int)
      requires Valid() && InData(vol, b)
      modifies this`dev, this`vol, this`images, this`trace
      ensures Valid()
      ensures r == FS_OK
      ensures dev == old(dev)[b := buf]
      ensures vol == SetData(old(vol), b, buf)
      ensures trace == old(trace) + [vol]
    {
      r := DevWriteBlock(buf, b, SetData(vol, b, buf));
    }

    // dev_write_block(&g_sb, BLK_SUPER)
    method WriteSuper()
      requires Valid()
      modifies this`dev, this`vol, this`images, this`trace
      ensures Valid() && vol == old(vol) && trace == old(trace) + [vol]
      ensures dev == old(dev)[1 := SuperBlock(total, sb)]
    {
      var r := DevWriteBlock(SuperBlock(total, sb), BLK_SUPER, vol);
    }

    // dev_write_block(&g_gd, BLK_GDESC)
    method WriteGroup()
      requires Valid()
      modifies this`dev, this`vol, this`images, this`trace
      ensures Valid() && vol == old(vol) && trace == old(trace) + [vol]
      ensures dev == old(dev)[2 := GroupBlock(gd)]
    {
      var r := DevWriteBlock(GroupBlock(gd), BLK_GDESC, vol);
    }
  }
}
