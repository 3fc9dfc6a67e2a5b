/** The replayable request body of common/body_storage.go: one abstract object (contents, position, closed) and
    its two implementations, a bytes reader in memory and a temporary file on disk. */
module BodyStorage {
  import opened Basics

  /** What a storage is to its users. The position may lie beyond the end after a seek. */
  datatype Body = Body(contents: seq<Byte>, pos: nat, closed: bool)

  datatype Kind = Memory | Disk

  datatype Whence = FromStart | FromCurrent | FromEnd

  datatype Op = Read(n: nat) | Seek(offset: int, whence: Whence) | Bytes | Close | Size

  datatype Status = Okay | EndOfFile | StorageClosed | BadSeek | ShortFile

  datatype Reply = Data(bytes: seq<Byte>, status: Status) | Position(at: nat, status: Status) | Length(size: nat) | Done

  /** How many bytes a read into a buffer of n bytes gets. */
  function Available(contents: seq<Byte>, pos: nat, n: nat): (r: nat)
    ensures r <= n && (r > 0 ==> pos + r <= |contents|)
  {
    if pos >= |contents| then 0 else if n <= |contents| - pos then n else |contents| - pos
  }

  function Chunk(b: Body, n: nat): seq<Byte> {
    if b.pos >= |b.contents| then [] else b.contents[b.pos..b.pos + Available(b.contents, b.pos, n)]
  }

  function Target(contents: seq<Byte>, pos: nat, offset: int, whence: Whence): int {
    match whence
    case FromStart => offset
    case FromCurrent => pos + offset
    case FromEnd => |contents| + offset
  }

  /** The state after an operation; the same for both implementations. */
  function Next(b: Body, op: Op): Body {
    if b.closed then b
    else
      match op
      case Read(n) => b.(pos := b.pos + |Chunk(b, n)|)
      case Seek(offset, whence) =>
        var target := Target(b.contents, b.pos, offset, whence);
        if target < 0 then b else b.(pos := target)
      case Bytes => b
      case Close => b.(closed := true)
      case Size => b
  }

  /** The status of a read: a file calls an empty read a success even at the end, a bytes reader does not. */
  function ReadStatus(kind: Kind, b: Body, n: nat): Status {
    if b.pos >= |b.contents| && (kind.Memory? || n > 0) then EndOfFile else Okay
  }

  function Answer(kind: Kind, b: Body, op: Op): Reply {
    match op
    case Read(n) => if b.closed then Data([], StorageClosed) else Data(Chunk(b, n), ReadStatus(kind, b, n))
    case Seek(offset, whence) =>
      if b.closed then Position(0, StorageClosed)
      else
        var target := Target(b.contents, b.pos, offset, whence);
        if target < 0 then Position(0, BadSeek) else Position(target, Okay)
    case Bytes => if b.closed then Data([], StorageClosed) else Data(b.contents, Okay)
    case Close => Done
    case Size => Length(|b.contents|)
  }

  // ---------------------------------------------------------------------------------------------------
  // The two implementations
  // ---------------------------------------------------------------------------------------------------

  /** memoryStorage: the data and the offset of the bytes reader over it. */
  class MemoryStorage {
    const data: seq<Byte>
    var offset: nat
    const size: nat
    var closed: bool

    ghost predicate Valid() {
      size == |data|
    }

    function Value(): Body
      reads this
    {
      Body(data, offset, closed)
    }

    constructor (data: seq<Byte>)
      ensures Valid() && Value() == Body(data, 0, false)
    {
      this.data := data;
      offset := 0;
      size := |data|;
      closed := false;
    }

    method Read(p: array<Byte>) returns (n: nat, err: Status)
      requires Valid()
      modifies this, p
      ensures Value() == Next(old(Value()), Op.Read(p.Length))
      ensures n <= p.Length && Data(p[..n], err) == Answer(Memory, old(Value()), Op.Read(p.Length))
      ensures p[n..] == old(p[n..])
    {
      if closed {
        return 0, StorageClosed;
      }
      if offset >= |data| {
        return 0, EndOfFile;
      }
      n := if p.Length <= |data| - offset then p.Length else |data| - offset;
      forall i | 0 <= i < n {
        p[i] := data[offset + i];
      }
      assert p[..n] == data[offset..offset + n];
      offset := offset + n;
      err := Okay;
    }

    method Seek(off: int, whence: Whence) returns (at: nat, err: Status)
      requires Valid()
      modifies this
      ensures Value() == Next(old(Value()), Op.Seek(off, whence))
      ensures Position(at, err) == Answer(Memory, old(Value()), Op.Seek(off, whence))
    {
      if closed {
        return 0, StorageClosed;
      }
      var target := match whence case FromStart => off case FromCurrent => offset + off case FromEnd => |data| + off;
      if target < 0 {
        return 0, BadSeek;
      }
      offset := target;
      return offset, Okay;
    }

    method Bytes() returns (all: seq<Byte>, err: Status)
      requires Valid()
      ensures Data(all, err) == Answer(Memory, Value(), Op.Bytes)
    {
      if closed {
        return [], StorageClosed;
      }
      return data, Okay;
    }

    method Size() returns (n: nat)
      requires Valid()
      ensures Length(n) == Answer(Memory, Value(), Op.Size)
    {
      n := size;
    }

    method Close()
      modifies this
      ensures Value() == Next(old(Value()), Op.Close)
    {
      closed := true;
    }
  }

  /** A temporary file and its handle. */
  class File {
    const contents: seq<Byte>
    var offset: nat
    var open: bool
    var linked: bool

    constructor (contents: seq<Byte>)
      ensures this.contents == contents && offset == 0 && open && linked
    {
      this.contents := contents;
      offset, open, linked := 0, true, true;
    }

    /** Reads into p from index start on. */
    method Read(p: array<Byte>, start: nat) returns (n: nat, err: Status)
      requires open && start <= p.Length
      modifies this`offset, p
      ensures n == Available(contents, old(offset), p.Length - start) && offset == old(offset) + n
      ensures err == if n == 0 && start < p.Length then EndOfFile else Okay
      ensures forall i :: start <= i < start + n ==> p[i] == contents[old(offset) + (i - start)]
      ensures forall i :: (0 <= i < start || start + n <= i < p.Length) ==> p[i] == old(p[i])
    {
      n := Available(contents, offset, p.Length - start);
      forall i | start <= i < start + n {
        p[i] := contents[offset + (i - start)];
      }
      offset := offset + n;
      err := if n == 0 && start < p.Length then EndOfFile else Okay;
    }

    method Seek(off: int, whence: Whence) returns (at: nat, err: Status)
      requires open
      modifies this`offset
      ensures var target := Target(contents, old(offset), off, whence);
        if target < 0 then at == 0 && err == BadSeek && offset == old(offset)
        else at == target && err == Okay && offset == target
    {
      var target := Target(contents, offset, off, whence);
      if target < 0 {
        return 0, BadSeek;
      }
      offset := target;
      return target, Okay;
    }

    /** Close and remove. */
    method Discard()
      modifies this`open, this`linked
      ensures !open && !linked
    {
      open, linked := false, false;
    }
  }

  /** diskStorage: a file, the size that was written and the closed flag. */
  class DiskStorage {
    const file: File
    const size: nat
    var closed: bool

    /** The file is open and on disk exactly while the storage is. */
    ghost predicate Valid()
      reads this, file
    {
      size == |file.contents| && closed == !file.open && closed == !file.linked
    }

    function Value(): Body
      reads this, file
    {
      Body(file.contents, file.offset, closed)
    }

    constructor (file: File)
      requires file.open && file.linked && file.offset == 0
      ensures Valid() && Value() == Body(file.contents, 0, false) && this.file == file
    {
      this.file := file;
      size := |file.contents|;
      closed := false;
    }

    method Read(p: array<Byte>) returns (n: nat, err: Status)
      requires Valid()
      modifies this, file, p
      ensures Valid()
      ensures Value() == Next(old(Value()), Op.Read(p.Length))
      ensures n <= p.Length && Data(p[..n], err) == Answer(Disk, old(Value()), Op.Read(p.Length))
      ensures p[n..] == old(p[n..])
    {
      if closed {
        return 0, StorageClosed;
      }
      n, err := file.Read(p, 0);
      assert p[..n] == Chunk(old(Value()), p.Length);
    }

    method Seek(off: int, whence: Whence) returns (at: nat, err: Status)
      requires Valid()
      modifies this, file
      ensures Valid()
      ensures Value() == Next(old(Value()), Op.Seek(off, whence))
      ensures Position(at, err) == Answer(Disk, old(Value()), Op.Seek(off, whence))
    {
      if closed {
        return 0, StorageClosed;
      }
      at, err := file.Seek(off, whence);
    }

    /** Moves to the start, reads the recorded size and moves back. */
    method Bytes() returns (all: seq<Byte>, err: Status)
      requires Valid()
      modifies file
      ensures Valid()
      ensures Value() == Next(old(Value()), Op.Bytes)
      ensures Data(all, err) == Answer(Disk, old(Value()), Op.Bytes)
    {
      if closed {
        return [], StorageClosed;
      }
      var currentPos, e := file.Seek(0, FromCurrent);
      if e != Okay {
        return [], e;
      }
      var start, e1 := file.Seek(0, FromStart);
      if e1 != Okay {
        return [], e1;
      }
      var data := new Byte[size];
      var e2 := ReadFull(file, data);
      if e2 != Okay {
        return [], e2;
      }
      var back, e3 := file.Seek(currentPos, FromStart);
      if e3 != Okay {
        return [], e3;
      }
      return data[..], Okay;
    }

    method Size() returns (n: nat)
      requires Valid()
      ensures Length(n) == Answer(Disk, Value(), Op.Size)
    {
      n := size;
    }

    method Close()
      requires Valid()
      modifies this, file
      ensures Valid()
      ensures Value() == Next(old(Value()), Op.Close)
    {
      if !closed {
        closed := true;
        file.Discard();
      }
    }
  }

  /** io.ReadFull: fills the buffer, or reports that the file is too short. */
  method ReadFull(file: File, p: array<Byte>) returns (err: Status)
    requires file.open
    modifies file`offset, p
    ensures old(file.offset) + p.Length <= |file.contents| ==>
      err == Okay && p[..] == file.contents[old(file.offset)..old(file.offset) + p.Length]
    ensures old(file.offset) + p.Length > |file.contents| && p.Length > 0 ==> err != Okay
    ensures file.offset == old(file.offset) + Available(file.contents, old(file.offset), p.Length)
  {
    ghost var start := file.offset;
    var n := 0;
    while n < p.Length
      invariant n <= p.Length && file.offset == start + n && file.open
      invariant n > 0 ==> start + n <= |file.contents|
      invariant forall i :: 0 <= i < n ==> p[i] == file.contents[start + i]
      decreases p.Length - n
    {
      var got, e := file.Read(p, n);
      if e != Okay {
        return if n == 0 then EndOfFile else ShortFile;
      }
      n := n + got;
    }
    err := Okay;
    if start + p.Length <= |file.contents| {
      assert p[..] == file.contents[start..start + p.Length];
    }
  }

  // ---------------------------------------------------------------------------------------------------
  // Observational equality
  // ---------------------------------------------------------------------------------------------------

  /** The one observation that tells the implementations apart. */
  predicate EmptyReadAtEnd(b: Body, op: Op) {
    op == Read(0) && !b.closed && b.pos >= |b.contents|
  }

  function After(b: Body, ops: seq<Op>): Body
    decreases |ops|
  {
    if ops == [] then b else After(Next(b, ops[0]), ops[1..])
  }

  function Answers(kind: Kind, b: Body, ops: seq<Op>): (r: seq<Reply>)
    ensures |r| == |ops|
    decreases |ops|
  {
    if ops == [] then [] else [Answer(kind, b, ops[0])] + Answers(kind, Next(b, ops[0]), ops[1..])
  }

  /** For every sequence of operations the two storages give the same replies, exactly when no empty read is made
      at or behind the end of an open storage. */
  lemma {:induction false} ObservationallyEqual(b: Body, ops: seq<Op>)
    ensures Answers(Memory, b, ops) == Answers(Disk, b, ops) <==>
      forall i :: 0 <= i < |ops| ==> !EmptyReadAtEnd(After(b, ops[..i]), ops[i])
    decreases |ops|
  {
    if ops != [] {
      var b', rest := Next(b, ops[0]), ops[1..];
      ObservationallyEqual(b', rest);
      forall i | 0 <= i < |rest| ensures After(b, ops[..i + 1]) == After(b', rest[..i]) {
        assert ops[..i + 1][1..] == rest[..i];
      }
      assert Answer(Memory, b, ops[0]) == Answer(Disk, b, ops[0]) <==> !EmptyReadAtEnd(b, ops[0]);
      assert ops[..0] == [];
      var m, d := Answers(Memory, b, ops), Answers(Disk, b, ops);
      assert m[0] == Answer(Memory, b, ops[0]) && m[1..] == Answers(Memory, b', rest);
      assert d[0] == Answer(Disk, b, ops[0]) && d[1..] == Answers(Disk, b', rest);
      assert m == d <==> m[0] == d[0] && m[1..] == d[1..];
      EveryShifts(b, ops);
    }
  }

  lemma {:induction false} EveryShifts(b: Body, ops: seq<Op>)
    requires ops != []
    ensures var b', rest := Next(b, ops[0]), ops[1..];
      (forall i :: 0 <= i < |ops| ==> !EmptyReadAtEnd(After(b, ops[..i]), ops[i])) <==>
      (!EmptyReadAtEnd(b, ops[0]) && forall i :: 0 <= i < |rest| ==> !EmptyReadAtEnd(After(b', rest[..i]), rest[i]))
  {
    var b', rest := Next(b, ops[0]), ops[1..];
    assert After(b, ops[..0]) == b;
    forall i | 0 <= i < |ops| ensures i > 0 ==>
      After(b, ops[..i]) == After(b', rest[..i - 1]) && ops[i] == rest[i - 1] {
      if i > 0 {
        assert ops[..i][1..] == rest[..i - 1];
      }
    }
    if (forall i :: 0 <= i < |ops| ==> !EmptyReadAtEnd(After(b, ops[..i]), ops[i])) {
      forall i | 0 <= i < |rest| ensures !EmptyReadAtEnd(After(b', rest[..i]), rest[i]) {
        assert !EmptyReadAtEnd(After(b, ops[..i + 1]), ops[i + 1]);
      }
    }
  }

  /** An empty read of an exhausted body: end of file from memory, success from disk. */
  lemma {:induction false} EmptyReadTellsThemApart(contents: seq<Byte>)
    ensures var b := Body(contents, |contents|, false);
      Answers(Memory, b, [Read(0)]) != Answers(Disk, b, [Read(0)])
  {
    var b := Body(contents, |contents|, false);
    assert Answers(Memory, b, [Read(0)])[0] == Data([], EndOfFile);
    assert Answers(Disk, b, [Read(0)])[0] == Data([], Okay);
  }

  /** No operation changes the contents, and a closed storage stays closed and answers nothing but its size. */
  lemma {:induction false} ContentsFixed(b: Body, ops: seq<Op>)
    ensures After(b, ops).contents == b.contents
    ensures b.closed ==> After(b, ops) == b
    ensures After(b, ops).closed <==> b.closed || Close in ops
    decreases |ops|
  {
    if ops != [] {
      ContentsFixed(Next(b, ops[0]), ops[1..]);
      assert ops == [ops[0]] + ops[1..];
    }
  }

  /** What a reader collects with buffers of the given sizes. */
  function Collected(b: Body, sizes: seq<nat>): seq<Byte>
    decreases |sizes|
  {
    if sizes == [] then [] else Chunk(b, sizes[0]) + Collected(Next(b, Read(sizes[0])), sizes[1..])
  }

  lemma {:induction false} Adjacent(s: seq<Byte>, i: nat, j: nat, k: nat)
    requires i <= j <= k <= |s|
    ensures s[i..j] + s[j..k] == s[i..k]
  {}

  /** Reading n bytes and then more is reading them together. */
  lemma {:induction false} AvailableSplits(contents: seq<Byte>, pos: nat, n: nat, more: nat)
    requires pos <= |contents|
    ensures var first := Available(contents, pos, n);
      && pos + first <= |contents|
      && Available(contents, pos, n + more) == first + Available(contents, pos + first, more)
  {}

  /** Whatever the buffer sizes, reading an open storage collects its contents from the position on, without gap
      or repetition, until the buffers or the contents are used up. */
  lemma {:induction false} ReadingCollects(b: Body, sizes: seq<nat>)
    requires !b.closed && b.pos <= |b.contents|
    ensures Collected(b, sizes) == b.contents[b.pos..b.pos + Available(b.contents, b.pos, Total(sizes))]
    decreases |sizes|
  {
    if sizes != [] {
      var n, rest := Available(b.contents, b.pos, sizes[0]), sizes[1..];
      var b' := Next(b, Read(sizes[0]));
      ReadMoves(b, sizes[0]);
      AvailableSplits(b.contents, b.pos, sizes[0], Total(rest));
      ReadingCollects(b', rest);
      Adjacent(b.contents, b.pos, b.pos + n, b.pos + n + Available(b.contents, b.pos + n, Total(rest)));
    }
  }

  lemma {:induction false} ReadMoves(b: Body, size: nat)
    requires !b.closed && b.pos <= |b.contents|
    ensures var n := Available(b.contents, b.pos, size);
      Chunk(b, size) == b.contents[b.pos..b.pos + n] && Next(b, Read(size)) == b.(pos := b.pos + n)
  {}

  /** Where the three seeks lead: from the start, to that byte; from the end, to the last k bytes; and a seek back by
      what a read got undoes the read. */
  lemma {:induction false} SeekMeaning(b: Body, k: int)
    requires !b.closed && k >= 0
    ensures Next(b, Seek(k, FromStart)) == b.(pos := k)
    ensures k <= |b.contents| ==>
      Chunk(Next(b, Seek(-k, FromEnd)), k) == b.contents[|b.contents| - k..]
    ensures Next(Next(b, Read(k)), Seek(-|Chunk(b, k)|, FromCurrent)) == b
  {}

  /** A seek before the start is refused and does nothing. */
  lemma {:induction false} SeekRefused(kind: Kind, b: Body, offset: int, whence: Whence)
    requires !b.closed
    requires offset < 0 && (whence.FromCurrent? ==> b.pos < -offset) && (whence.FromEnd? ==> |b.contents| < -offset)
    ensures Next(b, Seek(offset, whence)) == b && Answer(kind, b, Seek(offset, whence)) == Position(0, BadSeek)
  {}

  /** A read into a buffer that is not empty succeeds exactly if it gets a byte, and is an end of file exactly if no
      byte is left; both storages say so. */
  lemma {:induction false} ReadReply(kind: Kind, b: Body, n: nat)
    requires !b.closed && n > 0
    ensures var r := Answer(kind, b, Read(n));
      && r.Data? && |r.bytes| <= n
      && (r.status == Okay <==> r.bytes != []) && (r.status == EndOfFile <==> b.pos >= |b.contents|)
      && (r.status == Okay || r.status == EndOfFile)
  {}
}
