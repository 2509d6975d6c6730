/** Request bodies kept in memory or in a cache file behind one seekable interface. */
module BodyStorage {
  import opened Basics

  type byte = bv8

  const MIN_INT64: int := -0x8000_0000_0000_0000
  const MAX_INT64: int := 0x7FFF_FFFF_FFFF_FFFF

  type Int64 = x: int | -0x8000_0000_0000_0000 <= x <= 0x7FFF_FFFF_FFFF_FFFF

  /** Go's wrap-around addition. */
  function AddInt64(a: Int64, b: Int64): (sum: Int64)
    ensures MIN_INT64 <= a + b <= MAX_INT64 ==> sum == a + b
  {
    if a + b > MAX_INT64 then a + b - 0x1_0000_0000_0000_0000
    else if a + b < MIN_INT64 then a + b + 0x1_0000_0000_0000_0000
    else a + b
  }

  datatype Whence = Start | Here | End

  datatype Op = Read(n: nat) | Seek(offset: Int64, whence: Whence) | Bytes | Size | Close

  datatype Answer =
    | Data(data: seq<byte>)
    | EndOfFile
    | Position(pos: Int64)
    | BadSeek
    | Length(n: nat)
    | Done
    | StorageClosed

  /** The abstract storage: content, read position (possibly past the end), closed flag. */
  datatype Store = Store(content: seq<byte>, pos: Int64, closed: bool)

  predicate ValidStore(s: Store) {
    s.pos >= 0 && |s.content| <= MAX_INT64
  }

  /** The bytes a read of at most `n` delivers. */
  function Ahead(s: Store, n: nat): seq<byte>
    requires ValidStore(s)
  {
    if s.pos >= |s.content| then []
    else if s.pos + n <= |s.content| then s.content[s.pos..s.pos + n]
    else s.content[s.pos..]
  }

  function Base(s: Store, whence: Whence): int {
    match whence
    case Start => 0
    case Here => s.pos
    case End => |s.content|
  }

  /** What the interface promises, for reads that ask for something. */
  function Next(s: Store, op: Op): (next: Store)
    requires ValidStore(s)
    ensures ValidStore(next) && next.content == s.content
  {
    if s.closed then s
    else
      match op
      case Read(n) => s.(pos := s.pos + |Ahead(s, n)|)
      case Seek(offset, whence) =>
        var target := Base(s, whence) + offset;
        if 0 <= target <= MAX_INT64 then s.(pos := target) else s
      case Bytes => s
      case Size => s
      case Close => s.(closed := true)
  }

  function Reply(s: Store, op: Op): Answer
    requires ValidStore(s)
  {
    match op
    case Size => Length(|s.content|)
    case Close => Done
    case Read(n) =>
      if s.closed then StorageClosed
      else if s.pos >= |s.content| then EndOfFile
      else Data(Ahead(s, n))
    case Seek(offset, whence) =>
      if s.closed then StorageClosed
      else
        var target := Base(s, whence) + offset;
        if 0 <= target <= MAX_INT64 then Position(target) else BadSeek
    case Bytes => if s.closed then StorageClosed else Data(s.content)
  }

  /** Where a seek ends: counted from the start, from the position or from the end of the
      content; outside 0 to 2^63 - 1 it is refused and nothing moves. */
  lemma SeekMoves(s: Store, offset: Int64, whence: Whence)
    requires ValidStore(s) && !s.closed
    ensures var target := match whence { case Start => offset as int case Here => s.pos + offset
                                         case End => |s.content| + offset };
      var next, reply := Next(s, Seek(offset, whence)), Reply(s, Seek(offset, whence));
      if 0 <= target < 0x8000_0000_0000_0000 then reply == Position(target) && next == s.(pos := target)
      else reply == BadSeek && next == s
  {
  }

  /** A read of at most `n` bytes delivers the bytes from the position on, as many as there
      are, and moves past them; at the end it reports that and moves nowhere. */
  lemma ReadMoves(s: Store, n: nat)
    requires ValidStore(s) && !s.closed
    ensures var next, reply := Next(s, Read(n)), Reply(s, Read(n));
      if s.pos >= |s.content| then reply == EndOfFile && next == s
      else
        reply.Data? && s.pos + |reply.data| <= |s.content| && reply.data == s.content[s.pos..s.pos + |reply.data|]
        && (|reply.data| == n || (|reply.data| < n && s.pos + |reply.data| == |s.content|))
        && next == s.(pos := s.pos + |reply.data|)
  {
  }

  /** Closing is for good: afterwards only the size is still told, closing again is fine and
      nothing moves. */
  lemma ClosedStays(s: Store, op: Op)
    requires ValidStore(s)
    ensures Next(s, Close).closed && Reply(s, Close) == Done && Reply(s, Size) == Length(|s.content|)
    ensures s.closed ==> Next(s, op) == s
    ensures s.closed && !op.Size? && !op.Close? ==> Reply(s, op) == StorageClosed
    ensures !s.closed && !op.Close? ==> !Next(s, op).closed
    ensures !s.closed ==> Reply(s, Bytes) == Data(s.content)
  {
  }

  /** A read of nothing at or past the end. */
  predicate EmptyReadAtEnd(s: Store, op: Op) {
    !s.closed && op == Read(0) && s.pos >= |s.content|
  }

  /** A file answers a read of nothing with nothing, not with the end of the file. */
  function DiskReply(s: Store, op: Op): Answer
    requires ValidStore(s)
  {
    if EmptyReadAtEnd(s, op) then Data([]) else Reply(s, op)
  }

  // ---------- the library readers ----------

  /** bytes.Reader. */
  class BytesReader {
    const content: seq<byte>
    var i: Int64

    constructor (content: seq<byte>)
      ensures this.content == content && i == 0
    {
      this.content, i := content, 0;
    }

    method Read(n: nat) returns (answer: Answer)
      requires i >= 0 && |content| <= MAX_INT64
      modifies this
      ensures var s := Store(content, old(i), false); answer == Reply(s, Op.Read(n)) && i == Next(s, Op.Read(n)).pos
    {
      if i >= |content| {
        return EndOfFile;
      }
      var data := if i + n <= |content| then content[i..i + n] else content[i..];
      i := i + |data|;
      answer := Data(data);
    }

    method Seek(offset: Int64, whence: Whence) returns (answer: Answer)
      requires i >= 0 && |content| <= MAX_INT64
      modifies this
      ensures var s, op := Store(content, old(i), false), Op.Seek(offset, whence);
        answer == Reply(s, op) && i == Next(s, op).pos
    {
      var abs: Int64;
      match whence {
        case Start => abs := offset;
        case Here => abs := AddInt64(i, offset);
        case End => abs := AddInt64(|content|, offset);
      }
      if abs < 0 {
        return BadSeek;
      }
      i := abs;
      answer := Position(abs);
    }
  }

  /** An open cache file. */
  class File {
    var content: seq<byte>
    var pos: Int64

    constructor ()
      ensures content == [] && pos == 0
    {
      content, pos := [], 0;
    }

    /** Appending at the end; the only way files are written here. */
    method Append(data: seq<byte>)
      requires pos == |content| && |content| + |data| <= MAX_INT64
      modifies this
      ensures content == old(content) + data && pos == |content|
    {
      content := content + data;
      pos := |content|;
    }

    method Read(n: nat) returns (data: seq<byte>, eof: bool)
      requires pos >= 0 && |content| <= MAX_INT64
      modifies this`pos
      ensures data == Ahead(Store(content, old(pos), false), n)
      ensures pos == old(pos) + |data|
      ensures eof <==> n > 0 && old(pos) >= |content|
    {
      if n == 0 {
        return [], false;
      }
      if pos >= |content| {
        return [], true;
      }
      data, eof := if pos + n <= |content| then content[pos..pos + n] else content[pos..], false;
      pos := pos + |data|;
    }

    method Seek(offset: Int64, whence: Whence) returns (answer: Answer)
      requires pos >= 0 && |content| <= MAX_INT64
      modifies this`pos
      ensures var s, op := Store(content, old(pos), false), Op.Seek(offset, whence);
        answer == Reply(s, op) && pos == Next(s, op).pos
    {
      var from := match whence
        case Start => 0
        case Here => pos
        case End => |content|;
      if from + offset < 0 || from + offset > MAX_INT64 {
        return BadSeek;
      }
      pos := from + offset;
      answer := Position(pos);
    }
  }

  // ---------- the two storages ----------

  class MemoryStorage {
    const data: seq<byte>
    const reader: BytesReader
    const size: nat
    var closed: bool

    ghost predicate Valid()
      reads this, reader
    {
      reader.content == data && size == |data| <= MAX_INT64 && reader.i >= 0
    }

    ghost function Value(): (s: Store)
      requires Valid()
      reads this, reader
      ensures ValidStore(s)
    {
      Store(data, reader.i, closed)
    }

    constructor (data: seq<byte>)
      requires |data| <= MAX_INT64
      ensures Valid() && fresh(reader) && Value() == Store(data, 0, false)
    {
      this.data := data;
      reader := new BytesReader(data);
      size := |data|;
      closed := false;
    }

    method Perform(op: Op) returns (answer: Answer)
      requires Valid()
      modifies this, reader
      ensures Valid() && answer == Reply(old(Value()), op) && Value() == Next(old(Value()), op)
    {
      match op {
        case Read(n) =>
          if closed {
            return StorageClosed;
          }
          answer := reader.Read(n);
        case Seek(offset, whence) =>
          if closed {
            return StorageClosed;
          }
          answer := reader.Seek(offset, whence);
        case Bytes =>
          answer := if closed then StorageClosed else Data(data);
        case Size =>
          answer := Length(size);
        case Close =>
          closed := true;
          answer := Done;
      }
    }
  }

  class DiskStorage {
    const file: File
    const size: nat
    var closed: bool

    ghost predicate Valid()
      reads this, file
    {
      size == |file.content| <= MAX_INT64 && file.pos >= 0
    }

    ghost function Value(): (s: Store)
      requires Valid()
      reads this, file
      ensures ValidStore(s)
    {
      Store(file.content, file.pos, closed)
    }

    /** Around a file written from the start and rewound. */
    constructor (file: File)
      requires |file.content| <= MAX_INT64 && file.pos == 0
      ensures Valid() && this.file == file && Value() == Store(file.content, 0, false)
    {
      this.file := file;
      size := |file.content|;
      closed := false;
    }

    /** Reading the whole file through the shared position, and putting it back. */
    method ReadWhole() returns (answer: Answer)
      requires Valid() && !closed
      modifies file`pos
      ensures Valid() && answer == Data(file.content) && file.pos == old(file.pos)
    {
      var currentPos := file.Seek(0, Here);
      var rewound := file.Seek(0, Start);
      var data, eof := file.Read(size);
      assert data == file.content;
      var restored := file.Seek(currentPos.pos, Start);
      answer := Data(data);
    }

    method Perform(op: Op) returns (answer: Answer)
      requires Valid()
      modifies this, file
      ensures Valid() && answer == DiskReply(old(Value()), op) && Value() == Next(old(Value()), op)
    {
      match op {
        case Read(n) =>
          if closed {
            return StorageClosed;
          }
          var data, eof := file.Read(n);
          answer := if eof then EndOfFile else Data(data);
        case Seek(offset, whence) =>
          if closed {
            return StorageClosed;
          }
          answer := file.Seek(offset, whence);
        case Bytes =>
          if closed {
            return StorageClosed;
          }
          answer := ReadWhole();
        case Size =>
          answer := Length(size);
        case Close =>
          closed := true;
          answer := Done;
      }
    }
  }

  // ---------- whole runs ----------

  function After(s: Store, ops: seq<Op>, n: nat): (t: Store)
    requires ValidStore(s) && n <= |ops|
    ensures ValidStore(t) && t.content == s.content
  {
    if n == 0 then s else Next(After(s, ops, n - 1), ops[n - 1])
  }

  /** The answers to the first `n` operations. */
  function MemoryAnswers(s: Store, ops: seq<Op>, n: nat): (answers: seq<Answer>)
    requires ValidStore(s) && n <= |ops|
    ensures |answers| == n
  {
    if n == 0 then [] else MemoryAnswers(s, ops, n - 1) + [Reply(After(s, ops, n - 1), ops[n - 1])]
  }

  function DiskAnswers(s: Store, ops: seq<Op>, n: nat): (answers: seq<Answer>)
    requires ValidStore(s) && n <= |ops|
    ensures |answers| == n
  {
    if n == 0 then [] else DiskAnswers(s, ops, n - 1) + [DiskReply(After(s, ops, n - 1), ops[n - 1])]
  }

  /** None of the first `n` operations reads nothing at the end. */
  predicate NoEmptyReadAtEnd(s: Store, ops: seq<Op>, n: nat)
    requires ValidStore(s) && n <= |ops|
  {
    n == 0 || (NoEmptyReadAtEnd(s, ops, n - 1) && !EmptyReadAtEnd(After(s, ops, n - 1), ops[n - 1]))
  }

  lemma RepliesDiffer(s: Store, op: Op)
    requires ValidStore(s)
    ensures Reply(s, op) == DiskReply(s, op) <==> !EmptyReadAtEnd(s, op)
  {
  }

  /** Both storages answer a sequence of operations alike exactly when it never reads
      nothing at the end. */
  lemma {:induction false} SameAnswersIff(s: Store, ops: seq<Op>, n: nat)
    requires ValidStore(s) && n <= |ops|
    ensures MemoryAnswers(s, ops, n) == DiskAnswers(s, ops, n) <==> NoEmptyReadAtEnd(s, ops, n)
  {
    if n > 0 {
      SameAnswersIff(s, ops, n - 1);
      RepliesDiffer(After(s, ops, n - 1), ops[n - 1]);
      AppendEqual(MemoryAnswers(s, ops, n - 1), DiskAnswers(s, ops, n - 1),
                  Reply(After(s, ops, n - 1), ops[n - 1]), DiskReply(After(s, ops, n - 1), ops[n - 1]));
    }
  }

  lemma AppendEqual<T>(a: seq<T>, b: seq<T>, x: T, y: T)
    requires |a| == |b|
    ensures a + [x] == b + [y] <==> a == b && x == y
  {
    if a + [x] == b + [y] {
      assert a == (a + [x])[..|a|] && b == (b + [y])[..|b|];
      assert x == (a + [x])[|a|] && y == (b + [y])[|b|];
    }
  }

  /** Operations one by one. */
  method RunMemory(m: MemoryStorage, ops: seq<Op>) returns (answers: seq<Answer>)
    requires m.Valid()
    modifies m, m.reader
    ensures m.Valid() && answers == MemoryAnswers(old(m.Value()), ops, |ops|)
      && m.Value() == After(old(m.Value()), ops, |ops|)
  {
    answers := [];
    ghost var start := m.Value();
    for i := 0 to |ops|
      invariant m.Valid() && m.Value() == After(start, ops, i)
      invariant answers == MemoryAnswers(start, ops, i)
    {
      var answer := m.Perform(ops[i]);
      answers := answers + [answer];
    }
  }

  method RunDisk(d: DiskStorage, ops: seq<Op>) returns (answers: seq<Answer>)
    requires d.Valid()
    modifies d, d.file
    ensures d.Valid() && answers == DiskAnswers(old(d.Value()), ops, |ops|)
      && d.Value() == After(old(d.Value()), ops, |ops|)
  {
    answers := [];
    ghost var start := d.Value();
    for i := 0 to |ops|
      invariant d.Valid() && d.Value() == After(start, ops, i)
      invariant answers == DiskAnswers(start, ops, i)
    {
      var answer := d.Perform(ops[i]);
      answers := answers + [answer];
    }
  }

  /** What a sequence of reads delivers, end to end. */
  function Delivered(s: Store, sizes: seq<nat>): seq<byte>
    requires ValidStore(s)
    decreases |sizes|
  {
    if sizes == [] then [] else Ahead(s, sizes[0]) + Delivered(Next(s, Read(sizes[0])), sizes[1..])
  }

  function Total(sizes: seq<nat>): nat {
    if sizes == [] then 0 else sizes[0] + Total(sizes[1..])
  }

  /** However the reads are cut, together they deliver the content in order. */
  lemma {:induction false} ReadsDeliver(s: Store, sizes: seq<nat>)
    requires ValidStore(s) && !s.closed
    ensures Delivered(s, sizes) == Ahead(s, Total(sizes))
    decreases |sizes|
  {
    if sizes == [] {
      assert Ahead(s, 0) == [];
    } else {
      ReadsDeliver(Next(s, Read(sizes[0])), sizes[1..]);
      AheadSplit(s, sizes[0], Total(sizes[1..]));
    }
  }

  lemma AheadSplit(s: Store, m: nat, n: nat)
    requires ValidStore(s) && !s.closed
    ensures Ahead(s, m) + Ahead(Next(s, Read(m)), n) == Ahead(s, m + n)
  {
  }

  /** Rewinding and reading at least the size gives the same as Bytes, from any position. */
  lemma RewindAndRead(s: Store, sizes: seq<nat>)
    requires ValidStore(s) && !s.closed && Total(sizes) >= |s.content|
    ensures Reply(s, Bytes) == Data(Delivered(Next(s, Seek(0, Start)), sizes))
  {
    ReadsDeliver(Next(s, Seek(0, Start)), sizes);
  }

  // ---------- creation ----------

  datatype Storage = InMemory(m: MemoryStorage) | OnDisk(d: DiskStorage)

  datatype Created = Stored(storage: Storage) | BodyTooLarge | DiskFailed | ReadFailed

  /** A request body: its bytes, and whether the reader reports an error after them. */
  datatype Body = Body(bytes: seq<byte>, breaks: bool)

  datatype Config = Config(enabled: bool, threshold: Int64, maxSize: Int64)

  /** IsDiskCacheAvailable, with the wrapping sum. */
  predicate DiskAvailable(config: Config, usage: Int64, requestSize: Int64) {
    config.enabled && AddInt64(usage, requestSize) <= config.maxSize
  }

  /** The room check is right unless the sum leaves the 64-bit range. */
  lemma DiskAvailableIff(config: Config, usage: Int64, requestSize: Int64)
    requires usage >= 0 && requestSize >= 0 && config.maxSize >= 0
    ensures DiskAvailable(config, usage, requestSize) <==>
      config.enabled && (usage + requestSize <= config.maxSize || usage + requestSize > MAX_INT64)
  {
  }

  /** io.LimitReader. */
  function Limited(body: seq<byte>, n: Int64): seq<byte> {
    if n <= 0 then [] else if |body| <= n then body else body[..n]
  }

  /** Reading through the limit meets the reader's error only if it gets that far. */
  predicate Breaks(body: Body, maxBytes: Int64) {
    body.breaks && |body.bytes| < AddInt64(maxBytes, 1)
  }

  function Objects(storage: Storage): set<object> {
    match storage
    case InMemory(m) => {m, m.reader}
    case OnDisk(d) => {d, d.file}
  }

  ghost predicate Holds(created: Created, content: seq<byte>)
    reads if created.Stored? then Objects(created.storage) else {}
  {
    created.Stored?
    && match created.storage
       case InMemory(m) => m.Valid() && m.Value() == Store(content, 0, false)
       case OnDisk(d) => d.Valid() && d.Value() == Store(content, 0, false)
  }

  predicate WritesToDisk(config: Config, usage: Int64, size: Int64) {
    config.threshold <= size && DiskAvailable(config, usage, size)
  }

  /** The announced length sends the body to the disk directly. */
  predicate StreamsToDisk(config: Config, usage: Int64, contentLength: Int64) {
    contentLength > 0 && WritesToDisk(config, usage, contentLength)
  }

  method CreateBodyStorage(data: seq<byte>, config: Config, usage: Int64, diskWorks: bool) returns (created: Created)
    requires |data| <= MAX_INT64
    ensures Holds(created, data)
    ensures created.storage.OnDisk? <==> diskWorks && WritesToDisk(config, usage, |data|)
    ensures usage + |data| <= MAX_INT64 ==>
      (created.storage.OnDisk? <==>
         diskWorks && config.enabled && config.threshold <= |data| && usage + |data| <= config.maxSize)
  {
    if config.enabled && |data| >= config.threshold && DiskAvailable(config, usage, |data|) {
      if diskWorks {
        var file := new File();
        file.Append(data);
        var rewound := file.Seek(0, Start);
        var disk := new DiskStorage(file);
        return Stored(OnDisk(disk));
      }
    }
    var memory := new MemoryStorage(data);
    created := Stored(InMemory(memory));
  }

  /** The disk path of a reader: copy, check, rewind. */
  method NewDiskStorageFromReader(body: Body, maxBytes: Int64) returns (created: Created)
    ensures Breaks(body, maxBytes) ==> created == DiskFailed
    ensures !Breaks(body, maxBytes) && ReadBody(body.bytes, maxBytes).Some? ==>
      Holds(created, ReadBody(body.bytes, maxBytes).value) && created.storage.OnDisk?
    ensures !Breaks(body, maxBytes) && ReadBody(body.bytes, maxBytes).None? ==> created == BodyTooLarge
  {
    var file := new File();
    var copied := Limited(body.bytes, AddInt64(maxBytes, 1));
    file.Append(copied);
    if Breaks(body, maxBytes) {
      return DiskFailed;
    }
    if |copied| > maxBytes {
      return BodyTooLarge;
    }
    var rewound := file.Seek(0, Start);
    var disk := new DiskStorage(file);
    created := Stored(OnDisk(disk));
  }

  /** What is kept of a body: reading one byte past the limit tells whether it is too large. */
  function ReadBody(body: seq<byte>, maxBytes: Int64): Option<seq<byte>> {
    var data := Limited(body, AddInt64(maxBytes, 1));
    if |data| > maxBytes then None else Some(data)
  }

  /** With a working disk and reader, either backend holds exactly what is kept of the body;
      errors of the reader and of the disk are reported. */
  method CreateBodyStorageFromReader(body: Body, contentLength: Int64, maxBytes: Int64, config: Config, usage: Int64,
                                     diskWorks: bool)
    returns (created: Created)
    ensures created == DiskFailed <==>
      StreamsToDisk(config, usage, contentLength) && (!diskWorks || Breaks(body, maxBytes))
    ensures created == ReadFailed <==> !StreamsToDisk(config, usage, contentLength) && Breaks(body, maxBytes)
    ensures !created.DiskFailed? && !created.ReadFailed? ==>
      if ReadBody(body.bytes, maxBytes).None? then created == BodyTooLarge
      else Holds(created, ReadBody(body.bytes, maxBytes).value)
    ensures created.Stored? ==> (created.storage.OnDisk? <==>
      diskWorks && (StreamsToDisk(config, usage, contentLength)
                    || WritesToDisk(config, usage, |ReadBody(body.bytes, maxBytes).value|)))
    ensures created == BodyTooLarge && maxBytes < MAX_INT64 ==> |body.bytes| > maxBytes
    ensures created.Stored? && maxBytes < MAX_INT64 ==> Holds(created, body.bytes) && |body.bytes| <= maxBytes
    ensures created == ReadFailed || (created == DiskFailed && diskWorks) ==> body.breaks
    ensures |body.bytes| > maxBytes && maxBytes < MAX_INT64 && diskWorks ==> created == BodyTooLarge
    ensures |body.bytes| <= maxBytes && maxBytes < MAX_INT64 && body.breaks ==>
      created == ReadFailed || created == DiskFailed
    ensures created == DiskFailed ==> config.enabled && contentLength > 0 && contentLength >= config.threshold
    ensures created == ReadFailed && contentLength > 0 && config.enabled && usage + contentLength <= MAX_INT64 ==>
      contentLength < config.threshold || usage + contentLength > config.maxSize
  {
    if config.enabled && contentLength > 0 && contentLength >= config.threshold
      && DiskAvailable(config, usage, contentLength) {
      if !diskWorks {
        return DiskFailed;
      }
      created := NewDiskStorageFromReader(body, maxBytes);
      return;
    }
    var data := Limited(body.bytes, AddInt64(maxBytes, 1));
    if Breaks(body, maxBytes) {
      return ReadFailed;
    }
    if |data| > maxBytes {
      return BodyTooLarge;
    }
    created := CreateBodyStorage(data, config, usage, diskWorks);
  }

  /** The body is kept whole when it fits and refused when it does not, exactly unless the
      limit is the largest 64-bit number: adding one to it wraps, and the body is dropped. */
  lemma ReadBodyExactIff(body: seq<byte>, maxBytes: Int64)
    ensures ReadBody(body, maxBytes) == (if |body| <= maxBytes then Some(body) else None) <==>
      maxBytes != MAX_INT64 || body == []
    ensures maxBytes == MAX_INT64 ==> ReadBody(body, maxBytes) == Some([])
  {
  }

  // ---------- the configured limit ----------

  const MB: int := 0x10_0000

  /** int64(x) of any integer. */
  function Wrap(x: int): (r: Int64)
    ensures MIN_INT64 <= x <= MAX_INT64 ==> r == x
  {
    (x - MIN_INT64) % 0x1_0000_0000_0000_0000 + MIN_INT64
  }

  function Megabytes(maxMB: Int64): Int64 {
    if maxMB <= 0 then 128 else maxMB
  }

  /** int64(maxMB) << 20, as the request reader computes its limit. */
  function RequestLimit(maxMB: Int64): Int64 {
    Wrap(Megabytes(maxMB) * MB)
  }

  /** The limit is a whole number of megabytes, so it is never the largest number and the
      body is kept or refused by it exactly. */
  lemma LimitIsWhole(body: seq<byte>, maxMB: Int64)
    ensures RequestLimit(maxMB) % MB == 0
    ensures ReadBody(body, RequestLimit(maxMB)) == if |body| <= RequestLimit(maxMB) then Some(body) else None
  {
    assert 0x1_0000_0000_0000_0000 == MB * 0x1000_0000_0000 && MIN_INT64 == MB * -0x800_0000_0000;
    WrapIsWhole(Megabytes(maxMB));
    ReadBodyExactIff(body, RequestLimit(maxMB));
  }

  lemma WrapIsWhole(k: int)
    ensures Wrap(k * MB) % MB == 0
  {
    var turns := (k * MB - MIN_INT64) / 0x1_0000_0000_0000_0000;
    assert Wrap(k * MB) == k * MB - turns * 0x1_0000_0000_0000_0000;
    assert Wrap(k * MB) == (k - turns * 0x1000_0000_0000) * MB;
  }

  /** The configured megabytes, and 128 of them without a positive setting. */
  lemma LimitInBytes(maxMB: Int64)
    ensures maxMB <= 0 ==> RequestLimit(maxMB) == 134217728
    ensures 0 < maxMB < 0x800_0000_0000 ==> RequestLimit(maxMB) == 1048576 * maxMB
  {
  }

  function Promised(body: seq<byte>, maxMB: Int64): Option<seq<byte>> {
    if |body| <= Megabytes(maxMB) * MB then Some(body) else None
  }

  /** Every body is kept or refused by the configured number of megabytes exactly when
      that many bytes fit into 64 bits. */
  lemma RequestLimitIff(maxMB: Int64)
    ensures (forall body :: ReadBody(body, RequestLimit(maxMB)) == Promised(body, maxMB)) <==>
      maxMB < 0x800_0000_0000
  {
    forall body
      ensures ReadBody(body, RequestLimit(maxMB)) == if |body| <= RequestLimit(maxMB) then Some(body) else None
    {
      LimitIsWhole(body, maxMB);
    }
    if maxMB >= 0x800_0000_0000 {
      var limit := RequestLimit(maxMB);
      var body := seq(if limit < 0 then 0 else limit + 1, i => 0 as byte);
      assert ReadBody(body, limit) == None && Promised(body, maxMB) == Some(body);
    }
  }
}
