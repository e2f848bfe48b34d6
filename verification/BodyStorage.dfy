/**
 The body storages of common/body_storage.go: a request body kept in memory or in a temporary
 file, to be read, sought and replayed. The body handed out by a memory storage is a value
 here, not a shared slice.
 */
module BodyStorage {
  import opened Bytes

  datatype Error = Closed | BadSeek | TooLarge | DiskFailed | ReadAfterClose | Broken

  datatype Result<+T> = Ok(value: T) | Err(error: Error)

  /** One read: the bytes, and whether it reported the end of the data. */
  datatype ReadResult = ReadResult(data: seq<byte>, eof: bool)

  datatype Whence = Start | Current | End | Invalid

  /** What a storage is to its users. */
  datatype View = View(content: seq<byte>, pos: nat, closed: bool)

  datatype Backend = Memory | Disk

  // ---------------------------------------------------------------- the contract of both backends

  function Slice(content: seq<byte>, pos: nat, n: nat): seq<byte>
    requires pos <= |content|
  {
    if pos + n < |content| then content[pos..pos + n] else content[pos..]
  }

  /** bytes.Reader reports the end even to a read of nothing; os.File does not. */
  function ReadAnswer(v: View, n: nat, backend: Backend): Result<ReadResult> {
    if v.closed then Err(Closed)
    else if n == 0 && backend.Disk? then Ok(ReadResult([], false))
    else if v.pos >= |v.content| then Ok(ReadResult([], true))
    else Ok(ReadResult(Slice(v.content, v.pos, n), false))
  }

  function AfterRead(v: View, n: nat): View {
    if v.closed || v.pos >= |v.content| then v
    else v.(pos := v.pos + |Slice(v.content, v.pos, n)|)
  }

  function SeekTarget(v: View, offset: int, whence: Whence): int {
    match whence
    case Start => offset
    case Current => v.pos + offset
    case End => |v.content| + offset
    case Invalid => -1
  }

  function SeekAnswer(v: View, offset: int, whence: Whence): Result<nat> {
    if v.closed then Err(Closed)
    else if SeekTarget(v, offset, whence) < 0 then Err(BadSeek)
    else Ok(SeekTarget(v, offset, whence))
  }

  function AfterSeek(v: View, offset: int, whence: Whence): View {
    match SeekAnswer(v, offset, whence)
    case Ok(p) => v.(pos := p)
    case Err(_) => v
  }

  function BytesAnswer(v: View): Result<seq<byte>> {
    if v.closed then Err(Closed) else Ok(v.content)
  }

  /** The one observation that tells the backends apart is a read of nothing at the end. */
  lemma BackendsDifferExactly(v: View, n: nat)
    ensures ReadAnswer(v, n, Memory) == ReadAnswer(v, n, Disk) <==> v.closed || n > 0 || v.pos < |v.content|
  {
    assert n == 0 && v.pos < |v.content| ==> Slice(v.content, v.pos, n) == [];
  }

  // ---------------------------------------------------------------- memory

  class MemoryStorage {
    var data: seq<byte>
    var pos: nat
    var closed: bool

    ghost function State(): View
      reads this
    {
      View(data, pos, closed)
    }

    constructor (data: seq<byte>)
      ensures State() == View(data, 0, false)
    {
      this.data, pos, closed := data, 0, false;
    }

    method Read(n: nat) returns (r: Result<ReadResult>)
      modifies this
      ensures r == ReadAnswer(old(State()), n, Memory)
      ensures State() == AfterRead(old(State()), n)
    {
      if closed {
        return Err(Closed);
      }
      if pos >= |data| {
        return Ok(ReadResult([], true));
      }
      var chunk := Slice(data, pos, n);
      pos := pos + |chunk|;
      return Ok(ReadResult(chunk, false));
    }

    method Seek(offset: int, whence: Whence) returns (r: Result<nat>)
      modifies this
      ensures r == SeekAnswer(old(State()), offset, whence)
      ensures State() == AfterSeek(old(State()), offset, whence)
    {
      if closed {
        return Err(Closed);
      }
      var target :=
        match whence
        case Start => offset
        case Current => pos + offset
        case End => |data| + offset
        case Invalid => -1;
      if target < 0 {
        return Err(BadSeek);
      }
      pos := target;
      return Ok(target);
    }

    method Bytes() returns (r: Result<seq<byte>>)
      ensures r == BytesAnswer(State())
    {
      if closed {
        return Err(Closed);
      }
      return Ok(data);
    }

    method Close()
      modifies this
      ensures State() == old(State()).(closed := true)
    {
      closed := true;
    }
  }

  // ---------------------------------------------------------------- disk

  /** An open temporary file. */
  class File {
    var content: seq<byte>
    var pos: nat

    constructor ()
      ensures content == [] && pos == 0
    {
      content, pos := [], 0;
    }

    /** Appends at the end, which is where a fresh file's offset is. */
    method Write(data: seq<byte>)
      requires pos == |content|
      modifies this
      ensures content == old(content) + data && pos == |content|
    {
      content := content + data;
      pos := |content|;
    }

    method Read(n: nat) returns (r: ReadResult)
      modifies this`pos
      ensures r == ReadAnswer(old(View(content, pos, false)), n, Disk).value
      ensures View(content, pos, false) == AfterRead(old(View(content, pos, false)), n)
    {
      if n == 0 {
        return ReadResult([], false);
      }
      if pos >= |content| {
        return ReadResult([], true);
      }
      var chunk := Slice(content, pos, n);
      pos := pos + |chunk|;
      return ReadResult(chunk, false);
    }

    method Seek(offset: int, whence: Whence) returns (r: Result<nat>)
      modifies this`pos
      ensures r == SeekAnswer(old(View(content, pos, false)), offset, whence)
      ensures View(content, pos, false) == AfterSeek(old(View(content, pos, false)), offset, whence)
    {
      var target :=
        match whence
        case Start => offset
        case Current => pos + offset
        case End => |content| + offset
        case Invalid => -1;
      if target < 0 {
        return Err(BadSeek);
      }
      pos := target;
      return Ok(target);
    }

    /** io.ReadFull */
    method ReadFull(n: nat) returns (data: seq<byte>, ok: bool)
      modifies this`pos
      ensures ok <==> old(pos) + n <= |content| || n == 0
      ensures ok ==> data == if n == 0 then [] else content[old(pos)..old(pos) + n]
    {
      if n == 0 {
        return [], true;
      }
      if pos >= |content| {
        return [], false;
      }
      data := Slice(content, pos, n);
      pos, ok := pos + |data|, |data| == n;
    }
  }

  class DiskStorage {
    const file: File
    var size: nat
    var closed: bool

    ghost function State(): View
      reads this, file
    {
      View(file.content, file.pos, closed)
    }

    ghost predicate Valid()
      reads this, file
    {
      size == |file.content|
    }

    /** newDiskStorage, and newDiskStorageFromReader once the body is known to fit: write, then rewind */
    constructor (data: seq<byte>)
      ensures State() == View(data, 0, false) && Valid() && fresh(file)
    {
      file := new File();
      size, closed := |data|, false;
      new;
      file.Write(data);
      assert file.content == data;
      var r := file.Seek(0, Start);
    }

    method Read(n: nat) returns (r: Result<ReadResult>)
      requires Valid()
      modifies this, file
      ensures Valid()
      ensures r == ReadAnswer(old(State()), n, Disk)
      ensures State() == AfterRead(old(State()), n)
    {
      if closed {
        return Err(Closed);
      }
      var result := file.Read(n);
      return Ok(result);
    }

    method Seek(offset: int, whence: Whence) returns (r: Result<nat>)
      requires Valid()
      modifies this, file
      ensures Valid()
      ensures r == SeekAnswer(old(State()), offset, whence)
      ensures State() == AfterSeek(old(State()), offset, whence)
    {
      if closed {
        return Err(Closed);
      }
      r := file.Seek(offset, whence);
    }

    /** Reads the whole file and puts the offset back where it was. */
    method Bytes() returns (r: Result<seq<byte>>)
      requires Valid()
      modifies file
      ensures Valid() && State() == old(State())
      ensures r == BytesAnswer(State())
    {
      if closed {
        return Err(Closed);
      }
      var current := file.pos;
      var s := file.Seek(0, Start);
      var data, ok := file.ReadFull(size);
      assert ok;
      s := file.Seek(current, Start);
      assert data == file.content;
      return Ok(data);
    }

    method Close()
      modifies this
      ensures State() == old(State()).(closed := true) && size == old(size)
    {
      closed := true;
    }
  }

  // ---------------------------------------------------------------- either backend

  datatype Storage = InMemory(m: MemoryStorage) | OnDisk(d: DiskStorage)

  function Objects(s: Storage): set<object> {
    match s
    case InMemory(m) => {m}
    case OnDisk(d) => {d, d.file}
  }

  ghost function StateOf(s: Storage): View
    reads Objects(s)
  {
    match s
    case InMemory(m) => m.State()
    case OnDisk(d) => d.State()
  }

  ghost predicate ValidStorage(s: Storage)
    reads Objects(s)
  {
    s.OnDisk? ==> s.d.Valid()
  }

  /** What a user of a storage can do with it. */
  datatype Op = Read(n: nat) | Seek(offset: int, whence: Whence) | GetBytes

  function AfterOp(v: View, op: Op): View {
    match op
    case Read(n) => AfterRead(v, n)
    case Seek(offset, whence) => AfterSeek(v, offset, whence)
    case GetBytes => v
  }

  function BackendOf(s: Storage): Backend {
    if s.InMemory? then Memory else Disk
  }

  method Use(s: Storage, op: Op) returns (response: Response)
    requires ValidStorage(s)
    modifies Objects(s)
    ensures ValidStorage(s)
    ensures response == Respond(old(StateOf(s)), op, BackendOf(s))
    ensures StateOf(s) == AfterOp(old(StateOf(s)), op)
  {
    match op {
      case Read(n) =>
        var r;
        match s {
          case InMemory(m) => r := m.Read(n);
          case OnDisk(d) => r := d.Read(n);
        }
        response := DidRead(r);
      case Seek(offset, whence) =>
        var r;
        match s {
          case InMemory(m) => r := m.Seek(offset, whence);
          case OnDisk(d) => r := d.Seek(offset, whence);
        }
        response := DidSeek(r);
      case GetBytes =>
        var r;
        match s {
          case InMemory(m) => r := m.Bytes();
          case OnDisk(d) => r := d.Bytes();
        }
        response := GotBytes(r);
    }
  }

  method Observe(s: Storage) returns (v: View)
    ensures v == StateOf(s)
  {
    match s
    case InMemory(m) => return View(m.data, m.pos, m.closed);
    case OnDisk(d) => return View(d.file.content, d.file.pos, d.closed);
  }

  // ---------------------------------------------------------------- choosing a backend

  /** The disk cache settings a request meets, and whether a temporary file can be created. */
  datatype Cache = Cache(enabled: bool, threshold: int, available: int -> bool, canCreate: bool)

  /** CreateBodyStorage: a disk failure falls back to memory */
  method CreateBodyStorage(data: seq<byte>, cache: Cache) returns (s: Storage)
    ensures ValidStorage(s) && fresh(Objects(s))
    ensures StateOf(s) == View(data, 0, false)
    ensures s.OnDisk? <==> cache.enabled && |data| >= cache.threshold && cache.available(|data|) && cache.canCreate
  {
    if cache.enabled && |data| >= cache.threshold && cache.available(|data|) && cache.canCreate {
      var d := new DiskStorage(data);
      return OnDisk(d);
    }
    var m := new MemoryStorage(data);
    return InMemory(m);
  }

  predicate StreamsToDisk(cache: Cache, contentLength: int) {
    cache.enabled && contentLength > 0 && contentLength >= cache.threshold && cache.available(contentLength)
  }

  /** The first n bytes an io.LimitReader lets through. */
  function Limit(body: seq<byte>, n: int): seq<byte> {
    if n <= 0 then [] else if n < |body| then body[..n] else body
  }

  /** What becomes of a body: all of it, exactly when it is within the limit and nothing fails. */
  function Taken(reader: Result<seq<byte>>, contentLength: int, maxBytes: nat, cache: Cache): Result<seq<byte>> {
    if StreamsToDisk(cache, contentLength) && !cache.canCreate then Err(DiskFailed)
    else if reader.Ok? && |reader.value| > maxBytes then Err(TooLarge)
    else reader
  }

  /** CreateBodyStorageFromReader; the reader yields its bytes or fails */
  method CreateFromReader(reader: Result<seq<byte>>, contentLength: int, maxBytes: nat, cache: Cache)
    returns (r: Result<Storage>)
    ensures match Taken(reader, contentLength, maxBytes, cache)
      case Ok(body) => r.Ok? && ValidStorage(r.value) && fresh(Objects(r.value)) &&
        StateOf(r.value) == View(body, 0, false)
      case Err(e) => r == Err(e)
    ensures r.Ok? && StreamsToDisk(cache, contentLength) ==> r.value.OnDisk?
  {
    if StreamsToDisk(cache, contentLength) {
      if !cache.canCreate {
        return Err(DiskFailed);
      }
      if reader.Err? {
        return Err(reader.error);
      }
      var copied := Limit(reader.value, maxBytes + 1);
      if |copied| > maxBytes {
        return Err(TooLarge);
      }
      var d := new DiskStorage(copied);
      return Ok(OnDisk(d));
    }
    if reader.Err? {
      return Err(reader.error);
    }
    var data := Limit(reader.value, maxBytes + 1);
    if |data| > maxBytes {
      return Err(TooLarge);
    }
    var s := CreateBodyStorage(data, cache);
    return Ok(s);
  }

  method Rewind(s: Storage) returns (ok: bool)
    requires ValidStorage(s)
    modifies Objects(s)
    ensures ValidStorage(s) && ok == !old(StateOf(s)).closed
    ensures StateOf(s) == if ok then old(StateOf(s)).(pos := 0) else old(StateOf(s))
  {
    var r;
    match s {
      case InMemory(m) => r := m.Seek(0, Start);
      case OnDisk(d) => r := d.Seek(0, Start);
    }
    ok := r.Ok?;
  }

  method CloseStorage(s: Storage)
    requires ValidStorage(s)
    modifies Objects(s)
    ensures ValidStorage(s) && StateOf(s) == old(StateOf(s)).(closed := true)
  {
    match s
    case InMemory(m) => m.Close();
    case OnDisk(d) => d.Close();
  }

  // ---------------------------------------------------------------- backends side by side

  datatype Response = DidRead(r: Result<ReadResult>) | DidSeek(p: Result<nat>) | GotBytes(b: Result<seq<byte>>)

  function Respond(v: View, op: Op, backend: Backend): Response {
    match op
    case Read(n) => DidRead(ReadAnswer(v, n, backend))
    case Seek(offset, whence) => DidSeek(SeekAnswer(v, offset, whence))
    case GetBytes => GotBytes(BytesAnswer(v))
  }

  function Transcript(v: View, ops: seq<Op>, backend: Backend): seq<Response>
    decreases |ops|
  {
    if ops == [] then [] else [Respond(v, ops[0], backend)] + Transcript(AfterOp(v, ops[0]), ops[1..], backend)
  }

  /** Some step reads into an empty buffer at the end of an open storage. */
  predicate Tells(v: View, ops: seq<Op>)
    decreases |ops|
  {
    ops != [] && ((ops[0] == Read(0) && !v.closed && v.pos >= |v.content|) || Tells(AfterOp(v, ops[0]), ops[1..]))
  }

  /** A caller sees which backend it has exactly when one of its steps tells. */
  lemma {:induction false} BackendsIndistinguishable(v: View, ops: seq<Op>)
    ensures Transcript(v, ops, Memory) == Transcript(v, ops, Disk) <==> !Tells(v, ops)
    decreases |ops|
  {
    if ops != [] {
      var v', rest := AfterOp(v, ops[0]), ops[1..];
      BackendsIndistinguishable(v', rest);
      if ops[0].Read? {
        BackendsDifferExactly(v, ops[0].n);
      }
      TranscriptsAgree(v, ops);
    }
  }

  lemma TranscriptsAgree(v: View, ops: seq<Op>)
    requires ops != []
    ensures Transcript(v, ops, Memory) == Transcript(v, ops, Disk) <==>
            Respond(v, ops[0], Memory) == Respond(v, ops[0], Disk) &&
            Transcript(AfterOp(v, ops[0]), ops[1..], Memory) == Transcript(AfterOp(v, ops[0]), ops[1..], Disk)
  {
    var m, d := Transcript(v, ops, Memory), Transcript(v, ops, Disk);
    if m == d {
      assert m[0] == d[0] && m[1..] == d[1..];
    }
  }
}
