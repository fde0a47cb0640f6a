/** The buffer pool as one caller sees it, and the two ways of reading an object: Get, directly or
    through a pooled buffer, and StreamGet. */
module ObjectReads {
  import opened Bytes
  import opened PoolProtocol

  /** bytes.Buffer: `len` bytes of content in an array that appends replace when it is full. */
  class ByteBuffer {
    var data: array<byte>
    var len: nat

    ghost predicate Valid()
      reads this
    {
      len <= data.Length
    }

    function Bytes(): seq<byte>
      requires Valid()
      reads this, data
    {
      data[..len]
    }

    constructor (capacity: nat)
      ensures Valid() && fresh(data) && data.Length == capacity && len == 0
    {
      data := new byte[capacity];
      len := 0;
    }

    method Reset()
      modifies this`len
      ensures Valid() && len == 0
    {
      len := 0;
    }

    /** Make room for n more bytes. */
    method Grow(n: nat)
      requires Valid()
      modifies this
      ensures Valid() && Bytes() == old(Bytes()) && len + n <= data.Length
      ensures data == old(data) || fresh(data)
    {
      if len + n > data.Length {
        var bigger := new byte[2 * data.Length + n];
        forall i | 0 <= i < len {
          bigger[i] := data[i];
        }
        data := bigger;
      }
    }

    method Append(chunk: array<byte>, n: nat)
      requires Valid() && n <= chunk.Length && chunk != data
      modifies this, data
      ensures Valid() && Bytes() == old(Bytes()) + old(chunk[..n])
      ensures data == old(data) || fresh(data)
    {
      Grow(n);
      forall i | 0 <= i < n {
        data[len + i] := chunk[i];
      }
      len := len + n;
    }
  }

  datatype Stats = Stats(
    currentPoolSize: int, created: nat, reused: nat, discarded: nat, maxBufferSize: int, maxPoolSize: int,
        reuseRatio: real)

  /** Nobody else is in the pool. */
  predicate Alone(s: State) { s.callers == [Idle] }

  /** What a non-nil Put leaves behind when nobody else is in the pool. */
  function PutResult(s: State, cap: nat): State {
    if cap > s.config.maxBufferSize || s.poolSize >= s.config.maxPoolSize
    then s.(puts := s.puts + 1, discarded := s.discarded + 1)
    else s.(puts := s.puts + 1, pool := s.pool + [Buf(0, cap)], poolSize := s.poolSize + 1,
            accepted := s.accepted + 1, sinceCleanup := s.sinceCleanup + 1)
  }

  /** The steps of such a Put. */
  function PutSteps(s: State, b: Buf): seq<Action> {
    if b.cap > s.config.maxBufferSize then [PutCall(0, b), Reject(0)]
    else if s.poolSize >= s.config.maxPoolSize then [PutCall(0, b), Load(0), Reject(0)]
    else [PutCall(0, b), Load(0), Insert(0), Count(0)]
  }

  /** Run alone, the concurrent steps of Put amount to its sequential effect. */
  lemma PutAlone(s: State, b: Buf)
    requires Alone(s)
    ensures CanRun(s, PutSteps(s, b)) && After(s, PutSteps(s, b)) == PutResult(s, b.cap)
  {
    var s1 := Next(s, PutCall(0, b));
    assert PutSteps(s, b)[0] == PutCall(0, b);
    if b.cap > s.config.maxBufferSize {
      assert PutSteps(s, b)[1..] == [Reject(0)];
      OneStep(s1, Reject(0));
    } else if s.poolSize >= s.config.maxPoolSize {
      var s2 := Next(s1, Load(0));
      assert PutSteps(s, b)[1..] == [Load(0), Reject(0)];
      assert [Load(0), Reject(0)][1..] == [Reject(0)];
      OneStep(s2, Reject(0));
    } else {
      AcceptedAlone(s1, b);
      assert PutSteps(s, b)[1..] == [Load(0), Insert(0), Count(0)];
    }
  }

  lemma PutKeeps(s: State, cap: nat)
    requires Alone(s) && Inv(s)
    ensures Inv(PutResult(s, cap))
  {
    PutAlone(s, Buf(0, cap));
    InvRun(s, PutSteps(s, Buf(0, cap)));
  }

  lemma OneStep(s: State, a: Action)
    requires Enabled(s, a)
    ensures CanRun(s, [a]) && After(s, [a]) == Next(s, a)
  {
    Chain(s, a, []);
    assert [a] + [] == [a];
  }

  lemma AcceptedAlone(s: State, b: Buf)
    requires s.callers == [Sized(b)] && s.poolSize < s.config.maxPoolSize
    ensures CanRun(s, [Load(0), Insert(0), Count(0)])
    ensures After(s, [Load(0), Insert(0), Count(0)]) ==
      s.(callers := [Idle], pool := s.pool + [Buf(0, b.cap)], poolSize := s.poolSize + 1,
         accepted := s.accepted + 1, sinceCleanup := s.sinceCleanup + 1)
  {
    var s1 := Next(s, Load(0));
    var s2 := Next(s1, Insert(0));
    OneStep(s2, Count(0));
    Chain(s1, Insert(0), [Count(0)]);
    Chain(s, Load(0), [Insert(0)] + [Count(0)]);
    assert [Load(0)] + ([Insert(0)] + [Count(0)]) == [Load(0), Insert(0), Count(0)];
    assert Next(s2, Count(0)).callers == [Idle];
  }

  lemma GetNewEffect(s: State)
    requires Alone(s)
    ensures Enabled(s, GetNew(0)) && Enabled(Next(s, GetNew(0)), CountReuse(0))
    ensures Next(Next(s, GetNew(0)), CountReuse(0)) == s.(created := s.created + 1, reused := s.reused + 1)
  {
    assert Next(Next(s, GetNew(0)), CountReuse(0)).callers == [Idle];
  }

  lemma GetPooledEffect(s: State, k: nat)
    requires Alone(s) && k < |s.pool|
    ensures Enabled(s, GetPooled(0, k)) && Enabled(Next(s, GetPooled(0, k)), CountReuse(0))
    ensures Next(Next(s, GetPooled(0, k)), CountReuse(0)) == s.(pool := Without(s.pool, k), reused := s.reused + 1)
  {
    assert Next(Next(s, GetPooled(0, k)), CountReuse(0)).callers == [Idle];
  }

  lemma CleanEffect(s: State)
    requires Alone(s)
    ensures Enabled(s, CleanBegin(0)) && Enabled(Next(s, CleanBegin(0)), CleanStore(0))
    ensures Next(Next(s, CleanBegin(0)), CleanStore(0)) == s.(pool := [], poolSize := 0, sinceCleanup := 0)
  {
    assert Next(Next(s, CleanBegin(0)), CleanStore(0)).callers == [Idle];
  }

  /** What a Get leaves behind that makes a buffer, or takes position k of the pool. */
  function GotNew(s: State): State { s.(created := s.created + 1, reused := s.reused + 1) }

  function GotPooled(s: State, k: nat): State
    requires k < |s.pool|
  {
    s.(pool := Without(s.pool, k), reused := s.reused + 1)
  }

  lemma GotNewKeeps(s: State)
    requires Alone(s) && Inv(s)
    ensures Inv(GotNew(s))
  {
    GetNewAlone(s);
    InvRun(s, [GetNew(0), CountReuse(0)]);
  }

  lemma GotPooledKeeps(s: State, k: nat)
    requires Alone(s) && Inv(s) && k < |s.pool|
    ensures Inv(GotPooled(s, k))
  {
    GetPooledAlone(s, k);
    InvRun(s, [GetPooled(0, k), CountReuse(0)]);
  }

  /** The steps of a Get that makes a buffer, of one that takes position k of the pool, and of a Cleanup. */
  lemma GetNewAlone(s: State)
    requires Alone(s)
    ensures CanRun(s, [GetNew(0), CountReuse(0)])
    ensures After(s, [GetNew(0), CountReuse(0)]) == GotNew(s)
  {
    GetNewEffect(s);
    TwoSteps(s, GetNew(0), CountReuse(0));
  }

  lemma GetPooledAlone(s: State, k: nat)
    requires Alone(s) && k < |s.pool|
    ensures CanRun(s, [GetPooled(0, k), CountReuse(0)])
    ensures After(s, [GetPooled(0, k), CountReuse(0)]) == GotPooled(s, k)
  {
    GetPooledEffect(s, k);
    TwoSteps(s, GetPooled(0, k), CountReuse(0));
  }

  lemma CleanAlone(s: State)
    requires Alone(s)
    ensures CanRun(s, [CleanBegin(0), CleanStore(0)])
    ensures After(s, [CleanBegin(0), CleanStore(0)]) == s.(pool := [], poolSize := 0, sinceCleanup := 0)
  {
    CleanEffect(s);
    TwoSteps(s, CleanBegin(0), CleanStore(0));
  }

  class BufferPool {
    const config: Config
    var pool: seq<ByteBuffer>
    var poolSize: int
    var created: nat
    var reused: nat
    var discarded: nat
    ghost var puts: nat
    ghost var accepted: nat
    ghost var sinceCleanup: nat

    /** The pool as the concurrent protocol sees it, between the calls of a single caller. */
    ghost function View(): State
      reads this, pool
    {
      State(config, [Idle], seq(|pool|, i requires 0 <= i < |pool| reads this, pool => Buf(pool[i].len,
          pool[i].data.Length)),
            poolSize, created, reused, discarded, puts, accepted, sinceCleanup)
    }

    /** Pooled buffers and their arrays are not shared with each other. */
    ghost predicate Valid()
      reads this, pool
    {
      && Inv(View())
      && (forall i :: 0 <= i < |pool| ==> pool[i].Valid())
      && (forall i, j :: 0 <= i < j < |pool| ==> pool[i] != pool[j] && pool[i].data != pool[j].data)
    }

    /** The pool does not hold this buffer or its array. */
    ghost predicate Excludes(b: ByteBuffer)
      reads this, pool, b
    {
      forall i :: 0 <= i < |pool| ==> pool[i] != b && pool[i].data != b.data
    }

    constructor (config: Config)
      ensures Valid() && View() == Init(config, 1) && fresh(this) && pool == []
    {
      this.config := config;
      pool, poolSize, created, reused, discarded := [], 0, 0, 0, 0;
      puts, accepted, sinceCleanup := 0, 0, 0;
      new;
      InitInv(config, 1);
      assert View() == Init(config, 1);
    }

    /** A reset buffer: one of the pool, or a new one. sync.Pool promises no more than that. */
    method Get() returns (b: ByteBuffer, ghost steps: seq<Action>)
      requires Valid()
      modifies this, pool
      ensures Valid() && b.Valid() && b.len == 0 && Excludes(b)
      ensures CanRun(old(View()), steps) && View() == After(old(View()), steps)
      ensures reused == old(reused) + 1 && puts == old(puts)
      ensures steps == [GetNew(0), CountReuse(0)] || exists k :: steps == [GetPooled(0, k), CountReuse(0)]
      ensures pool == old(pool) || exists k: nat :: k < |old(pool)| && pool == Without(old(pool), k)
      ensures fresh(b) || b in old(pool)
      ensures fresh(b) ==> b.data.Length == config.initialBufferSize
      ensures fresh(b.data) || exists x :: x in old(pool) && b.data == old(x.data)
      ensures forall x :: x in old(pool) ==> x.data == old(x.data)
    {
      var fromPool: bool := *;
      if fromPool && pool != [] {
        var k: nat :| k < |pool|;
        steps := [GetPooled(0, k), CountReuse(0)];
        GetPooledAlone(View(), k);
        b := Take(k);
      } else {
        steps := [GetNew(0), CountReuse(0)];
        GetNewAlone(View());
        b := Make();
      }
    }

    method Take(k: nat) returns (b: ByteBuffer)
      requires Valid() && k < |pool|
      modifies this, pool
      ensures Valid() && b == old(pool)[k] && b.Valid() && b.len == 0 && Excludes(b)
      ensures pool == Without(old(pool), k)
      ensures forall x :: x in old(pool) ==> x.data == old(x.data)
      ensures View() == GotPooled(old(View()), k) && reused == old(reused) + 1 && puts == old(puts)
    {
      GotPooledKeeps(View(), k);
      b := pool[k];
      pool := Without(pool, k);
      b.Reset();
      reused := reused + 1;
      assert View().pool == Without(old(View()).pool, k);
    }

    method Make() returns (b: ByteBuffer)
      requires Valid()
      modifies this
      ensures Valid() && fresh(b) && fresh(b.data) && b.Valid() && b.len == 0 && Excludes(b)
      ensures pool == old(pool) && b.data.Length == config.initialBufferSize
      ensures View() == GotNew(old(View())) && reused == old(reused) + 1 && puts == old(puts)
    {
      GotNewKeeps(View());
      created := created + 1;
      b := new ByteBuffer(config.initialBufferSize);
      reused := reused + 1;
      assert View().pool == old(View()).pool;
    }

    /** Put hands a buffer over; the caller must not keep another reference to its array. */
    method Put(b: ByteBuffer?)
      requires Valid() && (b != null ==> b.Valid() && Excludes(b))
      modifies this, b
      ensures Valid()
      ensures b == null ==> View() == old(View()) && pool == old(pool)
      ensures b != null ==>
        && View() == PutResult(old(View()), b.data.Length) && b.data == old(b.data)
        && (pool == old(pool) || pool == old(pool) + [b])
    {
      if b == null {
        return;
      }
      ghost var before := View();
      PutKeeps(before, b.data.Length);
      puts := puts + 1;
      if b.data.Length > config.maxBufferSize {
        discarded := discarded + 1;
      } else if poolSize >= config.maxPoolSize {
        discarded := discarded + 1;
      } else {
        b.Reset();
        pool := pool + [b];
        poolSize := poolSize + 1;
        accepted, sinceCleanup := accepted + 1, sinceCleanup + 1;
      }
      assert View() == PutResult(before, b.data.Length);
    }

    method Cleanup()
      requires Valid()
      modifies this
      ensures Valid() && pool == [] && poolSize == 0 && CanRun(old(View()), [CleanBegin(0), CleanStore(0)])
      ensures View() == After(old(View()), [CleanBegin(0), CleanStore(0)])
    {
      CleanAlone(View());
      InvRun(View(), [CleanBegin(0), CleanStore(0)]);
      pool := [];
      poolSize := 0;
      sinceCleanup := 0;
      assert View() == After(old(View()), [CleanBegin(0), CleanStore(0)]);
    }

    /** The figures add up at rest, and the reuse ratio, which counts every Get, is never below one. */
    method GetStats() returns (r: Stats)
      requires Valid()
      ensures r.currentPoolSize == poolSize == sinceCleanup && r.created == created && r.reused == reused
      ensures r.discarded == discarded && r.maxBufferSize == config.maxBufferSize && r.maxPoolSize == config.maxPoolSize
      ensures puts == accepted + r.discarded
      ensures r.reuseRatio * r.created as real == if r.created == 0 then 0.0 else r.reused as real
      ensures r.created > 0 ==> r.reuseRatio >= 1.0
    {
      var reuseRatio := 0.0;
      assert created <= reused && puts == accepted + discarded by {
        CountZero(InGet, [Idle]);
        CountZero(InPut, [Idle]);
      }
      if created > 0 {
        reuseRatio := reused as real / created as real;
      }
      return Stats(poolSize, created, reused, discarded, config.maxBufferSize, config.maxPoolSize, reuseRatio);
    }
  }

  // ----- Reading objects

  datatype ReadError = NoError | EOF | UnexpectedEOF | Broken

  /** An object being read, under the io.Reader contract: any number of bytes up to the space given,
      the error possibly together with the last bytes, EOF only at the end. `stalls` bounds the reads
      that return nothing and no error; `broken` records that a read failed. */
  class ObjectReader {
    const content: seq<byte>
    var pos: nat
    var broken: bool
    ghost var stalls: nat

    ghost predicate Valid()
      reads this
    {
      pos <= |content|
    }

    constructor (content: seq<byte>, ghost stalls: nat)
      ensures Valid() && this.content == content && pos == 0 && !broken && this.stalls == stalls
    {
      this.content, this.pos, this.broken, this.stalls := content, 0, false, stalls;
    }

    method Read(buf: array<byte>, off: nat) returns (n: nat, err: ReadError)
      requires Valid() && off <= buf.Length
      modifies this`pos, this`broken, this`stalls, buf
      ensures Valid() && pos == old(pos) + n && off + n <= buf.Length
      ensures buf[off..off + n] == content[old(pos)..pos] && buf[..off] == old(buf[..off])
      ensures err in {NoError, EOF, Broken}
      ensures err.EOF? ==> pos == |content|
      ensures broken == (old(broken) || err.Broken?)
      ensures stalls <= old(stalls) && (err.NoError? && n == 0 ==> stalls < old(stalls))
    {
      var space := if buf.Length - off < |content| - pos then buf.Length - off else |content| - pos;
      n :| 0 <= n <= space;
      forall i | 0 <= i < n {
        buf[off + i] := content[pos + i];
      }
      ghost var got := buf[off..off + n];
      assert forall i :: 0 <= i < n ==> got[i] == content[pos + i];
      assert got == content[pos..pos + n];
      assert buf[..off] == old(buf[..off]);
      pos := pos + n;
      var fails: bool := *;
      var tells: bool := *;
      if fails {
        broken := true;
        return n, Broken;
      }
      if pos == |content| && tells {
        return n, EOF;
      }
      if n == 0 {
        if pos == |content| {
          return n, EOF;
        }
        broken := true;
        return n, Broken;
      }
      return n, NoError;
    }
  }

  /** io.ReadFull. */
  method ReadFull(reader: ObjectReader, data: array<byte>) returns (err: ReadError)
    requires reader.Valid()
    modifies reader`pos, reader`broken, reader`stalls, data
    ensures reader.Valid()
    ensures err.NoError? ==>
      && reader.pos == old(reader.pos) + data.Length
      && data[..] == reader.content[old(reader.pos)..reader.pos]
    ensures !err.NoError? ==> reader.broken || |reader.content| - old(reader.pos) < data.Length
  {
    var n := 0;
    err := NoError;
    while n < data.Length && err.NoError?
      invariant n <= data.Length && reader.Valid() && reader.pos == old(reader.pos) + n
      invariant data[..n] == reader.content[old(reader.pos)..reader.pos]
      invariant err in {NoError, EOF, Broken}
      invariant err.Broken? ==> reader.broken
      invariant err.EOF? ==> reader.pos == |reader.content|
      decreases data.Length - n, reader.stalls, err.NoError?
    {
      ghost var before := reader.pos;
      var k;
      k, err := reader.Read(data, n);
      assert data[..n + k] == data[..n] + data[n..n + k];
      assert reader.content[old(reader.pos)..before] + reader.content[before..reader.pos]
          == reader.content[old(reader.pos)..reader.pos];
      n := n + k;
    }
    if n == data.Length {
      err := NoError;
      assert data[..] == data[..n];
    } else if n > 0 && err.EOF? {
      err := UnexpectedEOF;
    }
  }

  /** io.Copy into a buffer, through a scratch array. */
  method Copy(buffer: ByteBuffer, reader: ObjectReader) returns (err: ReadError)
    requires reader.Valid() && buffer.Valid()
    modifies reader`pos, reader`broken, reader`stalls, buffer, buffer.data
    ensures reader.Valid() && buffer.Valid()
    ensures buffer.data == old(buffer.data) || fresh(buffer.data)
    ensures err.NoError? || (err.Broken? && reader.broken)
    ensures err.NoError? ==> buffer.Bytes() == old(buffer.Bytes()) + reader.content[old(reader.pos)..]
  {
    var scratch := new byte[32768];
    err := NoError;
    while err.NoError?
      invariant reader.Valid() && buffer.Valid() && buffer.data != scratch
      invariant buffer.data == old(buffer.data) || fresh(buffer.data)
      invariant old(reader.pos) <= reader.pos
      invariant buffer.Bytes() == old(buffer.Bytes()) + reader.content[old(reader.pos)..reader.pos]
      invariant err in {NoError, EOF, Broken}
      invariant err.Broken? ==> reader.broken
      invariant err.EOF? ==> reader.pos == |reader.content|
      decreases |reader.content| - reader.pos, reader.stalls, err.NoError?
    {
      ghost var before := reader.pos;
      var n;
      n, err := reader.Read(scratch, 0);
      assert scratch[..n] == reader.content[before..reader.pos];
      buffer.Append(scratch, n);
      assert reader.content[old(reader.pos)..before] + reader.content[before..reader.pos]
          == reader.content[old(reader.pos)..reader.pos];
    }
    if err.EOF? {
      err := NoError;
    }
  }

  datatype GetError = NotConnected | GetFailed | StatFailed | ReadFailed

  datatype GetResult = Ok(data: array<byte>) | Err(error: GetError)

  /** The path for small objects: straight into the result. */
  method GetDirect(reader: ObjectReader) returns (r: GetResult)
    requires reader.Valid() && reader.pos == 0 && !reader.broken
    modifies reader
    ensures r.Ok? || (r == Err(ReadFailed) && reader.broken)
    ensures r.Ok? ==> fresh(r.data) && r.data[..] == reader.content
  {
    var data := new byte[|reader.content|];
    var err := ReadFull(reader, data);
    if !err.NoError? {
      return Err(ReadFailed);
    }
    return Ok(data);
  }

  /** The path for larger objects: into a pooled buffer, then into a fresh array. */
  method GetBuffered(reader: ObjectReader, pool: BufferPool, bufferSize: nat) returns (r: GetResult)
    requires reader.Valid() && reader.pos == 0 && pool.Valid()
    modifies reader, pool, pool.pool, set b <- pool.pool :: b.data
    ensures pool.Valid()
    ensures r.Ok? || (r == Err(ReadFailed) && reader.broken)
    ensures r.Ok? ==> fresh(r.data) && r.data[..] == reader.content
    ensures r.Ok? ==> forall b <- pool.pool :: b.data != r.data
    ensures pool.reused == old(pool.reused) + 1 && pool.puts == old(pool.puts) + 1
  {
    var buffer, _ := pool.Get();
    var err := Fill(buffer, reader, bufferSize);
    assert pool.Valid() && pool.Excludes(buffer);
    ghost var before := pool.View();
    r := Finish(buffer, pool, err, reader.content);
    assert pool.View().puts == before.puts + 1 && pool.View().reused == before.reused;
  }

  /** The end of GetBuffered: copy the buffer out unless the read failed, and give it back either way. */
  method Finish(buffer: ByteBuffer, pool: BufferPool, err: ReadError, ghost content: seq<byte>) returns (r: GetResult)
    requires pool.Valid() && buffer.Valid() && pool.Excludes(buffer)
    requires err.NoError? ==> buffer.Bytes() == content
    modifies pool, buffer
    ensures pool.Valid()
    ensures if err.NoError? then r.Ok? && fresh(r.data) && r.data[..] == content else r == Err(ReadFailed)
    ensures r.Ok? ==> forall b <- pool.pool :: b.data != r.data
    ensures pool.pool == old(pool.pool) || pool.pool == old(pool.pool) + [buffer]
    ensures pool.View() == PutResult(old(pool.View()), buffer.data.Length) && buffer.data == old(buffer.data)
  {
    if err.NoError? {
      var result := CopyOut(buffer);
      assert result != buffer.data && forall b <- pool.pool :: b.data != result;
      pool.Put(buffer);
      return Ok(result);
    }
    pool.Put(buffer);
    return Err(ReadFailed);
  }

  /** Grow the buffer, clear it and read the object into it. */
  method Fill(buffer: ByteBuffer, reader: ObjectReader, bufferSize: nat) returns (err: ReadError)
    requires reader.Valid() && reader.pos == 0 && buffer.Valid()
    modifies reader`pos, reader`broken, reader`stalls, buffer, buffer.data
    ensures buffer.Valid() && (buffer.data == old(buffer.data) || fresh(buffer.data))
    ensures err.NoError? || reader.broken
    ensures err.NoError? ==> buffer.Bytes() == reader.content
  {
    if buffer.data.Length < bufferSize {
      buffer.Grow(bufferSize - buffer.data.Length);
    }
    buffer.Reset();
    err := Copy(buffer, reader);
  }

  method CopyOut(buffer: ByteBuffer) returns (result: array<byte>)
    requires buffer.Valid()
    ensures fresh(result) && result[..] == buffer.Bytes()
  {
    result := new byte[buffer.len];
    forall i | 0 <= i < result.Length {
      result[i] := buffer.data[i];
    }
  }

  /** Get. The store reports the size of the object; small objects are read directly, the others
      through a pooled buffer. Either way the result is a fresh array with the exact contents, which
      no pooled buffer shares. */
  method Get(connected: bool, opens: bool, stats: bool, reader: ObjectReader, pool: BufferPool,
             smallFileThreshold: int, initialBufferSize: nat) returns (r: GetResult)
    requires reader.Valid() && reader.pos == 0 && !reader.broken && pool.Valid()
    modifies reader, pool, pool.pool, set b <- pool.pool :: b.data
    ensures pool.Valid()
    ensures !connected ==> r == Err(NotConnected)
    ensures connected && !opens ==> r == Err(GetFailed)
    ensures connected && opens && !stats ==> r == Err(StatFailed)
    ensures connected && opens && stats ==> r.Ok? || (r == Err(ReadFailed) && reader.broken)
    ensures r.Ok? ==> fresh(r.data) && r.data[..] == reader.content
    ensures r.Ok? ==> forall b <- pool.pool :: b.data != r.data
    ensures
      var buffered := if connected && opens && stats && |reader.content| >= smallFileThreshold then 1 else 0;
      pool.reused == old(pool.reused) + buffered && pool.puts == old(pool.puts) + buffered
  {
    if !connected {
      return Err(NotConnected);
    }
    if !opens {
      return Err(GetFailed);
    }
    if !stats {
      return Err(StatFailed);
    }
    var size := |reader.content|;
    if size < smallFileThreshold {
      r := GetDirect(reader);
    } else {
      r := GetBuffered(reader, pool, if size < initialBufferSize then size else initialBufferSize);
    }
  }

  // ----- StreamGet

  datatype StreamError = StreamNotConnected | StreamGetFailed | Cancelled | StreamReadFailed

  function Concat(chunks: seq<seq<byte>>): seq<byte> {
    if chunks == [] then [] else Concat(chunks[..|chunks| - 1]) + chunks[|chunks| - 1]
  }

  lemma ConcatOne(chunks: seq<seq<byte>>, chunk: seq<byte>)
    ensures Concat(chunks + [chunk]) == Concat(chunks) + chunk
  {
    assert (chunks + [chunk])[..|chunks|] == chunks;
  }

  lemma SlicesMeet(s: seq<byte>, i: nat, j: nat)
    requires i <= j <= |s|
    ensures s[..i] + s[i..j] == s[..j]
  {
  }

  lemma {:induction false} ConcatPrefix(chunks: seq<seq<byte>>, k: nat)
    requires k <= |chunks|
    ensures Concat(chunks[..k]) <= Concat(chunks)
    decreases |chunks|
  {
    if k == |chunks| {
      assert chunks[..k] == chunks;
    } else {
      ConcatPrefix(chunks[..|chunks| - 1], k);
      assert chunks[..|chunks| - 1][..k] == chunks[..k];
    }
  }

  lemma EveryPrefix(chunks: seq<seq<byte>>, content: seq<byte>)
    requires Concat(chunks) <= content
    ensures forall k :: 0 <= k <= |chunks| ==> Concat(chunks[..k]) <= content
  {
    forall k | 0 <= k <= |chunks| ensures Concat(chunks[..k]) <= content {
      ConcatPrefix(chunks, k);
    }
  }

  datatype Channel = DataChannel | ErrorChannel

  /** The two channels StreamGet returns, with what was sent on each, whether it is closed, and in what
      order they were closed. */
  class StreamChannels {
    var data: seq<array<byte>>
    var errors: seq<StreamError>
    var dataClosed: bool
    var errorsClosed: bool
    var closings: seq<Channel>

    constructor ()
      ensures data == [] && errors == [] && !dataClosed && !errorsClosed && closings == [] && fresh(this)
    {
      data, errors, dataClosed, errorsClosed, closings := [], [], false, false, [];
    }

    /** A send; on a closed channel it would panic. */
    method Send(chunk: array<byte>)
      requires !dataClosed
      modifies this`data
      ensures data == old(data) + [chunk] && Sent() == old(Sent()) + [chunk[..]]
    {
      data := data + [chunk];
      assert Sent() == old(Sent()) + [chunk[..]];
    }

    /** The error channel holds one error; a second send would block for ever. */
    method SendError(e: StreamError)
      requires !errorsClosed && errors == []
      modifies this`errors
      ensures errors == [e] && Sent() == old(Sent())
    {
      errors := [e];
      assert Sent() == old(Sent());
    }

    /** Closing twice would panic. */
    method CloseErrors()
      requires !errorsClosed
      modifies this`errorsClosed, this`closings
      ensures errorsClosed && closings == old(closings) + [ErrorChannel] && Sent() == old(Sent())
    {
      errorsClosed := true;
      closings := closings + [ErrorChannel];
      assert Sent() == old(Sent());
    }

    method CloseData()
      requires !dataClosed
      modifies this`dataClosed, this`closings
      ensures dataClosed && closings == old(closings) + [DataChannel] && Sent() == old(Sent())
    {
      dataClosed := true;
      closings := closings + [DataChannel];
      assert Sent() == old(Sent());
    }

    function Sent(): seq<seq<byte>>
      reads this, data
    {
      seq(|data|, i requires 0 <= i < |data| reads this, data => data[i][..])
    }
  }

  /** A context: it may end at any time, and stays ended. */
  class Context {
    var ended: bool

    constructor (ended: bool)
      ensures this.ended == ended
    {
      this.ended := ended;
    }

    /** A look at it, before which it may have ended. */
    method Poll() returns (over: bool)
      modifies this`ended
      ensures over == ended && (old(ended) ==> ended)
    {
      var ends: bool := *;
      ended := ended || ends;
      return ended;
    }
  }

  /** The goroutine of StreamGet. The chunks sent always concatenate to a prefix of the object, and to
      the whole object when no error was sent; every chunk is an array of its own, never the read
      buffer; at most one error is sent, and the error channel is closed before the data channel. */
  method StreamGet(ctx: Context, connected: bool, opens: bool, reader: ObjectReader, chunkSize: nat)
    returns (channels: StreamChannels, ghost buffer: array<byte>)
    requires chunkSize > 0 && reader.Valid() && reader.pos == 0 && !reader.broken
    modifies ctx, reader
    ensures fresh(channels) && channels.errorsClosed && channels.dataClosed && |channels.errors| <= 1
    ensures channels.closings == [ErrorChannel, DataChannel]
    ensures !connected ==> channels.errors == [StreamNotConnected] && channels.data == []
    ensures connected && !opens ==> channels.errors == [StreamGetFailed] && channels.data == []
    ensures forall k :: 0 <= k <= |channels.data| ==> Concat(channels.Sent()[..k]) <= reader.content
    ensures channels.errors == [] ==> Concat(channels.Sent()) == reader.content
    ensures channels.errors == [StreamReadFailed] ==> reader.broken
    ensures channels.errors == [Cancelled] ==> ctx.ended
    ensures connected && opens && old(ctx.ended) ==> channels.errors == [Cancelled] && channels.data == []
    ensures connected && opens && !ctx.ended ==>
      channels.errors == if reader.broken then [StreamReadFailed] else []
    ensures forall i :: 0 <= i < |channels.data| ==>
      fresh(channels.data[i]) && channels.data[i] != buffer && 0 < channels.data[i].Length <= chunkSize
    ensures forall i, j :: 0 <= i < j < |channels.data| ==> channels.data[i] != channels.data[j]
  {
    channels := new StreamChannels();
    var scratch := new byte[chunkSize];
    buffer := scratch;
    if !connected {
      channels.SendError(StreamNotConnected);
    } else if !opens {
      channels.SendError(StreamGetFailed);
    } else {
      ReadChunks(ctx, channels, reader, scratch);
    }
    assert forall i :: 0 <= i < |channels.data| ==> channels.data[i] in channels.data;
    channels.CloseErrors();
    channels.CloseData();
    EveryPrefix(channels.Sent(), reader.content);
  }

  /** What has been sent so far is what has been read so far. */
  ghost predicate Streaming(channels: StreamChannels, reader: ObjectReader)
    reads channels, channels.data, reader
  {
    && reader.Valid() && channels.errors == [] && !channels.dataClosed && !channels.errorsClosed
    && Concat(channels.Sent()) == reader.content[..reader.pos]
  }

  /** How the read loop ends: with the whole object sent, or with one error after a prefix, because the context
      ended or because a read failed. */
  ghost predicate Ended(ctx: Context, channels: StreamChannels, reader: ObjectReader)
    reads ctx, channels, channels.data, reader
  {
    && Concat(channels.Sent()) <= reader.content && !channels.dataClosed && !channels.errorsClosed
    && if channels.errors == [] then Concat(channels.Sent()) == reader.content && !reader.broken
       else (channels.errors == [Cancelled] && ctx.ended) || (channels.errors == [StreamReadFailed] && reader.broken)
  }

  /** The read loop. A context that has ended before stops it at once. */
  method ReadChunks(ctx: Context, channels: StreamChannels, reader: ObjectReader, buffer: array<byte>)
    requires buffer.Length > 0 && reader.pos == 0 && channels.data == [] && Streaming(channels, reader)
    requires !reader.broken
    modifies ctx, channels`data, channels`errors, reader, buffer
    ensures Ended(ctx, channels, reader)
    ensures old(ctx.ended) ==> channels.errors == [Cancelled] && channels.data == []
    ensures Separate(channels.data, buffer) && forall c <- channels.data :: fresh(c)
  {
    var done := false;
    while !done
      invariant if done then Ended(ctx, channels, reader) else Streaming(channels, reader) && !reader.broken
      invariant old(ctx.ended) ==> ctx.ended && channels.data == [] && (done ==> channels.errors == [Cancelled])
      invariant Separate(channels.data, buffer) && forall c <- channels.data :: fresh(c)
      invariant reader.pos <= |reader.content|
      decreases |reader.content| - reader.pos, reader.stalls, !done
    {
      done := ReadChunk(ctx, channels, reader, buffer);
    }
  }

  /** One turn of the loop: look at the context, read, send a copy, look at the error. */
  method ReadChunk(ctx: Context, channels: StreamChannels, reader: ObjectReader, buffer: array<byte>)
    returns (done: bool)
    requires buffer.Length > 0 && Streaming(channels, reader) && Separate(channels.data, buffer) && !reader.broken
    modifies ctx, channels`data, channels`errors, reader, buffer
    ensures if done then Ended(ctx, channels, reader) else Streaming(channels, reader) && !reader.broken
    ensures old(ctx.ended) ==> ctx.ended && done && channels.errors == [Cancelled]
    ensures old(ctx.ended) ==> channels.data == old(channels.data)
    ensures Separate(channels.data, buffer)
    ensures forall c <- channels.data :: c in old(channels.data) || fresh(c)
    ensures old(reader.pos) <= reader.pos <= |reader.content| && reader.stalls <= old(reader.stalls)
    ensures !done && reader.pos == old(reader.pos) ==> reader.stalls < old(reader.stalls)
  {
    var over := ctx.Poll();
    if over {
      channels.SendError(Cancelled);
      return true;
    }
    var delivered, err := Forward(ctx, channels, reader, buffer);
    if !delivered {
      return true;
    }
    if err.EOF? {
      assert reader.content[..reader.pos] == reader.content;
      return true;
    }
    if err.Broken? {
      channels.SendError(StreamReadFailed);
      return true;
    }
    return false;
  }

  /** Read once, and send a copy of what was read, if anything. */
  method Forward(ctx: Context, channels: StreamChannels, reader: ObjectReader, buffer: array<byte>)
    returns (delivered: bool, err: ReadError)
    requires buffer.Length > 0 && Streaming(channels, reader) && Separate(channels.data, buffer) && !reader.broken
    modifies ctx, channels`data, channels`errors, reader, buffer
    ensures if delivered then Streaming(channels, reader) else Ended(ctx, channels, reader)
    ensures !delivered ==> channels.errors == [Cancelled]
    ensures Separate(channels.data, buffer)
    ensures forall c <- channels.data :: c in old(channels.data) || fresh(c)
    ensures old(reader.pos) <= reader.pos <= |reader.content| && reader.stalls <= old(reader.stalls)
    ensures err in {NoError, EOF, Broken}
    ensures (err.EOF? ==> reader.pos == |reader.content|) && reader.broken == err.Broken?
    ensures err.NoError? && reader.pos == old(reader.pos) ==> reader.stalls < old(reader.stalls)
  {
    ghost var before, sent := reader.pos, channels.Sent();
    var n;
    n, err := reader.Read(buffer, 0);
    assert channels.Sent() == sent;
    delivered := true;
    if n > 0 {
      delivered := Deliver(ctx, channels, buffer, n);
      if delivered {
        ConcatOne(sent, buffer[..n]);
        SlicesMeet(reader.content, before, reader.pos);
      }
    }
  }

  /** Copy the n bytes just read and send the copy, unless the context ends first. If it has, either may happen. */
  method Deliver(ctx: Context, channels: StreamChannels, buffer: array<byte>, n: nat) returns (delivered: bool)
    requires 0 < n <= buffer.Length && channels.errors == [] && !channels.errorsClosed && !channels.dataClosed
    requires Separate(channels.data, buffer)
    modifies ctx, channels`data, channels`errors
    ensures Separate(channels.data, buffer)
    ensures delivered ==> channels.errors == [] && channels.Sent() == old(channels.Sent()) + [buffer[..n]]
    ensures !delivered ==> ctx.ended && channels.errors == [Cancelled] && channels.Sent() == old(channels.Sent())
    ensures forall c <- channels.data :: c in old(channels.data) || fresh(c)
  {
    var chunk := new byte[n];
    forall i | 0 <= i < n {
      chunk[i] := buffer[i];
    }
    assert chunk[..] == buffer[..n];
    assert channels.Sent() == old(channels.Sent());
    var over := ctx.Poll();
    delivered := *;
    delivered := delivered || !over;
    if delivered {
      channels.Send(chunk);
    } else {
      channels.SendError(Cancelled);
    }
  }

  /** Chunks are distinct arrays, non-empty, no larger than the read buffer, and not the read buffer. */
  ghost predicate Separate(chunks: seq<array<byte>>, buffer: array<byte>) {
    && (forall i :: 0 <= i < |chunks| ==> chunks[i] != buffer && 0 < chunks[i].Length <= buffer.Length)
    && (forall i, j :: 0 <= i < j < |chunks| ==> chunks[i] != chunks[j])
  }
}
