/** Reading a request body once and replaying it as often as wanted: the creation functions of
    common/body_storage.go and the per-request cache of common/gin.go. */
module RequestBody {
  import opened Basics
  import opened BodyStorage

  const MEGABYTE := 1048576

  /** The settings and the current disk usage. */
  datatype Config = Config(enabled: bool, thresholdMB: int, maxSizeMB: int, usage: int)

  /** How the outside world fails during a call: reading the body, creating, writing or rewinding the file. */
  datatype Faults = Faults(reading: Option<Failure>, creating: bool, writing: bool, rewinding: bool)

  datatype Failure = TooLarge | Closed | Other

  const NO_FAULTS := Faults(None, false, false, false)

  datatype Result<+T> = Ok(value: T) | Err(failure: Failure)

  datatype Storage = InMemory(m: MemoryStorage) | OnDisk(d: DiskStorage)
  {
    ghost predicate Valid()
      reads if InMemory? then {m} else {d, d.file}
    {
      if InMemory? then m.Valid() else d.Valid()
    }

    function Value(): Body
      reads if InMemory? then {m as object} else {d, d.file}
    {
      if InMemory? then m.Value() else d.Value()
    }
  }

  // ---------------------------------------------------------------------------------------------------
  // Creation
  // ---------------------------------------------------------------------------------------------------

  predicate DiskAvailable(cfg: Config, size: int) {
    cfg.enabled && cfg.usage + size <= cfg.maxSizeMB * MEGABYTE
  }

  predicate WantsDisk(cfg: Config, size: int) {
    cfg.enabled && size >= cfg.thresholdMB * MEGABYTE && DiskAvailable(cfg, size)
  }

  /** What io.LimitReader lets through. */
  function Limited(rest: seq<Byte>, n: int): seq<Byte> {
    if n <= 0 then [] else if n < |rest| then rest[..n] else rest
  }

  /** Bytes already in hand are stored whole, on disk if that is wanted and works, otherwise in memory. */
  method CreateBodyStorage(data: seq<Byte>, cfg: Config, faults: Faults) returns (s: Storage)
    ensures s.Valid() && s.Value() == Body(data, 0, false)
    ensures s.OnDisk? <==>
      && cfg.enabled && |data| >= cfg.thresholdMB * 1048576 && cfg.usage + |data| <= cfg.maxSizeMB * 1048576
      && !faults.creating && !faults.writing && !faults.rewinding
    ensures s.InMemory? ==> fresh(s.m)
    ensures s.OnDisk? ==> fresh(s.d) && fresh(s.d.file)
  {
    if cfg.enabled && |data| >= cfg.thresholdMB * MEGABYTE && DiskAvailable(cfg, |data|) {
      if !faults.creating && !faults.writing && !faults.rewinding {
        var file := new File(data);
        var d := new DiskStorage(file);
        return OnDisk(d);
      }
    }
    var m := new MemoryStorage(data);
    s := InMemory(m);
  }

  /** The request body as a stream: what is left to read, or nothing once it has been closed. */
  class BodyReader {
    var rest: seq<Byte>
    var closed: bool

    constructor (contents: seq<Byte>)
      ensures rest == contents && !closed
    {
      rest, closed := contents, false;
    }

    /** Reads up to n bytes to the end; a closed body cannot be read. */
    method ReadLimited(n: int, fault: Option<Failure>) returns (r: Result<seq<Byte>>)
      modifies this`rest
      ensures r == (if closed then Err(Closed) else if fault.Some? then Err(fault.value) else Ok(Limited(old(rest), n)))
    {
      if closed {
        return Err(Closed);
      }
      if fault.Some? {
        return Err(fault.value);
      }
      var data := Limited(rest, n);
      rest := rest[|data|..];
      return Ok(data);
    }
  }

  /** What CreateBodyStorageFromReader answers for a body (none if closed): an error, or the whole body. */
  function Created(body: Option<seq<Byte>>, contentLength: int, maxBytes: int, cfg: Config,
    faults: Faults): Result<seq<Byte>> {
    var toDisk := contentLength > 0 && WantsDisk(cfg, contentLength);
    if toDisk && faults.creating then Err(Other)
    else if body.None? then Err(if toDisk then Other else Closed)
    else if faults.reading.Some? then
      if toDisk && faults.reading.value != TooLarge then Err(Other) else Err(faults.reading.value)
    else if toDisk && faults.writing then Err(Other)
    else if |body.value| > maxBytes then Err(TooLarge)
    else if toDisk && faults.rewinding then Err(Other)
    else Ok(body.value)
  }

  method NewDiskStorageFromReader(reader: BodyReader, maxBytes: int, faults: Faults) returns (r: Result<DiskStorage>)
    modifies reader`rest
    ensures r.Ok? ==> !reader.closed && |old(reader.rest)| <= maxBytes
    ensures r.Ok? ==> r.value.Valid() && r.value.Value() == Body(old(reader.rest), 0, false)
    ensures r.Ok? ==> fresh(r.value) && fresh(r.value.file)
    ensures r.Err? <==> faults.creating || reader.closed || faults.reading.Some? || faults.writing
                        || |old(reader.rest)| > maxBytes || faults.rewinding
    ensures r == Err(TooLarge) <==>
      (&& !faults.creating && !reader.closed
       && if faults.reading.Some? then faults.reading.value == TooLarge
         else !faults.writing && |old(reader.rest)| > maxBytes)
  {
    if faults.creating {
      return Err(Other);
    }
    var copied := reader.ReadLimited(maxBytes + 1, faults.reading);
    if copied.Err? {
      return Err(copied.failure);
    }
    if faults.writing {
      return Err(Other);
    }
    if |copied.value| > maxBytes {
      return Err(TooLarge);
    }
    if faults.rewinding {
      return Err(Other);
    }
    var file := new File(copied.value);
    var d := new DiskStorage(file);
    return Ok(d);
  }

  method CreateBodyStorageFromReader(reader: BodyReader, contentLength: int, maxBytes: int, cfg: Config, faults: Faults)
    returns (r: Result<Storage>)
    modifies reader`rest
    ensures var body := if reader.closed then None else Some(old(reader.rest));
      match Created(body, contentLength, maxBytes, cfg, faults)
      case Err(f) => r == Err(f)
      case Ok(contents) => r.Ok? && r.value.Valid() && r.value.Value() == Body(contents, 0, false)
    ensures r.Ok? ==>
      var n := |old(reader.rest)|;
      r.value.OnDisk? <==>
        || (&& cfg.enabled && contentLength > 0 && contentLength >= cfg.thresholdMB * 1048576
            && cfg.usage + contentLength <= cfg.maxSizeMB * 1048576)
        || (&& cfg.enabled && n >= cfg.thresholdMB * 1048576 && cfg.usage + n <= cfg.maxSizeMB * 1048576
            && !faults.creating && !faults.writing && !faults.rewinding)
    ensures r.Ok? && r.value.InMemory? ==> fresh(r.value.m)
    ensures r.Ok? && r.value.OnDisk? ==> fresh(r.value.d) && fresh(r.value.d.file)
  {
    if cfg.enabled && contentLength > 0 && contentLength >= cfg.thresholdMB * MEGABYTE &&
      DiskAvailable(cfg, contentLength) {
      var d := NewDiskStorageFromReader(reader, maxBytes, faults);
      if d.Err? {
        return Err(if d.failure == TooLarge then TooLarge else Other);
      }
      return Ok(OnDisk(d.value));
    }
    var data := reader.ReadLimited(maxBytes + 1, faults.reading);
    if data.Err? {
      return Err(data.failure);
    }
    if |data.value| > maxBytes {
      return Err(TooLarge);
    }
    var s := CreateBodyStorage(data.value, cfg, faults);
    r := Ok(s);
  }

  /** A body is stored whole or not at all; when the body can be read and the disk works it is refused exactly if
      it is longer than the limit, wherever it would have gone. */
  lemma {:induction false} NeverTruncated(body: seq<Byte>, contentLength: int, maxBytes: int, cfg: Config,
    faults: Faults)
    ensures var r := Created(Some(body), contentLength, maxBytes, cfg, faults);
      && (r.Ok? ==> r.value == body && |body| <= maxBytes)
      && (r == Err(TooLarge) && faults.reading.None? ==> |body| > maxBytes)
      && (faults == NO_FAULTS ==> r == if |body| > maxBytes then Err(TooLarge) else Ok(body))
  {}

  // ---------------------------------------------------------------------------------------------------
  // The per-request cache
  // ---------------------------------------------------------------------------------------------------

  /** The two context entries and the body, which is gone once closed. */
  datatype Request = Request(storage: Option<Body>, cached: Option<seq<Byte>>, body: Option<seq<Byte>>)

  datatype Env = Env(cfg: Config, faults: Faults, contentLength: int, maxMB: int)

  function MaxBytes(maxMB: int): int {
    (if maxMB <= 0 then 128 else maxMB) * MEGABYTE
  }

  function Fetch(r: Request, env: Env): (Request, Option<Failure>) {
    if r.storage.Some? then
      if r.storage.value.closed then (r, Some(Closed))
      else (r.(storage := Some(r.storage.value.(pos := 0))), None)
    else if r.cached.Some? then (r.(storage := Some(Body(r.cached.value, 0, false))), None)
    else
      match Created(r.body, env.contentLength, MaxBytes(env.maxMB), env.cfg, env.faults)
      case Err(f) => (r.(body := None), Some(f))
      case Ok(contents) => (r.(storage := Some(Body(contents, 0, false)), body := None), None)
  }

  class RequestContext {
    var storage: Option<Storage>
    var cached: Option<seq<Byte>>
    const body: BodyReader

    ghost function Repr(): set<object>
      reads this
    {
      if storage.None? then {}
      else if storage.value.InMemory? then {storage.value.m}
      else {storage.value.d, storage.value.d.file}
    }

    ghost predicate Valid()
      reads this, Repr()
    {
      (storage.Some? ==> storage.value.Valid()) && body !in Repr() && this !in Repr()
    }

    ghost function Value(): Request
      reads this, body, Repr()
    {
      Request(if storage.Some? then Some(storage.value.Value()) else None, cached,
              if body.closed then None else Some(body.rest))
    }

    constructor (contents: seq<Byte>)
      ensures Valid() && Value() == Request(None, None, Some(contents))
    {
      storage, cached := None, None;
      body := new BodyReader(contents);
    }

    /** GetRequestBody. */
    method GetRequestBody(env: Env) returns (r: Result<Storage>)
      requires Valid()
      modifies this, body, Repr()
      ensures Valid()
      ensures Value() == Fetch(old(Value()), env).0
      ensures match Fetch(old(Value()), env).1
              case None => r.Ok? && storage == Some(r.value)
              case Some(f) => r == Err(f)
    {
      if storage.Some? {
        var err;
        if storage.value.InMemory? {
          var at, e := storage.value.m.Seek(0, FromStart);
          err := e;
        } else {
          var at, e := storage.value.d.Seek(0, FromStart);
          err := e;
        }
        if err != Okay {
          return Err(Closed);
        }
        return Ok(storage.value);
      }
      if cached.Some? {
        var bs := CreateBodyStorage(cached.value, env.cfg, env.faults);
        storage := Some(bs);
        return Ok(bs);
      }
      r := CreateBodyStorageFromReader(body, env.contentLength, MaxBytes(env.maxMB), env.cfg, env.faults);
      body.closed := true;
      if r.Ok? {
        storage := Some(r.value);
      }
    }

    /** CleanupBodyStorage, at the end of the request. */
    method CleanupBodyStorage()
      requires Valid()
      modifies this, Repr()
      ensures Valid()
      ensures Value() == old(Value()).(storage := None)
      ensures old(storage).Some? ==> old(storage).value.Value().closed
    {
      if storage.Some? {
        if storage.value.InMemory? {
          storage.value.m.Close();
        } else {
          storage.value.d.Close();
        }
        storage := None;
      }
    }
  }

  // ---------------------------------------------------------------------------------------------------
  // Runs
  // ---------------------------------------------------------------------------------------------------

  /** What happens to a request: a handler asks for the body, uses the storage it got, sets the older cache entry,
      or cleans up. */
  datatype Event = Get(env: Env) | Use(op: Op) | SetCached(bytes: seq<Byte>) | Cleanup

  function Step(r: Request, e: Event): Request {
    match e
    case Get(env) => Fetch(r, env).0
    case Use(op) => if r.storage.Some? then r.(storage := Some(Next(r.storage.value, op))) else r
    case SetCached(bytes) => r.(cached := Some(bytes))
    case Cleanup => r.(storage := None)
  }

  function Run(r: Request, events: seq<Event>): Request {
    if events == [] then r else Step(Run(r, events[..|events| - 1]), events[|events| - 1])
  }

  function Start(body: seq<Byte>): Request {
    Request(None, None, Some(body))
  }

  /** The body that a successful request for it would deliver now. */
  function Current(r: Request): Option<seq<Byte>> {
    if r.storage.Some? then Some(r.storage.value.contents)
    else if r.cached.Some? then r.cached
    else r.body
  }

  predicate SetsCached(events: seq<Event>) {
    exists i :: 0 <= i < |events| && events[i].SetCached?
  }

  lemma {:induction false} RunKeepsBody(body: seq<Byte>, events: seq<Event>)
    requires !SetsCached(events)
    ensures var r := Run(Start(body), events);
      && r.cached.None?
      && (r.storage.Some? ==> r.storage.value.contents == body)
      && (r.body.Some? ==> r.body.value == body)
  {
    if events != [] {
      var k := |events| - 1;
      assert forall i :: 0 <= i < k ==> events[..k][i] == events[i];
      RunKeepsBody(body, events[..k]);
      var r := Run(Start(body), events[..k]);
      assert !events[k].SetCached?;
      if r.body.Some? && events[k].Get? {
        NeverTruncated(body, events[k].env.contentLength, MaxBytes(events[k].env.maxMB), events[k].env.cfg,
          events[k].env.faults);
      }
    }
  }

  /** After any run of a request, whatever was read, sought or failed before: if asking for the body succeeds, the
      storage stands at position 0 and holds the complete original body, and reading it with buffers of any sizes
      delivers it from its first byte. */
  lemma {:induction false} EveryRetryReplays(body: seq<Byte>, events: seq<Event>, env: Env, sizes: seq<nat>)
    requires !SetsCached(events)
    ensures var (r, failure) := Fetch(Run(Start(body), events), env);
      failure.None? ==>
        && r.storage == Some(Body(body, 0, false))
        && Collected(r.storage.value, sizes) == body[..Available(body, 0, Total(sizes))]
  {
    RunKeepsBody(body, events);
    var before := Run(Start(body), events);
    var (r, failure) := Fetch(before, env);
    if failure.None? {
      if before.storage.None? {
        NeverTruncated(body, env.contentLength, MaxBytes(env.maxMB), env.cfg, env.faults);
      }
      ReadingCollects(Body(body, 0, false), sizes);
      assert body[0..Available(body, 0, Total(sizes))] == body[..Available(body, 0, Total(sizes))];
    }
  }

  /** The first request for a body, when nothing goes wrong: it is delivered exactly if it is not longer than the
      configured number of megabytes, or 128 of them if none is configured; otherwise it is refused as too large. */
  lemma {:induction false} FirstFetch(body: seq<Byte>, env: Env)
    requires env.faults == NO_FAULTS
    ensures var (r, failure) := Fetch(Start(body), env);
      var limit := if env.maxMB > 0 then env.maxMB * 1048576 else 134217728;
      && (failure.None? <==> |body| <= limit)
      && (failure.None? ==> r.storage == Some(Body(body, 0, false)))
      && (failure.Some? ==> failure == Some(TooLarge) && r.storage.None?)
  {
    NeverTruncated(body, env.contentLength, MaxBytes(env.maxMB), env.cfg, env.faults);
  }

  /** A body that was refused is not delivered later. */
  lemma {:induction false} RefusedStaysRefused(r: Request, env: Env, events: seq<Event>)
    requires r.storage.None? && Fetch(r, env).1.Some? && !SetsCached(events)
    ensures var r' := Run(Fetch(r, env).0, events); r'.storage.None? && Current(r').None?
  {
    if events != [] {
      var k := |events| - 1;
      assert forall i :: 0 <= i < k ==> events[..k][i] == events[i];
      RefusedStaysRefused(r, env, events[..k]);
      assert !events[k].SetCached?;
    }
  }

  predicate CleansUp(events: seq<Event>) {
    exists i :: 0 <= i < |events| && events[i].Cleanup?
  }

  /** Once a storage is cached its contents stay cached until it is cleaned up. */
  lemma {:induction false} StorageStays(r: Request, events: seq<Event>)
    requires r.storage.Some? && !CleansUp(events)
    ensures Run(r, events).storage.Some? && Run(r, events).storage.value.contents == r.storage.value.contents
  {
    if events != [] {
      var k := |events| - 1;
      assert forall i :: 0 <= i < k ==> events[..k][i] == events[i];
      StorageStays(r, events[..k]);
      assert !events[k].Cleanup?;
    }
  }

  /** A body that is rewritten through the older cache entry after it has been delivered once is never seen: whatever
      happens after a successful request for the body, any number of such rewrites included, every later successful
      request delivers the first body again, until the storage is cleaned up. */
  lemma {:induction false} RewritesAreNotDelivered(r: Request, env: Env, events: seq<Event>, later: Env)
    requires Fetch(r, env).1.None? && !CleansUp(events)
    ensures var first := Fetch(r, env).0;
      var (r', failure) := Fetch(Run(first, events), later);
      failure.None? ==> r'.storage == Some(Body(first.storage.value.contents, 0, false))
  {
    StorageStays(Fetch(r, env).0, events);
  }

  /** Before the first delivery, and after a cleanup, the latest rewrite is what is delivered. */
  lemma {:induction false} RewriteWithoutStorage(r: Request, bytes: seq<Byte>, events: seq<Event>, env: Env)
    requires r.storage.None?
    requires forall i :: 0 <= i < |events| ==> !events[i].SetCached? && !events[i].Get?
    ensures var (r', failure) := Fetch(Run(Step(r, SetCached(bytes)), events), env);
      failure.None? && r'.storage == Some(Body(bytes, 0, false))
  {
    NothingFetched(Step(r, SetCached(bytes)), events);
  }

  lemma {:induction false} NothingFetched(r: Request, events: seq<Event>)
    requires r.storage.None? && forall i :: 0 <= i < |events| ==> !events[i].SetCached? && !events[i].Get?
    ensures Run(r, events).storage.None? && Run(r, events).cached == r.cached
  {
    if events != [] {
      var k := |events| - 1;
      assert forall i :: 0 <= i < k ==> events[..k][i] == events[i];
      NothingFetched(r, events[..k]);
      assert !events[k].SetCached? && !events[k].Get?;
    }
  }
}
