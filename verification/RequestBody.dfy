/**
 A request's body as common/gin.go hands it out: read from the connection, kept in a storage
 under a context key, rewound on every fetch; dropped again by CleanupBodyStorage, after which
 a fetch goes back to an older cache or to whatever the request's body has become.
 */
module RequestBody {
  import opened BodyStorage
  import opened Bytes
  import opened Wrappers

  /**
   What c.Request.Body is: the body off the connection, that body once it was read and closed,
   the empty body of a request without one, a buffer an adapter put in its place, or the storage
   itself.
   */
  datatype Source = Network(body: Result<seq<byte>>) | Spent | NoBody | Buffer(data: seq<byte>) | Reused

  function Reading(source: Source): Result<seq<byte>> {
    match source
    case Network(body) => body
    case Spent => Err(ReadAfterClose)
    case NoBody => Ok([])
    case Buffer(data) => Ok(data)
    case Reused => Err(Closed)
  }

  /** A buffer has no close: reading it again yields nothing. */
  function Drained(source: Source): Source {
    match source
    case Network(_) => Spent
    case Buffer(_) => Buffer([])
    case _ => source
  }

  /** The settings a request meets. */
  datatype Env = Env(contentLength: int, maxBytes: nat, cache: Cache)

  /** The context keys of a request, and how often its body was read. */
  datatype State = State(source: Source, held: Option<View>, cached: Option<seq<byte>>, error: Option<Error>,
                         timesRead: nat)

  /** What a request arrives with. */
  predicate Arrives(source: Source) {
    source.Network? || source.NoBody?
  }

  function NewRequest(source: Source): State {
    State(source, None, None, None, 0)
  }

  /** One step of whoever handles the request. */
  datatype Step =
    | Fetch
    | Do(op: Op)
    | Cleanup
    | SetCached(data: seq<byte>)
    | Rewrite(data: seq<byte>)
    | Reuse

  function FetchAnswer(env: Env, st: State): Result<View> {
    if st.held.Some? then Ok(st.held.value.(pos := 0))
    else if st.cached.Some? then Ok(View(st.cached.value, 0, false))
    else if st.error.Some? then Err(st.error.value)
    else
      match Taken(Reading(st.source), env.contentLength, env.maxBytes, env.cache)
      case Ok(body) => Ok(View(body, 0, false))
      case Err(e) => Err(e)
  }

  function AfterFetch(env: Env, st: State): State {
    var answer := FetchAnswer(env, st);
    var held := if answer.Ok? then Some(answer.value) else None;
    if st.held.Some? || st.cached.Some? || st.error.Some? then st.(held := held)
    else State(Drained(st.source), held, None, if answer.Err? then Some(answer.error) else None, st.timesRead + 1)
  }

  function After(env: Env, st: State, step: Step): State {
    match step
    case Fetch => AfterFetch(env, st)
    case Do(op) => if st.held.Some? then st.(held := Some(AfterOp(st.held.value, op))) else st
    case Cleanup => st.(held := None)
    case SetCached(data) => st.(cached := Some(data))
    case Rewrite(data) => st.(source := Buffer(data))
    case Reuse => if st.held.Some? then st.(source := Reused) else st
  }

  function AfterAll(env: Env, st: State, steps: seq<Step>): State {
    if steps == [] then st else After(env, AfterAll(env, st, steps[..|steps| - 1]), steps[|steps| - 1])
  }

  /** What a held storage looks like: open. */
  predicate Open(st: State) {
    st.held.Some? ==> !st.held.value.closed
  }

  // ---------------------------------------------------------------- the context

  class RequestContext {
    var source: Source
    var storage: Option<Storage>
    var cached: Option<seq<byte>>
    var readError: Option<Error>
    var timesRead: nat
    const env: Env

    constructor (source: Source, env: Env)
      ensures this.env == env && Valid() && Abstract() == NewRequest(source)
    {
      this.source, storage, cached, readError, timesRead := source, None, None, None, 0;
      this.env := env;
    }

    ghost function Repr(): set<object>
      reads this
    {
      {this} + (if storage.Some? then Objects(storage.value) else {})
    }

    ghost function Abstract(): State
      reads this, Repr()
    {
      State(source, if storage.Some? then Some(StateOf(storage.value)) else None, cached, readError, timesRead)
    }

    ghost predicate Valid()
      reads this, Repr()
    {
      storage.Some? ==> this !in Objects(storage.value) && ValidStorage(storage.value) && !StateOf(storage.value).closed
    }

    /** GetRequestBody */
    method GetBody() returns (r: Result<Storage>)
      requires Valid()
      modifies Repr()
      ensures Valid() && fresh(Repr() - old(Repr()))
      ensures Abstract() == AfterFetch(env, old(Abstract()))
      ensures match FetchAnswer(env, old(Abstract()))
        case Ok(view) => r.Ok? && storage == Some(r.value) && StateOf(r.value) == view
        case Err(e) => r == Err(e)
    {
      if storage.Some? {
        var rewound := Rewind(storage.value);
        return Ok(storage.value);
      }
      if cached.Some? {
        var s := CreateBodyStorage(cached.value, env.cache);
        storage := Some(s);
        return Ok(s);
      }
      if readError.Some? {
        return Err(readError.value);
      }
      r := CreateFromReader(Reading(source), env.contentLength, env.maxBytes, env.cache);
      source, timesRead := Drained(source), timesRead + 1;
      match r
      case Err(e) => readError := Some(e);
      case Ok(s) => storage := Some(s);
    }

    /** CleanupBodyStorage: the storage is closed and its key cleared */
    method Clean()
      requires Valid()
      modifies Repr()
      ensures Valid() && Repr() <= old(Repr())
      ensures Abstract() == After(env, old(Abstract()), Cleanup)
      ensures old(storage).Some? ==> StateOf(old(storage).value).closed
    {
      if storage.Some? {
        CloseStorage(storage.value);
        storage := None;
      }
    }
  }

  // ---------------------------------------------------------------- a request's whole life

  /** What a step showed: a fetch its result, a call on the storage its response. */
  datatype Seen = Refused(error: Error) | Full(view: View) | Answered(response: Response) | Nothing

  predicate Matches(seen: Seen, env: Env, st: State, step: Step) {
    match step
    case Fetch => seen == (match FetchAnswer(env, st) case Ok(view) => Full(view) case Err(e) => Refused(e))
    case Do(op) =>
      if st.held.None? then seen == Nothing
      else seen == Answered(Respond(st.held.value, op, Memory)) || seen == Answered(Respond(st.held.value, op, Disk))
    case _ => seen == Nothing
  }

  method HandleStep(ctx: RequestContext, step: Step) returns (seen: Seen)
    requires ctx.Valid()
    modifies ctx.Repr()
    ensures ctx.Valid() && fresh(ctx.Repr() - old(ctx.Repr()))
    ensures ctx.Abstract() == After(ctx.env, old(ctx.Abstract()), step)
    ensures Matches(seen, ctx.env, old(ctx.Abstract()), step)
  {
    seen := Nothing;
    match step {
      case Fetch =>
        var r := ctx.GetBody();
        match r {
          case Err(e) => seen := Refused(e);
          case Ok(s) =>
            var view := Observe(s);
            seen := Full(view);
        }
      case Do(op) =>
        if ctx.storage.Some? {
          var response := Use(ctx.storage.value, op);
          seen := Answered(response);
        }
      case Cleanup =>
        ctx.Clean();
      case SetCached(data) =>
        ctx.cached := Some(data);
      case Rewrite(data) =>
        ctx.source := Buffer(data);
      case Reuse =>
        if ctx.storage.Some? {
          ctx.source := Reused;
        }
    }
  }

  /** What each step showed is what the state it found explains. */
  predicate Transcribed(env: Env, st: State, steps: seq<Step>, seen: seq<Seen>) {
    && |seen| == |steps|
    && (steps == [] ||
        (var n := |steps| - 1;
         Transcribed(env, st, steps[..n], seen[..n]) && Matches(seen[n], env, AfterAll(env, st, steps[..n]), steps[n])))
  }

  lemma {:induction false} TranscribedAt(env: Env, st: State, steps: seq<Step>, seen: seq<Seen>, i: nat)
    requires Transcribed(env, st, steps, seen) && i < |steps|
    ensures Matches(seen[i], env, AfterAll(env, st, steps[..i]), steps[i])
  {
    var n := |steps| - 1;
    if i < n {
      TranscribedAt(env, st, steps[..n], seen[..n], i);
      assert steps[..n][..i] == steps[..i];
    }
  }

  lemma TranscribedPush(env: Env, st: State, steps: seq<Step>, seen: seq<Seen>, mid: State, one: Seen, end: State)
    requires steps != []
    requires var init, step := steps[..|steps| - 1], steps[|steps| - 1];
             && Transcribed(env, st, init, seen) && mid == AfterAll(env, st, init)
             && Matches(one, env, mid, step) && end == After(env, mid, step)
    ensures Transcribed(env, st, steps, seen + [one]) && end == AfterAll(env, st, steps)
  {
    assert (seen + [one])[..|seen|] == seen;
  }

  method HandleLast(ctx: RequestContext, ghost start: State, steps: seq<Step>, before: seq<Seen>)
    returns (seen: seq<Seen>)
    requires ctx.Valid() && steps != []
    requires var init := steps[..|steps| - 1];
             ctx.Abstract() == AfterAll(ctx.env, start, init) && Transcribed(ctx.env, start, init, before)
    modifies ctx.Repr()
    ensures ctx.Valid() && fresh(ctx.Repr() - old(ctx.Repr()))
    ensures ctx.Abstract() == AfterAll(ctx.env, start, steps)
    ensures Transcribed(ctx.env, start, steps, seen)
  {
    ghost var mid := ctx.Abstract();
    var one := HandleStep(ctx, steps[|steps| - 1]);
    TranscribedPush(ctx.env, start, steps, before, mid, one, ctx.Abstract());
    seen := before + [one];
  }

  /** Any interleaving of fetches, calls on what was fetched, cleanups and rewrites. */
  method Handle(ctx: RequestContext, steps: seq<Step>) returns (seen: seq<Seen>)
    requires ctx.Valid()
    modifies ctx.Repr()
    ensures ctx.Valid() && fresh(ctx.Repr() - old(ctx.Repr()))
    ensures ctx.Abstract() == AfterAll(ctx.env, old(ctx.Abstract()), steps)
    ensures Transcribed(ctx.env, old(ctx.Abstract()), steps, seen)
    decreases |steps|
  {
    if steps == [] {
      seen := [];
    } else {
      ghost var start := ctx.Abstract();
      seen := Handle(ctx, steps[..|steps| - 1]);
      seen := HandleLast(ctx, start, steps, seen);
    }
  }

  // ---------------------------------------------------------------- what a fetch gets

  /** The first read succeeds exactly when the body arrives and its length is within the limit. */
  lemma FirstFetchExactly(env: Env, body: seq<byte>)
    requires !(StreamsToDisk(env.cache, env.contentLength) && !env.cache.canCreate)
    ensures var answer := FetchAnswer(env, NewRequest(Network(Ok(body))));
            answer == if |body| <= env.maxBytes then Ok(View(body, 0, false)) else Err(TooLarge)
  {}

  predicate Keeps(step: Step) {
    !step.Cleanup?
  }

  /**
   Until the next cleanup, whatever is read, sought, cached or rewritten in between, every
   fetch gets the whole body of the first one at position 0, and the request's body is not
   read again.
   */
  lemma {:induction false} FullBodyUntilCleanup(env: Env, st: State, steps: seq<Step>)
    requires FetchAnswer(env, st).Ok? && Open(st)
    requires forall i :: 0 <= i < |steps| ==> Keeps(steps[i])
    ensures var body, now := FetchAnswer(env, st).value.content, AfterAll(env, AfterFetch(env, st), steps);
            && now.held.Some? && now.held.value.content == body && !now.held.value.closed
            && FetchAnswer(env, now) == Ok(View(body, 0, false))
            && now.timesRead == AfterFetch(env, st).timesRead
  {
    if steps != [] {
      FullBodyUntilCleanup(env, st, steps[..|steps| - 1]);
    }
  }

  /** A failed read gives the same error for ever, cleanups and rewrites included, until something is cached. */
  lemma {:induction false} ErrorIsSticky(env: Env, st: State, steps: seq<Step>)
    requires FetchAnswer(env, st).Err?
    requires forall i :: 0 <= i < |steps| ==> !steps[i].SetCached?
    ensures var now := AfterAll(env, AfterFetch(env, st), steps);
            FetchAnswer(env, now) == FetchAnswer(env, st) && now.timesRead == AfterFetch(env, st).timesRead
            && now.held.None? && now.cached.None? && now.error == Some(FetchAnswer(env, st).error)
  {
    if steps != [] {
      ErrorIsSticky(env, st, steps[..|steps| - 1]);
    }
  }

  /** After a cleanup a cached rewrite is what every fetch gets. */
  lemma RewriteIsSeen(env: Env, st: State, data: seq<byte>, steps: seq<Step>)
    requires Open(st) && forall i :: 0 <= i < |steps| ==> Keeps(steps[i])
    ensures var cleaned := After(env, After(env, st, Cleanup), SetCached(data));
            FetchAnswer(env, AfterAll(env, AfterFetch(env, cleaned), steps)) == Ok(View(data, 0, false))
  {
    FullBodyUntilCleanup(env, After(env, After(env, st, Cleanup), SetCached(data)), steps);
  }

  /** Without the cleanup it would not be: a held storage is preferred over the cache. */
  lemma RewriteIsHidden(env: Env, st: State, data: seq<byte>)
    requires st.held.Some? && st.held.value.content != data
    ensures FetchAnswer(env, After(env, st, SetCached(data))) != Ok(View(data, 0, false))
  {}

  // ---------------------------------------------------------------- what a fetch after a cleanup gets

  function LastCached(steps: seq<Step>): Option<seq<byte>> {
    if steps == [] then None
    else if steps[|steps| - 1].SetCached? then Some(steps[|steps| - 1].data) else LastCached(steps[..|steps| - 1])
  }

  function LastRewrite(steps: seq<Step>): Option<seq<byte>> {
    if steps == [] then None
    else if steps[|steps| - 1].Rewrite? then Some(steps[|steps| - 1].data) else LastRewrite(steps[..|steps| - 1])
  }

  /** The last fetch comes after the last cleanup. */
  predicate Fetched(steps: seq<Step>) {
    steps != [] &&
    match steps[|steps| - 1]
    case Fetch => true
    case Cleanup => false
    case _ => Fetched(steps[..|steps| - 1])
  }

  /** No fetch behind a cleanup and no reuse of what was fetched comes after the last rewrite. */
  predicate Unread(steps: seq<Step>) {
    steps != [] &&
    var init := steps[..|steps| - 1];
    match steps[|steps| - 1]
    case Rewrite(_) => true
    case Fetch => Fetched(init) && Unread(init)
    case Reuse => !Fetched(init) && Unread(init)
    case _ => Unread(init)
  }

  lemma {:induction false} CachedIsLast(env: Env, source: Source, steps: seq<Step>)
    ensures AfterAll(env, NewRequest(source), steps).cached == LastCached(steps)
  {
    if steps != [] {
      CachedIsLast(env, source, steps[..|steps| - 1]);
    }
  }

  /** Without a cached body and a failed read, the steps alone say what is held and what is left to read. */
  lemma {:induction false} SourceLeft(env: Env, source: Source, steps: seq<Step>)
    requires Arrives(source) && LastCached(steps).None? && AfterAll(env, NewRequest(source), steps).error.None?
    ensures var now := AfterAll(env, NewRequest(source), steps);
            && (now.held.Some? <==> Fetched(steps))
            && (Unread(steps) ==> LastRewrite(steps).Some? && now.source == Buffer(LastRewrite(steps).value))
            && (!Unread(steps) && Fetch in steps ==> now.source in {Spent, NoBody, Buffer([]), Reused})
            && (!Unread(steps) && Fetch !in steps ==> now.source == source)
            && (Fetched(steps) ==> Fetch in steps)
  {
    if steps != [] {
      var init := steps[..|steps| - 1];
      assert steps == init + [steps[|steps| - 1]];
      CachedIsLast(env, source, init);
      SourceLeft(env, source, init);
    }
  }

  /** The body is within the limit, and the file it may need can be created. */
  predicate Admits(env: Env, data: seq<byte>) {
    |data| <= env.maxBytes && !(StreamsToDisk(env.cache, env.contentLength) && !env.cache.canCreate)
  }

  /**
   What a fetch after a cleanup gets, once the request's body was fetched before, whatever else
   happened: the last body cached, if any was. Otherwise it gets bytes exactly when no fetch
   failed so far and the last rewrite is still unread and can be taken in; and then it gets
   that rewrite.
   */
  lemma FetchAfterCleanup(env: Env, source: Source, steps: seq<Step>)
    requires Arrives(source) && Fetch in steps
    ensures var now := AfterAll(env, NewRequest(source), steps);
            var answer, rewrite := FetchAnswer(env, After(env, now, Cleanup)), LastRewrite(steps);
            if LastCached(steps).Some? then answer == Ok(View(LastCached(steps).value, 0, false))
            else
              && (answer.Ok? && answer.value.content != [] <==>
                  now.error.None? && Unread(steps) && rewrite.Some? && rewrite.value != [] &&
                    Admits(env, rewrite.value))
              && (answer.Ok? && answer.value.content != [] ==> answer == Ok(View(rewrite.value, 0, false)))
  {
    CachedIsLast(env, source, steps);
    if LastCached(steps).None? && AfterAll(env, NewRequest(source), steps).error.None? {
      SourceLeft(env, source, steps);
    }
  }

  /** A request without a body stays one: every fetch gets the empty body, cleanups or not. */
  lemma {:induction false} NothingToRead(env: Env, steps: seq<Step>)
    requires forall i :: 0 <= i < |steps| ==> steps[i].Fetch? || steps[i].Cleanup?
    requires Admits(env, [])
    ensures var now := AfterAll(env, NewRequest(NoBody), steps);
            now.source.NoBody? && now.cached.None? && now.error.None? && FetchAnswer(env, now) == Ok(View([], 0, false))
  {
    if steps != [] {
      NothingToRead(env, steps[..|steps| - 1]);
    }
  }

  /** The body off the connection is delivered once: a fetch after a cleanup gets an error. */
  lemma {:induction false} NotReadTwice(env: Env, body: Result<seq<byte>>, steps: seq<Step>)
    requires forall i :: 0 <= i < |steps| ==> !steps[i].SetCached? && !steps[i].Rewrite?
    ensures var fetched := AfterFetch(env, NewRequest(Network(body)));
            var now := AfterAll(env, fetched, steps);
            (now.source.Spent? || now.source.Reused?) && now.cached.None? &&
              FetchAnswer(env, After(env, now, Cleanup)).Err?
  {
    if steps != [] {
      NotReadTwice(env, body, steps[..|steps| - 1]);
    }
  }

  function Cleanups(steps: seq<Step>): nat {
    if steps == [] then 0 else Cleanups(steps[..|steps| - 1]) + (if steps[|steps| - 1].Cleanup? then 1 else 0)
  }

  /** The request's body is read at most once between cleanups. */
  lemma {:induction false} ReadsBounded(env: Env, st: State, steps: seq<Step>)
    requires st.held.None?
    ensures AfterAll(env, st, steps).timesRead <= st.timesRead + 1 + Cleanups(steps)
    ensures AfterAll(env, st, steps).held.None? && AfterAll(env, st, steps).cached.None? &&
            AfterAll(env, st, steps).error.None? ==>
              AfterAll(env, st, steps).timesRead <= st.timesRead + Cleanups(steps)
  {
    if steps != [] {
      ReadsBounded(env, st, steps[..|steps| - 1]);
    }
  }
}
