/**
 RelayTask of controller/relay.go with the buffering writer of
 controller/task_response_writer.go: each attempt writes to a buffer of its own, and the
 one successful buffer reaches the client only after a row for it was inserted.
 Adaptors, channel selection and billing are oracles; any of them may panic.
 */
module TaskRelay {
  import opened Wrappers

  type Headers = map<string, seq<string>>

  const STATUS_OK := 200

  /** A complete response: header, status and body. */
  datatype Response = Response(header: Headers, status: int, body: string)

  // ---------------------------------------------------------------- the buffer

  /** What an adaptor does to its writer. */
  datatype Call =
    | SetHeader(key: string, values: seq<string>)
    | DeleteHeader(key: string)
    | WriteHeader(status: int)
    | WriteHeaderNow
    | Write(data: string)
    | WriteString(data: string)
    | Flush

  datatype Buffer = Buffer(header: Headers, status: int, body: string, written: bool)

  function AfterCall(b: Buffer, call: Call): Buffer {
    match call
    case SetHeader(key, values) => b.(header := b.header[key := values])
    case DeleteHeader(key) => b.(header := b.header - {key})
    case WriteHeader(status) => if status > 0 && !b.written then b.(status := status) else b
    case WriteHeaderNow => b.(written := true)
    case Write(data) => b.(written := true, body := b.body + data)
    case WriteString(data) => b.(written := true, body := b.body + data)
    case Flush => b.(written := true)
  }

  function AfterCalls(b: Buffer, calls: seq<Call>): Buffer {
    if calls == [] then b else AfterCall(AfterCalls(b, calls[..|calls| - 1]), calls[|calls| - 1])
  }

  function NewBuffer(header: Headers): Buffer {
    Buffer(header, STATUS_OK, "", false)
  }

  class TaskResponseWriter {
    var header: Headers
    var body: string
    var status: int
    var written: bool

    ghost function View(): Buffer
      reads this
    {
      Buffer(header, status, body, written)
    }

    constructor (header: Headers)
      ensures View() == NewBuffer(header)
    {
      this.header, body, status, written := header, "", STATUS_OK, false;
    }

    /** -1 before anything was written, else the buffered length */
    function Size(): (n: int)
      reads this
      ensures written ==> n == |body|
      ensures !written ==> n == -1
    {
      if written then |body| else -1
    }

    method Apply(call: Call)
      modifies this
      ensures View() == AfterCall(old(View()), call)
    {
      match call
      case SetHeader(key, values) => header := header[key := values];
      case DeleteHeader(key) => header := header - {key};
      case WriteHeader(code) =>
        if code > 0 && !written { status := code; }
      case WriteHeaderNow => written := true;
      case Write(data) =>
        written := true;
        body := body + data;
      case WriteString(data) =>
        written := true;
        body := body + data;
      case Flush => written := true;
    }
  }

  predicate Writes(call: Call) {
    call.WriteHeaderNow? || call.Write? || call.WriteString? || call.Flush?
  }

  /** The first call that writes, or the end. */
  function FirstWrite(calls: seq<Call>): (f: nat)
    ensures f <= |calls| && (f < |calls| ==> Writes(calls[f]))
    ensures forall k :: 0 <= k < f ==> !Writes(calls[k])
  {
    if calls == [] then 0
    else
      var n := |calls| - 1;
      var f := FirstWrite(calls[..n]);
      if f < n then f else if Writes(calls[n]) then n else n + 1
  }

  /** The last positive status set, or the default. */
  function LastStatus(calls: seq<Call>, default: int): int {
    if calls == [] then default
    else
      var last := calls[|calls| - 1];
      if last.WriteHeader? && last.status > 0 then last.status else LastStatus(calls[..|calls| - 1], default)
  }

  function BodyOf(calls: seq<Call>): string {
    if calls == [] then ""
    else
      var last := calls[|calls| - 1];
      BodyOf(calls[..|calls| - 1]) + (if last.Write? || last.WriteString? then last.data else "")
  }

  /** The body is everything written, in order. */
  lemma {:induction false} BodyExactly(b: Buffer, calls: seq<Call>)
    ensures AfterCalls(b, calls).body == b.body + BodyOf(calls)
  {
    if calls != [] {
      BodyExactly(b, calls[..|calls| - 1]);
    }
  }

  /** The status a client sees is the last one set before the first write. */
  lemma {:induction false} StatusExactly(b: Buffer, calls: seq<Call>)
    requires !b.written
    ensures var after, f := AfterCalls(b, calls), FirstWrite(calls);
            && after.status == LastStatus(calls[..f], b.status)
            && after.written == (f < |calls|)
  {
    if calls != [] {
      var n := |calls| - 1;
      var init, f := calls[..n], FirstWrite(calls[..n]);
      StatusExactly(b, init);
      assert calls[..f] == init[..f] && init[..n] == init;
      assert calls[..n + 1] == calls;
    }
  }

  /** A buffered status is always a status: 200, or something positive an adaptor set. */
  lemma {:induction false} StatusPositive(b: Buffer, calls: seq<Call>)
    requires b.status > 0
    ensures AfterCalls(b, calls).status > 0
  {
    if calls != [] {
      StatusPositive(b, calls[..|calls| - 1]);
    }
  }

  // ---------------------------------------------------------------- the client's side

  const CONTENT_TYPE := "Content-Type"
  const JSON := ["application/json; charset=utf-8"]

  /** The downstream writer: a header map, and a status and body once they are sent. */
  class ClientWriter {
    var header: Headers
    var status: int
    var body: string
    var written: bool

    ghost function View(): Buffer
      reads this
    {
      Buffer(header, status, body, written)
    }

    constructor (header: Headers)
      ensures View() == NewBuffer(header)
    {
      this.header, status, body, written := header, STATUS_OK, "", false;
    }

    method Send(code: int, data: string)
      modifies this`status, this`body, this`written
      ensures written && body == old(body) + data
      ensures status == if code > 0 && !old(written) then code else old(status)
    {
      if code > 0 && !written {
        status := code;
      }
      written, body := true, body + data;
    }

    /** c.JSON: the content type only fills a gap. */
    method SendError(error: TaskError, render: TaskError -> string)
      modifies this
      ensures header == old(header) + (if CONTENT_TYPE in old(header) then map[] else map[CONTENT_TYPE := JSON])
      ensures written && body == old(body) + render(error)
      ensures status == if error.status > 0 && !old(written) then error.status else old(status)
    {
      if CONTENT_TYPE !in header {
        header := header[CONTENT_TYPE := JSON];
      }
      Send(error.status, render(error));
    }

    /** The end of RelayTask: the buffered header replaces the downstream one, then status and body go out. */
    method Commit(response: Response)
      modifies this
      ensures header == response.header
      ensures written && body == old(body) + response.body
      ensures status == if response.status > 0 && !old(written) then response.status else old(status)
    {
      var todo := header.Keys;
      while todo != {}
        invariant header.Keys == todo
        invariant status == old(status) && body == old(body) && written == old(written)
        decreases todo
      {
        var key :| key in todo;
        header, todo := header - {key}, todo - {key};
      }
      todo := response.header.Keys;
      while todo != {}
        invariant todo <= response.header.Keys
        invariant header == map key | key in response.header && key !in todo :: response.header[key]
        invariant status == old(status) && body == old(body) && written == old(written)
        decreases todo
      {
        var key :| key in todo;
        header, todo := header[key := response.header[key]], todo - {key};
      }
      Send(response.status, response.body);
    }
  }

  // ---------------------------------------------------------------- the run

  datatype TaskError = TaskError(status: int, local: bool)

  /** How an adaptor's submission ends. */
  datatype Submission = Accepted | Rejected(error: TaskError) | Panicked

  /** One turn of the loop; a setup error ends it before the adaptor runs. */
  datatype Attempt = Attempt(setup: Option<TaskError>, exhausted: bool, calls: seq<Call>, submission: Submission,
                             callerGone: bool, affinitySkip: bool, retriesLeft: int, pinned: bool, skipStatus: bool)

  /** shouldRetryTaskRelay */
  predicate ShouldRetry(a: Attempt, err: TaskError) {
    && !err.local && !a.affinitySkip && a.retriesLeft > 0 && !a.pinned
    && (err.status == 429 || err.status == 307 ||
        (if 500 <= err.status < 600 then !a.skipStatus
         else err.status != 400 && err.status != 408 && !(200 <= err.status < 300)))
  }

  /** What the database and the billing session can tell about a run, and when the client heard of it. */
  datatype Effect = Inserted | Refunded | Settled | Answered

  /** How the tail behaves: the insert may fail, and what follows it may panic. */
  datatype Tail = Tail(insertFails: bool, settlePanics: bool)

  datatype Ending = Succeeded(index: nat) | Failed(error: TaskError) | Crashed

  /** The response an attempt leaves in its buffer. */
  function Buffered(downstream: Headers, attempt: Attempt): Response {
    var b := AfterCalls(NewBuffer(downstream), attempt.calls);
    Response(b.header, b.status, b.body)
  }

  /** The loop goes on after this attempt. */
  predicate Retried(a: Attempt) {
    a.setup.None? && a.submission.Rejected? && !a.callerGone && ShouldRetry(a, a.submission.error)
  }

  /** Every attempt before the last one was retried, and the last one, if there is one, was not. */
  predicate StopsAt(script: seq<Attempt>, last: nat) {
    last <= |script| && (forall k :: 0 <= k < last ==> Retried(script[k])) &&
      (last < |script| ==> !Retried(script[last]))
  }

  /** How the loop ends there; running out of channels keeps the error of the attempt before. */
  function EndingAt(script: seq<Attempt>, last: nat): Ending
    requires StopsAt(script, last)
  {
    if last == |script| then
      if last == 0 then Crashed else Failed(script[last - 1].submission.error)
    else if script[last].setup.Some? then
      Failed(if last > 0 && script[last].exhausted then script[last - 1].submission.error else script[last].setup.value)
    else match script[last].submission
      case Panicked => Crashed
      case Accepted => Succeeded(last)
      case Rejected(err) => Failed(err)
  }

  /** Runs attempts until one is not retried; nothing it does reaches the client. */
  method Submit(downstream: Headers, script: seq<Attempt>) returns (ending: Ending, response: Response, last: nat)
    ensures StopsAt(script, last) && ending == EndingAt(script, last)
    ensures ending.Succeeded? ==> response == Buffered(downstream, script[last])
  {
    response := Response(downstream, STATUS_OK, "");
    var error: Option<TaskError> := None;
    last := 0;
    while last < |script|
      invariant last <= |script| && forall k :: 0 <= k < last ==> Retried(script[k])
      invariant error == if last > 0 then Some(script[last - 1].submission.error) else None
    {
      var attempt := script[last];
      if attempt.setup.Some? {
        // running out of channels keeps the error of the attempt before
        if error.None? || !attempt.exhausted {
          error := attempt.setup;
        }
        return Failed(error.value), response, last;
      }
      var writer := new TaskResponseWriter(downstream);
      RunAdaptor(writer, attempt.calls);
      match attempt.submission {
        case Panicked =>
          return Crashed, response, last;
        case Accepted =>
          response := Response(writer.header, writer.status, writer.body);
          return Succeeded(last), response, last;
        case Rejected(err) =>
          error := Some(err);
          if !err.local && attempt.callerGone {
            return Failed(err), response, last;
          }
          if !ShouldRetry(attempt, err) {
            return Failed(err), response, last;
          }
      }
      last := last + 1;
    }
    // The retry counter ran out; without a single attempt the result is nil.
    ending := if error.Some? then Failed(error.value) else Crashed;
  }

  method RunAdaptor(writer: TaskResponseWriter, calls: seq<Call>)
    modifies writer
    ensures writer.View() == AfterCalls(old(writer.View()), calls)
  {
    for i := 0 to |calls|
      invariant writer.View() == AfterCalls(old(writer.View()), calls[..i])
    {
      assert calls[..i + 1][..i] == calls[..i];
      writer.Apply(calls[i]);
    }
    assert calls[..|calls|] == calls;
  }

  function Count(log: seq<Effect>, e: Effect): nat {
    multiset(log)[e]
  }

  /** What a failing insert or a panic behind it makes of an accepted submission. */
  function Concluded(ending: Ending, tail: Tail): Ending {
    if !ending.Succeeded? then ending
    else if tail.insertFails then Failed(TaskError(500, true))
    else if tail.settlePanics then Crashed
    else ending
  }

  /**
   RelayTask from the first attempt on, for a caller that pays. The client gets the
   adaptor's header, status and body only after the insert, and exactly as the one
   accepted attempt buffered them; a failed run leaves nothing but the rendered error;
   and Refund is called, once, exactly when no row was inserted or a panic follows the
   insert.
   */
  method RelayTask(client: ClientWriter, script: seq<Attempt>, tail: Tail, render: TaskError -> string)
    returns (log: seq<Effect>, ending: Ending, last: nat)
    requires !client.written && client.body == ""
    modifies client
    ensures StopsAt(script, last) && ending == Concluded(EndingAt(script, last), tail)
    ensures Inserted in log <==> EndingAt(script, last).Succeeded? && !tail.insertFails
    ensures Count(log, Refunded) == if Inserted !in log || ending.Crashed? then 1 else 0
    ensures ending.Succeeded? <==> log == [Inserted, Settled, Answered]
    ensures ending.Succeeded? ==>
      (var r := Buffered(old(client.header), script[ending.index]);
       client.View() == Buffer(r.header, r.status, r.body, true))
    ensures ending.Failed? ==>
      && log == [Answered, Refunded] && client.body == render(ending.error)
      && (forall key :: key in old(client.header) ==>
          key in client.header && client.header[key] == old(client.header)[key])
      && client.header.Keys <= old(client.header).Keys + {CONTENT_TYPE}
    ensures ending.Crashed? ==> client.View() == old(client.View()) && Answered !in log
  {
    var response;
    ending, response, last := Submit(client.header, script);
    match ending {
      case Crashed =>
        log := [Refunded];
      case Failed(err) =>
        client.SendError(err, render);
        log := [Answered, Refunded];
      case Succeeded(i) =>
        if tail.insertFails {
          ending := Failed(TaskError(500, true));
          client.SendError(ending.error, render);
          log := [Answered, Refunded];
        } else if tail.settlePanics {
          ending, log := Crashed, [Inserted, Refunded];
        } else {
          // An error from settling is only logged.
          StatusPositive(NewBuffer(client.header), script[i].calls);
          client.Commit(response);
          log := [Inserted, Settled, Answered];
        }
    }
    EffectCounts(log);
  }

  lemma EffectCounts(log: seq<Effect>)
    requires log in [[Refunded], [Answered, Refunded], [Inserted, Refunded], [Inserted, Settled, Answered]]
    ensures Count(log, Refunded) == if Refunded in log then 1 else 0
  {
    assert multiset([Refunded])[Refunded] == 1;
    assert multiset([Answered, Refunded])[Refunded] == 1;
    assert multiset([Inserted, Refunded])[Refunded] == 1;
    assert multiset([Inserted, Settled, Answered])[Refunded] == 0;
  }
}
