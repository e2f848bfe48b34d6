/**
 The relay retry loop of controller/relay.go and the writer that tells keepalive pings
 from payload. Upstream handlers, channel selection and billing are oracles: they may
 write anything, in any number of attempts, through the wrapper or around it.
 */
module Relay {
  import opened Wrappers

  const PING: string := ": PING\n\n"
  const PING_SIZE := 8

  // ---------------------------------------------------------------- the writer

  /**
   gin's response writer under the wrapper. size is -1 until the header is committed and
   then counts the body bytes accepted; after a hijack the writer accepts nothing more.
   */
  datatype Wire = Wire(size: int, sent: string, hijacked: bool, pings: nat, data: bool)

  /**
   What can happen to the connection. accepted is how much of a write gets through.
   Bypass reaches gin's writer directly, Raw goes to the hijacked connection.
   */
  datatype Event =
    | Write(data: string, accepted: nat)
    | WriteString(data: string, accepted: nat)
    | Bypass(data: string, accepted: nat)
    | Flush
    | Hijack
    | Raw(data: string)

  function Committed(w: Wire): Wire {
    if w.size < 0 then w.(size := 0) else w
  }

  function Accept(w: Wire, data: string, accepted: nat): Wire {
    if w.hijacked then Committed(w)
    else
      var n := if accepted < |data| then accepted else |data|;
      Wire((if w.size < 0 then 0 else w.size) + n, w.sent + data[..n], false, w.pings, w.data)
  }

  function Step(w: Wire, e: Event): Wire {
    match e
    case Write(data, accepted) =>
      var marked := if data == PING then w.(pings := w.pings + 1) else if data != "" then w.(data := true) else w;
      Accept(marked, data, accepted)
    case WriteString(data, accepted) =>
      Accept(if data != "" then w.(data := true) else w, data, accepted)
    case Bypass(data, accepted) => Accept(w, data, accepted)
    case Flush => Committed(w)
    case Hijack => Committed(w).(hijacked := true)
    case Raw(data) => if w.hijacked then w.(sent := w.sent + data) else w
  }

  /** onlyPingsWritten */
  predicate OnlyPings(w: Wire) {
    w.pings > 0 && !w.data && w.size == w.pings * PING_SIZE
  }

  predicate Written(w: Wire) {
    w.size != -1
  }

  class PingAwareWriter {
    var size: int
    var sent: string
    var hijacked: bool
    var pingFrames: nat
    var dataWritten: bool

    ghost function View(): Wire
      reads this
    {
      Wire(size, sent, hijacked, pingFrames, dataWritten)
    }

    /** Wraps a writer nothing was written to, or one whose connection was taken over. */
    constructor (hijacked: bool, handshake: string)
      ensures View() == if hijacked then Wire(0, handshake, true, 0, false) else Wire(-1, "", false, 0, false)
    {
      this.hijacked, pingFrames, dataWritten := hijacked, 0, false;
      size, sent := if hijacked then 0 else -1, if hijacked then handshake else "";
    }

    /** gin's Write: commit the header, then count what the connection took. */
    method InnerWrite(data: string, accepted: nat)
      modifies this`size, this`sent
      ensures View() == Accept(old(View()), data, accepted)
    {
      if size < 0 {
        size := 0;
      }
      if !hijacked {
        var n := if accepted < |data| then accepted else |data|;
        sent, size := sent + data[..n], size + n;
      }
    }

    method Write(data: string, accepted: nat)
      modifies this
      ensures View() == Step(old(View()), Event.Write(data, accepted))
    {
      if data == PING {
        pingFrames := pingFrames + 1;
      } else if |data| > 0 {
        dataWritten := true;
      }
      InnerWrite(data, accepted);
    }

    method WriteString(data: string, accepted: nat)
      modifies this
      ensures View() == Step(old(View()), Event.WriteString(data, accepted))
    {
      if |data| > 0 {
        dataWritten := true;
      }
      InnerWrite(data, accepted);
    }

    method Happen(e: Event)
      modifies this
      ensures View() == Step(old(View()), e)
    {
      match e
      case Write(data, accepted) => Write(data, accepted);
      case WriteString(data, accepted) => WriteString(data, accepted);
      case Bypass(data, accepted) => InnerWrite(data, accepted);
      case Flush =>
        if size < 0 { size := 0; }
      case Hijack =>
        if size < 0 { size := 0; }
        hijacked := true;
      case Raw(data) =>
        if hijacked { sent := sent + data; }
    }
  }

  // ---------------------------------------------------------------- what the counters prove

  function Pings(n: nat): string {
    if n == 0 then "" else Pings(n - 1) + PING
  }

  /**
   What the counters do not show: the bytes of counted pings that did not get out, the bytes
   that reached gin's writer around the wrapper, and the bytes sent on a hijacked connection.
   */
  datatype Ledger = Ledger(short: nat, around: nat, raw: string)

  function AcceptedBytes(w: Wire, data: string, accepted: nat): nat {
    if w.hijacked then 0 else if accepted < |data| then accepted else |data|
  }

  function Booked(w: Wire, l: Ledger, e: Event): Ledger {
    match e
    case Write(data, accepted) =>
      if data == PING then l.(short := l.short + (PING_SIZE - AcceptedBytes(w, data, accepted))) else l
    case Bypass(data, accepted) => l.(around := l.around + AcceptedBytes(w, data, accepted))
    case Raw(data) => if w.hijacked then l.(raw := l.raw + data) else l
    case _ => l
  }

  /** The counters and the ledger together account for every byte, as long as no data went through the wrapper. */
  predicate Accounted(w: Wire, l: Ledger) {
    && w.size >= -1
    && (w.size == -1 ==> !w.hijacked && w.sent == "" && w.pings == 0 && l == Ledger(0, 0, ""))
    && (!w.hijacked ==> l.raw == "")
    && (!w.data ==> w.pings * PING_SIZE + l.around == l.short + (if w.size < 0 then 0 else w.size))
    && (!w.data && l.short == 0 && l.around == 0 ==> w.sent == Pings(w.pings) + l.raw)
  }

  lemma PingAccounted(w: Wire, l: Ledger, accepted: nat)
    requires Accounted(w, l)
    ensures Accounted(Step(w, Write(PING, accepted)), Booked(w, l, Write(PING, accepted)))
  {
    if accepted >= PING_SIZE && !w.hijacked {
      assert PING[..PING_SIZE] == PING;
      assert Pings(w.pings) + "" + PING == Pings(w.pings + 1) + "";
    }
  }

  /** Whatever happens to the connection, the books stay balanced. */
  lemma StepAccounted(w: Wire, l: Ledger, e: Event)
    requires Accounted(w, l)
    ensures Accounted(Step(w, e), Booked(w, l, e))
  {
    match e
    case Write(data, accepted) =>
      if data == PING {
        PingAccounted(w, l, accepted);
      }
    case Bypass(data, accepted) =>
      assert AcceptedBytes(w, data, accepted) == 0 ==> Accept(w, data, accepted).sent == w.sent;
    case Raw(data) => assert (Pings(w.pings) + l.raw) + data == Pings(w.pings) + (l.raw + data);
    case _ =>
  }

  /**
   The check is exact up to the ledger. It accepts exactly when as many bytes went around the
   wrapper as counted pings fell short of; and when no ping fell short, the wire holds exactly
   that many pings if and only if nothing was sent on a hijacked connection.
   */
  lemma OnlyPingsExactly(w: Wire, l: Ledger)
    requires Accounted(w, l) && w.pings > 0 && !w.data
    ensures OnlyPings(w) <==> l.around == l.short
    ensures OnlyPings(w) && l.short == 0 ==> (w.sent == Pings(w.pings) <==> l.raw == "")
  {}

  function After(w: Wire, es: seq<Event>): Wire {
    if es == [] then w else Step(After(w, es[..|es| - 1]), es[|es| - 1])
  }

  function Book(w: Wire, l: Ledger, es: seq<Event>): Ledger {
    if es == [] then l
    else
      var init := es[..|es| - 1];
      Booked(After(w, init), Book(w, l, init), es[|es| - 1])
  }

  lemma AfterPush(w: Wire, es: seq<Event>, i: int)
    requires 0 <= i < |es|
    ensures After(w, es[..i + 1]) == Step(After(w, es[..i]), es[i])
  {
    assert es[..i + 1][..i] == es[..i];
  }

  lemma {:induction false} RunAccounted(w: Wire, l: Ledger, es: seq<Event>)
    requires Accounted(w, l)
    ensures Accounted(After(w, es), Book(w, l, es))
  {
    if es != [] {
      var init := es[..|es| - 1];
      RunAccounted(w, l, init);
      StepAccounted(After(w, init), Book(w, l, init), es[|es| - 1]);
    }
  }

  /** A connection that was taken over before anything was sent never passes the check. */
  lemma {:induction false} HijackedStays(w: Wire, es: seq<Event>)
    requires w.hijacked && w.size == 0
    ensures After(w, es).hijacked && After(w, es).size == 0 && !OnlyPings(After(w, es))
  {
    if es != [] {
      HijackedStays(w, es[..|es| - 1]);
    }
  }

  /** The connection takes all of every write. */
  predicate Complete(e: Event) {
    match e
    case Write(data, accepted) => accepted >= |data|
    case WriteString(data, accepted) => accepted >= |data|
    case Bypass(data, accepted) => accepted >= |data|
    case _ => true
  }

  predicate AllComplete(es: seq<Event>) {
    forall i :: 0 <= i < |es| ==> Complete(es[i])
  }

  /** With complete writes and without a hijack no ping falls short. */
  lemma {:induction false} CompleteRun(w: Wire, l: Ledger, es: seq<Event>)
    requires AllComplete(es) && l.short == 0 && !After(w, es).hijacked
    ensures Book(w, l, es).short == 0 && !w.hijacked
  {
    if es != [] {
      var init, last := es[..|es| - 1], es[|es| - 1];
      assert forall i :: 0 <= i < |init| ==> init[i] == es[i];
      assert Complete(last);
      CompleteRun(w, l, init);
    }
  }

  /** A hijack after a ping: gin 1.9.1 allows it, and the raw bytes are not counted. */
  lemma HijackFoolsTheCheck(payload: string)
    ensures var w := After(Wire(-1, "", false, 0, false), [Write(PING, PING_SIZE), Hijack, Raw(payload)]);
            OnlyPings(w) && w.sent == PING + payload
  {
    var start := Wire(-1, "", false, 0, false);
    var es := [Write(PING, PING_SIZE), Hijack, Raw(payload)];
    assert es[..2][..1] == es[..1] && es[..1][..0] == [];
    assert PING[..PING_SIZE] == PING;
    assert After(start, es[..1]) == Wire(8, PING, false, 1, false);
    assert After(start, es[..2]) == Wire(8, PING, true, 1, false);
  }

  /** A ping that never got out, and eight bytes that went around the wrapper. */
  lemma LostPingFoolsTheCheck(payload: string)
    requires |payload| == PING_SIZE
    ensures var w := After(Wire(-1, "", false, 0, false), [Write(PING, 0), Bypass(payload, PING_SIZE)]);
            OnlyPings(w) && w.sent == payload
  {
    var es := [Write(PING, 0), Bypass(payload, PING_SIZE)];
    assert es[..1][..0] == [];
    assert payload[..PING_SIZE] == payload;
    assert After(Wire(-1, "", false, 0, false), es[..1]) == Wire(0, "", false, 1, false);
  }

  /** Eight bytes around the wrapper, a hijack, and a ping that is counted but goes nowhere. */
  lemma LatePingFoolsTheCheck(payload: string)
    requires |payload| == PING_SIZE
    ensures var w := After(Wire(-1, "", false, 0, false), [Bypass(payload, PING_SIZE), Hijack, Write(PING, PING_SIZE)]);
            OnlyPings(w) && w.sent == payload
  {
    var start, es := Wire(-1, "", false, 0, false), [Bypass(payload, PING_SIZE), Hijack, Write(PING, PING_SIZE)];
    assert es[..2][..1] == es[..1] && es[..1][..0] == [];
    assert payload[..PING_SIZE] == payload;
    assert After(start, es[..1]) == Wire(8, payload, false, 0, false);
    assert After(start, es[..2]) == Wire(8, payload, true, 0, false);
  }

  // ---------------------------------------------------------------- the retry loop

  datatype Error = Error(skipRetry: bool, alwaysSkip: bool, channelError: bool, getChannelFailed: bool, status: int,
                         retryStatus: bool)

  /** What an attempt depends on besides its own error. */
  datatype Situation = Situation(affinitySkip: bool, retriesLeft: int, pinned: bool, callerGone: bool)

  /** shouldRetry */
  predicate ShouldRetry(w: Wire, err: Error, s: Situation) {
    && (Written(w) ==> OnlyPings(w))
    && !s.affinitySkip && !err.skipRetry && s.retriesLeft > 0 && !s.pinned && !err.alwaysSkip
    && (err.channelError ||
        (!(200 <= err.status < 300) && (err.status < 100 || err.status > 599 || err.retryStatus)))
  }

  /** How the part of an attempt before the handler ends: ready, or with an error that stops the loop. */
  datatype Setup = Ready | NoChannel(err: Error) | Refused(err: Error)

  /** One turn of the loop: its setup, what the handler writes, and how it ends. */
  datatype Attempt = Attempt(setup: Setup, events: seq<Event>, error: Option<Error>, situation: Situation)

  /** The wire after the first k attempts. */
  function WireAfter(w: Wire, script: seq<Attempt>, k: nat): Wire
    requires k <= |script|
  {
    if k == 0 then w else After(WireAfter(w, script, k - 1), script[k - 1].events)
  }

  /** The loop goes on after this attempt. */
  predicate Retried(w: Wire, a: Attempt) {
    a.setup.Ready? && a.error.Some? && !a.situation.callerGone &&
      ShouldRetry(After(w, a.events), a.error.value, a.situation)
  }

  predicate AllRetried(w: Wire, script: seq<Attempt>, k: nat)
    requires k <= |script|
  {
    forall j :: 0 <= j < k ==> Retried(WireAfter(w, script, j), script[j])
  }

  /** The ledger after the first k attempts. */
  function LedgerAfter(w: Wire, script: seq<Attempt>, k: nat): Ledger
    requires k <= |script|
  {
    if k == 0 then Opening(w)
    else Book(WireAfter(w, script, k - 1), LedgerAfter(w, script, k - 1), script[k - 1].events)
  }

  /** The loop stops at the first attempt that is not retried. */
  predicate StopsAt(w: Wire, script: seq<Attempt>, last: nat) {
    last <= |script| && AllRetried(w, script, last) &&
      (last < |script| ==> !Retried(WireAfter(w, script, last), script[last]))
  }

  /** How many handlers were called by then. */
  function CallsMade(script: seq<Attempt>, last: nat): (n: nat)
    requires last <= |script|
    ensures last <= n <= |script|
  {
    if last < |script| && script[last].setup.Ready? then last + 1 else last
  }

  /** The error the loop reports: running out of channels keeps the error of the attempt before. */
  function ReportedError(script: seq<Attempt>, last: nat): Option<Error>
    requires last <= |script|
  {
    if last < |script| && script[last].setup.Ready? then script[last].error
    else if last < |script| && (last == 0 || !OutOfChannels(script[last].setup)) then Some(script[last].setup.err)
    else if last == 0 then None
    else script[last - 1].error
  }

  /** The wrapper as the loop finds it: nothing written, or the connection of a realtime call taken over. */
  predicate Initial(w: Wire) {
    w == Wire(-1, "", false, 0, false) || w == Wire(0, w.sent, true, 0, false)
  }

  function Opening(w: Wire): Ledger {
    Ledger(0, 0, if w.hijacked then w.sent else "")
  }

  /** The books are balanced whenever a handler is called. */
  lemma {:induction false} ScriptAccounted(w: Wire, script: seq<Attempt>, k: nat)
    requires Initial(w) && k <= |script|
    ensures Accounted(WireAfter(w, script, k), LedgerAfter(w, script, k))
  {
    if k > 0 {
      ScriptAccounted(w, script, k - 1);
      RunAccounted(WireAfter(w, script, k - 1), LedgerAfter(w, script, k - 1), script[k - 1].events);
    }
  }

  /** One handler call and the decision after it. */
  method RunAttempt(w: PingAwareWriter, attempt: Attempt) returns (error: Option<Error>, again: bool)
    requires attempt.setup.Ready?
    modifies w
    ensures w.View() == After(old(w.View()), attempt.events)
    ensures error == attempt.error && again == Retried(old(w.View()), attempt)
  {
    HandlerWrites(w, attempt.events);
    error, again := attempt.error, false;
    if error.Some? && !attempt.situation.callerGone {
      var wire := Wire(w.size, w.sent, w.hijacked, w.pingFrames, w.dataWritten);
      again := ShouldRetry(wire, error.value, attempt.situation);
    }
  }

  /** What was on the wire when a handler was called, and how many pings were counted by then. */
  datatype Call = Call(sent: string, pings: nat)

  function CallAt(w: Wire): Call {
    Call(w.sent, w.pings)
  }

  predicate CallsRecorded(w: Wire, script: seq<Attempt>, calls: seq<Call>) {
    |calls| <= |script| && forall i :: 0 <= i < |calls| ==>
      calls[i] == CallAt(WireAfter(w, script, i))
  }

  /** From the second call on, only that many pings. */
  predicate OnlyPingsBetween(calls: seq<Call>) {
    forall i :: 0 < i < |calls| ==> calls[i].sent == Pings(calls[i].pings)
  }

  /** The handlers called left every write complete. */
  predicate CompleteScript(script: seq<Attempt>, n: nat) {
    n <= |script| && forall k :: 0 <= k < n ==> AllComplete(script[k].events)
  }

  /** After k attempts that were all retried. */
  predicate Progress(w: Wire, script: seq<Attempt>, k: nat, calls: seq<Call>)
    requires k <= |script|
  {
    |calls| == k && AllRetried(w, script, k) && CallsRecorded(w, script, calls)
  }

  lemma ProgressStep(w: Wire, script: seq<Attempt>, k: nat, calls: seq<Call>)
    requires k < |script| && Progress(w, script, k, calls)
    ensures WireAfter(w, script, k + 1) == After(WireAfter(w, script, k), script[k].events)
    ensures Retried(WireAfter(w, script, k), script[k]) ==> AllRetried(w, script, k + 1)
    ensures CallsRecorded(w, script, calls + [CallAt(WireAfter(w, script, k))])
  {
    if Retried(WireAfter(w, script, k), script[k]) {
      RetriedPush(w, script, k);
    }
    CallsPush(w, script, calls);
  }

  lemma RetriedPush(w: Wire, script: seq<Attempt>, k: nat)
    requires k < |script| && AllRetried(w, script, k) && Retried(WireAfter(w, script, k), script[k])
    ensures AllRetried(w, script, k + 1)
  {
    forall i | 0 <= i < k + 1
      ensures Retried(WireAfter(w, script, i), script[i])
    {}
  }

  lemma CallsPush(w: Wire, script: seq<Attempt>, calls: seq<Call>)
    requires CallsRecorded(w, script, calls) && |calls| < |script|
    ensures CallsRecorded(w, script, calls + [CallAt(WireAfter(w, script, |calls|))])
  {
    var calls' := calls + [CallAt(WireAfter(w, script, |calls|))];
    forall i | 0 <= i < |calls'|
      ensures calls'[i] == CallAt(WireAfter(w, script, i))
    {}
  }

  /**
   What is on the wire when a handler is called again: as many bytes went around the wrapper
   as counted pings fell short of, and when none fell short, exactly the counted pings if and
   only if nothing was sent on a hijacked connection.
   */
  lemma RetriedWireExactly(w: Wire, script: seq<Attempt>, k: nat)
    requires Initial(w) && 0 < k <= |script| && AllRetried(w, script, k)
    ensures var now, l := WireAfter(w, script, k), LedgerAfter(w, script, k);
            l.around == l.short && (l.short == 0 ==> (now.sent == Pings(now.pings) <==> l.raw == ""))
  {
    ScriptAccounted(w, script, k);
    var now, l := WireAfter(w, script, k), LedgerAfter(w, script, k);
    assert Retried(WireAfter(w, script, k - 1), script[k - 1]);
    if now.size != -1 {
      OnlyPingsExactly(now, l);
    }
  }

  lemma {:induction false} CompleteLedger(w: Wire, script: seq<Attempt>, k: nat)
    requires Initial(w) && CompleteScript(script, k) && !WireAfter(w, script, k).hijacked
    ensures LedgerAfter(w, script, k).short == 0
  {
    if k > 0 {
      var before, l := WireAfter(w, script, k - 1), LedgerAfter(w, script, k - 1);
      HijackLasts(before, script[k - 1].events);
      CompleteLedger(w, script, k - 1);
      CompleteRun(before, l, script[k - 1].events);
    }
  }

  lemma {:induction false} HijackLasts(w: Wire, es: seq<Event>)
    ensures w.hijacked ==> After(w, es).hijacked
  {
    if es != [] {
      HijackLasts(w, es[..|es| - 1]);
    }
  }

  lemma {:induction false} HijackLastsScript(w: Wire, script: seq<Attempt>, i: nat, k: nat)
    requires i <= k <= |script|
    ensures WireAfter(w, script, i).hijacked ==> WireAfter(w, script, k).hijacked
    decreases k
  {
    if i < k {
      HijackLastsScript(w, script, i, k - 1);
      HijackLasts(WireAfter(w, script, k - 1), script[k - 1].events);
    }
  }

  /** With complete writes and no hijack, everything on the wire before the last handler call is pings. */
  lemma PayloadIsNeverJoined(w: Wire, script: seq<Attempt>, calls: seq<Call>)
    requires Initial(w) && CallsRecorded(w, script, calls) && CompleteScript(script, |calls|)
    requires calls != [] ==> AllRetried(w, script, |calls| - 1) && !WireAfter(w, script, |calls|).hijacked
    ensures OnlyPingsBetween(calls)
  {
    forall i | 0 < i < |calls|
      ensures calls[i].sent == Pings(calls[i].pings)
    {
      HijackLastsScript(w, script, i, |calls|);
      CompleteLedger(w, script, i);
      RetriedWireExactly(w, script, i);
      ScriptAccounted(w, script, i);
    }
  }

  lemma HijackedIsNeverRetried(w: Wire, script: seq<Attempt>)
    requires Initial(w) && w.hijacked && script != []
    ensures !Retried(w, script[0])
  {
    HijackedStays(w, script[0].events);
  }

  /** One turn of the loop whose setup went well. */
  method CallHandler(w: PingAwareWriter, ghost start: Wire, script: seq<Attempt>, k: nat, calls: seq<Call>)
    returns (error: Option<Error>, calls': seq<Call>, again: bool)
    requires k < |script| && Progress(start, script, k, calls) && w.View() == WireAfter(start, script, k) &&
             script[k].setup.Ready?
    modifies w
    ensures w.View() == WireAfter(start, script, k + 1)
    ensures error == script[k].error && again == Retried(WireAfter(start, script, k), script[k])
    ensures |calls'| == k + 1 && CallsRecorded(start, script, calls')
    ensures again ==> error.Some? && Progress(start, script, k + 1, calls')
  {
    ProgressStep(start, script, k, calls);
    calls' := calls + [Call(w.sent, w.pingFrames)];
    error, again := RunAttempt(w, script[k]);
  }

  /**
   The loop of Relay, as long as the retry counter keeps it going, whatever the handlers do.
   With complete writes and no hijack, everything on the wire before the last handler call is
   pings, so payload of two attempts is never joined; a connection taken over before the loop
   is never retried; and running out of channels does not hide the last attempt's error.
   */
  method RelayLoop(w: PingAwareWriter, script: seq<Attempt>) returns (error: Option<Error>, calls: seq<Call>, last: nat)
    requires Initial(w.View())
    modifies w
    ensures StopsAt(old(w.View()), script, last) && error == ReportedError(script, last)
    ensures |calls| == CallsMade(script, last) && CallsRecorded(old(w.View()), script, calls)
    ensures w.View() == WireAfter(old(w.View()), script, |calls|)
    ensures CompleteScript(script, |calls|) && !w.hijacked ==> OnlyPingsBetween(calls)
    ensures old(w.hijacked) ==> |calls| <= 1
  {
    ghost var start := w.View();
    error, calls, last := RunLoop(w, start, script);
    if CompleteScript(script, |calls|) && !w.hijacked {
      PayloadIsNeverJoined(start, script, calls);
    }
    if start.hijacked && script != [] {
      HijackedIsNeverRetried(start, script);
    }
  }

  method RunLoop(w: PingAwareWriter, ghost start: Wire, script: seq<Attempt>)
    returns (error: Option<Error>, calls: seq<Call>, last: nat)
    requires w.View() == start
    modifies w
    ensures StopsAt(start, script, last) && error == ReportedError(script, last)
    ensures |calls| == CallsMade(script, last) && CallsRecorded(start, script, calls)
    ensures w.View() == WireAfter(start, script, |calls|)
  {
    error, calls, last := None, [], 0;
    while last < |script|
      invariant last <= |script| && Progress(start, script, last, calls) && w.View() == WireAfter(start, script, last)
      invariant error == if last > 0 then script[last - 1].error else None
      invariant last > 0 ==> error.Some?
    {
      var attempt := script[last];
      if !attempt.setup.Ready? {
        if error == None || !OutOfChannels(attempt.setup) {
          error := Some(attempt.setup.err);
        }
        return;
      }
      var again;
      error, calls, again := CallHandler(w, start, script, last, calls);
      if !again {
        return;
      }
      last := last + 1;
    }
  }

  predicate OutOfChannels(setup: Setup) {
    setup.NoChannel? && setup.err.getChannelFailed
  }

  /** The handler of one attempt. */
  method HandlerWrites(w: PingAwareWriter, events: seq<Event>)
    modifies w
    ensures w.View() == After(old(w.View()), events)
  {
    ghost var start := w.View();
    for i := 0 to |events|
      invariant w.View() == After(start, events[..i])
    {
      AfterPush(start, events, i);
      w.Happen(events[i]);
    }
    assert events[..|events|] == events;
  }
}
