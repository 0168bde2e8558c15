/** The agent's logger: everything is kept in memory, and what matters is sent in batches. */
module Logger {
  import opened RingBuffer

  const MEMORY_STORAGE_CAPACITY: uint8 := 100
  const OUTGOING_BUFFER_CAPACITY: uint8 := 255
  const STAGE_START := "STAGE-START"
  const STAGE_END := "STAGE-END"
  const EXEC_START := "EXEC-START"
  const EXEC_END := "EXEC-END"

  datatype Log = Log(task: string, stage: string, command: string, output: string, error: bool, time: int, debug: bool)

  /** What the logger's loop may receive; ticks and quitting come with whether the agent is connected. */
  datatype Event = Queued(log: Log) | Tick(connected: bool) | Quit(connected: bool)

  /** Everything goes out in debug mode, otherwise just errors and state changes. */
  predicate Forwarded(l: Log) {
    l.debug || l.error || l.output in {STAGE_START, STAGE_END, EXEC_START, EXEC_END}
  }

  // ----- the reference: a logger that loses nothing between two flushes

  /** What is sent, batch by batch, from the given logs pending on. */
  ghost function Batches(es: seq<Event>, pending: seq<Log>): seq<seq<Log>> {
    if es == [] then []
    else match es[0]
      case Queued(l) => Batches(es[1..], if Forwarded(l) then pending + [l] else pending)
      case Tick(connected) =>
        if connected && pending != [] then [pending] + Batches(es[1..], []) else Batches(es[1..], pending)
      case Quit(connected) => if connected && pending != [] then [pending] else []
  }

  /** What is left unsent. */
  ghost function Unsent(es: seq<Event>, pending: seq<Log>): seq<Log> {
    if es == [] then pending
    else match es[0]
      case Queued(l) => Unsent(es[1..], if Forwarded(l) then pending + [l] else pending)
      case Tick(connected) => Unsent(es[1..], if connected then [] else pending)
      case Quit(connected) => if connected then [] else pending
  }

  /** All logs to be forwarded, up to quitting. */
  ghost function AllForwarded(es: seq<Event>): seq<Log> {
    if es == [] || es[0].Quit? then []
    else (if es[0].Queued? && Forwarded(es[0].log) then [es[0].log] else []) + AllForwarded(es[1..])
  }

  /** All logs, up to quitting. */
  ghost function AllQueued(es: seq<Event>): seq<Log> {
    if es == [] || es[0].Quit? then []
    else (if es[0].Queued? then [es[0].log] else []) + AllQueued(es[1..])
  }

  ghost function Flat(bs: seq<seq<Log>>): seq<Log> {
    if bs == [] then [] else bs[0] + Flat(bs[1..])
  }

  /** The batches and what is left are exactly the forwarded logs, in order. */
  lemma {:induction false} BatchesConserve(es: seq<Event>, pending: seq<Log>)
    ensures Flat(Batches(es, pending)) + Unsent(es, pending) == pending + AllForwarded(es)
  {
    if es == [] {
    } else {
      var rest := es[1..];
      match es[0]
      case Queued(l) =>
        var p := if Forwarded(l) then pending + [l] else pending;
        BatchesConserve(rest, p);
        assert p + AllForwarded(rest) == pending + AllForwarded(es);
      case Tick(connected) =>
        if connected && pending != [] {
          BatchesConserve(rest, []);
          var bs := Batches(rest, []);
          assert ([pending] + bs)[1..] == bs;
          assert pending + Flat(bs) + Unsent(rest, []) == pending + (Flat(bs) + Unsent(rest, []));
        } else {
          BatchesConserve(rest, pending);
          assert [] + AllForwarded(rest) == AllForwarded(rest);
        }
      case Quit(connected) =>
        if connected && pending != [] {
          assert [pending][1..] == [];
          assert Flat([pending]) == pending + [];
        }
    }
  }

  /** a with some items left out of b, order kept, each item of b used at most once. */
  ghost predicate Subsequence(a: seq<Log>, b: seq<Log>) {
    a == [] || (b != [] && ((a[0] == b[0] && Subsequence(a[1..], b[1..])) || Subsequence(a, b[1..])))
  }

  lemma {:induction false} SubsequenceAfter(a: seq<Log>, x: seq<Log>, b: seq<Log>)
    requires Subsequence(a, b)
    ensures Subsequence(a, x + b)
  {
    if x == [] {
      assert x + b == b;
    } else {
      SubsequenceAfter(a, x[1..], b);
      assert (x + b)[1..] == x[1..] + b;
    }
  }

  lemma {:induction false} SubsequenceBoth(x: seq<Log>, a: seq<Log>, b: seq<Log>)
    requires Subsequence(a, b)
    ensures Subsequence(x + a, x + b)
  {
    if x == [] {
      assert x + a == a && x + b == b;
    } else {
      SubsequenceBoth(x[1..], a, b);
      assert (x + b)[1..] == x[1..] + b && (x + a)[1..] == x[1..] + a;
    }
  }

  /** Each batch cut to its last n logs. */
  ghost function Cut(bs: seq<seq<Log>>, n: nat): seq<seq<Log>> {
    seq(|bs|, k requires 0 <= k < |bs| => Last(bs[k], n))
  }

  lemma LastPart(s: seq<Log>, n: nat)
    ensures |Last(s, n)| <= |s| && s == s[..|s| - |Last(s, n)|] + Last(s, n)
  {
  }

  /** Cut batches, one after the other, are a subsequence of the uncut ones and what follows. */
  lemma {:induction false} CutSubsequence(bs: seq<seq<Log>>, n: nat, rest: seq<Log>)
    ensures Subsequence(Flat(Cut(bs, n)), Flat(bs) + rest)
  {
    hide Last;
    if bs == [] {
    } else {
      var b, t := bs[0], bs[1..];
      CutSubsequence(t, n, rest);
      var f, g := Flat(Cut(t, n)), Flat(t) + rest;
      LastPart(b, n);
      var kept, lost := Last(b, n), b[..|b| - |Last(b, n)|];
      SubsequenceBoth(kept, f, g);
      SubsequenceAfter(kept + f, lost, kept + g);
      assert Cut(bs, n)[1..] == Cut(t, n);
      assert (lost + kept) + Flat(t) + rest == lost + (kept + (Flat(t) + rest));
    }
  }

  /** What the logger sends over any run is an order-preserving selection of the logs to be forwarded, none twice. */
  lemma SentInOrder(es: seq<Event>)
    ensures Subsequence(Flat(Cut(Batches(es, []), OUTGOING_BUFFER_CAPACITY as int)), AllForwarded(es))
  {
    CutSubsequence(Batches(es, []), OUTGOING_BUFFER_CAPACITY as int, Unsent(es, []));
    BatchesConserve(es, []);
    assert [] + AllForwarded(es) == AllForwarded(es);
  }

  // ----- what is sent

  lemma CutIn(bs: seq<seq<Log>>, n: nat)
    ensures forall b, l :: b in Cut(bs, n) && l in b ==> exists k :: 0 <= k < |bs| && l in bs[k]
  {
    forall b, l | b in Cut(bs, n) && l in b ensures exists k :: 0 <= k < |bs| && l in bs[k] {
      var k :| 0 <= k < |bs| && Cut(bs, n)[k] == b;
      LastPart(bs[k], n);
    }
  }

  lemma CutFirst(b: seq<Log>, bs: seq<seq<Log>>, n: nat)
    ensures Cut([b] + bs, n) == [Last(b, n)] + Cut(bs, n)
  {
  }

  /** Nothing but errors and changes of state is ever sent outside debug mode. */
  lemma {:induction false} OnlyWhatMatters(es: seq<Event>, pending: seq<Log>, n: nat)
    requires forall l :: l in pending ==>
               l.debug || l.error || l.output in {"STAGE-START", "STAGE-END", "EXEC-START", "EXEC-END"}
    ensures forall b, l :: b in Cut(Batches(es, pending), n) && l in b ==>
              l.debug || l.error || l.output in {"STAGE-START", "STAGE-END", "EXEC-START", "EXEC-END"}
  {
    CutIn(Batches(es, pending), n);
    if es == [] {
    } else {
      var rest := es[1..];
      match es[0]
      case Queued(l) =>
        OnlyWhatMatters(rest, if Forwarded(l) then pending + [l] else pending, n);
      case Tick(connected) =>
        OnlyWhatMatters(rest, [], n);
        OnlyWhatMatters(rest, pending, n);
        CutFirst(pending, Batches(rest, []), n);
      case Quit(connected) =>
    }
  }

  /** Nothing is sent by the first n events. */
  ghost predicate Silent(es: seq<Event>, n: nat) {
    forall k :: 0 <= k < n && k < |es| ==> es[k].Queued? || (es[k].Tick? && !es[k].connected)
  }

  /** What is pending when the logger sends, among its last n logs, is in a batch. */
  lemma {:induction false} PendingIsSent(es: seq<Event>, pending: seq<Log>, p: nat, t: nat, n: nat)
    requires p < |pending| && t < |es| && Silent(es, t) && !es[t].Queued? && es[t].connected
    requires |pending| - p + |AllForwarded(es[..t])| <= n
    ensures exists b :: b in Cut(Batches(es, pending), n) && pending[p] in b
  {
    var rest := es[1..];
    if t == 0 {
      var batch := Last(pending, n);
      assert pending[p] in batch by {
        assert |pending| - p <= n;
        assert batch[p - (|pending| - |batch|)] == pending[p];
      }
      var later := if es[0].Tick? then Batches(rest, []) else [];
      CutFirst(pending, later, n);
      assert Batches(es, pending) == [pending] + later;
      assert Cut(Batches(es, pending), n)[0] == batch;
    } else {
      assert es[..t][0] == es[0] && es[..t][1..] == rest[..t - 1];
      var pending' := if es[0].Queued? && Forwarded(es[0].log) then pending + [es[0].log] else pending;
      assert pending'[p] == pending[p];
      assert Silent(rest, t - 1) && rest[t - 1] == es[t];
      PendingIsSent(rest, pending', p, t - 1, n);
    }
  }

  /** Whether an event makes the logger send. */
  predicate Sends(e: Event, pending: seq<Log>) {
    !e.Queued? && e.connected && pending != []
  }

  ghost function PendingAfter(e: Event, pending: seq<Log>): seq<Log> {
    match e
    case Queued(l) => pending + if Forwarded(l) then [l] else []
    case Tick(_) => if Sends(e, pending) then [] else pending
    case Quit(_) => []
  }

  lemma LaterBatches(es: seq<Event>, pending: seq<Log>, n: nat)
    requires es != [] && !es[0].Quit?
    ensures forall b :: b in Cut(Batches(es[1..], PendingAfter(es[0], pending)), n) ==>
              b in Cut(Batches(es, pending), n)
  {
    hide Cut;
    var later := Batches(es[1..], PendingAfter(es[0], pending));
    if Sends(es[0], pending) {
      CutFirst(pending, later, n);
    } else {
      assert es[0].Queued? && !Forwarded(es[0].log) ==> pending + [] == pending;
      assert Batches(es, pending) == later;
    }
  }

  /** A log that matters is sent by the next tick, or on quitting, with the agent connected, if it is among the last
      n of them by then. */
  lemma {:induction false} MattersIsSent(es: seq<Event>, pending: seq<Log>, i: nat, t: nat, n: nat)
    requires i < t < |es| && es[i].Queued? && (forall k :: 0 <= k < i ==> !es[k].Quit?)
    requires var l := es[i].log;
             l.debug || l.error || l.output in {"STAGE-START", "STAGE-END", "EXEC-START", "EXEC-END"}
    requires Silent(es[i..], t - i) && !es[t].Queued? && es[t].connected
    requires |AllForwarded(es[i + 1..t])| < n
    ensures exists b :: b in Cut(Batches(es, pending), n) && es[i].log in b
    decreases i
  {
    hide Cut;
    var rest := es[1..];
    if i == 0 {
      var pending' := pending + [es[0].log];
      assert rest[..t - 1] == es[1..t] && rest[t - 1] == es[t];
      assert es[0..] == es;
      assert forall k :: 0 <= k < t - 1 ==> rest[k] == es[k + 1];
      PendingIsSent(rest, pending', |pending|, t - 1, n);
      assert Batches(es, pending) == Batches(rest, pending');
    } else {
      assert rest[i - 1] == es[i] && rest[t - 1] == es[t] && rest[i - 1..] == es[i..] && rest[i..t - 1] == es[i + 1..t];
      assert forall k :: 0 <= k < i - 1 ==> rest[k] == es[k + 1];
      var pending' := PendingAfter(es[0], pending);
      MattersIsSent(rest, pending', i - 1, t - 1, n);
      LaterBatches(es, pending, n);
    }
  }

  // ----- the logger

  lemma CutNone(n: nat)
    ensures Cut([], n) == []
  {
  }

  /** What the reference does with the next event, put behind what was sent and kept so far. */
  lemma EventNext(es: seq<Event>, i: nat, pending: seq<Log>, sent: seq<seq<Log>>, kept: seq<Log>)
    requires i < |es|
    ensures var n, e, rest := OUTGOING_BUFFER_CAPACITY as int, es[i], es[i + 1..];
            && sent + Cut(Batches(es[i..], pending), n)
               == (sent + if Sends(e, pending) then [Last(pending, n)] else [])
                  + (if e.Quit? then [] else Cut(Batches(rest, PendingAfter(e, pending)), n))
            && kept + AllQueued(es[i..])
               == (kept + if e.Queued? then [e.log] else []) + (if e.Quit? then [] else AllQueued(rest))
  {
    hide Cut, Last;
    var n, e, rest := OUTGOING_BUFFER_CAPACITY as int, es[i], es[i + 1..];
    assert es[i..][0] == e && es[i..][1..] == rest;
    var later := if e.Quit? then [] else Batches(rest, PendingAfter(e, pending));
    assert Batches(es[i..], pending) == if Sends(e, pending) then [pending] + later else later by {
      assert pending + [] == pending;
    }
    CutFirst(pending, later, n);
    CutNone(n);
    var c := Cut(later, n);
    assert sent + ([Last(pending, n)] + c) == sent + [Last(pending, n)] + c && sent + c == sent + [] + c;
    assert AllQueued(es[i..]) == if e.Quit? then [] else (if e.Queued? then [e.log] else []) + AllQueued(rest);
  }

  lemma NoEvents(es: seq<Event>, pending: seq<Log>)
    requires es == []
    ensures Cut(Batches(es, pending), OUTGOING_BUFFER_CAPACITY as int) == [] && AllQueued(es) == []
  {
  }

  class Logger {
    const buffer: Buffer<Log>
    var sent: seq<seq<Log>>         // the batches of the ticker

    ghost predicate Valid()
      reads this, buffer
    {
      buffer.Valid() && buffer.capacity == MEMORY_STORAGE_CAPACITY
    }

    constructor ()
      ensures Valid() && fresh(buffer) && buffer.history == [] && sent == []
    {
      buffer := new Buffer<Log>(MEMORY_STORAGE_CAPACITY);
      sent := [];
    }

    /** One event of the loop of `startTicker`. */
    method Handle(event: Event, tickBuffer: Buffer<Log>) returns (quit: bool)
      requires Valid() && tickBuffer.Valid() && tickBuffer != buffer && tickBuffer.capacity == OUTGOING_BUFFER_CAPACITY
      modifies this`sent, buffer, tickBuffer
      ensures Valid() && tickBuffer.Valid() && quit == event.Quit?
      ensures buffer.history == old(buffer.history) + if event.Queued? then [event.log] else []
      ensures sent == old(sent) + if Sends(event, old(tickBuffer.history))
                                  then [Last(old(tickBuffer.history), OUTGOING_BUFFER_CAPACITY as int)] else []
      ensures event.Queued? ==>
                tickBuffer.history == old(tickBuffer.history) + if Forwarded(event.log) then [event.log] else []
      ensures event.Tick? ==>
                tickBuffer.history == if Sends(event, old(tickBuffer.history)) then [] else old(tickBuffer.history)
    {
      quit := false;
      match event {
        case Queued(l) =>
          buffer.Insert(l);
          if Forwarded(l) {
            tickBuffer.Insert(l);
          }
        case Tick(connected) =>
          var size := tickBuffer.Size();
          if connected && size > 0 {
            var batch := tickBuffer.Collect();
            sent := sent + [batch];
            tickBuffer.Flush();
          }
        case Quit(connected) =>
          var size := tickBuffer.Size();
          if connected && size > 0 {
            var batch := tickBuffer.Collect();
            sent := sent + [batch];
          }
          quit := true;
      }
    }

    /** `startTicker` over any run of events: the batches are those of the reference, each cut to its most recent
        255 logs, and every log queued is put into the memory buffer. */
    method StartTicker(events: seq<Event>)
      requires Valid()
      modifies this`sent, buffer
      ensures Valid()
      ensures sent == old(sent) + Cut(Batches(events, []), 255)
      ensures buffer.history == old(buffer.history) + AllQueued(events)
    {
      hide Batches, AllQueued, Cut;
      var tickBuffer := new Buffer<Log>(OUTGOING_BUFFER_CAPACITY);
      var i := 0;
      var quit := false;
      assert events[0..] == events;
      while i < |events| && !quit
        invariant 0 <= i <= |events| && Valid() && tickBuffer.Valid() && fresh(tickBuffer)
        invariant tickBuffer.capacity == OUTGOING_BUFFER_CAPACITY
        invariant old(sent) + Cut(Batches(events, []), OUTGOING_BUFFER_CAPACITY as int)
               == sent + if quit then []
                         else Cut(Batches(events[i..], tickBuffer.history), OUTGOING_BUFFER_CAPACITY as int)
        invariant old(buffer.history) + AllQueued(events)
               == buffer.history + if quit then [] else AllQueued(events[i..])
        decreases |events| - i
      {
        EventNext(events, i, tickBuffer.history, sent, buffer.history);
        quit := Handle(events[i], tickBuffer);
        i := i + 1;
      }
      if !quit {
        NoEvents(events[i..], tickBuffer.history);
      }
    }

    /** `report`: what is sent on request, if anything, is what the memory holds from the first log at or after
        the given time on. */
    method Report(ifModifiedSince: int) returns (logs: seq<Log>)
      requires Valid()
      ensures var kept := Last(buffer.history, 100);
              && |logs| <= |kept| && logs == kept[|kept| - |logs|..]
              && (logs != [] ==> logs[0].time >= ifModifiedSince)
              && (forall i :: 0 <= i < |kept| - |logs| ==> kept[i].time < ifModifiedSince)
    {
      var all := buffer.Collect();
      for i := 0 to |all|
        invariant forall k :: 0 <= k < i ==> all[k].time < ifModifiedSince
      {
        if all[i].time >= ifModifiedSince {
          return all[i..];
        }
      }
      logs := [];
    }
  }

  /** A report that starts at the first kept log at or after a time holds every kept log at or after it, and nothing
      else exactly when no later kept log is older; so exactly those when the kept logs are in order of time. */
  lemma ReportComplete(kept: seq<Log>, logs: seq<Log>, since: int)
    requires |logs| <= |kept| && logs == kept[|kept| - |logs|..]
    requires forall i :: 0 <= i < |kept| - |logs| ==> kept[i].time < since
    requires logs != [] ==> logs[0].time >= since
    ensures forall i :: 0 <= i < |kept| && kept[i].time >= since ==> i >= |kept| - |logs|
    ensures forall l :: l in kept && l.time >= since ==> l in logs
    ensures (forall l :: l in logs <==> l in kept && l.time >= since)
       <==> (forall i, j :: 0 <= i < j < |kept| && kept[i].time >= since ==> kept[j].time >= since)
  {
    var start := |kept| - |logs|;
    assert forall k :: 0 <= k < |logs| ==> logs[k] == kept[start + k];
    forall i | 0 <= i < |kept| && kept[i].time >= since ensures kept[i] in logs {
      assert kept[i] == logs[i - start];
    }
    if forall l :: l in logs <==> l in kept && l.time >= since {
      forall i, j | 0 <= i < j < |kept| && kept[i].time >= since ensures kept[j].time >= since {
        assert kept[j] == logs[j - start];
      }
    } else {
      var k :| 0 <= k < |logs| && logs[k].time < since;
      assert kept[start].time >= since && kept[start + k].time < since;
    }
  }
}
