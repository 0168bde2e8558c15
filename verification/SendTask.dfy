/** The manager's retry loop: announce, send, wait, and ask who has not received the task yet. */
module SendTask {
  const MAX_ATTEMPT: nat := 3

  /** The answer to the query whether a target has received the task. */
  datatype Answer = Delivered | NotDelivered | Failed

  /** What the loop does to the outside. */
  datatype Action =
    | Announce(topic: string)
    | SendTaskTo(topic: string)
    | Sleep(seconds: nat)
    | LogNotDelivered(attempt: nat, targets: seq<string>)
    | LogQueryFailed(target: string)
    | LogUnableToDeliver(targets: seq<string>)

  /** The answers of all attempts, by attempt and target. */
  type Answers = (nat, string) -> Answer

  // ----- who is still pending

  /** One round of queries: the pending targets answered negatively, up to the first query that fails. */
  ghost function Round(pending: seq<string>, answers: Answers, attempt: nat): seq<string> {
    if pending == [] || answers(attempt, pending[0]).Failed? then []
    else (if answers(attempt, pending[0]).NotDelivered? then [pending[0]] else [])
         + Round(pending[1..], answers, attempt)
  }

  /** Who is pending after n attempts, were they all made. */
  ghost function PendingAfter(list: seq<string>, answers: Answers, n: nat): seq<string> {
    if n == 0 then list else Round(PendingAfter(list, answers, n - 1), answers, n)
  }

  /** The targets of a list, in order, that satisfy a predicate. */
  ghost function Filter(list: seq<string>, p: string -> bool): seq<string> {
    if list == [] then [] else (if p(list[0]) then [list[0]] else []) + Filter(list[1..], p)
  }

  /** All queries up to the n-th attempt were answered negatively. */
  ghost predicate AllNegative(answers: Answers, n: nat, t: string) {
    forall k :: 1 <= k <= n ==> answers(k, t).NotDelivered?
  }

  ghost predicate NoneFails(answers: Answers, n: nat, list: seq<string>) {
    forall k, t :: 1 <= k <= n && t in list ==> !answers(k, t).Failed?
  }

  lemma {:induction false} FilterWithin(list: seq<string>, p: string -> bool)
    ensures forall t :: t in Filter(list, p) ==> t in list && p(t)
  {
    if list == [] {
    } else {
      FilterWithin(list[1..], p);
    }
  }

  lemma {:induction false} FilterAll(list: seq<string>, p: string -> bool)
    requires forall t :: t in list ==> p(t)
    ensures Filter(list, p) == list
  {
    if list == [] {
    } else {
      FilterAll(list[1..], p);
    }
  }

  /** A round on a filtered list filters further. */
  lemma {:induction false} RoundFilters(list: seq<string>, p: string -> bool, q: string -> bool, answers: Answers,
                                        attempt: nat)
    requires forall t :: t in list ==> !answers(attempt, t).Failed?
    requires forall t :: t in list ==> (q(t) <==> p(t) && answers(attempt, t).NotDelivered?)
    ensures Round(Filter(list, p), answers, attempt) == Filter(list, q)
  {
    if list == [] {
    } else {
      RoundFilters(list[1..], p, q, answers, attempt);
      assert list[0] in list;
      var f, g := Filter(list[1..], p), Filter(list[1..], q);
      assert p(list[0]) ==> Filter(list, p)[0] == list[0] && Filter(list, p)[1..] == f;
      assert !p(list[0]) ==> Filter(list, p) == f && Filter(list, q) == g;
    }
  }

  /** As long as no query fails, the pending targets after n attempts are the targets of the list, in order, whose
      queries have all been negative. */
  lemma {:induction false} PendingIsNegativeSoFar(list: seq<string>, answers: Answers, n: nat)
    requires NoneFails(answers, n, list)
    ensures PendingAfter(list, answers, n) == Filter(list, t => AllNegative(answers, n, t))
  {
    if n == 0 {
      FilterAll(list, t => AllNegative(answers, 0, t));
    } else {
      PendingIsNegativeSoFar(list, answers, n - 1);
      RoundFilters(list, t => AllNegative(answers, n - 1, t), t => AllNegative(answers, n, t), answers, n);
    }
  }

  /** What a round should keep: everyone not known to have received the task. */
  ghost function NotReceived(pending: seq<string>, answers: Answers, attempt: nat): seq<string> {
    Filter(pending, t => !answers(attempt, t).Delivered?)
  }

  lemma {:induction false} RoundShorter(pending: seq<string>, answers: Answers, attempt: nat)
    ensures |Round(pending, answers, attempt)| <= |NotReceived(pending, answers, attempt)|
    ensures (exists t :: t in pending && answers(attempt, t).Failed?) ==>
              |Round(pending, answers, attempt)| < |NotReceived(pending, answers, attempt)|
    ensures (forall t :: t in pending ==> !answers(attempt, t).Failed?) ==>
              Round(pending, answers, attempt) == NotReceived(pending, answers, attempt)
  {
    if pending == [] {
    } else {
      var x, rest := pending[0], pending[1..];
      RoundShorter(rest, answers, attempt);
      assert x in pending && forall t :: t in pending <==> t == x || t in rest;
      assert NotReceived(pending, answers, attempt)
          == (if !answers(attempt, x).Delivered? then [x] else []) + NotReceived(rest, answers, attempt);
    }
  }

  /** A round keeps everyone not known to have received the task exactly when no query of the round fails: a failing
      query drops its target and all after it. */
  lemma FailedQueryDrops(pending: seq<string>, answers: Answers, attempt: nat)
    ensures Round(pending, answers, attempt) == NotReceived(pending, answers, attempt)
       <==> forall t :: t in pending ==> !answers(attempt, t).Failed?
  {
    RoundShorter(pending, answers, attempt);
  }

  // ----- what a trace amounts to

  ghost function Slept(trace: seq<Action>): nat {
    if trace == [] then 0
    else Slept(trace[..|trace| - 1]) + if trace[|trace| - 1].Sleep? then trace[|trace| - 1].seconds else 0
  }

  /** The messages published, in order. */
  ghost function Published(trace: seq<Action>): seq<Action> {
    if trace == [] then []
    else
      var a := trace[|trace| - 1];
      Published(trace[..|trace| - 1]) + if a.Announce? || a.SendTaskTo? then [a] else []
  }

  /** The target lists reported as not delivered to, attempt by attempt, and as given up. */
  ghost function Reported(trace: seq<Action>): seq<Action> {
    if trace == [] then []
    else
      var a := trace[|trace| - 1];
      Reported(trace[..|trace| - 1]) + if a.LogNotDelivered? || a.LogUnableToDeliver? then [a] else []
  }

  lemma TraceNext(trace: seq<Action>, a: Action)
    ensures Slept(trace + [a]) == Slept(trace) + if a.Sleep? then a.seconds else 0
    ensures Published(trace + [a]) == Published(trace) + if a.Announce? || a.SendTaskTo? then [a] else []
    ensures Reported(trace + [a]) == Reported(trace) + if a.LogNotDelivered? || a.LogUnableToDeliver? then [a] else []
  {
    assert (trace + [a])[..|trace|] == trace;
  }

  /** One attempt announces to every topic, in order, and then sends the task. */
  ghost function OneAttempt(topics: seq<string>, task: string): seq<Action> {
    seq(|topics|, i requires 0 <= i < |topics| => Announce(topics[i])) + [SendTaskTo(task)]
  }

  /** The announcements, a pause, the task, and the wait for it to be received. */
  ghost function Sent(topics: seq<string>, task: string, backOff: nat): seq<Action> {
    seq(|topics|, i requires 0 <= i < |topics| => Announce(topics[i])) + [Sleep(1), SendTaskTo(task), Sleep(backOff)]
  }

  /** The first query of a round that fails, if there is one. */
  ghost function FirstFailed(pending: seq<string>, answers: Answers, attempt: nat): seq<Action> {
    if pending == [] then []
    else if answers(attempt, pending[0]).Failed? then [LogQueryFailed(pending[0])]
    else FirstFailed(pending[1..], answers, attempt)
  }

  /** All that n attempts do, in order. */
  ghost function TraceOf(topics: seq<string>, task: string, list: seq<string>, answers: Answers, n: nat): seq<Action> {
    if n == 0 then []
    else
      var p := PendingAfter(list, answers, n);
      TraceOf(topics, task, list, answers, n - 1) + Sent(topics, task, 10 * n)
      + FirstFailed(PendingAfter(list, answers, n - 1), answers, n) + if p != [] then [LogNotDelivered(n, p)] else []
  }

  /** Before each sending of the task there is a pause of a second, and after it a longer one. */
  ghost predicate Paused(trace: seq<Action>) {
    forall i :: 0 <= i < |trace| && trace[i].SendTaskTo? ==>
      0 < i < |trace| - 1 && trace[i - 1] == Sleep(1) && trace[i + 1].Sleep? && trace[i + 1].seconds >= 10
  }

  lemma PausedNext(trace: seq<Action>, topics: seq<string>, task: string, backOff: nat, more: seq<Action>)
    requires Paused(trace) && backOff >= 10 && forall i :: 0 <= i < |more| ==> !more[i].SendTaskTo?
    ensures Paused(trace + Sent(topics, task, backOff) + more)
  {
    var n := |trace|;
    var sent := Sent(topics, task, backOff);
    var t := trace + sent + more;
    assert forall i :: 0 <= i < n ==> t[i] == trace[i];
    assert forall i :: n <= i < n + |sent| ==> t[i] == sent[i - n];
    assert forall i :: n + |sent| <= i < |t| ==> t[i] == more[i - n - |sent|];
  }

  lemma NothingPaused()
    ensures Paused([])
  {
  }

  lemma PausedLast(trace: seq<Action>, a: Action)
    requires Paused(trace) && !a.SendTaskTo?
    ensures Paused(trace + [a])
  {
  }

  lemma {:induction false} FirstFailedOnly(pending: seq<string>, answers: Answers, attempt: nat)
    ensures forall i :: 0 <= i < |FirstFailed(pending, answers, attempt)| ==>
              !FirstFailed(pending, answers, attempt)[i].SendTaskTo?
  {
    if pending != [] {
      FirstFailedOnly(pending[1..], answers, attempt);
    }
  }

  lemma {:induction false} TracePaused(topics: seq<string>, task: string, list: seq<string>, answers: Answers, n: nat)
    ensures Paused(TraceOf(topics, task, list, answers, n))
  {
    hide Paused, Sent, FirstFailed, PendingAfter;
    if n == 0 {
      NothingPaused();
    } else {
      TracePaused(topics, task, list, answers, n - 1);
      var p := PendingAfter(list, answers, n);
      var before := TraceOf(topics, task, list, answers, n - 1);
      var failed := FirstFailed(PendingAfter(list, answers, n - 1), answers, n);
      var last := if p != [] then [LogNotDelivered(n, p)] else [];
      FirstFailedOnly(PendingAfter(list, answers, n - 1), answers, n);
      PausedNext(before, topics, task, 10 * n, failed + last);
      assert before + Sent(topics, task, 10 * n) + (failed + last)
          == before + Sent(topics, task, 10 * n) + failed + last;
    }
  }

  ghost function ManyAttempts(topics: seq<string>, task: string, n: nat): seq<Action> {
    if n == 0 then [] else ManyAttempts(topics, task, n - 1) + OneAttempt(topics, task)
  }

  /** One report per attempt that left someone pending. */
  ghost function Reports(list: seq<string>, answers: Answers, n: nat): seq<Action> {
    if n == 0 then []
    else
      var p := PendingAfter(list, answers, n);
      Reports(list, answers, n - 1) + if p != [] then [LogNotDelivered(n, p)] else []
  }

  // ----- the loop

  lemma RoundNext(pending: seq<string>, i: nat, answers: Answers, attempt: nat)
    requires i < |pending|
    ensures Round(pending[i..], answers, attempt) ==
              match answers(attempt, pending[i])
              case Failed => []
              case NotDelivered => [pending[i]] + Round(pending[i + 1..], answers, attempt)
              case Delivered => Round(pending[i + 1..], answers, attempt)
    ensures FirstFailed(pending[i..], answers, attempt)
            == if answers(attempt, pending[i]).Failed? then [LogQueryFailed(pending[i])]
               else FirstFailed(pending[i + 1..], answers, attempt)
  {
    assert pending[i..][0] == pending[i] && pending[i..][1..] == pending[i + 1..];
  }

  lemma RoundNone(answers: Answers, attempt: nat)
    ensures Round([], answers, attempt) == [] && FirstFailed([], answers, attempt) == []
  {
  }

  /** The queries of one attempt. */
  method AskPending(pending: seq<string>, answers: Answers, attempt: nat, trace: seq<Action>)
    returns (left: seq<string>, trace': seq<Action>)
    ensures left == Round(pending, answers, attempt)
    ensures trace' == trace + FirstFailed(pending, answers, attempt)
    ensures Slept(trace') == Slept(trace) && Published(trace') == Published(trace)
            && Reported(trace') == Reported(trace)
  {
    hide Slept, Published, Reported, Round, FirstFailed;
    left, trace' := [], trace;
    var i := 0;
    assert pending[0..] == pending;
    while i < |pending|
      invariant 0 <= i <= |pending| && trace' == trace
      invariant FirstFailed(pending, answers, attempt) == FirstFailed(pending[i..], answers, attempt)
      invariant Round(pending, answers, attempt) == left + Round(pending[i..], answers, attempt)
    {
      RoundNext(pending, i, answers, attempt);
      match answers(attempt, pending[i]) {
        case Failed =>
          TraceNext(trace, LogQueryFailed(pending[i]));
          trace' := trace + [LogQueryFailed(pending[i])];
          return;
        case NotDelivered =>
          left := left + [pending[i]];
        case Delivered =>
      }
      i := i + 1;
    }
    assert pending[i..] == [];
    RoundNone(answers, attempt);
  }

  ghost function Announces(topics: seq<string>, n: nat): seq<Action>
    requires n <= |topics|
  {
    seq(n, i requires 0 <= i < n => Announce(topics[i]))
  }

  lemma {:induction false} AnnouncesAmount(trace: seq<Action>, topics: seq<string>, n: nat)
    requires n <= |topics|
    ensures Published(trace + Announces(topics, n)) == Published(trace) + Announces(topics, n)
    ensures Slept(trace + Announces(topics, n)) == Slept(trace)
    ensures Reported(trace + Announces(topics, n)) == Reported(trace)
  {
    hide Slept, Published, Reported;
    if n == 0 {
      assert trace + Announces(topics, 0) == trace;
    } else {
      AnnouncesAmount(trace, topics, n - 1);
      TraceNext(trace + Announces(topics, n - 1), Announce(topics[n - 1]));
      assert trace + Announces(topics, n) == trace + Announces(topics, n - 1) + [Announce(topics[n - 1])];
    }
  }

  /** What an attempt publishes and how long it takes. */
  lemma SentAmount(trace: seq<Action>, topics: seq<string>, task: string, backOff: nat)
    ensures var trace' := trace + Sent(topics, task, backOff);
            && Published(trace') == Published(trace) + OneAttempt(topics, task)
            && Slept(trace') == Slept(trace) + 1 + backOff && Reported(trace') == Reported(trace)
  {
    hide Slept, Published, Reported;
    var t := trace + Announces(topics, |topics|);
    AnnouncesAmount(trace, topics, |topics|);
    TraceNext(t, Sleep(1));
    TraceNext(t + [Sleep(1)], SendTaskTo(task));
    TraceNext(t + [Sleep(1)] + [SendTaskTo(task)], Sleep(backOff));
    assert trace + Sent(topics, task, backOff) == t + [Sleep(1)] + [SendTaskTo(task)] + [Sleep(backOff)];
    assert Published(trace) + Announces(topics, |topics|) + [SendTaskTo(task)]
        == Published(trace) + OneAttempt(topics, task);
  }

  /** The announcements of one attempt, a wait, the task, and the other wait. */
  method SendAndWait(topics: seq<string>, task: string, backOff: nat, trace: seq<Action>) returns (trace': seq<Action>)
    ensures trace' == trace + seq(|topics|, i requires 0 <= i < |topics| => Announce(topics[i]))
                      + [Sleep(1), SendTaskTo(task), Sleep(backOff)]
    ensures trace' == trace + Sent(topics, task, backOff)
  {
    trace' := trace;
    for i := 0 to |topics|
      invariant trace' == trace + Announces(topics, i)
    {
      trace' := trace' + [Announce(topics[i])];
    }
    trace' := trace' + [Sleep(1)];
    trace' := trace' + [SendTaskTo(task)];
    trace' := trace' + [Sleep(backOff)];
  }

  lemma TraceStart()
    ensures Slept([]) == 0 && Published([]) == [] && Reported([]) == []
  {
  }

  lemma WaitingGrows(n: nat)
    requires n > 0
    ensures n + 10 * (n * (n + 1) / 2) == (n - 1) + 10 * ((n - 1) * n / 2) + 1 + 10 * n
  {
    assert n * (n + 1) == (n - 1) * n + 2 * n;
  }

  /** `sendTask` to the targets of a list, by the given topics. */
  method SendTask(task: string, topics: seq<string>, list: seq<string>, answers: Answers)
    returns (pending: seq<string>, attempts: nat, trace: seq<Action>)
    ensures trace == TraceOf(topics, task, list, answers, attempts)
                     + (if pending != [] then [LogUnableToDeliver(pending)] else [])
    ensures Paused(trace)
    ensures 1 <= attempts <= 3 && pending == PendingAfter(list, answers, attempts)
    ensures pending == [] || attempts == 3
    ensures forall k :: 1 <= k < attempts ==> PendingAfter(list, answers, k) != []
    ensures Published(trace) == ManyAttempts(topics, task, attempts)
    ensures Slept(trace) == attempts + 10 * (attempts * (attempts + 1) / 2)
    ensures Reported(trace)
            == Reports(list, answers, attempts) + if pending != [] then [LogUnableToDeliver(pending)] else []
  {
    hide Slept, Published, Reported, OneAttempt, Round, Sent, FirstFailed, Paused;
    TraceStart();
    var backOff := 0;
    pending, trace, attempts := list, [], 0;
    while true
      invariant attempts < MAX_ATTEMPT && backOff == 10 * attempts
      invariant trace == TraceOf(topics, task, list, answers, attempts)
      invariant pending == PendingAfter(list, answers, attempts)
      invariant forall k :: 1 <= k <= attempts ==> PendingAfter(list, answers, k) != []
      invariant Published(trace) == ManyAttempts(topics, task, attempts)
      invariant Slept(trace) == attempts + 10 * (attempts * (attempts + 1) / 2)
      invariant Reported(trace) == Reports(list, answers, attempts)
      decreases MAX_ATTEMPT - attempts
    {
      attempts := attempts + 1;
      backOff := backOff + 10;
      SentAmount(trace, topics, task, backOff);
      trace := SendAndWait(topics, task, backOff, trace);
      pending, trace := AskPending(pending, answers, attempts, trace);
      assert trace + [] == trace;
      WaitingGrows(attempts);
      if |pending| == 0 {
        break;
      }
      TraceNext(trace, LogNotDelivered(attempts, pending));
      trace := trace + [LogNotDelivered(attempts, pending)];
      if attempts == MAX_ATTEMPT {
        break;
      }
    }
    TracePaused(topics, task, list, answers, attempts);
    PausedLast(trace, LogUnableToDeliver(pending));
    if |pending| > 0 {
      TraceNext(trace, LogUnableToDeliver(pending));
      trace := trace + [LogUnableToDeliver(pending)];
    }
  }
}
