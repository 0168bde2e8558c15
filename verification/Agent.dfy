/** The agent's side of an announcement: redundant messages are discarded, repeated and stale announcements are
    dropped against a bounded history, and the others are subscribed to. */
module Agent {
  import opened Common
  import opened RingBuffer
  import Routing

  const TASK_TYPE_BUILD: uint8 := 1
  const TASK_TYPE_DEPLOY: uint8 := 2
  const HISTORY_LIMIT: nat := 10

  datatype Announcement = Announcement(id: string, size: int, kind: uint8)

  /** What a payload may hold when parsed as a request. */
  datatype Request =
    | Announce(announcement: Announcement)
    | LogRequest(since: int)
    | Command(text: string)
    | StopAll
    | Invalid

  /** How payloads are parsed: as a request, which is invalid if it is none, and as a task, of which only the id counts
      here, empty if there is none. Payloads themselves are compared as an injective checksum would. */
  datatype Codec = Codec(request: string -> Request, task: string -> string)

  /** What the worker receives. */
  datatype Message = Connected | Disconnected | Received(topic: string, payload: string)

  datatype Operation = Subscribe(topic: string) | Unsubscribe(topic: string)

  type History = map<string, uint8>

  /** The map lookup, which yields 0 for a missing task. */
  function Recorded(h: History, id: string): uint8 {
    if id in h then h[id] else 0
  }

  // ----- what hearing announcements does to the history

  /** The history, and the announcements accepted since it was last cleared. */
  datatype Memory = Memory(history: History, accepted: seq<Announcement>)

  ghost predicate Drops(m: Memory, a: Announcement) {
    Recorded(m.history, a.id) >= a.kind
  }

  ghost predicate Clears(m: Memory, a: Announcement) {
    !Drops(m, a) && |m.history| >= HISTORY_LIMIT
  }

  ghost function Heard(m: Memory, a: Announcement): Memory {
    if Drops(m, a) then m
    else
      var kept := if Clears(m, a) then Memory(map[], []) else m;
      Memory(kept.history[a.id := a.kind], kept.accepted + [a])
  }

  ghost function HeardAll(m: Memory, es: seq<Announcement>): Memory
    decreases |es|
  {
    if es == [] then m else HeardAll(Heard(m, es[0]), es[1..])
  }

  /** No announcement of the sequence makes the history be cleared. */
  ghost predicate NeverClears(m: Memory, es: seq<Announcement>)
    decreases |es|
  {
    es == [] || (!Clears(m, es[0]) && NeverClears(Heard(m, es[0]), es[1..]))
  }

  /** The history is bounded; it records at least the type of every accepted announcement; and of the announcements
      accepted for one task each has a greater type than those before. */
  ghost predicate Sound(m: Memory) {
    && |m.history| <= HISTORY_LIMIT
    && (forall a :: a in m.accepted ==> a.id in m.history && m.history[a.id] >= a.kind > 0)
    && (forall i, j :: 0 <= i < j < |m.accepted| && m.accepted[i].id == m.accepted[j].id ==>
          m.accepted[i].kind < m.accepted[j].kind)
  }

  lemma HeardSound(m: Memory, a: Announcement)
    requires Sound(m)
    ensures Sound(Heard(m, a))
  {
    if !Drops(m, a) && !Clears(m, a) {
      var m' := Heard(m, a);
      assert m'.history.Keys == m.history.Keys + {a.id};
      forall i, j | 0 <= i < j < |m'.accepted| && m'.accepted[i].id == m'.accepted[j].id
        ensures m'.accepted[i].kind < m'.accepted[j].kind
      {
        assert m.accepted[i] in m.accepted;
      }
    }
  }

  /** Over any sequence of announcements, however repeated, reordered or stale. */
  lemma {:induction false} HeardAllSound(m: Memory, es: seq<Announcement>)
    requires Sound(m)
    ensures Sound(HeardAll(m, es))
    decreases |es|
  {
    if es == [] {
    } else {
      HeardSound(m, es[0]);
      HeardAllSound(Heard(m, es[0]), es[1..]);
    }
  }

  /** Between two clears the recorded type of a task only grows. */
  lemma {:induction false} RecordedGrows(m: Memory, es: seq<Announcement>, id: string)
    requires NeverClears(m, es)
    ensures Recorded(HeardAll(m, es).history, id) >= Recorded(m.history, id)
    ensures m.accepted <= HeardAll(m, es).accepted
    decreases |es|
  {
    if es == [] {
    } else {
      RecordedGrows(Heard(m, es[0]), es[1..], id);
    }
  }

  /** What was heard is recorded, it or a greater type. */
  lemma {:induction false} HeardIsRecorded(m: Memory, es: seq<Announcement>, a: Announcement)
    requires NeverClears(m, es) && a in es
    ensures Drops(HeardAll(m, es), a)
    decreases |es|
  {
    if es[0] == a {
      RecordedGrows(Heard(m, a), es[1..], a.id);
    } else {
      HeardIsRecorded(Heard(m, es[0]), es[1..], a);
    }
  }

  /** A build announcement that arrives after the deploy announcement of the same task is dropped, whatever came
      between, unless the history was cleared. */
  lemma BuildAfterDeployIsDropped(m: Memory, deploy: Announcement, es: seq<Announcement>, build: Announcement)
    requires deploy.kind == TASK_TYPE_DEPLOY && build.kind == TASK_TYPE_BUILD && deploy.id == build.id
    requires NeverClears(Heard(m, deploy), es)
    ensures Drops(HeardAll(Heard(m, deploy), es), build)
  {
    RecordedGrows(Heard(m, deploy), es, deploy.id);
  }

  /** Clearing forgets: an announcement that would have been dropped still is after hearing another one, exactly
      when that one does not make the history be cleared or is of the same task. */
  lemma ClearForgets(m: Memory, news: Announcement, stale: Announcement)
    requires Drops(m, stale) && stale.kind > 0
    ensures Drops(Heard(m, news), stale) <==> !Clears(m, news) || news.id == stale.id
  {
  }

  ghost function Copies(a: Announcement, k: nat): seq<Announcement> {
    seq(k, i requires 0 <= i < k => a)
  }

  /** An announcement repeated any number of times is heard once. */
  lemma {:induction false} RepeatsHeardOnce(m: Memory, a: Announcement, k: nat)
    ensures HeardAll(m, Copies(a, k)) == if k == 0 then m else Heard(m, a)
    decreases k
  {
    if k == 0 {
    } else {
      assert Copies(a, k)[1..] == Copies(a, k - 1);
      RepeatsHeardOnce(Heard(m, a), a, k - 1);
    }
  }

  // ----- which announcements are subscribed to

  /** The conversion of a size to 64 bits, unsigned. */
  function ToUint64(n: int): nat {
    n % 0x1_0000_0000_0000_0000
  }

  /** The tasks subscribed to while hearing es: those accepted that are small enough. */
  ghost function SubscribedTo(m: Memory, es: seq<Announcement>, sizeLimit: nat): seq<string>
    decreases |es|
  {
    if es == [] then []
    else (if !Drops(m, es[0]) && ToUint64(es[0].size) <= sizeLimit then [es[0].id] else [])
         + SubscribedTo(Heard(m, es[0]), es[1..], sizeLimit)
  }

  lemma {:induction false} HeardConcat(m: Memory, a: seq<Announcement>, b: seq<Announcement>, sizeLimit: nat)
    ensures HeardAll(m, a + b) == HeardAll(HeardAll(m, a), b)
    ensures SubscribedTo(m, a + b, sizeLimit)
            == SubscribedTo(m, a, sizeLimit) + SubscribedTo(HeardAll(m, a), b, sizeLimit)
    decreases |a|
  {
    if a == [] {
      assert a + b == b;
    } else {
      assert (a + b)[0] == a[0] && (a + b)[1..] == a[1..] + b;
      HeardConcat(Heard(m, a[0]), a[1..], b, sizeLimit);
      var x := if !Drops(m, a[0]) && ToUint64(a[0].size) <= sizeLimit then [a[0].id] else [];
      var y, z := SubscribedTo(Heard(m, a[0]), a[1..], sizeLimit), SubscribedTo(HeardAll(m, a), b, sizeLimit);
      assert x + (y + z) == x + y + z;
    }
  }

  lemma HeardFirst(m: Memory, es: seq<Announcement>)
    requires es != [] && NeverClears(m, es)
    ensures HeardAll(m, es) == HeardAll(Heard(m, es[0]), es[1..])
    ensures !Clears(m, es[0]) && NeverClears(Heard(m, es[0]), es[1..])
  {
  }

  lemma HeardNothing(m: Memory)
    ensures HeardAll(m, []) == m && m.accepted[|m.accepted|..] == []
  {
  }

  /** The tasks of the announcements that are small enough. */
  ghost function Fitting(accepted: seq<Announcement>, sizeLimit: nat): seq<string> {
    if accepted == [] then []
    else (if ToUint64(accepted[0].size) <= sizeLimit then [accepted[0].id] else []) + Fitting(accepted[1..], sizeLimit)
  }

  /** Between two clears, whatever arrives, the agent subscribes once for each accepted announcement that fits, and
      no two accepted announcements are of the same task and type. */
  lemma {:induction false} SubscribedOnce(m: Memory, es: seq<Announcement>, sizeLimit: nat)
    requires Sound(m) && NeverClears(m, es)
    ensures m.accepted <= HeardAll(m, es).accepted
    ensures SubscribedTo(m, es, sizeLimit) == Fitting(HeardAll(m, es).accepted[|m.accepted|..], sizeLimit)
    ensures forall i, j :: 0 <= i < j < |HeardAll(m, es).accepted| ==>
              (HeardAll(m, es).accepted[i].id, HeardAll(m, es).accepted[i].kind)
              != (HeardAll(m, es).accepted[j].id, HeardAll(m, es).accepted[j].kind)
    decreases |es|
  {
    hide HeardAll;
    RecordedGrows(m, es, "");
    HeardAllSound(m, es);
    if es == [] {
      HeardNothing(m);
    } else {
      HeardFirst(m, es);
      var next := Heard(m, es[0]);
      HeardSound(m, es[0]);
      SubscribedOnce(next, es[1..], sizeLimit);
      var all := HeardAll(m, es).accepted;
      if !Drops(m, es[0]) {
        assert next.accepted == m.accepted + [es[0]];
        assert all[|m.accepted|..][0] == es[0] && all[|m.accepted|..][1..] == all[|next.accepted|..];
      }
    }
  }

  /** However many copies of an announcement arrive, over several topics and attempts, the task is subscribed to at
      most once: exactly when the announcement is news and fits. */
  lemma {:induction false} RepeatsSubscribeOnce(m: Memory, a: Announcement, k: nat, sizeLimit: nat)
    requires k > 0
    ensures SubscribedTo(m, Copies(a, k), sizeLimit) == if !Drops(m, a)
            && ToUint64(a.size) <= sizeLimit then [a.id] else []
    decreases k
  {
    assert Copies(a, k)[1..] == Copies(a, k - 1);
    if k > 1 {
      RepeatsSubscribeOnce(Heard(m, a), a, k - 1, sizeLimit);
    }
  }

  // ----- one announcement among others

  /** Of the same task and type. */
  predicate Same(a: Announcement, b: Announcement) {
    a.id == b.id && a.kind == b.kind
  }

  /** How many of s are the same as a. */
  ghost function CountOf(s: seq<Announcement>, a: Announcement): nat {
    if s == [] then 0 else (if Same(s[0], a) then 1 else 0) + CountOf(s[1..], a)
  }

  ghost predicate OvertakenAt(es: seq<Announcement>, i: nat, a: Announcement)
    requires i < |es|
  {
    es[i].id == a.id && es[i].kind > a.kind && forall j :: 0 <= j < i ==> !Same(es[j], a)
  }

  /** An announcement of the task with a greater type comes, and none the same as a up to it. */
  ghost predicate Overtaken(es: seq<Announcement>, a: Announcement) {
    exists i :: 0 <= i < |es| && OvertakenAt(es, i, a)
  }

  ghost predicate Arrives(es: seq<Announcement>, a: Announcement) {
    exists i :: 0 <= i < |es| && Same(es[i], a)
  }

  /** Hearing es, a comes as news: it would not be dropped before, it arrives, and nothing overtakes it. */
  ghost predicate IsNews(m: Memory, es: seq<Announcement>, a: Announcement) {
    !Drops(m, a) && Arrives(es, a) && !Overtaken(es, a)
  }

  lemma ArrivesNext(es: seq<Announcement>, a: Announcement)
    requires es != []
    ensures Arrives(es, a) <==> Same(es[0], a) || Arrives(es[1..], a)
  {
    hide Same;
    var rest := es[1..];
    if i :| 0 <= i < |rest| && Same(rest[i], a) {
      assert rest[i] == es[i + 1];
    }
    if i :| 0 <= i < |es| && Same(es[i], a) {
      assert i > 0 ==> rest[i - 1] == es[i];
    }
  }

  lemma OvertakenNext(es: seq<Announcement>, a: Announcement)
    requires es != []
    ensures Overtaken(es, a) <==>
            !Same(es[0], a) && ((es[0].id == a.id && es[0].kind > a.kind) || Overtaken(es[1..], a))
  {
    var rest := es[1..];
    if i :| 0 <= i < |es| && OvertakenAt(es, i, a) {
      if i > 0 {
        assert rest[i - 1] == es[i] && forall j :: 0 <= j < i - 1 ==> rest[j] == es[j + 1];
        assert OvertakenAt(rest, i - 1, a);
      }
    }
    if i :| 0 <= i < |rest| && OvertakenAt(rest, i, a) && !Same(es[0], a) {
      assert es[i + 1] == rest[i] && forall j :: 0 < j < i + 1 ==> es[j] == rest[j - 1];
      assert OvertakenAt(es, i + 1, a);
    }
    assert es[0].id == a.id && es[0].kind > a.kind ==> OvertakenAt(es, 0, a);
  }

  /** Whatever else is heard, as long as the history is not cleared, an announcement is accepted once if it comes as
      news, and not at all otherwise. */
  lemma {:induction false} AcceptedOnce(m: Memory, es: seq<Announcement>, a: Announcement)
    requires NeverClears(m, es)
    ensures m.accepted <= HeardAll(m, es).accepted
    ensures CountOf(HeardAll(m, es).accepted[|m.accepted|..], a) == if IsNews(m, es, a) then 1 else 0
    decreases |es|
  {
    RecordedGrows(m, es, "");
    if es == [] {
      assert !Arrives(es, a);
    } else {
      hide Overtaken, Arrives, HeardAll;
      ArrivesNext(es, a);
      OvertakenNext(es, a);
      HeardFirst(m, es);
      var next := Heard(m, es[0]);
      AcceptedOnce(next, es[1..], a);
      var all := HeardAll(m, es).accepted;
      if !Drops(m, es[0]) {
        assert next.accepted == m.accepted + [es[0]];
        assert all[|m.accepted|..][0] == es[0] && all[|m.accepted|..][1..] == all[|next.accepted|..];
      }
    }
  }

  // ----- the exception: a cleared history

  ghost predicate ClearsAt(m: Memory, mid: seq<Announcement>, j: nat)
    requires j < |mid|
  {
    Clears(HeardAll(m, mid[..j]), mid[j])
  }

  ghost predicate NoneSince(mid: seq<Announcement>, j: nat, a: Announcement) {
    forall k :: j <= k < |mid| && mid[k].id == a.id ==> mid[k].kind < a.kind
  }

  /** Hearing mid clears the history, and nothing from then on records the type of a, or a greater one, for its task. */
  ghost predicate Forgotten(m: Memory, mid: seq<Announcement>, a: Announcement) {
    exists j :: 0 <= j < |mid| && ClearsAt(m, mid, j) && NoneSince(mid, j, a)
  }

  lemma ForgottenNext(m: Memory, mid: seq<Announcement>, e: Announcement, a: Announcement)
    ensures Forgotten(m, mid + [e], a) <==>
            (e.id == a.id ==> e.kind < a.kind) && (Clears(HeardAll(m, mid), e) || Forgotten(m, mid, a))
  {
    hide HeardAll, Clears;
    var all := mid + [e];
    assert all[..|mid|] == mid && all[|mid|] == e;
    assert forall j :: 0 <= j < |mid| ==> all[j] == mid[j] && all[..j] == mid[..j];
    if Forgotten(m, all, a) {
      var j :| 0 <= j < |all| && ClearsAt(m, all, j) && NoneSince(all, j, a);
      assert all[|mid|].id == a.id ==> all[|mid|].kind < a.kind;
      if j < |mid| {
        assert ClearsAt(m, mid, j) && NoneSince(mid, j, a);
      }
    }
    if (e.id == a.id ==> e.kind < a.kind) && Clears(HeardAll(m, mid), e) {
      assert ClearsAt(m, all, |mid|) && NoneSince(all, |mid|, a);
    }
    if (e.id == a.id ==> e.kind < a.kind) && Forgotten(m, mid, a) {
      var j :| 0 <= j < |mid| && ClearsAt(m, mid, j) && NoneSince(mid, j, a);
      assert ClearsAt(m, all, j) && NoneSince(all, j, a);
    }
  }

  lemma HeardOne(m: Memory, e: Announcement)
    ensures HeardAll(m, [e]) == Heard(m, e)
  {
    assert [e][1..] == [];
  }

  /** An announcement that would be dropped is accepted again after others were heard, exactly when they made it
      forgotten. */
  lemma {:induction false} ForgottenExactly(m: Memory, mid: seq<Announcement>, a: Announcement)
    requires Drops(m, a) && a.kind > 0
    ensures !Drops(HeardAll(m, mid), a) <==> Forgotten(m, mid, a)
    decreases |mid|
  {
    if mid == [] {
    } else {
      hide Forgotten, HeardAll;
      var init, e := mid[..|mid| - 1], mid[|mid| - 1];
      assert mid == init + [e];
      ForgottenExactly(m, init, a);
      ForgottenNext(m, init, e, a);
      HeardConcat(m, init, [e], 0);
      HeardOne(HeardAll(m, init), e);
    }
  }

  /** Of two copies heard in a run, the later one is accepted too exactly when those between made it forgotten. */
  lemma AcceptedAgain(m: Memory, es: seq<Announcement>, i: nat, k: nat)
    requires i < k < |es| && Same(es[i], es[k]) && es[k].kind > 0
    ensures !Drops(HeardAll(m, es[..k]), es[k]) <==> Forgotten(HeardAll(m, es[..i + 1]), es[i + 1..k], es[k])
  {
    hide Forgotten, HeardAll;
    assert es[..i + 1] == es[..i] + [es[i]] && es[..k] == es[..i + 1] + es[i + 1..k];
    HeardConcat(m, es[..i], [es[i]], 0);
    HeardOne(HeardAll(m, es[..i]), es[i]);
    HeardConcat(m, es[..i + 1], es[i + 1..k], 0);
    ForgottenExactly(HeardAll(m, es[..i + 1]), es[i + 1..k], es[k]);
  }

  /** With nine tasks recorded, one announcement of another new task between two copies makes the agent subscribe
      again. */
  lemma SubscribedAgain(m: Memory, a: Announcement, b: Announcement, sizeLimit: nat)
    requires |m.history| == 9 && a.id !in m.history && b.id !in m.history && a.id != b.id && a.kind > 0 && b.kind > 0
    requires ToUint64(a.size) <= sizeLimit && ToUint64(b.size) <= sizeLimit
    ensures SubscribedTo(m, [a, b, a], sizeLimit) == [a.id, b.id, a.id]
  {
    hide ToUint64;
    var m1 := Heard(m, a);
    assert m1.history.Keys == m.history.Keys + {a.id} && |m1.history| == 10;
    var m2 := Heard(m1, b);
    assert m2.history == map[b.id := b.kind];
    assert [a, b, a][1..] == [b, a] && [b, a][1..] == [a] && [a][1..] == [];
    assert SubscribedTo(m2, [a], sizeLimit) == [a.id] + SubscribedTo(Heard(m2, a), [], sizeLimit);
    assert SubscribedTo(m1, [b, a], sizeLimit) == [b.id] + SubscribedTo(m2, [a], sizeLimit);
  }

  // ----- which requests are handled

  /** The payloads received on the agent's own topics. */
  ghost function Payloads(topics: set<string>, ms: seq<Message>): seq<string> {
    if ms == [] then []
    else (if ms[0].Received? && ms[0].topic in topics then [ms[0].payload] else []) + Payloads(topics, ms[1..])
  }

  /** Runs of equal payloads reduced to one, given the latest before. */
  ghost function Destuttered(latest: Option<string>, ps: seq<string>): seq<string>
    decreases |ps|
  {
    if ps == [] then []
    else if latest == Some(ps[0]) then Destuttered(latest, ps[1..])
    else [ps[0]] + Destuttered(Some(ps[0]), ps[1..])
  }

  lemma {:induction false} DestutteredShorter(latest: Option<string>, ps: seq<string>)
    ensures |Destuttered(latest, ps)| <= |ps|
    decreases |ps|
  {
    if ps != [] {
      DestutteredShorter(if latest == Some(ps[0]) then latest else Some(ps[0]), ps[1..]);
    }
  }

  /** No payload is left that equals the one before it, and only such were taken out. */
  lemma {:induction false} NoStutter(latest: Option<string>, ps: seq<string>)
    ensures var d := Destuttered(latest, ps);
            && (d != [] ==> latest != Some(d[0]))
            && (forall i :: 0 < i < |d| ==> d[i] != d[i - 1])
            && (d == ps <==> (ps != [] ==> latest != Some(ps[0])) && forall i :: 0 < i < |ps| ==> ps[i] != ps[i - 1])
    decreases |ps|
  {
    if ps != [] {
      var rest := ps[1..];
      NoStutter(if latest == Some(ps[0]) then latest else Some(ps[0]), rest);
      DestutteredShorter(latest, rest);
      assert forall i :: 0 < i < |ps| ==> rest[i - 1] == ps[i];
      assert forall i :: 0 < i < |rest| ==> rest[i] == ps[i + 1];
    }
  }

  /** The payload remembered after the payloads ps. */
  ghost function Newest(latest: Option<string>, ps: seq<string>): Option<string> {
    if ps == [] then latest else Some(ps[|ps| - 1])
  }

  /** The announcements among the payloads. */
  ghost function Announcements(codec: Codec, ps: seq<string>): seq<Announcement> {
    if ps == [] then []
    else (if codec.request(ps[0]).Announce? then [codec.request(ps[0]).announcement] else [])
         + Announcements(codec, ps[1..])
  }

  /** The topics of the subscribe operations. */
  ghost function Subscribes(ops: seq<Operation>): seq<string> {
    if ops == [] then []
    else Subscribes(ops[..|ops| - 1]) + match ops[|ops| - 1] case Subscribe(t) => [t] case Unsubscribe(_) => []
  }

  /** The topics of the unsubscribe operations. */
  ghost function Unsubscribes(ops: seq<Operation>): seq<string> {
    if ops == [] then []
    else Unsubscribes(ops[..|ops| - 1]) + match ops[|ops| - 1] case Subscribe(_) => [] case Unsubscribe(t) => [t]
  }

  /** The last operation on a topic. */
  ghost function LastOn(ops: seq<Operation>, topic: string): Option<Operation> {
    if ops == [] then None
    else if ops[|ops| - 1].topic == topic then Some(ops[|ops| - 1])
    else LastOn(ops[..|ops| - 1], topic)
  }

  lemma {:induction false} OperationsConcat(a: seq<Operation>, b: seq<Operation>)
    ensures Subscribes(a + b) == Subscribes(a) + Subscribes(b)
    ensures Unsubscribes(a + b) == Unsubscribes(a) + Unsubscribes(b)
    ensures forall t :: LastOn(a + b, t) == if LastOn(b, t).Some? then LastOn(b, t) else LastOn(a, t)
  {
    if b == [] {
      assert a + b == a;
    } else {
      assert (a + b)[..|a + b| - 1] == a + b[..|b| - 1];
      OperationsConcat(a, b[..|b| - 1]);
    }
  }

  ghost function SubscribeTo(topics: seq<string>): seq<Operation> {
    seq(|topics|, i requires 0 <= i < |topics| => Subscribe(topics[i]))
  }

  lemma {:induction false} SubscribeToTopics(topics: seq<string>)
    ensures Subscribes(SubscribeTo(topics)) == topics && Unsubscribes(SubscribeTo(topics)) == []
    ensures topics == [] ==> SubscribeTo(topics) == []
  {
    if topics != [] {
      var n := |topics| - 1;
      assert SubscribeTo(topics)[..n] == SubscribeTo(topics[..n]);
      SubscribeToTopics(topics[..n]);
    }
  }

  // ----- what the worker puts into the operation channel

  /** The operations that a run of messages leads to: each foreign message ends the subscription to its task, and each
      announcement that is news and fits begins one, in the order of the messages. */
  ghost function Acts(codec: Codec, topics: set<string>, latest: Option<string>, m: Memory, sizeLimit: nat,
                      ms: seq<Message>): seq<Operation>
    decreases |ms|
  {
    if ms == [] then []
    else if !ms[0].Received? then Acts(codec, topics, latest, m, sizeLimit, ms[1..])
    else if ms[0].topic !in topics then
      [Unsubscribe(codec.task(ms[0].payload))] + Acts(codec, topics, latest, m, sizeLimit, ms[1..])
    else if latest == Some(ms[0].payload) then Acts(codec, topics, latest, m, sizeLimit, ms[1..])
    else
      var es := Announcements(codec, [ms[0].payload]);
      SubscribeTo(SubscribedTo(m, es, sizeLimit))
      + Acts(codec, topics, Some(ms[0].payload), HeardAll(m, es), sizeLimit, ms[1..])
  }

  /** The payloads received on other topics. */
  ghost function ForeignPayloads(topics: set<string>, ms: seq<Message>): seq<string> {
    if ms == [] then []
    else (if ms[0].Received? && ms[0].topic !in topics then [ms[0].payload] else []) + ForeignPayloads(topics, ms[1..])
  }

  lemma {:induction false} ForeignIn(topics: set<string>, ms: seq<Message>, payload: string)
    ensures payload in ForeignPayloads(topics, ms) <==>
            exists i :: 0 <= i < |ms| && ms[i].Received? && ms[i].topic !in topics && ms[i].payload == payload
  {
    if ms == [] {
    } else {
      var rest := ms[1..];
      ForeignIn(topics, rest, payload);
      assert forall i :: 0 <= i < |rest| ==> rest[i] == ms[i + 1];
      if i :| 0 <= i < |ms| && ms[i].Received? && ms[i].topic !in topics && ms[i].payload == payload {
        assert i > 0 ==> rest[i - 1] == ms[i];
      }
    }
  }

  ghost function TasksOf(codec: Codec, ps: seq<string>): seq<string> {
    seq(|ps|, i requires 0 <= i < |ps| => codec.task(ps[i]))
  }

  lemma OneOperation(t: string)
    ensures Unsubscribes([Unsubscribe(t)]) == [t] && Subscribes([Unsubscribe(t)]) == []
  {
  }

  lemma NothingHeard(m: Memory, sizeLimit: nat)
    ensures HeardAll(m, []) == m && SubscribedTo(m, [], sizeLimit) == []
  {
  }

  lemma NextMessage(codec: Codec, topics: set<string>, ms: seq<Message>, i: nat, latest: Option<string>,
                    next: seq<Announcement>)
    requires i < |ms|
    requires next == if ms[i].Received? && ms[i].topic in topics && latest != Some(ms[i].payload)
                     then Announcements(codec, [ms[i].payload]) else []
    ensures Announcements(codec, Destuttered(latest, Payloads(topics, ms[i..])))
         == next
            + Announcements(codec, Destuttered(if ms[i].Received? && ms[i].topic in topics then Some(ms[i].payload)
                                               else latest,
                                               Payloads(topics, ms[i + 1..])))
    ensures Newest(latest, Payloads(topics, ms[i..]))
         == Newest(if ms[i].Received? && ms[i].topic in topics then Some(ms[i].payload) else latest,
                   Payloads(topics, ms[i + 1..]))
  {
    var m, rest := ms[i], Payloads(topics, ms[i + 1..]);
    assert ms[i..][0] == m && ms[i..][1..] == ms[i + 1..];
    if m.Received? && m.topic in topics {
      var p := m.payload;
      assert Payloads(topics, ms[i..]) == [p] + rest;
      assert ([p] + rest)[0] == p && ([p] + rest)[1..] == rest;
      var later := Destuttered(Some(p), rest);
      if latest != Some(p) {
        assert Destuttered(latest, [p] + rest) == [p] + later;
        assert ([p] + later)[0] == p && ([p] + later)[1..] == later;
        assert [p][1..] == [] && Announcements(codec, []) == [];
      }
    } else {
      assert Payloads(topics, ms[i..]) == rest;
    }
  }

  lemma NoMoreMessages(codec: Codec, topics: set<string>, ms: seq<Message>, latest: Option<string>)
    requires ms == []
    ensures Announcements(codec, Destuttered(latest, Payloads(topics, ms))) == []
    ensures Newest(latest, Payloads(topics, ms)) == latest
  {
  }

  lemma ForeignNext(codec: Codec, topics: set<string>, ms: seq<Message>)
    ensures TasksOf(codec, ForeignPayloads(topics, ms))
            == if ms == [] then []
               else (if ms[0].Received? && ms[0].topic !in topics then [codec.task(ms[0].payload)] else [])
                    + TasksOf(codec, ForeignPayloads(topics, ms[1..]))
  {
  }

  lemma NextActs(codec: Codec, topics: set<string>, latest: Option<string>, m: Memory, sizeLimit: nat, ms: seq<Message>,
                 i: nat, next: seq<Announcement>)
    requires i < |ms|
    requires next == if ms[i].Received? && ms[i].topic in topics && latest != Some(ms[i].payload)
                     then Announcements(codec, [ms[i].payload]) else []
    ensures var own := ms[i].Received? && ms[i].topic in topics;
            Acts(codec, topics, latest, m, sizeLimit, ms[i..])
            == (if ms[i].Received? && !own then [Unsubscribe(codec.task(ms[i].payload))]
                else SubscribeTo(SubscribedTo(m, next, sizeLimit)))
               + Acts(codec, topics, if own then Some(ms[i].payload) else latest, HeardAll(m, next), sizeLimit,
                      ms[i + 1..])
    ensures SubscribeTo(SubscribedTo(m, [], sizeLimit)) == []
  {
    hide Announcements;
    assert ms[i..][0] == ms[i] && ms[i..][1..] == ms[i + 1..];
    NothingHeard(m, sizeLimit);
  }

  lemma NoMoreActs(codec: Codec, topics: set<string>, latest: Option<string>, m: Memory, sizeLimit: nat)
    ensures Acts(codec, topics, latest, m, sizeLimit, []) == []
  {
  }

  /** The worker unsubscribes from the task of every payload on a topic that is not its own, in order, and from nothing
      else; and it subscribes to what hearing its announcements calls for. */
  lemma {:induction false} ActsAre(codec: Codec, topics: set<string>, latest: Option<string>, m: Memory,
                                   sizeLimit: nat, ms: seq<Message>)
    ensures var ops := Acts(codec, topics, latest, m, sizeLimit, ms);
            && Unsubscribes(ops) == TasksOf(codec, ForeignPayloads(topics, ms))
            && Subscribes(ops)
               == SubscribedTo(m, Announcements(codec, Destuttered(latest, Payloads(topics, ms))), sizeLimit)
    decreases |ms|
  {
    hide Announcements, Destuttered, Payloads, HeardAll, SubscribedTo, Subscribes, Unsubscribes, SubscribeTo, Acts,
         TasksOf, ForeignPayloads;
    assert ms[0..] == ms;
    if ms == [] {
      NoMoreMessages(codec, topics, ms, latest);
      NoMoreActs(codec, topics, latest, m, sizeLimit);
      NothingHeard(m, sizeLimit);
      SubscribeToTopics([]);
      ForeignNext(codec, topics, ms);
    } else {
      var x := ms[0];
      var own := x.Received? && x.topic in topics;
      var next := if own && latest != Some(x.payload) then Announcements(codec, [x.payload]) else [];
      var latest' := if own then Some(x.payload) else latest;
      NextMessage(codec, topics, ms, 0, latest, next);
      NextActs(codec, topics, latest, m, sizeLimit, ms, 0, next);
      NothingHeard(m, sizeLimit);
      ActsAre(codec, topics, latest', HeardAll(m, next), sizeLimit, ms[1..]);
      HeardConcat(m, next, Announcements(codec, Destuttered(latest', Payloads(topics, ms[1..]))), sizeLimit);
      var now := if x.Received? && !own then [Unsubscribe(codec.task(x.payload))]
                 else SubscribeTo(SubscribedTo(m, next, sizeLimit));
      OperationsConcat(now, Acts(codec, topics, latest', HeardAll(m, next), sizeLimit, ms[1..]));
      SubscribeToTopics(SubscribedTo(m, next, sizeLimit));
      OneOperation(codec.task(if x.Received? then x.payload else ""));
      ForeignNext(codec, topics, ms);
    }
  }

  /** The operations of a run in two parts. */
  lemma {:induction false} ActsConcat(codec: Codec, topics: set<string>, latest: Option<string>, m: Memory,
                                      sizeLimit: nat, ms: seq<Message>, later: seq<Message>)
    ensures var m' := HeardAll(m, Announcements(codec, Destuttered(latest, Payloads(topics, ms))));
            Acts(codec, topics, latest, m, sizeLimit, ms + later)
            == Acts(codec, topics, latest, m, sizeLimit, ms)
               + Acts(codec, topics, Newest(latest, Payloads(topics, ms)), m', sizeLimit, later)
    decreases |ms|
  {
    hide Announcements, Destuttered, Payloads, HeardAll, SubscribedTo, SubscribeTo, Newest;
    if ms == [] {
      assert ms + later == later;
      NoMoreMessages(codec, topics, ms, latest);
      NothingHeard(m, sizeLimit);
    } else {
      var x := ms[0];
      var own := x.Received? && x.topic in topics;
      var next := if own && latest != Some(x.payload) then Announcements(codec, [x.payload]) else [];
      var latest' := if own then Some(x.payload) else latest;
      assert (ms + later)[0] == x && (ms + later)[1..] == ms[1..] + later && ms[0..] == ms;
      NextMessage(codec, topics, ms, 0, latest, next);
      NothingHeard(m, sizeLimit);
      ActsConcat(codec, topics, latest', HeardAll(m, next), sizeLimit, ms[1..], later);
      HeardConcat(m, next, Announcements(codec, Destuttered(latest', Payloads(topics, ms[1..]))), sizeLimit);
    }
  }

  lemma {:induction false} NotSubscribedAgain(m: Memory, es: seq<Announcement>, sizeLimit: nat, id: string)
    requires NeverClears(m, es) && forall e :: e in es && e.id == id ==> e.kind <= Recorded(m.history, id)
    ensures id !in SubscribedTo(m, es, sizeLimit)
    decreases |es|
  {
    if es == [] {
    } else {
      assert es[0] in es && forall e :: e in es[1..] ==> e in es;
      NotSubscribedAgain(Heard(m, es[0]), es[1..], sizeLimit, id);
    }
  }

  lemma {:induction false} NeverClearsSplit(m: Memory, a: seq<Announcement>, b: seq<Announcement>)
    requires NeverClears(m, a + b)
    ensures NeverClears(m, a) && NeverClears(HeardAll(m, a), b)
    decreases |a|
  {
    if a == [] {
      assert a + b == b;
    } else {
      assert (a + b)[0] == a[0] && (a + b)[1..] == a[1..] + b;
      NeverClearsSplit(Heard(m, a[0]), a[1..], b);
    }
  }

  lemma {:induction false} OnlyUnsubscribed(ops: seq<Operation>, id: string)
    requires id !in Subscribes(ops)
    ensures LastOn(ops, id).Some? ==> LastOn(ops, id) == Some(Unsubscribe(id))
    ensures LastOn([Unsubscribe(id)], id) == Some(Unsubscribe(id))
  {
    if ops != [] {
      OnlyUnsubscribed(ops[..|ops| - 1], id);
    }
  }

  lemma TaskFirst(codec: Codec, topics: set<string>, latest: Option<string>, m: Memory, sizeLimit: nat, task: Message,
                  later: seq<Message>)
    requires task.Received? && task.topic !in topics
    ensures Acts(codec, topics, latest, m, sizeLimit, [task] + later)
            == [Unsubscribe(codec.task(task.payload))] + Acts(codec, topics, latest, m, sizeLimit, later)
    ensures Announcements(codec, Destuttered(latest, Payloads(topics, [task] + later)))
            == Announcements(codec, Destuttered(latest, Payloads(topics, later)))
  {
    hide Announcements, Destuttered;
    assert ([task] + later)[0] == task && ([task] + later)[1..] == later;
    assert Payloads(topics, [task] + later) == Payloads(topics, later);
  }

  /** A worker that is started again goes on where it was: what two runs hear is what one run over all their messages
      hears. */
  lemma {:induction false} WorkerResumes(codec: Codec, topics: set<string>, ms: seq<Message>, later: seq<Message>,
                                         latest: Option<string>)
    ensures Announcements(codec, Destuttered(latest, Payloads(topics, ms + later)))
         == Announcements(codec, Destuttered(latest, Payloads(topics, ms)))
            + Announcements(codec, Destuttered(Newest(latest, Payloads(topics, ms)), Payloads(topics, later)))
    ensures Newest(latest, Payloads(topics, ms + later))
         == Newest(Newest(latest, Payloads(topics, ms)), Payloads(topics, later))
  {
    hide Announcements, Destuttered, Payloads, Newest;
    if ms == [] {
      assert ms + later == later;
      NoMoreMessages(codec, topics, ms, latest);
    } else {
      var m := ms[0];
      var own := m.Received? && m.topic in topics;
      var next := if own && latest != Some(m.payload) then Announcements(codec, [m.payload]) else [];
      assert (ms + later)[0] == m && (ms + later)[0..] == ms + later && (ms + later)[1..] == ms[1..] + later;
      assert ms[0..] == ms;
      NextMessage(codec, topics, ms + later, 0, latest, next);
      NextMessage(codec, topics, ms, 0, latest, next);
      WorkerResumes(codec, topics, ms[1..], later, if own then Some(m.payload) else latest);
    }
  }

  /** Once the task itself has come in, the agent is no longer subscribed to it: whatever comes later, the last
      operation on its topic is an unsubscribe, as long as no greater type is announced and the history is not
      cleared. */
  lemma TaskEndsSubscription(codec: Codec, topics: set<string>, latest: Option<string>, m: Memory, sizeLimit: nat,
                             before: seq<Message>, task: Message, later: seq<Message>, id: string)
    requires task.Received? && task.topic !in topics && codec.task(task.payload) == id
    requires var es := Announcements(codec, Destuttered(latest, Payloads(topics, before)));
             var all := Announcements(codec, Destuttered(latest, Payloads(topics, before + [task] + later)));
             && NeverClears(m, all)
             && forall e :: e in all && e.id == id ==> e.kind <= Recorded(HeardAll(m, es).history, id)
    ensures LastOn(Acts(codec, topics, latest, m, sizeLimit, before + [task] + later), id) == Some(Unsubscribe(id))
  {
    hide Announcements, Destuttered, Payloads, HeardAll, SubscribedTo, Subscribes, Newest, LastOn, NeverClears, Acts,
         Recorded;
    var es := Announcements(codec, Destuttered(latest, Payloads(topics, before)));
    var m', latest' := HeardAll(m, es), Newest(latest, Payloads(topics, before));
    var rest := [task] + later;
    assert before + [task] + later == before + rest;
    ActsConcat(codec, topics, latest, m, sizeLimit, before, rest);
    WorkerResumes(codec, topics, before, rest, latest);
    var es' := Announcements(codec, Destuttered(latest', Payloads(topics, rest)));
    NeverClearsSplit(m, es, es');
    assert forall e :: e in es' ==> e in es + es';
    TaskFirst(codec, topics, latest', m', sizeLimit, task, later);
    NotSubscribedAgain(m', es', sizeLimit, id);
    var acts := Acts(codec, topics, latest', m', sizeLimit, later);
    ActsAre(codec, topics, latest', m', sizeLimit, later);
    OnlyUnsubscribed(acts, id);
    OperationsConcat([Unsubscribe(id)], acts);
    OperationsConcat(Acts(codec, topics, latest, m, sizeLimit, before), [Unsubscribe(id)] + acts);
  }

  /** The announcement that was handled last, if the last request was one, would be dropped now. */
  ghost predicate LatestHeard(codec: Codec, m: Memory, latest: Option<string>) {
    latest.Some? && codec.request(latest.value).Announce? ==> Drops(m, codec.request(latest.value).announcement)
  }

  lemma HandledIsHeard(codec: Codec, m: Memory, p: string)
    ensures LatestHeard(codec, HeardAll(m, Announcements(codec, [p])), Some(p))
  {
    assert [p][1..] == [];
    if codec.request(p).Announce? {
      var a := codec.request(p).announcement;
      assert Announcements(codec, [p]) == [a] && [a][1..] == [];
      assert HeardAll(m, [a]) == HeardAll(Heard(m, a), []) == Heard(m, a);
    }
  }

  lemma PayloadsNext(topics: set<string>, ms: seq<Message>, i: nat)
    requires i < |ms|
    ensures var own := ms[i].Received? && ms[i].topic in topics;
            Payloads(topics, ms[i..]) == (if own then [ms[i].payload] + Payloads(topics, ms[i + 1..])
                                          else Payloads(topics, ms[i + 1..]))
  {
    assert ms[i..][0] == ms[i] && ms[i..][1..] == ms[i + 1..];
  }

  lemma NoPayloads(topics: set<string>, ms: seq<Message>)
    requires ms == []
    ensures Payloads(topics, ms) == []
  {
  }

  lemma NextHandled(topics: set<string>, ms: seq<Message>, i: nat, latest: Option<string>)
    requires i <= |ms|
    ensures i == |ms| ==> Destuttered(latest, Payloads(topics, ms[i..])) == []
    ensures i < |ms| ==>
              var own := ms[i].Received? && ms[i].topic in topics;
              Destuttered(latest, Payloads(topics, ms[i..]))
              == (if own && latest != Some(ms[i].payload) then [ms[i].payload] else [])
                 + Destuttered(if own then Some(ms[i].payload) else latest, Payloads(topics, ms[i + 1..]))
  {
    hide Payloads;
    if i < |ms| {
      PayloadsNext(topics, ms, i);
      var p, rest := if ms[i].Received? then ms[i].payload else "", Payloads(topics, ms[i + 1..]);
      assert ([p] + rest)[0] == p && ([p] + rest)[1..] == rest;
    } else {
      NoPayloads(topics, ms[i..]);
    }
  }

  class Agent {
    const codec: Codec
    const id: string
    const tags: seq<string>
    const sizeLimit: nat             // half of the device's memory
    var history: History             // TaskHistory
    var latest: Option<string>      // latestMessageChecksum
    var operations: seq<Operation>   // what went to the operation channel after the start
    ghost var accepted: seq<Announcement>
    ghost var handled: seq<string>   // the payloads given to handleRequest

    ghost function Mem(): Memory
      reads this
    {
      Memory(history, accepted)
    }

    constructor (codec: Codec, id: string, tags: seq<string>, history: History, sizeLimit: nat)
      ensures this.codec == codec && this.id == id && this.tags == tags && this.sizeLimit == sizeLimit
      ensures Mem() == Memory(history, []) && latest == None && operations == [] && LatestHeard(codec, Mem(), latest)
    {
      this.codec, this.id, this.tags, this.history, this.sizeLimit := codec, id, tags, history, sizeLimit;
      latest, operations, accepted, handled := None, [], [], [];
    }

    method HandleAnnouncement(a: Announcement)
      modifies this`history, this`operations, this`accepted
      ensures Mem() == Heard(old(Mem()), a)
      ensures operations == old(operations) + SubscribeTo(SubscribedTo(old(Mem()), [a], sizeLimit))
    {
      if Recorded(history, a.id) >= a.kind {
        return;
      }
      if |history| >= HISTORY_LIMIT {
        history := map[];
        accepted := [];
      }
      history := history[a.id := a.kind];
      accepted := accepted + [a];
      if ToUint64(a.size) <= sizeLimit {
        operations := operations + [Subscribe(a.id)];
      }
    }

    /** `handleRequest`, as far as announcements go. */
    method HandleRequest(p: string)
      modifies this`history, this`operations, this`accepted, this`handled
      ensures handled == old(handled) + [p]
      ensures Mem() == HeardAll(old(Mem()), Announcements(codec, [p]))
      ensures operations
              == old(operations) + SubscribeTo(SubscribedTo(old(Mem()), Announcements(codec, [p]), sizeLimit))
    {
      handled := handled + [p];
      assert [p][1..] == [];
      match codec.request(p)
      case Announce(a) =>
        assert Announcements(codec, [p]) == [a] && [a][1..] == [];
        HandleAnnouncement(a);
      case LogRequest(_) =>
      case Command(_) =>
      case StopAll =>
      case Invalid =>
    }

    /** `handleTask`: the agent stops listening for the task it received. */
    method HandleTask(task: string)
      modifies this`operations
      ensures operations == old(operations) + [Unsubscribe(task)]
    {
      operations := operations + [Unsubscribe(task)];
    }

    /** `startWorker` over any run of messages, each handled to its end: what was heard is the announcements among
        the payloads on the agent's own topics, after runs of equal payloads are reduced to one; and the agent
        subscribes and unsubscribes as the messages say, in their order. */
    method StartWorker(messages: seq<Message>)
      modifies this`history, this`operations, this`accepted, this`latest, this`handled
      ensures handled == old(handled) + Destuttered(old(latest), Payloads(Routing.Subscriptions(id, tags), messages))
      ensures var topics := Routing.Subscriptions(id, tags);
              var es := Announcements(codec, Destuttered(old(latest), Payloads(topics, messages)));
              && Mem() == HeardAll(old(Mem()), es)
              && Subscribes(operations) == Subscribes(old(operations)) + SubscribedTo(old(Mem()), es, sizeLimit)
              && Unsubscribes(operations)
                 == Unsubscribes(old(operations)) + TasksOf(codec, ForeignPayloads(topics, messages))
              && operations == old(operations) + Acts(codec, topics, old(latest), old(Mem()), sizeLimit, messages)
      ensures latest == Newest(old(latest), Payloads(Routing.Subscriptions(id, tags), messages))
      ensures old(LatestHeard(codec, Mem(), latest)) ==> LatestHeard(codec, Mem(), latest)
    {
      hide Heard, HeardAll, SubscribedTo, Subscribes, Unsubscribes, SubscribeTo, Announcements, Destuttered, Payloads,
           Drops, LatestHeard, Newest, Acts;
      var topics := Routing.Subscriptions(id, tags);
      ghost var all := Announcements(codec, Destuttered(latest, Payloads(topics, messages)));
      ghost var acts := Acts(codec, topics, latest, Mem(), sizeLimit, messages);
      ghost var done: seq<Announcement> := [];
      NothingHeard(Mem(), sizeLimit);
      assert messages[0..] == messages;
      var i := 0;
      while i < |messages|
        invariant 0 <= i <= |messages|
        invariant all == done + Announcements(codec, Destuttered(latest, Payloads(topics, messages[i..])))
        invariant Newest(latest, Payloads(topics, messages[i..])) == Newest(old(latest), Payloads(topics, messages))
        invariant old(handled) + Destuttered(old(latest), Payloads(topics, messages))
                  == handled + Destuttered(latest, Payloads(topics, messages[i..]))
        invariant Mem() == HeardAll(old(Mem()), done)
        invariant old(LatestHeard(codec, Mem(), latest)) ==> LatestHeard(codec, Mem(), latest)
        invariant old(operations) + acts
                  == operations + Acts(codec, topics, latest, Mem(), sizeLimit, messages[i..])
      {
        ghost var next := if messages[i].Received? && messages[i].topic in topics && latest != Some(messages[i].payload)
                          then Announcements(codec, [messages[i].payload]) else [];
        NextMessage(codec, topics, messages, i, latest, next);
        NextActs(codec, topics, latest, Mem(), sizeLimit, messages, i, next);
        NextHandled(topics, messages, i, latest);
        HeardConcat(old(Mem()), done, next, sizeLimit);
        NothingHeard(Mem(), sizeLimit);
        match messages[i] {
          case Connected =>
          case Disconnected =>
          case Received(topic, payload) =>
            if topic in topics {
              if latest != Some(payload) {
                ghost var before := Mem();
                HandleRequest(payload);
                latest := Some(payload);
                HandledIsHeard(codec, before, payload);
              }
            } else {
              HandleTask(codec.task(payload));
            }
        }
        done := done + next;
        i := i + 1;
      }
      NoMoreMessages(codec, topics, messages[|messages|..], latest);
      NextHandled(topics, messages, i, latest);
      NoMoreActs(codec, topics, latest, Mem(), sizeLimit);
      assert all == done && operations == old(operations) + acts;
      ActsAre(codec, topics, old(latest), old(Mem()), sizeLimit, messages);
      OperationsConcat(old(operations), acts);
    }
  }
}
