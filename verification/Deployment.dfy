/** Manager, network and agent together: who hears of a task, how often, and with what effect. */
module Deployment {
  import opened Common
  import Agent
  import Routing
  import SendTask

  // ----- what comes in at an agent

  /** What happens at an agent's socket: the connection changes, or a frame passes by, while the socket holds some
      subscriptions. Frames of the run of sendTask that is looked at are `ours`; any others may come in between. */
  datatype Arrival = Pipe(up: bool) | Passing(frame: string, held: set<string>, ours: bool)

  /** The messages that one arrival puts into the worker's channel: a frame that some subscription receives is split. */
  ghost function MessagesOf(x: Arrival): seq<Agent.Message> {
    match x
    case Pipe(up) => [if up then Agent.Connected else Agent.Disconnected]
    case Passing(frame, held, _) =>
      if (exists s :: s in held && Routing.Receives(s, frame)) && Routing.SplitFrame(frame).Some? then
        [Agent.Received(Routing.SplitFrame(frame).value.0, Routing.SplitFrame(frame).value.1)]
      else []
  }

  ghost function Delivered(xs: seq<Arrival>): seq<Agent.Message> {
    if xs == [] then [] else MessagesOf(xs[0]) + Delivered(xs[1..])
  }

  /** The agent never gives up the subscriptions it started with. */
  ghost predicate KeepsOwn(own: set<string>, xs: seq<Arrival>) {
    forall i :: 0 <= i < |xs| && xs[i].Passing? ==> own <= xs[i].held
  }

  /** A frame passing by is one for the agent's own topics, with this payload. */
  predicate Brings(own: set<string>, x: Arrival, payload: string) {
    x.Passing? && Routing.SplitFrame(x.frame).Some?
    && Routing.SplitFrame(x.frame).value.0 in own && Routing.SplitFrame(x.frame).value.1 == payload
  }

  lemma {:induction false} PayloadsConcat(own: set<string>, a: seq<Agent.Message>, b: seq<Agent.Message>)
    ensures Agent.Payloads(own, a + b) == Agent.Payloads(own, a) + Agent.Payloads(own, b)
  {
    if a == [] {
      assert a + b == b;
    } else {
      assert (a + b)[0] == a[0] && (a + b)[1..] == a[1..] + b;
      PayloadsConcat(own, a[1..], b);
    }
  }

  lemma MessagePayloads(own: set<string>, x: Arrival, payload: string)
    requires x.Passing? ==> own <= x.held
    ensures payload in Agent.Payloads(own, MessagesOf(x)) <==> Brings(own, x, payload)
  {
    if x.Passing? && Routing.SplitFrame(x.frame).Some? {
      var topic := Routing.SplitFrame(x.frame).value.0;
      var i := IndexOf(x.frame, Routing.TOPIC_SEPARATOR);
      assert topic + [Routing.TOPIC_SEPARATOR] == x.frame[..i + 1];
      assert Routing.Receives(topic, x.frame);
    }
    var ms := MessagesOf(x);
    assert ms != [] ==> ms[1..] == [];
  }

  /** The payloads that the worker finds on the agent's own topics are those brought to them, whatever else the agent
      subscribes to. */
  lemma {:induction false} OwnPayloads(own: set<string>, xs: seq<Arrival>, payload: string)
    requires KeepsOwn(own, xs)
    ensures payload in Agent.Payloads(own, Delivered(xs)) <==> exists i :: 0 <= i < |xs| && Brings(own, xs[i], payload)
  {
    if xs == [] {
    } else {
      var rest := xs[1..];
      assert forall i :: 0 <= i < |rest| ==> rest[i] == xs[i + 1];
      OwnPayloads(own, rest, payload);
      MessagePayloads(own, xs[0], payload);
      PayloadsConcat(own, MessagesOf(xs[0]), Delivered(rest));
      if i :| 0 <= i < |xs| && Brings(own, xs[i], payload) {
        assert i > 0 ==> rest[i - 1] == xs[i];
      }
    }
  }

  /** What is published to the topic for all comes in at every agent, as a request. */
  lemma AllIsARequest(id: string, tags: seq<string>, x: Arrival, payload: string)
    requires x.Passing? && x.frame == Routing.Frame("ALL", payload) && Routing.Subscriptions(id, tags) <= x.held
    ensures MessagesOf(x) == [Agent.Received("ALL", payload)]
    ensures Agent.Payloads(Routing.Subscriptions(id, tags), MessagesOf(x)) == [payload]
  {
    Routing.SplitUndoesFrame("ALL", payload);
    Routing.ReceivesOwn("ALL", payload);
    assert Routing.REQUEST_TARGET_ALL in Routing.Subscriptions(id, tags);
    assert [Agent.Received("ALL", payload)][1..] == [];
    assert Agent.Payloads(Routing.Subscriptions(id, tags), []) == [];
  }

  // ----- what a run of sendTask puts on the wire

  /** The frames of a run, of which ann is the announcement and body the task itself. */
  ghost function Wire(sent: seq<SendTask.Action>, ann: string, body: string): seq<string> {
    if sent == [] then []
    else
      (match sent[0]
       case Announce(topic) => [Routing.Frame(topic, ann)]
       case SendTaskTo(topic) => [Routing.Frame(topic, body)]
       case _ => [])
      + Wire(sent[1..], ann, body)
  }

  ghost function Ours(xs: seq<Arrival>): seq<string> {
    if xs == [] then [] else (if xs[0].Passing? && xs[0].ours then [xs[0].frame] else []) + Ours(xs[1..])
  }

  lemma {:induction false} OursIn(xs: seq<Arrival>, frame: string)
    ensures frame in Ours(xs) <==> exists i :: 0 <= i < |xs| && xs[i].Passing? && xs[i].ours && xs[i].frame == frame
  {
    if xs == [] {
    } else {
      OursIn(xs[1..], frame);
      assert forall i :: 0 <= i < |xs| - 1 ==> xs[1..][i] == xs[i + 1];
      if i :| 0 <= i < |xs| && xs[i].Passing? && xs[i].ours && xs[i].frame == frame {
        assert i > 0 ==> xs[1..][i - 1] == xs[i];
      }
    }
  }

  lemma {:induction false} WireIn(sent: seq<SendTask.Action>, ann: string, body: string, frame: string)
    ensures frame in Wire(sent, ann, body) <==>
            exists i :: 0 <= i < |sent| && ((sent[i].Announce? && frame == Routing.Frame(sent[i].topic, ann))
                                            || (sent[i].SendTaskTo? && frame == Routing.Frame(sent[i].topic, body)))
  {
    if sent == [] {
    } else {
      WireIn(sent[1..], ann, body, frame);
      assert forall i :: 0 <= i < |sent| - 1 ==> sent[1..][i] == sent[i + 1];
      if i :| 0 <= i < |sent| && ((sent[i].Announce? && frame == Routing.Frame(sent[i].topic, ann))
                                  || (sent[i].SendTaskTo? && frame == Routing.Frame(sent[i].topic, body))) {
        assert i > 0 ==> sent[1..][i - 1] == sent[i];
      }
    }
  }

  lemma AttemptSends(topics: seq<string>, task: string, action: SendTask.Action)
    ensures action in SendTask.OneAttempt(topics, task) <==>
            || action == SendTask.SendTaskTo(task)
            || exists i :: 0 <= i < |topics| && action == SendTask.Announce(topics[i])
  {
    var one := SendTask.OneAttempt(topics, task);
    assert one[|topics|] == SendTask.SendTaskTo(task);
    assert forall i :: 0 <= i < |topics| ==> one[i] == SendTask.Announce(topics[i]);
  }

  lemma {:induction false} AttemptsSend(topics: seq<string>, task: string, n: nat, action: SendTask.Action)
    requires n > 0
    ensures action in SendTask.ManyAttempts(topics, task, n) <==> action in SendTask.OneAttempt(topics, task)
  {
    hide SendTask.OneAttempt;
    if n == 1 {
      assert SendTask.ManyAttempts(topics, task, 0) == [];
    } else {
      AttemptsSend(topics, task, n - 1, action);
    }
  }

  /** However many attempts, the frames of a run are the announcement on each topic, and the task on its own. */
  lemma RunFrames(topics: seq<string>, task: string, n: nat, ann: string, body: string, frame: string)
    requires n > 0
    ensures frame in Wire(SendTask.ManyAttempts(topics, task, n), ann, body) <==>
            || frame == Routing.Frame(task, body)
            || exists i :: 0 <= i < |topics| && frame == Routing.Frame(topics[i], ann)
  {
    hide SendTask.OneAttempt, SendTask.ManyAttempts, Wire, Routing.Frame;
    var sent := SendTask.ManyAttempts(topics, task, n);
    WireIn(sent, ann, body, frame);
    forall action
      ensures action in sent <==>
              || action == SendTask.SendTaskTo(task)
              || exists i :: 0 <= i < |topics| && action == SendTask.Announce(topics[i])
    {
      AttemptsSend(topics, task, n, action);
      AttemptSends(topics, task, action);
    }
    assert SendTask.SendTaskTo(task) in sent && forall i :: 0 <= i < |topics| ==> SendTask.Announce(topics[i]) in sent;
    assert forall i :: 0 <= i < |sent| ==> sent[i] in sent;
  }

  // ----- from payloads to announcements heard

  lemma {:induction false} DestutteredIn(latest: Option<string>, ps: seq<string>, p: string)
    ensures p in Agent.Destuttered(latest, ps) ==> p in ps
    ensures p in ps && latest != Some(p) ==> p in Agent.Destuttered(latest, ps)
    decreases |ps|
  {
    if ps == [] {
    } else {
      DestutteredIn(latest, ps[1..], p);
      DestutteredIn(Some(ps[0]), ps[1..], p);
    }
  }

  lemma {:induction false} AnnouncementsIn(codec: Agent.Codec, ps: seq<string>, e: Agent.Announcement)
    ensures e in Agent.Announcements(codec, ps) <==> exists p :: p in ps && codec.request(p) == Agent.Announce(e)
  {
    if ps == [] {
    } else {
      AnnouncementsIn(codec, ps[1..], e);
      assert forall p :: p in ps <==> p == ps[0] || p in ps[1..];
    }
  }

  /** What the worker of an agent with the given own topics hears of what comes in. */
  ghost function HeardOf(codec: Agent.Codec, own: set<string>, latest: Option<string>,
                         xs: seq<Arrival>): seq<Agent.Announcement> {
    Agent.Announcements(codec, Agent.Destuttered(latest, Agent.Payloads(own, Delivered(xs))))
  }

  ghost predicate Carries(codec: Agent.Codec, payload: string, a: Agent.Announcement) {
    codec.request(payload).Announce? && Agent.Same(codec.request(payload).announcement, a)
  }

  /** Nothing but our run brings an announcement of this task and type. */
  ghost predicate OnlyOurs(codec: Agent.Codec, own: set<string>, xs: seq<Arrival>, a: Agent.Announcement) {
    forall i, payload :: 0 <= i < |xs| && Brings(own, xs[i], payload) && Carries(codec, payload, a) ==> xs[i].ours
  }

  /** All frames of the run pass by the agent, in order, among any others, and it alone announces a. */
  ghost predicate RunPasses(codec: Agent.Codec, own: set<string>, xs: seq<Arrival>, topics: seq<string>, attempts: nat,
                            a: Agent.Announcement, ann: string, body: string) {
    && attempts > 0
    && codec.request(ann) == Agent.Announce(a) && !Carries(codec, body, a)
    && Routing.ColonFree(a.id) && (forall i :: 0 <= i < |topics| ==> Routing.ColonFree(topics[i]))
    && Ours(xs) == Wire(SendTask.ManyAttempts(topics, a.id, attempts), ann, body)
    && KeepsOwn(own, xs) && OnlyOurs(codec, own, xs, a)
  }

  /** Only the announcement itself carries a to the agent's own topics, and it gets there exactly if it is published to
      one of them. */
  lemma RunBrings(codec: Agent.Codec, own: set<string>, xs: seq<Arrival>, topics: seq<string>, attempts: nat,
                  a: Agent.Announcement, ann: string, body: string, payload: string)
    requires RunPasses(codec, own, xs, topics, attempts, a, ann, body) && Carries(codec, payload, a)
    ensures payload in Agent.Payloads(own, Delivered(xs))
            <==> payload == ann && exists k :: 0 <= k < |topics| && topics[k] in own
  {
    hide Carries, Routing.SplitFrame, Routing.Frame, Routing.ColonFree, Wire;
    OwnPayloads(own, xs, payload);
    if i :| 0 <= i < |xs| && Brings(own, xs[i], payload) {
      var frame := xs[i].frame;
      OursIn(xs, frame);
      RunFrames(topics, a.id, attempts, ann, body, frame);
      if frame == Routing.Frame(a.id, body) {
        Routing.SplitUndoesFrame(a.id, body);
        assert false;
      }
      var k :| 0 <= k < |topics| && frame == Routing.Frame(topics[k], ann);
      Routing.SplitUndoesFrame(topics[k], ann);
      assert payload == ann && topics[k] in own;
    }
    if payload == ann && exists k :: 0 <= k < |topics| && topics[k] in own {
      var k :| 0 <= k < |topics| && topics[k] in own;
      var frame := Routing.Frame(topics[k], ann);
      RunFrames(topics, a.id, attempts, ann, body, frame);
      OursIn(xs, frame);
      var i :| 0 <= i < |xs| && xs[i].Passing? && xs[i].ours && xs[i].frame == frame;
      Routing.SplitUndoesFrame(topics[k], ann);
      assert Brings(own, xs[i], payload);
    }
  }

  lemma AnnParses(codec: Agent.Codec, own: set<string>, xs: seq<Arrival>, topics: seq<string>,
                  attempts: nat, a: Agent.Announcement, ann: string, body: string)
    requires RunPasses(codec, own, xs, topics, attempts, a, ann, body)
    ensures codec.request(ann) == Agent.Announce(a)
  {
  }

  /** The agent hears a exactly if it is published to one of its own topics, unless it was the last thing it heard; and
      whatever it hears of this task and type is a itself. */
  lemma RunHeard(codec: Agent.Codec, own: set<string>, latest: Option<string>, xs: seq<Arrival>, topics: seq<string>,
                 attempts: nat, a: Agent.Announcement, ann: string, body: string)
    requires RunPasses(codec, own, xs, topics, attempts, a, ann, body)
    ensures forall e :: e in HeardOf(codec, own, latest, xs) && Agent.Same(e, a) ==> e == a
    ensures Agent.Arrives(HeardOf(codec, own, latest, xs), a) ==> exists k :: 0 <= k < |topics| && topics[k] in own
    ensures latest != Some(ann) && (exists k :: 0 <= k < |topics| && topics[k] in own) ==>
              Agent.Arrives(HeardOf(codec, own, latest, xs), a)
  {
    hide RunPasses, Agent.Payloads, Agent.Destuttered, Agent.Announcements, Delivered;
    var all := Agent.Payloads(own, Delivered(xs));
    var ps := Agent.Destuttered(latest, all);
    var es := Agent.Announcements(codec, ps);
    AnnParses(codec, own, xs, topics, attempts, a, ann, body);
    forall e | e in es && Agent.Same(e, a) ensures e == a && exists k :: 0 <= k < |topics| && topics[k] in own {
      AnnouncementsIn(codec, ps, e);
      var p :| p in ps && codec.request(p) == Agent.Announce(e);
      DestutteredIn(latest, all, p);
      RunBrings(codec, own, xs, topics, attempts, a, ann, body, p);
    }
    if Agent.Arrives(es, a) {
      var i :| 0 <= i < |es| && Agent.Same(es[i], a);
      assert es[i] in es;
    }
    if latest != Some(ann) && exists k :: 0 <= k < |topics| && topics[k] in own {
      RunBrings(codec, own, xs, topics, attempts, a, ann, body, ann);
      DestutteredIn(latest, all, ann);
      AnnouncementsIn(codec, ps, a);
      var i :| 0 <= i < |es| && es[i] == a;
      assert Agent.Same(es[i], a);
    }
  }

  // ----- from the query to the agents

  lemma Listed(fleet: Routing.Fleet, ids: seq<string>, tags: seq<string>, hits: seq<Routing.Hit>, m: Routing.Match)
    requires Routing.Answers(fleet, ids, tags, hits) && Routing.Covers(hits, m)
    ensures m.Matched?
  {
  }

  lemma TopicsColonFree(fleet: Routing.Fleet, ids: seq<string>, tags: seq<string>, hits: seq<Routing.Hit>,
                        m: Routing.Match, topics: seq<string>)
    requires Routing.ColonFreeFleet(fleet)
    requires Routing.Answers(fleet, ids, tags, hits) && Routing.Covers(hits, m)
    requires Routing.TopicsOf(m.ids, m.tags, topics)
    ensures forall i :: 0 <= i < |topics| ==> Routing.ColonFree(topics[i])
  {
    hide Routing.Answers, Routing.Covers, Routing.TopicsOf, Routing.ColonFree, Routing.FormatTopicID,
         Routing.FormatTopicTag;
    Listed(fleet, ids, tags, hits, m);
    forall i | 0 <= i < |topics| ensures Routing.ColonFree(topics[i]) {
      Routing.TopicOfHit(fleet, ids, tags, hits, m, topics, i);
      if x :| x in fleet && x in m.allIDs && topics[i] == Routing.FormatTopicID(x) {
        Routing.TopicsApart(x, x);
      } else {
        var t, x :| x in fleet && t in fleet[x] && t in tags && topics[i] == Routing.FormatTopicTag(t);
        Routing.TopicsApart(t, t);
      }
    }
  }

  /** An agent is reached by the topics exactly when one of them is its own. */
  lemma ReachedOnOwn(fleet: Routing.Fleet, id: string, topics: seq<string>, payload: string)
    requires Routing.ColonFreeFleet(fleet) && id in fleet
    requires forall i :: 0 <= i < |topics| ==> Routing.ColonFree(topics[i])
    ensures Routing.Reached(fleet, id, topics, payload) <==>
            exists k :: 0 <= k < |topics| && topics[k] in Routing.Subscriptions(id, fleet[id])
  {
    hide Routing.Subscriptions, Routing.Receives, Routing.ColonFreeFleet, Routing.ColonFree, Routing.SplitFrame,
         Routing.Frame;
    forall i, s | 0 <= i < |topics| && s in Routing.Subscriptions(id, fleet[id])
      ensures Routing.Receives(s, Routing.Frame(topics[i], payload)) <==> s == topics[i]
    {
      Routing.SubscriptionsColonFree(fleet, id, s);
      Routing.ReceivesItsTopic(s, Routing.Frame(topics[i], payload));
      Routing.SplitUndoesFrame(topics[i], payload);
    }
    if k :| 0 <= k < |topics| && topics[k] in Routing.Subscriptions(id, fleet[id]) {
      assert Routing.Receives(topics[k], Routing.Frame(topics[k], payload));
    }
  }

  /** From a query to an agent. All frames of a run of sendTask pass by the agent among any other traffic, of which none
      announces the same task and type. As long as the agent's history is not cleared, it accepts the announcement
      once, if the query asked for it, the announcement would not be dropped before, and no announcement of the same
      task with a greater type overtakes it; and not at all otherwise. It subscribes once for each announcement
      accepted that fits. */
  lemma AnnouncedOnce(fleet: Routing.Fleet, ids: seq<string>, tags: seq<string>, hits: seq<Routing.Hit>,
                      m: Routing.Match, topics: seq<string>, attempts: nat, id: string, codec: Agent.Codec, ann: string,
                      body: string, a: Agent.Announcement, latest: Option<string>, memory: Agent.Memory,
                      xs: seq<Arrival>, sizeLimit: nat)
    requires Routing.ColonFreeFleet(fleet) && id in fleet
    requires Routing.Answers(fleet, ids, tags, hits) && Routing.Covers(hits, m)
    requires Routing.TopicsOf(m.ids, m.tags, topics)
    requires RunPasses(codec, Routing.Subscriptions(id, fleet[id]), xs, topics, attempts, a, ann, body)
    requires Agent.Sound(memory) && Agent.LatestHeard(codec, memory, latest)
    requires Agent.NeverClears(memory, HeardOf(codec, Routing.Subscriptions(id, fleet[id]), latest, xs))
    ensures var es := HeardOf(codec, Routing.Subscriptions(id, fleet[id]), latest, xs);
            var all := Agent.HeardAll(memory, es).accepted;
            && memory.accepted <= all
            && Agent.CountOf(all[|memory.accepted|..], a)
               == (if Routing.Asked(fleet, ids, tags, id) && !Agent.Drops(memory, a) && !Agent.Overtaken(es, a) then 1
                   else 0)
            && (forall e :: e in es && Agent.Same(e, a) ==> e == a)
            && Agent.SubscribedTo(memory, es, sizeLimit) == Agent.Fitting(all[|memory.accepted|..], sizeLimit)
  {
    hide Routing.Answers, Routing.Covers, Routing.TopicsOf, Routing.ColonFreeFleet, Routing.Asked, Routing.Reached,
         Routing.Subscriptions, RunPasses, HeardOf, Agent.Sound, Agent.NeverClears, Agent.HeardAll, Agent.Overtaken,
         Agent.Arrives, Agent.SubscribedTo, Agent.Fitting, Agent.CountOf;
    var own := Routing.Subscriptions(id, fleet[id]);
    var es := HeardOf(codec, own, latest, xs);
    Listed(fleet, ids, tags, hits, m);
    TopicsColonFree(fleet, ids, tags, hits, m, topics);
    ReachedOnOwn(fleet, id, topics, ann);
    Routing.ColonFreeSeparate(fleet);
    Routing.RoutingIsExact(fleet, ids, tags, hits, m, topics, ann, id);
    RunHeard(codec, own, latest, xs, topics, attempts, a, ann, body);
    AnnParses(codec, own, xs, topics, attempts, a, ann, body);
    Agent.AcceptedOnce(memory, es, a);
    Agent.SubscribedOnce(memory, es, sizeLimit);
  }

  lemma {:induction false} DeliveredConcat(xs: seq<Arrival>, ys: seq<Arrival>)
    ensures Delivered(xs + ys) == Delivered(xs) + Delivered(ys)
  {
    if xs == [] {
      assert xs + ys == ys;
    } else {
      assert (xs + ys)[0] == xs[0] && (xs + ys)[1..] == xs[1..] + ys;
      DeliveredConcat(xs[1..], ys);
      assert MessagesOf(xs[0]) + (Delivered(xs[1..]) + Delivered(ys))
          == MessagesOf(xs[0]) + Delivered(xs[1..]) + Delivered(ys);
    }
  }

  /** The task itself passes by while the agent is subscribed to it. */
  ghost predicate TaskPasses(own: set<string>, x: Arrival, id: string, body: string) {
    x.Passing? && x.frame == Routing.Frame(id, body) && id in x.held && id !in own && Routing.ColonFree(id)
  }

  lemma TaskMessage(own: set<string>, x: Arrival, id: string, body: string)
    requires TaskPasses(own, x, id, body)
    ensures MessagesOf(x) == [Agent.Received(id, body)]
  {
    Routing.SplitUndoesFrame(id, body);
    Routing.ReceivesOwn(id, body);
  }

  /** Once a's payload was brought to the agent, a is recorded, or one of a greater type. */
  lemma BroughtIsHeard(codec: Agent.Codec, own: set<string>, latest: Option<string>, memory: Agent.Memory,
                       xs: seq<Arrival>, j: nat, i: nat, a: Agent.Announcement, ann: string)
    requires KeepsOwn(own, xs) && j < i <= |xs| && Brings(own, xs[j], ann) && codec.request(ann) == Agent.Announce(a)
    requires Agent.LatestHeard(codec, memory, latest)
    requires Agent.NeverClears(memory, HeardOf(codec, own, latest, xs[..i]))
    ensures Agent.Drops(Agent.HeardAll(memory, HeardOf(codec, own, latest, xs[..i])), a)
  {
    hide Agent.Payloads, Agent.Destuttered, Agent.Announcements, Delivered, Agent.HeardAll, Agent.NeverClears;
    var ys := xs[..i];
    var all := Agent.Payloads(own, Delivered(ys));
    var es := HeardOf(codec, own, latest, ys);
    assert ys[j] == xs[j];
    OwnPayloads(own, ys, ann);
    if latest == Some(ann) {
      Agent.RecordedGrows(memory, es, a.id);
    } else {
      DestutteredIn(latest, all, ann);
      AnnouncementsIn(codec, Agent.Destuttered(latest, all), a);
      Agent.HeardIsRecorded(memory, es, a);
    }
  }

  lemma OneDelivered(x: Arrival)
    ensures Delivered([x]) == MessagesOf(x)
  {
    assert Delivered([x]) == MessagesOf(x) + Delivered([]);
  }

  lemma NotOwn(own: set<string>, x: Arrival, id: string, body: string)
    requires TaskPasses(own, x, id, body)
    ensures id !in own
  {
  }

  /** When the task has come in, the agent's last operation on its topic is to unsubscribe, whatever passes by later, if
      nothing of a greater type is announced for it. */
  lemma TaskUnsubscribes(codec: Agent.Codec, own: set<string>, latest: Option<string>, memory: Agent.Memory,
                         sizeLimit: nat, xs: seq<Arrival>, j: nat, i: nat, a: Agent.Announcement, ann: string,
                         body: string)
    requires KeepsOwn(own, xs) && j < i < |xs| && Brings(own, xs[j], ann) && codec.request(ann) == Agent.Announce(a)
    requires TaskPasses(own, xs[i], a.id, body) && codec.task(body) == a.id
    requires Agent.LatestHeard(codec, memory, latest)
    requires var es := HeardOf(codec, own, latest, xs);
             Agent.NeverClears(memory, es) && forall e :: e in es && e.id == a.id ==> e.kind <= a.kind
    ensures Agent.LastOn(Agent.Acts(codec, own, latest, memory, sizeLimit, Delivered(xs)), a.id)
            == Some(Agent.Unsubscribe(a.id))
  {
    hide Agent.Payloads, Agent.Destuttered, Agent.Announcements, Delivered, Agent.HeardAll, Agent.NeverClears,
         Agent.LastOn, Agent.Acts, TaskPasses, Brings;
    var before, later := xs[..i], xs[i + 1..];
    assert xs == before + [xs[i]] + later;
    TaskMessage(own, xs[i], a.id, body);
    OneDelivered(xs[i]);
    DeliveredConcat(before, [xs[i]]);
    DeliveredConcat(before + [xs[i]], later);
    var task := Agent.Received(a.id, body);
    assert Delivered(xs) == Delivered(before) + [task] + Delivered(later);
    Agent.WorkerResumes(codec, own, Delivered(before), [task] + Delivered(later), latest);
    assert Delivered(before) + ([task] + Delivered(later)) == Delivered(xs);
    var es := HeardOf(codec, own, latest, before);
    var latest' := Agent.Newest(latest, Agent.Payloads(own, Delivered(before)));
    var rest := Agent.Announcements(codec, Agent.Destuttered(latest', Agent.Payloads(own, [task] + Delivered(later))));
    Agent.NeverClearsSplit(memory, es, rest);
    BroughtIsHeard(codec, own, latest, memory, xs, j, i, a, ann);
    NotOwn(own, xs[i], a.id, body);
    Agent.TaskEndsSubscription(codec, own, latest, memory, sizeLimit, Delivered(before), task, Delivered(later), a.id);
  }

  lemma Ended(codec: Agent.Codec, own: set<string>, latest: Option<string>, memory: Agent.Memory, sizeLimit: nat,
              xs: seq<Arrival>, topics: seq<string>, attempts: nat, a: Agent.Announcement, ann: string, body: string)
    requires RunPasses(codec, own, xs, topics, attempts, a, ann, body) && Agent.LatestHeard(codec, memory, latest)
    requires Agent.NeverClears(memory, HeardOf(codec, own, latest, xs))
    ensures codec.task(body) == a.id &&
            (forall e :: e in HeardOf(codec, own, latest, xs) && e.id == a.id ==> e.kind <= a.kind) &&
            (exists j, i :: 0 <= j < i < |xs| && Brings(own, xs[j], ann) && TaskPasses(own, xs[i], a.id, body)) ==>
              Agent.LastOn(Agent.Acts(codec, own, latest, memory, sizeLimit, Delivered(xs)), a.id)
              == Some(Agent.Unsubscribe(a.id))
  {
    hide Brings, TaskPasses, Agent.Acts, Agent.LastOn, HeardOf, Agent.NeverClears;
    var es := HeardOf(codec, own, latest, xs);
    if codec.task(body) == a.id && (forall e :: e in es && e.id == a.id ==> e.kind <= a.kind)
       && exists j, i :: 0 <= j < i < |xs| && Brings(own, xs[j], ann) && TaskPasses(own, xs[i], a.id, body) {
      var j, i :| 0 <= j < i < |xs| && Brings(own, xs[j], ann) && TaskPasses(own, xs[i], a.id, body);
      TaskUnsubscribes(codec, own, latest, memory, sizeLimit, xs, j, i, a, ann, body);
    }
  }

  /** The same of a running agent: its worker handles what comes in. When the task itself has come in as well, the
      agent's last operation on its topic is to unsubscribe, unless a greater type was announced for it. */
  method Announced(agent: Agent.Agent, messages: seq<Agent.Message>, ghost xs: seq<Arrival>, ghost fleet: Routing.Fleet,
                   ghost ids: seq<string>, ghost tags: seq<string>, ghost hits: seq<Routing.Hit>,
                   ghost m: Routing.Match, ghost topics: seq<string>, ghost attempts: nat, ghost ann: string,
                   ghost body: string, ghost a: Agent.Announcement)
    requires Routing.ColonFreeFleet(fleet) && agent.id in fleet && agent.tags == fleet[agent.id]
    requires Routing.Answers(fleet, ids, tags, hits) && Routing.Covers(hits, m)
    requires Routing.TopicsOf(m.ids, m.tags, topics)
    requires RunPasses(agent.codec, Routing.Subscriptions(agent.id, agent.tags), xs, topics, attempts, a, ann, body)
    requires messages == Delivered(xs)
    requires Agent.Sound(agent.Mem()) && Agent.LatestHeard(agent.codec, agent.Mem(), agent.latest)
    requires Agent.NeverClears(agent.Mem(),
                               HeardOf(agent.codec, Routing.Subscriptions(agent.id, agent.tags), agent.latest, xs))
    modifies agent`history, agent`operations, agent`accepted, agent`latest, agent`handled
    ensures Agent.Sound(agent.Mem()) && Agent.LatestHeard(agent.codec, agent.Mem(), agent.latest)
    ensures old(agent.accepted) <= agent.accepted
    ensures var es := HeardOf(agent.codec, Routing.Subscriptions(agent.id, agent.tags), old(agent.latest), xs);
            Agent.CountOf(agent.accepted[|old(agent.accepted)|..], a)
            == if Routing.Asked(fleet, ids, tags, agent.id) && !Agent.Drops(old(agent.Mem()), a)
                  && !Agent.Overtaken(es, a)
               then 1 else 0
    ensures var added := agent.accepted[|old(agent.accepted)|..];
            Agent.Subscribes(agent.operations)
            == Agent.Subscribes(old(agent.operations)) + Agent.Fitting(added, agent.sizeLimit)
    ensures var own := Routing.Subscriptions(agent.id, agent.tags);
            var es := HeardOf(agent.codec, own, old(agent.latest), xs);
            agent.codec.task(body) == a.id && (forall e :: e in es && e.id == a.id ==> e.kind <= a.kind) &&
            (exists j, i :: 0 <= j < i < |xs| && Brings(own, xs[j], ann) && TaskPasses(own, xs[i], a.id, body)) ==>
              Agent.LastOn(agent.operations, a.id) == Some(Agent.Unsubscribe(a.id))
  {
    hide Brings, TaskPasses, Agent.Acts, Agent.LastOn, Agent.Unsubscribes, Agent.ForeignPayloads, Agent.TasksOf,
         Routing.Answers, Routing.Covers, Routing.TopicsOf, Routing.ColonFreeFleet, Routing.Asked,
         Routing.Subscriptions, RunPasses, Agent.Sound, Agent.NeverClears, Agent.HeardAll, Agent.Overtaken, Agent.Drops,
         Agent.SubscribedTo, Agent.Fitting, Agent.CountOf, Agent.Subscribes, Agent.LatestHeard, Agent.Payloads,
         Agent.Destuttered, Agent.Announcements, Delivered;
    AnnouncedOnce(fleet, ids, tags, hits, m, topics, attempts, agent.id, agent.codec, ann, body, a, agent.latest,
                  agent.Mem(), xs, agent.sizeLimit);
    ghost var es := HeardOf(agent.codec, Routing.Subscriptions(agent.id, agent.tags), agent.latest, xs);
    Agent.HeardAllSound(agent.Mem(), es);
    ghost var own := Routing.Subscriptions(agent.id, agent.tags);
    ghost var ops, acts := agent.operations,
                           Agent.Acts(agent.codec, own, agent.latest, agent.Mem(), agent.sizeLimit, messages);
    Ended(agent.codec, own, agent.latest, agent.Mem(), agent.sizeLimit, xs, topics, attempts, a, ann, body);
    Agent.OperationsConcat(ops, acts);
    agent.StartWorker(messages);
  }
}
