/** How an announcement finds its targets: the manager covers the matching targets with ids and tags, publishes one
    frame per topic, and the network hands a frame to whoever subscribed to a prefix of it. */
module Routing {
  import opened Common

  const TOPIC_SEPARATOR: char := ':'
  const REQUEST_TARGET_ALL := "ALL"
  const REQUEST_TARGET_ID := "ID"
  const REQUEST_TARGET_TAG := "TAG"
  const PREFIX_SEPARATOR := "-"
  const PER_PAGE: nat := 100

  function FormatTopicID(id: string): string {
    REQUEST_TARGET_ID + PREFIX_SEPARATOR + id
  }

  function FormatTopicTag(tag: string): string {
    REQUEST_TARGET_TAG + PREFIX_SEPARATOR + tag
  }

  predicate ColonFree(s: string) {
    TOPIC_SEPARATOR !in s
  }

  // ----- frames

  /** What the publisher sends. */
  function Frame(topic: string, payload: string): string {
    topic + [TOPIC_SEPARATOR] + payload
  }

  /** What the listener makes of a received frame: split at the first separator, if there is one. */
  function SplitFrame(msg: string): Option<(string, string)> {
    if TOPIC_SEPARATOR in msg then
      var i := IndexOf(msg, TOPIC_SEPARATOR);
      Some((msg[..i], msg[i + 1..]))
    else None
  }

  /** The network's test: a subscription to a topic is a subscription to the prefix `topic:`. */
  predicate Receives(topic: string, msg: string) {
    topic + [TOPIC_SEPARATOR] <= msg
  }

  /** Splitting returns what was framed, for any payload, exactly when the topic is colon-free. */
  lemma SplitUndoesFrame(topic: string, payload: string)
    ensures SplitFrame(Frame(topic, payload)) == Some((topic, payload)) <==> ColonFree(topic)
  {
    var msg := Frame(topic, payload);
    assert msg[|topic|] == TOPIC_SEPARATOR;
    if ColonFree(topic) {
      IndexOfUnique(topic, TOPIC_SEPARATOR, payload);
      assert msg[..|topic|] == topic && msg[|topic| + 1..] == payload;
    } else {
      var j :| 0 <= j < |topic| && topic[j] == TOPIC_SEPARATOR;
      assert msg[j] == TOPIC_SEPARATOR;
      var i := IndexOf(msg, TOPIC_SEPARATOR);
      assert i <= j by {
        assert forall k :: 0 <= k < i ==> msg[..i][k] != TOPIC_SEPARATOR;
      }
      assert |msg[..i]| < |topic|;
    }
  }

  /** A colon-free subscription receives exactly the messages that split to its topic. */
  lemma ReceivesItsTopic(topic: string, msg: string)
    requires ColonFree(topic)
    ensures Receives(topic, msg) <==> SplitFrame(msg).Some? && SplitFrame(msg).value.0 == topic
  {
    if Receives(topic, msg) {
      var rest := msg[|topic| + 1..];
      assert msg == Frame(topic, rest);
      SplitUndoesFrame(topic, rest);
    }
    if SplitFrame(msg).Some? && SplitFrame(msg).value.0 == topic {
      var i := IndexOf(msg, TOPIC_SEPARATOR);
      assert msg == msg[..i] + [TOPIC_SEPARATOR] + msg[i + 1..];
    }
  }

  /** A frame published to a topic with a colon in it goes to the subscribers of what is before the colon. */
  lemma ColonMisroutes(before: string, after: string, payload: string)
    requires ColonFree(before)
    ensures Receives(before, Frame(before + [TOPIC_SEPARATOR] + after, payload))
    ensures !ColonFree(before + [TOPIC_SEPARATOR] + after)
  {
    assert (before + [TOPIC_SEPARATOR] + after)[|before|] == TOPIC_SEPARATOR;
    assert Frame(before + [TOPIC_SEPARATOR] + after, payload)
        == before + [TOPIC_SEPARATOR] + (after + [TOPIC_SEPARATOR] + payload);
  }

  /** Two topics one of which, with the separator, begins like the other. */
  predicate Confusable(s: string, t: string) {
    s != t && (s + [TOPIC_SEPARATOR] <= t + [TOPIC_SEPARATOR] || t + [TOPIC_SEPARATOR] <= s + [TOPIC_SEPARATOR])
  }

  lemma OneIsPrefix(a: string, b: string, rest: string)
    requires a <= b + rest
    ensures a <= b || b <= a
  {
    if |a| <= |b| {
      assert a == (b + rest)[..|a|] == b[..|a|];
    } else {
      assert b == (b + rest)[..|b|] == a[..|b|];
    }
  }

  lemma ReceivesOwn(s: string, payload: string)
    ensures Receives(s, Frame(s, payload))
  {
  }

  /** A subscription gets just the frames of its topic, whatever their payloads, exactly when it cannot be confused
      with the topic of the frames. */
  lemma ReceivesExactly(s: string, t: string)
    ensures (forall payload :: Receives(s, Frame(t, payload)) <==> s == t) <==> !Confusable(s, t)
  {
    var s', t' := s + [TOPIC_SEPARATOR], t + [TOPIC_SEPARATOR];
    assert Frame(t, "") == t' && Receives(t, Frame(t, ""));
    if Confusable(s, t) {
      if s' <= t' {
        assert Receives(s, Frame(t, ""));
      } else {
        assert s' == t' + s'[|t'|..] == Frame(t, s'[|t'|..]);
        assert Receives(s, Frame(t, s'[|t'|..]));
      }
    } else {
      forall payload ensures Receives(s, Frame(t, payload)) <==> s == t {
        assert Frame(t, payload) == t' + payload;
        if s' <= t' + payload {
          OneIsPrefix(s', t', payload);
        }
      }
    }
  }

  /** Topics without colons cannot be confused. */
  lemma ColonFreeApart(s: string, t: string)
    requires ColonFree(s) && ColonFree(t)
    ensures !Confusable(s, t)
  {
    var s', t' := s + [TOPIC_SEPARATOR], t + [TOPIC_SEPARATOR];
    if s' <= t' {
      assert s'[|s|] == t'[|s|] == TOPIC_SEPARATOR;
      assert |s| == |t| && s == s'[..|s|] == t'[..|t|] == t;
    }
    if t' <= s' {
      assert t'[|t|] == s'[|t|] == TOPIC_SEPARATOR;
      assert |s| == |t| && s == s'[..|s|] == t'[..|t|] == t;
    }
  }

  // ----- the search for targets

  /** One target found: its id and, if tags matched, the matched tags by descending score. */
  datatype Hit = Hit(id: string, highlight: Option<seq<string>>)

  /** How a search for targets stands after some pages; Unfinished if the loop goes on. */
  datatype Match =
    | Matched(allIDs: seq<string>, ids: seq<string>, tags: seq<string>)
    | UnexpectedResponse
    | SearchFailed
    | Unfinished

  function Page(hits: seq<Hit>, from: nat): (p: seq<Hit>)
    ensures |p| <= PER_PAGE
  {
    if from >= |hits| then [] else if from + PER_PAGE <= |hits| then hits[from..from + PER_PAGE] else hits[from..]
  }

  /** The exit test of the paging loop compares one page with the total: it is ever met exactly when one page
      holds all hits. */
  lemma PagingEnds(hits: seq<Hit>)
    ensures (exists k: nat :: |Page(hits, k * PER_PAGE)| >= |hits|) <==> |hits| <= 100
  {
    if |hits| <= PER_PAGE {
      assert |Page(hits, 0 * PER_PAGE)| >= |hits|;
    }
  }

  /** The keys of a map, in the order in which the range loop happens to visit them. */
  method Listed(s: set<string>) returns (r: seq<string>)
    ensures Distinct(r) && forall x :: x in r <==> x in s
  {
    r := [];
    var rest := s;
    while rest != {}
      invariant rest <= s && Distinct(r) && forall x :: x in r <==> x in s && x !in rest
      decreases rest
    {
      var x :| x in rest;
      r := r + [x];
      rest := rest - {x};
    }
  }

  ghost predicate WellHighlighted(hits: seq<Hit>) {
    forall i :: 0 <= i < |hits| && hits[i].highlight.Some? ==> hits[i].highlight.value != []
  }

  ghost predicate Covers(hits: seq<Hit>, m: Match)
    requires WellHighlighted(hits)
  {
    && m.Matched?
    && m.allIDs == seq(|hits|, i requires 0 <= i < |hits| => hits[i].id)
    && Distinct(m.ids) && Distinct(m.tags)
    && (forall x :: x in m.ids <==> exists i :: 0 <= i < |hits| && hits[i].highlight.None? && hits[i].id == x)
    && (forall t :: t in m.tags <==>
          exists i :: 0 <= i < |hits| && hits[i].highlight.Some? && hits[i].highlight.value[0] == t)
  }

  /** What the hits make of the two sets and the list of ids. */
  ghost predicate Scanned(hits: seq<Hit>, allIDs: seq<string>, hitIDs: set<string>, hitTags: set<string>) {
    && WellHighlighted(hits)
    && allIDs == seq(|hits|, i requires 0 <= i < |hits| => hits[i].id)
    && (forall x :: x in hitIDs <==> exists i :: 0 <= i < |hits| && hits[i].highlight.None? && hits[i].id == x)
    && (forall t :: t in hitTags <==>
          exists i :: 0 <= i < |hits| && hits[i].highlight.Some? && hits[i].highlight.value[0] == t)
  }

  lemma ScannedNext(hits: seq<Hit>, allIDs: seq<string>, hitIDs: set<string>, hitTags: set<string>, hit: Hit)
    requires Scanned(hits, allIDs, hitIDs, hitTags) && (hit.highlight.Some? ==> hit.highlight.value != [])
    ensures Scanned(hits + [hit], allIDs + [hit.id],
                    if hit.highlight.None? then hitIDs + {hit.id} else hitIDs,
                    if hit.highlight.Some? then hitTags + {hit.highlight.value[0]} else hitTags)
  {
    var all := hits + [hit];
    assert all[|hits|] == hit && forall i :: 0 <= i < |hits| ==> all[i] == hits[i];
  }

  lemma ScannedGood(hits: seq<Hit>, allIDs: seq<string>, hitIDs: set<string>, hitTags: set<string>)
    requires Scanned(hits, allIDs, hitIDs, hitTags)
    ensures WellHighlighted(hits)
  {
  }

  /** The hits of one page. */
  method ScanPage(ghost before: seq<Hit>, page: seq<Hit>, allIDs: seq<string>, hitIDs: set<string>,
                  hitTags: set<string>)
    returns (ok: bool, allIDs': seq<string>, hitIDs': set<string>, hitTags': set<string>)
    requires Scanned(before, allIDs, hitIDs, hitTags)
    ensures ok <==> WellHighlighted(before + page)
    ensures ok ==> Scanned(before + page, allIDs', hitIDs', hitTags')
  {
    hide Scanned;
    ok, allIDs', hitIDs', hitTags' := true, allIDs, hitIDs, hitTags;
    assert before + page[..0] == before;
    for i := 0 to |page|
      invariant ok && Scanned(before + page[..i], allIDs', hitIDs', hitTags')
    {
      var hit := page[i];
      assert before + page[..i + 1] == before + page[..i] + [hit];
      if hit.highlight.Some? && |hit.highlight.value| < 1 {
        assert (before + page)[|before| + i] == hit;
        ok := false;
        return;
      }
      ScannedNext(before + page[..i], allIDs', hitIDs', hitTags', hit);
      allIDs' := allIDs' + [hit.id];
      if hit.highlight.Some? {
        hitTags' := hitTags' + {hit.highlight.value[0]};
      } else {
        hitIDs' := hitIDs' + {hit.id};
      }
    }
    assert page[..|page|] == page;
    ScannedGood(before + page, allIDs', hitIDs', hitTags');
  }

  /** The hits that the first pages bring. */
  function FirstPages(hits: seq<Hit>, pages: nat): (r: seq<Hit>)
    ensures |hits| <= PER_PAGE * pages ==> r == hits
  {
    if PER_PAGE * pages <= |hits| then hits[..PER_PAGE * pages] else hits
  }

  lemma NextPage(hits: seq<Hit>, pages: nat)
    ensures FirstPages(hits, pages) + Page(hits, pages * PER_PAGE) == FirstPages(hits, pages + 1)
    ensures |Page(hits, pages * PER_PAGE)| >= |hits| ==> |hits| <= PER_PAGE
    ensures |hits| <= PER_PAGE && pages == 0 ==> |Page(hits, pages * PER_PAGE)| >= |hits|
  {
  }

  /** How many pages are there to be had, out of so many, if the search fails at some page. */
  function Available(pages: nat, failing: Option<nat>): nat {
    if failing.Some? && failing.value < pages then failing.value else pages
  }

  lemma SomePageBad(hits: seq<Hit>, few: nat, many: nat)
    requires few <= many && !WellHighlighted(FirstPages(hits, few))
    ensures !WellHighlighted(FirstPages(hits, many)) && !WellHighlighted(hits)
  {
    var s, l := FirstPages(hits, few), FirstPages(hits, many);
    var i :| 0 <= i < |s| && s[i].highlight.Some? && s[i].highlight.value == [];
    assert s[i] == hits[i] == l[i];
  }

  /** `MatchTargets`, as it stands when at most so many pages were asked for, the search failing at page `failing`, if
      at any: all hits are listed; a hit with highlighted tags is covered by the first of them, any other by its id.
      With one page of hits or less it is finished after the first page; with more it never is, whatever the number of
      pages, but for an error. */
  method MatchTargets(ids: seq<string>, tags: seq<string>, hits: seq<Hit>, pages: nat, failing: Option<nat>)
    returns (m: Match)
    ensures |ids| + |tags| == 0 ==> m == Matched([], [], [])
    ensures |ids| + |tags| > 0 ==>
              var got := Available(pages, failing);
              && (m.UnexpectedResponse? <==> !WellHighlighted(FirstPages(hits, got)))
              && (m.Matched? <==> WellHighlighted(hits) && |hits| <= 100 && got > 0)
              && (m.SearchFailed? <==> got < pages && WellHighlighted(FirstPages(hits, got)) && !m.Matched?)
              && (m.Matched? ==> Covers(hits, m))
  {
    if |ids| + |tags| == 0 {
      return Matched([], [], []);
    }
    ghost var got := Available(pages, failing);
    var allIDs: seq<string> := [];
    var hitIDs: set<string>, hitTags: set<string> := {}, {};
    var asked := 0;
    while asked < pages
      invariant 0 <= asked <= got && Scanned(FirstPages(hits, asked), allIDs, hitIDs, hitTags)
      invariant asked > 0 ==> |hits| > PER_PAGE
    {
      if failing == Some(asked) {
        ScannedGood(FirstPages(hits, asked), allIDs, hitIDs, hitTags);
        return SearchFailed;
      }
      var page := Page(hits, asked * PER_PAGE);
      NextPage(hits, asked);
      var ok;
      ok, allIDs, hitIDs, hitTags := ScanPage(FirstPages(hits, asked), page, allIDs, hitIDs, hitTags);
      if !ok {
        SomePageBad(hits, asked + 1, got);
        return UnexpectedResponse;
      }
      asked := asked + 1;
      if |page| >= |hits| {
        var matchIDs := Listed(hitIDs);
        var matchTags := Listed(hitTags);
        assert FirstPages(hits, asked) == hits == FirstPages(hits, got);
        return Matched(allIDs, matchIDs, matchTags);
      }
    }
    ScannedGood(FirstPages(hits, pages), allIDs, hitIDs, hitTags);
    m := Unfinished;
  }

  // ----- topics and subscriptions

  /** One topic per id and then one per tag, in order. */
  ghost predicate TopicsOf(ids: seq<string>, tags: seq<string>, topics: seq<string>) {
    && |topics| == |ids| + |tags|
    && (forall i :: 0 <= i < |ids| ==> topics[i] == FormatTopicID(ids[i]))
    && (forall i :: 0 <= i < |tags| ==> topics[|ids| + i] == FormatTopicTag(tags[i]))
  }

  /** `targetTopics`. */
  method TargetTopics(ids: seq<string>, tags: seq<string>) returns (topics: seq<string>)
    ensures TopicsOf(ids, tags, topics)
  {
    topics := [];
    for i := 0 to |ids|
      invariant |topics| == i && forall k :: 0 <= k < i ==> topics[k] == FormatTopicID(ids[k])
    {
      topics := topics + [FormatTopicID(ids[i])];
    }
    for i := 0 to |tags|
      invariant |topics| == |ids| + i && forall k :: 0 <= k < |ids| ==> topics[k] == FormatTopicID(ids[k])
      invariant forall k :: 0 <= k < i ==> topics[|ids| + k] == FormatTopicTag(tags[k])
    {
      topics := topics + [FormatTopicTag(tags[i])];
    }
  }

  /** The topics an agent subscribes to when it starts. */
  function Subscriptions(id: string, tags: seq<string>): set<string> {
    {REQUEST_TARGET_ALL, FormatTopicID(id)} + set t | t in tags :: FormatTopicTag(t)
  }

  /** The registered targets: the tags of each id. */
  type Fleet = map<string, seq<string>>

  ghost predicate ColonFreeFleet(fleet: Fleet) {
    forall id :: id in fleet ==> ColonFree(id) && forall t :: t in fleet[id] ==> ColonFree(t)
  }

  /** Where a topic of one agent can be confused with a topic of another, the first agent has that one as well. */
  ghost predicate Separate(fleet: Fleet) {
    forall a, b, s, t ::
      a in fleet && b in fleet && s in Subscriptions(a, fleet[a]) && t in Subscriptions(b, fleet[b])
        && Confusable(s, t) ==>
          t in Subscriptions(a, fleet[a])
  }

  ghost predicate Asked(fleet: Fleet, ids: seq<string>, tags: seq<string>, id: string)
    requires id in fleet
  {
    id in ids || exists t :: t in tags && t in fleet[id]
  }

  /** The search answers from the fleet as it is: the hits are the targets asked for, and one is highlighted, with
      tags of its own that were asked for, exactly when it has such tags. */
  ghost predicate Answers(fleet: Fleet, ids: seq<string>, tags: seq<string>, hits: seq<Hit>) {
    && WellHighlighted(hits)
    && (forall id :: id in fleet && Asked(fleet, ids, tags, id) ==> exists i :: 0 <= i < |hits| && hits[i].id == id)
    && (forall i :: 0 <= i < |hits| ==>
          && hits[i].id in fleet && Asked(fleet, ids, tags, hits[i].id)
          && (hits[i].highlight.Some? <==> exists t :: t in tags && t in fleet[hits[i].id])
          && (hits[i].highlight.Some? ==>
                hits[i].highlight.value[0] in tags && hits[i].highlight.value[0] in fleet[hits[i].id]))
  }

  /** An agent of the fleet receives some message published to one of the topics. */
  ghost predicate Reached(fleet: Fleet, id: string, topics: seq<string>, payload: string)
    requires id in fleet
  {
    exists i, s :: 0 <= i < |topics| && s in Subscriptions(id, fleet[id]) && Receives(s, Frame(topics[i], payload))
  }

  lemma TopicsApart(a: string, b: string)
    ensures FormatTopicID(a) == FormatTopicID(b) ==> a == b
    ensures FormatTopicTag(a) == FormatTopicTag(b) ==> a == b
    ensures FormatTopicID(a) != FormatTopicTag(b) && FormatTopicID(a) != REQUEST_TARGET_ALL
    ensures FormatTopicTag(a) != REQUEST_TARGET_ALL
    ensures ColonFree(a) ==> ColonFree(FormatTopicID(a)) && ColonFree(FormatTopicTag(a))
    ensures ColonFree(REQUEST_TARGET_ALL)
  {
    assert FormatTopicID(a)[3..] == a && FormatTopicID(b)[3..] == b;
    assert FormatTopicTag(a)[4..] == a && FormatTopicTag(b)[4..] == b;
    assert FormatTopicID(a)[0] == 'I' && FormatTopicTag(b)[0] == 'T' && FormatTopicTag(a)[0] == 'T';
  }

  /** What is published to the topic for all reaches every agent. */
  lemma AllAreReached(fleet: Fleet, id: string, payload: string)
    requires id in fleet
    ensures Reached(fleet, id, ["ALL"], payload)
  {
    ReceivesOwn("ALL", payload);
    assert ["ALL"][0] == "ALL" && REQUEST_TARGET_ALL in Subscriptions(id, fleet[id]);
  }

  lemma SubscriptionsColonFree(fleet: Fleet, id: string, s: string)
    requires ColonFreeFleet(fleet) && id in fleet && s in Subscriptions(id, fleet[id])
    ensures ColonFree(s)
  {
    TopicsApart(id, id);
    forall t | t in fleet[id] ensures ColonFree(FormatTopicTag(t)) {
      TopicsApart(t, t);
    }
  }

  lemma ColonFreeSeparate(fleet: Fleet)
    requires ColonFreeFleet(fleet)
    ensures forall a, b, s, t ::
      a in fleet && b in fleet && s in Subscriptions(a, fleet[a]) && t in Subscriptions(b, fleet[b]) ==>
        !Confusable(s, t)
    ensures Separate(fleet)
  {
    hide ColonFreeFleet, Subscriptions, Confusable, ColonFree;
    forall a, b, s, t | a in fleet && b in fleet && s in Subscriptions(a, fleet[a]) && t in Subscriptions(b, fleet[b])
      ensures !Confusable(s, t)
    {
      SubscriptionsColonFree(fleet, a, s);
      SubscriptionsColonFree(fleet, b, t);
      ColonFreeApart(s, t);
    }
  }

  /** The match list is the targets asked for. */
  lemma ListedIsAsked(fleet: Fleet, ids: seq<string>, tags: seq<string>, hits: seq<Hit>, m: Match, id: string)
    requires Answers(fleet, ids, tags, hits) && Covers(hits, m) && id in fleet
    ensures id in m.allIDs <==> Asked(fleet, ids, tags, id)
  {
    hide Asked;
    if id in m.allIDs {
      var k :| 0 <= k < |m.allIDs| && m.allIDs[k] == id;
      assert hits[k].id == id;
    }
    if Asked(fleet, ids, tags, id) {
      var j :| 0 <= j < |hits| && hits[j].id == id;
      assert m.allIDs[j] == id;
    }
  }

  /** What an agent subscribes to by id it has as id, by tag as tag. */
  lemma SubscribedAs(fleet: Fleet, id: string, x: string)
    requires id in fleet
    ensures FormatTopicID(x) in Subscriptions(id, fleet[id]) <==> x == id
    ensures FormatTopicTag(x) in Subscriptions(id, fleet[id]) <==> x in fleet[id]
  {
    TopicsApart(x, id);
    TopicsApart(id, x);
    forall t | t in fleet[id]
      ensures FormatTopicID(x) != FormatTopicTag(t) && (FormatTopicTag(t) == FormatTopicTag(x) ==> t == x) {
      TopicsApart(x, t);
    }
  }

  /** The i-th topic comes from a hit without highlight, by its id, or from the first highlighted tag of a hit. */
  lemma TopicOfHit(fleet: Fleet, ids: seq<string>, tags: seq<string>, hits: seq<Hit>, m: Match, topics: seq<string>,
                   i: nat)
    requires Answers(fleet, ids, tags, hits) && Covers(hits, m) && TopicsOf(m.ids, m.tags, topics) && i < |topics|
    ensures (exists x :: x in fleet && x in m.allIDs && topics[i] == FormatTopicID(x))
         || (exists t, x :: x in fleet && t in fleet[x] && t in tags && topics[i] == FormatTopicTag(t))
  {
    hide Asked;
    if i < |m.ids| {
      var x := m.ids[i];
      assert x in m.ids;
      var k :| 0 <= k < |hits| && hits[k].highlight.None? && hits[k].id == x;
      assert m.allIDs[k] == x;
    } else {
      var t := m.tags[i - |m.ids|];
      assert t in m.tags && topics[|m.ids| + (i - |m.ids|)] == FormatTopicTag(t);
      var k :| 0 <= k < |hits| && hits[k].highlight.Some? && hits[k].highlight.value[0] == t;
      assert hits[k].id in fleet;
    }
  }

  lemma ReachedIsListed(fleet: Fleet, ids: seq<string>, tags: seq<string>, hits: seq<Hit>, m: Match,
                        topics: seq<string>, payload: string, id: string)
    requires Separate(fleet) && Answers(fleet, ids, tags, hits) && Covers(hits, m)
    requires m.Matched? && TopicsOf(m.ids, m.tags, topics) && id in fleet && Reached(fleet, id, topics, payload)
    ensures id in m.allIDs
  {
    hide Subscriptions, FormatTopicID, FormatTopicTag, Receives, Confusable, Answers, Covers, TopicsOf;
    var i, s :| 0 <= i < |topics| && s in Subscriptions(id, fleet[id]) && Receives(s, Frame(topics[i], payload));
    TopicOfHit(fleet, ids, tags, hits, m, topics, i);
    ReceivesExactly(s, topics[i]);
    if x :| x in fleet && x in m.allIDs && topics[i] == FormatTopicID(x) {
      SubscribedAs(fleet, x, x);
      assert topics[i] in Subscriptions(id, fleet[id]);
      SubscribedAs(fleet, id, x);
    } else {
      var t, x :| x in fleet && t in fleet[x] && t in tags && topics[i] == FormatTopicTag(t);
      SubscribedAs(fleet, x, t);
      assert topics[i] in Subscriptions(id, fleet[id]);
      SubscribedAs(fleet, id, t);
      ListedIsAsked(fleet, ids, tags, hits, m, id);
    }
  }

  lemma ListedIsReached(fleet: Fleet, ids: seq<string>, tags: seq<string>, hits: seq<Hit>, m: Match,
                        topics: seq<string>, payload: string, id: string)
    requires Answers(fleet, ids, tags, hits) && Covers(hits, m)
    requires TopicsOf(m.ids, m.tags, topics) && id in fleet && id in m.allIDs
    ensures Reached(fleet, id, topics, payload)
  {
    hide Subscriptions, FormatTopicID, FormatTopicTag, Receives, Confusable, Asked;
    var k :| 0 <= k < |m.allIDs| && m.allIDs[k] == id;
    assert hits[k].id == id;
    var s;
    var i: nat;
    if hits[k].highlight.None? {
      assert id in m.ids;
      i :| 0 <= i < |m.ids| && m.ids[i] == id;
      s := FormatTopicID(id);
      SubscribedAs(fleet, id, id);
    } else {
      var t := hits[k].highlight.value[0];
      assert t in m.tags;
      var j :| 0 <= j < |m.tags| && m.tags[j] == t;
      i, s := |m.ids| + j, FormatTopicTag(t);
      SubscribedAs(fleet, id, t);
    }
    ReceivesOwn(s, payload);
    assert topics[i] == s;
  }

  /** Announcements go to exactly the targets in the match list, if the fleet is separate, as it is when ids and tags
      have no colons: whatever the query and the payload, an agent of the fleet is reached through the covering topics
      exactly when the search listed it, that is when it was asked for. */
  lemma RoutingIsExact(fleet: Fleet, ids: seq<string>, tags: seq<string>, hits: seq<Hit>, m: Match,
                       topics: seq<string>, payload: string, id: string)
    requires Separate(fleet) && Answers(fleet, ids, tags, hits) && Covers(hits, m)
    requires m.Matched? && TopicsOf(m.ids, m.tags, topics) && id in fleet
    ensures Reached(fleet, id, topics, payload) <==> id in m.allIDs
    ensures id in m.allIDs <==> Asked(fleet, ids, tags, id)
  {
    hide Answers, Covers, TopicsOf, Reached, Asked, Separate;
    if Reached(fleet, id, topics, payload) {
      ReachedIsListed(fleet, ids, tags, hits, m, topics, payload, id);
    }
    if id in m.allIDs {
      ListedIsReached(fleet, ids, tags, hits, m, topics, payload, id);
    }
    ListedIsAsked(fleet, ids, tags, hits, m, id);
  }

  /** The query has the answer m, with these topics. */
  ghost predicate Answered(fleet: Fleet, ids: seq<string>, tags: seq<string>, hits: seq<Hit>, m: Match,
                           topics: seq<string>) {
    Answers(fleet, ids, tags, hits) && Covers(hits, m) && TopicsOf(m.ids, m.tags, topics)
  }

  /** An agent of the fleet is reached exactly when the answer lists it. */
  ghost predicate Fits(fleet: Fleet, m: Match, topics: seq<string>, payload: string, id: string) {
    id in fleet ==> m.Matched? && (Reached(fleet, id, topics, payload) <==> id in m.allIDs)
  }

  ghost predicate Exact(fleet: Fleet) {
    forall ids, tags, hits, m, topics, payload, id ::
      Answered(fleet, ids, tags, hits, m, topics) ==> Fits(fleet, m, topics, payload, id)
  }

  lemma RoutedExactly(fleet: Fleet, ids: seq<string>, tags: seq<string>, hits: seq<Hit>, m: Match,
                      topics: seq<string>, payload: string, id: string)
    requires Separate(fleet) && Answered(fleet, ids, tags, hits, m, topics)
    ensures Fits(fleet, m, topics, payload, id)
  {
    hide Answers, TopicsOf, Reached, Separate;
    if id in fleet {
      RoutingIsExact(fleet, ids, tags, hits, m, topics, payload, id);
    }
  }

  lemma Confused(s: string, t: string) returns (payload: string)
    requires Confusable(s, t)
    ensures Receives(s, Frame(t, payload))
  {
    ReceivesExactly(s, t);
    payload :| !(Receives(s, Frame(t, payload)) <==> s == t);
  }

  lemma TaggedCovers(x: string, all: seq<string>, hits: seq<Hit>)
    requires |hits| == |all| > 0
    requires forall i :: 0 <= i < |hits| ==> hits[i].id == all[i] && hits[i].highlight == Some([x])
    ensures WellHighlighted(hits) && Covers(hits, Matched(all, [], [x]))
  {
    var m := Matched(all, [], [x]);
    assert hits[0].highlight.value[0] == x && m.tags[0] == x;
    assert m.allIDs == seq(|hits|, i requires 0 <= i < |hits| => hits[i].id);
  }

  lemma TaggedAnswers(fleet: Fleet, x: string, all: seq<string>, hits: seq<Hit>)
    requires forall id :: id in all <==> id in fleet && x in fleet[id]
    requires |hits| == |all|
    requires forall i :: 0 <= i < |hits| ==> hits[i].id == all[i] && hits[i].highlight == Some([x]) && all[i] in all
    ensures Answers(fleet, [], [x], hits)
  {
    assert [x][0] == x;
    forall id | id in fleet ensures Asked(fleet, [], [x], id) <==> id in all {
    }
    forall id | id in fleet && id in all ensures exists i :: 0 <= i < |hits| && hits[i].id == id {
      var i :| 0 <= i < |all| && all[i] == id;
      assert hits[i].id == id;
    }
    forall i | 0 <= i < |hits|
      ensures hits[i].highlight.value[0] == x && hits[i].id in fleet && Asked(fleet, [], [x], hits[i].id)
    {
    }
  }

  /** The agents with tag x, in the order of all, answer the query for x. */
  lemma Tagged(fleet: Fleet, x: string, all: seq<string>, hits: seq<Hit>, m: Match)
    requires all != [] && forall id :: id in all <==> id in fleet && x in fleet[id]
    requires hits == seq(|all|, i requires 0 <= i < |all| => Hit(all[i], Some([x]))) && m == Matched(all, [], [x])
    ensures Answers(fleet, [], [x], hits) && Covers(hits, m) && TopicsOf(m.ids, m.tags, [FormatTopicTag(x)])
  {
    hide FormatTopicTag, Answers, Covers;
    assert forall i :: 0 <= i < |hits| ==> hits[i].id == all[i] && hits[i].highlight == Some([x]) && all[i] in all;
    TaggedAnswers(fleet, x, all, hits);
    TaggedCovers(x, all, hits);
  }

  lemma {:induction false} Listing(s: set<string>) returns (r: seq<string>)
    ensures forall x :: x in r <==> x in s
  {
    if s == {} {
      r := [];
    } else {
      var x :| x in s;
      var rest := Listing(s - {x});
      r := [x] + rest;
    }
  }

  /** A query that is answered with topic t alone, a topic of b but not of a. */
  lemma Question(fleet: Fleet, b: string, t: string, a: string)
    returns (ids: seq<string>, tags: seq<string>, hits: seq<Hit>, m: Match)
    requires a in fleet && b in fleet && t in Subscriptions(b, fleet[b]) && t !in Subscriptions(a, fleet[a])
    ensures Answers(fleet, ids, tags, hits) && Covers(hits, m) && TopicsOf(m.ids, m.tags, [t]) && a !in m.allIDs
  {
    hide FormatTopicID, FormatTopicTag;
    if t == FormatTopicID(b) {
      ids, tags, hits, m := [b], [], [Hit(b, None)], Matched([b], [b], []);
      assert hits[0].id == b && m.ids[0] == b;
    } else {
      var x :| x in fleet[b] && t == FormatTopicTag(x);
      SubscribedAs(fleet, a, x);
      ids, tags := [], [x];
      assert x in tags;
      var all := Listing(set id | id in fleet && x in fleet[id]);
      hits := seq(|all|, i requires 0 <= i < |all| => Hit(all[i], Some([x])));
      m := Matched(all, [], [x]);
      assert b in all;
      Tagged(fleet, x, all, hits, m);
    }
  }

  /** A query that asks for the agents of topic t alone, and a payload with which a frame reaches agent a. */
  lemma Misrouted(fleet: Fleet, a: string, b: string, s: string, t: string)
    requires a in fleet && b in fleet && s in Subscriptions(a, fleet[a]) && t in Subscriptions(b, fleet[b])
    requires Confusable(s, t) && t !in Subscriptions(a, fleet[a])
    ensures !Exact(fleet)
  {
    hide Answers, Covers, Asked, Subscriptions, Confusable, Receives, FormatTopicID, FormatTopicTag;
    var payload := Confused(s, t);
    var ids, tags, hits, m := Question(fleet, b, t, a);
    assert Answered(fleet, ids, tags, hits, m, [t]);
    assert Receives(s, Frame([t][0], payload));
    assert !Fits(fleet, m, [t], payload, a);
  }

  /** And it is exact for all queries and payloads only if the fleet is separate. */
  lemma RoutingExactly(fleet: Fleet)
    ensures Exact(fleet) <==> Separate(fleet)
  {
    hide Answered, Fits, Subscriptions, Confusable;
    if Separate(fleet) {
      hide Separate;
      forall ids, tags, hits, m, topics, payload, id |
        Answered(fleet, ids, tags, hits, m, topics)
        ensures Fits(fleet, m, topics, payload, id)
      {
        RoutedExactly(fleet, ids, tags, hits, m, topics, payload, id);
      }
    } else {
      var a, b, s, t :| a in fleet && b in fleet && s in Subscriptions(a, fleet[a]) && t in Subscriptions(b, fleet[b])
                        && Confusable(s, t) && t !in Subscriptions(a, fleet[a]);
      Misrouted(fleet, a, b, s, t);
    }
  }
}
