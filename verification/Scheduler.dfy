/** The flush scheduler: a queue of watchers, sorted by id, that is spliced while it is being run. */
module Scheduler {
  import opened Common

  type Id = nat

  const MAX_UPDATE_COUNT: nat := 100

  ghost predicate Sorted(s: seq<Id>) {
    forall i, j :: 0 <= i < j < |s| ==> s[i] < s[j]
  }

  ghost predicate NonDecreasing(s: seq<Id>) {
    forall i, j :: 0 <= i < j < |s| ==> s[i] <= s[j]
  }

  // ----- the part of the queue still to run, as a value

  /** Where a watcher queued during a flush goes among those still to run: before the first larger id. */
  function Inserted(s: seq<Id>, id: Id): seq<Id> {
    if s == [] || s[|s| - 1] <= id then s + [id] else Inserted(s[..|s| - 1], id) + [s[|s| - 1]]
  }

  /** One call of queueWatcher during a flush. */
  ghost function Accepted(s: seq<Id>, id: Id): seq<Id> {
    if id in s then s else Inserted(s, id)
  }

  /** The calls that one watcher run makes, in order. */
  ghost function AcceptedAll(s: seq<Id>, ids: seq<Id>): seq<Id>
    decreases |ids|
  {
    if ids == [] then s else AcceptedAll(Accepted(s, ids[0]), ids[1..])
  }

  ghost function Bag(s: seq<Id>): multiset<Id> {
    multiset(s)
  }

  lemma {:induction false} InsertedContents(s: seq<Id>, id: Id)
    ensures Bag(Inserted(s, id)) == Bag(s) + multiset{id}
    ensures forall x :: x in Inserted(s, id) <==> x in s || x == id
  {
    if s == [] || s[|s| - 1] <= id {
    } else {
      var init := s[..|s| - 1];
      assert s == init + [s[|s| - 1]];
      InsertedContents(init, id);
    }
  }

  lemma {:induction false} InsertedSorted(s: seq<Id>, id: Id)
    requires Sorted(s) && id !in s
    ensures Sorted(Inserted(s, id))
  {
    if s == [] || s[|s| - 1] <= id {
      assert s != [] ==> s[|s| - 1] != id;
    } else {
      var init := s[..|s| - 1];
      InsertedSorted(init, id);
      InsertedContents(init, id);
      forall i | 0 <= i < |Inserted(init, id)| ensures Inserted(init, id)[i] < s[|s| - 1] {
        assert Inserted(init, id)[i] in Inserted(init, id);
      }
    }
  }

  /** Where the insertion loop stops is where the value is inserted. */
  lemma {:induction false} InsertedAt(s: seq<Id>, id: Id, i: nat)
    requires i <= |s| && (i > 0 ==> s[i - 1] <= id) && forall k :: i <= k < |s| ==> s[k] > id
    ensures Inserted(s, id) == s[..i] + [id] + s[i..]
  {
    if i == |s| {
      assert s[..i] == s && s[i..] == [];
    } else {
      var init := s[..|s| - 1];
      InsertedAt(init, id, i);
      assert init[..i] == s[..i] && init[i..] + [s[|s| - 1]] == s[i..];
    }
  }

  lemma FirstOrRest(ids: seq<Id>)
    requires ids != []
    ensures forall x :: x in ids <==> x == ids[0] || x in ids[1..]
  {
    assert ids == [ids[0]] + ids[1..];
  }

  lemma {:induction false} AcceptedAllSorted(s: seq<Id>, ids: seq<Id>)
    requires Sorted(s)
    ensures Sorted(AcceptedAll(s, ids))
    ensures forall x :: x in AcceptedAll(s, ids) <==> x in s || x in ids
    decreases |ids|
  {
    hide Sorted, Inserted;
    if ids == [] {
    } else {
      var t := Accepted(s, ids[0]);
      if ids[0] !in s {
        InsertedSorted(s, ids[0]);
        InsertedContents(s, ids[0]);
      }
      AcceptedAllSorted(t, ids[1..]);
      FirstOrRest(ids);
    }
  }

  /** What is still to run after n runs from `start`, the run of watcher id being followed by effects(id, n). */
  ghost function PendingAfter(start: seq<Id>, effects: (Id, nat) -> seq<Id>, n: nat): seq<Id> {
    if n == 0 then start
    else
      var before := PendingAfter(start, effects, n - 1);
      if before == [] then [] else AcceptedAll(before[1..], effects(before[0], n - 1))
  }

  /** The watcher of the n-th run, counting from 0. */
  ghost function Next(start: seq<Id>, effects: (Id, nat) -> seq<Id>, n: nat): Option<Id> {
    var pending := PendingAfter(start, effects, n);
    if pending == [] then None else Some(pending[0])
  }

  /** q is the queue after n runs of a flush that began with start: what ran, in order, and what is still to run. */
  ghost predicate Traced(start: seq<Id>, effects: (Id, nat) -> seq<Id>, q: seq<Id>, n: nat) {
    && n <= |q| && q[n..] == PendingAfter(start, effects, n)
    && forall k :: 0 <= k < n ==> Next(start, effects, k) == Some(q[k])
  }

  lemma TracedNone(start: seq<Id>, effects: (Id, nat) -> seq<Id>)
    ensures Traced(start, effects, start, 0)
  {
  }

  lemma TracedNext(start: seq<Id>, effects: (Id, nat) -> seq<Id>, q: seq<Id>, n: nat, q': seq<Id>)
    requires Traced(start, effects, q, n) && n < |q| && n + 1 <= |q'| && q'[..n + 1] == q[..n + 1]
    requires q'[n + 1..] == AcceptedAll(q[n + 1..], effects(q[n], n))
    ensures Traced(start, effects, q', n + 1)
  {
    hide AcceptedAll;
    assert q[n..][0] == q[n] && q[n..][1..] == q[n + 1..];
    assert forall k :: 0 <= k < n + 1 ==> q'[k] == q'[..n + 1][k] == q[..n + 1][k] == q[k];
  }

  lemma {:induction false} PendingSorted(start: seq<Id>, effects: (Id, nat) -> seq<Id>, n: nat)
    requires Sorted(start)
    ensures Sorted(PendingAfter(start, effects, n))
  {
    if n == 0 {
    } else {
      var before := PendingAfter(start, effects, n - 1);
      PendingSorted(start, effects, n - 1);
      if before != [] {
        AcceptedAllSorted(before[1..], effects(before[0], n - 1));
      }
    }
  }

  /** What is to run after one more run. */
  lemma PendingStep(start: seq<Id>, effects: (Id, nat) -> seq<Id>, n: nat)
    requires Sorted(start) && Next(start, effects, n).Some?
    ensures var id := Next(start, effects, n).value;
            && id in PendingAfter(start, effects, n)
            && forall x :: x in PendingAfter(start, effects, n + 1) <==>
                 (x in PendingAfter(start, effects, n) && x != id) || x in effects(id, n)
  {
    var before := PendingAfter(start, effects, n);
    PendingSorted(start, effects, n);
    assert before == [before[0]] + before[1..] && before[0] !in before[1..];
    AcceptedAllSorted(before[1..], effects(before[0], n));
  }

  lemma TracedAt(start: seq<Id>, effects: (Id, nat) -> seq<Id>, q: seq<Id>, n: nat, k: nat)
    requires Traced(start, effects, q, n)
    ensures n <= |q| && q[n..] == PendingAfter(start, effects, n)
    ensures k < n ==> Next(start, effects, k) == Some(q[k])
  {
  }

  /** What is to run after k runs is run by the rest of the flush, or left. */
  lemma {:induction false} PendingRuns(start: seq<Id>, effects: (Id, nat) -> seq<Id>, q: seq<Id>, n: nat, k: nat, x: Id)
    requires Sorted(start) && Traced(start, effects, q, n) && k <= n && x in PendingAfter(start, effects, k)
    ensures x in q[k..]
    decreases n - k
  {
    hide Traced, Sorted, AcceptedAll, PendingAfter, Next;
    TracedAt(start, effects, q, n, k);
    if k == n {
    } else {
      assert q[k..] == [q[k]] + q[k + 1..];
      PendingStep(start, effects, k);
      if x != q[k] {
        PendingRuns(start, effects, q, n, k + 1, x);
      }
    }
  }

  /** What is to run was waiting at the start, or was queued by a run. */
  lemma {:induction false} PendingCaused(start: seq<Id>, effects: (Id, nat) -> seq<Id>, q: seq<Id>, n: nat, k: nat,
                                         x: Id)
    requires Sorted(start) && Traced(start, effects, q, n) && k <= n && x in PendingAfter(start, effects, k)
    ensures x in start || exists m :: 0 <= m < k && x in effects(q[m], m)
  {
    hide Traced, Sorted, AcceptedAll, Next;
    if k == 0 {
    } else {
      TracedAt(start, effects, q, n, k - 1);
      PendingStep(start, effects, k - 1);
      if x in PendingAfter(start, effects, k - 1) {
        PendingCaused(start, effects, q, n, k - 1, x);
      } else {
        assert x in effects(q[k - 1], k - 1);
      }
    }
  }

  /** Every call a run makes is answered by a later run, or left; and nothing runs but what was waiting or called. */
  lemma CallsAnswered(start: seq<Id>, effects: (Id, nat) -> seq<Id>, q: seq<Id>, n: nat)
    requires Sorted(start) && Traced(start, effects, q, n)
    ensures forall x :: x in start ==> x in q
    ensures forall k, x :: 0 <= k < n && x in effects(q[k], k) ==> x in q[k + 1..]
    ensures forall k :: 0 <= k < |q| ==> q[k] in start || exists m :: 0 <= m < k && m < n && q[k] in effects(q[m], m)
  {
    hide Sorted, Traced, AcceptedAll;
    TracedAt(start, effects, q, n, n);
    assert q[0..] == q;
    forall x | x in start ensures x in q {
      PendingRuns(start, effects, q, n, 0, x);
    }
    forall k, x | 0 <= k < n && x in effects(q[k], k) ensures x in q[k + 1..] {
      TracedAt(start, effects, q, n, k);
      PendingStep(start, effects, k);
      PendingRuns(start, effects, q, n, k + 1, x);
    }
    forall k | 0 <= k < |q| ensures q[k] in start || exists m :: 0 <= m < k && m < n && q[k] in effects(q[m], m) {
      if k < n {
        TracedAt(start, effects, q, n, k);
        PendingStep(start, effects, k);
        PendingCaused(start, effects, q, n, k, q[k]);
      } else {
        assert q[n..][k - n] == q[k];
        PendingCaused(start, effects, q, n, n, q[k]);
      }
    }
  }

  /** The calls of one run that queue something. */
  ghost function Newly(s: seq<Id>, ids: seq<Id>): multiset<Id>
    decreases |ids|
  {
    if ids == [] then multiset{}
    else (if ids[0] in s then multiset{} else multiset{ids[0]}) + Newly(Accepted(s, ids[0]), ids[1..])
  }

  /** The calls of the first n runs that queue something. */
  ghost function AcceptedIn(start: seq<Id>, effects: (Id, nat) -> seq<Id>, n: nat): multiset<Id> {
    if n == 0 then multiset{}
    else
      var before := PendingAfter(start, effects, n - 1);
      AcceptedIn(start, effects, n - 1)
      + if before == [] then multiset{} else Newly(before[1..], effects(before[0], n - 1))
  }

  lemma {:induction false} NewlyBag(s: seq<Id>, ids: seq<Id>)
    ensures Bag(AcceptedAll(s, ids)) == Bag(s) + Newly(s, ids)
    decreases |ids|
  {
    if ids == [] {
    } else {
      if ids[0] !in s {
        InsertedContents(s, ids[0]);
      }
      NewlyBag(Accepted(s, ids[0]), ids[1..]);
    }
  }

  lemma Exchange(ran: multiset<Id>, x: multiset<Id>, rest: multiset<Id>, more: multiset<Id>, start: multiset<Id>,
                 accepted: multiset<Id>)
    requires ran + (x + rest) == start + accepted
    ensures (ran + x) + (rest + more) == start + (accepted + more)
  {
    assert (ran + x) + (rest + more) == (ran + (x + rest)) + more;
  }

  lemma BagConcat(a: seq<Id>, b: seq<Id>)
    ensures Bag(a + b) == Bag(a) + Bag(b) && Bag([]) == multiset{}
  {
  }

  /** A flush runs, or leaves, exactly what was waiting and what was accepted, each as often as accepted. */
  lemma {:induction false} RunsBalance(start: seq<Id>, effects: (Id, nat) -> seq<Id>, q: seq<Id>, n: nat, k: nat)
    requires Traced(start, effects, q, n) && k <= n <= |q|
    ensures Bag(q[..k]) + Bag(PendingAfter(start, effects, k)) == Bag(start) + AcceptedIn(start, effects, k)
  {
    hide Traced, AcceptedAll, Newly, Bag;
    BagConcat(q[..0], []);
    if k == 0 {
      assert q[..0] + [] == q[..0] == [];
    } else {
      var before := PendingAfter(start, effects, k - 1);
      RunsBalance(start, effects, q, n, k - 1);
      TracedAt(start, effects, q, n, k - 1);
      NewlyBag(before[1..], effects(before[0], k - 1));
      assert before == [before[0]] + before[1..] && q[..k] == q[..k - 1] + [before[0]];
      BagConcat([before[0]], before[1..]);
      BagConcat(q[..k - 1], [before[0]]);
      Exchange(Bag(q[..k - 1]), Bag([before[0]]), Bag(before[1..]), Newly(before[1..], effects(before[0], k - 1)),
               Bag(start), AcceptedIn(start, effects, k - 1));
    }
  }

  /** A run of the only watcher left, which queues one other. */
  lemma OneAfterOne(start: seq<Id>, effects: (Id, nat) -> seq<Id>, n: nat, x: Id, y: Id)
    requires PendingAfter(start, effects, n) == [x] && effects(x, n) == [y]
    ensures PendingAfter(start, effects, n + 1) == [y]
  {
    assert [x][1..] == [] && [y][1..] == [];
    assert AcceptedAll([], [y]) == AcceptedAll(Accepted([], y), [y][1..]) == [y];
  }

  /** Two watchers that queue each other keep a flush going for ever, and no run ever finds itself queued again,
      which is all that the loop guard looks at. */
  lemma {:induction false} MutualRequeueIsNotCaught(a: Id, b: Id, effects: (Id, nat) -> seq<Id>, n: nat)
    requires a != b && forall k: nat :: effects(a, k) == [b] && effects(b, k) == [a]
    ensures PendingAfter([a], effects, n) == [if n % 2 == 0 then a else b]
    ensures PendingAfter([a], effects, n)[0] !in PendingAfter([a], effects, n + 1)
  {
    hide AcceptedAll;
    var x, y := if n % 2 == 0 then a else b, if n % 2 == 0 then b else a;
    if n == 0 {
    } else {
      MutualRequeueIsNotCaught(a, b, effects, n - 1);
      OneAfterOne([a], effects, n - 1, y, x);
    }
    OneAfterOne([a], effects, n, x, y);
  }

  // ----- accounting

  /** Runs and accepted calls balance, and every call is answered by a later run or is still pending. */
  ghost predicate Accounted(ran: seq<Id>, pending: seq<Id>, accepted: multiset<Id>, calls: seq<(Id, nat)>) {
    && multiset(ran) + multiset(pending) == accepted
    && (forall c :: c in calls ==> c.1 <= |ran| && (c.0 in ran[c.1..] || c.0 in pending))
  }

  lemma CallCounted(ran: seq<Id>, s: seq<Id>, s': seq<Id>, accepted: multiset<Id>, calls: seq<(Id, nat)>, id: Id)
    requires Accounted(ran, s, accepted, calls)
    requires Bag(s') == if id in s then Bag(s) else Bag(s) + multiset{id}
    ensures Accounted(ran, s', if id in s then accepted else accepted + multiset{id}, calls + [(id, |ran|)])
    ensures Elems(s') == if id in s then Elems(s) else Elems(s) + {id}
    ensures forall x :: x in s <==> x in Elems(s)
  {
    assert forall x :: x in s' <==> x in multiset(s');
    assert forall x :: x in s <==> x in multiset(s);
  }

  lemma RunCounted(ran: seq<Id>, s: seq<Id>, accepted: multiset<Id>, calls: seq<(Id, nat)>)
    requires Accounted(ran, s, accepted, calls) && s != []
    ensures Accounted(ran + [s[0]], s[1..], accepted, calls)
  {
    assert s == [s[0]] + s[1..];
    assert multiset(s) == multiset{s[0]} + multiset(s[1..]);
    forall c | c in calls ensures c.0 in (ran + [s[0]])[c.1..] || c.0 in s[1..] {
      assert (ran + [s[0]])[c.1..] == ran[c.1..] + [s[0]];
    }
  }

  /** What holds of the watchers still to run: strictly sorted, `has` is their set, and the accounts agree. */
  ghost predicate Sound(pending: seq<Id>, has: set<Id>, ran: seq<Id>, accepted: multiset<Id>, calls: seq<(Id, nat)>) {
    Sorted(pending) && has == Elems(pending) && Accounted(ran, pending, accepted, calls)
  }

  lemma AcceptedFacts(s: seq<Id>, id: Id)
    requires Sorted(s)
    ensures Sorted(Accepted(s, id)) && Bag(Accepted(s, id)) == if id in s then Bag(s) else Bag(s) + multiset{id}
  {
    if id !in s {
      InsertedSorted(s, id);
      InsertedContents(s, id);
    }
  }

  lemma ElemsIn(s: seq<Id>, id: Id)
    ensures id in Elems(s) <==> id in s
    ensures s[0..] == s
  {
  }

  lemma SoundCall(pending: seq<Id>, has: set<Id>, ran: seq<Id>, accepted: multiset<Id>, calls: seq<(Id, nat)>, id: Id)
    requires Sound(pending, has, ran, accepted, calls)
    ensures id in has <==> id in pending
    ensures Sound(Accepted(pending, id), has + {id}, ran, if id in has then accepted else accepted + multiset{id},
                  calls + [(id, |ran|)])
  {
    hide Accounted, Sorted;
    ElemsIn(pending, id);
    AcceptedFacts(pending, id);
    CallCounted(ran, pending, Accepted(pending, id), accepted, calls, id);
  }

  /** Outside a flush: no repetition, `has` is the set, and the accounts agree. */
  ghost predicate Waiting(queue: seq<Id>, has: set<Id>, ran: seq<Id>, accepted: multiset<Id>, calls: seq<(Id, nat)>) {
    Distinct(queue) && has == Elems(queue) && Accounted(ran, queue, accepted, calls)
  }

  lemma WaitingCall(queue: seq<Id>, has: set<Id>, ran: seq<Id>, accepted: multiset<Id>, calls: seq<(Id, nat)>, id: Id)
    requires Waiting(queue, has, ran, accepted, calls)
    ensures id in has <==> id in queue
    ensures Waiting(if id in has then queue else queue + [id], has + {id}, ran,
                    if id in has then accepted else accepted + multiset{id}, calls + [(id, |ran|)])
  {
    hide Accounted;
    ElemsIn(queue, id);
    CallCounted(ran, queue, if id in has then queue else queue + [id], accepted, calls, id);
  }

  lemma SoundRun(pending: seq<Id>, has: set<Id>, ran: seq<Id>, accepted: multiset<Id>, calls: seq<(Id, nat)>)
    requires Sound(pending, has, ran, accepted, calls) && pending != []
    ensures Sound(pending[1..], has - {pending[0]}, ran + [pending[0]], accepted, calls)
  {
    RunCounted(ran, pending, accepted, calls);
    assert pending[0] !in pending[1..];
    assert pending == [pending[0]] + pending[1..];
  }

  /** `queue.sort` by id. */
  function SortIds(s: seq<Id>): seq<Id> {
    if s == [] then [] else Inserted(SortIds(s[..|s| - 1]), s[|s| - 1])
  }

  lemma {:induction false} SortIdsFacts(s: seq<Id>)
    requires Distinct(s)
    ensures Sorted(SortIds(s)) && Bag(SortIds(s)) == Bag(s)
    ensures forall x :: x in SortIds(s) <==> x in s
  {
    if s == [] {
    } else {
      var init, x := s[..|s| - 1], s[|s| - 1];
      SortIdsFacts(init);
      assert s == init + [x] && x !in init;
      InsertedSorted(SortIds(init), x);
      InsertedContents(SortIds(init), x);
    }
  }

  lemma WaitingSort(queue: seq<Id>, has: set<Id>, accepted: multiset<Id>, calls: seq<(Id, nat)>)
    requires Waiting(queue, has, [], accepted, calls)
    ensures Sound(SortIds(queue), has, [], accepted, calls)
  {
    hide Sorted;
    SortIdsFacts(queue);
  }

  lemma Spliced(q: seq<Id>, start: nat, i: nat, id: Id)
    requires start <= i <= |q|
    ensures q[start..][..i - start] == q[start..i] && q[start..][i - start..] == q[i..]
    ensures q[..i] + [id] + q[i..] == q[..start] + (q[start..i] + [id] + q[i..])
  {
  }

  // ----- the pace of a flush whose runs queue nothing below the running watcher

  /** `circular[id] || 0`. */
  function Count(circular: map<Id, nat>, id: Id): nat {
    if id in circular then circular[id] else 0
  }

  /** The watchers run so far, those still to run, and the counts of immediate self-requeues. */
  ghost predicate Paced(done: seq<Id>, pending: seq<Id>, circular: map<Id, nat>) {
    && NonDecreasing(done)
    && (forall id :: Bag(done)[id] <= MAX_UPDATE_COUNT + 1)
    && (pending != [] ==>
          && (forall i :: 0 <= i < |done| ==> done[i] <= pending[0])
          && Bag(done)[pending[0]] == Count(circular, pending[0]) <= MAX_UPDATE_COUNT
          && (forall id :: id > pending[0] ==> Bag(done)[id] == 0 && Count(circular, id) == 0))
  }

  ghost predicate AllUpTo(s: seq<Id>, bound: Id) {
    forall i :: 0 <= i < |s| ==> s[i] <= bound
  }

  lemma HeadLeast(h: Id, s: seq<Id>)
    requires Sorted([h] + s)
    ensures Sorted(s) && forall x :: x in s ==> h < x
  {
    assert forall i :: 0 <= i < |s| ==> ([h] + s)[i + 1] == s[i];
    assert ([h] + s)[0] == h;
  }

  /** The least element of a sorted list comes first. */
  lemma LeastFirst(t: seq<Id>, h: Id)
    requires Sorted(t) && forall x :: x in t ==> h <= x
    ensures (h in t ==> t[0] == h) && (h !in t && t != [] ==> t[0] > h)
  {
    if t != [] {
      assert t[0] in t;
    }
  }

  lemma UpToIn(s: seq<Id>, bound: Id)
    ensures AllUpTo(s, bound) <==> forall x :: x in s ==> x <= bound
  {
    assert forall i :: 0 <= i < |s| ==> s[i] in s;
  }

  lemma NextPending(s: seq<Id>, ids: seq<Id>, h: Id, bound: Id)
    requires Sorted([h] + s) && AllUpTo(s, bound) && forall x :: x in ids ==> h <= x <= bound
    ensures var t := AcceptedAll(s, ids);
            && Sorted(t) && AllUpTo(t, bound)
            && (h in t ==> t[0] == h) && (h !in t && t != [] ==> t[0] > h)
  {
    hide Sorted, AllUpTo, AcceptedAll;
    HeadLeast(h, s);
    AcceptedAllSorted(s, ids);
    UpToIn(s, bound);
    UpToIn(AcceptedAll(s, ids), bound);
    LeastFirst(AcceptedAll(s, ids), h);
  }

  /** One run of watcher h, after which `pending'` is to be run. */
  lemma PacedRun(done: seq<Id>, h: Id, s: seq<Id>, circular: map<Id, nat>, pending': seq<Id>, circular': map<Id, nat>)
    requires Paced(done, [h] + s, circular)
    requires Sorted(pending')
    requires (h in pending' ==> pending'[0] == h) && (h !in pending' && pending' != [] ==> pending'[0] > h)
    requires circular' == if h in pending' then circular[h := Count(circular, h) + 1] else circular
    ensures NonDecreasing(done + [h]) && forall id :: Bag(done + [h])[id] <= MAX_UPDATE_COUNT + 1
    ensures !(h in pending' && Count(circular', h) > MAX_UPDATE_COUNT) ==> Paced(done + [h], pending', circular')
    ensures h in pending' && Count(circular', h) > MAX_UPDATE_COUNT ==> Bag(done + [h])[h] == MAX_UPDATE_COUNT + 1
  {
    assert ([h] + s)[0] == h;
    assert Bag(done + [h]) == Bag(done) + multiset{h};
  }

  /** The loop guard fired: some watcher has run MAX_UPDATE_COUNT + 1 times and is queued again. */
  ghost predicate Stopped(done: seq<Id>, pending: seq<Id>) {
    && NonDecreasing(done)
    && (forall id :: Bag(done)[id] <= MAX_UPDATE_COUNT + 1)
    && done != [] && Bag(done)[done[|done| - 1]] == MAX_UPDATE_COUNT + 1 && done[|done| - 1] in pending
  }

  /** After a turn, the pace is kept or the guard fired, and the next watcher is a later one, or the same with a
      higher count. */
  lemma TurnPaced(done: seq<Id>, h: Id, s: seq<Id>, c: map<Id, nat>, t: seq<Id>, c': map<Id, nat>, ids: seq<Id>,
                  bound: Id, stop: bool)
    requires Sorted([h] + s) && AllUpTo([h] + s, bound) && Paced(done, [h] + s, c)
    requires t == AcceptedAll(s, ids) && forall x :: x in ids ==> h <= x <= bound
    requires c' == if h in t then c[h := Count(c, h) + 1] else c
    requires stop <==> h in t && Count(c', h) > MAX_UPDATE_COUNT
    ensures AllUpTo(t, bound)
    ensures if stop then Stopped(done + [h], t) else Paced(done + [h], t, c')
    ensures t != [] ==> t[0] > h || (t[0] == h && Count(c', h) == Count(c, h) + 1)
  {
    hide Paced, AcceptedAll;
    assert AllUpTo(s, bound) by {
      assert forall i :: 0 <= i < |s| ==> s[i] == ([h] + s)[i + 1];
    }
    NextPending(s, ids, h, bound);
    PacedRun(done, h, s, c, t, c');
    assert (done + [h])[|done|] == h;
  }

  // ----- the scheduler

  /** Nothing is lost: every waiting watcher and every call of a run is answered by a later run, or left by the guard.
      Nothing else runs: every run was waiting or was queued by an earlier run. And none runs twice: runs, with what
      is left, balance with the waiting watchers and the accepted calls. */
  ghost predicate Answered(waiting: seq<Id>, effects: (Id, nat) -> seq<Id>, q: seq<Id>, n: nat) {
    && n <= |q|
    && (forall x :: x in waiting ==> x in q)
    && (forall k, x :: 0 <= k < n && x in effects(q[k], k) ==> x in q[k + 1..])
    && (forall k :: 0 <= k < |q| ==> q[k] in waiting || exists m :: 0 <= m < k && m < n && q[k] in effects(q[m], m))
    && multiset(q) == multiset(waiting) + AcceptedIn(SortIds(waiting), effects, n)
  }

  lemma FlushFacts(waiting: seq<Id>, effects: (Id, nat) -> seq<Id>, q: seq<Id>, n: nat)
    requires Distinct(waiting) && Traced(SortIds(waiting), effects, q, n)
    ensures Answered(waiting, effects, q, n)
  {
    hide Sorted, SortIds, AcceptedIn, Traced;
    TracedAt(SortIds(waiting), effects, q, n, n);
    var start := SortIds(waiting);
    SortIdsFacts(waiting);
    CallsAnswered(start, effects, q, n);
    RunsBalance(start, effects, q, n, n);
    assert q == q[..n] + q[n..];
  }

  /** The first n watchers of q were run in order and none too often, and the rest is left only because the guard
      found one that had run MAX_UPDATE_COUNT + 1 times and was queued again. */
  ghost predicate InPace(q: seq<Id>, n: nat) {
    && n <= |q| && NonDecreasing(q[..n])
    && (forall id :: multiset(q[..n])[id] <= MAX_UPDATE_COUNT + 1)
    && (n < |q| ==> exists id :: multiset(q[..n])[id] == MAX_UPDATE_COUNT + 1 && id in q[n..])
  }

  lemma Finished(q: seq<Id>, n: nat, circular: map<Id, nat>)
    requires n <= |q|
    requires Stopped(q[..n], q[n..]) || (n == |q| && Paced(q[..n], q[n..], circular))
    ensures InPace(q, n)
  {
    assert multiset(q[..n]) == Bag(q[..n]);
  }

  ghost function CallsAt(ids: seq<Id>, n: nat): seq<(Id, nat)> {
    seq(|ids|, i requires 0 <= i < |ids| => (ids[i], n))
  }

  lemma Tail(q: seq<Id>, q': seq<Id>, start: nat, s: seq<Id>, s': seq<Id>)
    requires start <= |q| && s == q[start..] && q' == q[..start] + s'
    ensures start <= |q'| && q'[start..] == s' && q'[..start] == q[..start]
  {
  }

  class Scheduler {
    var queue: seq<Id>
    var has: set<Id>
    var circular: map<Id, nat>
    var waiting: bool
    var flushing: bool
    var index: nat

    ghost var accepted: multiset<Id>       // calls of queueWatcher that queued something, since the last reset
    ghost var calls: seq<(Id, nat)>        // all calls of queueWatcher, each with the number of runs started before it

    /** Outside a flush: a flush is awaited iff the queue is not empty. */
    ghost predicate Idle()
      reads this
    {
      && !flushing && index == 0 && circular == map[]
      && (waiting <==> queue != [])
      && Waiting(queue, has, [], accepted, calls)
    }

    /** During a flush, when the first `start` entries of the queue have been started. */
    ghost predicate Flushing(start: nat)
      reads this
    {
      && flushing && waiting && start <= |queue|
      && Sound(queue[start..], has, queue[..start], accepted, calls)
    }

    constructor ()
      ensures Idle() && queue == []
    {
      queue, has, circular := [], {}, map[];
      waiting, flushing, index := false, false, 0;
      accepted, calls := multiset{}, [];
    }

    /** `queueWatcher(watcher)` outside a flush. */
    method QueueIdle(id: Id)
      requires Idle()
      modifies this`queue, this`has, this`waiting, this`accepted, this`calls
      ensures Idle() && queue == if id in old(queue) then old(queue) else old(queue) + [id]
      ensures calls == old(calls) + [(id, 0)]
    {
      hide Waiting;
      WaitingCall(queue, has, [], accepted, calls, id);
      calls := calls + [(id, 0)];
      if id !in has {
        has := has + {id};
        accepted := accepted + multiset{id};
        queue := queue + [id];
        if !waiting {
          waiting := true;
        }
      } else {
        assert has == has + {id};
      }
    }

    /** The splice of `queueWatcher` during a flush. */
    method Splice(id: Id)
      requires index < |queue|
      modifies this`queue
      ensures queue == old(queue)[..index + 1] + Inserted(old(queue)[index + 1..], id)
    {
      hide Inserted;
      var i := |queue| - 1;
      while i > index && queue[i] > id
        invariant index <= i < |queue| && queue == old(queue)
        invariant forall k :: i < k < |queue| ==> queue[k] > id
      {
        i := i - 1;
      }
      InsertedAt(queue[index + 1..], id, i - index);
      Spliced(queue, index + 1, i + 1, id);
      queue := queue[..i + 1] + [id] + queue[i + 1..];
    }

    /** `queueWatcher(watcher)` during a flush; one is already awaited then. */
    method QueueFlushing(id: Id)
      requires index < |queue| && Flushing(index + 1)
      modifies this`queue, this`has, this`accepted, this`calls
      ensures index < |queue| && Flushing(index + 1)
      ensures queue[..index + 1] == old(queue)[..index + 1]
      ensures queue[index + 1..] == Accepted(old(queue)[index + 1..], id)
      ensures calls == old(calls) + [(id, index + 1)] && old(accepted) <= accepted
    {
      hide Sound, Inserted;
      ghost var s, ran := queue[index + 1..], queue[..index + 1];
      SoundCall(s, has, ran, accepted, calls, id);
      calls := calls + [(id, index + 1)];
      if id !in has {
        has := has + {id};
        accepted := accepted + multiset{id};
        Splice(id);
        Tail(old(queue), queue, index + 1, s, Inserted(s, id));
      } else {
        assert has == has + {id};
      }
    }

    /** The calls of queueWatcher made while a watcher runs. */
    method RunWatcher(ids: seq<Id>)
      requires index < |queue| && Flushing(index + 1)
      modifies this`queue, this`has, this`accepted, this`calls
      ensures index < |queue| && Flushing(index + 1)
      ensures queue[..index + 1] == old(queue)[..index + 1]
      ensures queue[index + 1..] == AcceptedAll(old(queue)[index + 1..], ids)
      ensures calls == old(calls) + CallsAt(ids, index + 1) && old(accepted) <= accepted
    {
      hide Sound, Accepted;
      ghost var s := queue[index + 1..];
      var i := 0;
      while i < |ids|
        invariant 0 <= i <= |ids| && index < |queue| && Flushing(index + 1)
        invariant queue[..index + 1] == old(queue)[..index + 1]
        invariant AcceptedAll(s, ids) == AcceptedAll(queue[index + 1..], ids[i..])
        invariant calls == old(calls) + CallsAt(ids[..i], index + 1) && old(accepted) <= accepted
      {
        assert ids[i..][0] == ids[i] && ids[i..][1..] == ids[i + 1..];
        QueueFlushing(ids[i]);
        assert CallsAt(ids[..i + 1], index + 1) == CallsAt(ids[..i], index + 1) + [(ids[i], index + 1)];
        i := i + 1;
      }
      assert ids[..|ids|] == ids;
    }

    /** One turn of the loop of `flushSchedulerQueue`, whose watcher run calls queueWatcher for ids. Nothing is
        asked of ids: any run keeps the rest of the queue sorted and its accounts right. */
    method RunNext(ids: seq<Id>) returns (id: Id, stop: bool)
      requires index < |queue| && Flushing(index)
      modifies this`queue, this`has, this`accepted, this`calls, this`circular
      ensures index < |queue| && Flushing(index + 1)
      ensures id == old(queue)[index] && queue[..index + 1] == old(queue)[..index + 1]
      ensures queue[index + 1..] == AcceptedAll(old(queue)[index + 1..], ids)
      ensures calls == old(calls) + CallsAt(ids, index + 1) && old(accepted) <= accepted
      ensures circular == (if id in queue[index + 1..] then old(circular)[id := Count(old(circular), id) + 1]
                           else old(circular))
      ensures stop <==> id in queue[index + 1..] && Count(circular, id) > MAX_UPDATE_COUNT
    {
      hide Sound, AcceptedAll, CallsAt;
      id := queue[index];
      StartRun();
      has := has - {id};
      RunWatcher(ids);
      stop := false;
      HasPending(index + 1, id);
      if id in has {
        circular := circular[id := Count(circular, id) + 1];
        if circular[id] > MAX_UPDATE_COUNT {
          stop := true;
        }
      }
    }

    lemma StartRun()
      requires index < |queue| && Flushing(index)
      ensures Sound(queue[index + 1..], has - {queue[index]}, queue[..index + 1], accepted, calls)
    {
      SoundRun(queue[index..], has, queue[..index], accepted, calls);
      assert queue[index..][1..] == queue[index + 1..];
      assert queue[..index] + [queue[index]] == queue[..index + 1];
    }

    ghost predicate OnPace(start: nat, bound: Id)
      reads this
    {
      Flushing(start) && Paced(queue[..start], queue[start..], circular) && AllUpTo(queue[start..], bound)
    }

    /** RunNext, when no run queues a watcher below its own. */
    method Turn(ids: seq<Id>, bound: Id) returns (stop: bool)
      requires index < |queue| && OnPace(index, bound) && forall x :: x in ids ==> queue[index] <= x <= bound
      modifies this`queue, this`has, this`accepted, this`calls, this`circular
      ensures index < |queue| && Flushing(index + 1)
      ensures queue[..index + 1] == old(queue)[..index + 1]
      ensures queue[index + 1..] == AcceptedAll(old(queue)[index + 1..], ids)
      ensures if stop then Stopped(queue[..index + 1], queue[index + 1..]) else OnPace(index + 1, bound)
      ensures !stop && index + 1 < |queue| ==>
                || queue[index + 1] > old(queue)[index]
                || (queue[index + 1] == old(queue)[index]
                    && Count(circular, queue[index + 1]) == Count(old(circular), queue[index + 1]) + 1)
      ensures old(accepted) <= accepted && old(calls) <= calls
    {
      hide Sound, Paced, Stopped, AcceptedAll, CallsAt, Sorted, AllUpTo;
      ghost var done, h, s, c := queue[..index], queue[index], queue[index + 1..], circular;
      Split(bound);
      var id;
      id, stop := RunNext(ids);
      Snoc(done, h);
      TurnPaced(done, h, s, c, queue[index + 1..], circular, ids, bound, stop);
    }

    /** The loop of `flushSchedulerQueue`. */
    method RunAll(effects: (Id, nat) -> seq<Id>, bound: Id) returns (runs: nat)
      requires index == 0 && OnPace(0, bound)
      requires forall id: Id, n: nat, x: Id :: x in effects(id, n) ==> id <= x <= bound
      modifies this`queue, this`has, this`accepted, this`calls, this`circular, this`index
      ensures Traced(old(queue), effects, queue, runs) && Flushing(runs)
      ensures old(accepted) <= accepted && old(calls) <= calls
      ensures Stopped(queue[..runs], queue[runs..]) || (runs == |queue| && OnPace(runs, bound))
    {
      hide Sound, Waiting, Paced, Stopped, SortIds, AllUpTo, Traced, AcceptedAll, Sorted;
      var stop := false;
      runs := 0;
      TracedNone(queue, effects);
      while index < |queue| && !stop
        invariant index <= |queue|
        invariant !stop ==> OnPace(index, bound) && runs == index
        invariant stop ==> index < |queue| && runs == index + 1 && Flushing(runs)
        invariant stop ==> Stopped(queue[..runs], queue[runs..])
        invariant Traced(old(queue), effects, queue, runs) && old(accepted) <= accepted && old(calls) <= calls
        decreases !stop, if index < |queue| then bound + 1 - queue[index] else 0,
                  if index < |queue| then MAX_UPDATE_COUNT + 1 - Count(circular, queue[index]) else 0
      {
        Split(bound);
        ghost var q := queue;
        stop := Turn(effects(queue[index], index), bound);
        TracedNext(old(queue), effects, q, index, queue);
        runs := index + 1;
        if !stop {
          index := index + 1;
        }
      }
    }

    /** `flushSchedulerQueue`, when the n-th run of the flush, of watcher id, calls queueWatcher for effects(id, n),
        and no run queues a watcher below its own. It runs what the sorted queue and the calls determine; every
        waiting watcher and every call is answered by a later run, unless the guard left it; and runs and accepted
        calls balance. */
    method FlushSchedulerQueue(effects: (Id, nat) -> seq<Id>, bound: Id) returns (updated: seq<Id>, runs: nat)
      requires Idle() && waiting && AllUpTo(queue, bound)
      requires forall id: Id, n: nat, x: Id :: x in effects(id, n) ==> id <= x <= bound
      modifies this
      ensures Idle() && queue == []
      ensures Traced(SortIds(old(queue)), effects, updated, runs) && Answered(old(queue), effects, updated, runs)
      ensures InPace(updated, runs)
    {
      hide Sound, Waiting, Paced, Stopped, SortIds, AllUpTo, Traced, Sorted, Answered, InPace;
      flushing := true;
      StartFlush(bound);
      queue := SortIds(queue);
      index := 0;
      runs := RunAll(effects, bound);
      Finished(queue, runs, circular);
      FlushFacts(old(queue), effects, queue, runs);
      updated := queue;
      ResetSchedulerState();
    }

    method ResetSchedulerState()
      modifies this
      ensures Idle() && queue == []
    {
      index, queue, has, circular := 0, [], {}, map[];
      waiting, flushing := false, false;
      accepted, calls := multiset{}, [];
    }

    lemma StartFlush(bound: Id)
      requires index == 0 && circular == map[] && Waiting(queue, has, [], accepted, calls)
      requires AllUpTo(queue, bound)
      ensures Sound(SortIds(queue)[0..], has, SortIds(queue)[..0], accepted, calls)
      ensures Paced(SortIds(queue)[..0], SortIds(queue)[0..], map[])
      ensures AllUpTo(SortIds(queue)[0..], bound) && Distinct(queue)
    {
      hide Sound, SortIds, Sorted;
      WaitingSort(queue, has, accepted, calls);
      SortIdsFacts(queue);
      assert SortIds(queue)[0..] == SortIds(queue) && SortIds(queue)[..0] == [];
      forall i | 0 <= i < |SortIds(queue)| ensures SortIds(queue)[i] <= bound {
        assert SortIds(queue)[i] in queue;
      }
    }

    lemma Split(bound: Id)
      requires index < |queue| && OnPace(index, bound)
      ensures queue[index] <= bound && Sorted(queue[index..]) && queue[index..] == [queue[index]] + queue[index + 1..]
      ensures queue[..index + 1] == queue[..index] + [queue[index]]
      ensures Count(circular, queue[index]) <= MAX_UPDATE_COUNT
    {
      assert queue[index..][0] == queue[index];
    }

    /** The started part grew by h; the part still to run starts where it starts. */
    lemma Snoc(done: seq<Id>, h: Id)
      requires index < |queue| && queue[..index + 1] == done + [h]
      ensures index + 1 < |queue| ==> queue[index + 1..] != [] && queue[index + 1..][0] == queue[index + 1]
    {
    }

    lemma HasPending(start: nat, id: Id)
      requires Flushing(start)
      ensures id in has <==> id in queue[start..]
    {
    }
  }

  // ----- a watcher that queues itself

  /** The watcher id queues itself in each of its first runs. */
  function SelfQueueing(id: Id, times: nat): (Id, nat) -> seq<Id> {
    (x: Id, k: nat) => if x == id && k < times then [id] else []
  }

  lemma AcceptedOne(id: Id)
    ensures AcceptedAll([], []) == [] && AcceptedAll([], [id]) == [id]
  {
    assert [id][1..] == [] && Inserted([], id) == [id];
  }

  lemma {:induction false} SelfPending(id: Id, times: nat, n: nat)
    ensures PendingAfter([id], SelfQueueing(id, times), n) == if n <= times then [id] else []
  {
    hide AcceptedAll;
    if n == 0 {
    } else {
      SelfPending(id, times, n - 1);
      if n - 1 <= times {
        assert [id][1..] == [];
        AcceptedOne(id);
      }
    }
  }

  lemma {:induction false} AllTheSame(s: seq<Id>, id: Id)
    requires forall i :: 0 <= i < |s| ==> s[i] == id
    ensures multiset(s)[id] == |s| && forall x :: x != id ==> multiset(s)[x] == 0
  {
    if s == [] {
    } else {
      AllTheSame(s[1..], id);
      assert s == [s[0]] + s[1..];
    }
  }

  /** It runs once more than it queued itself, but at most 101 times; only then is it left in the queue. */
  lemma SelfRuns(id: Id, times: nat, q: seq<Id>, n: nat)
    requires Traced([id], SelfQueueing(id, times), q, n) && InPace(q, n)
    ensures n == (if times <= 100 then times + 1 else 101) && |q| == (if times <= 100 then n else n + 1)
    ensures forall k :: 0 <= k < |q| ==> q[k] == id
  {
    hide SelfQueueing, AcceptedAll, PendingAfter;
    var effects := SelfQueueing(id, times);
    SelfPending(id, times, n);
    forall k | 0 <= k < n ensures q[k] == id && k <= times {
      SelfPending(id, times, k);
      assert Next([id], effects, k) == Some(q[k]);
    }
    AllTheSame(q[..n], id);
    assert n > 0 ==> q[n - 1] == id && n - 1 <= times;
    forall k | n <= k < |q| ensures q[k] == id {
      assert q[k] == q[n..][k - n];
    }
    if n < |q| {
      var x :| multiset(q[..n])[x] == MAX_UPDATE_COUNT + 1 && x in q[n..];
    }
  }

  /** So the flush ends whatever its getter does, and the queue is empty then. */
  method SelfQueued(id: Id, times: nat) returns (scheduler: Scheduler, updated: seq<Id>, runs: nat)
    ensures scheduler.Idle() && scheduler.queue == []
    ensures runs == if times <= 100 then times + 1 else 101
    ensures |updated| == if times <= 100 then runs else runs + 1
    ensures forall k :: 0 <= k < |updated| ==> updated[k] == id
  {
    hide Waiting, InPace, Traced, Answered;
    scheduler := new Scheduler();
    scheduler.QueueIdle(id);
    assert scheduler.queue == [id];
    assert [id][..0] == [] && SortIds([id]) == [id];
    updated, runs := scheduler.FlushSchedulerQueue(SelfQueueing(id, times), id);
    SelfRuns(id, times, updated, runs);
  }
}
