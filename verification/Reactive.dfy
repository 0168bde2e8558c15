/** Dependency tracking: data properties with their deps, watchers that collect deps while their getter runs,
    and computed properties as lazy watchers whose cached value must agree with evaluating the getter. */
module Reactive {
  import opened Common

  type Key = nat  // a reactive data property; also names its dep
  type Wid = nat  // a watcher

  /** What a running getter does next, given what it has read so far. */
  datatype Action = Return(v: int) | ReadData(k: Key) | ReadComputed(c: Wid)

  /** A pure getter: any deterministic program that makes at most `bound` reads. */
  datatype Getter = Getter(next: seq<int> -> Action, bound: nat)

  /** The getters of all watchers, present and future; which watchers are lazy (computed properties); and a
      rank that decreases from a getter to the computed properties it reads. */
  datatype Program = Program(keys: set<Key>, getter: Wid -> Getter, lazy: Wid -> bool, rank: Wid -> nat)

  ghost predicate WellFounded(p: Program) {
    && (forall w: Wid, h: seq<int> :: |h| >= p.getter(w).bound ==> p.getter(w).next(h).Return?)
    && (forall w: Wid, h: seq<int> :: p.getter(w).next(h).ReadData? ==> p.getter(w).next(h).k in p.keys)
    && (forall w: Wid, h: seq<int> :: p.getter(w).next(h).ReadComputed? ==>
          p.lazy(p.getter(w).next(h).c) && p.rank(p.getter(w).next(h).c) < p.rank(w))
  }

  // ----- evaluation

  /** The value a getter ends with, and the data properties it reads, directly or through computed ones. */
  datatype Outcome = Outcome(value: int, deps: set<Key>)

  /** Computed properties that answer with a fixed outcome instead of being evaluated. */
  type Caches = map<Wid, Outcome>

  /** Evaluation of the getter of w from the point where it has read h. With f empty it is direct evaluation; the
      computed properties in f answer as f says. */
  ghost function Eval(p: Program, data: map<Key, int>, f: Caches, w: Wid, h: seq<int>): Outcome
    requires WellFounded(p) && data.Keys == p.keys
    decreases p.rank(w), if |h| < p.getter(w).bound then p.getter(w).bound - |h| else 0
  {
    match p.getter(w).next(h)
    case Return(v) => Outcome(v, {})
    case ReadData(k) =>
      var rest := Eval(p, data, f, w, h + [data[k]]);
      Outcome(rest.value, {k} + rest.deps)
    case ReadComputed(c) =>
      var inner := if c in f then f[c] else Eval(p, data, f, c, []);
      var rest := Eval(p, data, f, w, h + [inner.value]);
      Outcome(rest.value, inner.deps + rest.deps)
  }

  /** What reading the computed property c yields. */
  ghost function Answer(p: Program, data: map<Key, int>, f: Caches, c: Wid): Outcome
    requires WellFounded(p) && data.Keys == p.keys
  {
    if c in f then f[c] else Eval(p, data, f, c, [])
  }

  ghost predicate SameAt(data: map<Key, int>, data': map<Key, int>, k: Key) {
    k in data && k in data' && data[k] == data'[k]
  }

  /** From f to f', only caches one of whose deps changed were dropped. */
  ghost predicate DropsChanged(data: map<Key, int>, f: Caches, data': map<Key, int>, f': Caches) {
    && (forall c :: c in f' ==> c in f && f'[c] == f[c])
    && (forall c :: c in f && c !in f' ==> exists k :: k in f[c].deps && !SameAt(data, data', k))
  }

  /** Data that agree on what an evaluation reads evaluate alike and are read alike. */
  lemma {:induction false} OnlyDepsMatter(p: Program, data: map<Key, int>, f: Caches, data': map<Key, int>, f': Caches,
                                          w: Wid, h: seq<int>)
    requires WellFounded(p) && data.Keys == p.keys && data'.Keys == p.keys && DropsChanged(data, f, data', f')
    requires forall k :: k in Eval(p, data, f, w, h).deps ==> SameAt(data, data', k)
    ensures Eval(p, data', f', w, h) == Eval(p, data, f, w, h)
    decreases p.rank(w), if |h| < p.getter(w).bound then p.getter(w).bound - |h| else 0
  {
    match p.getter(w).next(h)
    case Return(v) =>
    case ReadData(k) =>
      assert SameAt(data, data', k);
      OnlyDepsMatter(p, data, f, data', f', w, h + [data[k]]);
    case ReadComputed(c) =>
      if c !in f {
        OnlyDepsMatter(p, data, f, data', f', c, []);
      }
      OnlyDepsMatter(p, data, f, data', f', w, h + [Answer(p, data, f, c).value]);
  }

  lemma {:induction false} DepsAreKeys(p: Program, data: map<Key, int>, f: Caches, w: Wid, h: seq<int>)
    requires WellFounded(p) && data.Keys == p.keys && forall c :: c in f ==> f[c].deps <= p.keys
    ensures Eval(p, data, f, w, h).deps <= p.keys
    decreases p.rank(w), if |h| < p.getter(w).bound then p.getter(w).bound - |h| else 0
  {
    match p.getter(w).next(h)
    case Return(v) =>
    case ReadData(k) =>
      DepsAreKeys(p, data, f, w, h + [data[k]]);
    case ReadComputed(c) =>
      if c !in f {
        DepsAreKeys(p, data, f, c, []);
      }
      DepsAreKeys(p, data, f, w, h + [Answer(p, data, f, c).value]);
  }

  /** f' only adds caches that answer as evaluation with f does. */
  ghost predicate Refines(p: Program, data: map<Key, int>, f: Caches, f': Caches)
    requires WellFounded(p) && data.Keys == p.keys
  {
    forall c :: (c in f ==> c in f' && f'[c] == f[c]) && (c in f' && c !in f ==> f'[c] == Eval(p, data, f, c, []))
  }

  /** Right caches make no difference: in particular, caches that are all right yield direct evaluation. */
  lemma {:induction false} SameEval(p: Program, data: map<Key, int>, f: Caches, f': Caches, w: Wid, h: seq<int>)
    requires WellFounded(p) && data.Keys == p.keys && Refines(p, data, f, f')
    ensures Eval(p, data, f', w, h) == Eval(p, data, f, w, h)
    decreases p.rank(w), if |h| < p.getter(w).bound then p.getter(w).bound - |h| else 0
  {
    match p.getter(w).next(h)
    case Return(v) =>
    case ReadData(k) =>
      SameEval(p, data, f, f', w, h + [data[k]]);
    case ReadComputed(c) =>
      SameEval(p, data, f, f', c, []);
      SameEval(p, data, f, f', w, h + [Answer(p, data, f, c).value]);
  }

  lemma RefinesStep(p: Program, data: map<Key, int>, f: Caches, f': Caches, f'': Caches)
    requires WellFounded(p) && data.Keys == p.keys && Refines(p, data, f, f') && Refines(p, data, f', f'')
    ensures Refines(p, data, f, f'')
  {
    hide Eval, WellFounded;
    forall c | c in f'' && c !in f' ensures f''[c] == Eval(p, data, f, c, []) {
      SameEval(p, data, f, f', c, []);
    }
  }

  /** A cache that was right stays right as long as none of its deps changes. */
  lemma CacheStaysRight(p: Program, data: map<Key, int>, data': map<Key, int>, c: Wid, cached: Outcome)
    requires WellFounded(p) && data.Keys == p.keys && data'.Keys == p.keys
    requires cached == Eval(p, data, map[], c, []) && forall k :: k in cached.deps ==> SameAt(data, data', k)
    ensures cached == Eval(p, data', map[], c, [])
  {
    OnlyDepsMatter(p, data, map[], data', map[], c, []);
  }

  /** What the getter of w reads next. */
  ghost function NextRead(p: Program, data: map<Key, int>, f: Caches, w: Wid, h: seq<int>): int
    requires WellFounded(p) && data.Keys == p.keys && !p.getter(w).next(h).Return?
  {
    match p.getter(w).next(h)
    case ReadData(k) => data[k]
    case ReadComputed(c) => Answer(p, data, f, c).value
  }

  // ----- the watchers and the subscriptions

  datatype Watcher = Watcher(value: int, dirty: bool, active: bool,
                             deps: seq<Key>, newDeps: seq<Key>, depIds: set<Key>, newDepIds: set<Key>)

  /** The lists and the id sets of a watcher say the same, without repetition. */
  ghost predicate Tidy(p: Program, x: Watcher) {
    && Distinct(x.deps) && Distinct(x.newDeps)
    && x.depIds == Elems(x.deps) && x.newDepIds == Elems(x.newDeps)
    && x.depIds <= p.keys && x.newDepIds <= p.keys
  }

  /** The dep k has w among its subscribers. */
  ghost predicate Lists(subs: map<Key, seq<Wid>>, k: Key, w: Wid) {
    k in subs && w in subs[k]
  }

  /** A dep lists a watcher, at most once, only if the watcher lists the dep; and if the watcher does, the dep does too,
      unless the watcher was torn down after it had taken up the dep. */
  ghost predicate TwoSided(p: Program, subs: map<Key, seq<Wid>>, ws: map<Wid, Watcher>) {
    && subs.Keys == p.keys
    && (forall w :: w in ws ==> Tidy(p, ws[w]))
    && (forall k :: k in p.keys ==> Distinct(subs[k]))
    && (forall k, w :: Lists(subs, k, w) ==> w in ws && k in ws[w].depIds + ws[w].newDepIds)
    && (forall k, w :: w in ws && k in ws[w].depIds + ws[w].newDepIds && (ws[w].active || k !in ws[w].depIds) ==>
          Lists(subs, k, w))
  }

  /** No torn-down watcher is listed by a dep. */
  ghost predicate Apart(subs: map<Key, seq<Wid>>, ws: map<Wid, Watcher>) {
    forall k, w :: Lists(subs, k, w) ==> w in ws && ws[w].active
  }

  /** No torn-down watcher that is not lazy is listed by a dep. */
  ghost predicate Gone(p: Program, subs: map<Key, seq<Wid>>, ws: map<Wid, Watcher>) {
    forall k, w :: Lists(subs, k, w) && !p.lazy(w) ==> w in ws && ws[w].active
  }

  /** Where none at all is, a dep lists a watcher exactly when the watcher is active and lists the dep. */
  lemma ApartIsExact(p: Program, subs: map<Key, seq<Wid>>, ws: map<Wid, Watcher>, k: Key, w: Wid)
    requires TwoSided(p, subs, ws) && Apart(subs, ws)
    ensures Lists(subs, k, w) <==> w in ws && ws[w].active && k in ws[w].depIds + ws[w].newDepIds
  {
  }

  /** The torn-down computed properties that are not dirty: they answer from their cache, whatever became of it. */
  ghost function Frozen(p: Program, ws: map<Wid, Watcher>): Caches {
    map c | c in ws && p.lazy(c) && !ws[c].active && !ws[c].dirty :: Outcome(ws[c].value, ws[c].depIds)
  }

  /** Every computed property that the getter of w reads from where it has read h, if it is run now, directly or through
      others, answers from its cache or is among `made`. */
  ghost predicate Ready(p: Program, data: map<Key, int>, f: Caches, made: set<Wid>, w: Wid, h: seq<int>)
    requires WellFounded(p) && data.Keys == p.keys
    decreases p.rank(w), if |h| < p.getter(w).bound then p.getter(w).bound - |h| else 0
  {
    match p.getter(w).next(h)
    case Return(_) => true
    case ReadData(k) => Ready(p, data, f, made, w, h + [data[k]])
    case ReadComputed(c) =>
      && (c in f || (c in made && Ready(p, data, f, made, c, [])))
      && Ready(p, data, f, made, w, h + [Answer(p, data, f, c).value])
  }

  lemma {:induction false} ReadyKept(p: Program, data: map<Key, int>, f: Caches, f': Caches, made: set<Wid>,
                                     made': set<Wid>, w: Wid, h: seq<int>)
    requires WellFounded(p) && data.Keys == p.keys && Ready(p, data, f, made, w, h)
    requires Refines(p, data, f, f') && made <= made'
    ensures Ready(p, data, f', made', w, h)
    decreases p.rank(w), if |h| < p.getter(w).bound then p.getter(w).bound - |h| else 0
  {
    match p.getter(w).next(h)
    case Return(v) =>
    case ReadData(k) =>
      ReadyKept(p, data, f, f', made, made', w, h + [data[k]]);
    case ReadComputed(c) =>
      if c !in f {
        ReadyKept(p, data, f, f', made, made', c, []);
        SameEval(p, data, f, f', c, []);
      }
      ReadyKept(p, data, f, f', made, made', w, h + [Answer(p, data, f, c).value]);
  }

  /** The cached value and the deps of w are those of evaluating its getter now. */
  ghost predicate UpToDate(p: Program, data: map<Key, int>, f: Caches, x: Watcher, w: Wid)
    requires WellFounded(p) && data.Keys == p.keys
  {
    x.value == Eval(p, data, f, w, []).value && x.depIds == Eval(p, data, f, w, []).deps
  }

  /** A lazy watcher is known to be stale by its flag, any other by waiting in the queue. */
  ghost predicate Stale(p: Program, x: Watcher, w: Wid, queued: set<Wid>) {
    if p.lazy(w) then x.dirty else w in queued
  }

  /** Every active watcher outside `except` that is not marked stale is up to date. */
  ghost predicate Coherent(p: Program, data: map<Key, int>, ws: map<Wid, Watcher>, queued: set<Wid>, except: set<Wid>)
    requires WellFounded(p) && data.Keys == p.keys
  {
    forall w :: w in ws && ws[w].active && w !in except && !Stale(p, ws[w], w, queued) ==>
      UpToDate(p, data, Frozen(p, ws), ws[w], w)
  }

  /** A step that refines the caches keeps the watchers it does not touch coherent. */
  lemma CoherentKept(p: Program, data: map<Key, int>, ws: map<Wid, Watcher>, queued: set<Wid>, except: set<Wid>,
                     ws': map<Wid, Watcher>, queued': set<Wid>, except': set<Wid>)
    requires WellFounded(p) && data.Keys == p.keys && Coherent(p, data, ws, queued, except)
    requires Refines(p, data, Frozen(p, ws), Frozen(p, ws'))
    requires forall x :: x in ws' && ws'[x].active && x !in except' && !Stale(p, ws'[x], x, queued') ==>
               || UpToDate(p, data, Frozen(p, ws), ws'[x], x)
               || (x in ws && ws[x] == ws'[x] && x !in except && !Stale(p, ws[x], x, queued))
    ensures Coherent(p, data, ws', queued', except')
  {
    hide Eval, WellFounded, Frozen, Refines, Stale;
    forall x | x in ws' && ws'[x].active && x !in except' && !Stale(p, ws'[x], x, queued')
      ensures UpToDate(p, data, Frozen(p, ws'), ws'[x], x)
    {
      SameEval(p, data, Frozen(p, ws), Frozen(p, ws'), x, []);
    }
  }

  /** `Dep.target` and the stack under it. */
  datatype Targets = Targets(target: Option<Wid>, stack: seq<Wid>)

  function Pushed(s: Targets, t: Option<Wid>): Targets {
    Targets(t, if s.target.Some? then s.stack + [s.target.value] else s.stack)
  }

  function Popped(s: Targets): Targets {
    if s.stack == [] then Targets(None, [])
    else Targets(Some(s.stack[|s.stack| - 1]), s.stack[..|s.stack| - 1])
  }

  /** A pop undoes a push exactly when there was a target, or nothing under it. */
  lemma PopUndoesPush(s: Targets, t: Option<Wid>)
    ensures Popped(Pushed(s, t)) == s <==> s.target.Some? || s.stack == []
  {
    if s.target.Some? {
      assert (s.stack + [s.target.value])[..|s.stack|] == s.stack;
    }
  }

  /** Pushing no target over a target, as in `pushTarget()`, leaves a state to which the next push and pop do not
      return: instead of no target, the one below is the target again. */
  lemma NoTargetIsLost(s: Targets, w: Wid)
    requires s.target.Some?
    ensures Popped(Pushed(Pushed(s, None), Some(w))) == s != Pushed(s, None)
  {
    PopUndoesPush(s, None);
  }

  /** The watchers being evaluated, outermost first. */
  ghost function Running(target: Option<Wid>, stack: seq<Wid>): seq<Wid> {
    if target.Some? then stack + [target.value] else stack
  }

  /** Evaluations nest downwards in rank, and only watchers being evaluated collect new deps. */
  ghost predicate Nested(p: Program, ws: map<Wid, Watcher>, target: Option<Wid>, stack: seq<Wid>) {
    var run := Running(target, stack);
    && (target.None? ==> stack == [])
    && (forall i :: 0 <= i < |run| ==> run[i] in ws)
    && (forall i, j :: 0 <= i < j < |run| ==> p.rank(run[i]) > p.rank(run[j]))
    && (forall w :: w in ws && w !in run ==> ws[w].newDeps == [])
  }

  // ----- what an evaluation changes

  /** Of w, at most the deps being collected changed. */
  ghost predicate OnlyCollected(x: Watcher, x': Watcher) {
    && x'.(newDeps := [], newDepIds := {}) == x.(newDeps := [], newDepIds := {})
    && x.newDepIds <= x'.newDepIds
  }

  /** While w collects deps, it is subscribed to those that it did not list before. */
  ghost predicate Joins(subs: map<Key, seq<Wid>>, subs': map<Key, seq<Wid>>, x': Watcher, w: Wid) {
    forall k :: Lists(subs', k, w) <==> Lists(subs, k, w) || (k in x'.newDepIds && k !in x'.depIds)
  }

  /** An evaluation of w, from record x to x', leaves it subscribed to those of its new deps that it was subscribed
      to or did not list before. */
  ghost predicate Rejoins(subs: map<Key, seq<Wid>>, subs': map<Key, seq<Wid>>, x: Watcher, x': Watcher, w: Wid) {
    forall k :: Lists(subs', k, w) <==> k in x'.depIds && (Lists(subs, k, w) || k !in x.depIds)
  }

  ghost predicate SameSubs(subs: map<Key, seq<Wid>>, subs': map<Key, seq<Wid>>, x: Wid) {
    forall k :: Lists(subs', k, x) <==> Lists(subs, k, x)
  }

  /** The watcher x did not change, or it is a dirty computed property of rank below r, among ok, and was evaluated. */
  ghost predicate Turned(p: Program, data: map<Key, int>, f: Caches, subs: map<Key, seq<Wid>>, x: Watcher,
                         subs': map<Key, seq<Wid>>, x': Watcher, w: Wid, r: nat, ok: set<Wid>)
    requires WellFounded(p) && data.Keys == p.keys
  {
    || (x' == x && SameSubs(subs, subs', w))
    || (&& p.rank(w) < r && w in ok && p.lazy(w) && x.dirty && !x'.dirty && x'.active == x.active
        && UpToDate(p, data, f, x', w) && Rejoins(subs, subs', x, x', w))
  }

  /** The same watchers, equally active. */
  ghost predicate SameShape(ws: map<Wid, Watcher>, ws': map<Wid, Watcher>) {
    ws'.Keys == ws.Keys && forall x :: x in ws ==> ws'[x].active == ws[x].active
  }

  /** None was added or torn down, and all but w turned at most as Turned says. */
  ghost predicate Moved(p: Program, data: map<Key, int>, subs: map<Key, seq<Wid>>, ws: map<Wid, Watcher>,
                        subs': map<Key, seq<Wid>>, ws': map<Wid, Watcher>, w: Option<Wid>, r: nat, ok: set<Wid>)
    requires WellFounded(p) && data.Keys == p.keys
  {
    && SameShape(ws, ws')
    && forall x :: x in ws && Some(x) != w ==> Turned(p, data, Frozen(p, ws), subs, ws[x], subs', ws'[x], x, r, ok)
  }

  lemma MovedNot(p: Program, data: map<Key, int>, subs: map<Key, seq<Wid>>, ws: map<Wid, Watcher>, w: Option<Wid>,
                 r: nat, ok: set<Wid>)
    requires WellFounded(p) && data.Keys == p.keys
    ensures Moved(p, data, subs, ws, subs, ws, w, r, ok)
  {
    hide WellFounded, Eval, Frozen;
  }

  lemma MovedShape(p: Program, data: map<Key, int>, subs: map<Key, seq<Wid>>, ws: map<Wid, Watcher>,
                   subs': map<Key, seq<Wid>>, ws': map<Wid, Watcher>, w: Option<Wid>, r: nat, ok: set<Wid>)
    requires WellFounded(p) && data.Keys == p.keys && Moved(p, data, subs, ws, subs', ws', w, r, ok)
    ensures SameShape(ws, ws')
  {
  }

  /** What an evaluation changes, it changes to what evaluating with the caches from before yields. */
  lemma MovedRefines(p: Program, data: map<Key, int>, subs: map<Key, seq<Wid>>, ws: map<Wid, Watcher>,
                     subs': map<Key, seq<Wid>>, ws': map<Wid, Watcher>, w: Option<Wid>, r: nat, ok: set<Wid>)
    requires WellFounded(p) && data.Keys == p.keys && Moved(p, data, subs, ws, subs', ws', w, r, ok)
    requires w.Some? ==> w.value in ws && OnlyCollected(ws[w.value], ws'[w.value])
    ensures Refines(p, data, Frozen(p, ws), Frozen(p, ws'))
  {
    hide WellFounded, Eval, Rejoins, SameSubs;
    var f, f' := Frozen(p, ws), Frozen(p, ws');
    forall c
      ensures (c in f ==> c in f' && f'[c] == f[c]) && (c in f' && c !in f ==> f'[c] == Eval(p, data, f, c, []))
    {
      if c in ws && Some(c) != w {
        assert Turned(p, data, f, subs, ws[c], subs', ws'[c], c, r, ok);
      }
    }
  }

  lemma TurnedStep(p: Program, data: map<Key, int>, f: Caches, f1: Caches, subs: map<Key, seq<Wid>>, x: Watcher,
                   subs1: map<Key, seq<Wid>>, x1: Watcher, subs2: map<Key, seq<Wid>>, x2: Watcher,
                   w: Wid, r: nat, ok: set<Wid>)
    requires WellFounded(p) && data.Keys == p.keys && Eval(p, data, f1, w, []) == Eval(p, data, f, w, [])
    requires Turned(p, data, f, subs, x, subs1, x1, w, r, ok) && Turned(p, data, f1, subs1, x1, subs2, x2, w, r, ok)
    ensures Turned(p, data, f, subs, x, subs2, x2, w, r, ok)
  {
    hide WellFounded, Eval, Lists;
  }

  /** One evaluation step after another. */
  lemma MovedStep(p: Program, data: map<Key, int>, subs: map<Key, seq<Wid>>, ws: map<Wid, Watcher>,
                  subs1: map<Key, seq<Wid>>, ws1: map<Wid, Watcher>, subs2: map<Key, seq<Wid>>, ws2: map<Wid, Watcher>,
                  w: Option<Wid>, r: nat, ok: set<Wid>)
    requires WellFounded(p) && data.Keys == p.keys
    requires Moved(p, data, subs, ws, subs1, ws1, w, r, ok) && Moved(p, data, subs1, ws1, subs2, ws2, w, r, ok)
    requires w.Some? ==> w.value in ws && OnlyCollected(ws[w.value], ws1[w.value])
    ensures Moved(p, data, subs, ws, subs2, ws2, w, r, ok)
  {
    hide WellFounded, Eval, Lists, Frozen, OnlyCollected, Refines, Turned;
    var f, f1 := Frozen(p, ws), Frozen(p, ws1);
    MovedRefines(p, data, subs, ws, subs1, ws1, w, r, ok);
    forall x | x in ws && Some(x) != w ensures Turned(p, data, f, subs, ws[x], subs2, ws2[x], x, r, ok) {
      SameEval(p, data, f, f1, x, []);
      TurnedStep(p, data, f, f1, subs, ws[x], subs1, ws1[x], subs2, ws2[x], x, r, ok);
    }
  }

  lemma MovedWider(p: Program, data: map<Key, int>, subs: map<Key, seq<Wid>>, ws: map<Wid, Watcher>,
                   subs': map<Key, seq<Wid>>, ws': map<Wid, Watcher>, w: Option<Wid>, r: nat, r': nat,
                   w': Option<Wid>, ok: set<Wid>)
    requires WellFounded(p) && data.Keys == p.keys && Moved(p, data, subs, ws, subs', ws', w, r, ok)
    requires r <= r' && (w.None? || w == w')
    ensures Moved(p, data, subs, ws, subs', ws', w', r', ok)
  {
    hide WellFounded, Eval, Frozen, SameSubs, Rejoins;
  }

  /** No torn-down watcher is listed after an evaluation, if none was before, exactly when each torn-down one that was
      evaluated had listed all that it reads now. */
  lemma ApartExactly(p: Program, data: map<Key, int>, subs: map<Key, seq<Wid>>, ws: map<Wid, Watcher>,
                     subs': map<Key, seq<Wid>>, ws': map<Wid, Watcher>, w: Option<Wid>, r: nat, ok: set<Wid>)
    requires WellFounded(p) && data.Keys == p.keys && TwoSided(p, subs', ws') && Apart(subs, ws)
    requires Moved(p, data, subs, ws, subs', ws', w, r, ok) && (w.Some? ==> w.value in ws && ws[w.value].active)
    ensures Apart(subs', ws') <==>
            forall x :: x in ws && !ws[x].active && ws[x].dirty && !ws'[x].dirty ==>
              Eval(p, data, Frozen(p, ws), x, []).deps <= ws[x].depIds
  {
    hide WellFounded, Eval, Frozen, Lists, Tidy, Distinct;
    forall x | x in ws && !ws[x].active
      ensures (exists k :: Lists(subs', k, x)) <==>
              ws[x].dirty && !ws'[x].dirty && !(Eval(p, data, Frozen(p, ws), x, []).deps <= ws[x].depIds)
    {
      var deps := Eval(p, data, Frozen(p, ws), x, []).deps;
      assert Turned(p, data, Frozen(p, ws), subs, ws[x], subs', ws'[x], x, r, ok);
      if ws[x].dirty && !ws'[x].dirty && !(deps <= ws[x].depIds) {
        var k :| k in deps && k !in ws[x].depIds;
        assert Lists(subs', k, x);
      }
    }
  }

  /** Evaluation changes no watcher that is not lazy but its own, and lists none that was torn down. */
  lemma MovedGone(p: Program, data: map<Key, int>, subs: map<Key, seq<Wid>>, ws: map<Wid, Watcher>,
                  subs': map<Key, seq<Wid>>, ws': map<Wid, Watcher>, w: Option<Wid>, r: nat, ok: set<Wid>)
    requires WellFounded(p) && data.Keys == p.keys && Moved(p, data, subs, ws, subs', ws', w, r, ok)
    requires TwoSided(p, subs', ws') && Gone(p, subs, ws)
    requires w.Some? ==> w.value in ws && ws[w.value].active
    ensures Gone(p, subs', ws')
    ensures forall x :: x in ws && !p.lazy(x) && Some(x) != w ==> x in ws' && ws'[x] == ws[x]
  {
    hide WellFounded, Eval, Frozen, Lists, Tidy, Distinct, Rejoins;
    forall x | x in ws && !p.lazy(x) && Some(x) != w ensures x in ws' && ws'[x] == ws[x] && SameSubs(subs, subs', x) {
      assert Turned(p, data, Frozen(p, ws), subs, ws[x], subs', ws'[x], x, r, ok);
    }
  }

  // ----- collecting deps

  /** `watcher.addDep(dep)` on the records. */
  function Collected(x: Watcher, k: Key): Watcher {
    if k in x.newDepIds then x else x.(newDepIds := x.newDepIds + {k}, newDeps := x.newDeps + [k])
  }

  function Subscribed(subs: map<Key, seq<Wid>>, x: Watcher, w: Wid, k: Key): map<Key, seq<Wid>>
    requires k in subs
  {
    if k in x.newDepIds || k in x.depIds then subs else subs[k := subs[k] + [w]]
  }

  /** Only w changed, and of it only the deps being collected and the subscriptions to them. */
  ghost predicate OnlyAt(subs: map<Key, seq<Wid>>, ws: map<Wid, Watcher>, subs': map<Key, seq<Wid>>,
                         ws': map<Wid, Watcher>, w: Wid) {
    && w in ws && ws'.Keys == ws.Keys
    && OnlyCollected(ws[w], ws'[w]) && Joins(subs, subs', ws'[w], w)
    && forall x :: x in ws && x != w ==> ws'[x] == ws[x] && SameSubs(subs, subs', x)
  }

  lemma OnlyAtStep(subs: map<Key, seq<Wid>>, ws: map<Wid, Watcher>, subs1: map<Key, seq<Wid>>, ws1: map<Wid, Watcher>,
                   subs2: map<Key, seq<Wid>>, ws2: map<Wid, Watcher>, w: Wid)
    requires OnlyAt(subs, ws, subs1, ws1, w) && OnlyAt(subs1, ws1, subs2, ws2, w)
    ensures OnlyAt(subs, ws, subs2, ws2, w)
  {
    hide Lists;
  }

  lemma OnlyAtMoved(p: Program, data: map<Key, int>, subs: map<Key, seq<Wid>>, ws: map<Wid, Watcher>,
                    subs': map<Key, seq<Wid>>, ws': map<Wid, Watcher>, w: Wid, r: nat, ok: set<Wid>)
    requires WellFounded(p) && data.Keys == p.keys && OnlyAt(subs, ws, subs', ws', w)
    ensures Moved(p, data, subs, ws, subs', ws', Some(w), r, ok) && Frozen(p, ws') == Frozen(p, ws)
  {
    hide WellFounded, Eval, SameSubs, Joins;
  }

  lemma CollectedTidy(p: Program, x: Watcher, k: Key)
    requires Tidy(p, x) && k in p.keys
    ensures Tidy(p, Collected(x, k))
  {
  }

  lemma CollectTwoSided(p: Program, subs: map<Key, seq<Wid>>, ws: map<Wid, Watcher>, w: Wid, k: Key)
    requires TwoSided(p, subs, ws) && w in ws && k in p.keys
    ensures TwoSided(p, Subscribed(subs, ws[w], w, k), ws[w := Collected(ws[w], k)])
    ensures OnlyAt(subs, ws, Subscribed(subs, ws[w], w, k), ws[w := Collected(ws[w], k)], w)
  {
    hide Tidy;
    var subs', ws' := Subscribed(subs, ws[w], w, k), ws[w := Collected(ws[w], k)];
    CollectedTidy(p, ws[w], k);
    assert k !in ws[w].newDepIds && k !in ws[w].depIds ==> !Lists(subs, k, w);
    forall k', x
      ensures Lists(subs', k', x) <==>
              Lists(subs, k', x) || (x == w && k' == k && k !in ws[w].newDepIds && k !in ws[w].depIds)
    {
    }
    assert forall k' :: k' in ws[w].newDepIds && k' !in ws[w].depIds ==> Lists(subs, k', w);
  }

  /** Collecting a dep for w keeps torn-down watchers out of all lists exactly when w is not torn down, or listed the
      dep before. */
  lemma CollectApart(p: Program, subs: map<Key, seq<Wid>>, ws: map<Wid, Watcher>, w: Wid, k: Key)
    requires TwoSided(p, subs, ws) && Apart(subs, ws) && w in ws && k in p.keys
    ensures Apart(Subscribed(subs, ws[w], w, k), ws[w := Collected(ws[w], k)]) <==>
            ws[w].active || k in ws[w].depIds || k in ws[w].newDepIds
  {
    hide Tidy, Distinct;
    var subs', ws' := Subscribed(subs, ws[w], w, k), ws[w := Collected(ws[w], k)];
    if !(k in ws[w].depIds || k in ws[w].newDepIds) {
      assert subs'[k][|subs[k]|] == w;
      assert Lists(subs', k, w);
    }
    assert forall k', x :: Lists(subs', k', x) ==> Lists(subs, k', x) || x == w;
  }

  /** Collecting deps for a running watcher disturbs nothing else. */
  lemma CollectKeeps(p: Program, data: map<Key, int>, subs: map<Key, seq<Wid>>, ws: map<Wid, Watcher>,
                     subs': map<Key, seq<Wid>>, ws': map<Wid, Watcher>, w: Wid,
                     target: Option<Wid>, stack: seq<Wid>, queued: set<Wid>, except: set<Wid>)
    requires WellFounded(p) && data.Keys == p.keys && target == Some(w) && OnlyAt(subs, ws, subs', ws', w)
    requires Nested(p, ws, target, stack)
    requires Coherent(p, data, ws, queued, except + Elems(Running(target, stack)))
    ensures Nested(p, ws', target, stack)
    ensures Coherent(p, data, ws', queued, except + Elems(Running(target, stack)))
  {
    hide WellFounded, Eval, Frozen, Joins, SameSubs;
    assert Running(target, stack)[|stack|] == w;
    OnlyAtMoved(p, data, subs, ws, subs', ws', w, 0, {});
  }

  /** `watcher.cleanupDeps()` on the record: the collected deps become the deps. */
  function Cleaned(x: Watcher): Watcher {
    x.(depIds := x.newDepIds, deps := x.newDeps, newDepIds := {}, newDeps := [])
  }

  /** The subscriptions after w left the deps ks. */
  ghost predicate Left(subs: map<Key, seq<Wid>>, subs': map<Key, seq<Wid>>, w: Wid, ks: set<Key>) {
    && subs'.Keys == subs.Keys
    && forall k :: k in subs ==> subs'[k] == if k in ks then Without(subs[k], w) else subs[k]
  }

  lemma LeftStep(subs: map<Key, seq<Wid>>, subs': map<Key, seq<Wid>>, w: Wid, deps: seq<Key>, i: nat, keep: set<Key>)
    requires i < |deps| && Distinct(deps) && deps[i] in subs && Left(subs, subs', w, Elems(deps[i + 1..]) - keep)
    ensures deps[i] in subs'
    ensures Left(subs, if deps[i] in keep then subs' else subs'[deps[i] := Without(subs'[deps[i]], w)],
                 w, Elems(deps[i..]) - keep)
  {
    hide Without;
    assert deps[i..] == [deps[i]] + deps[i + 1..];
    assert forall j :: i < j < |deps| ==> deps[j] != deps[i];
    assert Elems(deps[i..]) - keep == (Elems(deps[i + 1..]) - keep) + if deps[i] in keep then {} else {deps[i]};
  }

  lemma LeftOne(s: seq<Wid>, w: Wid)
    requires Distinct(s)
    ensures Distinct(Without(s, w)) && forall v :: v in Without(s, w) <==> v in s && v != w
  {
    WithoutDistinct(s, w);
  }

  /** Who is listed after w left. */
  lemma LeftLists(p: Program, subs: map<Key, seq<Wid>>, subs': map<Key, seq<Wid>>, ws: map<Wid, Watcher>, w: Wid,
                  ks: set<Key>)
    requires TwoSided(p, subs, ws) && Left(subs, subs', w, ks)
    ensures subs'.Keys == p.keys && forall k :: k in p.keys ==> Distinct(subs'[k])
    ensures forall k, v :: Lists(subs', k, v) <==> Lists(subs, k, v) && !(v == w && k in ks)
  {
    hide Distinct, Without, Tidy;
    forall k | k in p.keys
      ensures Distinct(subs'[k])
      ensures forall v :: v in subs'[k] <==> v in subs[k] && !(v == w && k in ks)
    {
      LeftOne(subs[k], w);
    }
  }

  /** Leaving exactly the deps that a watcher no longer lists keeps subscriptions two-sided. */
  lemma LeftTwoSided(p: Program, subs: map<Key, seq<Wid>>, subs': map<Key, seq<Wid>>, ws: map<Wid, Watcher>, w: Wid,
                     x': Watcher, ks: set<Key>)
    requires TwoSided(p, subs, ws) && w in ws && Tidy(p, x') && Left(subs, subs', w, ks)
    requires ws[w].depIds + ws[w].newDepIds - ks <= x'.depIds + x'.newDepIds
    requires forall k :: k in x'.depIds + x'.newDepIds && (x'.active || k !in x'.depIds) ==>
               && k in ws[w].depIds + ws[w].newDepIds && k !in ks
               && (ws[w].active || k !in ws[w].depIds)
    ensures TwoSided(p, subs', ws[w := x'])
  {
    hide Distinct, Left, Tidy, Lists;
    LeftLists(p, subs, subs', ws, w, ks);
  }

  /** Collecting and then leaving the deps not collected again is taking up the new deps. */
  lemma RejoinsAfter(p: Program, subs: map<Key, seq<Wid>>, ws: map<Wid, Watcher>, subs1: map<Key, seq<Wid>>,
                     x1: Watcher, subs2: map<Key, seq<Wid>>, w: Wid)
    requires TwoSided(p, subs, ws) && w in ws && ws[w].newDepIds == {} && OnlyCollected(ws[w], x1)
    requires Joins(subs, subs1, x1, w)
    requires forall k :: Lists(subs2, k, w) <==> Lists(subs1, k, w) && !(k in x1.depIds && k !in x1.newDepIds)
    ensures Rejoins(subs, subs2, ws[w], Cleaned(x1), w)
  {
    hide Lists, Tidy, Distinct;
  }

  lemma ElemsSnoc(run: seq<Wid>, w: Wid)
    ensures Elems(run + [w]) == {w} + Elems(run)
    ensures forall x :: x in run + [w] <==> x in run || x == w
  {
  }

  /** Starting to evaluate w, which must be out of the running evaluations and below them. */
  lemma PushKeeps(p: Program, data: map<Key, int>, ws: map<Wid, Watcher>, target: Option<Wid>, stack: seq<Wid>,
                  queued: set<Wid>, w: Wid)
    requires WellFounded(p) && data.Keys == p.keys && Nested(p, ws, target, stack)
    requires w in ws && (target.Some? ==> p.rank(w) < p.rank(target.value))
    requires Coherent(p, data, ws, queued, {w} + Elems(Running(target, stack)))
    ensures Running(Some(w), Running(target, stack)) == Running(target, stack) + [w] && w !in Running(target, stack)
    ensures Nested(p, ws, Some(w), Running(target, stack))
    ensures Coherent(p, data, ws, queued, {} + Elems(Running(Some(w), Running(target, stack))))
  {
    hide Coherent, WellFounded;
    var run := Running(target, stack);
    assert forall i :: 0 <= i < |run| ==> (run + [w])[i] == run[i];
    assert forall i :: 0 <= i < |run| - 1 ==> p.rank(run[i]) > p.rank(run[|run| - 1]);
    ElemsSnoc(run, w);
    assert {} + Elems(run + [w]) == {w} + Elems(run);
  }

  lemma PopNested(p: Program, ws: map<Wid, Watcher>, target: Option<Wid>, stack: seq<Wid>, w: Wid)
    requires Nested(p, ws, Some(w), Running(target, stack)) && w in ws && (target.None? ==> stack == [])
    ensures Nested(p, ws[w := Cleaned(ws[w])], target, stack)
  {
    var run := Running(target, stack);
    var run' := run + [w];
    assert forall i :: 0 <= i < |run| ==> run[i] == run'[i];
    ElemsSnoc(run, w);
  }

  /** Ending the evaluation of w. */
  lemma PopKeeps(p: Program, data: map<Key, int>, ws: map<Wid, Watcher>, ws': map<Wid, Watcher>,
                 target: Option<Wid>, stack: seq<Wid>, queued: set<Wid>, w: Wid)
    requires WellFounded(p) && data.Keys == p.keys
    requires target.None? ==> stack == []
    requires Nested(p, ws, Some(w), Running(target, stack))
    requires Coherent(p, data, ws, queued, {} + Elems(Running(Some(w), Running(target, stack))))
    requires w in ws && (ws[w].active || ws[w].dirty) && ws' == ws[w := Cleaned(ws[w])]
    ensures Nested(p, ws', target, stack) && Frozen(p, ws') == Frozen(p, ws)
    ensures Coherent(p, data, ws', queued, {w} + Elems(Running(target, stack)))
  {
    hide Nested, WellFounded, Eval;
    PopNested(p, ws, target, stack, w);
    ElemsSnoc(Running(target, stack), w);
    assert Frozen(p, ws') == Frozen(p, ws);
  }

  lemma SameDeps(p: Program, subs: map<Key, seq<Wid>>, ws: map<Wid, Watcher>, w: Wid, x': Watcher)
    requires TwoSided(p, subs, ws) && w in ws && x' == ws[w].(value := x'.value, dirty := x'.dirty)
    ensures TwoSided(p, subs, ws[w := x'])
  {
    hide Lists;
    assert Tidy(p, x') by { assert Tidy(p, ws[w]); }
  }

  /** Storing the value that w was just evaluated to. */
  lemma Settle(p: Program, data: map<Key, int>, subs: map<Key, seq<Wid>>, ws: map<Wid, Watcher>,
               target: Option<Wid>, stack: seq<Wid>, queued: set<Wid>, w: Wid, x': Watcher)
    requires WellFounded(p) && data.Keys == p.keys && w in ws && (ws[w].active || ws[w].dirty)
    requires TwoSided(p, subs, ws) && Nested(p, ws, target, stack)
    requires Coherent(p, data, ws, queued, {w} + Elems(Running(target, stack)))
    requires x' == ws[w].(value := x'.value, dirty := x'.dirty) && UpToDate(p, data, Frozen(p, ws), x', w)
    ensures TwoSided(p, subs, ws[w := x']) && Nested(p, ws[w := x'], target, stack)
    ensures Coherent(p, data, ws[w := x'], queued, {} + Elems(Running(target, stack)))
    ensures Refines(p, data, Frozen(p, ws), Frozen(p, ws[w := x']))
  {
    hide TwoSided, WellFounded, Tidy, Coherent, Eval, Running;
    SameDeps(p, subs, ws, w, x');
    assert Refines(p, data, Frozen(p, ws), Frozen(p, ws[w := x']));
    CoherentKept(p, data, ws, queued, {w} + Elems(Running(target, stack)), ws[w := x'], queued,
                 {} + Elems(Running(target, stack)));
  }

  // ----- notification

  /** The watchers of xs told that a dep changed: the lazy ones become dirty. */
  ghost function Dirtied(p: Program, ws: map<Wid, Watcher>, xs: set<Wid>): map<Wid, Watcher> {
    map w | w in ws :: if w in xs && p.lazy(w) then ws[w].(dirty := true) else ws[w]
  }

  /** The watchers of xs told that a dep changed: the others are queued. */
  ghost function Enqueued(p: Program, queued: set<Wid>, xs: set<Wid>): set<Wid> {
    queued + set w | w in xs && !p.lazy(w)
  }

  lemma ToldNone(p: Program, ws: map<Wid, Watcher>, queued: set<Wid>)
    ensures Dirtied(p, ws, {}) == ws && Enqueued(p, queued, {}) == queued && Elems<Wid>([]) == {}
  {
  }

  lemma ToldStep(p: Program, ws: map<Wid, Watcher>, queued: set<Wid>, told: seq<Wid>, i: nat)
    requires i < |told| && told[i] in ws
    ensures var xs, w, ys := Elems(told[..i]), told[i], Elems(told[..i + 1]);
            && w in Dirtied(p, ws, xs)
            && Dirtied(p, ws, ys)
               == (if p.lazy(w) then Dirtied(p, ws, xs)[w := Dirtied(p, ws, xs)[w].(dirty := true)]
                   else Dirtied(p, ws, xs))
            && Enqueued(p, queued, ys) == (if p.lazy(w) then Enqueued(p, queued, xs) else Enqueued(p, queued, xs) + {w})
  {
    assert told[..i + 1] == told[..i] + [told[i]];
    assert Elems(told[..i + 1]) == Elems(told[..i]) + {told[i]};
  }

  /** Telling exactly the subscribers of k makes up for changing k. */
  lemma NotifyKeeps(p: Program, data: map<Key, int>, data': map<Key, int>, k: Key, subs: map<Key, seq<Wid>>,
                    ws: map<Wid, Watcher>, queued: set<Wid>)
    requires WellFounded(p) && data.Keys == p.keys && data'.Keys == p.keys && k in p.keys && data'[k] != data[k]
    requires forall k' :: k' in p.keys && k' != k ==> data'[k'] == data[k']
    requires TwoSided(p, subs, ws) && Coherent(p, data, ws, queued, {})
    requires forall w :: w in ws ==> ws[w].newDepIds == {}
    ensures Coherent(p, data', Dirtied(p, ws, Elems(subs[k])), Enqueued(p, queued, Elems(subs[k])), {})
  {
    hide Eval, WellFounded, Distinct;
    var xs := Elems(subs[k]);
    var ws', queued' := Dirtied(p, ws, xs), Enqueued(p, queued, xs);
    var f, f' := Frozen(p, ws), Frozen(p, ws');
    assert DropsChanged(data, f, data', f') by {
      forall c | c in f && c !in f' ensures k in f[c].deps && !SameAt(data, data', k) {
        assert c in xs && Lists(subs, k, c);
      }
    }
    forall w | w in ws' && ws'[w].active && !Stale(p, ws'[w], w, queued') ensures UpToDate(p, data', f', ws'[w], w) {
      assert w !in xs && !Lists(subs, k, w);
      assert k !in ws[w].depIds;
      assert UpToDate(p, data, f, ws[w], w);
      forall c | c in f ensures f[c].deps <= p.keys {
        assert Tidy(p, ws[c]);
      }
      DepsAreKeys(p, data, f, w, []);
      OnlyDepsMatter(p, data, f, data', f', w, []);
    }
  }

  lemma DirtiedTwoSided(p: Program, subs: map<Key, seq<Wid>>, ws: map<Wid, Watcher>, xs: set<Wid>)
    requires TwoSided(p, subs, ws)
    ensures TwoSided(p, subs, Dirtied(p, ws, xs))
  {
    hide Distinct, Lists;
    var ws' := Dirtied(p, ws, xs);
    forall w | w in ws' ensures Tidy(p, ws'[w]) {
      assert Tidy(p, ws[w]);
    }
  }

  lemma DirtiedKeeps(p: Program, subs: map<Key, seq<Wid>>, ws: map<Wid, Watcher>, xs: set<Wid>,
                     target: Option<Wid>, stack: seq<Wid>)
    requires TwoSided(p, subs, ws) && Nested(p, ws, target, stack)
    ensures TwoSided(p, subs, Dirtied(p, ws, xs))
    ensures Nested(p, Dirtied(p, ws, xs), target, stack)
  {
    hide TwoSided;
    DirtiedTwoSided(p, subs, ws, xs);
  }

  function NewWatcher(lazy: bool): Watcher {
    Watcher(0, lazy, true, [], [], {}, {})
  }

  lemma RefinesSelf(p: Program, data: map<Key, int>, f: Caches)
    requires WellFounded(p) && data.Keys == p.keys
    ensures Refines(p, data, f, f)
  {
  }

  lemma NewTidy(p: Program, lazy: bool)
    ensures Tidy(p, NewWatcher(lazy))
  {
  }

  lemma CreateTwoSided(p: Program, subs: map<Key, seq<Wid>>, ws: map<Wid, Watcher>, w: Wid)
    requires TwoSided(p, subs, ws) && w !in ws
    ensures TwoSided(p, subs, ws[w := NewWatcher(p.lazy(w))])
  {
    hide Lists, Distinct;
    assert Tidy(p, NewWatcher(p.lazy(w))) by {
      NewTidy(p, p.lazy(w));
    }
  }

  lemma CreateKeeps(p: Program, data: map<Key, int>, subs: map<Key, seq<Wid>>, ws: map<Wid, Watcher>,
                    target: Option<Wid>, stack: seq<Wid>, queued: set<Wid>, w: Wid)
    requires WellFounded(p) && data.Keys == p.keys && w !in ws && target.None?
    requires TwoSided(p, subs, ws) && Nested(p, ws, target, stack)
    requires Coherent(p, data, ws, queued, {} + Elems(Running(target, stack)))
    ensures TwoSided(p, subs, ws[w := NewWatcher(p.lazy(w))])
    ensures Nested(p, ws[w := NewWatcher(p.lazy(w))], target, stack)
    ensures Coherent(p, data, ws[w := NewWatcher(p.lazy(w))], queued, {w} + Elems(Running(target, stack)))
    ensures Frozen(p, ws[w := NewWatcher(p.lazy(w))]) == Frozen(p, ws)
  {
    hide TwoSided, Eval, WellFounded, Elems, Refines;
    var ws' := ws[w := NewWatcher(p.lazy(w))];
    CreateTwoSided(p, subs, ws, w);
    assert Frozen(p, ws') == Frozen(p, ws);
    RefinesSelf(p, data, Frozen(p, ws));
    CoherentKept(p, data, ws, queued, {} + Elems(Running(target, stack)), ws', queued,
                 {w} + Elems(Running(target, stack)));
  }

  /** Tearing w down, when nothing is being evaluated: if its cache is frozen by that, it is a right one. */
  lemma TeardownKeeps(p: Program, data: map<Key, int>, ws: map<Wid, Watcher>, queued: set<Wid>, w: Wid)
    requires WellFounded(p) && data.Keys == p.keys && w in ws && ws[w].active && Coherent(p, data, ws, queued, {})
    ensures Coherent(p, data, ws[w := ws[w].(active := false)], queued, {})
    ensures Refines(p, data, Frozen(p, ws), Frozen(p, ws[w := ws[w].(active := false)]))
  {
    hide WellFounded, Eval;
    var ws' := ws[w := ws[w].(active := false)];
    assert Refines(p, data, Frozen(p, ws), Frozen(p, ws'));
    CoherentKept(p, data, ws, queued, {}, ws', queued, {});
  }

  // ----- histories

  datatype Op = SetOp(k: Key, v: int) | ReadOp(c: Wid) | RunOp(w: Wid) | CreateOp(w: Wid) | TeardownOp(w: Wid)

  /** What a history amounts to without any caches of computed properties: the data, the watchers created, those torn
      down, what each watcher that is not lazy saw when it last ran, and which of them are queued to run again. */
  datatype World = World(data: map<Key, int>, made: set<Wid>, torn: set<Wid>, seen: map<Wid, Outcome>, queued: set<Wid>)

  function NewWorld(data: map<Key, int>): World {
    World(data, {}, {}, map[], {})
  }

  /** The watchers in use that saw the data property k when they last ran. */
  ghost function Watching(wd: World, k: Key): set<Wid> {
    set w | w in wd.seen && w !in wd.torn && k in wd.seen[w].deps
  }

  ghost function After(p: Program, wd: World, op: Op): World
    requires WellFounded(p) && wd.data.Keys == p.keys
  {
    match op
    case SetOp(k, v) =>
      if k !in wd.data || wd.data[k] == v then wd
      else wd.(data := wd.data[k := v], queued := wd.queued + Watching(wd, k))
    case ReadOp(_) => wd
    case RunOp(w) =>
      if w !in wd.queued then wd
      else if w in wd.torn then wd.(queued := wd.queued - {w})
      else wd.(queued := wd.queued - {w}, seen := wd.seen[w := Eval(p, wd.data, map[], w, [])])
    case CreateOp(w) =>
      wd.(made := wd.made + {w}, seen := if p.lazy(w) then wd.seen else wd.seen[w := Eval(p, wd.data, map[], w, [])])
    case TeardownOp(w) => wd.(torn := wd.torn + {w})
  }

  ghost function AfterAll(p: Program, wd: World, ops: seq<Op>): (r: World)
    requires WellFounded(p) && wd.data.Keys == p.keys
    ensures r.data.Keys == wd.data.Keys
    decreases |ops|
  {
    if ops == [] then wd else AfterAll(p, After(p, wd, ops[0]), ops[1..])
  }

  /** What the reads of a history yield when every read evaluates its getter directly. */
  ghost function Direct(p: Program, wd: World, ops: seq<Op>): seq<int>
    requires WellFounded(p) && wd.data.Keys == p.keys
    decreases |ops|
  {
    if ops == [] then []
    else
      (if ops[0].ReadOp? then [Eval(p, wd.data, map[], ops[0].c, []).value] else [])
      + Direct(p, After(p, wd, ops[0]), ops[1..])
  }

  /** Direct evaluation of w, from where it has read h, reads no computed property that is not alive. */
  ghost predicate Lively(p: Program, data: map<Key, int>, alive: set<Wid>, w: Wid, h: seq<int>)
    requires WellFounded(p) && data.Keys == p.keys
    decreases p.rank(w), if |h| < p.getter(w).bound then p.getter(w).bound - |h| else 0
  {
    match p.getter(w).next(h)
    case Return(_) => true
    case ReadData(k) => Lively(p, data, alive, w, h + [data[k]])
    case ReadComputed(c) =>
      && c in alive
      && Lively(p, data, alive, c, [])
      && Lively(p, data, alive, w, h + [Eval(p, data, map[], c, []).value])
  }

  /** Then caches of properties that are not alive make no difference. */
  lemma {:induction false} LivelyIsDirect(p: Program, data: map<Key, int>, alive: set<Wid>, f: Caches, made: set<Wid>,
                                          w: Wid, h: seq<int>)
    requires WellFounded(p) && data.Keys == p.keys && Lively(p, data, alive, w, h)
    requires alive <= made && forall c :: c in f ==> c !in alive
    ensures Eval(p, data, f, w, h) == Eval(p, data, map[], w, h) && Ready(p, data, f, made, w, h)
    decreases p.rank(w), if |h| < p.getter(w).bound then p.getter(w).bound - |h| else 0
  {
    match p.getter(w).next(h)
    case Return(v) =>
    case ReadData(k) =>
      LivelyIsDirect(p, data, alive, f, made, w, h + [data[k]]);
    case ReadComputed(c) =>
      LivelyIsDirect(p, data, alive, f, made, c, []);
      LivelyIsDirect(p, data, alive, f, made, w, h + [Eval(p, data, map[], c, []).value]);
  }

  /** Watchers are created once, and what an evaluation reads is created and not torn down at that time. */
  ghost predicate Possible(p: Program, wd: World, op: Op)
    requires WellFounded(p) && wd.data.Keys == p.keys
  {
    match op
    case SetOp(k, v) => k in p.keys
    case ReadOp(c) => p.lazy(c) && c in wd.made - wd.torn && Lively(p, wd.data, wd.made - wd.torn, c, [])
    case RunOp(w) => w in wd.made - wd.torn ==> Lively(p, wd.data, wd.made - wd.torn, w, [])
    case CreateOp(w) => w !in wd.made && (!p.lazy(w) ==> Lively(p, wd.data, wd.made - wd.torn, w, []))
    case TeardownOp(w) => w in wd.made
  }

  ghost predicate Playable(p: Program, wd: World, ops: seq<Op>)
    requires WellFounded(p) && wd.data.Keys == p.keys
    decreases |ops|
  {
    ops == [] || (Possible(p, wd, ops[0]) && Playable(p, After(p, wd, ops[0]), ops[1..]))
  }

  /** What the watchers that are not lazy hold. */
  ghost function Seen(p: Program, ws: map<Wid, Watcher>): map<Wid, Outcome> {
    map w | w in ws && !p.lazy(w) :: Outcome(ws[w].value, ws[w].depIds)
  }

  /** Every queued watcher that is active can be run. */
  ghost predicate AllReady(p: Program, data: map<Key, int>, ws: map<Wid, Watcher>, xs: set<Wid>)
    requires WellFounded(p) && data.Keys == p.keys
  {
    forall w :: w in xs && w in ws && ws[w].active ==> Ready(p, data, Frozen(p, ws), ws.Keys, w, [])
  }

  lemma AllReadyKept(p: Program, data: map<Key, int>, ws: map<Wid, Watcher>, ws': map<Wid, Watcher>, xs: set<Wid>,
                     ys: set<Wid>)
    requires WellFounded(p) && data.Keys == p.keys && AllReady(p, data, ws, xs) && SameShape(ws, ws') && ys <= xs
    requires Refines(p, data, Frozen(p, ws), Frozen(p, ws'))
    ensures AllReady(p, data, ws', ys)
  {
    hide Ready, Refines, Frozen, WellFounded;
    forall w | w in ys && w in ws' && ws'[w].active ensures Ready(p, data, Frozen(p, ws'), ws'.Keys, w, []) {
      ReadyKept(p, data, Frozen(p, ws), Frozen(p, ws'), ws.Keys, ws'.Keys, w, []);
    }
  }

  class Runtime {
    const p: Program
    var data: map<Key, int>
    var subs: map<Key, seq<Wid>>
    var ws: map<Wid, Watcher>
    var target: Option<Wid>
    var stack: seq<Wid>
    var queued: set<Wid>

    /** Everything that holds between any two steps; the watchers in `except` may be out of date unmarked. */
    ghost predicate Inv(except: set<Wid>)
      reads this
    {
      && WellFounded(p) && data.Keys == p.keys
      && TwoSided(p, subs, ws)
      && Nested(p, ws, target, stack)
      && Coherent(p, data, ws, queued, except + Elems(Running(target, stack)))
    }

    /** Between operations: nothing is being evaluated, no torn-down watcher that is not lazy is listed, and only
        existing watchers that are not lazy are queued. */
    ghost predicate Quiet()
      reads this
    {
      && Inv({}) && target == None && Gone(p, subs, ws)
      && forall w :: w in queued ==> w in ws && !p.lazy(w)
    }

    constructor (p: Program, data: map<Key, int>)
      requires WellFounded(p) && data.Keys == p.keys
      ensures Quiet() && this.p == p && this.data == data && ws == map[] && queued == {}
      ensures Apart(subs, ws)
    {
      this.p, this.data := p, data;
      subs := map k | k in data :: [];
      ws := map[];
      target, stack, queued := None, [], {};
    }

    method PushTarget(t: Option<Wid>)
      modifies this`target, this`stack
      ensures Targets(target, stack) == Pushed(Targets(old(target), old(stack)), t)
    {
      if target.Some? {
        stack := stack + [target.value];
      }
      target := t;
    }

    method PopTarget()
      modifies this`target, this`stack
      ensures Targets(target, stack) == Popped(Targets(old(target), old(stack)))
    {
      if stack == [] {
        target := None;
      } else {
        target, stack := Some(stack[|stack| - 1]), stack[..|stack| - 1];
      }
    }

    /** `watcher.addDep(dep)`. */
    method AddDep(w: Wid, k: Key)
      requires Inv({}) && target == Some(w) && k in p.keys
      modifies this`ws, this`subs
      ensures Inv({}) && OnlyAt(old(subs), old(ws), subs, ws, w)
      ensures ws[w].newDepIds == old(ws)[w].newDepIds + {k}
      ensures subs == Subscribed(old(subs), old(ws)[w], w, k) && ws == old(ws)[w := Collected(old(ws)[w], k)]
    {
      hide TwoSided, Coherent, WellFounded, Nested, OnlyAt;
      Known(w);
      var x := ws[w];
      CollectTwoSided(p, subs, ws, w, k);
      CollectKeeps(p, data, subs, ws, Subscribed(subs, x, w, k), ws[w := Collected(x, k)], w, target, stack, queued,
                   {});
      assert k in x.newDepIds ==> ws == ws[w := x] && x.newDepIds == x.newDepIds + {k};
      if k !in x.newDepIds {
        if k !in x.depIds {
          subs := subs[k := subs[k] + [w]];
        }
        ws := ws[w := x.(newDepIds := x.newDepIds + {k}, newDeps := x.newDeps + [k])];
      }
    }

    lemma Known(w: Wid)
      requires Inv({}) && target == Some(w)
      ensures w in ws && w in Running(target, stack) && subs.Keys == p.keys
    {
      assert Running(target, stack)[|stack|] == w;
    }

    /** `watcher.depend()`: the running watcher takes over all deps of c. */
    method Depend(c: Wid)
      requires Inv({}) && target.Some? && c in ws && c !in Running(target, stack)
      modifies this`ws, this`subs
      ensures Inv({}) && OnlyAt(old(subs), old(ws), subs, ws, target.value)
      ensures ws[target.value].newDepIds == old(ws)[target.value].newDepIds + old(ws)[c].depIds
    {
      hide TwoSided, Coherent, WellFounded, Nested, Joins, SameSubs, OnlyCollected, OnlyAt;
      var t := target.value;
      Known(t);
      ghost var ws0, subs0 := ws, subs;
      var deps := ws[c].deps;
      DepsKnown(c);
      OnlyAtNone(t);
      var i := |deps|;
      while i > 0
        invariant 0 <= i <= |deps| && Inv({}) && OnlyAt(subs0, ws0, subs, ws, t) && t in ws && t in ws0
        invariant ws[t].newDepIds == ws0[t].newDepIds + Elems(deps[i..])
      {
        i := i - 1;
        ghost var subs1, ws1 := subs, ws;
        AddDep(t, deps[i]);
        OnlyAtStep(subs0, ws0, subs1, ws1, subs, ws, t);
        assert deps[i..] == [deps[i]] + deps[i + 1..];
        Known(t);
      }
      assert deps[0..] == deps;
    }

    lemma OnlyAtNone(w: Wid)
      requires Inv({}) && w in ws
      ensures OnlyAt(subs, ws, subs, ws, w)
    {
    }

    lemma DepsKnown(c: Wid)
      requires Inv({}) && c in ws
      ensures ws[c].depIds == Elems(ws[c].deps) && forall i :: 0 <= i < |ws[c].deps| ==> ws[c].deps[i] in p.keys
    {
      assert Tidy(p, ws[c]);
    }

    /** `watcher.cleanupDeps()`. */
    method CleanupDeps(w: Wid)
      requires TwoSided(p, subs, ws) && w in ws && (ws[w].active || ws[w].dirty)
      modifies this`ws, this`subs
      ensures ws == old(ws)[w := Cleaned(old(ws)[w])] && TwoSided(p, subs, ws)
      ensures forall k, v :: Lists(subs, k, v) <==>
                Lists(old(subs), k, v) && !(v == w && k in old(ws)[w].depIds && k !in old(ws)[w].newDepIds)
    {
      hide TwoSided, Left, Without, Distinct, Lists;
      var x := ws[w];
      ghost var subs0 := subs;
      TidyFacts(w);
      LeftNone(w, x);
      var i := |x.deps|;
      while i > 0
        invariant 0 <= i <= |x.deps|
        invariant ws == old(ws) && Left(subs0, subs, w, Elems(x.deps[i..]) - x.newDepIds)
      {
        i := i - 1;
        var k := x.deps[i];
        LeftStep(subs0, subs, w, x.deps, i, x.newDepIds);
        if k !in x.newDepIds {
          subs := subs[k := Without(subs[k], w)];
        }
      }
      assert x.deps[0..] == x.deps;
      ws := ws[w := x.(depIds := x.newDepIds, deps := x.newDeps, newDepIds := x.depIds, newDeps := x.deps)];
      ws := ws[w := ws[w].(newDepIds := {}, newDeps := [])];
      CleanedTidy(x);
      assert ws == old(ws)[w := Cleaned(x)];
      LeftLists(p, subs0, subs, old(ws), w, x.depIds - x.newDepIds);
      CleanedTwoSided(subs0, subs, old(ws), w);
    }

    lemma CleanedTwoSided(subs0: map<Key, seq<Wid>>, subs1: map<Key, seq<Wid>>, ws0: map<Wid, Watcher>, w: Wid)
      requires TwoSided(p, subs0, ws0) && w in ws0 && Left(subs0, subs1, w, ws0[w].depIds - ws0[w].newDepIds)
      ensures TwoSided(p, subs1, ws0[w := Cleaned(ws0[w])])
    {
      hide Lists, Distinct, Left, Tidy;
      var x := ws0[w];
      CleanedTidy(x);
      LeftTwoSided(p, subs0, subs1, ws0, w, Cleaned(x), x.depIds - x.newDepIds);
    }

    lemma CleanedTidy(x: Watcher)
      requires Tidy(p, x)
      ensures Tidy(p, Cleaned(x)) && x.depIds == Elems(x.deps)
    {
    }

    lemma LeftNone(w: Wid, x: Watcher)
      requires Tidy(p, x) && subs.Keys == p.keys
      ensures Left(subs, subs, w, Elems(x.deps[|x.deps|..]) - x.newDepIds)
              && Left(subs, subs, w, Elems(x.deps[|x.deps|..]) - {})
      ensures forall i :: 0 <= i < |x.deps| ==> x.deps[i] in p.keys
      ensures Distinct(x.deps)
    {
    }

    lemma TidyFacts(w: Wid)
      requires TwoSided(p, subs, ws) && w in ws
      ensures Tidy(p, ws[w]) && subs.Keys == p.keys
    {
    }

    /** `watcher.get()`: evaluates the getter of w, torn down or not, and collects its deps afresh. */
    method Get(w: Wid, ghost ok: set<Wid>) returns (v: int)
      requires Inv({w}) && w in ws && (ws[w].active || ws[w].dirty) && ok <= ws.Keys
      requires target.Some? ==> p.rank(w) < p.rank(target.value)
      requires Ready(p, data, Frozen(p, ws), ok, w, [])
      modifies this`ws, this`subs, this`target, this`stack
      ensures Inv({w}) && target == old(target) && stack == old(stack)
      ensures Moved(p, data, old(subs), old(ws), subs, ws, Some(w), p.rank(w), ok) && w in ws
      ensures Outcome(v, ws[w].depIds) == Eval(p, data, Frozen(p, old(ws)), w, [])
      ensures ws[w] == old(ws)[w].(deps := ws[w].deps, depIds := ws[w].depIds)
      ensures Rejoins(old(subs), subs, old(ws)[w], ws[w], w)
      ensures Refines(p, data, Frozen(p, old(ws)), Frozen(p, ws))
      decreases p.rank(w), 2
    {
      hide TwoSided, Coherent, WellFounded, Nested, Eval, Moved, Ready, Frozen, Joins, Rejoins, Refines, Lists;
      NestedFacts({w});
      PushKeeps(p, data, ws, target, stack, queued, w);
      IdleFacts({w}, w);
      PopUndoesPush(Targets(target, stack), Some(w));
      ghost var subs0, ws0 := subs, ws;
      PushTarget(Some(w));
      v := RunGetter(w, ok);
      Known(w);
      PopTarget();
      ghost var subs1, ws1 := subs, ws;
      MovedRefines(p, data, subs0, ws0, subs1, ws1, Some(w), p.rank(w), ok);
      CleanupDeps(w);
      PopKeeps(p, data, ws1, ws, target, stack, queued, w);
      RejoinsAfter(p, subs0, ws0, subs1, ws1[w], subs, w);
      MovedCleaned(subs0, ws0, subs1, ws1, w, ok);
    }

    lemma MovedCleaned(subs0: map<Key, seq<Wid>>, ws0: map<Wid, Watcher>, subs1: map<Key, seq<Wid>>,
                       ws1: map<Wid, Watcher>, w: Wid, ok: set<Wid>)
      requires WellFounded(p) && data.Keys == p.keys && Moved(p, data, subs0, ws0, subs1, ws1, Some(w), p.rank(w), ok)
      requires w in ws1 && ws == ws1[w := Cleaned(ws1[w])]
      requires forall k, v :: v != w ==> (Lists(subs, k, v) <==> Lists(subs1, k, v))
      ensures Moved(p, data, subs0, ws0, subs, ws, Some(w), p.rank(w), ok)
    {
      hide WellFounded, Eval, Frozen, Lists;
      forall x | x in ws0 && x != w
        ensures Turned(p, data, Frozen(p, ws0), subs0, ws0[x], subs, ws[x], x, p.rank(w), ok)
      {
        assert Turned(p, data, Frozen(p, ws0), subs0, ws0[x], subs1, ws1[x], x, p.rank(w), ok);
      }
    }

    lemma NestedFacts(except: set<Wid>)
      requires Inv(except)
      ensures target.None? ==> stack == []
      ensures Running(target, stack) == if target.Some? then stack + [target.value] else stack
    {
    }

    lemma IdleFacts(except: set<Wid>, w: Wid)
      requires Inv(except) && w in ws && w !in Running(target, stack)
      ensures ws[w].newDeps == [] && ws[w].newDepIds == {}
    {
      assert Tidy(p, ws[w]);
    }

    /** Runs the getter of w to its end. */
    method RunGetter(w: Wid, ghost ok: set<Wid>) returns (v: int)
      requires Inv({}) && target == Some(w) && w in ws && ws[w].newDepIds == {} && ok <= ws.Keys
      requires Ready(p, data, Frozen(p, ws), ok, w, [])
      modifies this`ws, this`subs, this`target, this`stack
      ensures Inv({}) && target == old(target) && stack == old(stack)
      ensures Moved(p, data, old(subs), old(ws), subs, ws, Some(w), p.rank(w), ok) && w in ws
      ensures OnlyCollected(old(ws)[w], ws[w]) && Joins(old(subs), subs, ws[w], w)
      ensures Outcome(v, ws[w].newDepIds) == Eval(p, data, Frozen(p, old(ws)), w, [])
      decreases p.rank(w), 1
    {
      hide TwoSided, Coherent, Nested, Eval, Moved, OnlyCollected, WellFounded, Ready, Frozen, Joins, Refines;
      ghost var subs0, ws0, f := subs, ws, Frozen(p, ws);
      var h: seq<int> := [];
      NothingYet(w, ok);
      while !p.getter(w).next(h).Return?
        invariant Inv({}) && target == old(target) && stack == old(stack) && w in ws && w in ws0
        invariant Moved(p, data, subs0, ws0, subs, ws, Some(w), p.rank(w), ok)
        invariant OnlyCollected(ws0[w], ws[w]) && Joins(subs0, subs, ws[w], w)
        invariant Ready(p, data, f, ok, w, h) && ok <= ws.Keys
        invariant Eval(p, data, f, w, []).value == Eval(p, data, f, w, h).value
        invariant Eval(p, data, f, w, []).deps == ws[w].newDepIds + Eval(p, data, f, w, h).deps
        decreases p.getter(w).bound - |h|
      {
        InBound(w, h);
        ghost var subs1, ws1 := subs, ws;
        Carried(f, subs0, ws0, w, h, ok);
        var x := ReadNext(w, h, ok);
        CarriedOn(subs0, ws0, subs1, ws1, w, h, x, ok);
        Known(w);
        h := h + [x];
      }
      EvalReturn(f, w, h);
      v := p.getter(w).next(h).v;
    }

    lemma NothingYet(w: Wid, ok: set<Wid>)
      requires Inv({}) && w in ws && ws[w].newDepIds == {}
      ensures Moved(p, data, subs, ws, subs, ws, Some(w), p.rank(w), ok) && OnlyCollected(ws[w], ws[w])
      ensures Joins(subs, subs, ws[w], w)
    {
      MovedNot(p, data, subs, ws, Some(w), p.rank(w), ok);
    }

    /** What is ready with the caches from the start is ready with those of now. */
    lemma Carried(f: Caches, subs0: map<Key, seq<Wid>>, ws0: map<Wid, Watcher>, w: Wid, h: seq<int>, ok: set<Wid>)
      requires Inv({}) && w in ws0 && w in ws && f == Frozen(p, ws0) && Ready(p, data, f, ok, w, h)
      requires Moved(p, data, subs0, ws0, subs, ws, Some(w), p.rank(w), ok) && OnlyCollected(ws0[w], ws[w])
      ensures Ready(p, data, Frozen(p, ws), ok, w, h)
    {
      hide TwoSided, Coherent, Nested, Eval, WellFounded, Ready, Frozen, Refines, OnlyCollected;
      MovedRefines(p, data, subs0, ws0, subs, ws, Some(w), p.rank(w), ok);
      ReadyKept(p, data, f, Frozen(p, ws), ok, ok, w, h);
    }

    /** One more read, in terms of the start. */
    lemma CarriedOn(subs0: map<Key, seq<Wid>>, ws0: map<Wid, Watcher>, subs1: map<Key, seq<Wid>>,
                    ws1: map<Wid, Watcher>, w: Wid, h: seq<int>, x: int, ok: set<Wid>)
      requires Inv({}) && w in ws0 && w in ws1 && w in ws
      requires Moved(p, data, subs0, ws0, subs1, ws1, Some(w), p.rank(w), ok)
      requires OnlyCollected(ws0[w], ws1[w]) && Joins(subs0, subs1, ws1[w], w)
      requires Moved(p, data, subs1, ws1, subs, ws, Some(w), p.rank(w), ok)
      requires OnlyCollected(ws1[w], ws[w]) && Joins(subs1, subs, ws[w], w)
      requires !p.getter(w).next(h).Return? && Ready(p, data, Frozen(p, ws0), ok, w, h)
      requires x == NextRead(p, data, Frozen(p, ws1), w, h)
      ensures Moved(p, data, subs0, ws0, subs, ws, Some(w), p.rank(w), ok)
      ensures OnlyCollected(ws0[w], ws[w]) && Joins(subs0, subs, ws[w], w) && ws.Keys == ws1.Keys
      ensures var f, f1 := Frozen(p, ws0), Frozen(p, ws1);
              && Ready(p, data, f, ok, w, h + [x])
              && Eval(p, data, f, w, h) == Eval(p, data, f1, w, h)
              && Eval(p, data, f, w, h + [x]) == Eval(p, data, f1, w, h + [x])
    {
      hide TwoSided, Coherent, Nested, Eval, Moved, WellFounded, Ready, Frozen, Lists, NextRead, Refines;
      var f, f1 := Frozen(p, ws0), Frozen(p, ws1);
      MovedStep(p, data, subs0, ws0, subs1, ws1, subs, ws, Some(w), p.rank(w), ok);
      MovedShape(p, data, subs1, ws1, subs, ws, Some(w), p.rank(w), ok);
      MovedRefines(p, data, subs0, ws0, subs1, ws1, Some(w), p.rank(w), ok);
      SameEval(p, data, f, f1, w, h);
      SameEval(p, data, f, f1, w, h + [x]);
      SameNext(f, f1, w, h);
      ReadyNext(f, ok, w, h);
    }

    lemma SameNext(f: Caches, f': Caches, w: Wid, h: seq<int>)
      requires WellFounded(p) && data.Keys == p.keys && !p.getter(w).next(h).Return? && Refines(p, data, f, f')
      ensures NextRead(p, data, f', w, h) == NextRead(p, data, f, w, h)
    {
      var a := p.getter(w).next(h);
      if a.ReadComputed? {
        SameEval(p, data, f, f', a.c, []);
      }
    }

    lemma ReadyNext(f: Caches, made: set<Wid>, w: Wid, h: seq<int>)
      requires WellFounded(p) && data.Keys == p.keys && !p.getter(w).next(h).Return? && Ready(p, data, f, made, w, h)
      ensures Ready(p, data, f, made, w, h + [NextRead(p, data, f, w, h)])
    {
    }

    lemma InBound(w: Wid, h: seq<int>)
      requires Inv({}) && !p.getter(w).next(h).Return?
      ensures |h| < p.getter(w).bound
    {
    }

    lemma EvalReturn(f: Caches, w: Wid, h: seq<int>)
      requires Inv({}) && p.getter(w).next(h).Return?
      ensures Eval(p, data, f, w, h) == Outcome(p.getter(w).next(h).v, {})
    {
    }

    /** One read of a running getter. */
    method ReadNext(w: Wid, h: seq<int>, ghost ok: set<Wid>) returns (x: int)
      requires Inv({}) && target == Some(w) && w in ws && !p.getter(w).next(h).Return? && ok <= ws.Keys
      requires Ready(p, data, Frozen(p, ws), ok, w, h)
      modifies this`ws, this`subs, this`target, this`stack
      ensures Inv({}) && target == old(target) && stack == old(stack) && w in ws
      ensures Moved(p, data, old(subs), old(ws), subs, ws, Some(w), p.rank(w), ok)
      ensures OnlyCollected(old(ws)[w], ws[w]) && Joins(old(subs), subs, ws[w], w)
      ensures var f := Frozen(p, old(ws));
              && x == NextRead(p, data, f, w, h)
              && Eval(p, data, f, w, h).value == Eval(p, data, f, w, h + [x]).value
              && old(ws)[w].newDepIds + Eval(p, data, f, w, h).deps
                 == ws[w].newDepIds + Eval(p, data, f, w, h + [x]).deps
      decreases p.rank(w), 0
    {
      hide TwoSided, Coherent, Nested, WellFounded, Eval, Moved, OnlyCollected, Ready, Frozen, Joins;
      var a := p.getter(w).next(h);
      ghost var subs0, ws0 := subs, ws;
      EvalRead(w, h, ok);
      if a.ReadData? {
        x := ReadData(a.k);
        OnlyAtMoved(p, data, subs0, ws0, subs, ws, w, p.rank(w), ok);
      } else {
        x := ReadComputed(a.c, ok);
        MovedWider(p, data, subs0, ws0, subs, ws, Some(w), p.rank(a.c) + 1, p.rank(w), Some(w), ok);
      }
    }

    lemma EvalRead(w: Wid, h: seq<int>, ok: set<Wid>)
      requires Inv({}) && !p.getter(w).next(h).Return? && Ready(p, data, Frozen(p, ws), ok, w, h) && ok <= ws.Keys
      ensures p.getter(w).next(h).ReadData? ==>
                var f, k := Frozen(p, ws), p.getter(w).next(h).k;
                && k in p.keys
                && Eval(p, data, f, w, h).value == Eval(p, data, f, w, h + [data[k]]).value
                && Eval(p, data, f, w, h).deps == {k} + Eval(p, data, f, w, h + [data[k]]).deps
      ensures p.getter(w).next(h).ReadComputed? ==>
                var f, c := Frozen(p, ws), p.getter(w).next(h).c;
                && p.lazy(c) && p.rank(c) < p.rank(w) && c in ws
                && (ws[c].dirty ==> c in ok && Ready(p, data, f, ok, c, []))
                && var inner := Answer(p, data, f, c);
                   && Eval(p, data, f, w, h).value == Eval(p, data, f, w, h + [inner.value]).value
                   && Eval(p, data, f, w, h).deps == inner.deps + Eval(p, data, f, w, h + [inner.value]).deps
    {
      hide TwoSided, Coherent, Nested;
    }

    /** The getter of a data property. */
    method ReadData(k: Key) returns (v: int)
      requires Inv({}) && k in p.keys
      modifies this`ws, this`subs
      ensures Inv({}) && v == data[k]
      ensures target.None? ==> ws == old(ws) && subs == old(subs)
      ensures target.Some? ==>
                && OnlyAt(old(subs), old(ws), subs, ws, target.value)
                && ws[target.value].newDepIds == old(ws)[target.value].newDepIds + {k}
    {
      v := data[k];
      if target.Some? {
        AddDep(target.value, k);
      }
    }

    /** The getter of a computed property, torn down or not: a dirty one is evaluated; a torn-down one that is not dirty
        answers from its frozen cache. */
    method ReadComputed(c: Wid, ghost ok: set<Wid>) returns (v: int)
      requires Inv({}) && c in ws && p.lazy(c) && ok <= ws.Keys
      requires ws[c].dirty ==> c in ok && Ready(p, data, Frozen(p, ws), ok, c, [])
      requires target.Some? ==> p.rank(c) < p.rank(target.value)
      modifies this`ws, this`subs, this`target, this`stack
      ensures Inv({}) && target == old(target) && stack == old(stack)
      ensures Moved(p, data, old(subs), old(ws), subs, ws, target, p.rank(c) + 1, ok)
      ensures v == Answer(p, data, Frozen(p, old(ws)), c).value
      ensures c in ws && !ws[c].dirty && (old(ws)[c].dirty ==> Rejoins(old(subs), subs, old(ws)[c], ws[c], c))
      ensures target.Some? ==>
                && target.value in ws && target.value in old(ws)
                && OnlyCollected(old(ws)[target.value], ws[target.value])
                && Joins(old(subs), subs, ws[target.value], target.value)
                && ws[target.value].newDepIds
                   == old(ws)[target.value].newDepIds + Answer(p, data, Frozen(p, old(ws)), c).deps
      decreases p.rank(c), 4
    {
      hide TwoSided, WellFounded, Nested, Eval, Coherent, Moved, Ready, Frozen, Joins, Rejoins, OnlyCollected, OnlyAt,
           Lists, Answer;
      ghost var subs0, ws0 := subs, ws;
      NotRunning(c);
      MovedNot(p, data, subs, ws, None, p.rank(c) + 1, ok);
      CleanAnswer(c);
      if ws[c].dirty {
        Evaluate(c, ok);
      }
      ghost var subs1, ws1 := subs, ws;
      if target.Some? {
        Known(target.value);
        SameTarget(subs0, ws0, c, ok);
        Depend(c);
        TargetMoved(subs0, ws0, subs1, ws1, c, ok);
      }
      v := ws[c].value;
    }

    /** What a clean computed property has in its cache is what reading it should yield. */
    lemma CleanAnswer(c: Wid)
      requires Inv({}) && c in ws && p.lazy(c) && c !in Running(target, stack)
      ensures !ws[c].dirty ==> Answer(p, data, Frozen(p, ws), c) == Outcome(ws[c].value, ws[c].depIds)
      ensures ws[c].dirty ==> Answer(p, data, Frozen(p, ws), c) == Eval(p, data, Frozen(p, ws), c, [])
    {
      hide TwoSided, WellFounded, Nested, Eval;
    }

    /** The target is of higher rank than c, so evaluating c left it alone. */
    lemma SameTarget(subs0: map<Key, seq<Wid>>, ws0: map<Wid, Watcher>, c: Wid, ok: set<Wid>)
      requires Inv({}) && target.Some? && target.value in ws && p.rank(c) < p.rank(target.value)
      requires Moved(p, data, subs0, ws0, subs, ws, None, p.rank(c) + 1, ok)
      ensures target.value in ws0 && ws0[target.value] == ws[target.value] && SameSubs(subs0, subs, target.value)
    {
      hide TwoSided, WellFounded, Nested, Eval, Frozen, Coherent, Rejoins, SameSubs;
      var t := target.value;
      assert Turned(p, data, Frozen(p, ws0), subs0, ws0[t], subs, ws[t], t, p.rank(c) + 1, ok);
    }

    /** Evaluating c and then taking over its deps. */
    lemma TargetMoved(subs0: map<Key, seq<Wid>>, ws0: map<Wid, Watcher>, subs1: map<Key, seq<Wid>>,
                      ws1: map<Wid, Watcher>, c: Wid, ok: set<Wid>)
      requires Inv({}) && target.Some? && target.value in ws0 && target.value in ws1 && p.rank(c) < p.rank(target.value)
      requires Moved(p, data, subs0, ws0, subs1, ws1, None, p.rank(c) + 1, ok)
      requires OnlyAt(subs1, ws1, subs, ws, target.value)
      requires ws0[target.value] == ws1[target.value] && SameSubs(subs0, subs1, target.value)
      requires c in ws1 && c in ws0
      ensures Moved(p, data, subs0, ws0, subs, ws, target, p.rank(c) + 1, ok)
      ensures target.value in ws && OnlyCollected(ws0[target.value], ws[target.value])
      ensures Joins(subs0, subs, ws[target.value], target.value)
      ensures c in ws && ws[c] == ws1[c]
      ensures Rejoins(subs0, subs1, ws0[c], ws1[c], c) ==> Rejoins(subs0, subs, ws0[c], ws[c], c)
    {
      hide TwoSided, WellFounded, Nested, Eval, Frozen, Coherent, Moved, Lists;
      var t := target.value;
      OnlyAtMoved(p, data, subs1, ws1, subs, ws, t, p.rank(c) + 1, ok);
      MovedWider(p, data, subs0, ws0, subs1, ws1, None, p.rank(c) + 1, p.rank(c) + 1, Some(t), ok);
      MovedStep(p, data, subs0, ws0, subs1, ws1, subs, ws, Some(t), p.rank(c) + 1, ok);
    }

    lemma NotRunning(c: Wid)
      requires Inv({}) && (target.Some? ==> p.rank(c) < p.rank(target.value))
      ensures c !in Running(target, stack)
    {
      var run := Running(target, stack);
      assert target.Some? ==> run[|run| - 1] == target.value;
      assert forall i :: 0 <= i < |run| - 1 ==> p.rank(run[i]) > p.rank(run[|run| - 1]);
    }

    lemma Weaken(w: Wid)
      requires Inv({})
      ensures Inv({w})
    {
    }

    /** `watcher.evaluate()`. */
    method Evaluate(c: Wid, ghost ok: set<Wid>)
      requires Inv({}) && c in ok && ok <= ws.Keys && p.lazy(c) && ws[c].dirty
      requires Ready(p, data, Frozen(p, ws), ok, c, [])
      requires target.Some? ==> p.rank(c) < p.rank(target.value)
      modifies this`ws, this`subs, this`target, this`stack
      ensures Inv({}) && target == old(target) && stack == old(stack)
      ensures Moved(p, data, old(subs), old(ws), subs, ws, None, p.rank(c) + 1, ok)
      ensures c in ws && !ws[c].dirty && Rejoins(old(subs), subs, old(ws)[c], ws[c], c)
      ensures Outcome(ws[c].value, ws[c].depIds) == Eval(p, data, Frozen(p, old(ws)), c, [])
      decreases p.rank(c), 3
    {
      hide TwoSided, Coherent, WellFounded, Nested, Eval, Moved, Ready, Frozen, Rejoins, Refines;
      Weaken(c);
      ghost var subs0, ws0 := subs, ws;
      var v := Get(c, ok);
      SameEval(p, data, Frozen(p, ws0), Frozen(p, ws), c, []);
      Settle(p, data, subs, ws, target, stack, queued, c, ws[c].(value := v, dirty := false));
      ghost var ws1 := ws;
      ws := ws[c := ws[c].(value := v)];
      ws := ws[c := ws[c].(dirty := false)];
      assert ws == ws1[c := ws1[c].(value := v, dirty := false)];
      Evaluated(subs0, ws0, ws1, c, ok);
    }

    /** Get and the storing of its value, as one move. */
    lemma Evaluated(subs0: map<Key, seq<Wid>>, ws0: map<Wid, Watcher>, ws1: map<Wid, Watcher>, c: Wid, ok: set<Wid>)
      requires WellFounded(p) && data.Keys == p.keys && c in ok && c in ws0 && c in ws1 && p.lazy(c) && ws0[c].dirty
      requires Moved(p, data, subs0, ws0, subs, ws1, Some(c), p.rank(c), ok)
      requires c in ws && ws == ws1[c := ws[c]] && ws[c] == ws1[c].(value := ws[c].value, dirty := false)
      requires Rejoins(subs0, subs, ws0[c], ws1[c], c)
      requires Outcome(ws[c].value, ws[c].depIds) == Eval(p, data, Frozen(p, ws0), c, [])
      ensures Moved(p, data, subs0, ws0, subs, ws, None, p.rank(c) + 1, ok) && Rejoins(subs0, subs, ws0[c], ws[c], c)
    {
      hide WellFounded, Eval, Frozen, Lists, SameSubs;
      forall x | x in ws0 ensures Turned(p, data, Frozen(p, ws0), subs0, ws0[x], subs, ws[x], x, p.rank(c) + 1, ok) {
        if x != c {
          assert Turned(p, data, Frozen(p, ws0), subs0, ws0[x], subs, ws1[x], x, p.rank(c), ok);
        }
      }
    }

    lemma QuietFacts()
      requires Quiet()
      ensures stack == [] && Running(target, stack) == [] && {} + Elems(Running(target, stack)) == {}
      ensures WellFounded(p) && data.Keys == p.keys && TwoSided(p, subs, ws) && subs.Keys == p.keys
      ensures Coherent(p, data, ws, queued, {})
      ensures forall k, w :: k in p.keys && w in subs[k] ==> w in ws
      ensures forall w :: w in ws ==> ws[w].newDepIds == {}
    {
      assert {} + Elems(Running(target, stack)) == {};
      forall k, w | k in p.keys && w in subs[k] ensures w in ws {
        assert Lists(subs, k, w);
      }
      forall w | w in ws ensures ws[w].newDepIds == {} {
        assert Tidy(p, ws[w]);
      }
    }

    /** `watcher.update()`. */
    method Update(w: Wid)
      requires w in ws
      modifies this`ws, this`queued
      ensures ws == if p.lazy(w) then old(ws)[w := old(ws)[w].(dirty := true)] else old(ws)
      ensures queued == if p.lazy(w) then old(queued) else old(queued) + {w}
    {
      if p.lazy(w) {
        ws := ws[w := ws[w].(dirty := true)];
      } else {
        queued := queued + {w};
      }
    }

    /** The setter of a data property. */
    method SetData(k: Key, v: int)
      requires Quiet() && k in p.keys
      modifies this`data, this`ws, this`queued
      ensures Quiet() && data == old(data)[k := v]
      ensures v == old(data)[k] ==> ws == old(ws) && queued == old(queued)
      ensures v != old(data)[k] ==> ws == Dirtied(p, old(ws), Elems(subs[k]))
                                    && queued == Enqueued(p, old(queued), Elems(subs[k]))
      ensures SameShape(old(ws), ws)
    {
      hide TwoSided, Coherent, WellFounded, Nested;
      QuietFacts();
      if v == data[k] {
        assert data == data[k := v];
        return;
      }
      NotifyKeeps(p, data, data[k := v], k, subs, ws, queued);
      DirtiedKeeps(p, subs, ws, Elems(subs[k]), target, stack);
      data := data[k := v];
      Notify(k);
    }

    /** `dep.notify()`: tells a snapshot of the subscribers. */
    method Notify(k: Key)
      requires k in subs && forall w :: w in subs[k] ==> w in ws
      modifies this`ws, this`queued
      ensures ws == Dirtied(p, old(ws), Elems(subs[k])) && queued == Enqueued(p, old(queued), Elems(subs[k]))
    {
      hide Dirtied, Enqueued;
      ghost var ws0, queued0 := ws, queued;
      var told := subs[k];
      ToldNone(p, ws, queued);
      var i := 0;
      while i < |told|
        invariant 0 <= i <= |told|
        invariant ws == Dirtied(p, ws0, Elems(told[..i])) && queued == Enqueued(p, queued0, Elems(told[..i]))
      {
        ToldStep(p, ws0, queued0, told, i);
        Update(told[i]);
        i := i + 1;
      }
      assert told[..|told|] == told;
    }

    /** `watcher.run()`, as the scheduler calls it for a queued watcher. */
    method Run(w: Wid, ghost ok: set<Wid>)
      requires Quiet() && w in queued && ok <= ws.Keys
      requires ws[w].active ==> Ready(p, data, Frozen(p, ws), ok, w, [])
      modifies this`ws, this`subs, this`target, this`stack, this`queued
      ensures Quiet() && queued == old(queued) - {w} && SameShape(old(ws), ws) && w in ws
      ensures ws[w].active ==>
                && Moved(p, data, old(subs), old(ws), subs, ws, Some(w), p.rank(w), ok)
                && Refines(p, data, Frozen(p, old(ws)), Frozen(p, ws))
                && UpToDate(p, data, Frozen(p, ws), ws[w], w)
      ensures !ws[w].active ==> ws == old(ws) && subs == old(subs)
    {
      hide TwoSided, Coherent, WellFounded, Nested, Eval, Moved, Ready, Frozen, Refines, Rejoins, Gone;
      QuietFacts();
      Dequeue(w);
      queued := queued - {w};
      if ws[w].active {
        ghost var subs0, ws0 := subs, ws;
        var v := Get(w, ok);
        ghost var ws1 := ws;
        SameEval(p, data, Frozen(p, ws0), Frozen(p, ws1), w, []);
        Settle(p, data, subs, ws, target, stack, queued, w, ws[w].(value := v));
        if v != ws[w].value {
          ws := ws[w := ws[w].(value := v)];
        } else {
          assert ws == ws[w := ws[w].(value := v)];
        }
        Stored(subs0, ws0, ws1, w, v, ok);
        MovedGone(p, data, subs0, ws0, subs, ws, Some(w), p.rank(w), ok);
      }
    }

    lemma Dequeue(w: Wid)
      requires Quiet() && w in queued
      ensures w in ws && !p.lazy(w) && Coherent(p, data, ws, queued - {w}, {w} + Elems(Running(target, stack)))
      ensures !ws[w].active ==> Coherent(p, data, ws, queued - {w}, {} + Elems(Running(target, stack)))
    {
      hide Eval, WellFounded, TwoSided, Frozen;
    }

    /** Get and the storing of its value in an active watcher. */
    lemma Stored(subs0: map<Key, seq<Wid>>, ws0: map<Wid, Watcher>, ws1: map<Wid, Watcher>, w: Wid, v: int,
                 ok: set<Wid>)
      requires WellFounded(p) && data.Keys == p.keys && w in ws0 && w in ws1
      requires Moved(p, data, subs0, ws0, subs, ws1, Some(w), p.rank(w), ok)
      requires Refines(p, data, Frozen(p, ws0), Frozen(p, ws1)) && Refines(p, data, Frozen(p, ws1), Frozen(p, ws))
      requires ws == ws1[w := ws1[w].(value := v)] && UpToDate(p, data, Frozen(p, ws1), ws[w], w)
      ensures Moved(p, data, subs0, ws0, subs, ws, Some(w), p.rank(w), ok) && SameShape(ws0, ws)
      ensures Refines(p, data, Frozen(p, ws0), Frozen(p, ws)) && UpToDate(p, data, Frozen(p, ws), ws[w], w)
    {
      hide WellFounded, Eval, Frozen, Turned, Refines;
      RefinesStep(p, data, Frozen(p, ws0), Frozen(p, ws1), Frozen(p, ws));
      SameEval(p, data, Frozen(p, ws1), Frozen(p, ws), w, []);
    }

    /** Running every queued watcher brings every active non-lazy watcher up to date. */
    method Flush()
      requires Quiet() && AllReady(p, data, ws, queued)
      modifies this`ws, this`subs, this`target, this`stack, this`queued
      ensures Quiet() && queued == {} && SameShape(old(ws), ws)
      ensures forall w :: w in ws && ws[w].active && !p.lazy(w) ==> UpToDate(p, data, Frozen(p, ws), ws[w], w)
    {
      hide TwoSided, WellFounded, Nested, Eval, Ready, Frozen, Refines, Moved;
      while queued != {}
        invariant Quiet() && SameShape(old(ws), ws) && AllReady(p, data, ws, queued)
        decreases queued
      {
        var w :| w in queued;
        ghost var ws1, queued1 := ws, queued;
        Run(w, ws.Keys);
        RefinesSelf(p, data, Frozen(p, ws));
        AllReadyKept(p, data, ws1, ws, queued1, queued);
      }
      QuietFacts();
    }

    /** `new Watcher(...)`. */
    method Create(w: Wid, ghost ok: set<Wid>)
      requires Quiet() && w !in ws && ok <= ws.Keys
      requires !p.lazy(w) ==> Ready(p, data, Frozen(p, ws), ok, w, [])
      modifies this`ws, this`subs, this`target, this`stack
      ensures Quiet() && SameShape(old(ws)[w := NewWatcher(p.lazy(w))], ws)
      ensures p.lazy(w) ==> ws == old(ws)[w := NewWatcher(true)] && subs == old(subs)
      ensures !p.lazy(w) ==>
                && Moved(p, data, old(subs), old(ws)[w := NewWatcher(false)], subs, ws, Some(w), p.rank(w), ok)
                && UpToDate(p, data, Frozen(p, ws), ws[w], w)
      ensures Refines(p, data, Frozen(p, old(ws)), Frozen(p, ws))
    {
      hide TwoSided, Coherent, WellFounded, Nested, Eval, Ready, Moved, Frozen, Refines, Rejoins, Gone;
      CreateKeeps(p, data, subs, ws, target, stack, queued, w);
      NewGone(subs, ws, w);
      ws := ws[w := NewWatcher(p.lazy(w))];
      ghost var subs0, ws0 := subs, ws;
      RefinesSelf(p, data, Frozen(p, ws));
      if p.lazy(w) {
        DirtyNow(w);
      } else {
        var v := Get(w, ok);
        ghost var ws1 := ws;
        SameEval(p, data, Frozen(p, ws0), Frozen(p, ws1), w, []);
        Settle(p, data, subs, ws, target, stack, queued, w, ws[w].(value := v));
        ws := ws[w := ws[w].(value := v)];
        Stored(subs0, ws0, ws1, w, v, ok);
        MovedGone(p, data, subs0, ws0, subs, ws, Some(w), p.rank(w), ok);
      }
    }

    lemma DirtyNow(w: Wid)
      requires Inv({w}) && w in ws && p.lazy(w) && ws[w].dirty
      ensures Inv({})
    {
      hide Eval, WellFounded, TwoSided, Frozen;
    }

    /** `watcher.teardown()`. */
    method Teardown(w: Wid)
      requires Quiet() && w in ws
      modifies this`ws, this`subs
      ensures Quiet() && ws == old(ws)[w := old(ws)[w].(active := false)]
      ensures if old(ws)[w].active then forall k, v :: Lists(subs, k, v) <==> Lists(old(subs), k, v) && v != w
              else subs == old(subs)
      ensures Refines(p, data, Frozen(p, old(ws)), Frozen(p, ws))
    {
      hide TwoSided, Coherent, WellFounded, Nested, Left, Without, Distinct, Tidy, Elems, Running, Lists, Frozen,
           Refines;
      QuietFacts();
      if ws[w].active {
        TidyFacts(w);
        var x := ws[w];
        ghost var subs0 := subs;
        LeftNone(w, x);
        var i := |x.deps|;
        while i > 0
          invariant 0 <= i <= |x.deps| && ws == old(ws) && Left(subs0, subs, w, Elems(x.deps[i..]) - {})
        {
          i := i - 1;
          LeftStep(subs0, subs, w, x.deps, i, {});
          subs := subs[x.deps[i] := Without(subs[x.deps[i]], w)];
        }
        assert x.deps[0..] == x.deps;
        TornTidy(x);
        LeftLists(p, subs0, subs, ws, w, x.depIds);
        LeftTwoSided(p, subs0, subs, ws, w, x.(active := false), x.depIds);
        TornLists(subs0, w);
        TeardownKeeps(p, data, ws, queued, w);
        TornNested(w);
        ws := ws[w := x.(active := false)];
      } else {
        assert ws == ws[w := ws[w].(active := false)];
        RefinesSelf(p, data, Frozen(p, ws));
      }
    }

    lemma TornTidy(x: Watcher)
      requires Tidy(p, x) && x.newDepIds == {}
      ensures Tidy(p, x.(active := false)) && Elems(x.deps) - {} == x.depIds
    {
    }

    lemma TornLists(subs0: map<Key, seq<Wid>>, w: Wid)
      requires TwoSided(p, subs0, ws) && w in ws && ws[w].newDepIds == {}
      ensures forall k :: Lists(subs0, k, w) ==> k in ws[w].depIds
    {
    }

    lemma TornNested(w: Wid)
      requires Nested(p, ws, target, stack) && w in ws && target == None
      ensures Nested(p, ws[w := ws[w].(active := false)], target, stack)
    {
    }

    /** What has become of the world. */
    ghost function Now(): World
      reads this
    {
      World(data, ws.Keys, (set w | w in ws && !ws[w].active), Seen(p, ws), queued)
    }

    /** What is alive reads directly, whatever torn-down properties have in their caches. */
    lemma LivelyNow(w: Wid)
      requires Quiet() && Lively(p, data, Now().made - Now().torn, w, [])
      ensures Eval(p, data, Frozen(p, ws), w, []) == Eval(p, data, map[], w, [])
      ensures Ready(p, data, Frozen(p, ws), Now().made - Now().torn, w, [])
    {
      hide Eval, Ready, Lively, WellFounded, TwoSided, Nested, Coherent;
      var alive := Now().made - Now().torn;
      LivelyIsDirect(p, data, alive, Frozen(p, ws), alive, w, []);
    }

    /** The watcher w is in use and not queued, and what it would read now is in use too. */
    ghost predicate Resting(w: Wid)
      requires WellFounded(p) && data.Keys == p.keys
      reads this
    {
      && w in ws && ws[w].active && !p.lazy(w) && w !in queued
      && Lively(p, data, Now().made - Now().torn, w, [])
    }

    /** Then it holds what direct evaluation yields now. */
    lemma Current(w: Wid)
      requires Quiet() && Resting(w)
      ensures Outcome(ws[w].value, ws[w].depIds) == Eval(p, data, map[], w, [])
    {
      hide TwoSided, WellFounded, Nested, Eval, Ready, Lively, Frozen;
      QuietFacts();
      LivelyNow(w);
    }

    /** One operation of a history. */
    method Step(op: Op) returns (out: seq<int>)
      requires Quiet() && Possible(p, Now(), op)
      modifies this
      ensures Quiet() && Now() == After(p, old(Now()), op)
      ensures out == if op.ReadOp? then [Eval(p, old(data), map[], op.c, []).value] else []
      ensures op.RunOp? ==> op.w !in queued
      ensures (op.RunOp? && op.w in old(queued)) || op.CreateOp? ==>
                op.w in ws && (ws[op.w].active && !p.lazy(op.w) ==>
                  Outcome(ws[op.w].value, ws[op.w].depIds) == Eval(p, data, map[], op.w, []))
      ensures Apart(old(subs), old(ws)) ==> Apart(subs, ws)
    {
      hide TwoSided, Coherent, WellFounded, Nested, Eval, Lively, Frozen, Refines, Apart, Lists, Dirtied, Enqueued, Inv,
           SameShape, Gone, Seen, Watching;
      QuietFacts();
      ghost var subs0, ws0, queued0 := subs, ws, queued;
      out := [];
      match op {
        case SetOp(k, v) =>
          Told(k);
          SetData(k, v);
          ApartShape(subs, ws0, ws);
          DirtiedSeen(ws0, Elems(subs0[k]));
          SameNow(ws0);
        case ReadOp(c) =>
          var v := ReadAlive(c);
          out := [v];
          SameNow(ws0);
        case RunOp(w) =>
          if w in queued {
            RunQueued(w);
            SameNow(ws0);
          }
        case CreateOp(w) =>
          CreateAlive(w);
          SameNow(ws0[w := NewWatcher(p.lazy(w))]);
        case TeardownOp(w) =>
          Teardown(w);
          ApartTorn(subs0, ws0, w);
          TornNow(ws0, w);
      }
    }

    lemma SameNow(ws0: map<Wid, Watcher>)
      requires SameShape(ws0, ws)
      ensures Now() == World(data, ws0.Keys, (set w | w in ws0 && !ws0[w].active), Seen(p, ws), queued)
    {
    }

    lemma TornNow(ws0: map<Wid, Watcher>, w: Wid)
      requires w in ws0 && ws == ws0[w := ws0[w].(active := false)]
      ensures Seen(p, ws) == Seen(p, ws0)
      ensures Now() == World(data, ws0.Keys, (set x | x in ws0 && !ws0[x].active) + {w}, Seen(p, ws0), queued)
    {
    }

    lemma DirtiedSeen(ws0: map<Wid, Watcher>, xs: set<Wid>)
      ensures Seen(p, Dirtied(p, ws0, xs)) == Seen(p, ws0)
    {
    }

    /** Setting k queues exactly the watchers in use that saw it. */
    lemma Told(k: Key)
      requires Quiet() && k in p.keys
      ensures k in subs && Enqueued(p, queued, Elems(subs[k])) == queued + Watching(Now(), k)
    {
      hide Coherent, WellFounded, Nested, Eval, Frozen;
      QuietFacts();
      forall w ensures w in Elems(subs[k]) && !p.lazy(w) <==> w in Watching(Now(), k) {
        assert w in Elems(subs[k]) <==> Lists(subs, k, w);
        assert w in ws ==> Tidy(p, ws[w]);
      }
    }

    method ReadAlive(c: Wid) returns (v: int)
      requires Quiet() && Possible(p, Now(), ReadOp(c))
      modifies this`ws, this`subs, this`target, this`stack
      ensures Quiet() && SameShape(old(ws), ws) && v == Eval(p, data, map[], c, []).value
      ensures Seen(p, ws) == Seen(p, old(ws))
      ensures Apart(old(subs), old(ws)) ==> Apart(subs, ws)
    {
      hide TwoSided, Coherent, WellFounded, Nested, Eval, Ready, Lively, Frozen, Moved, Refines, Rejoins, Joins, Apart,
           Lists, Gone;
      ghost var alive, subs0, ws0 := Now().made - Now().torn, subs, ws;
      QuietFacts();
      LivelyNow(c);
      ActiveAnswer(c);
      MovedAlive(alive);
      v := ReadComputed(c, alive);
      MovedShape(p, data, subs0, ws0, subs, ws, None, p.rank(c) + 1, alive);
      MovedGone(p, data, subs0, ws0, subs, ws, None, p.rank(c) + 1, alive);
      StillApart(subs0, ws0, None, p.rank(c) + 1, alive);
    }

    method RunQueued(w: Wid)
      requires Quiet() && Possible(p, Now(), RunOp(w)) && w in queued
      modifies this`ws, this`subs, this`target, this`stack, this`queued
      ensures Quiet() && SameShape(old(ws), ws) && queued == old(queued) - {w} && w in ws
      ensures ws[w].active ==> Outcome(ws[w].value, ws[w].depIds) == Eval(p, data, map[], w, [])
      ensures Seen(p, ws) == if ws[w].active then Seen(p, old(ws))[w := Eval(p, data, map[], w, [])]
                             else Seen(p, old(ws))
      ensures Apart(old(subs), old(ws)) ==> Apart(subs, ws)
    {
      hide TwoSided, Coherent, WellFounded, Nested, Eval, Ready, Lively, Frozen, Moved, Refines, Rejoins, Joins, Apart,
           Lists, Gone;
      ghost var alive, subs0, ws0 := Now().made - Now().torn, subs, ws;
      MovedAlive(alive);
      if ws[w].active {
        LivelyNow(w);
      }
      Run(w, alive);
      if ws[w].active {
        SameEval(p, data, Frozen(p, ws0), Frozen(p, ws), w, []);
        MovedGone(p, data, subs0, ws0, subs, ws, Some(w), p.rank(w), alive);
        StillApart(subs0, ws0, Some(w), p.rank(w), alive);
      }
    }

    method CreateAlive(w: Wid)
      requires Quiet() && Possible(p, Now(), CreateOp(w))
      modifies this`ws, this`subs, this`target, this`stack
      ensures Quiet() && SameShape(old(ws)[w := NewWatcher(p.lazy(w))], ws) && w in ws
      ensures !p.lazy(w) ==> Outcome(ws[w].value, ws[w].depIds) == Eval(p, data, map[], w, [])
      ensures Seen(p, ws) == if p.lazy(w) then Seen(p, old(ws))
                             else Seen(p, old(ws))[w := Eval(p, data, map[], w, [])]
      ensures Apart(old(subs), old(ws)) ==> Apart(subs, ws)
    {
      hide TwoSided, Coherent, WellFounded, Nested, Eval, Ready, Lively, Frozen, Moved, Refines, Rejoins, Joins, Apart,
           Lists, Gone;
      ghost var alive, subs0, ws0 := Now().made - Now().torn, subs, ws;
      ghost var ws1 := ws0[w := NewWatcher(p.lazy(w))];
      MovedAlive(alive);
      if !p.lazy(w) {
        LivelyNow(w);
      }
      Create(w, alive);
      ApartMore(subs0, ws0, ws1);
      ApartShape(subs, ws1, ws);
      if !p.lazy(w) {
        NewGone(subs0, ws0, w);
        MovedGone(p, data, subs0, ws1, subs, ws, Some(w), p.rank(w), alive);
        SameEval(p, data, Frozen(p, ws0), Frozen(p, ws), w, []);
        StillApart(subs0, ws1, Some(w), p.rank(w), alive);
      }
    }

    lemma NewGone(subs0: map<Key, seq<Wid>>, ws0: map<Wid, Watcher>, w: Wid)
      requires Gone(p, subs0, ws0) && w !in ws0
      ensures Gone(p, subs0, ws0[w := NewWatcher(p.lazy(w))])
    {
      hide Lists;
    }

    lemma ActiveAnswer(c: Wid)
      requires Quiet() && c in ws && ws[c].active
      ensures Answer(p, data, Frozen(p, ws), c) == Eval(p, data, Frozen(p, ws), c, [])
    {
      hide TwoSided, Coherent, WellFounded, Nested, Eval;
    }

    lemma MovedAlive(alive: set<Wid>)
      requires alive == Now().made - Now().torn
      ensures alive <= ws.Keys && forall x :: x in alive ==> ws[x].active
    {
    }

    lemma ApartShape(subs0: map<Key, seq<Wid>>, ws0: map<Wid, Watcher>, ws1: map<Wid, Watcher>)
      requires SameShape(ws0, ws1)
      ensures Apart(subs0, ws0) ==> Apart(subs0, ws1)
    {
      hide Lists;
    }

    lemma ApartMore(subs0: map<Key, seq<Wid>>, ws0: map<Wid, Watcher>, ws1: map<Wid, Watcher>)
      requires forall x :: x in ws0 ==> x in ws1 && ws1[x].active == ws0[x].active
      ensures Apart(subs0, ws0) ==> Apart(subs0, ws1)
    {
      hide Lists;
    }

    lemma ApartTorn(subs0: map<Key, seq<Wid>>, ws0: map<Wid, Watcher>, w: Wid)
      requires w in ws0 && ws == ws0[w := ws0[w].(active := false)]
      requires if ws0[w].active then forall k, v :: Lists(subs, k, v) <==> Lists(subs0, k, v) && v != w
               else subs == subs0
      ensures Apart(subs0, ws0) ==> Apart(subs, ws)
    {
      hide Lists;
    }

    /** Evaluating only what is alive lists no torn-down watcher. */
    lemma StillApart(subs0: map<Key, seq<Wid>>, ws0: map<Wid, Watcher>, w: Option<Wid>, r: nat, alive: set<Wid>)
      requires Quiet() && Moved(p, data, subs0, ws0, subs, ws, w, r, alive)
      requires w.Some? ==> w.value in ws0 && ws0[w.value].active
      requires forall x :: x in alive ==> x in ws0 && ws0[x].active
      ensures Apart(subs0, ws0) ==> Apart(subs, ws)
    {
      hide Nested, Coherent, WellFounded, Eval, Frozen, Rejoins, Lists, SameSubs;
      if Apart(subs0, ws0) {
        ApartExactly(p, data, subs0, ws0, subs, ws, w, r, alive);
        forall x | x in ws0 && !ws0[x].active
          ensures ws0[x].dirty ==> ws[x].dirty
        {
          assert Turned(p, data, Frozen(p, ws0), subs0, ws0[x], subs, ws[x], x, r, alive);
        }
      }
    }

    /** Any history of sets, reads, watcher runs, creations and teardowns: every read of a computed property yields what
        evaluating its getter directly on the data of that moment yields; the other watchers hold what that yielded
        when they last ran, and just those are queued whose deps changed since; and torn-down watchers stay out of all
        lists. */
    method Play(ops: seq<Op>) returns (out: seq<int>)
      requires Quiet() && Playable(p, Now(), ops)
      modifies this
      ensures Quiet() && Now() == AfterAll(p, old(Now()), ops)
      ensures out == Direct(p, old(Now()), ops)
      ensures Apart(old(subs), old(ws)) ==> Apart(subs, ws)
    {
      hide Inv, Eval, Possible, After, Apart;
      out := [];
      ghost var world := Now();
      var i := 0;
      assert ops[0..] == ops;
      WorldKnown();
      while i < |ops|
        invariant 0 <= i <= |ops| && Quiet() && WellFounded(p) && data.Keys == p.keys == world.data.Keys
        invariant Playable(p, Now(), ops[i..])
        invariant AfterAll(p, world, ops) == AfterAll(p, Now(), ops[i..])
        invariant Direct(p, world, ops) == out + Direct(p, Now(), ops[i..])
        invariant Apart(old(subs), old(ws)) ==> Apart(subs, ws)
      {
        assert ops[i..][0] == ops[i] && ops[i..][1..] == ops[i + 1..];
        var more := Step(ops[i]);
        WorldKnown();
        out := out + more;
        i := i + 1;
      }
      assert ops[i..] == [];
    }

    lemma WorldKnown()
      requires Quiet()
      ensures WellFounded(p) && data.Keys == p.keys && Now().data == data
    {
    }
  }

  /** A whole history, from the start of the program on. At its end every watcher in use that is not queued holds what
      direct evaluation on the data of that moment yields. */
  method History(p: Program, data: map<Key, int>, ops: seq<Op>) returns (rt: Runtime, out: seq<int>)
    requires WellFounded(p) && data.Keys == p.keys && Playable(p, NewWorld(data), ops)
    ensures rt.Quiet() && rt.p == p && rt.Now() == AfterAll(p, NewWorld(data), ops)
    ensures out == Direct(p, NewWorld(data), ops) && Apart(rt.subs, rt.ws)
    ensures rt.data.Keys == p.keys
    ensures forall w :: rt.Resting(w) ==>
              Outcome(rt.ws[w].value, rt.ws[w].depIds) == Eval(p, rt.data, map[], w, [])
  {
    hide WellFounded, Playable, Direct, AfterAll, Eval, Lively;
    rt := new Runtime(p, data);
    assert rt.Now() == NewWorld(data);
    out := rt.Play(ops);
    rt.WorldKnown();
    forall w | rt.Resting(w)
      ensures Outcome(rt.ws[w].value, rt.ws[w].depIds) == Eval(p, rt.data, map[], w, [])
    {
      rt.Current(w);
    }
  }

  // ----- a computed property that is read after it was torn down

  /** Watcher 0 is a computed property with the value of the data property 0; any other watcher reads it. */
  function OneComputed(): Program {
    Program({0},
            (w: Wid) => Getter((h: seq<int>) => if h != [] then Return(h[0]) else if w == 0 then ReadData(0)
                                                else ReadComputed(0), 1),
            (w: Wid) => w == 0,
            (w: Wid) => w)
  }

  lemma OneComputedShape()
    ensures WellFounded(OneComputed()) && OneComputed().keys == {0}
    ensures forall w :: OneComputed().lazy(w) <==> w == 0
    ensures forall w :: OneComputed().rank(w) == w
  {
  }

  lemma ReadsZero(data: map<Key, int>, f: Caches)
    requires WellFounded(OneComputed()) && data.Keys == {0} == OneComputed().keys
    ensures Eval(OneComputed(), data, f, 0, []) == Outcome(data[0], {0})
    ensures Ready(OneComputed(), data, f, {0}, 0, [])
  {
    hide WellFounded;
    var p := OneComputed();
    assert p.getter(0).next([]) == ReadData(0);
    assert p.getter(0).next([] + [data[0]]) == Return(data[0]);
  }

  lemma OneComputedRight(data: map<Key, int>, f: Caches, w: Wid)
    requires WellFounded(OneComputed()) && data.Keys == {0} == OneComputed().keys
    ensures 0 !in f ==> Eval(OneComputed(), data, f, w, []) == Outcome(data[0], {0})
    ensures 0 in f && w != 0 ==> Eval(OneComputed(), data, f, w, []) == f[0]
    ensures Ready(OneComputed(), data, f, {0}, w, [])
  {
    hide WellFounded;
    var p := OneComputed();
    ReadsZero(data, f);
    if w != 0 {
      var x := Answer(p, data, f, 0);
      assert p.getter(w).next([]) == ReadComputed(0);
      assert p.getter(w).next([] + [x.value]) == Return(x.value);
    }
  }

  /** A computed property that is torn down while it is dirty and then read: it answers rightly, but its dep lists the
      torn-down watcher. */
  method TornDownIsListed(v: int) returns (rt: Runtime, read: int)
    ensures rt.Quiet() && read == v && 0 in rt.ws && !rt.ws[0].active
    ensures Lists(rt.subs, 0, 0) && !Apart(rt.subs, rt.ws)
  {
    hide TwoSided, Coherent, Nested, Eval, Ready, WellFounded, OneComputed;
    OneComputedShape();
    var data := map[0 := v];
    OneComputedRight(data, map[], 0);
    rt := new Runtime(OneComputed(), data);
    rt.Create(0, {});
    rt.Teardown(0);
    OneComputedRight(data, Frozen(rt.p, rt.ws), 0);
    ghost var subs0, ws0 := rt.subs, rt.ws;
    read := rt.ReadComputed(0, {0});
    MovedGone(rt.p, data, subs0, ws0, rt.subs, rt.ws, None, 1, {0});
    assert Lists(rt.subs, 0, 0);
  }

  lemma DirtyNotFrozen(p: Program, ws: map<Wid, Watcher>, c: Wid)
    requires c in ws && ws[c].dirty
    ensures c !in Frozen(p, ws)
  {
  }

  /** With none dirty, an evaluation changes none but its own watcher. */
  lemma NoneDirty(p: Program, data: map<Key, int>, subs: map<Key, seq<Wid>>, ws: map<Wid, Watcher>,
                  subs': map<Key, seq<Wid>>, ws': map<Wid, Watcher>, w: Option<Wid>, r: nat, ok: set<Wid>, x: Wid)
    requires WellFounded(p) && data.Keys == p.keys && Moved(p, data, subs, ws, subs', ws', w, r, ok)
    requires x in ws && Some(x) != w && !ws[x].dirty
    ensures x in ws' && ws'[x] == ws[x]
  {
    hide WellFounded, Eval, Frozen;
    assert Turned(p, data, Frozen(p, ws), subs, ws[x], subs', ws'[x], x, r, ok);
  }

  lemma FrozenZero(ws: map<Wid, Watcher>)
    requires 0 in ws && !ws[0].active && !ws[0].dirty
    ensures 0 in Frozen(OneComputed(), ws) && Frozen(OneComputed(), ws)[0] == Outcome(ws[0].value, ws[0].depIds)
  {
  }

  /** A computed property that is read and then torn down. */
  method ReadAndTornDown(v: int) returns (rt: Runtime)
    ensures fresh(rt) && rt.Quiet() && rt.p == OneComputed() && rt.data == map[0 := v] && rt.ws.Keys == {0}
    ensures !rt.ws[0].active && !rt.ws[0].dirty && rt.ws[0].value == v && 0 !in Elems(rt.subs[0])
  {
    hide TwoSided, Coherent, Nested, Eval, Ready, WellFounded, Frozen, OneComputed;
    OneComputedShape();
    var data := map[0 := v];
    OneComputedRight(data, map[], 0);
    rt := new Runtime(OneComputed(), data);
    rt.Create(0, {});
    ghost var subs0, ws0, f := rt.subs, rt.ws, Frozen(rt.p, rt.ws);
    DirtyNotFrozen(rt.p, rt.ws, 0);
    OneComputedRight(data, f, 0);
    var read := rt.ReadComputed(0, {0});
    assert Turned(rt.p, data, f, subs0, ws0[0], rt.subs, rt.ws[0], 0, 1, {0});
    MovedGone(rt.p, data, subs0, ws0, rt.subs, rt.ws, None, 1, {0});
    rt.Teardown(0);
    rt.QuietFacts();
    assert !Lists(rt.subs, 0, 0);
  }

  /** It goes on answering what it did then. */
  method TornDownAnswers(v: int, v': int) returns (rt: Runtime, read: int)
    ensures fresh(rt) && rt.Quiet() && rt.p == OneComputed() && rt.data == map[0 := v'] && rt.ws.Keys == {0}
    ensures !rt.ws[0].active && !rt.ws[0].dirty && read == rt.ws[0].value == v
  {
    hide TwoSided, Coherent, Nested, Eval, Ready, WellFounded, Moved, Refines, Frozen, OneComputed, Joins, Rejoins;
    OneComputedShape();
    rt := ReadAndTornDown(v);
    rt.SetData(0, v');
    assert rt.data == map[0 := v'];
    FrozenZero(rt.ws);
    ghost var subs0, ws0 := rt.subs, rt.ws;
    read := rt.ReadComputed(0, {0});
    MovedShape(rt.p, rt.data, subs0, ws0, rt.subs, rt.ws, None, 1, {0});
    NoneDirty(rt.p, rt.data, subs0, ws0, rt.subs, rt.ws, None, 1, {0}, 0);
    MovedGone(rt.p, rt.data, subs0, ws0, rt.subs, rt.ws, None, 1, {0});
  }

  /** And a watcher created later takes that over. */
  method TornDownIsStale(v: int, v': int) returns (rt: Runtime, read: int)
    ensures rt.Quiet() && rt.p == OneComputed() && rt.data == map[0 := v'] && 1 in rt.ws && rt.ws[1].active
    ensures read == rt.ws[1].value == v
    ensures WellFounded(OneComputed()) && Eval(OneComputed(), rt.data, map[], 1, []).value == v'
  {
    hide TwoSided, Coherent, Nested, Eval, Ready, WellFounded, Moved, Refines, Frozen, OneComputed, Joins, Rejoins;
    OneComputedShape();
    rt, read := TornDownAnswers(v, v');
    OneComputedRight(rt.data, map[], 1);
    OneComputedRight(rt.data, Frozen(rt.p, rt.ws), 1);
    FrozenZero(rt.ws);
    ghost var subs0, ws0 := rt.subs, rt.ws;
    rt.Create(1, {0});
    NoneDirty(rt.p, rt.data, subs0, ws0[1 := NewWatcher(false)], rt.subs, rt.ws, Some(1), 1, {0}, 0);
    FrozenZero(rt.ws);
    OneComputedRight(rt.data, Frozen(rt.p, rt.ws), 1);
  }
}
