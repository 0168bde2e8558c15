/** The child list as a row: new nodes placed so far, old ones left, new ones placed at the end. */
module Rows {
  import opened Common
  import opened Mounting
  import opened ChildList

  function At<T>(s: seq<Option<T>>, i: int): Option<T> {
    if 0 <= i < |s| then s[i] else None
  }

  ghost function Row(olds: seq<Option<Mounted>>, news: seq<Option<Mounted>>, os: int, oe: int, ns: int,
                     ne: int): seq<Mounted>
    requires 0 <= os <= oe + 1 <= |olds| && 0 <= ns <= ne + 1 <= |news|
  {
    Live(news[..ns]) + Live(olds[os..oe + 1]) + Live(news[ne + 1..])
  }

  // ----- the row as the cursors move

  lemma LiveHead(olds: seq<Option<Mounted>>, i: int, end: int, rest: seq<Mounted>)
    requires 0 <= i <= end < |olds| && olds[i].Some?
    ensures Live(olds[i..end + 1]) == [olds[i].value] + Live(olds[i + 1..end + 1])
    ensures RefOf(Live(olds[i..end + 1]) + rest) == Some(olds[i].value.elm)
  {
    LiveFirst(olds, i, end);
  }

  lemma LiveTail(olds: seq<Option<Mounted>>, i: int, end: int)
    requires 0 <= i <= end < |olds|
    ensures olds[end].Some? ==> Live(olds[i..end + 1]) == Live(olds[i..end]) + [olds[end].value]
    ensures olds[end].None? ==> Live(olds[i..end + 1]) == Live(olds[i..end])
  {
    assert olds[i..end + 1] == olds[i..end] + [olds[end]];
    LiveConcat(olds[i..end], [olds[end]]);
    LiveOne(olds[end]);
  }

  lemma LiveCut(olds: seq<Option<Mounted>>, os: int, oe: int, i: int)
    requires 0 <= os <= i <= oe < |olds| && olds[i].Some?
    ensures Live(olds[os..oe + 1]) == Live(olds[os..i]) + [olds[i].value] + Live(olds[i + 1..oe + 1])
    ensures Live(olds[i := None][os..oe + 1]) == Live(olds[os..i]) + Live(olds[i + 1..oe + 1])
  {
    hide Live;
    var x, y := olds[os..i], olds[i + 1..oe + 1];
    assert olds[os..oe + 1] == x + [olds[i]] + y;
    assert olds[i := None][os..oe + 1] == x + [None] + y;
    LiveThree(x, olds[i], y);
    LiveThree(x, None, y);
    assert Live(x) + [] + Live(y) == Live(x) + Live(y);
  }

  lemma FilledStart(news: seq<Option<Mounted>>, ns: int, ne: int, r: Mounted)
    requires 0 <= ns <= ne < |news|
    ensures Live(news[ns := Some(r)][..ns + 1]) == Live(news[..ns]) + [r]
    ensures news[ns := Some(r)][ne + 1..] == news[ne + 1..]
  {
    assert news[ns := Some(r)][..ns + 1] == news[..ns] + [Some(r)];
    LiveConcat(news[..ns], [Some(r)]);
    LiveOne(Some(r));
  }

  lemma FilledEnd(news: seq<Option<Mounted>>, ns: int, ne: int, r: Mounted)
    requires 0 <= ns <= ne < |news|
    ensures Live(news[ne := Some(r)][ne..]) == [r] + Live(news[ne + 1..])
    ensures news[ne := Some(r)][..ns] == news[..ns]
  {
    assert news[ne := Some(r)][ne..] == [Some(r)] + news[ne + 1..];
    LiveConcat([Some(r)], news[ne + 1..]);
    LiveOne(Some(r));
  }

  /** The first old slot is next: the row before and after it is put first or last. */
  lemma RowStart(olds: seq<Option<Mounted>>, news: seq<Option<Mounted>>, os: int, oe: int, ns: int, ne: int, r: Mounted)
    requires 0 <= os <= oe < |olds| && 0 <= ns <= ne < |news| && olds[os].Some?
    ensures var a, c, d := Live(news[..ns]), Live(olds[os + 1..oe + 1]), Live(news[ne + 1..]);
            && Row(olds, news, os, oe, ns, ne) == a + [olds[os].value] + (c + d)
            && Row(olds, news[ns := Some(r)], os + 1, oe, ns + 1, ne) == a + [r] + (c + d)
            && Row(olds, news[ne := Some(r)], os + 1, oe, ns, ne - 1) == (a + c) + [r] + d
  {
    hide Live;
    var a, c, d := Live(news[..ns]), Live(olds[os + 1..oe + 1]), Live(news[ne + 1..]);
    LiveHead(olds, os, oe, []);
    FilledStart(news, ns, ne, r);
    FilledEnd(news, ns, ne, r);
    assert a + ([olds[os].value] + c) + d == a + [olds[os].value] + (c + d);
    assert a + [r] + c + d == a + [r] + (c + d);
    assert a + c + ([r] + d) == (a + c) + [r] + d;
  }

  /** The last old slot is next. */
  lemma RowEnd(olds: seq<Option<Mounted>>, news: seq<Option<Mounted>>, os: int, oe: int, ns: int, ne: int, r: Mounted)
    requires 0 <= os <= oe < |olds| && 0 <= ns <= ne < |news| && olds[oe].Some?
    ensures var a, c, d := Live(news[..ns]), Live(olds[os..oe]), Live(news[ne + 1..]);
            && Row(olds, news, os, oe, ns, ne) == (a + c) + [olds[oe].value] + d
            && Row(olds, news[ne := Some(r)], os, oe - 1, ns, ne - 1) == (a + c) + [r] + d
            && Row(olds, news[ns := Some(r)], os, oe - 1, ns + 1, ne) == a + [r] + (c + d)
  {
    hide Live;
    var a, c, d := Live(news[..ns]), Live(olds[os..oe]), Live(news[ne + 1..]);
    LiveTail(olds, os, oe);
    FilledStart(news, ns, ne, r);
    FilledEnd(news, ns, ne, r);
    assert a + (c + [olds[oe].value]) + d == (a + c) + [olds[oe].value] + d;
    assert a + c + ([r] + d) == (a + c) + [r] + d;
    assert a + [r] + c + d == a + [r] + (c + d);
  }

  /** The old slot i in the middle is next, and is blanked. */
  lemma RowMiddle(olds: seq<Option<Mounted>>, news: seq<Option<Mounted>>, os: int, oe: int, ns: int, ne: int, i: int,
                  r: Mounted)
    requires 0 <= os < i <= oe < |olds| && 0 <= ns <= ne < |news| && olds[os].Some? && olds[i].Some?
    ensures var a, x, y, d := Live(news[..ns]), Live(olds[os..i]), Live(olds[i + 1..oe + 1]), Live(news[ne + 1..]);
            && Row(olds, news, os, oe, ns, ne) == (a + x) + [olds[i].value] + (y + d)
            && Row(olds[i := None], news[ns := Some(r)], os, oe, ns + 1, ne) == a + [r] + (x + y + d)
            && (a + x) + (y + d) == a + (x + y + d)
            && RefOf(x + y + d) == Some(olds[os].value.elm)
  {
    hide Live;
    var a, x, y, d := Live(news[..ns]), Live(olds[os..i]), Live(olds[i + 1..oe + 1]), Live(news[ne + 1..]);
    LiveCut(olds, os, oe, i);
    FilledStart(news, ns, ne, r);
    LiveHead(olds, os, i - 1, []);
    assert a + (x + [olds[i].value] + y) + d == (a + x) + [olds[i].value] + (y + d);
    assert a + [r] + (x + y) + d == a + [r] + (x + y + d);
    assert (a + x) + (y + d) == a + (x + y + d);
  }

  /** A node is created before the first old slot. */
  lemma RowNew(olds: seq<Option<Mounted>>, news: seq<Option<Mounted>>, os: int, oe: int, ns: int, ne: int, r: Mounted)
    requires 0 <= os <= oe < |olds| && 0 <= ns <= ne < |news| && olds[os].Some?
    ensures var a, c, d := Live(news[..ns]), Live(olds[os..oe + 1]), Live(news[ne + 1..]);
            && Row(olds, news, os, oe, ns, ne) == a + (c + d)
            && Row(olds, news[ns := Some(r)], os, oe, ns + 1, ne) == a + [r] + (c + d)
            && RefOf(c + d) == Some(olds[os].value.elm)
  {
    hide Live;
    var a, c, d := Live(news[..ns]), Live(olds[os..oe + 1]), Live(news[ne + 1..]);
    FilledStart(news, ns, ne, r);
    LiveHead(olds, os, oe, d);
    assert a + c + d == a + (c + d);
    assert a + [r] + c + d == a + [r] + (c + d);
  }

  lemma RowSkip(olds: seq<Option<Mounted>>, news: seq<Option<Mounted>>, os: int, oe: int, ns: int, ne: int)
    requires 0 <= os <= oe < |olds| && 0 <= ns <= ne + 1 <= |news|
    ensures olds[os].None? ==> Row(olds, news, os + 1, oe, ns, ne) == Row(olds, news, os, oe, ns, ne)
    ensures olds[oe].None? ==> Row(olds, news, os, oe - 1, ns, ne) == Row(olds, news, os, oe, ns, ne)
  {
    LiveFirst(olds, os, oe);
    LiveTail(olds, os, oe);
  }
}
