/**
Which transports an anchor may stand for. The code looks them up in a time-sorted index
and a map from identifiers; the reference is the plain scan over all transports that
those two stand in for.
*/
module CorrelationCandidates {
  import opened Basics
  import opened Options
  import opened CorrelationTypes
  import opened Sorting

  const NANOS_PER_MS: int := 1_000_000
  const PRE_WINDOW_BEFORE_MS: int := 250
  const PRE_WINDOW_AFTER_MS: int := 10_000
  const COMPLETION_WINDOW_BEFORE_MS: int := 10 * 60 * 1000
  const COMPLETION_WINDOW_AFTER_MS: int := 1_000
  const MAX_RECORDED_CANDIDATES: nat := 1_024

  /** An anchor's question: the transports, and what earlier anchors have claimed. */
  datatype Query = Query(anchor: Anchor, transports: seq<Transport>, matched: set<string>, scopes: map<string, seq<Ids>>)

  // ------------------------------------------------------------ predicates

  predicate NamesExactly(a: Anchor, t: Transport) {
    a.ids.inference.Some? && (a.ids.inference.value == t.inference || a.ids.inference.value in t.responseIds)
  }

  predicate EqualIgnoringCase(a: string, b: string) {
    |a| == |b| && forall i :: 0 <= i < |a| ==> LowerChar(a[i]) == LowerChar(b[i])
  }

  predicate ModelsCompatible(a: Option<string>, t: Option<string>) {
    a.Some? && t.Some? ==> EqualIgnoringCase(a.value, t.value)
  }

  /** The first scope both name decides: session, then task, then turn. */
  predicate SameLogicalScope(a: Ids, b: Ids) {
    if a.session.Some? && b.session.Some? then a.session == b.session
    else if a.task.Some? && b.task.Some? then a.task == b.task
    else a.turn.Some? && b.turn.Some? && a.turn == b.turn
  }

  predicate SharesScope(a: Anchor, inference: string, scopes: map<string, seq<Ids>>) {
    inference in scopes && exists ids :: ids in scopes[inference] && SameLogicalScope(a.ids, ids)
  }

  predicate Corroborates(a: Anchor, t: Transport, scopes: map<string, seq<Ids>>) {
    a.kind.Completion? && (NamesExactly(a, t) || SharesScope(a, t.inference, scopes))
  }

  predicate Allowed(q: Query, t: Transport, exact: bool) {
    && (exact || ModelsCompatible(q.anchor.model, t.model))
    && (t.inference !in q.matched || Corroborates(q.anchor, t, q.scopes))
  }

  function WindowStart(a: Anchor): int {
    a.time - NANOS_PER_MS * if a.kind.PreRequest? then PRE_WINDOW_BEFORE_MS else COMPLETION_WINDOW_BEFORE_MS
  }

  function WindowEnd(a: Anchor): int {
    a.time + NANOS_PER_MS * if a.kind.PreRequest? then PRE_WINDOW_AFTER_MS else COMPLETION_WINDOW_AFTER_MS
  }

  // ------------------------------------------------------- the plain scan

  function Exact(q: Query): set<nat> {
    set i: nat | i < |q.transports| && NamesExactly(q.anchor, q.transports[i]) && Allowed(q, q.transports[i], true)
  }

  function InWindow(q: Query): set<nat> {
    set i: nat | i < |q.transports| && WindowStart(q.anchor) <= q.transports[i].time <= WindowEnd(q.anchor)
                 && Allowed(q, q.transports[i], false)
  }

  /** Exact candidates that list their own inference ID as a response ID, and so are indexed under it twice. */
  function Doubled(q: Query): set<nat> {
    set i: nat | i < |q.transports| && q.anchor.ids.inference.Some?
                 && Hits(q.transports[i], q.anchor.ids.inference.value) == 2 && Allowed(q, q.transports[i], true)
  }

  datatype Selection = Selection(candidates: seq<nat>, total: nat, truncated: bool)

  function BySequence(transports: seq<Transport>): nat -> Rank {
    (i: nat) => if i < |transports| then Rank(transports[i].sequence, 0) else Rank(0, 0)
  }

  function ByTime(transports: seq<Transport>): nat -> Rank {
    (i: nat) => if i < |transports| then Rank(transports[i].time, transports[i].sequence) else Rank(0, 0)
  }

  // ------------------------------------------------------------ the indexes

  /** How often a transport is entered under an identifier. */
  function Hits(t: Transport, id: string): nat {
    (if t.inference == id then 1 else 0) + (if id in t.responseIds then 1 else 0)
  }

  function Entered(t: Transport, id: string, i: nat): seq<nat> {
    (if t.inference == id then [i] else []) + (if id in t.responseIds then [i] else [])
  }

  /** The entries under an identifier, in transport order. */
  function ExactList(transports: seq<Transport>, id: string): seq<nat> {
    if transports == [] then []
    else
      var n := |transports| - 1;
      ExactList(transports[..n], id) + Entered(transports[n], id, n)
  }

  ghost predicate ExactIndex(transports: seq<Transport>, byExact: map<string, seq<nat>>) {
    forall id :: Entry(byExact, id) == ExactList(transports, id)
  }

  ghost predicate TimeIndex(transports: seq<Transport>, byTime: seq<nat>) {
    && Distinct(byTime) && Sorted(byTime, ByTime(transports))
    && forall i: nat :: i in byTime <==> i < |transports|
  }

  method IndexByTime(transports: seq<Transport>) returns (byTime: seq<nat>)
    ensures TimeIndex(transports, byTime)
  {
    var all: seq<nat> := seq(|transports|, i requires 0 <= i < |transports| => i);
    byTime := Sort<nat>(all, ByTime(transports));
    StayDistinct(all, byTime);
    SameMembers(byTime, all);
    forall i: nat ensures i in byTime <==> i < |transports| {
      if i < |transports| { assert all[i] == i; }
    }
  }

  function Entry(byExact: map<string, seq<nat>>, id: string): seq<nat> {
    if id in byExact then byExact[id] else []
  }

  function Push(byExact: map<string, seq<nat>>, id: string, i: nat): map<string, seq<nat>> {
    byExact[id := Entry(byExact, id) + [i]]
  }

  method PushAll(byExact: map<string, seq<nat>>, ids: set<string>, i: nat) returns (more: map<string, seq<nat>>)
    ensures forall id :: Entry(more, id) == Entry(byExact, id) + if id in ids then [i] else []
  {
    more := byExact;
    var left := ids;
    while left != {}
      invariant left <= ids
      invariant forall id :: Entry(more, id) == Entry(byExact, id) + if id in ids && id !in left then [i] else []
    {
      var id :| id in left;
      more := Push(more, id, i);
      left := left - {id};
    }
  }

  method IndexByExactId(transports: seq<Transport>) returns (byExact: map<string, seq<nat>>)
    ensures ExactIndex(transports, byExact)
  {
    byExact := map[];
    for i := 0 to |transports|
      invariant ExactIndex(transports[..i], byExact)
    {
      ghost var before := byExact;
      byExact := Push(byExact, transports[i].inference, i);
      byExact := PushAll(byExact, transports[i].responseIds, i);
      EntriesGrow(transports, i, before, byExact);
    }
    assert transports[..|transports|] == transports;
  }

  lemma {:induction false} EntriesGrow(
    transports: seq<Transport>, i: nat, before: map<string, seq<nat>>, after: map<string, seq<nat>>)
    requires i < |transports| && ExactIndex(transports[..i], before)
    requires forall id :: Entry(after, id) == Entry(Push(before, transports[i].inference, i), id) + Again(transports[i], id, i)
    ensures ExactIndex(transports[..i + 1], after)
  {
    forall id ensures Entry(after, id) == ExactList(transports[..i + 1], id) {
      ListGrows(transports, i, id);
      PushedTwice(before, transports[i], i, id);
    }
  }

  lemma {:induction false} ListGrows(transports: seq<Transport>, i: nat, id: string)
    requires i < |transports|
    ensures ExactList(transports[..i + 1], id) == ExactList(transports[..i], id) + Entered(transports[i], id, i)
  {
    assert transports[..i + 1][..i] == transports[..i];
  }

  lemma {:induction false} PushedTwice(before: map<string, seq<nat>>, t: Transport, i: nat, id: string)
    ensures Entry(Push(before, t.inference, i), id) + Again(t, id, i) == Entry(before, id) + Entered(t, id, i)
  {
  }

  function Again(t: Transport, id: string, i: nat): seq<nat> { if id in t.responseIds then [i] else [] }

  // ------------------------------------------------------------- filtering

  function Filter(list: seq<nat>, p: nat -> bool): seq<nat> {
    if list == [] then []
    else
      var n := |list| - 1;
      Filter(list[..n], p) + if p(list[n]) then [list[n]] else []
  }

  lemma {:induction false} FilterMembers(list: seq<nat>, p: nat -> bool)
    ensures forall i: nat :: i in Filter(list, p) <==> i in list && p(i)
  {
    if list != [] {
      var n := |list| - 1;
      FilterMembers(list[..n], p);
      assert list == list[..n] + [list[n]];
    }
  }

  lemma {:induction false} FilterConcat(a: seq<nat>, b: seq<nat>, p: nat -> bool)
    ensures Filter(a + b, p) == Filter(a, p) + Filter(b, p)
  {
    if b == [] {
      assert a + b == a;
    } else {
      var n := |b| - 1;
      assert (a + b)[..|a| + n] == a + b[..n] && (a + b)[|a| + n] == b[n];
      FilterConcat(a, b[..n], p);
    }
  }

  lemma {:induction false} FilterStaysDistinct(list: seq<nat>, p: nat -> bool)
    requires Distinct(list)
    ensures Distinct(Filter(list, p))
  {
    if list != [] {
      var n := |list| - 1;
      FilterStaysDistinct(list[..n], p);
      FilterMembers(list[..n], p);
    }
  }

  lemma {:induction false} FilterStaysSorted(list: seq<nat>, key: nat -> Rank, p: nat -> bool)
    requires Sorted(list, key)
    ensures Sorted(Filter(list, p), key)
  {
    if list != [] {
      var n := |list| - 1;
      FilterStaysSorted(list[..n], key, p);
      FilterMembers(list[..n], p);
      var kept := Filter(list[..n], p);
      forall k | 0 <= k < |kept| ensures AtMost(key(kept[k]), key(list[n])) {
        assert kept[k] in kept;
        assert kept[k] in list[..n];
      }
    }
  }

  /** What is listed once is the set of it. */
  lemma {:induction false} DistinctMultiset(list: seq<nat>, members: set<nat>)
    requires Distinct(list) && forall i: nat :: i in list <==> i in members
    ensures multiset(list) == multiset(members)
  {
    if list == [] {
      assert members == {};
    } else {
      var n := |list| - 1;
      assert list == list[..n] + [list[n]];
      assert list[n] in members && list[n] !in list[..n];
      DistinctMultiset(list[..n], members - {list[n]});
      assert multiset(members) == multiset(members - {list[n]}) + multiset{list[n]};
    }
  }

  function HitSet(transports: seq<Transport>, id: string, p: nat -> bool, least: nat): set<nat> {
    set i: nat | i < |transports| && Hits(transports[i], id) >= least && p(i)
  }

  lemma {:induction false} HitSetGrows(transports: seq<Transport>, id: string, p: nat -> bool, least: nat)
    requires transports != []
    ensures var n: nat := |transports| - 1;
      multiset(HitSet(transports, id, p, least))
      == multiset(HitSet(transports[..n], id, p, least))
         + if Hits(transports[n], id) >= least && p(n) then multiset{n} else multiset{}
  {
    var n: nat := |transports| - 1;
    assert HitSet(transports, id, p, least)
      == HitSet(transports[..n], id, p, least) + if Hits(transports[n], id) >= least && p(n) then {n} else {};
  }

  lemma {:induction false} EnteredFiltered(t: Transport, id: string, i: nat, p: nat -> bool)
    ensures multiset(Filter(Entered(t, id, i), p))
      == (if Hits(t, id) >= 1 && p(i) then multiset{i} else multiset{})
         + (if Hits(t, id) >= 2 && p(i) then multiset{i} else multiset{})
  {
    FilterOne(i, p);
    if Hits(t, id) == 2 {
      FilterConcat([i], [i], p);
    } else if Hits(t, id) == 1 {
      assert Entered(t, id, i) == [i];
    } else {
      assert Entered(t, id, i) == [];
    }
  }

  lemma {:induction false} FilterOne(i: nat, p: nat -> bool)
    ensures Filter([i], p) == if p(i) then [i] else []
  {
    var one := [i];
    assert one[..0] == [];
  }

  /** Entries under an identifier, filtered: every transport once, and the doubled ones once more. */
  lemma {:induction false} ExactEntries(transports: seq<Transport>, id: string, p: nat -> bool)
    ensures multiset(Filter(ExactList(transports, id), p))
      == multiset(HitSet(transports, id, p, 1)) + multiset(HitSet(transports, id, p, 2))
  {
    if transports != [] {
      var n := |transports| - 1;
      ExactEntries(transports[..n], id, p);
      FilterConcat(ExactList(transports[..n], id), Entered(transports[n], id, n), p);
      EnteredFiltered(transports[n], id, n, p);
      HitSetGrows(transports, id, p, 1);
      HitSetGrows(transports, id, p, 2);
    }
  }

  lemma {:induction false} EnteredMembers(t: Transport, id: string, i: nat)
    ensures forall j: nat :: j in Entered(t, id, i) <==> j == i && Hits(t, id) > 0
  {
  }

  lemma {:induction false} ExactListMembers(transports: seq<Transport>, id: string)
    ensures forall i: nat :: i in ExactList(transports, id) <==> i < |transports| && Hits(transports[i], id) > 0
  {
    if transports != [] {
      var n := |transports| - 1;
      ExactListMembers(transports[..n], id);
      EnteredMembers(transports[n], id, n);
    }
  }

  function ByIndex(): nat -> Rank { (i: nat) => Rank(i, 0) }

  lemma {:induction false} ExactListAscends(transports: seq<Transport>, id: string)
    ensures Sorted(ExactList(transports, id), ByIndex())
  {
    if transports != [] {
      var n := |transports| - 1;
      var before := ExactList(transports[..n], id);
      ExactListAscends(transports[..n], id);
      ExactListMembers(transports[..n], id);
      forall k | 0 <= k < |before| ensures before[k] < n {
        assert before[k] in before;
      }
    }
  }

  // ------------------------------------------------------------- selection

  function Permits(q: Query, exact: bool): nat -> bool {
    (i: nat) => i < |q.transports| && Allowed(q, q.transports[i], exact)
  }

  function First(list: seq<nat>): seq<nat> { list[..Min(|list|, MAX_RECORDED_CANDIDATES)] }

  lemma {:induction false} FilterStep(seen: seq<nat>, i: nat, p: nat -> bool)
    ensures Filter(seen + [i], p) == if p(i) then Filter(seen, p) + [i] else Filter(seen, p)
    ensures First(Filter(seen + [i], p)) ==
      if p(i) && |Filter(seen, p)| < MAX_RECORDED_CANDIDATES then First(Filter(seen, p)) + [i] else First(Filter(seen, p))
  {
    FilterConcat(seen, [i], p);
    FilterOne(i, p);
  }

  /** Counts the permitted entries and lists the first of them. */
  method Gather(q: Query, list: seq<nat>, exact: bool) returns (candidates: seq<nat>, total: nat)
    requires forall i :: i in list ==> i < |q.transports|
    ensures total == |Filter(list, Permits(q, exact))| && candidates == First(Filter(list, Permits(q, exact)))
  {
    candidates, total := [], 0;
    ghost var seen: seq<nat>, p := [], Permits(q, exact);
    for k := 0 to |list|
      invariant seen <= list && |seen| == k && total == |Filter(seen, p)| && candidates == First(Filter(seen, p))
    {
      var i := list[k];
      assert i in list;
      FilterStep(seen, i, p);
      if Allowed(q, q.transports[i], exact) {
        total := total + 1;
        if |candidates| < MAX_RECORDED_CANDIDATES {
          candidates := candidates + [i];
        }
      }
      seen := seen + [i];
    }
    assert seen == list;
  }

  /** The number of leading entries of the time index below (or up to) a bound, by binary search. */
  method PartitionPoint(transports: seq<Transport>, byTime: seq<nat>, bound: int, inclusive: bool) returns (point: nat)
    requires TimeIndex(transports, byTime)
    ensures point <= |byTime|
    ensures forall k :: 0 <= k < |byTime| ==> byTime[k] < |transports|
    ensures forall k :: 0 <= k < point ==> Below(transports[byTime[k]].time, bound, inclusive)
    ensures forall k :: point <= k < |byTime| ==> !Below(transports[byTime[k]].time, bound, inclusive)
  {
    InIndex(transports, byTime);
    var low: nat, high: nat := 0, |byTime|;
    while low < high
      invariant low <= high <= |byTime|
      invariant forall k :: 0 <= k < low ==> Below(transports[byTime[k]].time, bound, inclusive)
      invariant forall k :: high <= k < |byTime| ==> !Below(transports[byTime[k]].time, bound, inclusive)
    {
      var mid := (low + high) / 2;
      if Below(transports[byTime[mid]].time, bound, inclusive) {
        forall k | 0 <= k <= mid ensures Below(transports[byTime[k]].time, bound, inclusive) {
          TimesAscend(transports, byTime, k, mid);
        }
        low := mid + 1;
      } else {
        forall k | mid <= k < |byTime| ensures !Below(transports[byTime[k]].time, bound, inclusive) {
          TimesAscend(transports, byTime, mid, k);
        }
        high := mid;
      }
    }
    point := low;
  }

  predicate Below(time: int, bound: int, inclusive: bool) { time < bound || (inclusive && time == bound) }

  lemma {:induction false} InIndex(transports: seq<Transport>, byTime: seq<nat>)
    requires TimeIndex(transports, byTime)
    ensures forall k :: 0 <= k < |byTime| ==> byTime[k] < |transports|
  {
    forall k | 0 <= k < |byTime| ensures byTime[k] < |transports| {
      assert byTime[k] in byTime;
    }
  }

  lemma {:induction false} TimesAscend(transports: seq<Transport>, byTime: seq<nat>, j: nat, k: nat)
    requires TimeIndex(transports, byTime) && j <= k < |byTime|
    requires byTime[j] < |transports| && byTime[k] < |transports|
    ensures transports[byTime[j]].time <= transports[byTime[k]].time
  {
    if j < k {
      assert AtMost(ByTime(transports)(byTime[j]), ByTime(transports)(byTime[k]));
    }
  }

  /** What every selection is: entries the anchor may claim, in log order. */
  ghost predicate Sound(q: Query, sel: Selection) {
    && Sorted(sel.candidates, BySequence(q.transports))
    && |sel.candidates| == Min(sel.total, MAX_RECORDED_CANDIDATES)
    && forall i :: i in sel.candidates ==> i in Exact(q) || (Exact(q) == {} && i in InWindow(q))
  }

  /** The front of a sorted list leaves out nothing that comes strictly earlier. */
  lemma {:induction false} FrontIsEarliest(list: seq<nat>, key: nat -> Rank, n: nat, i: nat, j: nat)
    requires Sorted(list, key) && n <= |list| && i in list && j in list[..n] && !AtMost(key(j), key(i))
    ensures i in list[..n]
  {
    var k :| 0 <= k < |list| && list[k] == i;
    var m :| 0 <= m < n && list[m] == j;
    assert k < n;
    assert list[..n][k] == i;
  }

  /** Every hit counts once, a doubled one once more, and that much is listed, up to the limit. */
  ghost predicate Tallies(sel: Selection, hits: set<nat>, twice: set<nat>) {
    && sel.total == |hits| + |twice|
    && sel.truncated == (sel.total > MAX_RECORDED_CANDIDATES)
    && |sel.candidates| == Min(sel.total, MAX_RECORDED_CANDIDATES)
    && multiset(sel.candidates) <= multiset(hits) + multiset(twice)
  }

  /** No hit is left out for a later one. */
  ghost predicate ListsEarliest(sel: Selection, hits: set<nat>, key: nat -> Rank) {
    forall i: nat, j: nat :: i in hits && j in sel.candidates && !AtMost(key(j), key(i)) ==> i in sel.candidates
  }

  lemma {:induction false} Tallied(list: seq<nat>, p: nat -> bool, sorted: seq<nat>, hits: set<nat>, twice: set<nat>)
    requires multiset(sorted) == multiset(First(Filter(list, p)))
    requires multiset(Filter(list, p)) == multiset(hits) + multiset(twice)
    ensures var total := |Filter(list, p)|; Tallies(Selection(sorted, total, total > |sorted|), hits, twice)
  {
    var kept := Filter(list, p);
    var n := Min(|kept|, MAX_RECORDED_CANDIDATES);
    assert kept == kept[..n] + kept[n..];
    assert |kept| == |multiset(kept)|;
    SameMembers(sorted, kept[..n]);
  }

  lemma {:induction false} ListedEarliest(
    list: seq<nat>, key: nat -> Rank, p: nat -> bool, sorted: seq<nat>, hits: set<nat>, total: nat)
    requires Sorted(list, key) && multiset(sorted) == multiset(First(Filter(list, p)))
    requires forall i: nat :: i in hits <==> i in list && p(i)
    ensures ListsEarliest(Selection(sorted, total, total > |sorted|), hits, key)
    ensures forall i: nat :: i in sorted ==> i in hits
  {
    var kept := Filter(list, p);
    var n := Min(|kept|, MAX_RECORDED_CANDIDATES);
    FilterStaysSorted(list, key, p);
    FilterMembers(list, p);
    SameMembers(sorted, kept[..n]);
    forall i: nat, j: nat | i in hits && j in sorted && !AtMost(key(j), key(i)) ensures i in sorted {
      FrontIsEarliest(kept, key, n, i, j);
    }
    forall i: nat | i in sorted ensures i in hits {
      assert i in kept[..n];
      assert i in kept;
    }
  }

  /** The slice between the partition points holds the transports in the window, each once. */
  lemma {:induction false} WindowSlice(q: Query, byTime: seq<nat>, first: nat, afterLast: nat)
    requires TimeIndex(q.transports, byTime) && first <= |byTime| && afterLast <= |byTime|
    requires forall k :: 0 <= k < |byTime| ==> byTime[k] < |q.transports|
    requires forall k :: 0 <= k < |byTime| ==> (k < first <==> q.transports[byTime[k]].time < WindowStart(q.anchor))
    requires forall k :: 0 <= k < |byTime| ==> (k < afterLast <==> q.transports[byTime[k]].time <= WindowEnd(q.anchor))
    ensures first <= afterLast && Distinct(byTime[first..afterLast])
    ensures forall i: nat :: i in byTime[first..afterLast] <==>
      i < |q.transports| && WindowStart(q.anchor) <= q.transports[i].time <= WindowEnd(q.anchor)
  {
    if first > 0 {
      assert q.transports[byTime[first - 1]].time < WindowStart(q.anchor);
    }
    var slice := byTime[first..afterLast];
    forall i: nat | i < |q.transports| && WindowStart(q.anchor) <= q.transports[i].time <= WindowEnd(q.anchor)
      ensures i in slice
    {
      assert i in byTime;
      var k :| 0 <= k < |byTime| && byTime[k] == i;
      assert slice[k - first] == i;
    }
  }

  lemma {:induction false} ExactIsHitSet(q: Query)
    requires q.anchor.ids.inference.Some?
    ensures Exact(q) == HitSet(q.transports, q.anchor.ids.inference.value, Permits(q, true), 1)
    ensures Doubled(q) == HitSet(q.transports, q.anchor.ids.inference.value, Permits(q, true), 2)
  {
  }

  lemma {:induction false} ExactSelection(q: Query, sorted: seq<nat>)
    requires q.anchor.ids.inference.Some?
    requires var f := Filter(ExactList(q.transports, q.anchor.ids.inference.value), Permits(q, true));
      f != [] && multiset(sorted) == multiset(First(f)) && Sorted(sorted, BySequence(q.transports))
    ensures var total := |Filter(ExactList(q.transports, q.anchor.ids.inference.value), Permits(q, true))|;
      Selects(q, Selection(sorted, total, total > |sorted|))
  {
    var id, p := q.anchor.ids.inference.value, Permits(q, true);
    var list := ExactList(q.transports, id);
    var kept := Filter(list, p);
    ExactIsHitSet(q);
    ExactEntries(q.transports, id, p);
    ExactListMembers(q.transports, id);
    ExactListAscends(q.transports, id);
    FilterMembers(list, p);
    assert kept[0] in kept;
    assert kept[0] in Exact(q);
    Tallied(list, p, sorted, Exact(q), Doubled(q));
    ListedEarliest(list, ByIndex(), p, sorted, Exact(q), |kept|);
  }

  lemma {:induction false} NoExact(q: Query)
    requires q.anchor.ids.inference.Some? ==>
      Filter(ExactList(q.transports, q.anchor.ids.inference.value), Permits(q, true)) == []
    ensures Exact(q) == {}
  {
    if q.anchor.ids.inference.Some? {
      var id, p := q.anchor.ids.inference.value, Permits(q, true);
      ExactIsHitSet(q);
      ExactEntries(q.transports, id, p);
      assert |Exact(q)| == |multiset(Exact(q))|;
    }
  }

  lemma {:induction false} WindowSelection(q: Query, slice: seq<nat>, sorted: seq<nat>)
    requires Exact(q) == {} && Distinct(slice) && Sorted(slice, ByTime(q.transports))
    requires forall i: nat :: i in slice <==>
      i < |q.transports| && WindowStart(q.anchor) <= q.transports[i].time <= WindowEnd(q.anchor)
    requires multiset(sorted) == multiset(First(Filter(slice, Permits(q, false))))
    requires Sorted(sorted, BySequence(q.transports))
    ensures var total := |Filter(slice, Permits(q, false))|;
      Selects(q, Selection(sorted, total, total > |sorted|))
  {
    var p := Permits(q, false);
    var kept := Filter(slice, p);
    FilterStaysDistinct(slice, p);
    FilterMembers(slice, p);
    DistinctMultiset(kept, InWindow(q));
    DoubledIsExact(q);
    assert Doubled(q) == {};
    Tallied(slice, p, sorted, InWindow(q), Doubled(q));
    ListedEarliest(slice, ByTime(q.transports), p, sorted, InWindow(q), |kept|);
  }

  lemma {:induction false} DoubledIsExact(q: Query)
    ensures Doubled(q) <= Exact(q)
  {
  }

  /** The transports a plain scan finds: exact matches if there are any, else those in the window. */
  function ScanHits(q: Query): set<nat> { if Exact(q) != {} then Exact(q) else InWindow(q) }

  /** The order in which the search meets the hits: exact matches in transport order, others by time. */
  function SearchOrder(q: Query): nat -> Rank { if Exact(q) != {} then ByIndex() else ByTime(q.transports) }

  /** A selection against the plain scan: its count, what is listed, and the log order it is listed in. */
  ghost predicate Selects(q: Query, sel: Selection) {
    && Sound(q, sel)
    && Tallies(sel, ScanHits(q), Doubled(q))
    && ListsEarliest(sel, ScanHits(q), SearchOrder(q))
  }

  /** The indexed search gives the plain scan's answer, with doubled transports counted twice. */
  method CandidatesForAnchor(q: Query, byTime: seq<nat>, byExact: map<string, seq<nat>>) returns (sel: Selection)
    requires TimeIndex(q.transports, byTime) && ExactIndex(q.transports, byExact)
    ensures Selects(q, sel)
  {
    var first := PartitionPoint(q.transports, byTime, WindowStart(q.anchor), false);
    var afterLast := PartitionPoint(q.transports, byTime, WindowEnd(q.anchor), true);
    if q.anchor.ids.inference.Some? {
      var id := q.anchor.ids.inference.value;
      ExactListMembers(q.transports, id);
      assert Entry(byExact, id) == ExactList(q.transports, id);
      if id in byExact {
        var candidates, total := Gather(q, byExact[id], true);
        if total > 0 {
          var sorted := Sort<nat>(candidates, BySequence(q.transports));
          ExactSelection(q, sorted);
          return Selection(sorted, total, total > |sorted|);
        }
      }
    }
    NoExact(q);
    WindowSlice(q, byTime, first, afterLast);
    assert Sorted(byTime[first..afterLast], ByTime(q.transports));
    var candidates, total := Gather(q, byTime[first..afterLast], false);
    var sorted := Sort<nat>(candidates, BySequence(q.transports));
    WindowSelection(q, byTime[first..afterLast], sorted);
    return Selection(sorted, total, total > |sorted|);
  }

  /** A selection that is not truncated lists every hit, and a doubled one twice. */
  lemma {:induction false} AllAreListed(q: Query, sel: Selection)
    requires Selects(q, sel) && !sel.truncated
    ensures multiset(sel.candidates) == multiset(ScanHits(q)) + multiset(Doubled(q))
    ensures forall i: nat :: i in sel.candidates <==> i in ScanHits(q)
  {
    var all := multiset(ScanHits(q)) + multiset(Doubled(q));
    assert |all| == |multiset(sel.candidates)|;
    assert all == multiset(sel.candidates) + (all - multiset(sel.candidates));
    DoubledIsExact(q);
    forall i: nat ensures i in sel.candidates <==> i in ScanHits(q) {
      assert i in sel.candidates <==> i in multiset(sel.candidates);
    }
  }

  /** An anchor that names a transport whose response carried its own ID is given that transport twice. */
  lemma {:induction false} OwnIdCountsTwice(a: Anchor, t: Transport, sel: Selection)
    requires a.ids.inference == Some(t.inference) && t.inference in t.responseIds
    requires Selects(Query(a, [t], {}, map[]), sel)
    ensures sel == Selection([0, 0], 2, false)
  {
    var q := Query(a, [t], {}, map[]);
    assert 0 in Exact(q) && 0 in Doubled(q);
    assert Exact(q) == {0} && Doubled(q) == {0};
    assert |sel.candidates| == 2;
    assert sel.candidates[0] in sel.candidates && sel.candidates[1] in sel.candidates;
  }
}
