/** Laying trace spans out on numbered lanes per process: spans on one lane should not overlap.
    A lane keeps its intervals in tuple order and is searched by bisection. */
module TraceLayout {
  import opened Options

  /** A span's times.  The end has a microsecond taken off, so it may lie before the start. */
  datatype Interval = Interval(start: int, end: int)

  /** Where an interval stops; one that ends before it starts counts as an instant. */
  function Last(a: Interval): int { if a.end < a.start then a.start else a.end }

  predicate Overlap(a: Interval, b: Interval) { a.start < Last(b) && b.start < Last(a) }

  /** Tuple order against `(start, end)`; no end stands for minus infinity. */
  predicate Before(a: Interval, start: int, end: Option<int>) {
    a.start < start || (a.start == start && end.Some? && a.end < end.value)
  }

  /** In tuple order. */
  predicate Ordered(s: seq<Interval>) {
    forall i, j :: 0 <= i < j < |s| ==> !Before(s[j], s[i].start, Some(s[i].end))
  }

  /** Pairwise apart. */
  predicate Separated(s: seq<Interval>) {
    forall i, j :: 0 <= i < j < |s| ==> Last(s[i]) <= s[j].start
  }

  predicate Conflicts(s: seq<Interval>, x: Interval) {
    exists i :: 0 <= i < |s| && Overlap(s[i], x)
  }

  /** How many intervals come first in the tuple order. */
  function Rank(s: seq<Interval>, start: int, end: Option<int>): (k: nat)
    ensures k <= |s|
  {
    if s == [] || !Before(s[0], start, end) then 0 else 1 + Rank(s[1..], start, end)
  }

  predicate SplitsAt(s: seq<Interval>, k: int, start: int, end: Option<int>) {
    && 0 <= k <= |s|
    && (forall i :: 0 <= i < k ==> Before(s[i], start, end))
    && forall i :: k <= i < |s| ==> !Before(s[i], start, end)
  }

  /** A split point is the rank. */
  lemma {:induction false} SplitIsRank(s: seq<Interval>, k: int, start: int, end: Option<int>)
    requires SplitsAt(s, k, start, end)
    ensures k == Rank(s, start, end)
  {
    if s != [] && Before(s[0], start, end) {
      SplitIsRank(s[1..], k - 1, start, end);
    }
  }

  lemma {:induction false} RankSplits(s: seq<Interval>, start: int, end: Option<int>)
    requires Ordered(s)
    ensures SplitsAt(s, Rank(s, start, end), start, end)
  {
    if s != [] {
      if Before(s[0], start, end) {
        RankSplits(s[1..], start, end);
        assert forall i :: 0 < i < |s| ==> s[i] == s[1..][i - 1];
      } else {
        forall i | 0 < i < |s|
          ensures !Before(s[i], start, end)
        {
          assert !Before(s[i], s[0].start, Some(s[0].end));
        }
      }
    }
  }

  method BisectLeft(s: seq<Interval>, start: int, end: Option<int>) returns (idx: nat)
    requires Ordered(s)
    ensures SplitsAt(s, idx, start, end) && idx == Rank(s, start, end)
  {
    idx := 0;
    var hi := |s|;
    while idx < hi
      invariant 0 <= idx <= hi <= |s|
      invariant forall i :: 0 <= i < idx ==> Before(s[i], start, end)
      invariant forall i :: hi <= i < |s| ==> !Before(s[i], start, end)
    {
      var mid := (idx + hi) / 2;
      if Before(s[mid], start, end) {
        idx := mid + 1;
      } else {
        hi := mid;
      }
    }
    SplitIsRank(s, idx, start, end);
  }

  /** What the check looks at: the two neighbours of the bisection point. */
  predicate NeighbourHit(s: seq<Interval>, idx: int, start: int, end: int)
    requires 0 <= idx <= |s|
  {
    (idx > 0 && s[idx - 1].end > start) || (idx < |s| && s[idx].start < end)
  }

  predicate Taken(s: seq<Interval>, start: int, end: int) {
    NeighbourHit(s, Rank(s, start, None), start, end)
  }

  method CheckOverlap(s: seq<Interval>, start: int, end: int) returns (b: bool)
    requires Ordered(s)
    ensures b <==> Taken(s, start, end)
  {
    var idx := BisectLeft(s, start, None);
    if idx > 0 && s[idx - 1].end > start {
      return true;
    }
    if idx < |s| && s[idx].start < end {
      return true;
    }
    return false;
  }

  /** Intervals away from the bisection point are on the near side of its neighbours. */
  lemma OnlyNeighbours(s: seq<Interval>, start: int, idx: int, i: nat)
    requires Separated(s) && SplitsAt(s, idx, start, None) && i < |s|
    ensures i < idx - 1 ==> Last(s[i]) < start
    ensures i >= idx ==> s[idx].start <= s[i].start
  {
    if i < idx - 1 {
      assert Before(s[idx - 1], start, None);
    }
  }

  /** An interval without extent at this very start. */
  predicate InstantAt(s: seq<Interval>, start: int) {
    exists i :: 0 <= i < |s| && s[i].start == start == Last(s[i])
  }

  lemma OverlapIsHit(s: seq<Interval>, start: int, end: int, idx: int, i: nat)
    requires Separated(s) && SplitsAt(s, idx, start, None) && i < |s|
    requires Overlap(s[i], Interval(start, end)) || (start < end && s[i].start == start == Last(s[i]))
    ensures NeighbourHit(s, idx, start, end)
  {
    OnlyNeighbours(s, start, idx, i);
  }

  lemma HitIsOverlap(s: seq<Interval>, start: int, end: int, idx: int)
    requires SplitsAt(s, idx, start, None) && NeighbourHit(s, idx, start, end)
    ensures Conflicts(s, Interval(start, end)) || (start < end && InstantAt(s, start))
  {
    var x := Interval(start, end);
    if idx > 0 && s[idx - 1].end > start {
      assert Before(s[idx - 1], start, None);
      assert Overlap(s[idx - 1], x);
    } else {
      assert !Before(s[idx], start, None);
      assert Overlap(s[idx], x) || s[idx].start == start == Last(s[idx]);
    }
  }

  /** On a lane whose intervals are apart the check is about all of them: it reports every
      overlap, and besides only an instant at the very start of the span. */
  lemma CheckIsExact(s: seq<Interval>, start: int, end: int)
    requires Ordered(s) && Separated(s)
    ensures Taken(s, start, end) <==>
            Conflicts(s, Interval(start, end)) || (start < end && InstantAt(s, start))
  {
    var x, idx := Interval(start, end), Rank(s, start, None);
    RankSplits(s, start, None);
    if i :| 0 <= i < |s| && (Overlap(s[i], x) || (start < end && s[i].start == start == Last(s[i]))) {
      OverlapIsHit(s, start, end, idx, i);
    }
    if NeighbourHit(s, idx, start, end) {
      HitIsOverlap(s, start, end, idx);
    }
  }

  function Inserted(s: seq<Interval>, k: nat, x: Interval): seq<Interval>
    requires k <= |s|
  {
    s[..k] + [x] + s[k..]
  }

  function InsertedAt(s: seq<Interval>, k: nat, x: Interval, i: nat): Interval
    requires k <= |s| && i <= |s|
  {
    if i < k then s[i] else if i == k then x else s[i - 1]
  }

  lemma InsertedMembers(s: seq<Interval>, k: nat, x: Interval)
    requires k <= |s|
    ensures multiset(Inserted(s, k, x)) == multiset(s) + multiset{x}
    ensures forall y :: y in Inserted(s, k, x) <==> y in s || y == x
  {
    assert s == s[..k] + s[k..];
  }

  lemma InsertedIsOrdered(s: seq<Interval>, k: nat, x: Interval)
    requires Ordered(s) && SplitsAt(s, k, x.start, Some(x.end))
    ensures Ordered(Inserted(s, k, x))
  {
    var r := Inserted(s, k, x);
    assert forall i :: 0 <= i < |r| ==> r[i] == InsertedAt(s, k, x, i);
  }

  lemma InsertedIsSeparated(s: seq<Interval>, k: nat, x: Interval)
    requires Separated(s) && SplitsAt(s, k, x.start, Some(x.end)) && !Conflicts(s, x)
    ensures Separated(Inserted(s, k, x))
  {
    var r := Inserted(s, k, x);
    forall i, j | 0 <= i < j < |r|
      ensures Last(r[i]) <= r[j].start
    {
      assert r[i] == InsertedAt(s, k, x, i) && r[j] == InsertedAt(s, k, x, j);
      InsertedPair(s, k, x, i, j);
    }
  }

  lemma InsertedPair(s: seq<Interval>, k: nat, x: Interval, i: nat, j: nat)
    requires Separated(s) && SplitsAt(s, k, x.start, Some(x.end)) && !Conflicts(s, x) && i < j <= |s|
    ensures Last(InsertedAt(s, k, x, i)) <= InsertedAt(s, k, x, j).start
  {
    if i == k {
      ApartFromNew(s, k, x, j - 1);
    } else if j == k {
      ApartFromNew(s, k, x, i);
    } else {
      assert Last(s[if i < k then i else i - 1]) <= s[if j < k then j else j - 1].start;
    }
  }

  /** Insertion keeps a lane's intervals apart exactly when the new one overlaps none. */
  lemma InsertedIsSeparatedIff(s: seq<Interval>, k: nat, x: Interval)
    requires Separated(s) && SplitsAt(s, k, x.start, Some(x.end))
    ensures Separated(Inserted(s, k, x)) <==> !Conflicts(s, x)
  {
    var r := Inserted(s, k, x);
    if i :| 0 <= i < |s| && Overlap(s[i], x) {
      assert r[k] == x && (if i < k then r[i] == s[i] else r[i + 1] == s[i]);
    } else {
      InsertedIsSeparated(s, k, x);
    }
  }

  /** An interval that does not overlap the new one is wholly before or after it. */
  lemma ApartFromNew(s: seq<Interval>, k: nat, x: Interval, i: nat)
    requires SplitsAt(s, k, x.start, Some(x.end)) && i < |s| && !Overlap(s[i], x)
    ensures if i < k then Last(s[i]) <= x.start else Last(x) <= s[i].start
  {
  }

  /** `s` with `x` at its place in the tuple order. */
  function Put(s: seq<Interval>, x: Interval): seq<Interval> {
    Inserted(s, Rank(s, x.start, Some(x.end)), x)
  }

  /** Putting adds exactly the span, keeps the order, and keeps the intervals apart exactly
      if it overlaps none. */
  lemma PutAdds(s: seq<Interval>, x: Interval)
    requires Ordered(s)
    ensures Ordered(Put(s, x)) && multiset(Put(s, x)) == multiset(s) + multiset{x}
    ensures forall y :: y in Put(s, x) <==> y in s || y == x
    ensures Separated(s) ==> (Separated(Put(s, x)) <==> !Conflicts(s, x))
  {
    var k := Rank(s, x.start, Some(x.end));
    RankSplits(s, x.start, Some(x.end));
    InsertedMembers(s, k, x);
    InsertedIsOrdered(s, k, x);
    if Separated(s) {
      InsertedIsSeparatedIff(s, k, x);
    }
  }

  method InsertSpan(s: seq<Interval>, start: int, end: int) returns (r: seq<Interval>)
    requires Ordered(s)
    ensures r == Put(s, Interval(start, end)) && Ordered(r)
    ensures multiset(r) == multiset(s) + multiset{Interval(start, end)}
  {
    var k := BisectLeft(s, start, Some(end));
    PutAdds(s, Interval(start, end));
    r := s[..k] + [Interval(start, end)] + s[k..];
  }

  /** One entry of a process's lane dictionary, in insertion order. */
  datatype Lane = Lane(line: int, intervals: seq<Interval>)

  /** Lanes are numbered from 1 without gaps, each in order. */
  predicate LanesOk(lanes: seq<Lane>) {
    forall i :: 0 <= i < |lanes| ==> lanes[i].line == i + 1 && Ordered(lanes[i].intervals)
  }

  /** How many lanes from the front are taken. */
  function TakenFirst(lanes: seq<Lane>, start: int, end: int): (k: nat)
    ensures k <= |lanes|
    ensures forall i :: 0 <= i < k ==> Taken(lanes[i].intervals, start, end)
    ensures k < |lanes| ==> !Taken(lanes[k].intervals, start, end)
  {
    if lanes == [] || !Taken(lanes[0].intervals, start, end) then 0 else 1 + TakenFirst(lanes[1..], start, end)
  }

  /** The first lane, in insertion order, that the check finds free. */
  method FirstFree(lanes: seq<Lane>, start: int, end: int) returns (k: nat)
    requires LanesOk(lanes)
    ensures k == TakenFirst(lanes, start, end)
  {
    k := 0;
    while k < |lanes|
      invariant k <= |lanes|
      invariant forall i :: 0 <= i < k ==> Taken(lanes[i].intervals, start, end)
    {
      var taken := CheckOverlap(lanes[k].intervals, start, end);
      if !taken {
        return;
      }
      k := k + 1;
    }
  }

  /** A span put on lane `line` of process `pid`. */
  datatype Placement = Placement(pid: int, line: int, span: Interval)

  predicate SameLane(a: Placement, b: Placement) { a.pid == b.pid && a.line == b.line }

  predicate Clash(a: Placement, b: Placement) { SameLane(a, b) && Overlap(a.span, b.span) }

  /** No two placements on one lane of one process overlap. */
  ghost predicate NoClash(log: seq<Placement>) {
    forall i, j {:trigger Clash(log[i], log[j])} :: 0 <= i < j < |log| ==> !Clash(log[i], log[j])
  }

  /** The zero-length span `b` was put inside `a`. */
  predicate Buries(a: Placement, b: Placement) { Clash(a, b) && b.span.start == b.span.end }

  /** No zero-length span was put inside a span already on its lane. */
  ghost predicate NoBuriedInstant(log: seq<Placement>) {
    forall i, j {:trigger Buries(log[i], log[j])} :: 0 <= i < j < |log| ==> !Buries(log[i], log[j])
  }

  /** A placement clashes with the log exactly if it overlaps something on its lane. */
  lemma OneMorePlacement(log: seq<Placement>, p: Placement, lane: seq<Interval>)
    requires forall x :: x in lane <==> Placement(p.pid, p.line, x) in log
    ensures NoClash(log + [p]) <==> NoClash(log) && !Conflicts(lane, p.span)
    ensures NoBuriedInstant(log + [p]) <==>
            NoBuriedInstant(log) && (p.span.start == p.span.end ==> !Conflicts(lane, p.span))
  {
    var r, n := log + [p], |log|;
    assert r[n] == p;
    PrefixClash(log, p);
    if i :| 0 <= i < |lane| && Overlap(lane[i], p.span) {
      var k :| 0 <= k < n && log[k] == Placement(p.pid, p.line, lane[i]);
      assert r[k] == log[k] && Clash(r[k], r[n]);
      assert Buries(r[k], r[n]) <==> p.span.start == p.span.end;
    }
    if k :| 0 <= k < n && Clash(log[k], p) {
      assert log[k] == Placement(p.pid, p.line, log[k].span);
      assert log[k].span in lane;
    }
    assert Conflicts(lane, p.span) <==> exists k :: 0 <= k < n && Clash(log[k], p);
  }

  /** The clashes of a longer log are the old ones and those with the last placement. */
  lemma PrefixClash(log: seq<Placement>, p: Placement)
    ensures NoClash(log + [p]) <==> NoClash(log) && forall k :: 0 <= k < |log| ==> !Clash(log[k], p)
    ensures NoBuriedInstant(log + [p]) <==>
            NoBuriedInstant(log) && forall k :: 0 <= k < |log| ==> !Buries(log[k], p)
  {
    var r := log + [p];
    assert forall i :: 0 <= i < |log| ==> log[i] == r[i];
    assert r[|log|] == p;
    if NoClash(r) {
      forall i, j | 0 <= i < j < |log| ensures !Clash(log[i], log[j]) { assert !Clash(r[i], r[j]); }
      forall k | 0 <= k < |log| ensures !Clash(log[k], p) { assert !Clash(r[k], r[|log|]); }
    }
    if NoBuriedInstant(r) {
      forall i, j | 0 <= i < j < |log| ensures !Buries(log[i], log[j]) { assert !Buries(r[i], r[j]); }
      forall k | 0 <= k < |log| ensures !Buries(log[k], p) { assert !Buries(r[k], r[|log|]); }
    }
  }

  datatype Span = Span(pid: int, interval: Interval)

  function SpanOf(p: Placement): Span { Span(p.pid, p.span) }

  /** The log places these spans, in this order. */
  ghost predicate Places(log: seq<Placement>, spans: seq<Span>) {
    |log| == |spans| && forall i {:trigger SpanOf(log[i])} :: 0 <= i < |log| ==> SpanOf(log[i]) == spans[i]
  }

  lemma OneMorePlaced(log: seq<Placement>, spans: seq<Span>, p: Placement)
    requires Places(log, spans)
    ensures Places(log + [p], spans + [SpanOf(p)])
  {
    var r := log + [p];
    forall i | 0 <= i < |r| ensures SpanOf(r[i]) == (spans + [SpanOf(p)])[i] {
      assert i < |log| ==> r[i] == log[i] && SpanOf(log[i]) == spans[i];
    }
  }

  /** The lanes of every process. */
  type Graph = map<int, seq<Lane>>

  function LanesOf(g: Graph, p: int): seq<Lane> {
    if p in g then g[p] else []
  }

  predicate HasLane(g: Graph, p: int, l: int) {
    p in g && 1 <= l <= |g[p]|
  }

  /** The contents of lane `l` of process `p`. */
  function Contents(g: Graph, p: int, l: int): seq<Interval> {
    if HasLane(g, p, l) then g[p][l - 1].intervals else []
  }

  /** Every process in the graph has lanes, numbered and in order. */
  ghost predicate GraphOk(g: Graph) {
    forall p :: p in g ==> LanesOk(g[p]) && g[p] != []
  }

  /** On every lane the intervals are apart. */
  ghost predicate Clean(g: Graph) {
    forall p, l :: Separated(Contents(g, p, l))
  }

  // One placement, as a function of the lanes and of the request's lane on each process.

  /** The request keeps its own lane on this process: for a zero-length span without
      looking, for any other if the check finds it free. */
  predicate KeepsLane(g: Graph, status: map<int, int>, pid: int, start: int, end: int) {
    pid in status && (start == end || !Taken(Contents(g, pid, status[pid]), start, end))
  }

  /** The lane of a span: the request's own if it keeps it, else the first free one, or one
      more than there are. */
  function LineFor(g: Graph, status: map<int, int>, pid: int, start: int, end: int): int {
    if KeepsLane(g, status, pid, start, end) then status[pid] else TakenFirst(LanesOf(g, pid), start, end) + 1
  }

  /** Lane `l` is the first one that the check finds free, or new. */
  ghost predicate FirstFreeLine(g: Graph, p: int, l: int, start: int, end: int) {
    && !Taken(Contents(g, p, l), start, end)
    && forall k :: 1 <= k < l ==> HasLane(g, p, k) && Taken(Contents(g, p, k), start, end)
  }

  lemma LineIsFirstFree(g: Graph, status: map<int, int>, p: int, start: int, end: int)
    requires !KeepsLane(g, status, p, start, end)
    ensures FirstFreeLine(g, p, LineFor(g, status, p, start, end), start, end)
  {
    var lanes := LanesOf(g, p);
    var l := TakenFirst(lanes, start, end) + 1;
    forall k | 1 <= k < l
      ensures HasLane(g, p, k) && Taken(Contents(g, p, k), start, end)
    {
      assert Taken(lanes[k - 1].intervals, start, end);
    }
  }

  /** A zero-length span is kept on a lane with a span around it. */
  predicate Buried(g: Graph, status: map<int, int>, pid: int, start: int, end: int) {
    pid in status && start == end && Conflicts(Contents(g, pid, status[pid]), Interval(start, end))
  }

  /** Lane `l` of process `p` exists afterwards. */
  function Opened(g: Graph, p: int, l: int): Graph {
    if HasLane(g, p, l) then g else g[p := LanesOf(g, p) + [Lane(l, [])]]
  }

  function Filled(g: Graph, p: int, l: int, x: Interval): Graph {
    if HasLane(g, p, l) then g[p := g[p][l - 1 := Lane(l, Put(Contents(g, p, l), x))]] else g
  }

  function Placed(g: Graph, p: int, l: int, x: Interval): Graph {
    Filled(Opened(g, p, l), p, l, x)
  }

  ghost predicate StatusOk(g: Graph, status: map<int, int>) {
    forall p :: p in status ==> HasLane(g, p, status[p])
  }

  /** A request stays on its lane, for a proper span, exactly if nothing there overlaps it or
      is an instant at its start. */
  lemma StaysWhereFree(g: Graph, status: map<int, int>, pid: int, start: int, end: int)
    requires GraphOk(g) && StatusOk(g, status) && pid in status && Separated(Contents(g, pid, status[pid]))
    ensures !Conflicts(Contents(g, pid, status[pid]), Interval(start, end)) &&
            !InstantAt(Contents(g, pid, status[pid]), start) ==>
              LineFor(g, status, pid, start, end) == status[pid]
    ensures start != end && Conflicts(Contents(g, pid, status[pid]), Interval(start, end)) ==>
              LineFor(g, status, pid, start, end) != status[pid]
  {
    var l := status[pid];
    CheckIsExact(Contents(g, pid, l), start, end);
    if !KeepsLane(g, status, pid, start, end) {
      LineIsFirstFree(g, status, pid, start, end);
    }
  }

  /** `l` is a lane of `p` or the next to be added. */
  predicate NextOrOld(g: Graph, p: int, l: int) { 1 <= l <= |LanesOf(g, p)| + 1 }

  lemma OpenedLane(g: Graph, p: int, l: int)
    requires GraphOk(g) && NextOrOld(g, p, l)
    ensures GraphOk(Opened(g, p, l))
    ensures forall q, k :: HasLane(Opened(g, p, l), q, k) <==> HasLane(g, q, k) || (q, k) == (p, l)
    ensures forall q, k :: Contents(Opened(g, p, l), q, k) == Contents(g, q, k)
  {
    if !HasLane(g, p, l) {
      OneLaneMore(g, Opened(g, p, l), p, l);
    }
  }

  lemma OneLaneMore(g: Graph, g': Graph, p: int, l: int)
    requires GraphOk(g) && l == |LanesOf(g, p)| + 1 && g' == g[p := LanesOf(g, p) + [Lane(l, [])]]
    ensures GraphOk(g')
    ensures forall q, k :: HasLane(g', q, k) <==> HasLane(g, q, k) || (q, k) == (p, l)
    ensures forall q, k :: Contents(g', q, k) == Contents(g, q, k)
  {
    var lanes, lanes' := LanesOf(g, p), g'[p];
    assert forall i :: 0 <= i < l - 1 ==> lanes'[i] == lanes[i];
    assert lanes'[l - 1] == Lane(l, []);
    assert LanesOk(lanes');
    forall q, k
      ensures HasLane(g', q, k) <==> HasLane(g, q, k) || (q, k) == (p, l)
      ensures Contents(g', q, k) == Contents(g, q, k)
    {
      if q == p && 1 <= k < l {
        assert lanes'[k - 1] == lanes[k - 1];
      }
    }
  }

  lemma LanesStayOk(lanes: seq<Lane>, l: int, r: seq<Interval>)
    requires LanesOk(lanes) && 1 <= l <= |lanes| && Ordered(r)
    ensures LanesOk(lanes[l - 1 := Lane(l, r)])
  {
    var lanes' := lanes[l - 1 := Lane(l, r)];
    forall i | 0 <= i < |lanes'|
      ensures lanes'[i].line == i + 1 && Ordered(lanes'[i].intervals)
    {
      assert lanes'[i] == if i == l - 1 then Lane(l, r) else lanes[i];
    }
  }

  lemma FilledLane(g: Graph, p: int, l: int, x: Interval)
    requires GraphOk(g) && HasLane(g, p, l)
    ensures GraphOk(Filled(g, p, l, x))
    ensures forall q, k :: HasLane(Filled(g, p, l, x), q, k) <==> HasLane(g, q, k)
    ensures forall q, k :: Contents(Filled(g, p, l, x), q, k) ==
                           if (q, k) == (p, l) then Put(Contents(g, p, l), x) else Contents(g, q, k)
  {
    PutAdds(Contents(g, p, l), x);
    OneLaneReplaced(g, Filled(g, p, l, x), p, l, Put(Contents(g, p, l), x));
  }

  lemma OneLaneReplaced(g: Graph, g': Graph, p: int, l: int, r: seq<Interval>)
    requires GraphOk(g) && HasLane(g, p, l) && Ordered(r) && g' == g[p := g[p][l - 1 := Lane(l, r)]]
    ensures GraphOk(g')
    ensures forall q, k :: HasLane(g', q, k) <==> HasLane(g, q, k)
    ensures forall q, k :: Contents(g', q, k) == if (q, k) == (p, l) then r else Contents(g, q, k)
  {
    LanesStayOk(g[p], l, r);
    forall q, k
      ensures Contents(g', q, k) == if (q, k) == (p, l) then r else Contents(g, q, k)
    {
      if q == p && HasLane(g, p, k) {
        assert g'[p][k - 1] == if k == l then Lane(l, r) else g[p][k - 1];
      }
    }
  }

  /** A placement changes the contents of its lane only. */
  lemma PlacedLane(g: Graph, p: int, l: int, x: Interval)
    requires GraphOk(g) && NextOrOld(g, p, l)
    ensures GraphOk(Placed(g, p, l, x)) && Ordered(Contents(g, p, l))
    ensures forall q, k :: HasLane(Placed(g, p, l, x), q, k) <==> HasLane(g, q, k) || (q, k) == (p, l)
    ensures forall q, k :: Contents(Placed(g, p, l, x), q, k) ==
                           if (q, k) == (p, l) then Put(Contents(g, p, l), x) else Contents(g, q, k)
  {
    OpenedLane(g, p, l);
    FilledLane(Opened(g, p, l), p, l, x);
  }

  /** The chosen lane: if its intervals are apart, the span overlaps one of them exactly when
      it is a zero-length span kept without looking. */
  lemma ChosenLane(g: Graph, status: map<int, int>, pid: int, start: int, end: int)
    requires GraphOk(g) && StatusOk(g, status)
    ensures var l := LineFor(g, status, pid, start, end);
            && NextOrOld(g, pid, l)
            && (Separated(Contents(g, pid, l)) ==>
                  (Conflicts(Contents(g, pid, l), Interval(start, end)) <==> Buried(g, status, pid, start, end)))
  {
    var l := LineFor(g, status, pid, start, end);
    var s := Contents(g, pid, l);
    assert NextOrOld(g, pid, l);
    assert Ordered(s);
    if Separated(s) && !(pid in status && start == end) {
      if !KeepsLane(g, status, pid, start, end) {
        LineIsFirstFree(g, status, pid, start, end);
      }
      assert !Taken(s, start, end);
      CheckIsExact(s, start, end);
    }
  }

  /** One placement keeps all lanes apart exactly unless it buries an instant. */
  lemma CleanStep(g: Graph, status: map<int, int>, pid: int, start: int, end: int)
    requires GraphOk(g) && StatusOk(g, status) && Clean(g)
    ensures var l := LineFor(g, status, pid, start, end);
            Clean(Placed(g, pid, l, Interval(start, end))) <==> !Buried(g, status, pid, start, end)
  {
    var l, x := LineFor(g, status, pid, start, end), Interval(start, end);
    var g' := Placed(g, pid, l, x);
    ChosenLane(g, status, pid, start, end);
    PlacedLane(g, pid, l, x);
    PutAdds(Contents(g, pid, l), x);
    assert Separated(Contents(g, pid, l));
    assert Contents(g', pid, l) == Put(Contents(g, pid, l), x);
    if !Buried(g, status, pid, start, end) {
      forall q, k
        ensures Separated(Contents(g', q, k))
      {
        assert Separated(Contents(g, q, k));
      }
    }
  }

  // Logs.

  /** The lanes hold exactly the placed spans. */
  ghost predicate Records(g: Graph, log: seq<Placement>) {
    forall p, l, x :: x in Contents(g, p, l) <==> Placement(p, l, x) in log
  }

  /** The log has a clash only through a buried instant, and until then every lane's
      intervals are apart. */
  ghost predicate Sound(g: Graph, log: seq<Placement>) {
    && GraphOk(g) && Records(g, log)
    && (NoClash(log) ==> Clean(g))
    && (NoClash(log) <==> NoBuriedInstant(log))
  }

  /** `g'` holds what `g` does, and `x` on lane `l` of process `p`. */
  ghost predicate Grows(g: Graph, g': Graph, p: int, l: int, x: Interval) {
    forall q, k, y :: y in Contents(g', q, k) <==> y in Contents(g, q, k) || (q, k, y) == (p, l, x)
  }

  lemma PlacedGrows(g: Graph, p: int, l: int, x: Interval)
    requires GraphOk(g) && NextOrOld(g, p, l)
    ensures Grows(g, Placed(g, p, l, x), p, l, x)
  {
    PlacedLane(g, p, l, x);
    PutAdds(Contents(g, p, l), x);
  }

  lemma StepRecords(g: Graph, g': Graph, log: seq<Placement>, p: Placement)
    requires Records(g, log) && Grows(g, g', p.pid, p.line, p.span)
    ensures Records(g', log + [p])
  {
    forall q, l, x
      ensures x in Contents(g', q, l) <==> Placement(q, l, x) in log + [p]
    {
      assert x in Contents(g, q, l) <==> Placement(q, l, x) in log;
    }
  }

  lemma StepLog(g: Graph, g': Graph, log: seq<Placement>, p: Placement, buried: bool)
    requires Sound(g, log) && GraphOk(g') && Grows(g, g', p.pid, p.line, p.span)
    requires NoClash(log) ==> (Conflicts(Contents(g, p.pid, p.line), p.span) <==> buried) && (Clean(g') <==> !buried)
    requires buried ==> p.span.start == p.span.end
    ensures Sound(g', log + [p]) && (NoClash(log + [p]) <==> NoClash(log) && !buried)
  {
    StepRecords(g, g', log, p);
    OneMorePlacement(log, p, Contents(g, p.pid, p.line));
  }

  /** One placement, on the lanes. */
  lemma StepLanes(g: Graph, status: map<int, int>, span: Span)
    requires GraphOk(g) && StatusOk(g, status)
    ensures GraphOk(Next(g, status, span)) && StatusOk(Next(g, status, span), NextStatus(g, status, span))
    ensures Grows(g, Next(g, status, span), span.pid, Choose(g, status, span).line, span.interval)
  {
    var p := Choose(g, status, span);
    ChosenLane(g, status, span.pid, span.interval.start, span.interval.end);
    PlacedLane(g, p.pid, p.line, p.span);
    PlacedGrows(g, p.pid, p.line, p.span);
  }

  lemma StepClean(g: Graph, status: map<int, int>, span: Span)
    requires GraphOk(g) && StatusOk(g, status) && Clean(g)
    ensures Clean(Next(g, status, span)) <==> !BuriedSpan(g, status, span)
    ensures Conflicts(Contents(g, span.pid, Choose(g, status, span).line), span.interval) <==>
            BuriedSpan(g, status, span)
  {
    ChosenLane(g, status, span.pid, span.interval.start, span.interval.end);
    assert Separated(Contents(g, span.pid, Choose(g, status, span).line));
    CleanStep(g, status, span.pid, span.interval.start, span.interval.end);
  }

  /** One placement: the log stays sound, and stays free of clashes exactly unless it buries
      an instant. */
  lemma StepSound(g: Graph, log: seq<Placement>, status: map<int, int>, span: Span)
    requires Sound(g, log) && StatusOk(g, status)
    ensures var p := Choose(g, status, span);
            && Sound(Next(g, status, span), log + [p])
            && (NoClash(log + [p]) <==> NoClash(log) && !BuriedSpan(g, status, span))
    ensures StatusOk(Next(g, status, span), NextStatus(g, status, span))
  {
    var p := Choose(g, status, span);
    StepLanes(g, status, span);
    if NoClash(log) {
      StepClean(g, status, span);
    }
    StepLog(g, Next(g, status, span), log, p, BuriedSpan(g, status, span));
  }

  // Runs, as functions of the spans alone.

  function Choose(g: Graph, status: map<int, int>, span: Span): Placement {
    Placement(span.pid, LineFor(g, status, span.pid, span.interval.start, span.interval.end), span.interval)
  }

  function Next(g: Graph, status: map<int, int>, span: Span): Graph {
    Placed(g, span.pid, Choose(g, status, span).line, span.interval)
  }

  function NextStatus(g: Graph, status: map<int, int>, span: Span): map<int, int> {
    status[span.pid := Choose(g, status, span).line]
  }

  predicate BuriedSpan(g: Graph, status: map<int, int>, span: Span) {
    Buried(g, status, span.pid, span.interval.start, span.interval.end)
  }

  /** The lanes after a request's spans from `k` on. */
  function AfterRoot(g: Graph, status: map<int, int>, spans: seq<Span>, k: nat): Graph
    requires k <= |spans|
    decreases |spans| - k
  {
    if k == |spans| then g else AfterRoot(Next(g, status, spans[k]), NextStatus(g, status, spans[k]), spans, k + 1)
  }

  /** None of a request's spans from `k` on is buried when its turn comes. */
  predicate RootBuriesNone(g: Graph, status: map<int, int>, spans: seq<Span>, k: nat)
    requires k <= |spans|
    decreases |spans| - k
  {
    k == |spans| ||
    (!BuriedSpan(g, status, spans[k]) &&
     RootBuriesNone(Next(g, status, spans[k]), NextStatus(g, status, spans[k]), spans, k + 1))
  }

  /** None of the requests from `k` on buries an instant; each starts without a lane. */
  predicate BuriesNone(g: Graph, roots: seq<seq<Span>>, k: nat)
    requires k <= |roots|
    decreases |roots| - k
  {
    k == |roots| ||
    (RootBuriesNone(g, map[], roots[k], 0) && BuriesNone(AfterRoot(g, map[], roots[k], 0), roots, k + 1))
  }

  /** `done` followed by the first `k` of `spans`. */
  ghost function Extended(done: seq<Span>, spans: seq<Span>, k: nat): seq<Span>
    requires k <= |spans|
  {
    if k == 0 then done else Extended(done, spans, k - 1) + [spans[k - 1]]
  }

  lemma ExtendedByAll(done: seq<Span>, spans: seq<Span>)
    ensures Extended(done, spans, |spans|) == done + spans
  {
    for k := 0 to |spans|
      invariant Extended(done, spans, k) == done + spans[..k]
    {
    }
  }

  class Layout {
    var graph: Graph
    /** Lane metadata emitted so far, one entry per lane. */
    var slots: seq<(int, int)>

    ghost predicate Valid()
      reads this
    {
      && GraphOk(graph)
      && (forall i, j :: 0 <= i < j < |slots| ==> slots[i] != slots[j])
      && forall p, l :: (p, l) in slots <==> HasLane(graph, p, l)
    }

    constructor ()
      ensures Valid() && graph == map[] && slots == []
    {
      graph, slots := map[], [];
    }

    /** Adds an empty lane with the next number. */
    method AddLane(pid: int) returns (line: int)
      requires Valid()
      modifies this
      ensures Valid() && line == |LanesOf(old(graph), pid)| + 1 && !HasLane(old(graph), pid, line)
      ensures graph == Opened(old(graph), pid, line) && HasLane(graph, pid, line)
      ensures slots == old(slots) + [(pid, line)]
    {
      var lanes := LanesOf(graph, pid);
      line := |lanes| + 1;
      OpenedLane(graph, pid, line);
      graph := graph[pid := lanes + [Lane(line, [])]];
      slots := slots + [(pid, line)];
    }

    /** Whether the request's own lane on the process will do. */
    method StaysOnLane(status: map<int, int>, pid: int, start: int, end: int) returns (kept: bool)
      requires Valid() && StatusOk(graph, status)
      ensures kept <==> KeepsLane(graph, status, pid, start, end)
      ensures kept <==> pid in status && (start == end || !Taken(Contents(graph, pid, status[pid]), start, end))
    {
      if pid in status {
        var line := status[pid];
        if start == end {
          return true;
        }
        var taken := CheckOverlap(graph[pid][line - 1].intervals, start, end);
        return !taken;
      }
      return false;
    }

    /** The first free lane of a process, or a new one. */
    method FindFree(pid: int, start: int, end: int) returns (line: int)
      requires Valid()
      modifies this
      ensures Valid() && line == TakenFirst(LanesOf(old(graph), pid), start, end) + 1
      ensures graph == Opened(old(graph), pid, line) && HasLane(graph, pid, line)
    {
      if pid in graph {
        var k := FirstFree(graph[pid], start, end);
        if k < |graph[pid]| {
          return graph[pid][k].line;
        }
      }
      line := AddLane(pid);
    }

    /** Picks the lane for a span: the request's own if it keeps it, else the first free
        lane, else a new one. */
    method FindLine(status: map<int, int>, pid: int, start: int, end: int)
      returns (line: int, status': map<int, int>)
      requires Valid() && StatusOk(graph, status)
      modifies this
      ensures Valid() && status' == status[pid := line] && line == LineFor(old(graph), status, pid, start, end)
      ensures graph == Opened(old(graph), pid, line) && HasLane(graph, pid, line)
      ensures pid in status && (start == end || !Taken(Contents(old(graph), pid, status[pid]), start, end)) ==>
                line == status[pid]
      ensures !(pid in status && (start == end || !Taken(Contents(old(graph), pid, status[pid]), start, end))) ==>
                FirstFreeLine(old(graph), pid, line, start, end)
    {
      ghost var g := graph;
      var kept := StaysOnLane(status, pid, start, end);
      if kept {
        line := status[pid];
      } else {
        line := FindFree(pid, start, end);
        LineIsFirstFree(g, status, pid, start, end);
      }
      status' := status[pid := line];
    }

    /** Puts a span on a lane. */
    method Store(pid: int, line: int, start: int, end: int)
      requires Valid() && HasLane(graph, pid, line)
      modifies this`graph
      ensures Valid() && graph == Filled(old(graph), pid, line, Interval(start, end))
    {
      var r := InsertSpan(graph[pid][line - 1].intervals, start, end);
      FilledLane(graph, pid, line, Interval(start, end));
      graph := graph[pid := graph[pid][line - 1 := Lane(line, r)]];
    }

    /** Finds a lane for a span and puts it there.  Lanes whose intervals are apart stay so
        exactly unless a zero-length span is kept on a lane with a span around it. */
    method Place(status: map<int, int>, pid: int, start: int, end: int)
      returns (line: int, status': map<int, int>)
      requires Valid() && StatusOk(graph, status)
      modifies this
      ensures Valid() && status' == status[pid := line] && StatusOk(graph, status')
      ensures line == LineFor(old(graph), status, pid, start, end)
      ensures graph == Placed(old(graph), pid, line, Interval(start, end))
      ensures Clean(old(graph)) ==> (Clean(graph) <==> !Buried(old(graph), status, pid, start, end))
    {
      ghost var g := graph;
      line, status' := FindLine(status, pid, start, end);
      Store(pid, line, start, end);
      ChosenLane(g, status, pid, start, end);
      PlacedLane(g, pid, line, Interval(start, end));
      if Clean(g) {
        CleanStep(g, status, pid, start, end);
      }
    }

    /** The same for the log. */
    method PlaceNext(status: map<int, int>, span: Span, ghost log: seq<Placement>)
      returns (p: Placement, status': map<int, int>)
      requires Valid() && Sound(graph, log) && StatusOk(graph, status)
      modifies this
      ensures Valid() && Sound(graph, log + [p]) && StatusOk(graph, status') && SpanOf(p) == span
      ensures graph == Next(old(graph), status, span) && status' == NextStatus(old(graph), status, span)
      ensures NoClash(log + [p]) <==> NoClash(log) && !BuriedSpan(old(graph), status, span)
    {
      StepSound(graph, log, status, span);
      var line;
      line, status' := Place(status, span.pid, span.interval.start, span.interval.end);
      p := Placement(span.pid, line, span.interval);
    }

    /** Places one request's spans in order, starting without a lane on any process, and
        extends the log by them. */
    method PlaceRoot(spans: seq<Span>, before: seq<Placement>, ghost done: seq<Span>)
      returns (log: seq<Placement>)
      requires Valid() && Sound(graph, before) && Places(before, done)
      modifies this
      ensures Valid() && Sound(graph, log) && Places(log, done + spans)
      ensures graph == AfterRoot(old(graph), map[], spans, 0)
      ensures NoClash(log) <==> NoClash(before) && RootBuriesNone(old(graph), map[], spans, 0)
    {
      var status: map<int, int> := map[];
      log := before;
      for k := 0 to |spans|
        invariant Valid() && Sound(graph, log) && StatusOk(graph, status)
        invariant Places(log, Extended(done, spans, k))
        invariant AfterRoot(graph, status, spans, k) == AfterRoot(old(graph), map[], spans, 0)
        invariant NoClash(log) && RootBuriesNone(graph, status, spans, k) <==>
                  NoClash(before) && RootBuriesNone(old(graph), map[], spans, 0)
      {
        var p;
        p, status := PlaceNext(status, spans[k], log);
        OneMorePlaced(log, Extended(done, spans, k), p);
        log := log + [p];
      }
      ExtendedByAll(done, spans);
    }
  }

  /** The spans of all requests in placement order. */
  function Flatten(roots: seq<seq<Span>>): seq<Span> {
    if roots == [] then [] else Flatten(roots[..|roots| - 1]) + roots[|roots| - 1]
  }

  /** No zero-length span lies inside another span of its process. */
  ghost predicate NoInstantInside(spans: seq<Span>) {
    forall i, j :: 0 <= i < |spans| && 0 <= j < |spans| ==> !InstantInside(spans[i], spans[j])
  }

  predicate InstantInside(a: Span, b: Span) {
    a.pid == b.pid && b.interval.start == b.interval.end && Overlap(a.interval, b.interval)
  }

  lemma NoneInsideNoneBuried(log: seq<Placement>, spans: seq<Span>)
    requires Places(log, spans)
    ensures NoInstantInside(spans) ==> NoBuriedInstant(log)
  {
    forall i, j | NoInstantInside(spans) && 0 <= i < j < |log|
      ensures !Buries(log[i], log[j])
    {
      assert SpanOf(log[i]) == spans[i] && SpanOf(log[j]) == spans[j];
      assert !InstantInside(spans[i], spans[j]);
    }
  }

  lemma FlattenOneMore(roots: seq<seq<Span>>, r: nat)
    requires r < |roots|
    ensures Flatten(roots[..r + 1]) == Flatten(roots[..r]) + roots[r]
  {
    assert roots[..r + 1][..r] == roots[..r];
  }

  /** Lays out all requests, the gateway's spans as the last of them.  Every span is placed;
      spans on one lane of one process never overlap if and only if no zero-length span,
      when its turn comes, is kept on a lane with a span around it. */
  method LayOut(roots: seq<seq<Span>>) returns (log: seq<Placement>)
    ensures Places(log, Flatten(roots))
    ensures NoClash(log) <==> BuriesNone(map[], roots, 0)
    ensures NoClash(log) <==> NoBuriedInstant(log)
    ensures NoInstantInside(Flatten(roots)) ==> NoClash(log)
  {
    var layout := new Layout();
    log := [];
    for r := 0 to |roots|
      invariant layout.Valid() && Sound(layout.graph, log) && fresh(layout)
      invariant Places(log, Flatten(roots[..r]))
      invariant NoClash(log) && BuriesNone(layout.graph, roots, r) <==> BuriesNone(map[], roots, 0)
    {
      FlattenOneMore(roots, r);
      log := layout.PlaceRoot(roots[r], log, Flatten(roots[..r]));
    }
    assert roots[..|roots|] == roots;
    NoneInsideNoneBuried(log, Flatten(roots));
  }

  /** The check looks at the instant and misses the span around it. */
  lemma InstantHides(a: Interval, x: Interval, start: int, end: int)
    requires a.start < x.start < start && x.end <= start
    ensures Put([], a) == [a] && Put([a], x) == [a, x] && !Taken([a, x], start, end)
  {
    SplitIsRank([a], 1, x.start, Some(x.end));
    SplitIsRank([a, x], 2, start, None);
  }

  lemma OnLane(g: Graph, p: int, l: int, x: Interval, s: seq<Interval>)
    requires GraphOk(g) && NextOrOld(g, p, l) && Contents(g, p, l) == s
    ensures Contents(Placed(g, p, l, x), p, l) == Put(s, x)
  {
    PlacedLane(g, p, l, x);
  }

  /** One request's spans (0, 10), (5, 5) and (6, 8) on one process. */
  method PlaceAroundInstant(layout: Layout) returns (a: int, b: int, c: int)
    requires layout.Valid() && layout.graph == map[]
    modifies layout
    ensures a == b == c
  {
    var status: map<int, int>;
    InstantHides(Interval(0, 10), Interval(5, 5), 6, 8);
    a, status := layout.Place(map[], 0, 0, 10);
    OnLane(map[], 0, a, Interval(0, 10), []);
    ghost var g := layout.graph;
    assert KeepsLane(g, status, 0, 5, 5);
    b, status := layout.Place(status, 0, 5, 5);
    OnLane(g, 0, a, Interval(5, 5), [Interval(0, 10)]);
    assert KeepsLane(layout.graph, status, 0, 6, 8);
    c, status := layout.Place(status, 0, 6, 8);
  }

  /** An instant kept without looking hides its enclosing span from the next check: two
      overlapping spans end up on one lane. */
  method BuriedInstantHidesOverlap() returns (log: seq<Placement>)
    ensures Places(log, [Span(0, Interval(0, 10)), Span(0, Interval(5, 5)), Span(0, Interval(6, 8))])
    ensures Clash(log[0], log[2])
  {
    var layout := new Layout();
    var a, b, c := PlaceAroundInstant(layout);
    log := [Placement(0, a, Interval(0, 10)), Placement(0, b, Interval(5, 5)), Placement(0, c, Interval(6, 8))];
  }
}
