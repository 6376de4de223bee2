/** How a recorded run's time splits into tools and model (eval/run.go): the
    spans between a tool call and its result, their union, and the rest. Times
    are whole nanoseconds. */
module TimeSplit {
  datatype Interval = Interval(from: int, to: int)

  /** The instants in [from, to). */
  function Instants(from: int, to: int): (s: set<int>)
    ensures forall t :: t in s <==> from <= t < to
    ensures |s| == if from <= to then to - from else 0
    decreases if from < to then to - from else 0
  {
    if from >= to then {} else Instants(from, to - 1) + {to - 1}
  }

  /** The instants that some span covers: what unionLen measures. */
  function Covered(spans: seq<Interval>): set<int> {
    if spans == [] then {} else Covered(spans[..|spans| - 1]) + Instants(spans[|spans| - 1].from, spans[|spans| - 1].to)
  }

  predicate Holds(iv: Interval, t: int) {
    iv.from <= t < iv.to
  }

  lemma {:induction false} CoveredIs(spans: seq<Interval>, t: int)
    ensures t in Covered(spans) <==> exists iv | iv in spans :: Holds(iv, t)
  {
    if spans != [] {
      var init, last := spans[..|spans| - 1], spans[|spans| - 1];
      CoveredIs(init, t);
      assert spans == init + [last];
      assert t in Instants(last.from, last.to) <==> Holds(last, t);
    }
  }

  lemma {:induction false} SameSpansCoverTheSame(a: seq<Interval>, b: seq<Interval>)
    requires multiset(a) == multiset(b)
    ensures Covered(a) == Covered(b)
  {
    assert forall iv :: iv in a <==> iv in multiset(a);
    assert forall iv :: iv in b <==> iv in multiset(b);
    forall t ensures t in Covered(a) <==> t in Covered(b) {
      CoveredIs(a, t);
      CoveredIs(b, t);
    }
  }

  predicate Sorted(s: seq<Interval>) {
    forall i, j | 0 <= i < j < |s| :: s[i].from <= s[j].from
  }

  predicate Proper(s: seq<Interval>) {
    forall iv | iv in s :: iv.from <= iv.to
  }

  /** sort.Slice by start. */
  function SortByFrom(s: seq<Interval>): (r: seq<Interval>)
    ensures Sorted(r) && multiset(r) == multiset(s)
  {
    if s == [] then []
    else
      assert s == s[..|s| - 1] + [s[|s| - 1]];
      Insert(s[|s| - 1], SortByFrom(s[..|s| - 1]))
  }

  function Insert(x: Interval, s: seq<Interval>): (r: seq<Interval>)
    requires Sorted(s)
    ensures Sorted(r) && multiset(r) == multiset(s) + multiset{x}
  {
    if s == [] then [x]
    else
      var init, last := s[..|s| - 1], s[|s| - 1];
      assert s == init + [last];
      if last.from <= x.from then s + [x]
      else
        var r := Insert(x, init);
        SortedSnoc(r, init, x, last);
        r + [last]
  }

  lemma SortedSnoc(r: seq<Interval>, init: seq<Interval>, x: Interval, last: Interval)
    requires Sorted(r) && multiset(r) == multiset(init) + multiset{x}
    requires Sorted(init + [last]) && x.from <= last.from
    ensures Sorted(r + [last])
  {
    var s := init + [last];
    forall i | 0 <= i < |r| ensures r[i].from <= last.from {
      assert r[i] in multiset(r);
      if r[i] != x {
        assert r[i] in init;
        var j :| 0 <= j < |init| && init[j] == r[i];
        assert s[j].from <= s[|init|].from;
      }
    }
  }

  /** What merging has measured: closed is all that no later span can touch, and
      cur is still growing. */
  ghost predicate Merged(s: seq<Interval>, i: nat, closed: set<int>, cur: Interval)
    requires 0 < i <= |s|
  {
    && cur.from <= cur.to && cur.from <= s[i - 1].from
    && (forall t | t in closed :: t < cur.from)
    && Covered(s[..i]) == closed + Instants(cur.from, cur.to)
  }

  lemma MergeStep(s: seq<Interval>, i: nat, closed: set<int>, cur: Interval)
    requires 0 < i < |s| && Sorted(s) && Proper(s) && Merged(s, i, closed, cur)
    ensures s[i].from <= cur.to ==> Merged(s, i + 1, closed, Interval(cur.from, Max(cur.to, s[i].to)))
    ensures s[i].from > cur.to ==> Merged(s, i + 1, closed + Instants(cur.from, cur.to), s[i])
    ensures |closed + Instants(cur.from, cur.to)| == |closed| + (cur.to - cur.from)
  {
    hide Sorted, Proper, Instants, Covered;
    CoverStep(s, i);
    Disjoint(closed, cur);
    if s[i].from <= cur.to {
      Joined(cur, s[i]);
      Regroup(closed, Instants(cur.from, cur.to), Instants(s[i].from, s[i].to));
    }
  }

  lemma Regroup(a: set<int>, b: set<int>, c: set<int>)
    ensures a + b + c == a + (b + c)
  {}

  lemma Disjoint(closed: set<int>, cur: Interval)
    requires cur.from <= cur.to && forall t | t in closed :: t < cur.from
    ensures |closed + Instants(cur.from, cur.to)| == |closed| + (cur.to - cur.from)
  {
    assert closed !! Instants(cur.from, cur.to);
  }

  lemma CoverStep(s: seq<Interval>, i: nat)
    requires 0 < i < |s| && Sorted(s) && Proper(s)
    ensures Covered(s[..i + 1]) == Covered(s[..i]) + Instants(s[i].from, s[i].to)
    ensures s[i - 1].from <= s[i].from <= s[i].to
  {
    assert s[..i + 1][..i] == s[..i] && s[i] in s;
  }

  lemma Joined(a: Interval, b: Interval)
    requires a.from <= b.from <= a.to && b.from <= b.to
    ensures Instants(a.from, a.to) + Instants(b.from, b.to) == Instants(a.from, Max(a.to, b.to))
  {}

  function Max(a: int, b: int): int {
    if a >= b then a else b
  }

  /** unionLen: merge the sorted spans, adding up what no longer grows. */
  method UnionLen(spans: seq<Interval>) returns (total: int)
    requires Proper(spans)
    ensures total == |Covered(spans)|
  {
    hide Sorted, Merged;
    if |spans| == 0 { return 0; }
    var s := SortByFrom(spans);
    assert |s| == |multiset(s)| == |spans|;
    StartMerge(spans, s);
    var cur := s[0];
    total := 0;
    ghost var closed: set<int> := {};
    for i := 1 to |s|
      invariant total == |closed| && Merged(s, i, closed, cur)
    {
      MergeStep(s, i, closed, cur);
      if s[i].from <= cur.to {
        cur := Interval(cur.from, Max(cur.to, s[i].to));
        continue;
      }
      total := total + (cur.to - cur.from);
      closed := closed + Instants(cur.from, cur.to);
      cur := s[i];
    }
    EndMerge(s, closed, cur);
    total := total + cur.to - cur.from;
  }

  lemma {:induction false} StartMerge(spans: seq<Interval>, s: seq<Interval>)
    requires Proper(spans) && s != [] && Sorted(s) && multiset(s) == multiset(spans)
    ensures Proper(s) && Covered(s) == Covered(spans) && Merged(s, 1, {}, s[0])
  {
    SameSpansCoverTheSame(s, spans);
    forall iv | iv in s ensures iv.from <= iv.to { assert iv in multiset(spans); }
    assert s[0] in s && s[..1][..0] == [];
    assert Covered(s[..1]) == Covered([]) + Instants(s[0].from, s[0].to);
  }

  lemma {:induction false} EndMerge(s: seq<Interval>, closed: set<int>, cur: Interval)
    requires s != [] && Merged(s, |s|, closed, cur)
    ensures |Covered(s)| == |closed| + (cur.to - cur.from)
  {
    assert s[..|s|] == s;
    Disjoint(closed, cur);
  }

  datatype Metrics = Metrics(duration: int, toolTime: int, modelTime: int)

  /** The timing part of the run builder. */
  class Builder {
    const timed: bool
    var last: int
    var useAt: map<string, int>
    var spans: seq<Interval>

    constructor (timed: bool)
      ensures Valid() && this.timed == timed && last == 0 && spans == []
    {
      this.timed, last, useAt, spans := timed, 0, map[], [];
    }

    /** Every span lies between the start and the last event. */
    ghost predicate Valid()
      reads this
    {
      && last >= 0
      && (forall id | id in useAt :: id != "" && 0 <= useAt[id] <= last)
      && Proper(spans)
      && (forall iv | iv in spans :: 0 <= iv.from && iv.to <= last)
    }

    method Tick(off: int)
      requires Valid()
      modifies this`last
      ensures Valid() && last == if off > old(last) then off else old(last)
    {
      if off > last { last := off; }
    }

    /** A tool_use block: only its first appearance counts. */
    method AddUse(id: string, off: int)
      requires Valid() && off >= 0
      modifies this
      ensures Valid() && spans == old(spans) && last == if off > old(last) then off else old(last)
      ensures useAt == if id == "" || id in old(useAt) then old(useAt) else old(useAt)[id := off]
    {
      Tick(off);
      if id in useAt { return; }
      if id != "" { useAt := useAt[id := off]; }
    }

    /** A tool_result block. */
    method AddResult(id: string, off: int)
      requires Valid() && off >= 0
      modifies this
      ensures Valid() && useAt == old(useAt) && last == if off > old(last) then off else old(last)
      ensures spans == if id in useAt && off >= useAt[id] then old(spans) + [Interval(useAt[id], off)] else old(spans)
    {
      Tick(off);
      if id !in useAt { return; }
      if off >= useAt[id] {
        spans := spans + [Interval(useAt[id], off)];
      }
    }

    /** finish: in a timed run with a positive last offset the split is exact, so
        clamping the model's time at zero never does anything. */
    method Finish(durationMS: int) returns (m: Metrics)
      requires Valid()
      ensures timed && last > 0 ==>
        && m.duration == last
        && m.toolTime == |Covered(spans)|
        && m.toolTime + m.modelTime == m.duration
        && m.toolTime >= 0 && m.modelTime >= 0
      ensures !(timed && last > 0) ==> m == Metrics(durationMS * 1000000, 0, 0)
    {
      if timed && last > 0 {
        var tool := UnionLen(spans);
        CoveredWithin(spans, last);
        m := Metrics(last, tool, if last - tool >= 0 then last - tool else 0);
      } else {
        m := Metrics(durationMS * 1000000, 0, 0);
      }
    }
  }

  lemma {:induction false} CoveredWithin(spans: seq<Interval>, last: int)
    requires last >= 0 && forall iv | iv in spans :: 0 <= iv.from && iv.to <= last
    ensures |Covered(spans)| <= last
  {
    forall t | t in Covered(spans) ensures t in Instants(0, last) { CoveredIs(spans, t); }
    assert Instants(0, last) == Covered(spans) + (Instants(0, last) - Covered(spans));
  }
}
