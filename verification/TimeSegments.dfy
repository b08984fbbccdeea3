/** How the runner cuts its time range before it fetches and replays it segment by segment. */
module TimeSegments {
  import opened Core

  datatype Span = Span(from: int, to: int)

  predicate Covers(s: Span, t: int) { s.from <= t < s.to }

  /** Neighbours share an edge and every span is a step long at most. */
  ghost predicate Chained(spans: seq<Span>, start: int, end: int, step: nat)
  {
    && (forall i :: 0 <= i < |spans| ==> spans[i].from < spans[i].to <= spans[i].from + step)
    && (forall i :: 0 < i < |spans| ==> spans[i].from == spans[i - 1].to)
    && (if spans == [] then start == end else spans[0].from == start && spans[|spans| - 1].to == end)
  }

  lemma ChainStarts(start: int, step: nat)
    ensures Chained([], start, start, step)
  {
  }

  lemma ChainGrows(spans: seq<Span>, start: int, end: int, next: int, step: nat)
    requires Chained(spans, start, end, step) && end < next <= end + step
    ensures Chained(spans + [Span(end, next)], start, next, step)
  {
  }

  /** An empty range is kept as one span; any other is cut into full steps and a rest. */
  method MarketDataSegments(start: int, end: int, step: nat) returns (spans: seq<Span>)
    requires 0 < step
    ensures end <= start ==> spans == [Span(start, end)]
    ensures start < end ==> spans != [] && Chained(spans, start, end, step)
    ensures forall i :: 0 <= i < |spans| - 1 ==> spans[i].to == spans[i].from + step
  {
    if end <= start {
      return [Span(start, end)];
    }
    hide Chained;
    spans := [];
    assert Chained(spans, start, start, step) by { ChainStarts(start, step); }
    var segmentStart := start;
    while segmentStart < end
      invariant segmentStart <= end && Chained(spans, start, segmentStart, step)
      invariant forall i :: 0 <= i < |spans| ==> spans[i].to == spans[i].from + step || spans[i].to == end
      invariant forall i :: 0 <= i < |spans| - 1 ==> spans[i].to == spans[i].from + step
      decreases end - segmentStart
    {
      var segmentEnd := MinInt(end, segmentStart + step);
      ChainGrows(spans, start, segmentStart, segmentEnd, step);
      spans := spans + [Span(segmentStart, segmentEnd)];
      segmentStart := segmentEnd;
    }
  }

  lemma {:induction false} EdgesRise(spans: seq<Span>, start: int, end: int, step: nat, i: nat, j: nat)
    requires Chained(spans, start, end, step) && i < j < |spans|
    ensures spans[i].to <= spans[j].from
    decreases j
  {
    if i < j - 1 { EdgesRise(spans, start, end, step, i, j - 1); }
  }

  /** Every moment of the range falls into exactly one span. */
  lemma {:induction false} EveryMomentOnce(spans: seq<Span>, start: int, end: int, step: nat, t: int)
    requires Chained(spans, start, end, step) && start <= t < end
    ensures exists i :: 0 <= i < |spans| && Covers(spans[i], t)
    ensures forall i, j :: 0 <= i < j < |spans| ==> !(Covers(spans[i], t) && Covers(spans[j], t))
  {
    var n := |spans| - 1;
    if spans[n].from <= t {
      assert Covers(spans[n], t);
    } else {
      var front := spans[..n];
      EveryMomentOnce(front, start, spans[n].from, step, t);
      var i :| 0 <= i < |front| && Covers(front[i], t);
      assert Covers(spans[i], t);
    }
    forall i, j | 0 <= i < j < |spans|
      ensures !(Covers(spans[i], t) && Covers(spans[j], t))
    {
      EdgesRise(spans, start, end, step, i, j);
    }
  }
}
