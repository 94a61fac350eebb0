/** The timed track of one leg of a journey: the vertices of its roads, each with the minute at which a
    traveller at constant speed passes it. A road may be travelled against the direction it is drawn in,
    and a vertex that ends one road and begins the next is one point of the track. Evidence that names an
    unknown road, or a road without length, is refused. */
module LegTrack {
  import opened Results
  import opened Orders

  datatype Point = Point(longitude: real, latitude: real)

  datatype Traversal = Traversal(roadId: string, sequence: int, start: real, end: real, backward: bool)

  datatype Stop = Stop(minute: real, at: Point)

  datatype TrackError = UnknownRoad | Inconsistent

  type Distance = (Point, Point) -> real

  predicate SequenceLeq(a: Traversal, b: Traversal) { a.sequence <= b.sequence }

  function Reversed(points: seq<Point>): (r: seq<Point>)
    ensures |r| == |points| && forall i :: 0 <= i < |r| ==> r[i] == points[|points| - 1 - i]
  {
    seq(|points|, i requires 0 <= i < |points| => points[|points| - 1 - i])
  }

  /** The road's vertices in the direction of travel. */
  function Course(t: Traversal, geometry: map<string, seq<Point>>): seq<Point>
    requires t.roadId in geometry
  {
    if t.backward then Reversed(geometry[t.roadId]) else geometry[t.roadId]
  }

  /** The distance from the first vertex to vertex `i` along the road. */
  function Travelled(points: seq<Point>, d: Distance, i: nat): real
    requires i < |points|
  {
    if i == 0 then 0.0 else Travelled(points, d, i - 1) + d(points[i - 1], points[i])
  }

  function Total(points: seq<Point>, d: Distance): real {
    if points == [] then 0.0 else Travelled(points, d, |points| - 1)
  }

  /** The minute after `travelled` of the road's `total` distance, at constant speed. */
  function MinuteAfter(t: Traversal, travelled: real, total: real): real
    requires total != 0.0
  {
    t.start + (t.end - t.start) * travelled / total
  }

  function MinuteAt(t: Traversal, points: seq<Point>, d: Distance, i: nat): real
    requires i < |points| && Total(points, d) != 0.0
  {
    if i == |points| - 1 then t.end
    else MinuteAfter(t, Travelled(points, d, i), Total(points, d))
  }

  function RoadStops(t: Traversal, points: seq<Point>, d: Distance): (stops: seq<Stop>)
    requires Total(points, d) != 0.0
    ensures |stops| == |points|
  {
    seq(|points|, i requires 0 <= i < |points| => Stop(MinuteAt(t, points, d, i), points[i]))
  }

  /** A road whose first vertex is the last point so far continues from it. */
  predicate Joins(track: seq<Stop>, stops: seq<Stop>) {
    track != [] && stops != [] && track[|track| - 1].at == stops[0].at
  }

  function Extended(track: seq<Stop>, stops: seq<Stop>): seq<Stop> {
    if Joins(track, stops) then track + stops[1..] else track + stops
  }

  function TrackOf(traversals: seq<Traversal>, geometry: map<string, seq<Point>>,
                   d: Distance): Result<seq<Stop>, TrackError>
  {
    if traversals == [] then Success([])
    else
      var track :- TrackOf(traversals[..|traversals| - 1], geometry, d);
      var t := traversals[|traversals| - 1];
      if t.roadId !in geometry then Failure(UnknownRoad)
      else if Total(Course(t, geometry), d) <= 0.0 then Failure(Inconsistent)
      else Success(Extended(track, RoadStops(t, Course(t, geometry), d)))
  }

  function Track(traversals: seq<Traversal>, geometry: map<string, seq<Point>>,
                 d: Distance): Result<seq<Stop>, TrackError>
  {
    var track :- TrackOf(SortBy(traversals, SequenceLeq), geometry, d);
    if |track| < 2 then Failure(Inconsistent) else Success(track)
  }

  // --- The loops ---

  /** The track with the first `i` stops of a road. */
  function Built(track: seq<Stop>, stops: seq<Stop>, i: nat): seq<Stop>
    requires i <= |stops|
  {
    if i == 0 then track else if Joins(track, stops) then track + stops[1..i] else track + stops[..i]
  }

  lemma BuiltStep(track: seq<Stop>, stops: seq<Stop>, i: nat)
    requires i < |stops|
    ensures Built(track, stops, i + 1) ==
            Built(track, stops, i) + if i == 0 && Joins(track, stops) then [] else [stops[i]]
  {
    hide Joins;
    assert stops[..i + 1] == stops[..i] + [stops[i]];
    if i > 0 {
      assert stops[1..i + 1] == stops[1..i] + [stops[i]];
      assert track + (stops[1..i] + [stops[i]]) == track + stops[1..i] + [stops[i]];
    }
    assert track + (stops[..i] + [stops[i]]) == track + stops[..i] + [stops[i]];
  }

  lemma BuiltAll(track: seq<Stop>, stops: seq<Stop>)
    requires stops != []
    ensures Built(track, stops, |stops|) == Extended(track, stops)
  {
    assert stops[..|stops|] == stops;
  }

  method AppendRoad(track: seq<Stop>, t: Traversal, points: seq<Point>, d: Distance)
      returns (r: Result<seq<Stop>, TrackError>)
    ensures r == if Total(points, d) <= 0.0 then Failure(Inconsistent)
                 else Success(Extended(track, RoadStops(t, points, d)))
  {
    var total := 0.0;
    var k := 1;
    while k < |points|
      invariant 1 <= k && (points != [] ==> k <= |points| && total == Travelled(points, d, k - 1))
      invariant points == [] ==> total == 0.0
    {
      total := total + d(points[k - 1], points[k]);
      k := k + 1;
    }
    if total <= 0.0 {
      return Failure(Inconsistent);
    }
    ghost var stops := RoadStops(t, points, d);
    var travelled := 0.0;
    var extended := track;
    for i := 0 to |points|
      invariant if i == 0 then travelled == 0.0 else travelled == Travelled(points, d, i - 1)
      invariant extended == Built(track, stops, i)
    {
      BuiltStep(track, stops, i);
      if i > 0 {
        travelled := travelled + d(points[i - 1], points[i]);
      }
      var minute := if i == |points| - 1 then t.end else MinuteAfter(t, travelled, total);
      assert stops[i] == Stop(minute, points[i]);
      if i == 0 && extended != [] && extended[|extended| - 1].at == points[0] {
        // The joint vertex is already the last point of the track.
      } else {
        extended := extended + [Stop(minute, points[i])];
      }
    }
    BuiltAll(track, stops);
    r := Success(extended);
  }

  lemma {:induction false} TrackFailureStays(traversals: seq<Traversal>, geometry: map<string, seq<Point>>,
                                             d: Distance, k: nat)
    requires k <= |traversals| && TrackOf(traversals[..k], geometry, d).Failure?
    ensures TrackOf(traversals, geometry, d) == TrackOf(traversals[..k], geometry, d)
  {
    if k < |traversals| {
      var front := traversals[..|traversals| - 1];
      assert front[..k] == traversals[..k];
      TrackFailureStays(front, geometry, d, k);
    } else {
      assert traversals[..k] == traversals;
    }
  }

  method RawLegTrack(traversals: seq<Traversal>, geometry: map<string, seq<Point>>, d: Distance)
    returns (r: Result<seq<Stop>, TrackError>)
    ensures r == Track(traversals, geometry, d)
  {
    hide RoadStops, Extended, Total, SortBy;
    var ordered := SortBy(traversals, SequenceLeq);
    var track: seq<Stop> := [];
    for k := 0 to |ordered|
      invariant TrackOf(ordered[..k], geometry, d) == Success(track)
    {
      assert ordered[..k + 1][..k] == ordered[..k];
      var t := ordered[k];
      if t.roadId !in geometry {
        TrackFailureStays(ordered, geometry, d, k + 1);
        return Failure(UnknownRoad);
      }
      var next := AppendRoad(track, t, Course(t, geometry), d);
      if next.Failure? {
        TrackFailureStays(ordered, geometry, d, k + 1);
        return Failure(next.error);
      }
      track := next.value;
    }
    assert ordered[..|ordered|] == ordered;
    r := if |track| < 2 then Failure(Inconsistent) else Success(track);
  }

  // --- What a track guarantees ---

  ghost predicate NonNegative(d: Distance) {
    forall p, q :: d(p, q) >= 0.0
  }

  /** Each traversal takes no negative time and starts when the one before it ends. */
  ghost predicate Contiguous(traversals: seq<Traversal>) {
    && (forall i :: 0 <= i < |traversals| ==> traversals[i].start <= traversals[i].end)
    && (forall i :: 0 < i < |traversals| ==> traversals[i].start == traversals[i - 1].end)
  }

  ghost predicate Timed(track: seq<Stop>, start: real, end: real) {
    && track != [] && track[0].minute == start && track[|track| - 1].minute == end
    && forall i, j :: 0 <= i <= j < |track| ==> track[i].minute <= track[j].minute
  }

  lemma {:induction false} TravelledGrows(points: seq<Point>, d: Distance, i: nat, j: nat)
    requires NonNegative(d) && i <= j < |points|
    ensures 0.0 <= Travelled(points, d, i) <= Travelled(points, d, j)
    decreases j
  {
    if i < j {
      TravelledGrows(points, d, i, j - 1);
      assert d(points[j - 1], points[j]) >= 0.0;
    } else if i > 0 {
      TravelledGrows(points, d, i - 1, i - 1);
      assert d(points[i - 1], points[i]) >= 0.0;
    }
  }

  lemma Proportion(duration: real, a: real, b: real, total: real)
    requires duration >= 0.0 && 0.0 <= a <= b <= total && total > 0.0
    ensures 0.0 <= duration * a / total <= duration * b / total <= duration
  {
    ProductOrder(duration, 0.0, a);
    ProductOrder(duration, a, b);
    ProductOrder(duration, b, total);
    QuotientOrder(0.0, duration * a, total);
    QuotientOrder(duration * a, duration * b, total);
    QuotientOrder(duration * b, duration * total, total);
    QuotientUndoes(duration, total);
  }

  lemma ProductOrder(x: real, a: real, b: real)
    requires x >= 0.0 && a <= b
    ensures x * a <= x * b
  {}

  lemma QuotientUndoes(x: real, t: real)
    requires t != 0.0
    ensures x * t / t == x
  {}

  lemma QuotientOrder(x: real, y: real, t: real)
    requires x <= y && t > 0.0
    ensures x / t <= y / t
  {}

  /** The last vertex's minute is given directly, and agrees with the formula for the others. */
  lemma MinuteFormula(t: Traversal, points: seq<Point>, d: Distance, i: nat)
    requires Total(points, d) > 0.0 && i < |points|
    ensures MinuteAt(t, points, d, i) == MinuteAfter(t, Travelled(points, d, i), Total(points, d))
    ensures i == 0 ==> MinuteAt(t, points, d, i) == t.start
    ensures i == |points| - 1 ==> MinuteAt(t, points, d, i) == t.end
  {
    QuotientUndoes(t.end - t.start, Total(points, d));
    if i == 0 {
      ZeroShare(t.end - t.start, Total(points, d));
    }
  }

  lemma ZeroShare(x: real, t: real)
    requires t != 0.0
    ensures x * 0.0 / t == 0.0
  {}

  /** One road's stops run from its start to its end, and never back in time. */
  lemma RoadTimed(t: Traversal, points: seq<Point>, d: Distance)
    requires NonNegative(d) && t.start <= t.end && Total(points, d) > 0.0
    ensures |points| >= 2 && Timed(RoadStops(t, points, d), t.start, t.end)
  {
    hide MinuteAt;
    MinuteFormula(t, points, d, 0);
    MinuteFormula(t, points, d, |points| - 1);
    var stops := RoadStops(t, points, d);
    forall i, j | 0 <= i <= j < |points| ensures stops[i].minute <= stops[j].minute {
      MinutesOrdered(t, points, d, i, j);
    }
  }

  lemma MinutesInProportion(t: Traversal, a: real, b: real, total: real)
    requires t.start <= t.end && 0.0 <= a <= b <= total && total > 0.0
    ensures MinuteAfter(t, a, total) <= MinuteAfter(t, b, total)
  {
    Proportion(t.end - t.start, a, b, total);
  }

  lemma MinutesOrdered(t: Traversal, points: seq<Point>, d: Distance, i: nat, j: nat)
    requires NonNegative(d) && t.start <= t.end && Total(points, d) > 0.0 && i <= j < |points|
    ensures MinuteAt(t, points, d, i) <= MinuteAt(t, points, d, j)
  {
    hide MinuteAt, NonNegative, Travelled, MinuteAfter;
    MinuteFormula(t, points, d, i);
    MinuteFormula(t, points, d, j);
    TravelledGrows(points, d, i, j);
    TravelledGrows(points, d, j, |points| - 1);
    MinutesInProportion(t, Travelled(points, d, i), Travelled(points, d, j), Total(points, d));
  }

  /** Between its ends a road is passed at constant speed: a vertex's share of the time is its share of the
      distance. */
  lemma VertexTimeProportional(t: Traversal, points: seq<Point>, d: Distance, i: nat)
    requires Total(points, d) > 0.0 && i < |points|
    ensures (RoadStops(t, points, d)[i].minute - t.start) * Total(points, d) ==
              (t.end - t.start) * Travelled(points, d, i)
  {
    var x, total := (t.end - t.start) * Travelled(points, d, i), Total(points, d);
    MinuteFormula(t, points, d, i);
    hide Travelled, Total, MinuteAt;
    assert x / total * total == x;
  }

  lemma ExtendedTimed(track: seq<Stop>, stops: seq<Stop>, start: real, middle: real, end: real)
    requires Timed(track, start, middle) && Timed(stops, middle, end) && |stops| >= 2
    ensures Timed(Extended(track, stops), start, end)
  {
    var extended := Extended(track, stops);
    var skip := if Joins(track, stops) then 1 else 0;
    assert extended == track + stops[skip..];
    forall i, j | 0 <= i <= j < |extended| ensures extended[i].minute <= extended[j].minute {
      var n := |track|;
      if i < n && j >= n {
        assert track[i].minute <= track[n - 1].minute == stops[0].minute <= stops[j - n + skip].minute;
      }
    }
  }

  /** For contiguous traversals the track starts with the first start, ends with the last end, and never
      goes back in time. */
  lemma {:induction false} TrackTimed(traversals: seq<Traversal>, geometry: map<string, seq<Point>>, d: Distance)
    requires NonNegative(d) && Contiguous(traversals) && traversals != [] && TrackOf(traversals, geometry, d).Success?
    ensures Timed(TrackOf(traversals, geometry, d).value, traversals[0].start, traversals[|traversals| - 1].end)
  {
    hide Timed, Extended, RoadStops, NonNegative, Total;
    var last := |traversals| - 1;
    var t, front := traversals[last], traversals[..last];
    RoadTimed(t, Course(t, geometry), d);
    var stops := RoadStops(t, Course(t, geometry), d);
    if front == [] {
      FirstRoad(stops);
    } else {
      assert Contiguous(front);
      TrackTimed(front, geometry, d);
      StopsCount(t, Course(t, geometry), d);
      ExtendedTimed(TrackOf(front, geometry, d).value, stops, traversals[0].start, t.start, t.end);
    }
  }

  lemma StopsCount(t: Traversal, points: seq<Point>, d: Distance)
    requires Total(points, d) > 0.0
    ensures |RoadStops(t, points, d)| == |points| >= 2
  {}

  lemma FirstRoad(stops: seq<Stop>)
    ensures Extended([], stops) == stops
  {}

  // --- Joints ---

  function At(track: seq<Stop>): (points: seq<Point>)
    ensures |points| == |track|
  {
    seq(|track|, i requires 0 <= i < |track| => track[i].at)
  }

  /** Every road starts where the one before it ends. */
  ghost predicate Joined(traversals: seq<Traversal>, geometry: map<string, seq<Point>>) {
    && (forall t <- traversals :: t.roadId in geometry && |geometry[t.roadId]| >= 2)
    && (forall i :: 0 < i < |traversals| ==>
          var before, after := Course(traversals[i - 1], geometry), Course(traversals[i], geometry);
          before[|before| - 1] == after[0])
  }

  /** The line along all the roads, each joint once. */
  function Line(traversals: seq<Traversal>, geometry: map<string, seq<Point>>): (line: seq<Point>)
    requires forall t <- traversals :: t.roadId in geometry && |geometry[t.roadId]| >= 2
    ensures traversals != [] ==> line != []
  {
    if traversals == [] then []
    else
      var last := |traversals| - 1;
      assert forall t <- traversals[..last] :: t in traversals;
      var course := Course(traversals[last], geometry);
      if last == 0 then course else Line(traversals[..last], geometry) + course[1..]
  }

  /** On joined roads the track follows the line: every shared joint appears exactly once. */
  lemma {:induction false} JointsAppearOnce(traversals: seq<Traversal>, geometry: map<string, seq<Point>>, d: Distance)
    requires Joined(traversals, geometry) && traversals != [] && TrackOf(traversals, geometry, d).Success?
    ensures At(TrackOf(traversals, geometry, d).value) == Line(traversals, geometry)
    ensures var course := Course(traversals[|traversals| - 1], geometry);
            Line(traversals, geometry)[|Line(traversals, geometry)| - 1] == course[|course| - 1]
  {
    hide RoadStops, Extended, Course, At, Total;
    var last := |traversals| - 1;
    var t, front := traversals[last], traversals[..last];
    var course := Course(t, geometry);
    var stops := RoadStops(t, course, d);
    assert t in traversals;
    CourseLength(t, geometry);
    RoadPoints(t, course, d);
    if front == [] {
      FirstRoad(stops);
    } else {
      assert forall s <- front :: s in traversals;
      assert Joined(front, geometry);
      JointsAppearOnce(front, geometry, d);
      var track := TrackOf(front, geometry, d).value;
      assert front[|front| - 1] == traversals[last - 1];
      CourseLength(traversals[last - 1], geometry);
      assert |At(track)| == |track| && At(track) == Line(front, geometry) != [];
      assert Course(traversals[last - 1], geometry)[|Course(traversals[last - 1], geometry)| - 1] == course[0];
      JoinOnce(track, stops);
    }
  }

  lemma CourseLength(t: Traversal, geometry: map<string, seq<Point>>)
    requires t.roadId in geometry
    ensures |Course(t, geometry)| == |geometry[t.roadId]|
  {}

  lemma RoadPoints(t: Traversal, points: seq<Point>, d: Distance)
    requires Total(points, d) != 0.0
    ensures At(RoadStops(t, points, d)) == points
  {}

  lemma JoinOnce(track: seq<Stop>, stops: seq<Stop>)
    requires track != [] && stops != [] && At(track)[|track| - 1] == At(stops)[0]
    ensures At(Extended(track, stops)) == At(track) + At(stops)[1..]
  {}

  // --- For the unsorted input ---

  lemma SequenceOrder()
    ensures Preorder(SequenceLeq)
  {}

  // --- Where a track begins and ends ---

  /** The vertex at which a traveller enters the road, and the one at which the road is left. */
  function Entered(t: Traversal, road: seq<Point>): Point
    requires road != []
  {
    if t.backward then road[|road| - 1] else road[0]
  }

  function Left(t: Traversal, road: seq<Point>): Point
    requires road != []
  {
    if t.backward then road[0] else road[|road| - 1]
  }

  lemma CourseEnds(t: Traversal, geometry: map<string, seq<Point>>, d: Distance)
    requires t.roadId in geometry && Total(Course(t, geometry), d) > 0.0
    ensures var course, road := Course(t, geometry), geometry[t.roadId];
            |course| == |road| >= 2 && course[0] == Entered(t, road) && course[|course| - 1] == Left(t, road)
  {}

  lemma ExtendedEnds(track: seq<Stop>, stops: seq<Stop>)
    requires |stops| >= 2
    ensures var extended := Extended(track, stops);
            && extended != [] && extended[|extended| - 1] == stops[|stops| - 1]
            && extended[0] == if track == [] then stops[0] else track[0]
  {}

  /** A track begins where its first road is entered and ends where its last one is left. */
  lemma {:induction false} TrackEnds(traversals: seq<Traversal>, geometry: map<string, seq<Point>>, d: Distance)
    requires traversals != [] && TrackOf(traversals, geometry, d).Success?
    ensures var track, first, last := TrackOf(traversals, geometry, d).value, traversals[0],
                                      traversals[|traversals| - 1];
            && track != [] && first.roadId in geometry && geometry[first.roadId] != []
            && last.roadId in geometry && geometry[last.roadId] != []
            && track[0].at == Entered(first, geometry[first.roadId])
            && track[|track| - 1].at == Left(last, geometry[last.roadId])
  {
    hide Extended, RoadStops, Course, Total;
    var last := |traversals| - 1;
    var t, front := traversals[last], traversals[..last];
    var stops := RoadStops(t, Course(t, geometry), d);
    CourseEnds(t, geometry, d);
    RoadPoints(t, Course(t, geometry), d);
    assert At(stops)[0] == stops[0].at && At(stops)[|stops| - 1] == stops[|stops| - 1].at;
    ExtendedEnds(TrackOf(front, geometry, d).value, stops);
    if front != [] {
      TrackEnds(front, geometry, d);
    }
  }

  /** The published result, whatever order the traversals are supplied in. */
  lemma LegTrackTimed(traversals: seq<Traversal>, geometry: map<string, seq<Point>>, d: Distance)
      returns (ordered: seq<Traversal>)
    requires NonNegative(d) && Track(traversals, geometry, d).Success?
    ensures multiset(ordered) == multiset(traversals) && ordered != []
    ensures forall i, j :: 0 <= i < j < |ordered| ==> ordered[i].sequence <= ordered[j].sequence
    ensures forall t :: Tied(ordered, t, SequenceLeq) == Tied(traversals, t, SequenceLeq)
    ensures var track, first, last := Track(traversals, geometry, d).value, ordered[0], ordered[|ordered| - 1];
            && |track| >= 2 && first.roadId in geometry && geometry[first.roadId] != []
            && last.roadId in geometry && geometry[last.roadId] != []
            && track[0].at == Entered(first, geometry[first.roadId])
            && track[|track| - 1].at == Left(last, geometry[last.roadId])
            && (Contiguous(ordered) ==> Timed(track, first.start, last.end))
  {
    hide SortBy, Timed, NonNegative, Contiguous, Tied, TrackOf;
    SequenceOrder();
    ordered := SortBy(traversals, SequenceLeq);
    SortBySorts(traversals, SequenceLeq);
    assert forall i, j :: 0 <= i < j < |ordered| ==> SequenceLeq(ordered[i], ordered[j]);
    forall t {
      SortByIsStable(traversals, t, SequenceLeq);
    }
    NoRoads(geometry, d);
    TrackEnds(ordered, geometry, d);
    if Contiguous(ordered) {
      TrackTimed(ordered, geometry, d);
    }
  }

  lemma NoRoads(geometry: map<string, seq<Point>>, d: Distance)
    ensures TrackOf([], geometry, d) == Success([])
  {}
}
