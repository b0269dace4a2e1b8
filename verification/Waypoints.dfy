/** Breaking up long movements (bot/src/bot.cpp, 771-802), on an absolute plane with exact numbers. */
module Waypoints {
  datatype Point = Point(x: real, z: real)

  function Abs(r: real): real { if r < 0.0 then -r else r }
  function Max(a: real, b: real): real { if a > b then a else b }

  /** The offset of a segment on its larger axis. */
  function Reach(a: Point, b: Point): (r: real)
    ensures r >= 0.0 && Abs(b.x - a.x) <= r && Abs(b.z - a.z) <= r
  {
    Max(Abs(b.x - a.x), Abs(b.z - a.z))
  }

  /** tooFar: 1920 is both the width and the height of a region. */
  predicate TooFar(a: Point, b: Point)
  {
    Abs(b.x - a.x) > 1920.0 || Abs(b.z - a.z) > 1920.0
  }

  /** splitWaypoints: the point 1920 away from `b` towards `a`, on the larger axis. */
  function Split(a: Point, b: Point): Point
    requires TooFar(a, b)
  {
    var dx, dz := b.x - a.x, b.z - a.z;
    if Abs(dx) > Abs(dz) then
      var ratio := 1920.0 / Abs(dx);
      Point(b.x - (if dx > 0.0 then 1920.0 else -1920.0), b.z - dz * ratio)
    else
      var ratio := 1920.0 / Abs(dz);
      Point(b.x - dx * ratio, b.z - (if dz > 0.0 then 1920.0 else -1920.0))
  }

  /** The point at the part `t` of the way from `a` to `b`. */
  function Along(a: Point, b: Point, t: real): Point
  {
    Point(a.x + t * (b.x - a.x), a.z + t * (b.z - a.z))
  }

  // ---------------------------------------------------------------- one split

  /** The part of the segment that a step of 1920 on the larger axis `d` covers. */
  function Part(d: real): real
    requires Abs(d) > 1920.0
  {
    1920.0 / Abs(d)
  }

  function Step(d: real): real { if d > 0.0 then 1920.0 else -1920.0 }

  lemma PartIs(d: real)
    requires Abs(d) > 1920.0
    ensures 0.0 < Part(d) < 1.0 && Part(d) * Abs(d) == 1920.0 && Part(d) * d == Step(d) && Abs(Step(d)) == 1920.0
  {
  }

  lemma SplitIs(a: Point, b: Point)
    requires TooFar(a, b)
    ensures Abs(b.x - a.x) > Abs(b.z - a.z) ==>
              && Abs(b.x - a.x) > 1920.0
              && Split(a, b) == Point(b.x - Step(b.x - a.x), b.z - (b.z - a.z) * Part(b.x - a.x))
              && Reach(a, b) == Abs(b.x - a.x)
    ensures Abs(b.x - a.x) <= Abs(b.z - a.z) ==>
              && Abs(b.z - a.z) > 1920.0
              && Split(a, b) == Point(b.x - (b.x - a.x) * Part(b.z - a.z), b.z - Step(b.z - a.z))
              && Reach(a, b) == Abs(b.z - a.z)
  {
  }

  /** The new point is on the segment, and the rest of it is shorter by 1920 on the larger axis. */
  lemma SplitAlong(a: Point, b: Point) returns (t: real)
    requires TooFar(a, b)
    ensures 0.0 < t < 1.0 && Split(a, b) == Along(a, b, t) && t * Reach(a, b) == Reach(a, b) - 1920.0
  {
    hide Split, TooFar, Reach, Part, Step, Abs;
    SplitIs(a, b);
    var d := if Abs(b.x - a.x) > Abs(b.z - a.z) then b.x - a.x else b.z - a.z;
    PartIs(d);
    t := 1.0 - Part(d);
    PartLeft(Abs(d), Part(d));
    Rest(a.x, b.x, Part(d));
    Rest(a.z, b.z, Part(d));
  }

  lemma PartLeft(d: real, r: real)
    ensures (1.0 - r) * d == d - r * d
  {
  }

  lemma Rest(a: real, b: real, r: real)
    ensures b - (b - a) * r == a + (1.0 - r) * (b - a)
    ensures a + (1.0 - r) * (b - a) == b - r * (b - a)
  {
  }

  lemma AlongReach(a: Point, b: Point, t: real)
    requires 0.0 <= t
    ensures Reach(a, Along(a, b, t)) == t * Reach(a, b)
  {
    hide Reach, Abs, Max;
    var dx, dz := b.x - a.x, b.z - a.z;
    var p := Along(a, b, t);
    var u, v := p.x - a.x, p.z - a.z;
    AbsScale(t, dx, u);
    AbsScale(t, dz, v);
    ReachOf(a, b, dx, dz);
    ReachOf(a, p, u, v);
    MaxScale(t, Abs(dx), Abs(dz), Reach(a, b), Abs(u), Abs(v));
  }

  lemma ReachOf(a: Point, p: Point, dx: real, dz: real)
    requires p.x == a.x + dx && p.z == a.z + dz
    ensures Reach(a, p) == Max(Abs(dx), Abs(dz))
  {
    assert p.x - a.x == dx && p.z - a.z == dz;
  }

  lemma AbsScale(t: real, d: real, u: real)
    requires 0.0 <= t && u == t * d
    ensures Abs(u) == t * Abs(d)
  {
    if d >= 0.0 {
      assert t * d >= 0.0;
    } else {
      assert t * -d >= 0.0;
    }
  }

  lemma MaxScale(t: real, x: real, y: real, m: real, tx: real, ty: real)
    requires 0.0 <= t && m == Max(x, y) && tx == t * x && ty == t * y
    ensures Max(tx, ty) == t * m
  {
    if x > y {
      Smaller(t, y, x);
    } else {
      Smaller(t, x, y);
    }
  }

  /** Both axes come 1920 closer on the larger one. */
  lemma SplitShortens(a: Point, b: Point)
    requires TooFar(a, b)
    ensures Reach(a, Split(a, b)) == Reach(a, b) - 1920.0
    ensures Reach(a, Split(a, b)) >= 0.0 && Reach(a, Split(a, b)).Floor < Reach(a, b).Floor
  {
    hide Split, TooFar, Reach, Along;
    var t := SplitAlong(a, b);
    AlongReach(a, b, t);
    FloorLess(Reach(a, b), Reach(a, Split(a, b)));
  }

  lemma FloorLess(r: real, s: real)
    requires s == r - 1920.0
    ensures s.Floor < r.Floor
  {
    assert (r - 1920.0).Floor == r.Floor - 1920;
  }

  /** The new point is within reach of `b`. */
  lemma SplitNear(a: Point, b: Point)
    requires TooFar(a, b)
    ensures !TooFar(Split(a, b), b)
  {
    hide Split, Reach, Part, Step, Abs;
    var dx, dz, p := b.x - a.x, b.z - a.z, Split(a, b);
    SplitIs(a, b);
    if Abs(dx) > Abs(dz) {
      PartIs(dx);
      OtherAxis(dz, dx, Part(dx), b.z - p.z);
    } else {
      PartIs(dz);
      OtherAxis(dx, dz, Part(dz), b.x - p.x);
    }
  }

  lemma OtherAxis(e: real, d: real, r: real, u: real)
    requires 0.0 < r && r * Abs(d) == 1920.0 && Abs(e) <= Abs(d) && u == e * r
    ensures Abs(u) <= 1920.0
  {
    AbsScale(r, e, u);
    Smaller(r, Abs(e), Abs(d));
  }

  lemma Smaller(r: real, x: real, y: real)
    requires 0.0 <= r && x <= y
    ensures r * x <= r * y
  {
    NotNegative(r, y - x);
    assert r * (y - x) == r * y - r * x;
  }

  lemma NotNegative(r: real, d: real)
    requires 0.0 <= r && 0.0 <= d
    ensures 0.0 <= r * d
  {
  }

  // ---------------------------------------------------------------- one segment

  /** The points that the loop inserts between `a` and `b`. */
  function Between(a: Point, b: Point): seq<Point>
    decreases Reach(a, b).Floor
  {
    if TooFar(a, b) then
      SplitShortens(a, b);
      Between(a, Split(a, b)) + [Split(a, b)]
    else []
  }

  /** ceil(r / 1920) - 1, and none for a segment of length 0. */
  function Inserted(r: real): int
    requires r >= 0.0
  {
    if r == 0.0 then 0 else -((-r / 1920.0).Floor) - 1
  }

  /** The number of points inserted into a segment. */
  lemma {:induction false} BetweenCount(a: Point, b: Point)
    ensures |Between(a, b)| == Inserted(Reach(a, b))
    decreases Reach(a, b).Floor
  {
    var r := Reach(a, b);
    if TooFar(a, b) {
      SplitShortens(a, b);
      BetweenCount(a, Split(a, b));
      assert r > 1920.0;
      var q, p := -r / 1920.0, -(r - 1920.0) / 1920.0;
      assert p == q + 1.0;
      assert p.Floor == q.Floor + 1;
    } else if r > 0.0 {
      var q := -r / 1920.0;
      assert -1.0 <= q < 0.0;
      assert q.Floor == -1;
    }
  }

  /** Neighbours are within 1920 of each other on both axes. */
  predicate Walkable(ps: seq<Point>)
  {
    forall i | 0 < i < |ps| :: !TooFar(ps[i - 1], ps[i])
  }

  lemma {:induction false} BetweenWalkable(a: Point, b: Point)
    ensures Walkable([a] + Between(a, b) + [b])
    decreases Reach(a, b).Floor
  {
    if TooFar(a, b) {
      var p := Split(a, b);
      SplitShortens(a, b);
      SplitNear(a, b);
      BetweenWalkable(a, p);
      WalkableAppend([a] + Between(a, p) + [p], b);
      assert [a] + Between(a, b) + [b] == [a] + Between(a, p) + [p] + [b];
    }
  }

  lemma WalkableAppend(ps: seq<Point>, b: Point)
    requires Walkable(ps) && |ps| > 0 && !TooFar(ps[|ps| - 1], b)
    ensures Walkable(ps + [b])
  {
  }

  /** A point of the segment, with both ends left out. */
  ghost predicate OnSegment(a: Point, b: Point, p: Point)
  {
    exists t: real :: 0.0 < t < 1.0 && p == Along(a, b, t)
  }

  lemma {:induction false} BetweenOnSegment(a: Point, b: Point, k: nat)
    requires k < |Between(a, b)|
    ensures OnSegment(a, b, Between(a, b)[k])
    decreases Reach(a, b).Floor
  {
    var t := SplitAlong(a, b);
    var p := Split(a, b);
    SplitShortens(a, b);
    if k < |Between(a, p)| {
      BetweenOnSegment(a, p, k);
      var u :| 0.0 < u < 1.0 && Between(a, p)[k] == Along(a, p, u);
      Nested(a, b, t, u);
      assert Between(a, b)[k] == Along(a, b, u * t);
    } else {
      assert Between(a, b)[k] == Along(a, b, t);
    }
  }

  /** From the end of the segment on, the inserted points are 1920 apart, on the larger axis. */
  lemma {:induction false} BetweenSpaced(a: Point, b: Point, k: nat)
    requires k < |Between(a, b)|
    ensures var ps := Between(a, b); Reach(ps[k], if k + 1 < |ps| then ps[k + 1] else b) == 1920.0
    decreases Reach(a, b).Floor
  {
    hide Split, Reach, TooFar;
    BetweenStep(a, b);
    var p := Split(a, b);
    var before := Between(a, p);
    SplitShortens(a, b);
    SplitDistance(a, b);
    if k < |before| {
      BetweenSpaced(a, p, k);
    }
  }

  lemma SplitDistance(a: Point, b: Point)
    requires TooFar(a, b)
    ensures Reach(Split(a, b), b) == 1920.0
  {
    hide Split, Part, Step, Abs;
    SplitIs(a, b);
    var dx, dz := b.x - a.x, b.z - a.z;
    if Abs(dx) > Abs(dz) {
      PartIs(dx);
      OtherAxis(dz, dx, Part(dx), dz * Part(dx));
      ReachOf(Split(a, b), b, Step(dx), dz * Part(dx));
    } else {
      PartIs(dz);
      OtherAxis(dx, dz, Part(dz), dx * Part(dz));
      ReachOf(Split(a, b), b, dx * Part(dz), Step(dz));
    }
  }

  lemma Nested(a: Point, b: Point, t: real, u: real)
    requires 0.0 < t < 1.0 && 0.0 < u < 1.0
    ensures Along(a, Along(a, b, t), u) == Along(a, b, u * t) && 0.0 < u * t < 1.0
  {
    var p := Along(a, b, t);
    assert p.x - a.x == t * (b.x - a.x) && p.z - a.z == t * (b.z - a.z);
    Assoc(u, t, b.x - a.x);
    Assoc(u, t, b.z - a.z);
    Smaller(u, t, 1.0);
    Positive(u, t);
    StrictlyLess(u, t);
  }

  lemma Assoc(u: real, t: real, d: real)
    ensures u * (t * d) == u * t * d
  {
  }

  lemma Positive(u: real, t: real)
    requires 0.0 < u && 0.0 < t
    ensures 0.0 < u * t
  {
  }

  lemma StrictlyLess(u: real, t: real)
    requires 0.0 < t < 1.0 && 0.0 < u < 1.0
    ensures u * t < 1.0
  {
    Positive(u, 1.0 - t);
    assert u * t == u - u * (1.0 - t);
  }

  // ---------------------------------------------------------------- the whole path

  /** The waypoints with the inserted points before each of them. */
  function Broken(ws: seq<Point>): seq<Point>
  {
    if |ws| <= 1 then ws
    else Broken(ws[..|ws| - 1]) + Between(ws[|ws| - 2], ws[|ws| - 1]) + [ws[|ws| - 1]]
  }

  /** Where waypoint `k` ends up: one place for each waypoint before it and for each point inserted before it. */
  function Place(ws: seq<Point>, k: nat): nat
    requires k < |ws|
  {
    if k == 0 then 0 else Place(ws, k - 1) + |Between(ws[k - 1], ws[k])| + 1
  }

  lemma {:induction false} PlacePrefix(ws: seq<Point>, k: nat)
    requires k + 1 < |ws|
    ensures Place(ws[..|ws| - 1], k) == Place(ws, k)
    decreases k
  {
    if k > 0 {
      PlacePrefix(ws, k - 1);
    }
  }

  lemma {:induction false} BrokenSize(ws: seq<Point>)
    requires |ws| > 0
    ensures |Broken(ws)| == Place(ws, |ws| - 1) + 1
    decreases |ws|
  {
    if |ws| > 1 {
      BrokenSize(ws[..|ws| - 1]);
      PlacePrefix(ws, |ws| - 2);
    }
  }

  /** The original waypoints are all there, in their order, the first one first and the last one last. */
  lemma {:induction false} BrokenKeeps(ws: seq<Point>, k: nat)
    requires k < |ws|
    ensures Place(ws, k) < |Broken(ws)| && Broken(ws)[Place(ws, k)] == ws[k]
    ensures Place(ws, 0) == 0 && Place(ws, |ws| - 1) == |Broken(ws)| - 1
    ensures k > 0 ==> Place(ws, k - 1) < Place(ws, k)
    decreases |ws|
  {
    BrokenSize(ws);
    if |ws| > 1 && k < |ws| - 1 {
      BrokenKeeps(ws[..|ws| - 1], k);
      PlacePrefix(ws, k);
    }
  }

  /** What lies between two neighbouring waypoints is what was inserted for them. */
  lemma {:induction false} BrokenBetween(ws: seq<Point>, k: nat)
    requires 0 < k < |ws|
    ensures Place(ws, k) <= |Broken(ws)| && Broken(ws)[Place(ws, k - 1) + 1..Place(ws, k)] == Between(ws[k - 1], ws[k])
    decreases |ws|
  {
    hide Broken, Between, Place;
    var n := |ws|;
    PlaceStep(ws, k);
    var prefix, y := ws[..n - 1], Between(ws[n - 2], ws[n - 1]);
    BrokenSize(prefix);
    BrokenStep(ws);
    PlacePrefix(ws, n - 2);
    if k < n - 1 {
      BrokenBetween(prefix, k);
      PlacePrefix(ws, k);
      PlacePrefix(ws, k - 1);
      PartOfPrefix(Broken(prefix), y, ws[n - 1], Place(ws, k - 1) + 1, Place(ws, k));
    } else {
      MiddlePart(Broken(prefix), y, ws[n - 1]);
    }
  }

  lemma PlaceStep(ws: seq<Point>, k: nat)
    requires 0 < k < |ws|
    ensures Place(ws, k) == Place(ws, k - 1) + |Between(ws[k - 1], ws[k])| + 1
  {
    hide Between;
  }

  lemma MiddlePart(x: seq<Point>, y: seq<Point>, p: Point)
    ensures (x + y + [p])[|x|..|x| + |y|] == y
  {
  }

  lemma PartOfPrefix(x: seq<Point>, y: seq<Point>, p: Point, i: nat, j: nat)
    requires i <= j <= |x|
    ensures (x + y + [p])[i..j] == x[i..j]
  {
    assert (x + y + [p])[..|x|] == x;
  }

  lemma {:induction false} BrokenWalkable(ws: seq<Point>)
    ensures Walkable(Broken(ws))
    decreases |ws|
  {
    if |ws| > 1 {
      var a, b := ws[|ws| - 2], ws[|ws| - 1];
      BrokenWalkable(ws[..|ws| - 1]);
      BrokenKeeps(ws[..|ws| - 1], |ws| - 2);
      BetweenWalkable(a, b);
      Joined(Broken(ws[..|ws| - 1]), [a] + Between(a, b) + [b]);
      assert ([a] + Between(a, b) + [b])[1..] == Between(a, b) + [b];
      assert Broken(ws) == Broken(ws[..|ws| - 1]) + (Between(a, b) + [b]);
    }
  }

  lemma Joined(ps: seq<Point>, qs: seq<Point>)
    requires Walkable(ps) && Walkable(qs) && |ps| > 0 && |qs| > 0 && ps[|ps| - 1] == qs[0]
    ensures Walkable(ps + qs[1..])
  {
    var all := ps + qs[1..];
    forall i | 0 < i < |all|
      ensures !TooFar(all[i - 1], all[i])
    {
      if i >= |ps| {
        var j := i - |ps| + 1;
        assert all[i] == qs[j] && all[i - 1] == qs[j - 1];
      }
    }
  }

  // ---------------------------------------------------------------- the code

  /** breakUpLongMovements. */
  method BreakUpLongMovements(ws: seq<Point>) returns (waypoints: seq<Point>)
    ensures waypoints == Broken(ws) && Walkable(waypoints)
  {
    hide *;
    BrokenWalkable(ws);
    waypoints := ws;
    var i := |ws| - 1;
    Start(ws);
    while i > 0
      invariant i < |ws| && i < |waypoints| && (i <= 0 ==> waypoints == Broken(ws))
      invariant i > 0 ==>
                  && waypoints[..i] == ws[..i]
                  && Broken(ws) == Broken(ws[..i]) + Between(ws[i - 1], waypoints[i]) + waypoints[i..]
      decreases i, if i > 0 then Reach(ws[i - 1], waypoints[i]).Floor else 0
    {
      SameBefore(ws, waypoints, i);
      if TooFar(waypoints[i - 1], waypoints[i]) {
        var p := Split(waypoints[i - 1], waypoints[i]);
        var next := waypoints[..i] + [p] + waypoints[i..];
        SplitStep(ws, waypoints, i, p, next);
        waypoints := next;
      } else {
        NextStep(ws, waypoints, i);
        i := i - 1;
      }
    }
  }

  lemma SameBefore(ws: seq<Point>, now: seq<Point>, i: nat)
    requires 0 < i < |ws| && i < |now| && now[..i] == ws[..i]
    ensures now[i - 1] == ws[i - 1] && now[..i - 1] == ws[..i - 1]
  {
    assert now[..i][i - 1] == ws[..i][i - 1];
    assert now[..i - 1] == now[..i][..i - 1];
    assert ws[..i - 1] == ws[..i][..i - 1];
  }

  lemma Start(ws: seq<Point>)
    ensures |ws| <= 1 ==> ws == Broken(ws)
    ensures |ws| > 1 ==>
              Broken(ws) == Broken(ws[..|ws| - 1]) + Between(ws[|ws| - 2], ws[|ws| - 1]) + ws[|ws| - 1..]
  {
    hide *;
    BrokenStep(ws);
    LastPart(ws);
  }

  lemma LastPart(ws: seq<Point>)
    ensures |ws| > 0 ==> ws[|ws| - 1..] == [ws[|ws| - 1]]
  {
  }

  lemma BetweenStep(a: Point, b: Point)
    ensures Between(a, b) == if TooFar(a, b) then Between(a, Split(a, b)) + [Split(a, b)] else []
  {
    hide TooFar, Split;
  }

  lemma BrokenStep(ws: seq<Point>)
    ensures |ws| <= 1 ==> Broken(ws) == ws
    ensures |ws| > 1 ==> Broken(ws) == Broken(ws[..|ws| - 1]) + Between(ws[|ws| - 2], ws[|ws| - 1]) + [ws[|ws| - 1]]
  {
    hide Between;
  }

  lemma Regroup(x: seq<Point>, y: seq<Point>, p: Point, z: seq<Point>)
    ensures x + (y + [p]) + z == x + y + ([p] + z)
  {
  }

  lemma SplitStep(ws: seq<Point>, now: seq<Point>, i: nat, p: Point, next: seq<Point>)
    requires 0 < i < |ws| && i < |now| && TooFar(ws[i - 1], now[i]) && p == Split(ws[i - 1], now[i])
    requires next == now[..i] + [p] + now[i..] && now[..i] == ws[..i]
    requires Broken(ws) == Broken(ws[..i]) + Between(ws[i - 1], now[i]) + now[i..]
    ensures next[..i] == ws[..i] && i < |next| && next[i] == p
    ensures Broken(ws) == Broken(ws[..i]) + Between(ws[i - 1], p) + next[i..]
    ensures 0 <= Reach(ws[i - 1], p).Floor < Reach(ws[i - 1], now[i]).Floor
  {
    hide *;
    SplitShortens(ws[i - 1], now[i]);
    FloorNotNegative(Reach(ws[i - 1], p));
    BetweenStep(ws[i - 1], now[i]);
    Regroup(Broken(ws[..i]), Between(ws[i - 1], p), p, now[i..]);
    InsertedAt(now, i, p);
  }

  lemma FloorNotNegative(r: real)
    requires r >= 0.0
    ensures r.Floor >= 0
  {
  }

  lemma InsertedAt(now: seq<Point>, i: nat, p: Point)
    requires i <= |now|
    ensures (now[..i] + [p] + now[i..])[..i] == now[..i] && (now[..i] + [p] + now[i..])[i..] == [p] + now[i..]
  {
  }

  lemma NextStep(ws: seq<Point>, now: seq<Point>, i: nat)
    requires 0 < i < |ws| && i < |now| && now[..i] == ws[..i] && !TooFar(ws[i - 1], now[i])
    requires Broken(ws) == Broken(ws[..i]) + Between(ws[i - 1], now[i]) + now[i..]
    ensures i == 1 ==> now == Broken(ws)
    ensures i > 1 ==>
              && now[i - 1] == ws[i - 1]
              && Broken(ws) == Broken(ws[..i - 1]) + Between(ws[i - 2], now[i - 1]) + now[i - 1..]
  {
    hide *;
    BetweenStep(ws[i - 1], now[i]);
    BrokenStep(ws[..i]);
    Nothing(Broken(ws[..i]), now[i..]);
    HeadTail(now, ws, i);
    if i > 1 {
      PrefixOf(ws, i);
      Regroup(Broken(ws[..i - 1]), Between(ws[i - 2], ws[i - 1]), ws[i - 1], now[i..]);
      Grouped(Broken(ws[..i - 1]), Between(ws[i - 2], ws[i - 1]), [ws[i - 1]]);
    }
  }

  lemma Nothing(x: seq<Point>, z: seq<Point>)
    ensures x + [] + z == x + z
  {
  }

  lemma HeadTail(now: seq<Point>, ws: seq<Point>, i: nat)
    requires 0 < i < |ws| && i < |now| && now[..i] == ws[..i]
    ensures now[i - 1] == ws[i - 1] && now[i - 1..] == [ws[i - 1]] + now[i..]
    ensures i == 1 ==> now == ws[..1] + now[1..]
  {
    assert now[..i][i - 1] == ws[..i][i - 1];
  }

  lemma PrefixOf(ws: seq<Point>, i: nat)
    requires 1 < i <= |ws|
    ensures ws[..i][..|ws[..i]| - 1] == ws[..i - 1] && ws[..i][|ws[..i]| - 2] == ws[i - 2]
    ensures ws[..i][|ws[..i]| - 1] == ws[i - 1]
  {
  }

  lemma Grouped(x: seq<Point>, y: seq<Point>, z: seq<Point>)
    ensures x + y + z == x + (y + z)
  {
  }
}
