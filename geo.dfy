/**
 * The Geo container: a GeoJSON type name and a coordinate array nested four
 * deep (geometries, rings, points, ordinates), with its WKT writer and
 * reader, its GeoJSON writer, the in-place point transforms and the
 * bounding box.
 *
 * Numbers are reals. Their text is produced by a formatting function given
 * as a parameter (fmt for "%g", num for json.Marshal) and read by a parsing
 * function (read for json.Unmarshal of a number); the coordinate-system
 * conversions are likewise a point function f given as a parameter.
 *
 * KeywordOpen, DoubleBrackets, EnvelopeExample and the other step lemmas
 * without a row of their own spell out literal strings or single recursive
 * steps so that the proofs stay cheap; they state nothing about the source
 * by themselves.
 */
module Geometry {
  import opened Text
  import opened Tokens
  import opened JsonText
  import opened WktToJson

  type Point = seq<real>
  type Ring = seq<Point>
  type Group = seq<Ring>
  type Coords = seq<Group>

  // ---------------------------------------------------------------- shapes

  /** Every point of the ring has the two ordinates the code reads. */
  predicate RingTwoD(r: Ring)
  {
    forall k :: 0 <= k < |r| ==> |r[k]| >= 2
  }

  predicate GroupTwoD(g: Group)
  {
    forall j :: 0 <= j < |g| ==> RingTwoD(g[j])
  }

  predicate TwoD(c: Coords)
  {
    forall i :: 0 <= i < |c| ==> GroupTwoD(c[i])
  }

  // ---------------------------------------------------------------- WKT text

  /** fmt.Sprintf("%g %g", c[0], c[1]), where fmt is "%g" of one number. */
  function PointText(p: Point, fmt: real -> string): string
    requires |p| >= 2
  {
    fmt(p[0]) + " " + fmt(p[1])
  }

  function PointTexts(r: Ring, fmt: real -> string): (t: seq<string>)
    requires RingTwoD(r)
    ensures |t| == |r|
  {
    seq(|r|, k requires 0 <= k < |r| => PointText(r[k], fmt))
  }

  /** A ring as ToWKT writes it: "( p1, p2, …)". */
  function RingText(r: Ring, fmt: real -> string): string
    requires RingTwoD(r)
  {
    "( " + Join(PointTexts(r, fmt), ", ") + ")"
  }

  function RingTexts(g: Group, fmt: real -> string): (t: seq<string>)
    requires GroupTwoD(g)
    ensures |t| == |g|
  {
    seq(|g|, j requires 0 <= j < |g| => RingText(g[j], fmt))
  }

  /** A group of rings as ToWKT writes it: "(r1, r2, …)". */
  function GroupText(g: Group, fmt: real -> string): string
    requires GroupTwoD(g)
  {
    "(" + Join(RingTexts(g, fmt), ", ") + ")"
  }

  function GroupTexts(c: Coords, fmt: real -> string): (t: seq<string>)
    requires TwoD(c)
    ensures |t| == |c|
  {
    seq(|c|, i requires 0 <= i < |c| => GroupText(c[i], fmt))
  }

  /**
   * The last ring of the last group that has one: what ToWKT's points
   * describe once its loops end, since they are started afresh for every
   * ring and a group without rings leaves them alone.
   */
  function LastRing(c: Coords): (r: Ring)
    ensures TwoD(c) ==> RingTwoD(r)
    decreases |c|
  {
    if |c| == 0 then []
    else if |c[|c| - 1]| == 0 then LastRing(c[..|c| - 1])
    else c[|c| - 1][|c[|c| - 1]| - 1]
  }

  /** The last group, or none: what ToWKT's polygon describes once its loops end. */
  function LastGroup(c: Coords): (g: Group)
    ensures TwoD(c) ==> GroupTwoD(g)
  {
    if |c| == 0 then [] else c[|c| - 1]
  }

  /**
   * The text ToWKT returns. A Point is the first point of the last ring;
   * MultiPoint and LineString join the points of the last ring with ",";
   * Polygon and MultiLineString join the rings of the last group with ",";
   * MultiPolygon joins every group with ","; any other type gives "".
   */
  function WktText(typ: string, c: Coords, fmt: real -> string): string
    requires TwoD(c)
    requires typ == "Point" ==> |LastRing(c)| > 0
  {
    if typ == "Point" then "POINT (" + PointTexts(LastRing(c), fmt)[0] + ")"
    else if typ == "MultiPoint" then "MULTIPOINT (" + Join(PointTexts(LastRing(c), fmt), ",") + ")"
    else if typ == "LineString" then "LINESTRING (" + Join(PointTexts(LastRing(c), fmt), ",") + ")"
    else if typ == "MultiLineString" then "MULTILINESTRING (" + Join(RingTexts(LastGroup(c), fmt), ",") + ")"
    else if typ == "Polygon" then "POLYGON (" + Join(RingTexts(LastGroup(c), fmt), ",") + ")"
    else if typ == "MultiPolygon" then "MULTIPOLYGON (" + Join(GroupTexts(c, fmt), ",") + ")"
    else ""
  }

  /** One more group: its last ring if it has rings, else the last ring so far. */
  lemma LastRingStep(c: Coords, g: Group)
    ensures LastRing(c + [g]) == if |g| == 0 then LastRing(c) else g[|g| - 1]
  {
    assert (c + [g])[..|c|] == c;
  }

  lemma GroupTextsStep(c: Coords, i: nat, fmt: real -> string)
    requires TwoD(c) && i < |c|
    ensures c[..i + 1] == c[..i] + [c[i]]
    ensures TwoD(c[..i + 1]) && TwoD(c[..i]) && GroupTwoD(c[i])
    ensures GroupTexts(c[..i + 1], fmt) == GroupTexts(c[..i], fmt) + [GroupText(c[i], fmt)]
    ensures LastGroup(c[..i + 1]) == c[i]
  {
    assert c[..i + 1] == c[..i] + [c[i]];
  }

  /** The innermost loop of ToWKT: a fresh list with the text of each point of one ring. */
  method FormatRing(b: Ring, fmt: real -> string) returns (points: seq<string>)
    requires RingTwoD(b)
    ensures points == PointTexts(b, fmt)
  {
    points := [];
    for k := 0 to |b|
      invariant points == PointTexts(b[..k], fmt)
    {
      var c := b[k];
      points := points + [fmt(c[0]) + " " + fmt(c[1])];
      assert b[..k + 1] == b[..k] + [c];
    }
    assert b[..|b|] == b;
  }

  /**
   * The middle loop of ToWKT: a fresh list with the text of each ring of one
   * group; points is left as the last ring's texts, or as it was when the
   * group has no ring.
   */
  method FormatGroup(a: Group, points0: seq<string>, fmt: real -> string) returns (polygon: seq<string>, points: seq<string>)
    requires GroupTwoD(a)
    ensures polygon == RingTexts(a, fmt)
    ensures points == if |a| == 0 then points0 else PointTexts(a[|a| - 1], fmt)
  {
    polygon := [];
    points := points0;
    for j := 0 to |a|
      invariant polygon == RingTexts(a[..j], fmt)
      invariant points == if j == 0 then points0 else PointTexts(a[j - 1], fmt)
    {
      var b := a[j];
      assert RingTwoD(b);
      points := FormatRing(b, fmt);
      polygon := polygon + ["( " + Join(points, ", ") + ")"];
      assert a[..j + 1] == a[..j] + [b];
    }
    assert a[..|a|] == a;
  }

  // ---------------------------------------------------------------- point transforms

  /** The point with its first two ordinates replaced by f of them; any further ordinates are kept. */
  function MapPoint(p: Point, f: (real, real) -> (real, real)): Point
    requires |p| >= 2
  {
    var xy := f(p[0], p[1]);
    p[0 := xy.0][1 := xy.1]
  }

  function MapRing(r: Ring, f: (real, real) -> (real, real)): (m: Ring)
    requires RingTwoD(r)
    ensures |m| == |r|
  {
    seq(|r|, k requires 0 <= k < |r| => MapPoint(r[k], f))
  }

  function MapGroup(g: Group, f: (real, real) -> (real, real)): (m: Group)
    requires GroupTwoD(g)
    ensures |m| == |g|
  {
    seq(|g|, j requires 0 <= j < |g| => MapRing(g[j], f))
  }

  /** Every point of c mapped by f, in place. */
  function MapCoords(c: Coords, f: (real, real) -> (real, real)): (m: Coords)
    requires TwoD(c)
    ensures |m| == |c|
  {
    seq(|c|, i requires 0 <= i < |c| => MapGroup(c[i], f))
  }

  /** The exchange of longitude and latitude. */
  function Swap(x: real, y: real): (real, real)
  {
    (y, x)
  }

  /** d has the nesting of c, point for point the same number of ordinates. */
  predicate SameShape(c: Coords, d: Coords)
  {
    && |c| == |d|
    && (forall i :: 0 <= i < |c| ==> |c[i]| == |d[i]|)
    && (forall i, j :: 0 <= i < |c| && 0 <= j < |c[i]| ==> |c[i][j]| == |d[i][j]|)
    && (forall i, j, k :: 0 <= i < |c| && 0 <= j < |c[i]| && 0 <= k < |c[i][j]| ==>
          |c[i][j][k]| == |d[i][j][k]|)
  }

  /** A transform keeps the shape, and each point becomes f of its first two ordinates. */
  lemma MapCoordsPointwise(c: Coords, f: (real, real) -> (real, real))
    requires TwoD(c)
    ensures SameShape(c, MapCoords(c, f))
    ensures TwoD(MapCoords(c, f))
    ensures forall i, j, k :: 0 <= i < |c| && 0 <= j < |c[i]| && 0 <= k < |c[i][j]| ==>
      var p, q := c[i][j][k], MapCoords(c, f)[i][j][k];
      (q[0], q[1]) == f(p[0], p[1]) && q[2..] == p[2..]
  {
    var m := MapCoords(c, f);
    forall i, j, k | 0 <= i < |c| && 0 <= j < |c[i]| && 0 <= k < |c[i][j]|
      ensures |m[i][j][k]| == |c[i][j][k]|
      ensures (m[i][j][k][0], m[i][j][k][1]) == f(c[i][j][k][0], c[i][j][k][1])
      ensures m[i][j][k][2..] == c[i][j][k][2..]
    {
      assert GroupTwoD(c[i]) && RingTwoD(c[i][j]);
      assert m[i][j][k] == MapPoint(c[i][j][k], f);
    }
  }

  /** Exchanging longitude and latitude twice gives back the coordinates. */
  lemma SwapTwice(c: Coords)
    requires TwoD(c)
    ensures MapCoords(MapCoords(c, Swap), Swap) == c
  {
    MapCoordsPointwise(c, Swap);
    var m := MapCoords(c, Swap);
    forall i | 0 <= i < |c|
      ensures MapCoords(m, Swap)[i] == c[i]
    {
      forall j | 0 <= j < |c[i]|
        ensures MapCoords(m, Swap)[i][j] == c[i][j]
      {
        forall k | 0 <= k < |c[i][j]|
          ensures MapCoords(m, Swap)[i][j][k] == c[i][j][k]
        {
          assert GroupTwoD(m[i]) && RingTwoD(m[i][j]);
          assert GroupTwoD(c[i]) && RingTwoD(c[i][j]);
          var p := c[i][j][k];
          var q := MapPoint(p, Swap);
          assert m[i][j][k] == q;
          assert MapPoint(q, Swap) == p;
        }
      }
    }
  }

  /** Two transforms in a row are one transform by their composition. */
  lemma MapCompose(c: Coords, f: (real, real) -> (real, real), g: (real, real) -> (real, real))
    requires TwoD(c)
    ensures TwoD(MapCoords(c, f))
    ensures MapCoords(MapCoords(c, f), g) == MapCoords(c, (x, y) => g(f(x, y).0, f(x, y).1))
  {
    MapCoordsPointwise(c, f);
    var h := (x, y) => g(f(x, y).0, f(x, y).1);
    var m := MapCoords(c, f);
    forall i | 0 <= i < |c|
      ensures MapCoords(m, g)[i] == MapCoords(c, h)[i]
    {
      forall j | 0 <= j < |c[i]|
        ensures MapCoords(m, g)[i][j] == MapCoords(c, h)[i][j]
      {
        forall k | 0 <= k < |c[i][j]|
          ensures MapCoords(m, g)[i][j][k] == MapCoords(c, h)[i][j][k]
        {
          assert GroupTwoD(m[i]) && RingTwoD(m[i][j]);
          assert GroupTwoD(c[i]) && RingTwoD(c[i][j]);
          assert m[i][j][k] == MapPoint(c[i][j][k], f);
        }
      }
    }
  }

  // ---------------------------------------------------------------- bounding box

  datatype Bounds = Bounds(minx: real, miny: real, maxx: real, maxy: real)

  /** The points of c in the order the loops visit them. */
  function Flat(c: Coords): (pts: seq<Point>)
    decreases |c|
  {
    if |c| == 0 then [] else Flat(c[..|c| - 1]) + FlatGroup(c[|c| - 1])
  }

  function FlatGroup(g: Group): (pts: seq<Point>)
    decreases |g|
  {
    if |g| == 0 then [] else FlatGroup(g[..|g| - 1]) + g[|g| - 1]
  }

  /** b holds every point of pts with two ordinates. */
  predicate Encloses(b: Bounds, pts: seq<Point>)
  {
    forall k :: 0 <= k < |pts| && |pts[k]| >= 2 ==>
      b.minx <= pts[k][0] <= b.maxx && b.miny <= pts[k][1] <= b.maxy
  }

  /** Each side of b is an ordinate of some point of pts. */
  predicate Attains(b: Bounds, pts: seq<Point>)
  {
    && (exists k :: 0 <= k < |pts| && |pts[k]| >= 2 && pts[k][0] == b.minx)
    && (exists k :: 0 <= k < |pts| && |pts[k]| >= 2 && pts[k][1] == b.miny)
    && (exists k :: 0 <= k < |pts| && |pts[k]| >= 2 && pts[k][0] == b.maxx)
    && (exists k :: 0 <= k < |pts| && |pts[k]| >= 2 && pts[k][1] == b.maxy)
  }

  /** The bounds after one more point, as the four comparisons of Box update them. */
  function Widen(b: Bounds, p: Point): (r: Bounds)
    requires |p| >= 2
    ensures r.minx <= p[0] <= r.maxx && r.miny <= p[1] <= r.maxy
  {
    Bounds(
      if p[0] < b.minx then p[0] else b.minx,
      if p[1] < b.miny then p[1] else b.miny,
      if p[0] > b.maxx then p[0] else b.maxx,
      if p[1] > b.maxy then p[1] else b.maxy)
  }

  /** One more point keeps the bounds tight: they still hold every point and each side is still attained. */
  lemma WidenStep(b: Bounds, seen: seq<Point>, p: Point)
    requires |p| >= 2
    requires Encloses(b, seen) && Attains(b, seen)
    ensures Encloses(Widen(b, p), seen + [p]) && Attains(Widen(b, p), seen + [p])
  {
    var r := Widen(b, p);
    var s := seen + [p];
    var n := |seen|;
    assert s[n] == p;
    var k0 :| 0 <= k0 < |seen| && |seen[k0]| >= 2 && seen[k0][0] == b.minx;
    var k1 :| 0 <= k1 < |seen| && |seen[k1]| >= 2 && seen[k1][1] == b.miny;
    var k2 :| 0 <= k2 < |seen| && |seen[k2]| >= 2 && seen[k2][0] == b.maxx;
    var k3 :| 0 <= k3 < |seen| && |seen[k3]| >= 2 && seen[k3][1] == b.maxy;
    assert s[k0] == seen[k0] && s[k1] == seen[k1] && s[k2] == seen[k2] && s[k3] == seen[k3];
    var w0 := if p[0] < b.minx then n else k0;
    var w1 := if p[1] < b.miny then n else k1;
    var w2 := if p[0] > b.maxx then n else k2;
    var w3 := if p[1] > b.maxy then n else k3;
    assert s[w0][0] == r.minx && s[w1][1] == r.miny && s[w2][0] == r.maxx && s[w3][1] == r.maxy;
    forall k | 0 <= k < |s| && |s[k]| >= 2
      ensures r.minx <= s[k][0] <= r.maxx && r.miny <= s[k][1] <= r.maxy
    {
      if k < n {
        assert s[k] == seen[k];
      }
    }
  }

  /** Box starts from the first point; the bounds of that one point are tight. */
  lemma FirstBounds(p: Point)
    requires |p| >= 2
    ensures Encloses(Bounds(p[0], p[1], p[0], p[1]), [p])
    ensures Attains(Bounds(p[0], p[1], p[0], p[1]), [p])
  {
    assert [p][0] == p;
  }

  /** A point already seen may be seen again without changing the bounds' tightness. */
  lemma AttainsFirst(b: Bounds, p: Point, seen: seq<Point>)
    requires |seen| > 0 && seen[0] == p
    requires Attains(b, [p] + seen) && Encloses(b, [p] + seen)
    ensures Attains(b, seen) && Encloses(b, seen)
  {
    var s := [p] + seen;
    forall k | 0 <= k < |s|
      ensures s[k] == seen[if k == 0 then 0 else k - 1]
    {
    }
    forall k | 0 <= k < |seen| && |seen[k]| >= 2
      ensures b.minx <= seen[k][0] <= b.maxx && b.miny <= seen[k][1] <= b.maxy
    {
      assert s[k + 1] == seen[k];
    }
  }

  lemma {:induction false} FlatFirst(c: Coords)
    requires |c| > 0 && |c[0]| > 0 && |c[0][0]| > 0
    ensures |Flat(c)| > 0 && Flat(c)[0] == c[0][0][0]
    decreases |c|
  {
    if |c| == 1 {
      assert c[..0] == [];
      FlatGroupFirst(c[0]);
    } else {
      FlatFirst(c[..|c| - 1]);
    }
  }

  lemma {:induction false} FlatGroupFirst(g: Group)
    requires |g| > 0 && |g[0]| > 0
    ensures |FlatGroup(g)| > 0 && FlatGroup(g)[0] == g[0][0]
    decreases |g|
  {
    if |g| == 1 {
      assert g[..0] == [];
    } else {
      FlatGroupFirst(g[..|g| - 1]);
    }
  }

  /** Flat lists exactly the points of c: each point is in it, and each of its elements is a point of c. */
  lemma {:induction false} FlatMembers(c: Coords)
    ensures forall i, j, k :: 0 <= i < |c| && 0 <= j < |c[i]| && 0 <= k < |c[i][j]| ==> c[i][j][k] in Flat(c)
    ensures forall p :: p in Flat(c) ==>
      exists i, j, k :: 0 <= i < |c| && 0 <= j < |c[i]| && 0 <= k < |c[i][j]| && c[i][j][k] == p
    decreases |c|
  {
    if |c| > 0 {
      var n := |c| - 1;
      var init := c[..n];
      FlatMembers(init);
      FlatGroupMembers(c[n]);
      forall i, j, k | 0 <= i < |c| && 0 <= j < |c[i]| && 0 <= k < |c[i][j]|
        ensures c[i][j][k] in Flat(c)
      {
        if i < n {
          assert init[i] == c[i];
        }
      }
      forall p | p in Flat(c)
        ensures exists i, j, k :: 0 <= i < |c| && 0 <= j < |c[i]| && 0 <= k < |c[i][j]| && c[i][j][k] == p
      {
        if p in Flat(init) {
          var i, j, k :| 0 <= i < |init| && 0 <= j < |init[i]| && 0 <= k < |init[i][j]| && init[i][j][k] == p;
          assert c[i] == init[i];
        } else {
          var j, k :| 0 <= j < |c[n]| && 0 <= k < |c[n][j]| && c[n][j][k] == p;
          assert c[n][j][k] == p;
        }
      }
    }
  }

  lemma {:induction false} FlatGroupMembers(g: Group)
    ensures forall j, k :: 0 <= j < |g| && 0 <= k < |g[j]| ==> g[j][k] in FlatGroup(g)
    ensures forall p :: p in FlatGroup(g) ==> exists j, k :: 0 <= j < |g| && 0 <= k < |g[j]| && g[j][k] == p
    decreases |g|
  {
    if |g| > 0 {
      var n := |g| - 1;
      var init := g[..n];
      FlatGroupMembers(init);
      forall j, k | 0 <= j < |g| && 0 <= k < |g[j]|
        ensures g[j][k] in FlatGroup(g)
      {
        if j < n {
          assert init[j] == g[j];
        }
      }
      forall p | p in FlatGroup(g)
        ensures exists j, k :: 0 <= j < |g| && 0 <= k < |g[j]| && g[j][k] == p
      {
        if p in FlatGroup(init) {
          var j, k :| 0 <= j < |init| && 0 <= k < |init[j]| && init[j][k] == p;
          assert g[j] == init[j];
        } else {
          var k :| 0 <= k < |g[n]| && g[n][k] == p;
        }
      }
    }
  }

  lemma FlatTwoD(c: Coords)
    requires TwoD(c)
    ensures forall k :: 0 <= k < |Flat(c)| ==> |Flat(c)[k]| >= 2
  {
    FlatMembers(c);
    forall k | 0 <= k < |Flat(c)|
      ensures |Flat(c)[k]| >= 2
    {
      var p := Flat(c)[k];
      assert p in Flat(c);
      var i, j, l :| 0 <= i < |c| && 0 <= j < |c[i]| && 0 <= l < |c[i][j]| && c[i][j][l] == p;
      assert GroupTwoD(c[i]) && RingTwoD(c[i][j]);
    }
  }

  /** The loops of Box: the bounds start at the first point and widen at every point in turn. */
  method BoundsOf(coords: Coords) returns (bounds: Bounds)
    requires TwoD(coords)
    requires |coords| > 0 && |coords[0]| > 0 && |coords[0][0]| > 0
    ensures Encloses(bounds, Flat(coords)) && Attains(bounds, Flat(coords))
  {
    var p0 := coords[0][0][0];
    assert GroupTwoD(coords[0]) && RingTwoD(coords[0][0]);
    bounds := Bounds(p0[0], p0[1], p0[0], p0[1]);
    FirstBounds(p0);
    assert [p0] + Flat(coords[..0]) == [p0] by {
      assert coords[..0] == [];
    }
    for i := 0 to |coords|
      invariant Encloses(bounds, [p0] + Flat(coords[..i])) && Attains(bounds, [p0] + Flat(coords[..i]))
    {
      ghost var seen := [p0] + Flat(coords[..i]);
      assert GroupTwoD(coords[i]);
      bounds := WidenGroup(bounds, seen, coords[i]);
      FlatStep([p0], coords, i);
    }
    assert coords[..|coords|] == coords;
    FlatFirst(coords);
    AttainsFirst(bounds, p0, Flat(coords));
  }

  lemma FlatStep(pre: seq<Point>, c: Coords, i: nat)
    requires i < |c|
    ensures pre + Flat(c[..i]) + FlatGroup(c[i]) == pre + Flat(c[..i + 1])
  {
    assert c[..i + 1][..i] == c[..i];
    Assoc(pre, Flat(c[..i]), FlatGroup(c[i]));
  }

  /** The middle loop of Box, over the rings of one group. */
  method WidenGroup(b0: Bounds, ghost seen: seq<Point>, a: Group) returns (bounds: Bounds)
    requires GroupTwoD(a)
    requires Encloses(b0, seen) && Attains(b0, seen)
    ensures Encloses(bounds, seen + FlatGroup(a)) && Attains(bounds, seen + FlatGroup(a))
  {
    bounds := b0;
    assert seen + FlatGroup(a[..0]) == seen by {
      assert a[..0] == [];
    }
    for j := 0 to |a|
      invariant Encloses(bounds, seen + FlatGroup(a[..j])) && Attains(bounds, seen + FlatGroup(a[..j]))
    {
      ghost var before := seen + FlatGroup(a[..j]);
      assert RingTwoD(a[j]);
      bounds := WidenRing(bounds, before, a[j]);
      FlatGroupStep(seen, a, j);
    }
    assert a[..|a|] == a;
  }

  lemma FlatGroupStep(pre: seq<Point>, g: Group, j: nat)
    requires j < |g|
    ensures pre + FlatGroup(g[..j]) + g[j] == pre + FlatGroup(g[..j + 1])
  {
    assert g[..j + 1][..j] == g[..j];
    Assoc(pre, FlatGroup(g[..j]), g[j]);
  }

  /** The inner loop of Box, over the points of one ring: the four comparisons widen the bounds to each point. */
  method WidenRing(b0: Bounds, ghost seen: seq<Point>, b: Ring) returns (bounds: Bounds)
    requires RingTwoD(b)
    requires Encloses(b0, seen) && Attains(b0, seen)
    ensures Encloses(bounds, seen + b) && Attains(bounds, seen + b)
  {
    bounds := b0;
    assert seen + b[..0] == seen;
    for k := 0 to |b|
      invariant Encloses(bounds, seen + b[..k]) && Attains(bounds, seen + b[..k])
    {
      var c := b[k];
      ghost var before := bounds;
      if c[0] > bounds.maxx {
        bounds := bounds.(maxx := c[0]);
      }
      if c[0] < bounds.minx {
        bounds := bounds.(minx := c[0]);
      }
      if c[1] > bounds.maxy {
        bounds := bounds.(maxy := c[1]);
      }
      if c[1] < bounds.miny {
        bounds := bounds.(miny := c[1]);
      }
      assert bounds == Widen(before, c);
      WidenStep(before, seen + b[..k], c);
      RingStep(seen, b, k);
    }
    assert b[..|b|] == b;
  }

  lemma RingStep(pre: seq<Point>, r: Ring, k: nat)
    requires k < |r|
    ensures pre + r[..k] + [r[k]] == pre + r[..k + 1]
  {
    assert r[..k + 1] == r[..k] + [r[k]];
    Assoc(pre, r[..k], [r[k]]);
  }

  // ---------------------------------------------------------------- JSON of coordinates

  /** json.Marshal of a point: its numbers, each written by num. */
  function PointJson(p: Point, num: real -> string): Json
  {
    Arr(seq(|p|, k requires 0 <= k < |p| => Num(num(p[k]))))
  }

  function RingJson(r: Ring, num: real -> string): Json
  {
    Arr(seq(|r|, k requires 0 <= k < |r| => PointJson(r[k], num)))
  }

  function GroupJson(g: Group, num: real -> string): Json
  {
    Arr(seq(|g|, j requires 0 <= j < |g| => RingJson(g[j], num)))
  }

  function CoordsJson(c: Coords, num: real -> string): Json
  {
    Arr(seq(|c|, i requires 0 <= i < |c| => GroupJson(c[i], num)))
  }

  /** The values of xs when every one is present, and nothing otherwise. */
  function AllSome<T>(xs: seq<Option<T>>): (r: Option<seq<T>>)
    ensures r.Some? <==> forall i :: 0 <= i < |xs| ==> xs[i].Some?
    ensures r.Some? ==> |r.value| == |xs| && forall i :: 0 <= i < |xs| ==> xs[i] == Some(r.value[i])
  {
    if forall i :: 0 <= i < |xs| ==> xs[i].Some? then Some(seq(|xs|, i requires 0 <= i < |xs| => xs[i].value))
    else None
  }

  /**
   * json.Unmarshal into [][][][]float64: arrays at the first four levels and
   * numbers, read by read, at the fifth; anything else is an error.
   */
  function ReadNum(j: Json, read: string -> Option<real>): Option<real>
  {
    match j
    case Num(t) => read(t)
    case Arr(_) => None
  }

  function ReadPoint(j: Json, read: string -> Option<real>): Option<Point>
  {
    match j
    case Num(_) => None
    case Arr(items) => AllSome(seq(|items|, k requires 0 <= k < |items| => ReadNum(items[k], read)))
  }

  function ReadRing(j: Json, read: string -> Option<real>): Option<Ring>
  {
    match j
    case Num(_) => None
    case Arr(items) => AllSome(seq(|items|, k requires 0 <= k < |items| => ReadPoint(items[k], read)))
  }

  function ReadGroup(j: Json, read: string -> Option<real>): Option<Group>
  {
    match j
    case Num(_) => None
    case Arr(items) => AllSome(seq(|items|, k requires 0 <= k < |items| => ReadRing(items[k], read)))
  }

  function ReadCoords(j: Json, read: string -> Option<real>): Option<Coords>
  {
    match j
    case Num(_) => None
    case Arr(items) => AllSome(seq(|items|, k requires 0 <= k < |items| => ReadGroup(items[k], read)))
  }

  /** json.Unmarshal of a whole text into [][][][]float64. */
  function Unmarshal(s: string, read: string -> Option<real>): Option<Coords>
  {
    match Parse(s)
    case None => None
    case Some(j) => ReadCoords(j, read)
  }

  /** num writes v as a number text that read turns back into v. */
  predicate Writes(num: real -> string, read: string -> Option<real>, v: real)
  {
    IsNumText(num(v)) && read(num(v)) == Some(v)
  }

  /** num writes every ordinate of p so that read turns it back. */
  predicate WritesPoint(num: real -> string, read: string -> Option<real>, p: Point)
  {
    forall k :: 0 <= k < |p| ==> Writes(num, read, p[k])
  }

  predicate WritesRing(num: real -> string, read: string -> Option<real>, r: Ring)
  {
    forall k :: 0 <= k < |r| ==> WritesPoint(num, read, r[k])
  }

  predicate WritesGroup(num: real -> string, read: string -> Option<real>, g: Group)
  {
    forall j :: 0 <= j < |g| ==> WritesRing(num, read, g[j])
  }

  predicate WritesCoords(num: real -> string, read: string -> Option<real>, c: Coords)
  {
    forall i :: 0 <= i < |c| ==> WritesGroup(num, read, c[i])
  }

  lemma ReadPointJson(p: Point, num: real -> string, read: string -> Option<real>)
    requires WritesPoint(num, read, p)
    ensures Clean(PointJson(p, num)) && ReadPoint(PointJson(p, num), read) == Some(p)
  {
    var items := PointJson(p, num).items;
    var xs := seq(|items|, k requires 0 <= k < |items| => ReadNum(items[k], read));
    forall k | 0 <= k < |p|
      ensures Clean(items[k]) && xs[k] == Some(p[k])
    {
      assert items[k] == Num(num(p[k])) && Writes(num, read, p[k]);
    }
    var v := AllSome(xs);
    assert v.Some? && v.value == p;
  }

  lemma ReadRingJson(r: Ring, num: real -> string, read: string -> Option<real>)
    requires WritesRing(num, read, r)
    ensures Clean(RingJson(r, num)) && ReadRing(RingJson(r, num), read) == Some(r)
  {
    var items := RingJson(r, num).items;
    forall k | 0 <= k < |r|
      ensures Clean(items[k]) && ReadPoint(items[k], read) == Some(r[k])
    {
      ReadPointJson(r[k], num, read);
    }
    var xs := seq(|items|, k requires 0 <= k < |items| => ReadPoint(items[k], read));
    var v := AllSome(xs);
    assert v.Some? && v.value == r;
  }

  lemma ReadGroupJson(g: Group, num: real -> string, read: string -> Option<real>)
    requires WritesGroup(num, read, g)
    ensures Clean(GroupJson(g, num)) && ReadGroup(GroupJson(g, num), read) == Some(g)
  {
    var items := GroupJson(g, num).items;
    forall k | 0 <= k < |g|
      ensures Clean(items[k]) && ReadRing(items[k], read) == Some(g[k])
    {
      ReadRingJson(g[k], num, read);
    }
    var xs := seq(|items|, k requires 0 <= k < |items| => ReadRing(items[k], read));
    var v := AllSome(xs);
    assert v.Some? && v.value == g;
  }

  /** Coordinates written as JSON read back as themselves. */
  lemma ReadCoordsJson(c: Coords, num: real -> string, read: string -> Option<real>)
    requires WritesCoords(num, read, c)
    ensures Clean(CoordsJson(c, num)) && ReadCoords(CoordsJson(c, num), read) == Some(c)
    ensures Unmarshal(Print(CoordsJson(c, num)), read) == Some(c)
  {
    var items := CoordsJson(c, num).items;
    forall k | 0 <= k < |c|
      ensures Clean(items[k]) && ReadGroup(items[k], read) == Some(c[k])
    {
      ReadGroupJson(c[k], num, read);
    }
    var xs := seq(|items|, k requires 0 <= k < |items| => ReadGroup(items[k], read));
    var v := AllSome(xs);
    assert v.Some? && v.value == c;
    ParseOfPrint(CoordsJson(c, num));
  }

  /** The part of the coordinates GeoJSON writes for each type; nothing for an unknown type. */
  function CoordinatesJSON(typ: string, c: Coords, num: real -> string): (s: string)
    requires typ == "Point" || typ == "LineString" || typ == "MultiPoint" ==> |c| > 0 && |c[0]| > 0
    requires typ == "Polygon" || typ == "MultiLineString" ==> |c| > 0
    ensures !IsTypeName(typ) ==> s == ""
  {
    if typ == "Point" || typ == "LineString" || typ == "MultiPoint" then Print(RingJson(c[0][0], num))
    else if typ == "Polygon" || typ == "MultiLineString" then Print(GroupJson(c[0], num))
    else if typ == "MultiPolygon" then Print(CoordsJson(c, num))
    else ""
  }

  /** The GeoJSON text around the type and the coordinates, which are written inside quotes. */
  function Envelope(typ: string, coordinates: string): string
  {
    "{\"type\":\"" + typ + "\",\"coordinates\":\"" + coordinates + "\"}"
  }

  // ---------------------------------------------------------------- reading WKT

  /** The brackets FromWKT puts around the coordinates of each type; nothing for an unknown type. */
  function Wrap(typ: string, body: string): string
  {
    if typ == "Point" || typ == "LineString" || typ == "MultiPoint" then "[[" + body + "]]"
    else if typ == "Polygon" || typ == "MultiLineString" then "[" + body + "]"
    else if typ == "MultiPolygon" then body
    else ""
  }

  /** The type FromWKT reads from wkt. */
  function WktType(wkt: string): string
  {
    TypeName(Head(Lex(wkt)))
  }

  /** The coordinates FromWKT reads from wkt, or nothing when json.Unmarshal fails. */
  function Decode(wkt: string, read: string -> Option<real>): (r: Option<Coords>)
    ensures !IsTypeName(WktType(wkt)) ==> r == None
  {
    Unmarshal(Wrap(WktType(wkt), Emit(Tail(Lex(wkt)), false)), read)
  }

  /** FromWKT: the type and, when the JSON decodes, the coordinates; an empty Geo is not modelled further on failure. */
  method FromWKT(wkt: string, read: string -> Option<real>) returns (g: Geo, ok: bool)
    ensures fresh(g)
    ensures g.Type == WktType(wkt)
    ensures ok <==> Decode(wkt, read).Some?
    ensures ok ==> g.Coords == Decode(wkt, read).value
  {
    var typ, coordinates := WKTToGeoJSON(wkt);
    var text := Wrap(typ, coordinates);
    var v := Unmarshal(text, read);
    ok := v.Some?;
    g := new Geo(typ, if ok then v.value else []);
  }

  // ---------------------------------------------------------------- the WKT round trip

  /** Every point of the ring has exactly two ordinates. */
  predicate RingPlanar(r: Ring)
  {
    forall k :: 0 <= k < |r| ==> |r[k]| == 2
  }

  predicate GroupPlanar(g: Group)
  {
    forall j :: 0 <= j < |g| ==> RingPlanar(g[j])
  }

  predicate Planar(c: Coords)
  {
    forall i :: 0 <= i < |c| ==> GroupPlanar(c[i])
  }

  /** fmt writes v as one plain word that read turns back into v. */
  predicate Formats(fmt: real -> string, read: string -> Option<real>, v: real)
  {
    IsPlain(fmt(v)) && Writes(fmt, read, v)
  }

  /** fmt writes every ordinate of p as such a word. */
  predicate FormatsPoint(fmt: real -> string, read: string -> Option<real>, p: Point)
  {
    forall k :: 0 <= k < |p| ==> Formats(fmt, read, p[k])
  }

  predicate FormatsRing(fmt: real -> string, read: string -> Option<real>, r: Ring)
  {
    forall k :: 0 <= k < |r| ==> FormatsPoint(fmt, read, r[k])
  }

  predicate FormatsGroup(fmt: real -> string, read: string -> Option<real>, g: Group)
  {
    forall j :: 0 <= j < |g| ==> FormatsRing(fmt, read, g[j])
  }

  predicate FormatsCoords(fmt: real -> string, read: string -> Option<real>, c: Coords)
  {
    forall i :: 0 <= i < |c| ==> FormatsGroup(fmt, read, c[i])
  }

  /**
   * The coordinates each type writes in full: one point for Point, one ring
   * for LineString and MultiPoint, one group for Polygon and
   * MultiLineString, any for MultiPolygon.
   */
  predicate Canonical(typ: string, c: Coords)
  {
    && (typ == "Point" ==> |c| == 1 && |c[0]| == 1 && |c[0][0]| == 1)
    && (typ == "LineString" || typ == "MultiPoint" ==> |c| == 1 && |c[0]| == 1)
    && (typ == "Polygon" || typ == "MultiLineString" ==> |c| == 1)
  }

  lemma NumNotPunct(t: string)
    requires IsNumText(t)
    ensures !IsPunct(t)
  {
    assert !IsDelimiter(t[0]);
  }

  /** A point's WKT text becomes its JSON pair. */
  lemma EmitLexPoint(p: Point, fmt: real -> string, read: string -> Option<real>)
    requires |p| == 2 && FormatsPoint(fmt, read, p)
    ensures Emit(Lex(PointText(p, fmt)), false) == Print(PointJson(p, fmt))
  {
    assert Formats(fmt, read, p[0]) && Formats(fmt, read, p[1]);
    EmitLexPair(fmt(p[0]), fmt(p[1]));
    assert PointJson(p, fmt) == Arr([Num(fmt(p[0])), Num(fmt(p[1]))]);
  }

  lemma PrintPair(x: string, y: string)
    ensures Print(Arr([Num(x), Num(y)])) == "[" + x + "," + y + "]"
  {
    assert PrintAll([Num(x), Num(y)]) == [x, y];
    assert Join([x, y], ",") == x + "," + y;
  }

  /** A parenthesised list of texts, each becoming the JSON of its item, becomes the JSON array of the items. */
  lemma EmitLexList(open: string, texts: seq<string>, sep: string, items: seq<Json>)
    requires open == "(" || open == "( "
    requires sep == "," || sep == ", "
    requires |texts| == |items|
    requires forall i :: 0 <= i < |texts| ==> Emit(Lex(texts[i]), false) == Print(items[i])
    ensures Emit(Lex(open + Join(texts, sep) + ")"), false) == Print(Arr(items))
  {
    LexParens(open, Join(texts, sep));
    LexJoin(texts, sep);
    EmitBracketed(LexAll(texts), false);
    assert EmitAll(LexAll(texts)) == PrintAll(items);
  }

  lemma EmitLexRing(r: Ring, fmt: real -> string, read: string -> Option<real>)
    requires RingPlanar(r) && FormatsRing(fmt, read, r)
    ensures Emit(Lex(RingText(r, fmt)), false) == Print(RingJson(r, fmt))
  {
    var texts := PointTexts(r, fmt);
    var items := RingJson(r, fmt).items;
    forall i | 0 <= i < |texts|
      ensures Emit(Lex(texts[i]), false) == Print(items[i])
    {
      EmitLexPoint(r[i], fmt, read);
    }
    EmitLexList("( ", texts, ", ", items);
  }

  lemma EmitLexGroup(g: Group, fmt: real -> string, read: string -> Option<real>)
    requires GroupPlanar(g) && FormatsGroup(fmt, read, g)
    ensures Emit(Lex(GroupText(g, fmt)), false) == Print(GroupJson(g, fmt))
  {
    var texts := RingTexts(g, fmt);
    var items := GroupJson(g, fmt).items;
    forall i | 0 <= i < |texts|
      ensures Emit(Lex(texts[i]), false) == Print(items[i])
    {
      EmitLexRing(g[i], fmt, read);
    }
    EmitLexList("(", texts, ", ", items);
  }

  /** A keyword followed by a space is the one word of the keyword. */
  lemma LexKeyword(kw: string, body: string)
    requires IsPlain(kw)
    ensures Lex(kw + " " + body) == [kw] + Lex(body)
  {
    var k := kw + " ";
    assert Lex(k) == [kw] by {
      LexSpace();
      LexAppend(kw, " ");
      LexPlain(kw);
    }
    assert IsBreak(k[|k| - 1]);
    LexAppend(k, body);
  }

  /** A keyword, a space and a parenthesised list: the keyword is the first word and the list becomes a JSON array. */
  lemma EmitLexTop(kw: string, texts: seq<string>, items: seq<Json>)
    requires IsPlain(kw)
    requires |texts| == |items|
    requires forall i :: 0 <= i < |texts| ==> Emit(Lex(texts[i]), false) == Print(items[i])
    ensures Head(Lex(kw + " (" + Join(texts, ",") + ")")) == kw
    ensures Emit(Tail(Lex(kw + " (" + Join(texts, ",") + ")")), false) == Print(Arr(items))
  {
    var body := "(" + Join(texts, ",") + ")";
    KeywordSpace(kw, Join(texts, ","));
    LexKeyword(kw, body);
    assert Head([kw] + Lex(body)) == kw && Tail([kw] + Lex(body)) == Lex(body);
    EmitLexList("(", texts, ",", items);
  }

  lemma KeywordSpace(kw: string, list: string)
    ensures kw + " (" + list + ")" == kw + " " + ("(" + list + ")")
  {
    assert " (" == " " + "(";
  }

  lemma KeywordPlain(name: string)
    requires IsTypeName(name)
    ensures IsPlain(Keyword(name))
  {
    var k := Keyword(name);
    assert |k| > 0 && forall i :: 0 <= i < |k| ==> 'A' <= k[i] <= 'Z';
  }

  /** "[" + Print(j) + "]" is the JSON of the one-element array of j. */
  lemma PrintSingle(j: Json)
    ensures Print(Arr([j])) == "[" + Print(j) + "]"
  {
    assert PrintAll([j]) == [Print(j)];
  }

  /** The WKT of one point lexes to its keyword and a list that becomes the JSON ring of that point. */
  lemma EmitPointWkt(typ: string, r: Ring, fmt: real -> string, read: string -> Option<real>)
    requires IsTypeName(typ) && |r| == 1 && RingPlanar(r) && FormatsRing(fmt, read, r)
    ensures var wkt := Keyword(typ) + " (" + PointTexts(r, fmt)[0] + ")";
      WktType(wkt) == typ && Emit(Tail(Lex(wkt)), false) == Print(RingJson(r, fmt))
  {
    var kw := Keyword(typ);
    KeywordPlain(typ);
    TypeNameOfKeyword(typ);
    var p := r[0];
    EmitLexPoint(p, fmt, read);
    assert kw + " (" + PointTexts(r, fmt)[0] + ")" == kw + " (" + Join([PointText(p, fmt)], ",") + ")";
    EmitLexTop(kw, [PointText(p, fmt)], [PointJson(p, fmt)]);
    assert RingJson(r, fmt) == Arr([PointJson(p, fmt)]);
  }

  /** The WKT of a ring's points lexes to its keyword and a list that becomes the JSON of the ring. */
  lemma EmitRingWkt(typ: string, r: Ring, fmt: real -> string, read: string -> Option<real>)
    requires IsTypeName(typ) && RingPlanar(r) && FormatsRing(fmt, read, r)
    ensures var wkt := Keyword(typ) + " (" + Join(PointTexts(r, fmt), ",") + ")";
      WktType(wkt) == typ && Emit(Tail(Lex(wkt)), false) == Print(RingJson(r, fmt))
  {
    KeywordPlain(typ);
    TypeNameOfKeyword(typ);
    var texts := PointTexts(r, fmt);
    var items := RingJson(r, fmt).items;
    forall i | 0 <= i < |texts|
      ensures Emit(Lex(texts[i]), false) == Print(items[i])
    {
      EmitLexPoint(r[i], fmt, read);
    }
    EmitLexTop(Keyword(typ), texts, items);
  }

  /** The WKT of a group's rings lexes to its keyword and a list that becomes the JSON of the group. */
  lemma EmitGroupWkt(typ: string, g: Group, fmt: real -> string, read: string -> Option<real>)
    requires IsTypeName(typ) && GroupPlanar(g) && FormatsGroup(fmt, read, g)
    ensures var wkt := Keyword(typ) + " (" + Join(RingTexts(g, fmt), ",") + ")";
      WktType(wkt) == typ && Emit(Tail(Lex(wkt)), false) == Print(GroupJson(g, fmt))
  {
    KeywordPlain(typ);
    TypeNameOfKeyword(typ);
    var texts := RingTexts(g, fmt);
    var items := GroupJson(g, fmt).items;
    forall i | 0 <= i < |texts|
      ensures Emit(Lex(texts[i]), false) == Print(items[i])
    {
      EmitLexRing(g[i], fmt, read);
    }
    EmitLexTop(Keyword(typ), texts, items);
  }

  /** The WKT of all groups lexes to its keyword and a list that becomes the JSON of all coordinates. */
  lemma EmitCoordsWkt(typ: string, c: Coords, fmt: real -> string, read: string -> Option<real>)
    requires IsTypeName(typ) && Planar(c) && FormatsCoords(fmt, read, c)
    ensures TwoD(c)
    ensures var wkt := Keyword(typ) + " (" + Join(GroupTexts(c, fmt), ",") + ")";
      WktType(wkt) == typ && Emit(Tail(Lex(wkt)), false) == Print(CoordsJson(c, fmt))
  {
    PlanarTwoD(c);
    KeywordPlain(typ);
    TypeNameOfKeyword(typ);
    var texts := GroupTexts(c, fmt);
    var items := CoordsJson(c, fmt).items;
    forall i | 0 <= i < |texts|
      ensures Emit(Lex(texts[i]), false) == Print(items[i])
    {
      EmitLexGroup(c[i], fmt, read);
    }
    EmitLexTop(Keyword(typ), texts, items);
  }

  lemma PlanarTwoD(c: Coords)
    requires Planar(c)
    ensures TwoD(c)
  {
    forall i, j | 0 <= i < |c| && 0 <= j < |c[i]|
      ensures RingTwoD(c[i][j])
    {
      assert GroupPlanar(c[i]) && RingPlanar(c[i][j]);
    }
  }

  /** Wrap puts back the brackets of the levels a type leaves out of its WKT. */
  lemma WrapLevels(typ: string, c: Coords, fmt: real -> string)
    requires IsTypeName(typ) && Canonical(typ, c)
    ensures typ == "Point" || typ == "LineString" || typ == "MultiPoint" ==>
      Wrap(typ, Print(RingJson(c[0][0], fmt))) == Print(CoordsJson(c, fmt))
    ensures typ == "Polygon" || typ == "MultiLineString" ==>
      Wrap(typ, Print(GroupJson(c[0], fmt))) == Print(CoordsJson(c, fmt))
    ensures typ == "MultiPolygon" ==> Wrap(typ, Print(CoordsJson(c, fmt))) == Print(CoordsJson(c, fmt))
  {
    if |c| == 1 {
      var gj := GroupJson(c[0], fmt);
      assert CoordsJson(c, fmt) == Arr([gj]);
      PrintSingle(gj);
      if |c[0]| == 1 {
        var rj := RingJson(c[0][0], fmt);
        assert gj == Arr([rj]);
        PrintSingle(rj);
        DoubleBrackets(Print(rj));
      }
    }
  }

  lemma DoubleBrackets(x: string)
    ensures "[[" + x + "]]" == "[" + ("[" + x + "]") + "]"
  {
    assert "[[" == "[" + "[" && "]]" == "]" + "]";
  }

  /** The text of each type is its keyword, a space and its list in parentheses. */
  lemma WktTextKeyword(typ: string, c: Coords, fmt: real -> string)
    requires TwoD(c)
    requires typ == "Point" ==> |LastRing(c)| > 0
    ensures typ == "Point" ==>
      WktText(typ, c, fmt) == Keyword(typ) + " (" + PointTexts(LastRing(c), fmt)[0] + ")"
    ensures typ == "LineString" || typ == "MultiPoint" ==>
      WktText(typ, c, fmt) == Keyword(typ) + " (" + Join(PointTexts(LastRing(c), fmt), ",") + ")"
    ensures typ == "Polygon" || typ == "MultiLineString" ==>
      WktText(typ, c, fmt) == Keyword(typ) + " (" + Join(RingTexts(LastGroup(c), fmt), ",") + ")"
    ensures typ == "MultiPolygon" ==>
      WktText(typ, c, fmt) == Keyword(typ) + " (" + Join(GroupTexts(c, fmt), ",") + ")"
  {
    KeywordOpen();
  }

  lemma KeywordOpen()
    ensures Keyword("Point") + " (" == "POINT ("
    ensures Keyword("MultiPoint") + " (" == "MULTIPOINT ("
    ensures Keyword("LineString") + " (" == "LINESTRING ("
    ensures Keyword("MultiLineString") + " (" == "MULTILINESTRING ("
    ensures Keyword("Polygon") + " (" == "POLYGON ("
    ensures Keyword("MultiPolygon") + " (" == "MULTIPOLYGON ("
  {
  }

  lemma PointBody(typ: string, c: Coords, fmt: real -> string, read: string -> Option<real>)
    requires typ == "Point" && Canonical(typ, c) && Planar(c) && FormatsCoords(fmt, read, c)
    ensures TwoD(c) && |LastRing(c)| > 0
    ensures WktType(WktText(typ, c, fmt)) == typ
    ensures Emit(Tail(Lex(WktText(typ, c, fmt))), false) == Print(RingJson(c[0][0], fmt))
  {
    PlanarTwoD(c);
    var r := c[0][0];
    assert LastRing(c) == r;
    WktTextKeyword(typ, c, fmt);
    EmitPointWkt(typ, r, fmt, read);
  }

  lemma RingBody(typ: string, c: Coords, fmt: real -> string, read: string -> Option<real>)
    requires typ == "LineString" || typ == "MultiPoint"
    requires Canonical(typ, c) && Planar(c) && FormatsCoords(fmt, read, c)
    ensures TwoD(c)
    ensures WktType(WktText(typ, c, fmt)) == typ
    ensures Emit(Tail(Lex(WktText(typ, c, fmt))), false) == Print(RingJson(c[0][0], fmt))
  {
    PlanarTwoD(c);
    var r := c[0][0];
    assert LastRing(c) == r;
    WktTextKeyword(typ, c, fmt);
    EmitRingWkt(typ, r, fmt, read);
  }

  lemma GroupBody(typ: string, c: Coords, fmt: real -> string, read: string -> Option<real>)
    requires typ == "Polygon" || typ == "MultiLineString"
    requires Canonical(typ, c) && Planar(c) && FormatsCoords(fmt, read, c)
    ensures TwoD(c)
    ensures WktType(WktText(typ, c, fmt)) == typ
    ensures Emit(Tail(Lex(WktText(typ, c, fmt))), false) == Print(GroupJson(c[0], fmt))
  {
    PlanarTwoD(c);
    var g := c[0];
    assert LastGroup(c) == g;
    WktTextKeyword(typ, c, fmt);
    EmitGroupWkt(typ, g, fmt, read);
  }

  lemma CoordsBody(typ: string, c: Coords, fmt: real -> string, read: string -> Option<real>)
    requires typ == "MultiPolygon" && Planar(c) && FormatsCoords(fmt, read, c)
    ensures TwoD(c)
    ensures WktType(WktText(typ, c, fmt)) == typ
    ensures Emit(Tail(Lex(WktText(typ, c, fmt))), false) == Print(CoordsJson(c, fmt))
  {
    PlanarTwoD(c);
    WktTextKeyword(typ, c, fmt);
    EmitCoordsWkt(typ, c, fmt, read);
  }

  /** The WKT of each type reads back as the type and, once wrapped, as the JSON of all coordinates. */
  lemma WktBody(typ: string, c: Coords, fmt: real -> string, read: string -> Option<real>)
    requires IsTypeName(typ) && Canonical(typ, c) && Planar(c) && FormatsCoords(fmt, read, c)
    ensures TwoD(c) && (typ == "Point" ==> |LastRing(c)| > 0)
    ensures WktType(WktText(typ, c, fmt)) == typ
    ensures Wrap(typ, Emit(Tail(Lex(WktText(typ, c, fmt))), false)) == Print(CoordsJson(c, fmt))
  {
    if typ == "Point" {
      PointBody(typ, c, fmt, read);
    } else if typ == "LineString" || typ == "MultiPoint" {
      RingBody(typ, c, fmt, read);
    } else if typ == "Polygon" || typ == "MultiLineString" {
      GroupBody(typ, c, fmt, read);
    } else {
      CoordsBody(typ, c, fmt, read);
    }
    WrapLevels(typ, c, fmt);
  }

  /**
   * ToWKT then FromWKT gives back the type and the coordinates, for every
   * type with the coordinates it writes in full and points of exactly two
   * ordinates, whenever fmt writes each number as a plain word that read
   * reads back.
   */
  lemma WktRoundTrip(typ: string, c: Coords, fmt: real -> string, read: string -> Option<real>)
    requires IsTypeName(typ) && Canonical(typ, c) && Planar(c) && FormatsCoords(fmt, read, c)
    ensures TwoD(c) && (typ == "Point" ==> |LastRing(c)| > 0)
    ensures WktType(WktText(typ, c, fmt)) == typ
    ensures Decode(WktText(typ, c, fmt), read) == Some(c)
  {
    WktBody(typ, c, fmt, read);
    FormatsWrite(fmt, read, c);
    ReadCoordsJson(c, fmt, read);
  }

  /** A formatter for the ordinates 1 and 2, writing them as "1" and "2". */
  function ExampleFmt(x: real): string
  {
    if x == 1.0 then "1" else "2"
  }

  /** The reader that turns "1" and "2" back into 1 and 2 and rejects every other text. */
  function ExampleRead(t: string): Option<real>
  {
    if t == "1" then Some(1.0) else if t == "2" then Some(2.0) else None
  }

  /** The point (1, 2) meets the round trip's requirements under ExampleFmt and ExampleRead. */
  lemma ExampleFormats()
    ensures var c: Coords := [[[[1.0, 2.0]]]];
      && TwoD(c) && Planar(c) && Canonical("Point", c)
      && FormatsCoords(ExampleFmt, ExampleRead, c)
  {
    var p: Point := [1.0, 2.0];
    assert Formats(ExampleFmt, ExampleRead, p[0]) && Formats(ExampleFmt, ExampleRead, p[1]) by {
      assert ExampleFmt(1.0) == "1" && ExampleFmt(2.0) == "2";
      assert IsPlain("1") && IsNumText("1") && IsPlain("2") && IsNumText("2");
    }
    assert FormatsPoint(ExampleFmt, ExampleRead, p);
  }

  /** ToWKT writes the point (1, 2) as "POINT (1 2)". */
  lemma ExamplePointText()
    ensures var c: Coords := [[[[1.0, 2.0]]]];
      && |LastRing(c)| > 0
      && WktText("Point", c, ExampleFmt) == "POINT (1 2)"
  {
    var c: Coords := [[[[1.0, 2.0]]]];
    var p: Point := [1.0, 2.0];
    assert LastRing(c) == [p];
    assert PointTexts([p], ExampleFmt)[0] == "1 2";
  }

  /** The round trip's requirements can be met: the point (1, 2) is written as "POINT (1 2)" and read back. */
  lemma WktRoundTripExample()
    ensures var c: Coords := [[[[1.0, 2.0]]]];
      && WktText("Point", c, ExampleFmt) == "POINT (1 2)"
      && Decode("POINT (1 2)", ExampleRead) == Some(c)
  {
    var c: Coords := [[[[1.0, 2.0]]]];
    ExampleFormats();
    ExamplePointText();
    WktRoundTrip("Point", c, ExampleFmt, ExampleRead);
  }

  lemma FormatsWrite(fmt: real -> string, read: string -> Option<real>, c: Coords)
    requires FormatsCoords(fmt, read, c)
    ensures WritesCoords(fmt, read, c)
  {
  }

  class Geo {
    var Type: string
    var Coords: Coords

    constructor (typ: string, coords: Coords)
      ensures Type == typ && Coords == coords
    {
      Type := typ;
      Coords := coords;
    }

    /**
     * ToWKT: every point, ring and group is formatted in three nested loops;
     * points and polygon are started afresh for each ring and each group, so
     * the type switch at the end sees only the last ones.
     */
    method ToWKT(fmt: real -> string) returns (wkt: string)
      requires TwoD(Coords)
      requires Type == "Point" ==> |LastRing(Coords)| > 0
      ensures wkt == WktText(Type, Coords, fmt)
    {
      var coords := Coords;
      var points: seq<string> := [];
      var polygon: seq<string> := [];
      var multipolygon: seq<string> := [];
      for i := 0 to |coords|
        invariant TwoD(coords[..i])
        invariant multipolygon == GroupTexts(coords[..i], fmt)
        invariant polygon == RingTexts(LastGroup(coords[..i]), fmt)
        invariant points == PointTexts(LastRing(coords[..i]), fmt)
      {
        var a := coords[i];
        assert GroupTwoD(a);
        polygon, points := FormatGroup(a, points, fmt);
        multipolygon := multipolygon + ["(" + Join(polygon, ", ") + ")"];
        GroupTextsStep(coords, i, fmt);
        LastRingStep(coords[..i], a);
      }
      assert coords[..|coords|] == coords;
      if Type == "Point" {
        wkt := "POINT (" + points[0] + ")";
      } else if Type == "MultiPoint" {
        wkt := "MULTIPOINT (" + Join(points, ",") + ")";
      } else if Type == "LineString" {
        wkt := "LINESTRING (" + Join(points, ",") + ")";
      } else if Type == "MultiLineString" {
        wkt := "MULTILINESTRING (" + Join(polygon, ",") + ")";
      } else if Type == "Polygon" {
        wkt := "POLYGON (" + Join(polygon, ",") + ")";
      } else if Type == "MultiPolygon" {
        wkt := "MULTIPOLYGON (" + Join(multipolygon, ",") + ")";
      } else {
        wkt := "";
      }
    }

    /** The coordinate-system transforms: every point replaced, in place, by f of its longitude and latitude. */
    method Transform(f: (real, real) -> (real, real))
      requires TwoD(Coords)
      modifies this`Coords
      ensures Coords == MapCoords(old(Coords), f)
      ensures TwoD(Coords)
    {
      ghost var c0 := Coords;
      for i := 0 to |Coords|
        invariant |Coords| == |c0|
        invariant forall i' :: 0 <= i' < i ==> Coords[i'] == MapGroup(c0[i'], f)
        invariant forall i' :: i <= i' < |Coords| ==> Coords[i'] == c0[i']
      {
        var a := Coords[i];
        assert GroupTwoD(a);
        for j := 0 to |a|
          invariant |a| == |c0[i]|
          invariant forall j' :: 0 <= j' < j ==> a[j'] == MapRing(c0[i][j'], f)
          invariant forall j' :: j <= j' < |a| ==> a[j'] == c0[i][j']
        {
          var b := a[j];
          assert RingTwoD(b);
          for k := 0 to |b|
            invariant |b| == |c0[i][j]|
            invariant forall k' :: 0 <= k' < k ==> b[k'] == MapPoint(c0[i][j][k'], f)
            invariant forall k' :: k <= k' < |b| ==> b[k'] == c0[i][j][k']
          {
            var c := b[k];
            var xy := f(c[0], c[1]);
            b := b[k := c[0 := xy.0][1 := xy.1]];
          }
          assert b == MapRing(c0[i][j], f);
          a := a[j := b];
        }
        assert a == MapGroup(c0[i], f);
        Coords := Coords[i := a];
      }
      assert Coords == MapCoords(c0, f);
      MapCoordsPointwise(c0, f);
    }

    /** ReserveLngLat: longitude and latitude exchanged in every point. */
    method ReserveLngLat()
      requires TwoD(Coords)
      modifies this`Coords
      ensures Coords == MapCoords(old(Coords), Swap)
    {
      Transform(Swap);
    }

    /** Box: minx, miny, maxx, maxy over every point, starting from the first point. */
    method Box() returns (box: seq<real>)
      requires TwoD(Coords)
      requires |Coords| > 0 && |Coords[0]| > 0 && |Coords[0][0]| > 0
      ensures |box| == 4
      ensures Encloses(Bounds(box[0], box[1], box[2], box[3]), Flat(Coords))
      ensures Attains(Bounds(box[0], box[1], box[2], box[3]), Flat(Coords))
    {
      var bounds := BoundsOf(Coords);
      box := [bounds.minx, bounds.miny, bounds.maxx, bounds.maxy];
    }

    /** GeoJSON: the type and the JSON of the coordinates the type uses, inside quotes. */
    function GeoJSON(num: real -> string): (s: string)
      reads this
      requires Type == "Point" || Type == "LineString" || Type == "MultiPoint" ==> |Coords| > 0 && |Coords[0]| > 0
      requires Type == "Polygon" || Type == "MultiLineString" ==> |Coords| > 0
      ensures s == Envelope(Type, CoordinatesJSON(Type, Coords, num))
      ensures !IsTypeName(Type) ==> s == Envelope(Type, "")
    {
      Envelope(Type, CoordinatesJSON(Type, Coords, num))
    }
  }

  /** ToWKT writes only the last ring of a LineString: the rings before it are dropped. */
  lemma WktKeepsLastRing(r1: Ring, r2: Ring, fmt: real -> string)
    requires RingTwoD(r1) && RingTwoD(r2)
    ensures TwoD([[r1, r2]]) && TwoD([[r2]])
    ensures WktText("LineString", [[r1, r2]], fmt) == WktText("LineString", [[r2]], fmt)
  {
    assert LastRing([[r1, r2]]) == r2;
    assert LastRing([[r2]]) == r2;
  }

  /** An unknown type is written as no WKT at all. */
  lemma WktUnknownType(typ: string, c: Coords, fmt: real -> string)
    requires TwoD(c) && !IsTypeName(typ)
    ensures WktText(typ, c, fmt) == ""
  {
  }

  /**
   * GeoJSON writes the coordinates of the levels each type uses as JSON
   * that reads back as those coordinates; an unknown type gets none.
   */
  lemma GeoJSONReadsBack(g: Geo, num: real -> string, read: string -> Option<real>)
    requires g.Type == "Point" || g.Type == "LineString" || g.Type == "MultiPoint" ==>
      |g.Coords| > 0 && |g.Coords[0]| > 0 && WritesRing(num, read, g.Coords[0][0])
    requires g.Type == "Polygon" || g.Type == "MultiLineString" ==>
      |g.Coords| > 0 && WritesGroup(num, read, g.Coords[0])
    requires g.Type == "MultiPolygon" ==> WritesCoords(num, read, g.Coords)
    ensures g.GeoJSON(num) == Envelope(g.Type, CoordinatesJSON(g.Type, g.Coords, num))
    ensures g.Type == "Point" || g.Type == "LineString" || g.Type == "MultiPoint" ==>
      && Parse(CoordinatesJSON(g.Type, g.Coords, num)) == Some(RingJson(g.Coords[0][0], num))
      && ReadRing(RingJson(g.Coords[0][0], num), read) == Some(g.Coords[0][0])
    ensures g.Type == "Polygon" || g.Type == "MultiLineString" ==>
      && Parse(CoordinatesJSON(g.Type, g.Coords, num)) == Some(GroupJson(g.Coords[0], num))
      && ReadGroup(GroupJson(g.Coords[0], num), read) == Some(g.Coords[0])
    ensures g.Type == "MultiPolygon" ==> Unmarshal(CoordinatesJSON(g.Type, g.Coords, num), read) == Some(g.Coords)
    ensures !IsTypeName(g.Type) ==> g.GeoJSON(num) == Envelope(g.Type, "")
  {
    var c := g.Coords;
    if g.Type == "Point" || g.Type == "LineString" || g.Type == "MultiPoint" {
      ReadRingJson(c[0][0], num, read);
      ParseOfPrint(RingJson(c[0][0], num));
    } else if g.Type == "Polygon" || g.Type == "MultiLineString" {
      ReadGroupJson(c[0], num, read);
      ParseOfPrint(GroupJson(c[0], num));
    } else if g.Type == "MultiPolygon" {
      ReadCoordsJson(c, num, read);
    }
  }

  /** The point (1, 2) as GeoJSON: its one ring is written as [[1,2]] and reads back as that ring. */
  lemma GeoJSONExample(g: Geo)
    requires g.Type == "Point" && g.Coords == [[[[1.0, 2.0]]]]
    ensures g.GeoJSON(ExampleFmt) == "{\"type\":\"Point\",\"coordinates\":\"[[1,2]]\"}"
    ensures Parse("[[1,2]]") == Some(RingJson(g.Coords[0][0], ExampleFmt))
    ensures ReadRing(RingJson(g.Coords[0][0], ExampleFmt), ExampleRead) == Some([[1.0, 2.0]])
  {
    var r: Ring := [[1.0, 2.0]];
    assert g.Coords[0][0] == r;
    assert Writes(ExampleFmt, ExampleRead, 1.0) && Writes(ExampleFmt, ExampleRead, 2.0) by {
      assert ExampleFmt(1.0) == "1" && ExampleFmt(2.0) == "2";
      assert IsNumText("1") && IsNumText("2");
    }
    assert WritesPoint(ExampleFmt, ExampleRead, r[0]);
    GeoJSONReadsBack(g, ExampleFmt, ExampleRead);
    assert Print(RingJson(r, ExampleFmt)) == "[[1,2]]" by {
      assert RingJson(r, ExampleFmt) == Arr([PointJson(r[0], ExampleFmt)]);
      PrintSingle(PointJson(r[0], ExampleFmt));
      assert PointJson(r[0], ExampleFmt) == Arr([Num("1"), Num("2")]);
      PrintPair("1", "2");
    }
    assert g.GeoJSON(ExampleFmt) == Envelope("Point", "[[1,2]]");
    EnvelopeExample();
  }

  lemma EnvelopeExample()
    ensures Envelope("Point", "[[1,2]]") == "{\"type\":\"Point\",\"coordinates\":\"[[1,2]]\"}"
  {
  }

  /** Two plain words separated by a space are those two words. */
  lemma LexPair(x: string, y: string)
    requires IsPlain(x) && IsPlain(y)
    ensures Lex(x + " " + y) == [x, y]
  {
    var t := " " + y;
    assert Lex(t) == [y] by {
      LexSpace();
      LexAppend(" ", y);
      LexPlain(y);
    }
    assert x + " " + y == x + t && IsBreak(t[0]);
    LexAppend(x, t);
    LexPlain(x);
  }

  /** Two number words become the JSON pair [x,y]. */
  lemma EmitLexPair(x: string, y: string)
    requires IsPlain(x) && IsPlain(y) && IsNumText(x) && IsNumText(y)
    ensures Emit(Lex(x + " " + y), false) == Print(Arr([Num(x), Num(y)]))
    ensures Print(Arr([Num(x), Num(y)])) == "[" + x + "," + y + "]"
  {
    LexPair(x, y);
    NumNotPunct(x);
    NumNotPunct(y);
    EmitPair(x, y, []);
    assert [x, y] + [] == [x, y];
    PrintPair(x, y);
  }

  /** "POINT (x y)" is read as the type Point and the JSON text [[[[x,y]]]]. */
  lemma PointExample(x: string, y: string)
    requires IsPlain(x) && IsPlain(y) && IsNumText(x) && IsNumText(y)
    ensures WktType("POINT (" + x + " " + y + ")") == "Point"
    ensures Wrap("Point", Emit(Tail(Lex("POINT (" + x + " " + y + ")")), false)) == "[[[[" + x + "," + y + "]]]]"
  {
    var pair := Arr([Num(x), Num(y)]);
    var kw := Keyword("Point");
    var w := "POINT (" + x + " " + y + ")";
    EmitLexPair(x, y);
    assert w == kw + " (" + Join([x + " " + y], ",") + ")" by {
      PointKeyword(x + " " + y);
    }
    assert IsPlain(kw) && TypeName(kw) == "Point" by {
      KeywordPlain("Point");
      TypeNameOfKeyword("Point");
    }
    EmitLexTop(kw, [x + " " + y], [pair]);
    PrintSingle(pair);
    PointBrackets("[" + x + "," + y + "]", x, y);
  }

  lemma PointKeyword(xy: string)
    ensures "POINT (" + xy + ")" == Keyword("Point") + " (" + Join([xy], ",") + ")"
  {
    assert Keyword("Point") + " (" == "POINT (";
  }

  lemma PointBrackets(pair: string, x: string, y: string)
    requires pair == "[" + x + "," + y + "]"
    ensures Wrap("Point", "[" + pair + "]") == "[[[[" + x + "," + y + "]]]]"
  {
    assert "[[" + ("[" + pair + "]") + "]]" == "[[[[" + x + "," + y + "]]]]";
  }

  /** A Geo written by ToWKT and read by FromWKT comes back with the same type and coordinates. */
  method ToWKTFromWKT(g: Geo, fmt: real -> string, read: string -> Option<real>) returns (h: Geo, ok: bool)
    requires IsTypeName(g.Type) && Canonical(g.Type, g.Coords) && Planar(g.Coords) && FormatsCoords(fmt, read, g.Coords)
    ensures ok && h.Type == g.Type && h.Coords == g.Coords
  {
    WktRoundTrip(g.Type, g.Coords, fmt, read);
    var wkt := g.ToWKT(fmt);
    h, ok := FromWKT(wkt, read);
  }
}
