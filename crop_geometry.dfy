/**
 * The crop rectangle of the cropper service (contrainer_utils/contrainer_utils.py):
 * the distinct x values and the distinct y values of a face polygon are collected into
 * sets, each set is sorted ascending, and the first two entries of each are taken as
 * (left, right) and (top, bottom).
 */
module CropGeometry {
  import opened Wrappers

  /** A polygon vertex as the vision API reports it, with integer coordinates. */
  datatype Vertex = Vertex(x: int, y: int)

  /** A crop box in the order PIL's `crop` takes it: (left, top, right, bottom). */
  datatype Rect = Rect(left: int, top: int, right: int, bottom: int)

  /** The only exception the rectangle rule raises: indexing a sorted list that is too short. */
  datatype CropError = IndexError

  function Xs(face: seq<Vertex>): (r: seq<int>)
    ensures |r| == |face| && forall i :: 0 <= i < |face| ==> r[i] == face[i].x
  {
    seq(|face|, i requires 0 <= i < |face| => face[i].x)
  }

  function Ys(face: seq<Vertex>): (r: seq<int>)
    ensures |r| == |face| && forall i :: 0 <= i < |face| ==> r[i] == face[i].y
  {
    seq(|face|, i requires 0 <= i < |face| => face[i].y)
  }

  /** The set a Python `set()` holds after `.add` of every coordinate in `cs`. */
  function Distinct(cs: seq<int>): (s: set<int>)
    ensures forall c :: c in s <==> c in cs
  {
    set c | c in cs
  }

  predicate StrictlyIncreasing(r: seq<int>) {
    forall i, j :: 0 <= i < j < |r| ==> r[i] < r[j]
  }

  /** `m` belongs to `s` and is at most every element of `s`. */
  predicate IsLeast(m: int, s: set<int>) {
    m in s && forall v :: v in s ==> m <= v
  }

  /** An element of a non-empty set. */
  ghost function AnyElement(s: set<int>): (x: int)
    requires s != {}
    ensures x in s
  {
    HasElement(s);
    var x :| x in s; x
  }

  /** A set other than the empty set has a member. */
  lemma HasElement(s: set<int>)
    requires s != {}
    ensures exists x :: x in s
  {
    if forall x :: x !in s {
      assert false;
    }
  }

  /** Every non-empty set of integers has a least element. */
  lemma {:induction false} LeastExists(s: set<int>)
    requires s != {}
    ensures exists m :: IsLeast(m, s)
    decreases |s|
  {
    var x := AnyElement(s);
    var rest := s - {x};
    if rest == {} {
      assert s == {x};
      assert IsLeast(x, s);
    } else {
      LeastExists(rest);
      var m :| IsLeast(m, rest);
      var least := if x <= m then x else m;
      forall v | v in s ensures least <= v {
        if v != x {
          assert v in rest;
        }
      }
      assert IsLeast(least, s);
    }
  }

  /** The least element of a non-empty set. */
  function Least(s: set<int>): (m: int)
    requires s != {}
    ensures IsLeast(m, s)
  {
    LeastExists(s);
    var m :| IsLeast(m, s);
    m
  }
  /** Python's `sorted(s)` for a set of integers: the least element, then the rest sorted. */
  function SortedElements(s: set<int>): (r: seq<int>)
    ensures |r| == |s|
    decreases |s|
  {
    if s == {} then []
    else
      var m := Least(s);
      [m] + SortedElements(s - {m})
  }

  /** `sorted(s)` holds every element of `s` and nothing else. */
  lemma {:induction false} SortedElementsMembers(s: set<int>)
    ensures forall v :: v in SortedElements(s) <==> v in s
    decreases |s|
  {
    if s != {} {
      var m := Least(s);
      var rest := s - {m};
      SortedElementsMembers(rest);
      assert SortedElements(s) == [m] + SortedElements(rest);
    }
  }

  /** `sorted(s)` is strictly increasing, so each element occurs once. */
  lemma {:induction false} SortedElementsIncreasing(s: set<int>)
    ensures StrictlyIncreasing(SortedElements(s))
    decreases |s|
  {
    if s != {} {
      var m := Least(s);
      var rest := s - {m};
      SortedElementsIncreasing(rest);
      SortedElementsMembers(rest);
      var r, t := SortedElements(s), SortedElements(rest);
      assert r == [m] + t;
      forall i, j | 0 <= i < j < |r| ensures r[i] < r[j] {
        if i == 0 {
          assert r[j] == t[j - 1] && t[j - 1] in rest;
        } else {
          assert r[i] == t[i - 1] && r[j] == t[j - 1];
        }
      }
    }
  }

  /** Both properties of `sorted(s)` together. */
  lemma SortedElementsSpec(s: set<int>)
    ensures forall v :: v in SortedElements(s) <==> v in s
    ensures StrictlyIncreasing(SortedElements(s))
  {
    SortedElementsMembers(s);
    SortedElementsIncreasing(s);
  }

  /**
   * `left, right = sorted_x[0], sorted_x[1]` then `top, bottom = sorted_y[0], sorted_y[1]`:
   * an index past the end of either list raises IndexError.
   */
  function SelectCorners(sortedX: seq<int>, sortedY: seq<int>): (r: Result<Rect, CropError>)
    ensures r.Ok? <==> |sortedX| >= 2 && |sortedY| >= 2
    ensures r.Ok? ==> r.value == Rect(sortedX[0], sortedY[0], sortedX[1], sortedY[1])
  {
    if |sortedX| < 2 || |sortedY| < 2 then Err(IndexError)
    else Ok(Rect(sortedX[0], sortedY[0], sortedX[1], sortedY[1]))
  }

  /** The rectangle the cropper computes for a face polygon (the specification of the loop below). */
  function CropRectangle(face: seq<Vertex>): Result<Rect, CropError>
  {
    SelectCorners(SortedElements(Distinct(Xs(face))), SortedElements(Distinct(Ys(face))))
  }

  /**
   * The loop that fills the sets `x` and `y` vertex by vertex, followed by the sort and the
   * four index operations.
   */
  method ComputeCropRectangle(face: seq<Vertex>) returns (r: Result<Rect, CropError>)
    ensures r == CropRectangle(face)
  {
    var x: set<int> := {};
    var y: set<int> := {};
    for k := 0 to |face|
      invariant x == Distinct(Xs(face[..k]))
      invariant y == Distinct(Ys(face[..k]))
    {
      assert Xs(face[..k + 1]) == Xs(face[..k]) + [face[k].x];
      assert Ys(face[..k + 1]) == Ys(face[..k]) + [face[k].y];
      x := x + {face[k].x};
      y := y + {face[k].y};
    }
    assert face[..|face|] == face;
    var sortedX := SortedElements(x);
    var sortedY := SortedElements(y);
    r := SelectCorners(sortedX, sortedY);
  }

  // ---------------------------------------------------------------------------------
  // What the rule computes, stated per axis.

  /** The first entry of a sorted set is its least element. */
  lemma SortedFirstIsLeast(s: set<int>)
    requires |s| >= 1
    ensures SortedElements(s)[0] in s
    ensures forall v :: v in s ==> SortedElements(s)[0] <= v
  {
    SortedElementsSpec(s);
    var r := SortedElements(s);
    forall v | v in s ensures r[0] <= v {
      var k :| 0 <= k < |r| && r[k] == v;
      assert k == 0 || r[0] < r[k];
    }
  }

  /** The second entry of a sorted set is the next element: nothing of the set lies strictly between. */
  lemma SortedSecondIsNext(s: set<int>)
    requires |s| >= 2
    ensures SortedElements(s)[1] in s
    ensures SortedElements(s)[0] < SortedElements(s)[1]
    ensures forall v :: v in s ==> v <= SortedElements(s)[0] || SortedElements(s)[1] <= v
  {
    SortedElementsSpec(s);
    var r := SortedElements(s);
    forall v | v in s ensures v <= r[0] || r[1] <= v {
      var k :| 0 <= k < |r| && r[k] == v;
      assert k == 0 || k == 1 || r[1] < r[k];
    }
  }

  /** With exactly two distinct values, the second entry is the greatest. */
  lemma SortedSecondOfTwoIsGreatest(s: set<int>)
    requires |s| == 2
    ensures forall v :: v in s ==> v <= SortedElements(s)[1]
  {
    SortedElementsSpec(s);
    var r := SortedElements(s);
    forall v | v in s ensures v <= r[1] {
      var k :| 0 <= k < |r| && r[k] == v;
      assert k == 0 || k == 1;
    }
  }

  /** With three or more distinct values, some value lies above the second entry. */
  lemma SortedSecondOfMoreIsNotGreatest(s: set<int>)
    requires |s| >= 3
    ensures exists v :: v in s && SortedElements(s)[1] < v
  {
    SortedElementsSpec(s);
    var r := SortedElements(s);
    assert r[2] in s && r[1] < r[2];
  }

  // ---------------------------------------------------------------------------------
  // Properties of the rectangle rule.

  /** The rule succeeds exactly when each axis has at least two distinct values; otherwise IndexError. */
  lemma CropSucceedsIff(face: seq<Vertex>)
    ensures CropRectangle(face).Ok? <==>
              |Distinct(Xs(face))| >= 2 && |Distinct(Ys(face))| >= 2
    ensures CropRectangle(face).Err? ==> CropRectangle(face).error == IndexError
  {
  }

  /** Fewer than two distinct x values (in particular an empty polygon) makes the rule raise. */
  lemma {:induction false} SingleColumnFails(face: seq<Vertex>, c: int)
    requires forall i :: 0 <= i < |face| ==> face[i].x == c
    ensures CropRectangle(face) == Err(IndexError)
  {
    var xs := Distinct(Xs(face));
    assert xs <= {c} by {
      forall v | v in xs ensures v == c {
        var i :| 0 <= i < |face| && Xs(face)[i] == v;
      }
    }
    assert |xs| <= 1 by {
      if xs == {} {} else { assert xs == {c}; }
    }
  }

  /** `left` and `top` are the minima of the x and y coordinates over all vertices. */
  lemma LeftTopAreMinima(face: seq<Vertex>)
    requires CropRectangle(face).Ok?
    ensures var r := CropRectangle(face).value;
      && (forall v :: v in face ==> r.left <= v.x && r.top <= v.y)
      && (exists v :: v in face && v.x == r.left)
      && (exists v :: v in face && v.y == r.top)
  {
    var r := CropRectangle(face).value;
    var xs, ys := Distinct(Xs(face)), Distinct(Ys(face));
    SortedFirstIsLeast(xs);
    SortedFirstIsLeast(ys);
    forall v | v in face ensures r.left <= v.x && r.top <= v.y {
      var i :| 0 <= i < |face| && face[i] == v;
      assert Xs(face)[i] in xs && Ys(face)[i] in ys;
    }
    var i :| 0 <= i < |face| && Xs(face)[i] == r.left;
    assert face[i] in face && face[i].x == r.left;
    var j :| 0 <= j < |face| && Ys(face)[j] == r.top;
    assert face[j] in face && face[j].y == r.top;
  }

  /**
   * `right` and `bottom` are the second-smallest distinct x and y: strictly above `left`
   * and `top`, attained by some vertex, and no vertex coordinate lies strictly between.
   */
  lemma RightBottomAreSecondSmallest(face: seq<Vertex>)
    requires CropRectangle(face).Ok?
    ensures var r := CropRectangle(face).value;
      && r.left < r.right && r.top < r.bottom
      && (exists v :: v in face && v.x == r.right)
      && (exists v :: v in face && v.y == r.bottom)
      && (forall v :: v in face ==> !(r.left < v.x < r.right) && !(r.top < v.y < r.bottom))
  {
    var r := CropRectangle(face).value;
    var xs, ys := Distinct(Xs(face)), Distinct(Ys(face));
    SortedSecondIsNext(xs);
    SortedSecondIsNext(ys);
    forall v | v in face ensures !(r.left < v.x < r.right) && !(r.top < v.y < r.bottom) {
      var i :| 0 <= i < |face| && face[i] == v;
      assert Xs(face)[i] in xs && Ys(face)[i] in ys;
    }
    var i :| 0 <= i < |face| && Xs(face)[i] == r.right;
    assert face[i] in face && face[i].x == r.right;
    var j :| 0 <= j < |face| && Ys(face)[j] == r.bottom;
    assert face[j] in face && face[j].y == r.bottom;
  }

  // ---------------------------------------------------------------------------------
  // The true bounding box, as an independent reference.

  function MinOf(cs: seq<int>): (m: int)
    requires |cs| >= 1
    ensures m in cs && forall i :: 0 <= i < |cs| ==> m <= cs[i]
  {
    if |cs| == 1 then cs[0]
    else var rest := MinOf(cs[1..]); if cs[0] <= rest then cs[0] else rest
  }

  function MaxOf(cs: seq<int>): (m: int)
    requires |cs| >= 1
    ensures m in cs && forall i :: 0 <= i < |cs| ==> cs[i] <= m
  {
    if |cs| == 1 then cs[0]
    else var rest := MaxOf(cs[1..]); if cs[0] >= rest then cs[0] else rest
  }

  /** The smallest axis-aligned box containing every vertex. */
  function BoundingBox(face: seq<Vertex>): Rect
    requires |face| >= 1
  {
    Rect(MinOf(Xs(face)), MinOf(Ys(face)), MaxOf(Xs(face)), MaxOf(Ys(face)))
  }

  /**
   * For a polygon with exactly two distinct x values and exactly two distinct y values
   * (an axis-aligned rectangle), the crop is the true bounding box.
   */
  lemma TwoValuesPerAxisGiveBoundingBox(face: seq<Vertex>)
    requires |Distinct(Xs(face))| == 2 && |Distinct(Ys(face))| == 2
    ensures |face| >= 1 && CropRectangle(face) == Ok(BoundingBox(face))
  {
    var xs, ys := Distinct(Xs(face)), Distinct(Ys(face));
    var c :| c in xs;
    var k :| 0 <= k < |face| && Xs(face)[k] == c;
    SortedFirstIsLeast(xs);
    SortedFirstIsLeast(ys);
    SortedSecondOfTwoIsGreatest(xs);
    SortedSecondOfTwoIsGreatest(ys);
    SortedSecondIsNext(xs);
    SortedSecondIsNext(ys);
    var sx, sy := SortedElements(xs), SortedElements(ys);
    var minX, minY, maxX, maxY := MinOf(Xs(face)), MinOf(Ys(face)), MaxOf(Xs(face)), MaxOf(Ys(face));
    assert minX == sx[0] by {
      var i :| 0 <= i < |face| && Xs(face)[i] == sx[0];
    }
    assert minY == sy[0] by {
      var i :| 0 <= i < |face| && Ys(face)[i] == sy[0];
    }
    assert maxX == sx[1] by {
      var i :| 0 <= i < |face| && Xs(face)[i] == sx[1];
    }
    assert maxY == sy[1] by {
      var i :| 0 <= i < |face| && Ys(face)[i] == sy[1];
    }
  }

  /**
   * Conversely, for a polygon the rule accepts, the crop is the bounding box only when each
   * axis has exactly two distinct values: a third x (or y) value is cut off.
   */
  lemma CropIsBoundingBoxOnlyForTwoValues(face: seq<Vertex>)
    requires CropRectangle(face).Ok?
    ensures |face| >= 1
    ensures CropRectangle(face) == Ok(BoundingBox(face)) <==>
              |Distinct(Xs(face))| == 2 && |Distinct(Ys(face))| == 2
  {
    var xs, ys := Distinct(Xs(face)), Distinct(Ys(face));
    var c :| c in xs;
    var k :| 0 <= k < |face| && Xs(face)[k] == c;
    if |xs| == 2 && |ys| == 2 {
      TwoValuesPerAxisGiveBoundingBox(face);
    } else if |xs| >= 3 {
      SortedSecondOfMoreIsNotGreatest(xs);
      var v :| v in xs && SortedElements(xs)[1] < v;
      var i :| 0 <= i < |face| && Xs(face)[i] == v;
      assert CropRectangle(face).value.right < MaxOf(Xs(face));
    } else {
      SortedSecondOfMoreIsNotGreatest(ys);
      var v :| v in ys && SortedElements(ys)[1] < v;
      var i :| 0 <= i < |face| && Ys(face)[i] == v;
      assert CropRectangle(face).value.bottom < MaxOf(Ys(face));
    }
  }

  /**
   * The rule sees only which vertices occur: reordering or repeating vertices does not
   * change the rectangle (or the failure).
   */
  lemma OrderAndRepetitionIrrelevant(f: seq<Vertex>, g: seq<Vertex>)
    requires forall v :: v in f <==> v in g
    ensures CropRectangle(f) == CropRectangle(g)
  {
    assert Distinct(Xs(f)) == Distinct(Xs(g)) by {
      forall c | c in Distinct(Xs(f)) ensures c in Distinct(Xs(g)) {
        var i :| 0 <= i < |f| && Xs(f)[i] == c;
        assert f[i] in g;
        var j :| 0 <= j < |g| && g[j] == f[i];
        assert Xs(g)[j] == c;
      }
      forall c | c in Distinct(Xs(g)) ensures c in Distinct(Xs(f)) {
        var i :| 0 <= i < |g| && Xs(g)[i] == c;
        assert g[i] in f;
        var j :| 0 <= j < |f| && f[j] == g[i];
        assert Xs(f)[j] == c;
      }
    }
    assert Distinct(Ys(f)) == Distinct(Ys(g)) by {
      forall c | c in Distinct(Ys(f)) ensures c in Distinct(Ys(g)) {
        var i :| 0 <= i < |f| && Ys(f)[i] == c;
        assert f[i] in g;
        var j :| 0 <= j < |g| && g[j] == f[i];
        assert Ys(g)[j] == c;
      }
      forall c | c in Distinct(Ys(g)) ensures c in Distinct(Ys(f)) {
        var i :| 0 <= i < |g| && Ys(g)[i] == c;
        assert g[i] in f;
        var j :| 0 <= j < |f| && f[j] == g[i];
        assert Ys(f)[j] == c;
      }
    }
  }
}
