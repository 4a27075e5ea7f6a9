/** The scan checkChunkLoading (WorldLoader.cs) runs: a triple loop over the
    offsets of a cube of radius r around a centre, x outermost, then y, then
    z, each ascending from -r to r, keeping the positions a selection test
    accepts.  createExplosion (World.cs) reuses the cube test InCube. */
module CubeScan {
  import opened Vectors

  /** The accepted positions of row (x, y), with z offsets in [-r, zEnd). */
  function Row(center: Coord, r: int, sel: Coord -> bool, x: int, y: int, zEnd: int): seq<Coord>
    decreases zEnd + r
  {
    if zEnd <= -r then []
    else
      var c := Plus(center, Coord(x, y, zEnd - 1));
      Row(center, r, sel, x, y, zEnd - 1) + (if sel(c) then [c] else [])
  }

  /** The accepted positions of plane x, with y offsets in [-r, yEnd). */
  function Plane(center: Coord, r: int, sel: Coord -> bool, x: int, yEnd: int): seq<Coord>
    decreases yEnd + r
  {
    if yEnd <= -r then []
    else Plane(center, r, sel, x, yEnd - 1) + Row(center, r, sel, x, yEnd - 1, r + 1)
  }

  /** The accepted positions with x offsets in [-r, xEnd). */
  function Cube(center: Coord, r: int, sel: Coord -> bool, xEnd: int): seq<Coord>
    decreases xEnd + r
  {
    if xEnd <= -r then []
    else Cube(center, r, sel, xEnd - 1) + Plane(center, r, sel, xEnd - 1, r + 1)
  }

  /** Regrouping an append, for loops that extend a prefix. */
  lemma AppendAssoc(a: seq<Coord>, b: seq<Coord>, c: seq<Coord>)
    ensures (a + b) + c == a + (b + c)
  {
  }

  /** Everything the triple loop collects. */
  function Scan(center: Coord, r: int, sel: Coord -> bool): seq<Coord> {
    Cube(center, r, sel, r + 1)
  }

  predicate InCube(o: Coord, r: int) {
    -r <= o.x <= r && -r <= o.y <= r && -r <= o.z <= r
  }

  /** x first, then y, then z. */
  predicate LexLess(a: Coord, b: Coord) {
    a.x < b.x || (a.x == b.x && (a.y < b.y || (a.y == b.y && a.z < b.z)))
  }

  predicate StrictlySorted(s: seq<Coord>) {
    forall i, j :: 0 <= i < j < |s| ==> LexLess(s[i], s[j])
  }

  lemma {:induction false} RowMembers(center: Coord, r: int, sel: Coord -> bool, x: int, y: int, zEnd: int, c: Coord)
    ensures c in Row(center, r, sel, x, y, zEnd) <==>
              (var o := Minus(c, center); o.x == x && o.y == y && -r <= o.z < zEnd && sel(c))
    decreases zEnd + r
  {
    if zEnd > -r {
      RowMembers(center, r, sel, x, y, zEnd - 1, c);
    }
  }

  lemma {:induction false} PlaneMembers(center: Coord, r: int, sel: Coord -> bool, x: int, yEnd: int, c: Coord)
    ensures c in Plane(center, r, sel, x, yEnd) <==>
              (var o := Minus(c, center); o.x == x && -r <= o.y < yEnd && -r <= o.z <= r && sel(c))
    decreases yEnd + r
  {
    if yEnd > -r {
      var front := Plane(center, r, sel, x, yEnd - 1);
      var row := Row(center, r, sel, x, yEnd - 1, r + 1);
      assert Plane(center, r, sel, x, yEnd) == front + row;
      PlaneMembers(center, r, sel, x, yEnd - 1, c);
      RowMembers(center, r, sel, x, yEnd - 1, r + 1, c);
      assert c in front + row <==> c in front || c in row;
    }
  }

  lemma {:induction false} CubeMembers(center: Coord, r: int, sel: Coord -> bool, xEnd: int, c: Coord)
    ensures c in Cube(center, r, sel, xEnd) <==>
              (var o := Minus(c, center); -r <= o.x < xEnd && -r <= o.y <= r && -r <= o.z <= r && sel(c))
    decreases xEnd + r
  {
    if xEnd > -r {
      var front := Cube(center, r, sel, xEnd - 1);
      var plane := Plane(center, r, sel, xEnd - 1, r + 1);
      assert Cube(center, r, sel, xEnd) == front + plane;
      CubeMembers(center, r, sel, xEnd - 1, c);
      PlaneMembers(center, r, sel, xEnd - 1, r + 1, c);
      assert c in front + plane <==> c in front || c in plane;
    }
  }

  /** The scan collects exactly the accepted positions of the cube. */
  lemma ScanMembers(center: Coord, r: int, sel: Coord -> bool, c: Coord)
    ensures c in Scan(center, r, sel) <==> InCube(Minus(c, center), r) && sel(c)
  {
    CubeMembers(center, r, sel, r + 1, c);
  }

  lemma SortedAppend(a: seq<Coord>, b: seq<Coord>)
    requires StrictlySorted(a) && StrictlySorted(b)
    requires forall u, v :: u in a && v in b ==> LexLess(u, v)
    ensures StrictlySorted(a + b)
  {
    forall i, j | 0 <= i < j < |a + b|
      ensures LexLess((a + b)[i], (a + b)[j])
    {
      if j < |a| {
        assert (a + b)[i] == a[i] && (a + b)[j] == a[j];
      } else if i >= |a| {
        assert (a + b)[i] == b[i - |a|] && (a + b)[j] == b[j - |a|];
      } else {
        assert (a + b)[i] in a && (a + b)[j] in b;
      }
    }
  }

  lemma {:induction false} RowSorted(center: Coord, r: int, sel: Coord -> bool, x: int, y: int, zEnd: int)
    ensures StrictlySorted(Row(center, r, sel, x, y, zEnd))
    decreases zEnd + r
  {
    if zEnd > -r {
      var c := Plus(center, Coord(x, y, zEnd - 1));
      var front := Row(center, r, sel, x, y, zEnd - 1);
      var last := if sel(c) then [c] else [];
      assert Row(center, r, sel, x, y, zEnd) == front + last;
      RowSorted(center, r, sel, x, y, zEnd - 1);
      forall u, v | u in front && v in last
        ensures LexLess(u, v)
      {
        RowMembers(center, r, sel, x, y, zEnd - 1, u);
      }
      SortedAppend(front, last);
    }
  }

  lemma {:induction false} PlaneSorted(center: Coord, r: int, sel: Coord -> bool, x: int, yEnd: int)
    ensures StrictlySorted(Plane(center, r, sel, x, yEnd))
    decreases yEnd + r
  {
    if yEnd > -r {
      var front := Plane(center, r, sel, x, yEnd - 1);
      var row := Row(center, r, sel, x, yEnd - 1, r + 1);
      assert Plane(center, r, sel, x, yEnd) == front + row;
      PlaneSorted(center, r, sel, x, yEnd - 1);
      RowSorted(center, r, sel, x, yEnd - 1, r + 1);
      forall u, v | u in front && v in row
        ensures LexLess(u, v)
      {
        PlaneMembers(center, r, sel, x, yEnd - 1, u);
        RowMembers(center, r, sel, x, yEnd - 1, r + 1, v);
      }
      SortedAppend(front, row);
    }
  }

  lemma {:induction false} CubeSorted(center: Coord, r: int, sel: Coord -> bool, xEnd: int)
    ensures StrictlySorted(Cube(center, r, sel, xEnd))
    decreases xEnd + r
  {
    if xEnd > -r {
      var front := Cube(center, r, sel, xEnd - 1);
      var plane := Plane(center, r, sel, xEnd - 1, r + 1);
      assert Cube(center, r, sel, xEnd) == front + plane;
      CubeSorted(center, r, sel, xEnd - 1);
      PlaneSorted(center, r, sel, xEnd - 1, r + 1);
      CubeBeforePlane(center, r, sel, xEnd - 1);
      SortedAppend(front, plane);
    }
  }

  /** Every position of the planes before x comes before every position of
      plane x. */
  lemma CubeBeforePlane(center: Coord, r: int, sel: Coord -> bool, x: int)
    ensures forall u, v :: u in Cube(center, r, sel, x) && v in Plane(center, r, sel, x, r + 1) ==> LexLess(u, v)
  {
    forall u, v | u in Cube(center, r, sel, x) && v in Plane(center, r, sel, x, r + 1)
      ensures LexLess(u, v)
    {
      CubeMembers(center, r, sel, x, u);
      PlaneMembers(center, r, sel, x, r + 1, v);
    }
  }

  /** The scan is ordered x, then y, then z, ascending, so it holds no
      position twice. */
  lemma ScanOrdered(center: Coord, r: int, sel: Coord -> bool)
    ensures StrictlySorted(Scan(center, r, sel))
    ensures forall i, j :: 0 <= i < j < |Scan(center, r, sel)| ==> Scan(center, r, sel)[i] != Scan(center, r, sel)[j]
  {
    CubeSorted(center, r, sel, r + 1);
  }
}
