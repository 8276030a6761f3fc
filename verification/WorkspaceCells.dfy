/** Which solid the tetrahedra of the reachable workspace fill
    (`localmap_core/reachable_workspace.py`). */
module WorkspaceCells {
  import opened Geometry
  import opened Workspace
  import opened Wrappers

  /** The point at `(u, v, w)` of the skewed box with corner `c` and edges `a`, `b`, `d`. */
  function Reach(c: Vec, a: Vec, b: Vec, d: Vec, u: real, v: real, w: real): Vec {
    Vec(c.x + Mix3(Vec(u, v, w), a.x, b.x, d.x),
        c.y + Mix3(Vec(u, v, w), a.y, b.y, d.y),
        c.z + Mix3(Vec(u, v, w), a.z, b.z, d.z))
  }

  predicate InUnit(t: real) { 0.0 <= t <= 1.0 }

  /** The solid box. */
  ghost predicate InSkewedBox(p: Vec, c: Vec, a: Vec, b: Vec, d: Vec) {
    exists u: real, v: real, w: real ::
      InUnit(u) && InUnit(v) && InUnit(w) && p == Reach(c, a, b, d, u, v, w)
  }

  // --------------------------------------------------------------- one tetrahedron of a chain

  /** The tetrahedron that goes from corner `c` along `a`, then `b`, then `d`. */
  function ChainTetra(c: Vec, a: Vec, b: Vec, d: Vec): Tetra {
    Tetra(c, Add(c, a), Add(Add(c, a), b), Add(Add(Add(c, a), b), d))
  }

  predicate Descending(x: real, y: real, z: real) { 1.0 >= x >= y >= z >= 0.0 }

  /** The points of the box whose coordinates do not increase along the chain. */
  ghost predicate InChain(p: Vec, c: Vec, a: Vec, b: Vec, d: Vec) {
    exists x: real, y: real, z: real :: Descending(x, y, z) && p == Reach(c, a, b, d, x, y, z)
  }

  /** Barycentric weights of descending coordinates. */
  function ChainWeights(x: real, y: real, z: real): Weights { Weights(1.0 - x, x - y, y - z, z) }

  lemma ChainAxis(c: real, a: real, b: real, d: real, x: real, y: real, z: real)
    ensures
      Mix4(ChainWeights(x, y, z), c, c + a, c + a + b, c + a + b + d) == c + Mix3(Vec(x, y, z), a, b, d)
  {
    ThreeParts(x - y, c, a);
    ThreeParts(y - z, c + a, b);
    ThreeParts(z, c + a + b, d);
    ThreeParts(y - z, c, a);
    ThreeParts(z, c + a, b);
    ThreeParts(z, c, a);
    Whole(x, y, z, c);
    Whole(x, y, z, a);
    Whole(x, y, z, b);
  }

  lemma ThreeParts(k: real, a: real, b: real)
    ensures k * (a + b) == k * a + k * b
  {}

  lemma Whole(x: real, y: real, z: real, q: real)
    ensures (1.0 - x) * q + (x - y) * q + (y - z) * q + z * q == q
    ensures (x - y) * q + (y - z) * q + z * q == x * q
    ensures (y - z) * q + z * q == y * q
  {}

  lemma ChainBlend(c: Vec, a: Vec, b: Vec, d: Vec, x: real, y: real, z: real)
    ensures Blend(ChainTetra(c, a, b, d), ChainWeights(x, y, z)) == Reach(c, a, b, d, x, y, z)
  {
    ChainAxis(c.x, a.x, b.x, d.x, x, y, z);
    ChainAxis(c.y, a.y, b.y, d.y, x, y, z);
    ChainAxis(c.z, a.z, b.z, d.z, x, y, z);
  }

  /** A chain's tetrahedron holds exactly the points with descending coordinates. */
  lemma ChainIsOrdered(p: Vec, c: Vec, a: Vec, b: Vec, d: Vec)
    ensures IsBlend(p, ChainTetra(c, a, b, d), 0.0) <==> InChain(p, c, a, b, d)
  {
    if IsBlend(p, ChainTetra(c, a, b, d), 0.0) {
      var w: Weights :| Total(w) == 1.0 && WeightsOk(w, 0.0) && Blend(ChainTetra(c, a, b, d), w) == p;
      var x, y, z := w.w1 + w.w2 + w.w3, w.w2 + w.w3, w.w3;
      ChainBlend(c, a, b, d, x, y, z);
      assert ChainWeights(x, y, z) == w;
      assert Descending(x, y, z);
    }
    if InChain(p, c, a, b, d) {
      var x: real, y: real, z: real :| Descending(x, y, z) && p == Reach(c, a, b, d, x, y, z);
      ChainBlend(c, a, b, d, x, y, z);
      assert Total(ChainWeights(x, y, z)) == 1.0 && WeightsOk(ChainWeights(x, y, z), 0.0);
    }
  }

  /** The order of the inner corners does not matter to what a tetrahedron holds. */
  lemma SwappedBlend(p: Vec, t: Tetra, s: Tetra)
    requires s == Tetra(t.v0, t.v2, t.v1, t.v3)
    ensures IsBlend(p, t, 0.0) <==> IsBlend(p, s, 0.0)
  {
    if IsBlend(p, t, 0.0) {
      var w: Weights :| Total(w) == 1.0 && WeightsOk(w, 0.0) && Blend(t, w) == p;
      SwappedPoint(t, s, w, Weights(w.w0, w.w2, w.w1, w.w3));
    }
    if IsBlend(p, s, 0.0) {
      var w: Weights :| Total(w) == 1.0 && WeightsOk(w, 0.0) && Blend(s, w) == p;
      SwappedPoint(s, t, w, Weights(w.w0, w.w2, w.w1, w.w3));
    }
  }

  lemma SwappedPoint(t: Tetra, s: Tetra, w: Weights, v: Weights)
    requires s == Tetra(t.v0, t.v2, t.v1, t.v3) && v == Weights(w.w0, w.w2, w.w1, w.w3)
    ensures Blend(s, v) == Blend(t, w)
  {}

  // ------------------------------------------------------------------- the six of a cell

  datatype Box = Box(c: Vec, a: Vec, b: Vec, d: Vec)

  /** The corners of a cell are those of a skewed box, in the order of the anchors: along `a`,
      then along `b`, then from one section to the next along `d`. */
  predicate CornersAre(corners: seq<Vec>, k: Box) {
    && |corners| == 8
    && corners[0] == k.c && corners[1] == Add(k.c, k.a)
    && corners[2] == Add(k.c, k.b) && corners[3] == Add(Add(k.c, k.a), k.b)
    && corners[4] == Add(k.c, k.d) && corners[5] == Add(Add(k.c, k.a), k.d)
    && corners[6] == Add(Add(k.c, k.b), k.d) && corners[7] == Add(Add(Add(k.c, k.a), k.b), k.d)
  }

  function TetraAt(corners: seq<Vec>, i: nat): Tetra
    requires |corners| == 8 && i < |TETRA_INDICES|
  {
    var (a, b, c, d) := TETRA_INDICES[i];
    Tetra(corners[a], corners[b], corners[c], corners[d])
  }

  /** Each of the six follows one order of the edges, three of them with the inner corners
      exchanged. */
  lemma SixOrders(corners: seq<Vec>, k: Box)
    requires CornersAre(corners, k)
    ensures TetraAt(corners, 0) == ChainTetra(k.c, k.a, k.b, k.d)
    ensures TetraAt(corners, 1) == Swapped(ChainTetra(k.c, k.b, k.a, k.d))
    ensures TetraAt(corners, 2) == ChainTetra(k.c, k.b, k.d, k.a)
    ensures TetraAt(corners, 3) == Swapped(ChainTetra(k.c, k.d, k.b, k.a))
    ensures TetraAt(corners, 4) == ChainTetra(k.c, k.d, k.a, k.b)
    ensures TetraAt(corners, 5) == Swapped(ChainTetra(k.c, k.a, k.d, k.b))
  {}

  function Swapped(t: Tetra): Tetra { Tetra(t.v0, t.v2, t.v1, t.v3) }

  /** Coordinates along the edges of the box, whichever order a chain takes them in. */
  lemma SameReach(k: Box, u: real, v: real, w: real)
    ensures Reach(k.c, k.b, k.a, k.d, v, u, w) == Reach(k.c, k.a, k.b, k.d, u, v, w)
    ensures Reach(k.c, k.b, k.d, k.a, v, w, u) == Reach(k.c, k.a, k.b, k.d, u, v, w)
    ensures Reach(k.c, k.d, k.b, k.a, w, v, u) == Reach(k.c, k.a, k.b, k.d, u, v, w)
    ensures Reach(k.c, k.d, k.a, k.b, w, u, v) == Reach(k.c, k.a, k.b, k.d, u, v, w)
    ensures Reach(k.c, k.a, k.d, k.b, u, w, v) == Reach(k.c, k.a, k.b, k.d, u, v, w)
  {
    SameMix(u, v, w, k.a.x, k.b.x, k.d.x);
    SameMix(u, v, w, k.a.y, k.b.y, k.d.y);
    SameMix(u, v, w, k.a.z, k.b.z, k.d.z);
  }

  lemma SameMix(u: real, v: real, w: real, a: real, b: real, d: real)
    ensures Mix3(Vec(v, u, w), b, a, d) == Mix3(Vec(u, v, w), a, b, d)
    ensures Mix3(Vec(v, w, u), b, d, a) == Mix3(Vec(u, v, w), a, b, d)
    ensures Mix3(Vec(w, v, u), d, b, a) == Mix3(Vec(u, v, w), a, b, d)
    ensures Mix3(Vec(w, u, v), d, a, b) == Mix3(Vec(u, v, w), a, b, d)
    ensures Mix3(Vec(u, w, v), a, d, b) == Mix3(Vec(u, v, w), a, b, d)
  {}

  ghost predicate InSome(p: Vec, k: Box) {
    || InChain(p, k.c, k.a, k.b, k.d) || InChain(p, k.c, k.b, k.a, k.d) || InChain(p, k.c, k.b, k.d, k.a)
    || InChain(p, k.c, k.d, k.b, k.a) || InChain(p, k.c, k.d, k.a, k.b) || InChain(p, k.c, k.a, k.d, k.b)
  }

  /** Every point of the box has its coordinates in one of the six orders. */
  lemma BoxIsSixChains(p: Vec, k: Box)
    ensures InSkewedBox(p, k.c, k.a, k.b, k.d) <==> InSome(p, k)
  {
    if InSkewedBox(p, k.c, k.a, k.b, k.d) {
      var u: real, v: real, w: real :|
        InUnit(u) && InUnit(v) && InUnit(w) && p == Reach(k.c, k.a, k.b, k.d, u, v, w);
      SomeOrder(p, k, u, v, w);
    }
    if InSome(p, k) {
      OrderIsInBox(p, k);
    }
  }

  lemma SomeOrder(p: Vec, k: Box, u: real, v: real, w: real)
    requires InUnit(u) && InUnit(v) && InUnit(w) && p == Reach(k.c, k.a, k.b, k.d, u, v, w)
    ensures InSome(p, k)
  {
    SameReach(k, u, v, w);
    if u >= v >= w {
      InThisChain(p, k.c, k.a, k.b, k.d, u, v, w);
    } else if v >= u >= w {
      InThisChain(p, k.c, k.b, k.a, k.d, v, u, w);
    } else if v >= w >= u {
      InThisChain(p, k.c, k.b, k.d, k.a, v, w, u);
    } else if w >= v >= u {
      InThisChain(p, k.c, k.d, k.b, k.a, w, v, u);
    } else if w >= u >= v {
      InThisChain(p, k.c, k.d, k.a, k.b, w, u, v);
    } else {
      InThisChain(p, k.c, k.a, k.d, k.b, u, w, v);
    }
  }

  lemma InThisChain(p: Vec, c: Vec, a: Vec, b: Vec, d: Vec, x: real, y: real, z: real)
    requires Descending(x, y, z) && p == Reach(c, a, b, d, x, y, z)
    ensures InChain(p, c, a, b, d)
  {}

  lemma InThisBox(p: Vec, k: Box, u: real, v: real, w: real)
    requires InUnit(u) && InUnit(v) && InUnit(w) && p == Reach(k.c, k.a, k.b, k.d, u, v, w)
    ensures InSkewedBox(p, k.c, k.a, k.b, k.d)
  {}

  lemma ChainCoordinates(p: Vec, c: Vec, a: Vec, b: Vec, d: Vec) returns (x: real, y: real, z: real)
    requires InChain(p, c, a, b, d)
    ensures InUnit(x) && InUnit(y) && InUnit(z) && p == Reach(c, a, b, d, x, y, z)
  {
    x, y, z :| Descending(x, y, z) && p == Reach(c, a, b, d, x, y, z);
  }

  lemma OrderIsInBox(p: Vec, k: Box)
    requires InSome(p, k)
    ensures InSkewedBox(p, k.c, k.a, k.b, k.d)
  {
    var u, v, w;
    if InChain(p, k.c, k.a, k.b, k.d) {
      u, v, w := ChainCoordinates(p, k.c, k.a, k.b, k.d);
    } else if InChain(p, k.c, k.b, k.a, k.d) {
      v, u, w := ChainCoordinates(p, k.c, k.b, k.a, k.d);
    } else if InChain(p, k.c, k.b, k.d, k.a) {
      v, w, u := ChainCoordinates(p, k.c, k.b, k.d, k.a);
    } else if InChain(p, k.c, k.d, k.b, k.a) {
      w, v, u := ChainCoordinates(p, k.c, k.d, k.b, k.a);
    } else if InChain(p, k.c, k.d, k.a, k.b) {
      w, u, v := ChainCoordinates(p, k.c, k.d, k.a, k.b);
    } else {
      u, w, v := ChainCoordinates(p, k.c, k.a, k.d, k.b);
    }
    SameReach(k, u, v, w);
    InThisBox(p, k, u, v, w);
  }

  // ---------------------------------------------------------------------------- volumes

  lemma DetSwaps(a: Vec, b: Vec, c: Vec)
    ensures Det(b, a, c) == -Det(a, b, c)
  {}

  lemma DetAdds(a: Vec, b: Vec, c: Vec)
    ensures Det(a, Add(a, b), c) == Det(a, b, c)
  {}

  lemma DetAddsLast(a: Vec, b: Vec, c: Vec, s: Vec)
    requires s == Add(a, b)
    ensures Det(a, s, Add(s, c)) == Det(a, s, c)
  {}

  lemma ChainDet(c: Vec, a: Vec, b: Vec, d: Vec)
    ensures TetraDet(ChainTetra(c, a, b, d)) == Det(a, b, d)
    ensures TetraDet(Swapped(ChainTetra(c, a, b, d))) == -Det(a, b, d)
  {
    var t := ChainTetra(c, a, b, d);
    var s := Add(a, b);
    assert Sub(t.v1, t.v0) == a && Sub(t.v2, t.v0) == s && Sub(t.v3, t.v0) == Add(s, d);
    DetAddsLast(a, b, d, s);
    DetAdds(a, b, d);
    SwappedLast(a, s, Add(s, d));
  }

  lemma SwappedLast(a: Vec, b: Vec, c: Vec)
    ensures Det(b, a, c) == -Det(a, b, c)
  {
    DetSwaps(a, b, c);
  }

  function BoxVolume(k: Box): real { Abs(Det(k.a, k.b, k.d)) }

  lemma OrdersKeepVolume(k: Box)
    ensures Abs(Det(k.b, k.a, k.d)) == BoxVolume(k) && Abs(Det(k.b, k.d, k.a)) == BoxVolume(k)
    ensures Abs(Det(k.d, k.b, k.a)) == BoxVolume(k) && Abs(Det(k.d, k.a, k.b)) == BoxVolume(k)
    ensures Abs(Det(k.a, k.d, k.b)) == BoxVolume(k)
  {
    DetSwaps(k.a, k.b, k.d);
    DetRotates(k.a, k.b, k.d);
    DetRotates(k.b, k.d, k.a);
    DetSwaps(k.b, k.d, k.a);
    DetSwaps(k.d, k.a, k.b);
  }

  /** All six have a sixth of the volume of the box. */
  lemma SixthsOfVolume(corners: seq<Vec>, k: Box, i: nat)
    requires CornersAre(corners, k) && i < |TETRA_INDICES|
    ensures TetraVolume(TetraAt(corners, i)) == BoxVolume(k) / 6.0
  {
    SixOrders(corners, k);
    OrdersKeepVolume(k);
    ChainDet(k.c, k.a, k.b, k.d);
    ChainDet(k.c, k.b, k.a, k.d);
    ChainDet(k.c, k.b, k.d, k.a);
    ChainDet(k.c, k.d, k.b, k.a);
    ChainDet(k.c, k.d, k.a, k.b);
    ChainDet(k.c, k.a, k.d, k.b);
  }

  // ------------------------------------------------------------------ cells and workspaces

  predicate IsAt(corners: seq<Vec>, i: nat, t: Tetra)
    requires |corners| == 8
  {
    i < |TETRA_INDICES| && t == TetraAt(corners, i) && TetraVolume(t) > MINIMUM_VOLUME
  }

  lemma CellStep(sections: seq<seq<Vec>>, s: nat, m: nat, n: nat, corners: seq<Vec>, t: Tetra)
    requires s + 1 < |sections| && n == m + 1 <= |TETRA_INDICES|
    requires |sections[s]| == ANCHORS_PER_SECTION && |sections[s + 1]| == ANCHORS_PER_SECTION
    requires corners == sections[s] + sections[s + 1]
    ensures t in CellTetras(sections, s, n) <==> t in CellTetras(sections, s, m) || IsAt(corners, m, t)
  {}

  lemma {:induction false} CellHas(sections: seq<seq<Vec>>, s: nat, n: nat, corners: seq<Vec>, t: Tetra)
    requires s + 1 < |sections| && n <= |TETRA_INDICES|
    requires |sections[s]| == ANCHORS_PER_SECTION && |sections[s + 1]| == ANCHORS_PER_SECTION
    requires corners == sections[s] + sections[s + 1]
    ensures t in CellTetras(sections, s, n) <==> exists i: nat :: i < n && IsAt(corners, i, t)
  {
    if n > 0 {
      CellHas(sections, s, n - 1, corners, t);
      CellStep(sections, s, n - 1, n, corners, t);
    }
  }

  /** The tetrahedra of a cell that is a skewed box of some volume fill that box. */
  lemma CellFillsBox(sections: seq<seq<Vec>>, s: nat, k: Box, p: Vec)
    requires s + 1 < |sections|
    requires |sections[s]| == ANCHORS_PER_SECTION && |sections[s + 1]| == ANCHORS_PER_SECTION
    requires CornersAre(sections[s] + sections[s + 1], k) && BoxVolume(k) / 6.0 > MINIMUM_VOLUME
    ensures
      (exists t <- CellTetras(sections, s, |TETRA_INDICES|) :: IsBlend(p, t, 0.0))
      <==> InSkewedBox(p, k.c, k.a, k.b, k.d)
  {
    var corners := sections[s] + sections[s + 1];
    BoxIsSixChains(p, k);
    SixAreChains(corners, k, p);
    forall i | 0 <= i < 6
      ensures TetraAt(corners, i) in CellTetras(sections, s, 6)
    {
      SixthsOfVolume(corners, k, i);
      CellHas(sections, s, 6, corners, TetraAt(corners, i));
      assert IsAt(corners, i, TetraAt(corners, i));
    }
    forall t <- CellTetras(sections, s, 6)
      ensures exists i: nat :: i < 6 && IsAt(corners, i, t)
    {
      CellHas(sections, s, 6, corners, t);
    }
  }

  lemma SixAreChains(corners: seq<Vec>, k: Box, p: Vec)
    requires CornersAre(corners, k)
    ensures (exists i :: 0 <= i < 6 && IsBlend(p, TetraAt(corners, i), 0.0)) <==> InSome(p, k)
  {
    SixOrders(corners, k);
    ChainHolds(p, k.c, k.a, k.b, k.d);
    ChainHolds(p, k.c, k.b, k.a, k.d);
    ChainHolds(p, k.c, k.b, k.d, k.a);
    ChainHolds(p, k.c, k.d, k.b, k.a);
    ChainHolds(p, k.c, k.d, k.a, k.b);
    ChainHolds(p, k.c, k.a, k.d, k.b);
    SixOf(p, seq(6, i requires 0 <= i < 6 => TetraAt(corners, i)));
  }

  lemma ChainHolds(p: Vec, c: Vec, a: Vec, b: Vec, d: Vec)
    ensures IsBlend(p, ChainTetra(c, a, b, d), 0.0) <==> InChain(p, c, a, b, d)
    ensures IsBlend(p, Swapped(ChainTetra(c, a, b, d)), 0.0) <==> InChain(p, c, a, b, d)
  {
    ChainIsOrdered(p, c, a, b, d);
    SwappedBlend(p, ChainTetra(c, a, b, d), Swapped(ChainTetra(c, a, b, d)));
  }

  lemma SixOf(p: Vec, t: seq<Tetra>)
    requires |t| == 6
    ensures
      (exists i :: 0 <= i < 6 && IsBlend(p, t[i], 0.0)) <==>
      || IsBlend(p, t[0], 0.0) || IsBlend(p, t[1], 0.0) || IsBlend(p, t[2], 0.0)
      || IsBlend(p, t[3], 0.0) || IsBlend(p, t[4], 0.0) || IsBlend(p, t[5], 0.0)
  {
    SomeOfSix(seq(6, i requires 0 <= i < 6 => IsBlend(p, t[i], 0.0)));
  }

  lemma SomeOfSix(hit: seq<bool>)
    requires |hit| == 6
    ensures (exists i :: 0 <= i < 6 && hit[i]) <==> hit[0] || hit[1] || hit[2] || hit[3] || hit[4] || hit[5]
  {}

  predicate OfCell(sections: seq<seq<Vec>>, s: nat, t: Tetra) {
    && s + 1 < |sections| && |sections[s]| == ANCHORS_PER_SECTION && |sections[s + 1]| == ANCHORS_PER_SECTION
    && t in CellTetras(sections, s, |TETRA_INDICES|)
  }

  lemma TetrasStep(sections: seq<seq<Vec>>, m: nat, n: nat, t: Tetra)
    requires FullSections(sections) && n == m + 1 < |sections|
    ensures t in Tetras(sections, n) <==> t in Tetras(sections, m) || OfCell(sections, m, t)
  {
    assert sections[m] in sections && sections[n] in sections;
  }

  lemma {:induction false} TetraHasCell(sections: seq<seq<Vec>>, n: nat, t: Tetra) returns (s: nat)
    requires FullSections(sections) && (n < |sections| || n == 0) && t in Tetras(sections, n)
    ensures s < n && OfCell(sections, s, t)
  {
    TetrasStep(sections, n - 1, n, t);
    if OfCell(sections, n - 1, t) {
      s := n - 1;
    } else {
      s := TetraHasCell(sections, n - 1, t);
    }
  }

  lemma {:induction false} TetrasGrow(sections: seq<seq<Vec>>, m: nat, n: nat, t: Tetra)
    requires FullSections(sections) && m <= n < |sections| && t in Tetras(sections, m)
    ensures t in Tetras(sections, n)
    decreases n
  {
    if m < n {
      TetrasGrow(sections, m, n - 1, t);
    }
  }

  lemma CellIsKept(sections: seq<seq<Vec>>, n: nat, t: Tetra, s: nat)
    requires FullSections(sections) && s < n < |sections| && OfCell(sections, s, t)
    ensures t in Tetras(sections, n)
  {
    TetrasStep(sections, s, s + 1, t);
    TetrasGrow(sections, s + 1, n, t);
  }

  lemma {:induction false} SectionAt(anchors: seq<Vec>, s: nat)
    requires |anchors| % 4 == 0 && 4 * s + 4 <= |anchors|
    ensures s < |Sections(anchors)| && Sections(anchors)[s] == anchors[4 * s..4 * s + 4]
  {
    if s > 0 {
      SectionAt(anchors[4..], s - 1);
      assert anchors[4..][4 * (s - 1)..4 * (s - 1) + 4] == anchors[4 * s..4 * s + 4];
    }
  }

  /** The eight anchors from number `4 * s` on are the corners of box `k`. */
  predicate CellIs(anchors: seq<Vec>, s: nat, k: Box) {
    4 * s + 8 <= |anchors| && CornersAre(anchors[4 * s..4 * s + 8], k)
  }

  lemma CellOfSections(anchors: seq<Vec>, s: nat, k: Box)
    requires |anchors| % 4 == 0 && CellIs(anchors, s, k)
    ensures s + 1 < |Sections(anchors)|
    ensures CornersAre(Sections(anchors)[s] + Sections(anchors)[s + 1], k)
  {
    SectionAt(anchors, s);
    SectionAt(anchors, s + 1);
    assert anchors[4 * s..4 * s + 4] + anchors[4 * s + 4..4 * s + 8] == anchors[4 * s..4 * s + 8];
  }

  /** Anchors that are the corners of one skewed box after another, none of them flat. */
  ghost predicate AreBoxes(anchors: seq<Vec>, boxes: seq<Box>) {
    && |boxes| >= 1 && |anchors| == 4 * |boxes| + 4
    && forall s :: 0 <= s < |boxes| ==> CellIs(anchors, s, boxes[s]) && BoxVolume(boxes[s]) / 6.0 > MINIMUM_VOLUME
  }

  /** A point of one of the solid boxes. */
  ghost predicate InSomeBox(boxes: seq<Box>, p: Vec) {
    exists s: nat :: s < |boxes| && OfBox(boxes[s], p)
  }

  ghost predicate OfBox(k: Box, p: Vec) { InSkewedBox(p, k.c, k.a, k.b, k.d) }

  lemma CellOfBoxes(anchors: seq<Vec>, boxes: seq<Box>, s: nat, p: Vec)
    requires AreBoxes(anchors, boxes) && s < |boxes|
    ensures (exists t: Tetra :: OfCell(Sections(anchors), s, t) && IsBlend(p, t, 0.0)) <==> OfBox(boxes[s], p)
  {
    var sections := Sections(anchors);
    CellOfSections(anchors, s, boxes[s]);
    assert sections[s] in sections && sections[s + 1] in sections;
    CellFillsBox(sections, s, boxes[s], p);
    assert forall t: Tetra :: OfCell(sections, s, t) <==> t in CellTetras(sections, s, |TETRA_INDICES|);
  }

  lemma TetraInBox(anchors: seq<Vec>, boxes: seq<Box>, p: Vec, t: Tetra)
    requires AreBoxes(anchors, boxes) && |boxes| < |Sections(anchors)|
    requires t in Tetras(Sections(anchors), |boxes|) && IsBlend(p, t, 0.0)
    ensures InSomeBox(boxes, p)
  {
    var s := TetraHasCell(Sections(anchors), |boxes|, t);
    CellOfBoxes(anchors, boxes, s, p);
  }

  lemma BoxInTetras(anchors: seq<Vec>, boxes: seq<Box>, p: Vec, s: nat)
    requires AreBoxes(anchors, boxes) && |boxes| < |Sections(anchors)| && s < |boxes| && OfBox(boxes[s], p)
    ensures exists t <- Tetras(Sections(anchors), |boxes|) :: IsBlend(p, t, 0.0)
  {
    CellOfBoxes(anchors, boxes, s, p);
    var t: Tetra :| OfCell(Sections(anchors), s, t) && IsBlend(p, t, 0.0);
    CellIsKept(Sections(anchors), |boxes|, t, s);
  }

  lemma TetrasFillBoxes(anchors: seq<Vec>, boxes: seq<Box>, p: Vec)
    requires AreBoxes(anchors, boxes) && |boxes| < |Sections(anchors)|
    ensures (exists t <- Tetras(Sections(anchors), |boxes|) :: IsBlend(p, t, 0.0)) <==> InSomeBox(boxes, p)
  {
    if t :| t in Tetras(Sections(anchors), |boxes|) && IsBlend(p, t, 0.0) {
      TetraInBox(anchors, boxes, p, t);
    }
    if InSomeBox(boxes, p) {
      var s: nat :| s < |boxes| && OfBox(boxes[s], p);
      BoxInTetras(anchors, boxes, p, s);
    }
  }

  lemma CornerIsInBox(k: Box)
    ensures InSkewedBox(k.c, k.c, k.a, k.b, k.d)
  {
    InThisBox(k.c, k, 0.0, 0.0, 0.0);
  }

  lemma BoxesGiveTetras(anchors: seq<Vec>, boxes: seq<Box>)
    requires AreBoxes(anchors, boxes) && |boxes| < |Sections(anchors)|
    ensures Tetras(Sections(anchors), |boxes|) != []
  {
    TetrasFillBoxes(anchors, boxes, boxes[0].c);
    CornerIsInBox(boxes[0]);
    assert OfBox(boxes[0], boxes[0].c);
  }

  lemma BoxesLoad(anchors: seq<Vec>, boxes: seq<Box>, tetras: seq<Tetra>)
    requires AreBoxes(anchors, boxes) && |Sections(anchors)| == |boxes| + 1
    requires tetras == Tetras(Sections(anchors), |boxes|)
    ensures Loaded(anchors) == Ok(Workspace(tetras, Lowest(anchors), Highest(anchors)))
    ensures WellFormed(Workspace(tetras, Lowest(anchors), Highest(anchors)))
  {
    BoxesGiveTetras(anchors, boxes);
    TetrasUseAnchors(Sections(anchors), |boxes|, anchors);
    AnchoredIsWellFormed(tetras, anchors);
  }

  /** What the workspace contains: when the anchors are the corners of skewed boxes, each of more
      than the least volume, loading them gives a workspace that contains, at no tolerance,
      exactly the points of the solid boxes. */
  lemma WorkspaceIsItsBoxes(anchors: seq<Vec>, boxes: seq<Box>, p: Vec)
    requires AreBoxes(anchors, boxes)
    ensures Loaded(anchors).Ok?
    ensures Contains(Loaded(anchors).value, p, 0.0) <==> InSomeBox(boxes, p)
  {
    BoxesLoad(anchors, boxes, Tetras(Sections(anchors), |boxes|));
    TetrasFillBoxes(anchors, boxes, p);
    ContainsIsUnionOfTetras(Loaded(anchors).value, p);
  }
}
