/** The reachable workspace of the bucket tip (`localmap_core/reachable_workspace.py`): a union
    of tetrahedra spanned by consecutive anchor sections. */
module Workspace {
  import opened Geometry
  import opened Collision
  import opened Wrappers

  const ANCHORS_PER_SECTION := 4
  const MINIMUM_VOLUME := 0.0000000001
  const CONTAINS_EPSILON := 0.00000001

  /** Corner indices of the six tetrahedra of a cell of two sections. */
  const TETRA_INDICES := [
    (0, 1, 3, 7), (0, 3, 2, 7), (0, 2, 6, 7), (0, 6, 4, 7), (0, 4, 5, 7), (0, 5, 1, 7)]

  datatype Tetra = Tetra(v0: Vec, v1: Vec, v2: Vec, v3: Vec)

  /** Barycentric weights. */
  datatype Weights = Weights(w0: real, w1: real, w2: real, w3: real)

  datatype Workspace = Workspace(tetras: seq<Tetra>, minimum: Vec, maximum: Vec)

  datatype AnchorError = BadAnchorCount | DegenerateAnchors

  /** Determinant of the matrix with columns `a`, `b`, `c`. */
  function Det(a: Vec, b: Vec, c: Vec): real {
    a.x * (b.y * c.z - b.z * c.y) + a.y * (b.z * c.x - b.x * c.z) + a.z * (b.x * c.y - b.y * c.x)
  }

  function TetraDet(t: Tetra): real { Det(Sub(t.v1, t.v0), Sub(t.v2, t.v0), Sub(t.v3, t.v0)) }

  function TetraVolume(t: Tetra): real { Abs(TetraDet(t)) / 6.0 }

  /** The combination of the columns `a`, `b`, `c` with coefficients `w`. */
  function Combine(a: Vec, b: Vec, c: Vec, w: Vec): Vec {
    Vec(Mix3(w, a.x, b.x, c.x), Mix3(w, a.y, b.y, c.y), Mix3(w, a.z, b.z, c.z))
  }

  function Mix3(w: Vec, a: real, b: real, c: real): real { w.x * a + w.y * b + w.z * c }

  /** The linear solve of a 3x3 system, by Cramer's rule; no result for a singular matrix. */
  function Solve(a: Vec, b: Vec, c: Vec, rhs: Vec): Option<Vec> {
    var d := Det(a, b, c);
    if d == 0.0 then None
    else Some(Vec(Det(rhs, b, c) / d, Det(a, rhs, c) / d, Det(a, b, rhs) / d))
  }

  predicate WeightOk(w: real, epsilon: real) { -epsilon <= w <= 1.0 + epsilon }

  predicate WeightsOk(w: Weights, epsilon: real) {
    WeightOk(w.w0, epsilon) && WeightOk(w.w1, epsilon) && WeightOk(w.w2, epsilon) && WeightOk(w.w3, epsilon)
  }

  predicate PointInTetra(p: Vec, t: Tetra, epsilon: real) {
    match Solve(Sub(t.v1, t.v0), Sub(t.v2, t.v0), Sub(t.v3, t.v0), Sub(p, t.v0))
    case None => false
    case Some(w) => WeightsOk(Weights(1.0 - (w.x + w.y + w.z), w.x, w.y, w.z), epsilon)
  }

  predicate InBounds(p: Vec, minimum: Vec, maximum: Vec, epsilon: real) {
    && minimum.x - epsilon <= p.x <= maximum.x + epsilon
    && minimum.y - epsilon <= p.y <= maximum.y + epsilon
    && minimum.z - epsilon <= p.z <= maximum.z + epsilon
  }

  predicate Contains(ws: Workspace, p: Vec, epsilon: real) {
    && InBounds(p, ws.minimum, ws.maximum, epsilon)
    && exists t <- ws.tetras :: PointInTetra(p, t, epsilon)
  }

  predicate SegmentStaysInside(sqrt: real -> real, ws: Workspace, start: Vec, end: Vec, step: real) {
    var n := SampleCount(Dist(sqrt, start, end), step);
    forall i :: 0 <= i < n ==> Contains(ws, SamplePoint(start, end, i, n), CONTAINS_EPSILON)
  }

  method SegmentInside(sqrt: real -> real, ws: Workspace, start: Vec, end: Vec, step: real) returns (inside: bool)
    ensures inside == SegmentStaysInside(sqrt, ws, start, end, step)
  {
    var n := SampleCount(Dist(sqrt, start, end), step);
    for i := 0 to n
      invariant forall k :: 0 <= k < i ==> Contains(ws, SamplePoint(start, end, k, n), CONTAINS_EPSILON)
    {
      if !Contains(ws, SamplePoint(start, end, i, n), CONTAINS_EPSILON) {
        return false;
      }
    }
    return true;
  }

  function Blend(t: Tetra, w: Weights): Vec {
    Vec(
      Mix4(w, t.v0.x, t.v1.x, t.v2.x, t.v3.x),
      Mix4(w, t.v0.y, t.v1.y, t.v2.y, t.v3.y),
      Mix4(w, t.v0.z, t.v1.z, t.v2.z, t.v3.z))
  }

  function Mix4(w: Weights, a: real, b: real, c: real, d: real): real {
    w.w0 * a + w.w1 * b + w.w2 * c + w.w3 * d
  }

  function Total(w: Weights): real { w.w0 + w.w1 + w.w2 + w.w3 }

  /** The drawn exponentials, scaled to sum to one. */
  function Normalized(e: Weights): Weights
    requires Total(e) > 0.0
  {
    var s := Total(e);
    Weights(e.w0 / s, e.w1 / s, e.w2 / s, e.w3 / s)
  }

  /** A sample: the tetrahedron the generator picked and four non-negative draws. */
  function Sample(ws: Workspace, index: nat, e: Weights): Vec
    requires index < |ws.tetras|
    requires Total(e) > 0.0
  {
    Blend(ws.tetras[index], Normalized(e))
  }

  // ------------------------------------------------------------------- construction

  /** The tetrahedra of the cell between sections `s` and `s + 1`, `k` of the six. */
  function CellTetras(sections: seq<seq<Vec>>, s: nat, k: nat): seq<Tetra>
    requires s + 1 < |sections| && k <= |TETRA_INDICES|
    requires |sections[s]| == ANCHORS_PER_SECTION && |sections[s + 1]| == ANCHORS_PER_SECTION
  {
    if k == 0 then []
    else
      var corners := sections[s] + sections[s + 1];
      var (a, b, c, d) := TETRA_INDICES[k - 1];
      var t := Tetra(corners[a], corners[b], corners[c], corners[d]);
      CellTetras(sections, s, k - 1) + if TetraVolume(t) > MINIMUM_VOLUME then [t] else []
  }

  ghost predicate FullSections(sections: seq<seq<Vec>>) {
    forall s <- sections :: |s| == ANCHORS_PER_SECTION
  }

  /** The non-degenerate tetrahedra of the first `n` cells. */
  function Tetras(sections: seq<seq<Vec>>, n: nat): seq<Tetra>
    requires FullSections(sections)
    requires n < |sections| || n == 0
  {
    if n == 0 then [] else Tetras(sections, n - 1) + CellTetras(sections, n - 1, |TETRA_INDICES|)
  }

  method BuildCell(sections: seq<seq<Vec>>, s: nat) returns (tetras: seq<Tetra>)
    requires s + 1 < |sections|
    requires |sections[s]| == ANCHORS_PER_SECTION && |sections[s + 1]| == ANCHORS_PER_SECTION
    ensures tetras == CellTetras(sections, s, |TETRA_INDICES|)
  {
    tetras := [];
    var corners := sections[s] + sections[s + 1];
    for k := 0 to |TETRA_INDICES|
      invariant tetras == CellTetras(sections, s, k)
    {
      var (a, b, c, d) := TETRA_INDICES[k];
      var t := Tetra(corners[a], corners[b], corners[c], corners[d]);
      if TetraVolume(t) > MINIMUM_VOLUME {
        tetras := tetras + [t];
      }
    }
  }

  method BuildTetras(sections: seq<seq<Vec>>) returns (result: Result<seq<Tetra>, AnchorError>)
    requires FullSections(sections)
    requires |sections| > 0
    ensures
      var tetras := Tetras(sections, |sections| - 1);
      result == if tetras == [] then Err(DegenerateAnchors) else Ok(tetras)
  {
    var tetras: seq<Tetra> := [];
    for s := 0 to |sections| - 1
      invariant tetras == Tetras(sections, s)
    {
      var cell := BuildCell(sections, s);
      tetras := tetras + cell;
    }
    if tetras == [] {
      return Err(DegenerateAnchors);
    }
    return Ok(tetras);
  }

  function MinVec(a: Vec, b: Vec): Vec { Vec(Min(a.x, b.x), Min(a.y, b.y), Min(a.z, b.z)) }

  function MaxVec(a: Vec, b: Vec): Vec { Vec(Max(a.x, b.x), Max(a.y, b.y), Max(a.z, b.z)) }

  function Lowest(points: seq<Vec>): (lo: Vec)
    requires points != []
    ensures forall p <- points :: lo.x <= p.x && lo.y <= p.y && lo.z <= p.z
  {
    var n := |points| - 1;
    assert points == points[..n] + [points[n]];
    if n == 0 then points[0] else MinVec(Lowest(points[..n]), points[n])
  }

  function Highest(points: seq<Vec>): (hi: Vec)
    requires points != []
    ensures forall p <- points :: p.x <= hi.x && p.y <= hi.y && p.z <= hi.z
  {
    var n := |points| - 1;
    assert points == points[..n] + [points[n]];
    if n == 0 then points[0] else MaxVec(Highest(points[..n]), points[n])
  }

  /** Some point has each coordinate of `v`. */
  ghost predicate Attained(points: seq<Vec>, v: Vec) {
    (exists p <- points :: p.x == v.x) && (exists p <- points :: p.y == v.y) && (exists p <- points :: p.z == v.z)
  }

  lemma AttainedInLonger(points: seq<Vec>, last: Vec, v: Vec, m: Vec)
    requires Attained(points, v)
    requires (m.x == v.x || m.x == last.x) && (m.y == v.y || m.y == last.y) && (m.z == v.z || m.z == last.z)
    ensures Attained(points + [last], m)
  {
    var px :| px in points && px.x == v.x;
    var py :| py in points && py.y == v.y;
    var pz :| pz in points && pz.z == v.z;
    var longer := points + [last];
    assert px in longer && py in longer && pz in longer;
    assert longer[|points|] == last;
  }

  /** The box of the points is no larger than it must be. */
  lemma {:induction false} BoxIsTight(points: seq<Vec>)
    requires points != []
    ensures Attained(points, Lowest(points)) && Attained(points, Highest(points))
  {
    var n := |points| - 1;
    assert points == points[..n] + [points[n]];
    if n == 0 {
      assert points[0] in points;
    } else {
      BoxIsTight(points[..n]);
      AttainedInLonger(points[..n], points[n], Lowest(points[..n]), Lowest(points));
      AttainedInLonger(points[..n], points[n], Highest(points[..n]), Highest(points));
    }
  }

  /** Anchors regrouped four to a section. */
  function Sections(anchors: seq<Vec>): (sections: seq<seq<Vec>>)
    requires |anchors| % ANCHORS_PER_SECTION == 0
    ensures |sections| == |anchors| / ANCHORS_PER_SECTION
    ensures FullSections(sections)
    ensures forall s, p :: s in sections && p in s ==> p in anchors
  {
    if anchors == [] then [] else [anchors[..4]] + Sections(anchors[4..])
  }

  /** The workspace of a list of anchors, or what is wrong with them. */
  function Loaded(anchors: seq<Vec>): Result<Workspace, AnchorError> {
    if |anchors| < 8 || |anchors| % 4 != 0 then Err(BadAnchorCount)
    else
      var sections := Sections(anchors);
      var tetras := Tetras(sections, |sections| - 1);
      if tetras == [] then Err(DegenerateAnchors) else Ok(Workspace(tetras, Lowest(anchors), Highest(anchors)))
  }

  method LoadWorkspace(anchors: seq<Vec>) returns (result: Result<Workspace, AnchorError>)
    ensures result == Loaded(anchors)
    ensures result.Ok? ==> WellFormed(result.value)
  {
    if |anchors| < ANCHORS_PER_SECTION * 2 || |anchors| % ANCHORS_PER_SECTION != 0 {
      return Err(BadAnchorCount);
    }
    var sections := Sections(anchors);
    var built := BuildTetras(sections);
    match built
    case Err(e) =>
      return Err(e);
    case Ok(tetras) =>
      TetrasUseAnchors(sections, |sections| - 1, anchors);
      AnchoredIsWellFormed(tetras, anchors);
      return Ok(Workspace(tetras, Lowest(anchors), Highest(anchors)));
  }

  ghost predicate TetraOk(t: Tetra, minimum: Vec, maximum: Vec) {
    && TetraDet(t) != 0.0
    && InBounds(t.v0, minimum, maximum, 0.0)
    && InBounds(t.v1, minimum, maximum, 0.0)
    && InBounds(t.v2, minimum, maximum, 0.0)
    && InBounds(t.v3, minimum, maximum, 0.0)
  }

  /** What loading establishes: no tetrahedron is flat, and all lie in the bounding box. */
  ghost predicate WellFormed(ws: Workspace) {
    forall t <- ws.tetras :: TetraOk(t, ws.minimum, ws.maximum)
  }

  lemma AnchoredIsWellFormed(tetras: seq<Tetra>, anchors: seq<Vec>)
    requires anchors != []
    requires forall t <- tetras :: UsesAnchors(t, anchors)
    ensures WellFormed(Workspace(tetras, Lowest(anchors), Highest(anchors)))
  {}

  ghost predicate UsesAnchors(t: Tetra, anchors: seq<Vec>) {
    TetraDet(t) != 0.0 && t.v0 in anchors && t.v1 in anchors && t.v2 in anchors && t.v3 in anchors
  }

  lemma {:induction false} CellTetrasUseAnchors(sections: seq<seq<Vec>>, s: nat, k: nat, anchors: seq<Vec>)
    requires FullSections(sections)
    requires s + 1 < |sections| && k <= |TETRA_INDICES|
    requires forall s, p :: s in sections && p in s ==> p in anchors
    ensures forall t <- CellTetras(sections, s, k) :: UsesAnchors(t, anchors)
  {
    if k > 0 {
      CellTetrasUseAnchors(sections, s, k - 1, anchors);
      var corners := sections[s] + sections[s + 1];
      forall c | c in corners
        ensures c in anchors
      {
        assert sections[s] in sections && sections[s + 1] in sections;
      }
    }
  }

  lemma {:induction false} TetrasUseAnchors(sections: seq<seq<Vec>>, n: nat, anchors: seq<Vec>)
    requires FullSections(sections)
    requires n < |sections| || n == 0
    requires forall s, p :: s in sections && p in s ==> p in anchors
    ensures forall t <- Tetras(sections, n) :: UsesAnchors(t, anchors)
  {
    if n > 0 {
      TetrasUseAnchors(sections, n - 1, anchors);
      CellTetrasUseAnchors(sections, n - 1, |TETRA_INDICES|, anchors);
    }
  }

  // ----------------------------------------------------------- barycentric coordinates

  lemma DetRotates(a: Vec, b: Vec, c: Vec)
    ensures Det(a, b, c) == Det(b, c, a)
  {}

  lemma DetFirstColumn(a: Vec, b: Vec, c: Vec, w: Vec)
    ensures Det(Combine(a, b, c, w), b, c) == w.x * Det(a, b, c)
  {}

  /** Replacing a column by a combination of the columns scales the determinant. */
  lemma DetOfCombination(a: Vec, b: Vec, c: Vec, w: Vec)
    ensures Det(Combine(a, b, c, w), b, c) == w.x * Det(a, b, c)
    ensures Det(a, Combine(a, b, c, w), c) == w.y * Det(a, b, c)
    ensures Det(a, b, Combine(a, b, c, w)) == w.z * Det(a, b, c)
  {
    var r := Combine(a, b, c, w);
    DetFirstColumn(a, b, c, w);
    assert r == Combine(b, c, a, Vec(w.y, w.z, w.x));
    DetFirstColumn(b, c, a, Vec(w.y, w.z, w.x));
    DetRotates(a, r, c);
    DetRotates(a, b, c);
    assert r == Combine(c, a, b, Vec(w.z, w.x, w.y));
    DetFirstColumn(c, a, b, Vec(w.z, w.x, w.y));
    DetRotates(r, a, b);
    DetRotates(c, a, b);
  }

  lemma DetTimes(a: Vec, b: Vec, c: Vec, k: real)
    ensures Det(a, b, c) * k
         == a.x * b.y * c.z * k - a.x * b.z * c.y * k + a.y * b.z * c.x * k - a.y * b.x * c.z * k
          + a.z * b.x * c.y * k - a.z * b.y * c.x * k
  {}

  lemma CramerX(a: Vec, b: Vec, c: Vec, r: Vec)
    ensures Det(r, b, c) * a.x + Det(a, r, c) * b.x + Det(a, b, r) * c.x == Det(a, b, c) * r.x
  {
    DetTimes(r, b, c, a.x);
    DetTimes(a, r, c, b.x);
    DetTimes(a, b, r, c.x);
    DetTimes(a, b, c, r.x);
  }

  function Turn(v: Vec): Vec { Vec(v.y, v.z, v.x) }

  lemma DetTurns(a: Vec, b: Vec, c: Vec)
    ensures Det(Turn(a), Turn(b), Turn(c)) == Det(a, b, c)
  {}

  /** Cramer's identity. */
  lemma CramerIdentity(a: Vec, b: Vec, c: Vec, r: Vec)
    ensures Combine(a, b, c, Vec(Det(r, b, c), Det(a, r, c), Det(a, b, r))) == Scale(Det(a, b, c), r)
  {
    CramerX(a, b, c, r);
    CramerY(a, b, c, r);
    CramerY(Turn(a), Turn(b), Turn(c), Turn(r));
    DetTurns(a, b, c);
    DetTurns(r, b, c);
    DetTurns(a, r, c);
    DetTurns(a, b, r);
  }

  lemma CramerY(a: Vec, b: Vec, c: Vec, r: Vec)
    ensures Det(r, b, c) * a.y + Det(a, r, c) * b.y + Det(a, b, r) * c.y == Det(a, b, c) * r.y
  {
    CramerX(Turn(a), Turn(b), Turn(c), Turn(r));
    DetTurns(a, b, c);
    DetTurns(r, b, c);
    DetTurns(a, r, c);
    DetTurns(a, b, r);
  }

  lemma CombineScaled(a: Vec, b: Vec, c: Vec, w: Vec, k: real)
    ensures Combine(a, b, c, Scale(k, w)) == Scale(k, Combine(a, b, c, w))
  {
    FactorOut(k, w, a.x, b.x, c.x);
    FactorOut(k, w, a.y, b.y, c.y);
    FactorOut(k, w, a.z, b.z, c.z);
  }

  lemma FactorOut(k: real, w: Vec, a: real, b: real, c: real)
    ensures Mix3(Scale(k, w), a, b, c) == k * Mix3(w, a, b, c)
  {}

  lemma ScaleBack(d: real, r: Vec)
    requires d != 0.0
    ensures Scale(1.0 / d, Scale(d, r)) == r
  {
    var k := 1.0 / d;
    assert k * d == 1.0;
    CancelFactor(k, d, r.x);
    CancelFactor(k, d, r.y);
    CancelFactor(k, d, r.z);
  }

  lemma CancelFactor(k: real, d: real, x: real)
    requires k * d == 1.0
    ensures k * (d * x) == x
  {
    assert k * (d * x) == (k * d) * x;
  }

  lemma QuotientAsProduct(p: real, d: real)
    requires d != 0.0
    ensures p / d == (1.0 / d) * p
  {}

  lemma ProductThenQuotient(w: real, d: real)
    requires d != 0.0
    ensures (w * d) / d == w
  {}

  function Quotients(n: Vec, d: real): Vec
    requires d != 0.0
  {
    Vec(n.x / d, n.y / d, n.z / d)
  }

  function CramerNumerators(a: Vec, b: Vec, c: Vec, rhs: Vec): Vec {
    Vec(Det(rhs, b, c), Det(a, rhs, c), Det(a, b, rhs))
  }

  lemma QuotientsAreScaled(n: Vec, d: real)
    requires d != 0.0
    ensures Quotients(n, d) == Scale(1.0 / d, n)
  {
    QuotientAsProduct(n.x, d);
    QuotientAsProduct(n.y, d);
    QuotientAsProduct(n.z, d);
  }

  lemma SolutionCombines(a: Vec, b: Vec, c: Vec, rhs: Vec, d: real, n: Vec)
    requires d == Det(a, b, c) != 0.0 && n == CramerNumerators(a, b, c, rhs)
    ensures Combine(a, b, c, Quotients(n, d)) == rhs
  {
    QuotientsAreScaled(n, d);
    CombineScaled(a, b, c, n, 1.0 / d);
    CramerIdentity(a, b, c, rhs);
    ScaleBack(d, rhs);
  }

  lemma CombinationIsSolution(a: Vec, b: Vec, c: Vec, rhs: Vec, d: real, n: Vec, w: Vec)
    requires d == Det(a, b, c) != 0.0 && n == CramerNumerators(a, b, c, rhs)
    requires Combine(a, b, c, w) == rhs
    ensures Quotients(n, d) == w
  {
    DetOfCombination(a, b, c, w);
    ProductThenQuotient(w.x, d);
    ProductThenQuotient(w.y, d);
    ProductThenQuotient(w.z, d);
    assert n == Vec(w.x * d, w.y * d, w.z * d);
  }

  /** Solving finds the one and only combination that gives the right-hand side. */
  lemma SolveIsUnique(a: Vec, b: Vec, c: Vec, rhs: Vec, w: Vec)
    requires Det(a, b, c) != 0.0
    ensures Solve(a, b, c, rhs) == Some(w) <==> Combine(a, b, c, w) == rhs
  {
    var d, n := Det(a, b, c), CramerNumerators(a, b, c, rhs);
    SolutionCombines(a, b, c, rhs, d, n);
    if Combine(a, b, c, w) == rhs {
      CombinationIsSolution(a, b, c, rhs, d, n, w);
    }
    assert Solve(a, b, c, rhs) == Some(Quotients(n, d));
  }

  /** Weights that sum to one blend the corners as `v0` plus a combination of the edges. */
  lemma BlendAsCombination(t: Tetra, w: Weights)
    requires Total(w) == 1.0
    ensures Sub(Blend(t, w), t.v0)
         == Combine(Sub(t.v1, t.v0), Sub(t.v2, t.v0), Sub(t.v3, t.v0), Vec(w.w1, w.w2, w.w3))
  {
    BlendAxis(w, t.v0.x, t.v1.x, t.v2.x, t.v3.x);
    BlendAxis(w, t.v0.y, t.v1.y, t.v2.y, t.v3.y);
    BlendAxis(w, t.v0.z, t.v1.z, t.v2.z, t.v3.z);
  }

  lemma BlendAxis(w: Weights, a: real, b: real, c: real, d: real)
    requires Total(w) == 1.0
    ensures Mix4(w, a, b, c, d) - a == Mix3(Vec(w.w1, w.w2, w.w3), b - a, c - a, d - a)
  {
    assert w.w0 * a == (1.0 - w.w1 - w.w2 - w.w3) * a;
  }

  /** `p` is a blend of the corners with weights that are in range up to `epsilon`. */
  ghost predicate IsBlend(p: Vec, t: Tetra, epsilon: real) {
    exists w: Weights :: Total(w) == 1.0 && WeightsOk(w, epsilon) && Blend(t, w) == p
  }

  lemma BlendWeightsAreFound(p: Vec, t: Tetra, epsilon: real, w: Weights)
    requires TetraDet(t) != 0.0
    requires Total(w) == 1.0 && Blend(t, w) == p
    ensures PointInTetra(p, t, epsilon) <==> WeightsOk(w, epsilon)
  {
    BlendAsCombination(t, w);
    SolveIsUnique(Sub(t.v1, t.v0), Sub(t.v2, t.v0), Sub(t.v3, t.v0), Sub(p, t.v0), Vec(w.w1, w.w2, w.w3));
  }

  /** The inside test of a tetrahedron accepts exactly the blends of its corners, and nothing
      at all when the tetrahedron is flat. */
  lemma InsideTestIsBlend(p: Vec, t: Tetra, epsilon: real)
    ensures PointInTetra(p, t, epsilon) <==> TetraDet(t) != 0.0 && IsBlend(p, t, epsilon)
  {
    if TetraDet(t) != 0.0 {
      var a, b, c := Sub(t.v1, t.v0), Sub(t.v2, t.v0), Sub(t.v3, t.v0);
      var s := Solve(a, b, c, Sub(p, t.v0)).value;
      SolveIsUnique(a, b, c, Sub(p, t.v0), s);
      var w := Weights(1.0 - (s.x + s.y + s.z), s.x, s.y, s.z);
      BlendAsCombination(t, w);
      assert Blend(t, w) == p;
      BlendWeightsAreFound(p, t, epsilon, w);
      if IsBlend(p, t, epsilon) {
        var v: Weights :| Total(v) == 1.0 && WeightsOk(v, epsilon) && Blend(t, v) == p;
        BlendWeightsAreFound(p, t, epsilon, v);
      }
    }
  }

  /** A convex combination of four values lies between any bounds of the four. */
  lemma ConvexAxis(w: Weights, a: real, b: real, c: real, d: real, lo: real, hi: real)
    requires Total(w) == 1.0 && WeightsOk(w, 0.0)
    requires lo <= a <= hi && lo <= b <= hi && lo <= c <= hi && lo <= d <= hi
    ensures lo <= Mix4(w, a, b, c, d) <= hi
  {
    NonNegativeMix(w, a - lo, b - lo, c - lo, d - lo);
    ShiftedMix(w, a, b, c, d, lo);
    NonNegativeMix(w, hi - a, hi - b, hi - c, hi - d);
    MirroredMix(w, a, b, c, d, hi);
  }

  lemma NonNegativeMix(w: Weights, a: real, b: real, c: real, d: real)
    requires WeightsOk(w, 0.0)
    requires a >= 0.0 && b >= 0.0 && c >= 0.0 && d >= 0.0
    ensures Mix4(w, a, b, c, d) >= 0.0
  {
    assert w.w0 * a >= 0.0 && w.w1 * b >= 0.0 && w.w2 * c >= 0.0 && w.w3 * d >= 0.0;
  }

  lemma ShiftedMix(w: Weights, a: real, b: real, c: real, d: real, lo: real)
    requires Total(w) == 1.0
    ensures Mix4(w, a - lo, b - lo, c - lo, d - lo) == Mix4(w, a, b, c, d) - lo
  {
    assert Mix4(w, a - lo, b - lo, c - lo, d - lo) == Mix4(w, a, b, c, d) - Total(w) * lo;
  }

  lemma MirroredMix(w: Weights, a: real, b: real, c: real, d: real, hi: real)
    requires Total(w) == 1.0
    ensures Mix4(w, hi - a, hi - b, hi - c, hi - d) == hi - Mix4(w, a, b, c, d)
  {
    assert Mix4(w, hi - a, hi - b, hi - c, hi - d) == Total(w) * hi - Mix4(w, a, b, c, d);
  }

  lemma BlendInBounds(t: Tetra, w: Weights, minimum: Vec, maximum: Vec)
    requires Total(w) == 1.0 && WeightsOk(w, 0.0)
    requires TetraOk(t, minimum, maximum)
    ensures InBounds(Blend(t, w), minimum, maximum, 0.0)
  {
    ConvexAxis(w, t.v0.x, t.v1.x, t.v2.x, t.v3.x, minimum.x, maximum.x);
    ConvexAxis(w, t.v0.y, t.v1.y, t.v2.y, t.v3.y, minimum.y, maximum.y);
    ConvexAxis(w, t.v0.z, t.v1.z, t.v2.z, t.v3.z, minimum.z, maximum.z);
  }

  /** With no tolerance, the workspace is exactly the union of its tetrahedra: the bounding
      box test rejects no point that a tetrahedron accepts. */
  lemma ContainsIsUnionOfTetras(ws: Workspace, p: Vec)
    requires WellFormed(ws)
    ensures Contains(ws, p, 0.0) <==> exists t <- ws.tetras :: IsBlend(p, t, 0.0)
  {
    forall t <- ws.tetras
      ensures PointInTetra(p, t, 0.0) <==> IsBlend(p, t, 0.0)
      ensures IsBlend(p, t, 0.0) ==> InBounds(p, ws.minimum, ws.maximum, 0.0)
    {
      assert TetraOk(t, ws.minimum, ws.maximum);
      InsideTestIsBlend(p, t, 0.0);
      if IsBlend(p, t, 0.0) {
        var w: Weights :| Total(w) == 1.0 && WeightsOk(w, 0.0) && Blend(t, w) == p;
        BlendInBounds(t, w, ws.minimum, ws.maximum);
      }
    }
  }

  lemma NormalizedIsConvex(e: Weights)
    requires e.w0 >= 0.0 && e.w1 >= 0.0 && e.w2 >= 0.0 && e.w3 >= 0.0
    requires Total(e) > 0.0
    ensures Total(Normalized(e)) == 1.0
    ensures WeightsOk(Normalized(e), 0.0)
    ensures Normalized(e).w0 * Total(e) == e.w0 && Normalized(e).w1 * Total(e) == e.w1
    ensures Normalized(e).w2 * Total(e) == e.w2 && Normalized(e).w3 * Total(e) == e.w3
  {
    var s := Total(e);
    ShareOfTotal(e.w0, s);
    ShareOfTotal(e.w1, s);
    ShareOfTotal(e.w2, s);
    ShareOfTotal(e.w3, s);
    SharesAddUp(Normalized(e), e, s);
  }

  lemma SharesAddUp(w: Weights, e: Weights, s: real)
    requires s == Total(e) > 0.0
    requires w.w0 * s == e.w0 && w.w1 * s == e.w1 && w.w2 * s == e.w2 && w.w3 * s == e.w3
    ensures Total(w) == 1.0
  {
    TotalTimes(w, s, e);
    FactorIsOne(Total(w), s, Total(e));
  }

  lemma FactorIsOne(t: real, s: real, p: real)
    requires s > 0.0 && t * s == p && p == s
    ensures t == 1.0
  {
    var d := t - 1.0;
    assert d * s == 0.0;
    if d > 0.0 {
      ProductPositive(d, s);
    } else if d < 0.0 {
      ProductPositive(-d, s);
    }
  }

  lemma TotalTimes(w: Weights, s: real, e: Weights)
    requires w.w0 * s == e.w0 && w.w1 * s == e.w1 && w.w2 * s == e.w2 && w.w3 * s == e.w3
    ensures Total(w) * s == Total(e)
  {
    Distribute(w.w0, w.w1, w.w2, w.w3, s, e.w0, e.w1, e.w2, e.w3);
  }

  lemma Distribute(a: real, b: real, c: real, d: real, s: real, p: real, q: real, r: real, t: real)
    requires a * s == p && b * s == q && c * s == r && d * s == t
    ensures (a + b + c + d) * s == p + q + r + t
  {}

  lemma ShareOfTotal(e: real, s: real)
    requires 0.0 <= e <= s && s > 0.0
    ensures 0.0 <= e / s <= 1.0
    ensures (e / s) * s == e
  {}

  /** A wider tolerance accepts more points. */
  lemma WiderTolerance(ws: Workspace, p: Vec, narrow: real, wide: real)
    requires narrow <= wide
    requires Contains(ws, p, narrow)
    ensures Contains(ws, p, wide)
  {
    var t :| t in ws.tetras && PointInTetra(p, t, narrow);
    assert PointInTetra(p, t, wide);
  }

  /** Every sample the generator can produce lies in the workspace, for the tolerance the
      planner uses and for every other non-negative one. */
  lemma SamplesAreContained(ws: Workspace, index: nat, e: Weights, epsilon: real)
    requires WellFormed(ws) && index < |ws.tetras| && epsilon >= 0.0
    requires e.w0 >= 0.0 && e.w1 >= 0.0 && e.w2 >= 0.0 && e.w3 >= 0.0
    requires Total(e) > 0.0
    ensures Contains(ws, Sample(ws, index, e), epsilon)
  {
    var t := ws.tetras[index];
    assert t in ws.tetras;
    NormalizedIsConvex(e);
    assert IsBlend(Sample(ws, index, e), t, 0.0);
    ContainsIsUnionOfTetras(ws, Sample(ws, index, e));
    WiderTolerance(ws, Sample(ws, index, e), 0.0, epsilon);
  }

  lemma NormalizedStays(e: Weights)
    requires Total(e) == 1.0
    ensures Normalized(e) == e
  {}

  /** And every point of the workspace can be sampled: some tetrahedron and some draws give it. */
  lemma EveryPointCanBeSampled(ws: Workspace, p: Vec) returns (index: nat, e: Weights)
    requires WellFormed(ws) && Contains(ws, p, 0.0)
    ensures index < |ws.tetras| && Total(e) == 1.0 && Sample(ws, index, e) == p
    ensures e.w0 >= 0.0 && e.w1 >= 0.0 && e.w2 >= 0.0 && e.w3 >= 0.0
  {
    ContainsIsUnionOfTetras(ws, p);
    var t :| t in ws.tetras && IsBlend(p, t, 0.0);
    index :| 0 <= index < |ws.tetras| && ws.tetras[index] == t;
    e :| Total(e) == 1.0 && WeightsOk(e, 0.0) && Blend(t, e) == p;
    NormalizedStays(e);
  }
}
