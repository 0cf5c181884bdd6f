/**
  Vertex welding and crease normals of the STL preview (stlPreviewGeometry.ts):
  a spatial hash stands for a full scan, and corners of one triangle never merge.
*/
module StlWeld {
  import opened Text

  datatype Vec = Vec(x: real, y: real, z: real)

  type Cell = (int, int, int)

  datatype Welded = Welded(position: Vec, sources: seq<nat>)

  function Sub(a: Vec, b: Vec): Vec { Vec(a.x - b.x, a.y - b.y, a.z - b.z) }

  function Add(a: Vec, b: Vec): Vec { Vec(a.x + b.x, a.y + b.y, a.z + b.z) }

  function Times(p: real, q: real): real { p * q }

  function Dot(a: Vec, b: Vec): real { Times(a.x, b.x) + Times(a.y, b.y) + Times(a.z, b.z) }

  function DistanceSquared(a: Vec, b: Vec): real { Dot(Sub(a, b), Sub(a, b)) }

  predicate Within(a: Vec, b: Vec, tolerance: real) {
    DistanceSquared(a, b) <= Times(tolerance, tolerance)
  }

  /** The distance between the points is at most the tolerance. */
  lemma WithinMeans(a: Vec, b: Vec, tolerance: real)
    ensures Within(a, b, tolerance) <==>
            (a.x - b.x) * (a.x - b.x) + (a.y - b.y) * (a.y - b.y) + (a.z - b.z) * (a.z - b.z) <= tolerance * tolerance
  {
  }

  function CellOf(p: Vec, tolerance: real): Cell
    requires tolerance > 0.0
  {
    ((p.x / tolerance).Floor, (p.y / tolerance).Floor, (p.z / tolerance).Floor)
  }

  // ----- the arithmetic of the grid -------------------------------------------

  lemma PositiveTimes(p: real, q: real)
    requires p > 0.0 && q > 0.0
    ensures Times(p, q) > 0.0
  {
  }

  lemma NegativeTimes(p: real, q: real)
    requires p < 0.0 && q < 0.0
    ensures Times(p, q) > 0.0
  {
  }

  lemma SquareSign(d: real)
    ensures Times(d, d) >= 0.0
    ensures d != 0.0 ==> Times(d, d) > 0.0
  {
    if d > 0.0 {
      PositiveTimes(d, d);
    }
    if d < 0.0 {
      NegativeTimes(d, d);
    }
  }

  lemma SquareGrows(d: real, t: real)
    requires d > t > 0.0
    ensures Times(d, d) > Times(t, t)
  {
    PositiveTimes(d - t, d + t);
    assert Times(d - t, d + t) == Times(d, d) - Times(t, t);
  }

  lemma SquareBound(d: real, t: real)
    requires Times(d, d) <= Times(t, t) && t > 0.0
    ensures -t <= d <= t
  {
    if d > t {
      SquareGrows(d, t);
      assert false;
    }
    if -d > t {
      assert Times(-d, -d) == Times(d, d);
      SquareGrows(-d, t);
      assert false;
    }
  }

  lemma QuotientGap(a: real, b: real, t: real)
    requires t > 0.0 && a <= b + t
    ensures a / t - b / t <= 1.0
  {
    assert (b + t - a) / t >= 0.0;
    assert (b + t - a) / t == b / t + t / t - a / t;
  }

  lemma FloorsStayClose(u: real, v: real)
    requires -1.0 <= u - v <= 1.0
    ensures -1 <= u.Floor - v.Floor <= 1
  {
    assert u.Floor as real <= u < (u.Floor + 1) as real;
    assert v.Floor as real <= v < (v.Floor + 1) as real;
    assert (u.Floor - v.Floor) as real < 2.0;
    assert (v.Floor - u.Floor) as real < 2.0;
  }

  lemma NeighbourFloor(a: real, b: real, t: real)
    requires t > 0.0 && -t <= a - b <= t
    ensures -1 <= (a / t).Floor - (b / t).Floor <= 1
  {
    QuotientGap(a, b, t);
    QuotientGap(b, a, t);
    FloorsStayClose(a / t, b / t);
  }

  /** Points within the tolerance lie in neighbouring cells, so 27 cells are enough. */
  lemma CloseMeansNeighbour(p: Vec, q: Vec, tolerance: real)
    requires tolerance > 0.0 && Within(p, q, tolerance)
    ensures var (c, d) := (CellOf(p, tolerance), CellOf(q, tolerance));
            -1 <= c.0 - d.0 <= 1 && -1 <= c.1 - d.1 <= 1 && -1 <= c.2 - d.2 <= 1
  {
    hide Times;
    var s := Sub(p, q);
    SquareSign(s.x);
    SquareSign(s.y);
    SquareSign(s.z);
    SquareBound(s.x, tolerance);
    SquareBound(s.y, tolerance);
    SquareBound(s.z, tolerance);
    NeighbourFloor(p.x, q.x, tolerance);
    NeighbourFloor(p.y, q.y, tolerance);
    NeighbourFloor(p.z, q.z, tolerance);
  }

  // ----- triangle peers -------------------------------------------------------

  predicate IndicesOk(indices: seq<nat>, vertexCount: nat) {
    |indices| % 3 == 0 && forall i :: 0 <= i < |indices| ==> indices[i] < vertexCount
  }

  /** `a` is one of the first `n` of three corners. */
  predicate OneOfFirst(a: nat, n: int, x: nat, y: nat, z: nat) {
    (n > 0 && a == x) || (n > 1 && a == y) || (n > 2 && a == z)
  }

  /** `a` and `b` are different corners of triangle `t`. */
  predicate Corners(indices: seq<nat>, t: nat, a: nat, b: nat)
    requires 3 * t + 2 < |indices|
  {
    && a != b
    && OneOfFirst(a, 3, indices[3 * t], indices[3 * t + 1], indices[3 * t + 2])
    && OneOfFirst(b, 3, indices[3 * t], indices[3 * t + 1], indices[3 * t + 2])
  }

  /** Some triangle among the first `n` has both vertices as corners. */
  predicate ShareTriangle(indices: seq<nat>, n: nat, a: nat, b: nat)
    requires 3 * n <= |indices|
  {
    exists t :: 0 <= t < n && Corners(indices, t, a, b)
  }

  predicate Symmetric(peers: seq<set<nat>>) {
    forall a, b | 0 <= a < |peers| && 0 <= b < |peers| :: (b in peers[a] <==> a in peers[b])
  }

  /** `buildTrianglePeers`: two vertices are peers exactly when they are different corners of a triangle. */
  method BuildTrianglePeers(indices: seq<nat>, vertexCount: nat) returns (peers: seq<set<nat>>)
    requires IndicesOk(indices, vertexCount)
    ensures ArePeers(indices, |indices| / 3, peers, vertexCount)
  {
    peers := seq(vertexCount, _ => {});
    var t := 0;
    while t < |indices| / 3
      invariant 0 <= t <= |indices| / 3 && ArePeers(indices, t, peers, vertexCount)
    {
      ghost var before := peers;
      peers := AddTriangle(peers, indices[3 * t], indices[3 * t + 1], indices[3 * t + 2]);
      OneMoreTriangle(indices, t, before, peers, vertexCount);
      t := t + 1;
    }
  }

  ghost predicate ArePeers(indices: seq<nat>, n: nat, peers: seq<set<nat>>, vertexCount: nat)
    requires 3 * n <= |indices|
  {
    && |peers| == vertexCount
    && forall a: nat, b: nat :: a < vertexCount ==> (b in peers[a] <==> ShareTriangle(indices, n, a, b))
  }

  lemma OneMoreTriangle(indices: seq<nat>, t: nat, before: seq<set<nat>>, peers: seq<set<nat>>, vertexCount: nat)
    requires 3 * t + 3 <= |indices| && ArePeers(indices, t, before, vertexCount)
    requires Extended(before, peers, 3, indices[3 * t], indices[3 * t + 1], indices[3 * t + 2])
    ensures ArePeers(indices, t + 1, peers, vertexCount)
  {
    forall a: nat, b: nat | a < vertexCount
      ensures b in peers[a] <==> ShareTriangle(indices, t + 1, a, b)
    {
      assert b in before[a] <==> ShareTriangle(indices, t, a, b);
      assert ShareTriangle(indices, t + 1, a, b) <==> ShareTriangle(indices, t, a, b) || Corners(indices, t, a, b);
      var (x, y, z) := (indices[3 * t], indices[3 * t + 1], indices[3 * t + 2]);
      assert b in peers[a] <==>
             b in before[a] || (a != b && OneOfFirst(b, 3, x, y, z) && OneOfFirst(a, 3, x, y, z));
    }
  }

  /** Peerhood is symmetric and nobody is its own peer. */
  lemma PeersAreSymmetric(indices: seq<nat>, n: nat, peers: seq<set<nat>>, vertexCount: nat)
    requires 3 * n <= |indices| && ArePeers(indices, n, peers, vertexCount)
    ensures Symmetric(peers) && forall a :: 0 <= a < vertexCount ==> a !in peers[a]
  {
    forall a: nat, b: nat | a < vertexCount && b < vertexCount && b in peers[a] ensures a in peers[b] {
      var t :| 0 <= t < n && Corners(indices, t, a, b);
      assert Corners(indices, t, b, a);
      assert ShareTriangle(indices, n, b, a);
    }
    forall a: nat | a < vertexCount ensures a !in peers[a] {
      assert !ShareTriangle(indices, n, a, a);
    }
  }

  /** Compared with `was`, each of the first `n` corners has the other corners as new peers. */
  ghost predicate Extended(was: seq<set<nat>>, peers: seq<set<nat>>, n: nat, x: nat, y: nat, z: nat) {
    && |peers| == |was|
    && forall a: nat, b: nat :: a < |was| ==>
         (b in peers[a] <==> b in was[a] || (a != b && OneOfFirst(b, 3, x, y, z) && OneOfFirst(a, n, x, y, z)))
  }

  /** The two inner loops: every corner of the triangle gets the other ones as peers. */
  method AddTriangle(was: seq<set<nat>>, x: nat, y: nat, z: nat) returns (peers: seq<set<nat>>)
    requires x < |was| && y < |was| && z < |was|
    ensures Extended(was, peers, 3, x, y, z)
  {
    var triangle := [x, y, z];
    peers := was;
    for i := 0 to 3
      invariant Extended(was, peers, i, x, y, z)
    {
      assert triangle[0] == x && triangle[1] == y && triangle[2] == z;
      assert i == 0 || i == 1 || i == 2;
      ghost var before, vertex := peers, triangle[i];
      peers := AddPeersOf(peers, triangle[i], x, y, z);
      forall a: nat, b: nat | a < |was|
        ensures b in peers[a] <==>
                b in was[a] || (a != b && OneOfFirst(b, 3, x, y, z) && OneOfFirst(a, i + 1, x, y, z))
      {
        assert b in before[a] <==>
               b in was[a] || (a != b && OneOfFirst(b, 3, x, y, z) && OneOfFirst(a, i, x, y, z));
        if a != vertex {
          assert peers[a] == before[a];
        } else {
          assert b in peers[vertex] <==> b in before[vertex] || (b != vertex && OneOfFirst(b, 3, x, y, z));
        }
      }
    }
  }

  method AddPeersOf(was: seq<set<nat>>, vertex: nat, x: nat, y: nat, z: nat) returns (peers: seq<set<nat>>)
    requires vertex < |was|
    ensures |peers| == |was|
    ensures forall a: nat :: a < |was| && a != vertex ==> peers[a] == was[a]
    ensures forall b: nat :: b in peers[vertex] <==> b in was[vertex] || (b != vertex && OneOfFirst(b, 3, x, y, z))
  {
    var triangle := [x, y, z];
    peers := was;
    for j := 0 to 3
      invariant |peers| == |was|
      invariant forall a: nat :: a < |was| && a != vertex ==> peers[a] == was[a]
      invariant forall b: nat :: b in peers[vertex] <==> b in was[vertex] || (b != vertex && OneOfFirst(b, j, x, y, z))
    {
      assert triangle[0] == x && triangle[1] == y && triangle[2] == z;
      assert j == 0 || j == 1 || j == 2;
      if triangle[j] != vertex {
        ghost var before := peers[vertex];
        peers := peers[vertex := peers[vertex] + {triangle[j]}];
        assert peers[vertex] == before + {triangle[j]};
      }
    }
  }

  // ----- welding --------------------------------------------------------------

  predicate SharesTriangle(w: Welded, peers: set<nat>) {
    exists i :: 0 <= i < |w.sources| && w.sources[i] in peers
  }

  /** What a full scan would ask of a representative. */
  predicate Eligible(w: Welded, position: Vec, peers: set<nat>, tolerance: real) {
    !SharesTriangle(w, peers) && Within(w.position, position, tolerance)
  }

  /** The order of the search: by cell, coordinate by coordinate, and by age within a cell. */
  predicate Precedes(a: Cell, i: nat, b: Cell, j: nat) {
    || a.0 < b.0
    || (a.0 == b.0 && a.1 < b.1)
    || (a.0 == b.0 && a.1 == b.1 && a.2 < b.2)
    || (a == b && i <= j)
  }

  /** The first eligible representative in the order of the search. */
  ghost predicate FirstMatch(welded: seq<Welded>, position: Vec, peers: set<nat>, tolerance: real, w: nat)
    requires tolerance > 0.0
  {
    && w < |welded| && Eligible(welded[w], position, peers, tolerance)
    && forall v :: 0 <= v < |welded| && Eligible(welded[v], position, peers, tolerance) ==>
         Precedes(CellOf(welded[w].position, tolerance), w, CellOf(welded[v].position, tolerance), v)
  }

  /** The hash holds each representative once, under the cell of its position, oldest first. */
  ghost predicate GridOk(cells: map<Cell, seq<nat>>, welded: seq<Welded>, tolerance: real)
    requires tolerance > 0.0
  {
    && (forall c, i :: c in cells && 0 <= i < |cells[c]| ==>
          cells[c][i] < |welded| && CellOf(welded[cells[c][i]].position, tolerance) == c)
    && (forall w :: 0 <= w < |welded| ==>
          CellOf(welded[w].position, tolerance) in cells && w in cells[CellOf(welded[w].position, tolerance)])
    && (forall c, i, j :: c in cells && 0 <= i < j < |cells[c]| ==> cells[c][i] < cells[c][j])
  }

  /** Searches one cell, in insertion order. */
  method SearchCell(cells: map<Cell, seq<nat>>, key: Cell, welded: seq<Welded>,
                    position: Vec, peers: set<nat>, tolerance: real) returns (found: Option<nat>)
    requires tolerance > 0.0 && GridOk(cells, welded, tolerance)
    ensures found.Some? ==>
              && found.value < |welded| && CellOf(welded[found.value].position, tolerance) == key
              && Eligible(welded[found.value], position, peers, tolerance)
              && forall w :: 0 <= w < found.value && CellOf(welded[w].position, tolerance) == key
                   ==> !Eligible(welded[w], position, peers, tolerance)
    ensures found.None? ==> forall w :: 0 <= w < |welded| && CellOf(welded[w].position, tolerance) == key
                              ==> !Eligible(welded[w], position, peers, tolerance)
  {
    hide *;
    var candidates := if key in cells then cells[key] else [];
    CandidatesOfCell(cells, key, welded, tolerance);
    var i := 0;
    while i < |candidates| && !Eligible(welded[candidates[i]], position, peers, tolerance)
      invariant 0 <= i <= |candidates|
      invariant forall k :: 0 <= k < i ==> !Eligible(welded[candidates[k]], position, peers, tolerance)
    {
      i := i + 1;
    }
    SearchedInOrder(candidates, i, key, welded, position, peers, tolerance);
    found := if i < |candidates| then Some(candidates[i]) else None;
  }

  /** The candidates are all representatives of the cell, oldest first. */
  ghost predicate Candidates(candidates: seq<nat>, key: Cell, welded: seq<Welded>, tolerance: real)
    requires tolerance > 0.0
  {
    && (forall k :: 0 <= k < |candidates| ==>
          candidates[k] < |welded| && CellOf(welded[candidates[k]].position, tolerance) == key)
    && (forall i, k :: 0 <= i < k < |candidates| ==> candidates[i] < candidates[k])
    && (forall w :: 0 <= w < |welded| && CellOf(welded[w].position, tolerance) == key ==>
          exists k :: 0 <= k < |candidates| && candidates[k] == w)
  }

  lemma SearchedInOrder(candidates: seq<nat>, i: nat, key: Cell, welded: seq<Welded>,
                        position: Vec, peers: set<nat>, tolerance: real)
    requires tolerance > 0.0 && i <= |candidates| && Candidates(candidates, key, welded, tolerance)
    requires forall k :: 0 <= k < |candidates| ==> candidates[k] < |welded|
    requires forall k :: 0 <= k < i ==> !Eligible(welded[candidates[k]], position, peers, tolerance)
    ensures forall w | 0 <= w < |welded| && (i < |candidates| ==> w < candidates[i])
                       && CellOf(welded[w].position, tolerance) == key
              :: !Eligible(welded[w], position, peers, tolerance)
    ensures i < |candidates| ==> CellOf(welded[candidates[i]].position, tolerance) == key
  {
    hide Eligible, CellOf;
    forall w | 0 <= w < |welded| && (i < |candidates| ==> w < candidates[i])
               && CellOf(welded[w].position, tolerance) == key
      ensures !Eligible(welded[w], position, peers, tolerance)
    {
      var k :| 0 <= k < |candidates| && candidates[k] == w;
      assert !Eligible(welded[candidates[k]], position, peers, tolerance);
    }
  }

  lemma CandidatesOfCell(cells: map<Cell, seq<nat>>, key: Cell, welded: seq<Welded>, tolerance: real)
    requires tolerance > 0.0 && GridOk(cells, welded, tolerance)
    ensures var candidates := if key in cells then cells[key] else [];
            && Candidates(candidates, key, welded, tolerance)
            && forall k :: 0 <= k < |candidates| ==> candidates[k] < |welded|
  {
    hide CellOf;
  }

  /** The cell of a representative relative to the cell of the vertex lies in the first `n` of the 27 offsets. */
  predicate Searched(c: Cell, base: Cell, n: int) {
    var (dx, dy, dz) := (c.0 - base.0 + 1, c.1 - base.1 + 1, c.2 - base.2 + 1);
    0 <= dx <= 2 && 0 <= dy <= 2 && 0 <= dz <= 2 && 9 * dx + 3 * dy + dz < n
  }

  lemma NextOffset(c: Cell, base: Cell, x: int, y: int, z: int)
    requires -1 <= x <= 1 && -1 <= y <= 1 && -1 <= z <= 1
    ensures var n := 9 * (x + 1) + 3 * (y + 1) + (z + 1);
            Searched(c, base, n + 1) <==> Searched(c, base, n) || c == (base.0 + x, base.1 + y, base.2 + z)
  {
  }

  /** What is found in a cell when all earlier cells held no match. */
  lemma FoundIsFirst(welded: seq<Welded>, position: Vec, peers: set<nat>, tolerance: real, x: int, y: int, z: int, w: nat)
    requires tolerance > 0.0 && -1 <= x <= 1 && -1 <= y <= 1 && -1 <= z <= 1
    requires var base := CellOf(position, tolerance);
             && NoneIn(welded, position, peers, tolerance, base, 9 * (x + 1) + 3 * (y + 1) + (z + 1))
             && w < |welded| && Eligible(welded[w], position, peers, tolerance)
             && CellOf(welded[w].position, tolerance) == (base.0 + x, base.1 + y, base.2 + z)
             && forall v :: 0 <= v < w && CellOf(welded[v].position, tolerance) == (base.0 + x, base.1 + y, base.2 + z)
                  ==> !Eligible(welded[v], position, peers, tolerance)
    ensures FirstMatch(welded, position, peers, tolerance, w)
  {
    hide CellOf, SharesTriangle, Within;
    var base := CellOf(position, tolerance);
    forall v | 0 <= v < |welded| && Eligible(welded[v], position, peers, tolerance)
      ensures Precedes(CellOf(welded[w].position, tolerance), w, CellOf(welded[v].position, tolerance), v)
    {
      CloseMeansNeighbour(welded[v].position, position, tolerance);
      assert !Searched(CellOf(welded[v].position, tolerance), base, 9 * (x + 1) + 3 * (y + 1) + (z + 1));
    }
  }

  /** The 27-cell search finds a match exactly when a full scan of the representatives would. */
  method FindMatch(cells: map<Cell, seq<nat>>, welded: seq<Welded>, position: Vec, peers: set<nat>, tolerance: real)
    returns (found: Option<nat>)
    requires tolerance > 0.0 && GridOk(cells, welded, tolerance)
    ensures found.Some? ==> FirstMatch(welded, position, peers, tolerance, found.value)
    ensures found.Some? <==> exists w :: 0 <= w < |welded| && Eligible(welded[w], position, peers, tolerance)
  {
    hide FirstMatch, Eligible;
    var base := CellOf(position, tolerance);
    found := None;
    var x := -1;
    while x <= 1 && found.None?
      invariant -1 <= x <= 2
      invariant found.Some? ==> FirstMatch(welded, position, peers, tolerance, found.value)
      invariant found.None? ==> NoneIn(welded, position, peers, tolerance, base, 9 * (x + 1))
    {
      found := SearchPlane(cells, welded, position, peers, tolerance, base, x);
      x := x + 1;
    }
    if found.None? {
      NothingFound(welded, position, peers, tolerance);
    } else {
      FirstIsEligible(welded, position, peers, tolerance, found.value);
    }
  }

  lemma NothingFound(welded: seq<Welded>, position: Vec, peers: set<nat>, tolerance: real)
    requires tolerance > 0.0 && NoneIn(welded, position, peers, tolerance, CellOf(position, tolerance), 27)
    ensures forall w :: 0 <= w < |welded| ==> !Eligible(welded[w], position, peers, tolerance)
  {
    hide CellOf, SharesTriangle, Within;
    forall w | 0 <= w < |welded| ensures !Eligible(welded[w], position, peers, tolerance) {
      if Eligible(welded[w], position, peers, tolerance) {
        CloseMeansNeighbour(welded[w].position, position, tolerance);
        assert false;
      }
    }
  }

  lemma FirstIsEligible(welded: seq<Welded>, position: Vec, peers: set<nat>, tolerance: real, w: nat)
    requires tolerance > 0.0 && FirstMatch(welded, position, peers, tolerance, w)
    ensures w < |welded| && Eligible(welded[w], position, peers, tolerance)
  {
  }

  ghost predicate NoneIn(welded: seq<Welded>, position: Vec, peers: set<nat>, tolerance: real, base: Cell, n: int)
    requires tolerance > 0.0
  {
    forall w :: 0 <= w < |welded| && Searched(CellOf(welded[w].position, tolerance), base, n)
      ==> !Eligible(welded[w], position, peers, tolerance)
  }

  method SearchPlane(cells: map<Cell, seq<nat>>, welded: seq<Welded>, position: Vec, peers: set<nat>,
                     tolerance: real, base: Cell, x: int) returns (found: Option<nat>)
    requires tolerance > 0.0 && GridOk(cells, welded, tolerance) && -1 <= x <= 1 && base == CellOf(position, tolerance)
    requires NoneIn(welded, position, peers, tolerance, base, 9 * (x + 1))
    ensures found.Some? ==> FirstMatch(welded, position, peers, tolerance, found.value)
    ensures found.None? ==> NoneIn(welded, position, peers, tolerance, base, 9 * (x + 2))
  {
    found := None;
    var y := -1;
    while y <= 1 && found.None?
      invariant -1 <= y <= 2
      invariant found.Some? ==> FirstMatch(welded, position, peers, tolerance, found.value)
      invariant found.None? ==> NoneIn(welded, position, peers, tolerance, base, 9 * (x + 1) + 3 * (y + 1))
    {
      found := SearchRow(cells, welded, position, peers, tolerance, base, x, y);
      y := y + 1;
    }
  }

  method SearchRow(cells: map<Cell, seq<nat>>, welded: seq<Welded>, position: Vec, peers: set<nat>,
                   tolerance: real, base: Cell, x: int, y: int) returns (found: Option<nat>)
    requires tolerance > 0.0 && GridOk(cells, welded, tolerance) && base == CellOf(position, tolerance)
    requires -1 <= x <= 1 && -1 <= y <= 1
    requires NoneIn(welded, position, peers, tolerance, base, 9 * (x + 1) + 3 * (y + 1))
    ensures found.Some? ==> FirstMatch(welded, position, peers, tolerance, found.value)
    ensures found.None? ==> NoneIn(welded, position, peers, tolerance, base, 9 * (x + 1) + 3 * (y + 2))
  {
    hide Eligible, GridOk, CellOf, FirstMatch;
    found := None;
    var z := -1;
    while z <= 1 && found.None?
      invariant -1 <= z <= 2
      invariant found.Some? ==> FirstMatch(welded, position, peers, tolerance, found.value)
      invariant found.None? ==> NoneIn(welded, position, peers, tolerance, base, 9 * (x + 1) + 3 * (y + 1) + (z + 1))
    {
      var key := (base.0 + x, base.1 + y, base.2 + z);
      found := SearchCell(cells, key, welded, position, peers, tolerance);
      if found.None? {
        forall w | 0 <= w < |welded|
                   && Searched(CellOf(welded[w].position, tolerance), base, 9 * (x + 1) + 3 * (y + 1) + (z + 1) + 1)
          ensures !Eligible(welded[w], position, peers, tolerance)
        {
          NextOffset(CellOf(welded[w].position, tolerance), base, x, y, z);
        }
      } else {
        FoundIsFirst(welded, position, peers, tolerance, x, y, z, found.value);
      }
      z := z + 1;
    }
  }

  /** The groups partition the first `n` source vertices; a vertex is in the group it is mapped to. */
  ghost predicate Partition(sourceToWelded: seq<nat>, welded: seq<Welded>, n: nat) {
    && |sourceToWelded| == n
    && (forall s :: 0 <= s < n ==> sourceToWelded[s] < |welded| && s in welded[sourceToWelded[s]].sources)
    && (forall w, i :: 0 <= w < |welded| && 0 <= i < |welded[w].sources| ==>
          welded[w].sources[i] < n && sourceToWelded[welded[w].sources[i]] == w)
    && (forall w, i, j :: 0 <= w < |welded| && 0 <= i < j < |welded[w].sources| ==>
          welded[w].sources[i] < welded[w].sources[j])
    && (forall w :: 0 <= w < |welded| ==> welded[w].sources != [])
  }

  /** Every vertex lies within the tolerance of the representative it was merged into, which is the
      position of the first vertex of the group. */
  ghost predicate Near(positions: seq<Vec>, sourceToWelded: seq<nat>, welded: seq<Welded>, tolerance: real)
    requires Partition(sourceToWelded, welded, |sourceToWelded|) && |sourceToWelded| <= |positions|
  {
    && (forall s :: 0 <= s < |sourceToWelded| ==>
          Within(welded[sourceToWelded[s]].position, positions[s], tolerance))
    && (forall w :: 0 <= w < |welded| ==> welded[w].position == positions[welded[w].sources[0]])
  }

  /** No group holds two corners of one triangle. */
  ghost predicate NoPeersInside(welded: seq<Welded>, peers: seq<set<nat>>) {
    forall w, i, j | 0 <= w < |welded| && 0 <= i < |welded[w].sources| && 0 <= j < |welded[w].sources|
                     && welded[w].sources[i] < |peers|
      :: welded[w].sources[j] !in peers[welded[w].sources[i]]
  }

  /** The groups of two representatives are joined by an edge of a triangle. */
  ghost predicate Joined(a: Welded, b: Welded, peers: seq<set<nat>>) {
    exists i, j :: 0 <= i < |a.sources| && 0 <= j < |b.sources| && b.sources[j] < |peers|
                   && a.sources[i] in peers[b.sources[j]]
  }

  /** Nothing more could have been merged. */
  ghost predicate Maximal(welded: seq<Welded>, peers: seq<set<nat>>, tolerance: real) {
    forall a, b | 0 <= a < b < |welded|
                  && Within(welded[a].position, welded[b].position, tolerance)
      :: Joined(welded[a], welded[b], peers)
  }

  ghost predicate WeldOk(positions: seq<Vec>, peers: seq<set<nat>>, tolerance: real,
                         sourceToWelded: seq<nat>, welded: seq<Welded>)
  {
    && |sourceToWelded| <= |positions|
    && Partition(sourceToWelded, welded, |sourceToWelded|)
    && Near(positions, sourceToWelded, welded, tolerance)
    && NoPeersInside(welded, peers)
    && Maximal(welded, peers, tolerance)
  }

  /** The vertex opens a group of its own. */
  lemma OpenGroup(positions: seq<Vec>, peers: seq<set<nat>>, tolerance: real,
                  map0: seq<nat>, welded: seq<Welded>)
    requires tolerance > 0.0 && WeldOk(positions, peers, tolerance, map0, welded)
    requires |map0| < |positions| == |peers| && |map0| !in peers[|map0|]
    requires forall w :: 0 <= w < |welded| ==> !Eligible(welded[w], positions[|map0|], peers[|map0|], tolerance)
    ensures WeldOk(positions, peers, tolerance, map0 + [|welded|], welded + [Welded(positions[|map0|], [|map0|])])
  {
    hide Partition, Near, NoPeersInside, Maximal, Eligible;
    var s := |map0|;
    OpenKeepsPartition(positions[s], map0, welded);
    OpenKeepsNear(positions, tolerance, map0, welded);
    OpenKeepsPeersApart(positions[s], peers, map0, welded);
    OpenKeepsMaximal(positions, peers, tolerance, map0, welded);
  }

  lemma OpenKeepsNear(positions: seq<Vec>, tolerance: real, map0: seq<nat>, welded: seq<Welded>)
    requires tolerance > 0.0 && |map0| < |positions|
    requires Partition(map0, welded, |map0|) && Near(positions, map0, welded, tolerance)
    requires Partition(map0 + [|welded|], welded + [Welded(positions[|map0|], [|map0|])], |map0| + 1)
    ensures Near(positions, map0 + [|welded|], welded + [Welded(positions[|map0|], [|map0|])], tolerance)
  {
    hide Within;
    WithinItself(positions[|map0|], tolerance);
  }

  lemma WithinItself(p: Vec, tolerance: real)
    requires tolerance > 0.0
    ensures Within(p, p, tolerance)
  {
    SquareSign(tolerance);
    SquareSign(0.0);
    assert Times(0.0, 0.0) == 0.0;
  }

  lemma OpenKeepsPeersApart(position: Vec, peers: seq<set<nat>>, map0: seq<nat>, welded: seq<Welded>)
    requires NoPeersInside(welded, peers) && |map0| < |peers| && |map0| !in peers[|map0|]
    ensures NoPeersInside(welded + [Welded(position, [|map0|])], peers)
  {
  }

  lemma OpenKeepsPartition(position: Vec, map0: seq<nat>, welded: seq<Welded>)
    requires Partition(map0, welded, |map0|)
    ensures Partition(map0 + [|welded|], welded + [Welded(position, [|map0|])], |map0| + 1)
  {
  }

  lemma OpenKeepsMaximal(positions: seq<Vec>, peers: seq<set<nat>>, tolerance: real,
                         map0: seq<nat>, welded: seq<Welded>)
    requires tolerance > 0.0 && Maximal(welded, peers, tolerance)
    requires |map0| < |positions| == |peers|
    requires forall w :: 0 <= w < |welded| ==> !Eligible(welded[w], positions[|map0|], peers[|map0|], tolerance)
    ensures Maximal(welded + [Welded(positions[|map0|], [|map0|])], peers, tolerance)
  {
    var s := |map0|;
    var now := welded + [Welded(positions[s], [s])];
    forall a, b | 0 <= a < b < |now| && Within(now[a].position, now[b].position, tolerance)
      ensures Joined(now[a], now[b], peers)
    {
      if b < |welded| {
        assert now[a] == welded[a] && now[b] == welded[b];
      } else {
        assert SharesTriangle(welded[a], peers[s]);
        var i :| 0 <= i < |welded[a].sources| && welded[a].sources[i] in peers[s];
        assert now[b].sources[0] == s;
      }
    }
  }

  /** The vertex joins the group of an eligible representative. */
  lemma JoinGroup(positions: seq<Vec>, peers: seq<set<nat>>, tolerance: real,
                  map0: seq<nat>, welded: seq<Welded>, w: nat)
    requires tolerance > 0.0 && WeldOk(positions, peers, tolerance, map0, welded)
    requires |map0| < |positions| == |peers| && |map0| !in peers[|map0|] && Symmetric(peers)
    requires w < |welded| && Eligible(welded[w], positions[|map0|], peers[|map0|], tolerance)
    ensures WeldOk(positions, peers, tolerance, map0 + [w],
                   welded[w := welded[w].(sources := welded[w].sources + [|map0|])])
  {
    hide Partition, Near, NoPeersInside, Maximal, Within;
    JoinKeepsPartition(map0, welded, w);
    JoinKeepsNear(positions, tolerance, map0, welded, w);
    JoinKeepsPeersApart(peers, map0, welded, w);
    JoinKeepsMaximal(peers, tolerance, welded, w, |map0|);
  }

  lemma JoinKeepsNear(positions: seq<Vec>, tolerance: real, map0: seq<nat>, welded: seq<Welded>, w: nat)
    requires tolerance > 0.0 && |map0| < |positions| && w < |welded|
    requires Partition(map0, welded, |map0|) && Near(positions, map0, welded, tolerance)
    requires Within(welded[w].position, positions[|map0|], tolerance)
    requires Partition(map0 + [w], welded[w := welded[w].(sources := welded[w].sources + [|map0|])], |map0| + 1)
    ensures Near(positions, map0 + [w], welded[w := welded[w].(sources := welded[w].sources + [|map0|])], tolerance)
  {
    hide Within;
  }

  lemma JoinKeepsMaximal(peers: seq<set<nat>>, tolerance: real, welded: seq<Welded>, w: nat, s: nat)
    requires w < |welded| && Maximal(welded, peers, tolerance)
    ensures Maximal(welded[w := welded[w].(sources := welded[w].sources + [s])], peers, tolerance)
  {
    hide Within;
    var now := welded[w := welded[w].(sources := welded[w].sources + [s])];
    forall a, b | 0 <= a < b < |now| && Within(now[a].position, now[b].position, tolerance)
      ensures Joined(now[a], now[b], peers)
    {
      assert Joined(welded[a], welded[b], peers);
      var i, j :| 0 <= i < |welded[a].sources| && 0 <= j < |welded[b].sources| && welded[b].sources[j] < |peers|
                  && welded[a].sources[i] in peers[welded[b].sources[j]];
      assert now[a].sources[i] == welded[a].sources[i] && now[b].sources[j] == welded[b].sources[j];
    }
  }

  lemma JoinKeepsPartition(map0: seq<nat>, welded: seq<Welded>, w: nat)
    requires Partition(map0, welded, |map0|) && w < |welded|
    ensures Partition(map0 + [w], welded[w := welded[w].(sources := welded[w].sources + [|map0|])], |map0| + 1)
  {
    var now := welded[w := welded[w].(sources := welded[w].sources + [|map0|])];
    forall s | 0 <= s < |map0| + 1 ensures s in now[(map0 + [w])[s]].sources {
      if s == |map0| {
        assert now[w].sources[|welded[w].sources|] == s;
      } else {
        var i :| 0 <= i < |welded[map0[s]].sources| && welded[map0[s]].sources[i] == s;
        assert now[map0[s]].sources[i] == s;
      }
    }
  }

  lemma JoinKeepsPeersApart(peers: seq<set<nat>>, map0: seq<nat>, welded: seq<Welded>, w: nat)
    requires Partition(map0, welded, |map0|) && NoPeersInside(welded, peers) && Symmetric(peers)
    requires |map0| < |peers| && |map0| !in peers[|map0|]
    requires w < |welded| && !SharesTriangle(welded[w], peers[|map0|])
    ensures NoPeersInside(welded[w := welded[w].(sources := welded[w].sources + [|map0|])], peers)
  {
    var s := |map0|;
    forall i | 0 <= i < |welded[w].sources| ensures welded[w].sources[i] !in peers[s] && s !in peers[welded[w].sources[i]] {
      assert !SharesTriangle(welded[w], peers[s]);
    }
  }

  // ----- which group a vertex joins -----------------------------------------------

  /** When source vertex `s` came, the group was there, held no peer of it, and its first vertex was near. */
  ghost predicate WasEligible(w: Welded, s: nat, positions: seq<Vec>, peers: set<nat>, tolerance: real)
    requires s < |positions|
  {
    && w.sources != [] && w.sources[0] < s
    && (forall i :: 0 <= i < |w.sources| && w.sources[i] < s ==> w.sources[i] !in peers)
    && Within(w.position, positions[s], tolerance)
  }

  /** The vertex joined the first group that was eligible when it came, and opened one if there was none. */
  ghost predicate Chosen(positions: seq<Vec>, peers: seq<set<nat>>, tolerance: real,
                         welded: seq<Welded>, s: nat, w: nat)
    requires tolerance > 0.0 && s < |positions| && s < |peers|
  {
    && w < |welded| && welded[w].sources != [] && s in welded[w].sources
    && (welded[w].sources[0] == s || WasEligible(welded[w], s, positions, peers[s], tolerance))
    && forall v :: 0 <= v < |welded| && WasEligible(welded[v], s, positions, peers[s], tolerance) ==>
         welded[w].sources[0] < s
         && Precedes(CellOf(welded[w].position, tolerance), w, CellOf(welded[v].position, tolerance), v)
  }

  ghost predicate AllChosen(positions: seq<Vec>, peers: seq<set<nat>>, tolerance: real, map0: seq<nat>, welded: seq<Welded>)
    requires tolerance > 0.0 && |map0| <= |positions| == |peers|
  {
    forall s :: 0 <= s < |map0| ==> Chosen(positions, peers, tolerance, welded, s, map0[s])
  }

  /** A source that is not earlier changes nothing for a vertex. */
  lemma LaterSourceIsIrrelevant(w: Welded, later: nat, s: nat, positions: seq<Vec>, peers: set<nat>, tolerance: real)
    requires s < |positions| && s <= later && w.sources != []
    ensures WasEligible(w.(sources := w.sources + [later]), s, positions, peers, tolerance)
            <==> WasEligible(w, s, positions, peers, tolerance)
  {
    hide Within;
    var now := w.sources + [later];
    assert forall i :: 0 <= i < |w.sources| ==> now[i] == w.sources[i];
  }

  /** For the vertex that comes next, all sources are earlier. */
  lemma EligibleNow(map0: seq<nat>, welded: seq<Welded>, v: nat, positions: seq<Vec>, peers: set<nat>, tolerance: real)
    requires Partition(map0, welded, |map0|) && v < |welded| && |map0| < |positions|
    ensures WasEligible(welded[v], |map0|, positions, peers, tolerance)
            <==> Eligible(welded[v], positions[|map0|], peers, tolerance)
  {
    hide Within;
  }

  lemma OpenKeepsChosen(positions: seq<Vec>, peers: seq<set<nat>>, tolerance: real, map0: seq<nat>, welded: seq<Welded>)
    requires tolerance > 0.0 && |map0| < |positions| == |peers| && Partition(map0, welded, |map0|)
    requires AllChosen(positions, peers, tolerance, map0, welded)
    requires forall w :: 0 <= w < |welded| ==> !Eligible(welded[w], positions[|map0|], peers[|map0|], tolerance)
    ensures AllChosen(positions, peers, tolerance, map0 + [|welded|], welded + [Welded(positions[|map0|], [|map0|])])
  {
    hide Partition, WasEligible, Eligible, CellOf, Precedes, Within;
    var n := |map0|;
    var now := welded + [Welded(positions[n], [n])];
    forall s | 0 <= s <= n ensures Chosen(positions, peers, tolerance, now, s, (map0 + [|welded|])[s]) {
      NewGroupIsLater(Welded(positions[n], [n]), s, positions, peers[s], tolerance);
      if s == n {
        forall v | 0 <= v < |welded| ensures !WasEligible(welded[v], n, positions, peers[n], tolerance) {
          EligibleNow(map0, welded, v, positions, peers[n], tolerance);
        }
        assert now[|welded|].sources[0] == n;
      } else {
        assert Chosen(positions, peers, tolerance, welded, s, map0[s]);
      }
    }
  }

  lemma NewGroupIsLater(w: Welded, s: nat, positions: seq<Vec>, peers: set<nat>, tolerance: real)
    requires s < |positions| && w.sources != [] && s <= w.sources[0]
    ensures !WasEligible(w, s, positions, peers, tolerance)
  {
  }

  lemma JoinKeepsChosen(positions: seq<Vec>, peers: seq<set<nat>>, tolerance: real, map0: seq<nat>, welded: seq<Welded>, w: nat)
    requires tolerance > 0.0 && |map0| < |positions| == |peers| && Partition(map0, welded, |map0|)
    requires AllChosen(positions, peers, tolerance, map0, welded)
    requires FirstMatch(welded, positions[|map0|], peers[|map0|], tolerance, w)
    ensures AllChosen(positions, peers, tolerance, map0 + [w], welded[w := welded[w].(sources := welded[w].sources + [|map0|])])
  {
    hide WasEligible, Eligible, CellOf, Precedes, Within, FirstMatch, Chosen;
    var n := |map0|;
    FirstIsEligible(welded, positions[n], peers[n], tolerance, w);
    assert welded[w].sources != [];
    hide Partition;
    var now := welded[w := welded[w].(sources := welded[w].sources + [n])];
    forall s | 0 <= s <= n ensures Chosen(positions, peers, tolerance, now, s, (map0 + [w])[s]) {
      if s == n {
        NewMemberIsChosen(positions, peers, tolerance, map0, welded, w);
      } else {
        assert Chosen(positions, peers, tolerance, welded, s, map0[s]);
        OldMemberIsChosen(positions, peers, tolerance, welded, w, n, s, map0[s]);
      }
    }
  }

  lemma OldMemberIsChosen(positions: seq<Vec>, peers: seq<set<nat>>, tolerance: real, welded: seq<Welded>,
                          w: nat, later: nat, s: nat, u: nat)
    requires tolerance > 0.0 && s < |positions| == |peers| && s < later && w < |welded| && welded[w].sources != []
    requires Chosen(positions, peers, tolerance, welded, s, u)
    ensures Chosen(positions, peers, tolerance, welded[w := welded[w].(sources := welded[w].sources + [later])], s, u)
  {
    hide WasEligible, CellOf, Precedes;
    var now := welded[w := welded[w].(sources := welded[w].sources + [later])];
    LaterSourceIsIrrelevant(welded[w], later, s, positions, peers[s], tolerance);
    var i :| 0 <= i < |welded[u].sources| && welded[u].sources[i] == s;
    assert now[u].sources[i] == s;
  }

  lemma NewMemberIsChosen(positions: seq<Vec>, peers: seq<set<nat>>, tolerance: real, map0: seq<nat>, welded: seq<Welded>, w: nat)
    requires tolerance > 0.0 && |map0| < |positions| == |peers| && Partition(map0, welded, |map0|)
    requires FirstMatch(welded, positions[|map0|], peers[|map0|], tolerance, w)
    ensures Chosen(positions, peers, tolerance, welded[w := welded[w].(sources := welded[w].sources + [|map0|])], |map0|, w)
  {
    hide CellOf, Precedes, Within, Eligible;
    var n := |map0|;
    var now := welded[w := welded[w].(sources := welded[w].sources + [n])];
    assert now[w].sources[|welded[w].sources|] == n;
    hide Partition;
    forall v | 0 <= v < |welded| ensures WasEligible(now[v], n, positions, peers[n], tolerance)
                                         <==> Eligible(welded[v], positions[n], peers[n], tolerance) {
      EligibleNow(map0, welded, v, positions, peers[n], tolerance);
      if v == w {
        LaterSourceIsIrrelevant(welded[w], n, n, positions, peers[n], tolerance);
      }
    }
  }

  /** `weldVertices`. */
  method WeldVertices(positions: seq<Vec>, peers: seq<set<nat>>, tolerance: real)
    returns (sourceToWelded: seq<nat>, welded: seq<Welded>)
    requires tolerance > 0.0 && |peers| == |positions| && Symmetric(peers)
    requires forall s :: 0 <= s < |peers| ==> s !in peers[s]
    ensures |sourceToWelded| == |positions| && WeldOk(positions, peers, tolerance, sourceToWelded, welded)
    ensures AllChosen(positions, peers, tolerance, sourceToWelded, welded)
  {
    hide WeldOk, Eligible, DistanceSquared, CellOf, Symmetric, AllChosen, FirstMatch;
    var cells: map<Cell, seq<nat>> := map[];
    sourceToWelded, welded := [], [];
    NothingWelded(positions, peers, tolerance);
    NothingChosen(positions, peers, tolerance);
    var s := 0;
    while s < |positions|
      invariant 0 <= s <= |positions| && |sourceToWelded| == s
      invariant GridOk(cells, welded, tolerance)
      invariant WeldOk(positions, peers, tolerance, sourceToWelded, welded)
      invariant AllChosen(positions, peers, tolerance, sourceToWelded, welded)
    {
      WeldIsPartition(positions, peers, tolerance, sourceToWelded, welded);
      var found := FindMatch(cells, welded, positions[s], peers[s], tolerance);
      if found.None? {
        OpenGroup(positions, peers, tolerance, sourceToWelded, welded);
        OpenKeepsChosen(positions, peers, tolerance, sourceToWelded, welded);
        var key := CellOf(positions[s], tolerance);
        var entries := if key in cells then cells[key] else [];
        GridGrows(cells, welded, tolerance, positions[s], s);
        sourceToWelded := sourceToWelded + [|welded|];
        cells := cells[key := entries + [|welded|]];
        welded := welded + [Welded(positions[s], [s])];
      } else {
        var w := found.value;
        FirstIsEligible(welded, positions[s], peers[s], tolerance, w);
        JoinKeepsChosen(positions, peers, tolerance, sourceToWelded, welded, w);
        JoinGroup(positions, peers, tolerance, sourceToWelded, welded, w);
        GridSame(cells, welded, tolerance, w, s);
        welded := welded[w := welded[w].(sources := welded[w].sources + [s])];
        sourceToWelded := sourceToWelded + [w];
      }
      s := s + 1;
    }
  }

  lemma WeldIsPartition(positions: seq<Vec>, peers: seq<set<nat>>, tolerance: real, map0: seq<nat>, welded: seq<Welded>)
    requires WeldOk(positions, peers, tolerance, map0, welded)
    ensures Partition(map0, welded, |map0|)
  {
  }

  lemma NothingWelded(positions: seq<Vec>, peers: seq<set<nat>>, tolerance: real)
    requires tolerance > 0.0
    ensures WeldOk(positions, peers, tolerance, [], []) && GridOk(map[], [], tolerance)
  {
  }

  lemma NothingChosen(positions: seq<Vec>, peers: seq<set<nat>>, tolerance: real)
    requires tolerance > 0.0 && |positions| == |peers|
    ensures AllChosen(positions, peers, tolerance, [], [])
  {
  }

  lemma GridGrows(cells: map<Cell, seq<nat>>, welded: seq<Welded>, tolerance: real, position: Vec, s: nat)
    requires tolerance > 0.0 && GridOk(cells, welded, tolerance)
    ensures var key := CellOf(position, tolerance);
            var entries := if key in cells then cells[key] else [];
            GridOk(cells[key := entries + [|welded|]], welded + [Welded(position, [s])], tolerance)
  {
    hide CellOf;
    var key := CellOf(position, tolerance);
    var entries := if key in cells then cells[key] else [];
    var after, now := cells[key := entries + [|welded|]], welded + [Welded(position, [s])];
    forall w | 0 <= w < |now|
      ensures CellOf(now[w].position, tolerance) in after && w in after[CellOf(now[w].position, tolerance)]
    {
      if w == |welded| {
        assert after[key][|entries|] == w;
      } else {
        var c := CellOf(welded[w].position, tolerance);
        var i :| 0 <= i < |cells[c]| && cells[c][i] == w;
        assert after[c][i] == w;
      }
    }
  }

  lemma GridSame(cells: map<Cell, seq<nat>>, welded: seq<Welded>, tolerance: real, w: nat, s: nat)
    requires tolerance > 0.0 && GridOk(cells, welded, tolerance) && w < |welded|
    ensures GridOk(cells, welded[w := welded[w].(sources := welded[w].sources + [s])], tolerance)
  {
    hide CellOf;
    var now := welded[w := welded[w].(sources := welded[w].sources + [s])];
    assert forall v :: 0 <= v < |now| ==> now[v].position == welded[v].position;
  }
}
