/**
  The face and normal loops of the STL preview (`createStlPreviewGeometry`), on top of welding.
  Face normals are given: a unit vector, or none for a triangle without area.
*/
module StlNormals {
  import opened Text
  import opened StlWeld

  datatype Outcome =
    | Geometry(normals: seq<Vec>)
    | Collapses(triangle: nat)
    | Degenerate(triangle: nat)

  const ZERO := Vec(0.0, 0.0, 0.0)

  predicate Distinct(a: nat, b: nat, c: nat) { a != b && b != c && a != c }

  /** The triangle repeats no source vertex. */
  predicate ProperTriangle(indices: seq<nat>, t: nat)
    requires 3 * t + 2 < |indices|
  {
    Distinct(indices[3 * t], indices[3 * t + 1], indices[3 * t + 2])
  }

  // ----- collapse -------------------------------------------------------------

  lemma GroupsKeepCornersApart(indices: seq<nat>, positions: seq<Vec>, peers: seq<set<nat>>, tolerance: real,
                               map0: seq<nat>, welded: seq<Welded>, t: nat, a: nat, b: nat)
    requires IndicesOk(indices, |positions|) && t < |indices| / 3
    requires ArePeers(indices, |indices| / 3, peers, |positions|)
    requires |map0| == |positions| && WeldOk(positions, peers, tolerance, map0, welded)
    requires a < |positions| && b < |positions| && Corners(indices, t, a, b)
    ensures map0[a] != map0[b]
  {
    hide Near, Maximal, IndicesOk;
    assert ShareTriangle(indices, |indices| / 3, a, b);
    assert b in peers[a];
    if map0[a] == map0[b] {
      assert false;
    }
  }

  /** Merging collapses a triangle exactly when the triangle repeats a source vertex. */
  lemma CollapsesIffRepeatsAVertex(indices: seq<nat>, positions: seq<Vec>, peers: seq<set<nat>>, tolerance: real,
                                   map0: seq<nat>, welded: seq<Welded>, t: nat)
    requires IndicesOk(indices, |positions|) && t < |indices| / 3
    requires ArePeers(indices, |indices| / 3, peers, |positions|)
    requires |map0| == |positions| && WeldOk(positions, peers, tolerance, map0, welded)
    ensures Distinct(map0[indices[3 * t]], map0[indices[3 * t + 1]], map0[indices[3 * t + 2]])
            <==> ProperTriangle(indices, t)
  {
    hide WeldOk, ArePeers;
    var (a, b, c) := (indices[3 * t], indices[3 * t + 1], indices[3 * t + 2]);
    if a != b { GroupsKeepCornersApart(indices, positions, peers, tolerance, map0, welded, t, a, b); }
    if b != c { GroupsKeepCornersApart(indices, positions, peers, tolerance, map0, welded, t, b, c); }
    if a != c { GroupsKeepCornersApart(indices, positions, peers, tolerance, map0, welded, t, a, c); }
  }

  // ----- normals --------------------------------------------------------------

  ghost predicate NormalsOk(normals: seq<Option<Vec>>) {
    forall t :: 0 <= t < |normals| && normals[t].Some? ==> Dot(normals[t].value, normals[t].value) == 1.0
  }

  /** Triangle `t` has a corner in group `w`. */
  predicate Touches(indices: seq<nat>, map0: seq<nat>, t: nat, w: nat)
    requires IndicesOk(indices, |map0|) && 3 * t + 2 < |indices|
  {
    OneOfFirst(w, 3, map0[indices[3 * t]], map0[indices[3 * t + 1]], map0[indices[3 * t + 2]])
  }

  /** The normals of the triangles among the first `n` that have a corner in group `w`, in order. */
  ghost function Incident(indices: seq<nat>, map0: seq<nat>, normals: seq<Option<Vec>>, w: nat, n: nat): seq<Vec>
    requires IndicesOk(indices, |map0|) && 3 * n <= |indices| && n <= |normals|
  {
    if n == 0 then [] else
      var rest := Incident(indices, map0, normals, w, n - 1);
      if Touches(indices, map0, n - 1, w) && normals[n - 1].Some? then rest + [normals[n - 1].value] else rest
  }

  /** The sum of the normals that stay within the crease angle of `face`. */
  ghost function SmoothSum(face: Vec, adjacent: seq<Vec>, creaseDot: real): Vec {
    if adjacent == [] then ZERO else
      var last := adjacent[|adjacent| - 1];
      var rest := SmoothSum(face, adjacent[..|adjacent| - 1], creaseDot);
      if Dot(face, last) > creaseDot then Add(rest, last) else rest
  }

  /** The angle between face and normal is below the crease angle. */
  predicate WithinCrease(face: Vec, n: Vec, creaseDot: real) {
    face.x * n.x + face.y * n.y + face.z * n.z > creaseDot
  }

  lemma WithinCreaseIff(face: Vec, n: Vec, creaseDot: real)
    ensures WithinCrease(face, n, creaseDot) <==> Dot(face, n) > creaseDot
  {
  }

  /** The vectors at the positions, added up coordinate by coordinate. */
  function SumAt(vectors: seq<Vec>, picked: seq<nat>): Vec
    requires forall i :: 0 <= i < |picked| ==> picked[i] < |vectors|
  {
    if picked == [] then Vec(0.0, 0.0, 0.0)
    else
      var rest := SumAt(vectors, picked[..|picked| - 1]);
      var v := vectors[picked[|picked| - 1]];
      Vec(rest.x + v.x, rest.y + v.y, rest.z + v.z)
  }

  /** Each of these positions once. */
  predicate Ascending(picked: seq<nat>, n: nat) {
    && (forall i, j :: 0 <= i < j < |picked| ==> picked[i] < picked[j])
    && (forall i :: 0 <= i < |picked| ==> picked[i] < n)
  }

  lemma OneMorePosition(picked: seq<nat>, n: nat)
    requires Ascending(picked, n)
    ensures Ascending(picked, n + 1) && Ascending(picked + [n], n + 1)
    ensures forall t: nat :: t in picked ==> t < n
    ensures forall t: nat :: t in picked + [n] <==> t in picked || t == n
  {
  }

  lemma PositionsInRange(picked: seq<nat>, n: nat)
    requires Ascending(picked, n)
    ensures forall i :: 0 <= i < |picked| ==> picked[i] < n
  {
  }

  /** The positions of exactly the normals within the crease angle. */
  ghost predicate PicksNormals(face: Vec, adjacent: seq<Vec>, creaseDot: real, picked: seq<nat>) {
    && Ascending(picked, |adjacent|)
    && forall i: nat :: i < |adjacent| ==> (i in picked <==> WithinCrease(face, adjacent[i], creaseDot))
  }

  lemma SumAtAppend(vectors: seq<Vec>, picked: seq<nat>, t: nat)
    requires t < |vectors| && forall i :: 0 <= i < |picked| ==> picked[i] < |vectors|
    ensures SumAt(vectors, picked + [t]) == Add(SumAt(vectors, picked), vectors[t])
  {
    assert (picked + [t])[..|picked|] == picked;
  }

  lemma {:induction false} SumAtPrefix(vectors: seq<Vec>, longer: seq<Vec>, picked: seq<nat>)
    requires vectors <= longer && forall i :: 0 <= i < |picked| ==> picked[i] < |vectors|
    ensures SumAt(longer, picked) == SumAt(vectors, picked)
    decreases picked
  {
    if picked != [] {
      SumAtPrefix(vectors, longer, picked[..|picked| - 1]);
    }
  }

  /** The sum takes every normal within the crease angle, as often as it occurs, and no other. */
  lemma {:induction false} SmoothSumPicks(face: Vec, adjacent: seq<Vec>, creaseDot: real) returns (picked: seq<nat>)
    ensures PicksNormals(face, adjacent, creaseDot, picked)
    ensures SmoothSum(face, adjacent, creaseDot) == SumAt(adjacent, picked)
  {
    if adjacent == [] {
      picked := [];
    } else {
      hide SumAt, WithinCrease, Dot, Add, Ascending;
      var (front, last) := (adjacent[..|adjacent| - 1], |adjacent| - 1);
      var rest := SmoothSumPicks(face, front, creaseDot);
      PositionsInRange(rest, last);
      OneMorePosition(rest, last);
      SumAtPrefix(front, adjacent, rest);
      SumAtAppend(adjacent, rest, last);
      WithinCreaseIff(face, adjacent[last], creaseDot);
      picked := if WithinCrease(face, adjacent[last], creaseDot) then rest + [last] else rest;
      PositionsInRange(picked, |adjacent|);
      forall i: nat | i < |adjacent| ensures i in picked <==> WithinCrease(face, adjacent[i], creaseDot) {
        if i < last {
          assert adjacent[i] == front[i];
        }
      }
    }
  }

  /** Wherever a normal comes in, it adds itself if it lies within the crease angle, and nothing if it does not. */
  lemma {:induction false} OneMoreNormal(face: Vec, before: seq<Vec>, n: Vec, after: seq<Vec>, creaseDot: real)
    ensures SmoothSum(face, before + [n] + after, creaseDot) ==
            var sum := SmoothSum(face, before + after, creaseDot);
            if WithinCrease(face, n, creaseDot) then Vec(sum.x + n.x, sum.y + n.y, sum.z + n.z) else sum
    decreases |after|
  {
    var (all, others) := (before + [n] + after, before + after);
    if after == [] {
      assert all[..|all| - 1] == before && others == before;
      WithinCreaseIff(face, n, creaseDot);
    } else {
      var (front, last) := (after[..|after| - 1], after[|after| - 1]);
      OneMoreNormal(face, before, n, front, creaseDot);
      assert all[..|all| - 1] == before + [n] + front && others[..|others| - 1] == before + front;
      assert all[|all| - 1] == last == others[|others| - 1];
      hide Dot, WithinCrease;
    }
  }

  lemma DotOfSum(face: Vec, a: Vec, b: Vec)
    ensures Dot(face, Add(a, b)) == Dot(face, a) + Dot(face, b)
  {
    assert face.x * (a.x + b.x) == face.x * a.x + face.x * b.x;
    assert face.y * (a.y + b.y) == face.y * a.y + face.y * b.y;
    assert face.z * (a.z + b.z) == face.z * a.z + face.z * b.z;
  }

  /** A smoothed corner normal never turns away from its own face. */
  lemma {:induction false} SmoothNormalFacesItsFace(face: Vec, adjacent: seq<Vec>, creaseDot: real)
    requires Dot(face, face) == 1.0 && 0.0 < creaseDot < 1.0
    ensures Dot(face, SmoothSum(face, adjacent, creaseDot)) >= 0.0
    ensures face in adjacent ==> Dot(face, SmoothSum(face, adjacent, creaseDot)) >= 1.0
  {
    if adjacent != [] {
      var front, last := adjacent[..|adjacent| - 1], adjacent[|adjacent| - 1];
      SmoothNormalFacesItsFace(face, front, creaseDot);
      DotOfSum(face, SmoothSum(face, front, creaseDot), last);
      assert adjacent == front + [last];
      hide Dot;
    }
  }

  /** The normal of a triangle is incident to the groups of its own corners. */
  lemma {:induction false} OwnNormalIsIncident(indices: seq<nat>, map0: seq<nat>, normals: seq<Option<Vec>>,
                                               w: nat, n: nat, t: nat)
    requires IndicesOk(indices, |map0|) && 3 * n <= |indices| && n <= |normals|
    requires t < n && Touches(indices, map0, t, w) && normals[t].Some?
    ensures normals[t].value in Incident(indices, map0, normals, w, n)
  {
    if t < n - 1 {
      OwnNormalIsIncident(indices, map0, normals, w, n - 1, t);
    }
  }

  // ----- the method -----------------------------------------------------------

  predicate GoodTriangle(indices: seq<nat>, normals: seq<Option<Vec>>, t: nat)
    requires 3 * t + 2 < |indices| && t < |normals|
  {
    ProperTriangle(indices, t) && normals[t].Some?
  }

  /** The unit normals of the faces. */
  function Faces(normals: seq<Option<Vec>>): seq<Vec> {
    seq(|normals|, t requires 0 <= t < |normals| => if normals[t].Some? then normals[t].value else ZERO)
  }

  /** Triangle `t` has a corner that was merged with source vertex `v`. */
  predicate Meets(indices: seq<nat>, map0: seq<nat>, t: nat, v: nat)
    requires IndicesOk(indices, |map0|) && v < |map0| && 3 * t + 2 < |indices|
  {
    || map0[indices[3 * t]] == map0[v]
    || map0[indices[3 * t + 1]] == map0[v]
    || map0[indices[3 * t + 2]] == map0[v]
  }

  /** Triangle `t` has an area, meets source vertex `v`, and lies at less than the crease angle to `face`. */
  predicate Contributes(indices: seq<nat>, map0: seq<nat>, normals: seq<Option<Vec>>, creaseDot: real,
                        face: Vec, v: nat, t: nat)
    requires IndicesOk(indices, |map0|) && v < |map0| && 3 * t + 2 < |indices| && t < |normals|
  {
    Meets(indices, map0, t, v) && normals[t].Some? && WithinCrease(face, normals[t].value, creaseDot)
  }

  /** Exactly the triangles among the first `n` that contribute to the normal of vertex `v` on `face`. */
  ghost predicate PicksTriangles(indices: seq<nat>, map0: seq<nat>, normals: seq<Option<Vec>>, creaseDot: real,
                                 face: Vec, v: nat, n: nat, picked: seq<nat>)
    requires IndicesOk(indices, |map0|) && v < |map0| && 3 * n <= |indices| && n <= |normals|
  {
    && Ascending(picked, n)
    && forall t: nat :: t < n ==>
         (t in picked <==> Contributes(indices, map0, normals, creaseDot, face, v, t))
  }

  lemma {:induction false} IncidentPicks(indices: seq<nat>, map0: seq<nat>, normals: seq<Option<Vec>>, creaseDot: real,
                                         face: Vec, v: nat, n: nat) returns (picked: seq<nat>)
    requires IndicesOk(indices, |map0|) && v < |map0| && 3 * n <= |indices| && n <= |normals|
    ensures PicksTriangles(indices, map0, normals, creaseDot, face, v, n, picked)
    ensures SmoothSum(face, Incident(indices, map0, normals, map0[v], n), creaseDot) == SumAt(Faces(normals), picked)
  {
    if n == 0 {
      picked := [];
    } else {
      hide *;
      var t := n - 1;
      var rest := IncidentPicks(indices, map0, normals, creaseDot, face, v, t);
      OneMorePick(indices, map0, normals, creaseDot, face, v, t, rest);
      FacesAt(normals);
      OneMoreTriangleNormal(indices, map0, normals, creaseDot, face, v, t);
      SumAtAppend(Faces(normals), rest, t);
      picked := if Contributes(indices, map0, normals, creaseDot, face, v, t) then rest + [t] else rest;
    }
  }

  lemma OneMorePick(indices: seq<nat>, map0: seq<nat>, normals: seq<Option<Vec>>, creaseDot: real,
                    face: Vec, v: nat, t: nat, rest: seq<nat>)
    requires IndicesOk(indices, |map0|) && v < |map0| && 3 * t + 3 <= |indices| && t < |normals|
    requires PicksTriangles(indices, map0, normals, creaseDot, face, v, t, rest)
    ensures forall i :: 0 <= i < |rest| ==> rest[i] < t
    ensures PicksTriangles(indices, map0, normals, creaseDot, face, v, t + 1,
                           if Contributes(indices, map0, normals, creaseDot, face, v, t) then rest + [t] else rest)
  {
    hide Contributes, Ascending;
    PositionsInRange(rest, t);
    OneMorePosition(rest, t);
    var picked := if Contributes(indices, map0, normals, creaseDot, face, v, t) then rest + [t] else rest;
    forall u: nat | u < t + 1 ensures u in picked <==> Contributes(indices, map0, normals, creaseDot, face, v, u) {
    }
  }

  lemma OneMoreTriangleNormal(indices: seq<nat>, map0: seq<nat>, normals: seq<Option<Vec>>, creaseDot: real,
                              face: Vec, v: nat, t: nat)
    requires IndicesOk(indices, |map0|) && v < |map0| && 3 * t + 3 <= |indices| && t < |normals|
    ensures var was := SmoothSum(face, Incident(indices, map0, normals, map0[v], t), creaseDot);
            SmoothSum(face, Incident(indices, map0, normals, map0[v], t + 1), creaseDot) ==
            if Contributes(indices, map0, normals, creaseDot, face, v, t) then Add(was, Faces(normals)[t]) else was
  {
    hide SmoothSum, Dot, Add, WithinCrease;
    MeetsIff(indices, map0, t, v);
    FacesAt(normals);
    if normals[t].Some? {
      SmoothSumAppend(face, Incident(indices, map0, normals, map0[v], t), normals[t].value, creaseDot);
      WithinCreaseIff(face, normals[t].value, creaseDot);
    }
  }

  lemma MeetsIff(indices: seq<nat>, map0: seq<nat>, t: nat, v: nat)
    requires IndicesOk(indices, |map0|) && v < |map0| && 3 * t + 2 < |indices|
    ensures Meets(indices, map0, t, v) <==> Touches(indices, map0, t, map0[v])
  {
  }

  lemma FacesAt(normals: seq<Option<Vec>>)
    ensures |Faces(normals)| == |normals|
    ensures forall t :: 0 <= t < |normals| && normals[t].Some? ==> Faces(normals)[t] == normals[t].value
  {
  }

  lemma SmoothSumAppend(face: Vec, adjacent: seq<Vec>, n: Vec, creaseDot: real)
    ensures SmoothSum(face, adjacent + [n], creaseDot) ==
            if Dot(face, n) > creaseDot then Add(SmoothSum(face, adjacent, creaseDot), n)
            else SmoothSum(face, adjacent, creaseDot)
  {
    assert (adjacent + [n])[..|adjacent|] == adjacent;
  }

  /** The normal of corner `c`: the sum of the normals of exactly those triangles that meet its vertex at less than the
      crease angle to its own face, which is one of them. */
  ghost predicate CornerNormal(indices: seq<nat>, map0: seq<nat>, normals: seq<Option<Vec>>, creaseDot: real,
                               c: nat, sum: Vec)
    requires IndicesOk(indices, |map0|) && c < |indices| == 3 * |normals|
  {
    && normals[c / 3].Some?
    && var face := normals[c / 3].value;
    && (exists picked :: PicksTriangles(indices, map0, normals, creaseDot, face, indices[c], |normals|, picked)
                         && c / 3 in picked && sum == SumAt(Faces(normals), picked))
    && Dot(face, sum) >= 1.0
  }

  /** The loop over triangles: it stops at the first one that repeats a vertex or has no area. */
  method PushFaceNormals(indices: seq<nat>, positions: seq<Vec>, peers: seq<set<nat>>, tolerance: real,
                         map0: seq<nat>, welded: seq<Welded>, normals: seq<Option<Vec>>)
    returns (failure: Option<Outcome>, faceNormals: seq<seq<Vec>>)
    requires IndicesOk(indices, |positions|) && |indices| == 3 * |normals|
    requires ArePeers(indices, |indices| / 3, peers, |positions|)
    requires |map0| == |positions| && WeldOk(positions, peers, tolerance, map0, welded)
    ensures failure.None? ==>
              && (forall t :: 0 <= t < |normals| ==> GoodTriangle(indices, normals, t))
              && |faceNormals| == |welded|
              && forall w :: 0 <= w < |welded| ==> faceNormals[w] == Incident(indices, map0, normals, w, |normals|)
    ensures failure.Some? ==> FirstBad(indices, normals, failure.value)
  {
    hide WeldOk, ArePeers, GoodTriangle;
    faceNormals := seq(|welded|, _ => []);
    var t := 0;
    while t < |normals|
      invariant 0 <= t <= |normals| && |faceNormals| == |welded|
      invariant forall u :: 0 <= u < t ==> GoodTriangle(indices, normals, u)
      invariant forall w :: 0 <= w < |welded| ==> faceNormals[w] == Incident(indices, map0, normals, w, t)
    {
      var (a, b, c) := (map0[indices[3 * t]], map0[indices[3 * t + 1]], map0[indices[3 * t + 2]]);
      CollapsesIffRepeatsAVertex(indices, positions, peers, tolerance, map0, welded, t);
      GoodMeans(indices, normals, t);
      if !Distinct(a, b, c) {
        return Some(Collapses(t)), faceNormals;
      }
      if normals[t].None? {
        return Some(Degenerate(t)), faceNormals;
      }
      MapIsInRange(positions, peers, tolerance, map0, welded, indices[3 * t]);
      MapIsInRange(positions, peers, tolerance, map0, welded, indices[3 * t + 1]);
      MapIsInRange(positions, peers, tolerance, map0, welded, indices[3 * t + 2]);
      var n := normals[t].value;
      faceNormals := faceNormals[a := faceNormals[a] + [n]];
      faceNormals := faceNormals[b := faceNormals[b] + [n]];
      faceNormals := faceNormals[c := faceNormals[c] + [n]];
      t := t + 1;
    }
    failure := None;
  }

  lemma GoodMeans(indices: seq<nat>, normals: seq<Option<Vec>>, t: nat)
    requires 3 * t + 2 < |indices| && t < |normals|
    ensures GoodTriangle(indices, normals, t) <==> ProperTriangle(indices, t) && normals[t].Some?
  {
  }

  lemma MapIsInRange(positions: seq<Vec>, peers: seq<set<nat>>, tolerance: real,
                     map0: seq<nat>, welded: seq<Welded>, s: nat)
    requires s < |map0| && WeldOk(positions, peers, tolerance, map0, welded)
    ensures map0[s] < |welded|
  {
    hide Near, NoPeersInside, Maximal;
  }

  /** The failure names the first bad triangle: a collapse if it repeats a vertex, else a lack of area. */
  ghost predicate FirstBad(indices: seq<nat>, normals: seq<Option<Vec>>, failure: Outcome)
    requires |indices| == 3 * |normals|
  {
    && (failure.Collapses? || failure.Degenerate?)
    && failure.triangle < |normals|
    && (forall u :: 0 <= u < failure.triangle ==> GoodTriangle(indices, normals, u))
    && (failure.Collapses? <==> !ProperTriangle(indices, failure.triangle))
    && (failure.Degenerate? ==> normals[failure.triangle].None?)
  }

  /** The loop over adjacent normals of one corner. */
  method AddSmooth(face: Vec, adjacent: seq<Vec>, creaseDot: real) returns (sum: Vec)
    ensures sum == SmoothSum(face, adjacent, creaseDot)
    ensures exists picked :: PicksNormals(face, adjacent, creaseDot, picked) && sum == SumAt(adjacent, picked)
  {
    hide Dot, Add, WithinCrease, SumAt;
    sum := ZERO;
    var i := 0;
    while i < |adjacent|
      invariant 0 <= i <= |adjacent| && sum == SmoothSum(face, adjacent[..i], creaseDot)
    {
      assert adjacent[..i + 1][..i] == adjacent[..i];
      if Dot(face, adjacent[i]) > creaseDot {
        sum := Add(sum, adjacent[i]);
      }
      i := i + 1;
    }
    assert adjacent[..i] == adjacent;
    ghost var picked := SmoothSumPicks(face, adjacent, creaseDot);
  }

  lemma CornerIsSmooth(indices: seq<nat>, map0: seq<nat>, normals: seq<Option<Vec>>, creaseDot: real, c: nat)
    requires IndicesOk(indices, |map0|) && c < |indices| == 3 * |normals| && normals[c / 3].Some?
    requires NormalsOk(normals) && 0.0 < creaseDot < 1.0
    ensures CornerNormal(indices, map0, normals, creaseDot, c,
                         SmoothSum(normals[c / 3].value,
                                   Incident(indices, map0, normals, map0[indices[c]], |normals|), creaseDot))
  {
    var face, w := normals[c / 3].value, map0[indices[c]];
    assert c == 3 * (c / 3) || c == 3 * (c / 3) + 1 || c == 3 * (c / 3) + 2;
    assert Touches(indices, map0, c / 3, w);
    OwnNormalIsIncident(indices, map0, normals, w, |normals|, c / 3);
    SmoothNormalFacesItsFace(face, Incident(indices, map0, normals, w, |normals|), creaseDot);
    var picked := IncidentPicks(indices, map0, normals, creaseDot, face, indices[c], |normals|);
    WithinCreaseIff(face, face, creaseDot);
    assert c / 3 in picked;
  }

  lemma PeersCount(indices: seq<nat>, n: nat, peers: seq<set<nat>>, vertexCount: nat)
    requires 3 * n <= |indices| && ArePeers(indices, n, peers, vertexCount)
    ensures |peers| == vertexCount
  {
  }

  lemma NotZero(indices: seq<nat>, map0: seq<nat>, normals: seq<Option<Vec>>, creaseDot: real, c: nat, sum: Vec)
    requires IndicesOk(indices, |map0|) && c < |indices| == 3 * |normals|
    requires CornerNormal(indices, map0, normals, creaseDot, c, sum)
    ensures Dot(sum, sum) != 0.0
  {
    hide SmoothSum, Incident, Dot, SumAt, PicksTriangles;
    NonZeroVector(normals[c / 3].value, sum);
  }

  lemma NonZeroVector(face: Vec, sum: Vec)
    requires Dot(face, sum) != 0.0
    ensures Dot(sum, sum) > 0.0
  {
    SquareSign(sum.x);
    SquareSign(sum.y);
    SquareSign(sum.z);
  }

  lemma FirstBadIsBad(indices: seq<nat>, normals: seq<Option<Vec>>, failure: Outcome)
    requires |indices| == 3 * |normals| && FirstBad(indices, normals, failure)
    ensures !failure.Geometry? && exists t :: 0 <= t < |normals| && !GoodTriangle(indices, normals, t)
  {
    assert !GoodTriangle(indices, normals, failure.triangle);
  }

  /** `createStlPreviewGeometry` up to scaling the summed normals to unit length: it succeeds exactly when every
      triangle has three different source vertices and an area, whatever is merged, and it never runs out of normal. */
  method CreateGeometry(positions: seq<Vec>, indices: seq<nat>, tolerance: real, normals: seq<Option<Vec>>,
                        creaseDot: real) returns (outcome: Outcome, map0: seq<nat>, welded: seq<Welded>)
    requires tolerance > 0.0 && 0.0 < creaseDot < 1.0
    requires IndicesOk(indices, |positions|) && |indices| == 3 * |normals| && NormalsOk(normals)
    ensures |map0| == |positions|
    ensures exists peers :: ArePeers(indices, |indices| / 3, peers, |positions|)
                            && WeldOk(positions, peers, tolerance, map0, welded)
                            && AllChosen(positions, peers, tolerance, map0, welded)
    ensures outcome.Geometry? <==> forall t :: 0 <= t < |normals| ==> GoodTriangle(indices, normals, t)
    ensures !outcome.Geometry? ==> FirstBad(indices, normals, outcome)
    ensures outcome.Geometry? ==>
              && |outcome.normals| == |indices|
              && forall c :: 0 <= c < |indices| ==>
                   CornerNormal(indices, map0, normals, creaseDot, c, outcome.normals[c])
  {
    hide WeldOk, AllChosen, ArePeers, CornerNormal, FirstBad, SmoothSum, PicksNormals, SumAt;
    var peers := BuildTrianglePeers(indices, |positions|);
    PeersAreSymmetric(indices, |indices| / 3, peers, |positions|);
    PeersCount(indices, |indices| / 3, peers, |positions|);
    map0, welded := WeldVertices(positions, peers, tolerance);
    var failure, faceNormals := PushFaceNormals(indices, positions, peers, tolerance, map0, welded, normals);
    if failure.Some? {
      FirstBadIsBad(indices, normals, failure.value);
      return failure.value, map0, welded;
    }
    var sums := [];
    var c := 0;
    while c < |indices|
      invariant 0 <= c <= |indices| && |sums| == c
      invariant forall k :: 0 <= k < c ==> CornerNormal(indices, map0, normals, creaseDot, k, sums[k])
    {
      assert GoodTriangle(indices, normals, c / 3);
      MapIsInRange(positions, peers, tolerance, map0, welded, indices[c]);
      CornerIsSmooth(indices, map0, normals, creaseDot, c);
      var sum := AddSmooth(normals[c / 3].value, faceNormals[map0[indices[c]]], creaseDot);
      NotZero(indices, map0, normals, creaseDot, c, sum);
      if Dot(sum, sum) == 0.0 {
        assert false;
      }
      sums := sums + [sum];
      c := c + 1;
    }
    outcome := Geometry(sums);
  }
}
