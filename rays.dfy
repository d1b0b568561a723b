/** `searchInMiShape`: rays cast from a cell in the eight compass directions
    (the 米 shape). Supply lines, fire range and cavalry charges are built on it. */
module Rays {
  import opened Seqs
  import opened Pieces
  import opened Geometry

  /** The cell filters the engine passes to the search. */
  datatype RayFilter =
    | SupplyLine(player: Player)   // dirSupplyFrom
    | FireLine                     // fireRange
    | ChargeLine(target: Player)   // getChargedCavalries, `target` owns the attacked unit

  predicate Admits(f: RayFilter, b: Board, id: int)
    requires 0 <= id < |b.cells|
  {
    var o := b.cells[id];
    match f
    case SupplyLine(p) =>
      // blocked by an armed, supplied enemy unit (retreating or not) and by Mountains
      !(o.Some? && o.value.belong != p && o.value.Data().offense > 0 && o.value.supplied)
      && PlaceTypeAt(b, id) != Some(Mountain)
    case FireLine =>
      PlaceTypeAt(b, id) != Some(Mountain)
    case ChargeLine(t) =>
      // a supplied, non-retreating cavalry of the other side, not standing in a Fortress
      o.Some? && o.value.Data().objType == Cavalry && o.value.belong != t
      && o.value.supplied && !o.value.retreating && PlaceTypeAt(b, id) != Some(Fortress)
  }

  /** The ray goes on through `id`: on the board, present in `cells`, and admitted. */
  predicate Passes(b: Board, f: RayFilter, id: int) {
    id != -1 && 0 <= id < |b.cells| && Admits(f, b, id)
  }

  /** The eight directions in the order of the search loops (`i` outer, `j` inner). */
  const Directions: seq<Pos> :=
    [Pos(-1, -1), Pos(-1, 0), Pos(-1, 1), Pos(0, -1), Pos(0, 1), Pos(1, -1), Pos(1, 0), Pos(1, 1)]

  /** The cell `n` steps from `p` in direction `d` (-1 off the board). */
  function Along(p: Pos, d: Pos, n: int): int {
    Pos2CId(p.x + n * d.x, p.y + n * d.y)
  }

  /** How many cells, from distance `n` on and up to `max`, the ray passes before it stops. */
  function RayLength(b: Board, f: RayFilter, p: Pos, d: Pos, n: int, max: int): nat
    decreases max - n
  {
    if n > max || !Passes(b, f, Along(p, d, n)) then 0 else 1 + RayLength(b, f, p, d, n + 1, max)
  }

  /** The ray from `cid` in direction `d`, as cell ids. */
  function Ray(b: Board, f: RayFilter, cid: int, d: Pos, min: int, max: int): seq<int> {
    var p := CId2Pos(cid);
    seq(RayLength(b, f, p, d, min, max), t => Along(p, d, min + t))
  }

  /** The same ray as positions relative to `cid`. */
  function RayRel(b: Board, f: RayFilter, cid: int, d: Pos, min: int, max: int): seq<Pos> {
    seq(RayLength(b, f, CId2Pos(cid), d, min, max), t => Pos((min + t) * d.x, (min + t) * d.y))
  }

  function NonEmpty<T>(r: seq<T>): seq<seq<T>> {
    if |r| != 0 then [r] else []
  }

  function CIdRows(b: Board, f: RayFilter, cid: int, min: int, max: int, ds: seq<Pos>): seq<seq<int>> {
    if ds == [] then []
    else CIdRows(b, f, cid, min, max, ds[..|ds| - 1]) + NonEmpty(Ray(b, f, cid, ds[|ds| - 1], min, max))
  }

  function RelRows(b: Board, f: RayFilter, cid: int, min: int, max: int, ds: seq<Pos>): seq<seq<Pos>> {
    if ds == [] then []
    else RelRows(b, f, cid, min, max, ds[..|ds| - 1]) + NonEmpty(RayRel(b, f, cid, ds[|ds| - 1], min, max))
  }

  /** `searchInMiShape(...)[0]`: the non-empty rays, as cell ids. */
  function MiShape(b: Board, f: RayFilter, cid: int, min: int, max: int): seq<seq<int>> {
    CIdRows(b, f, cid, min, max, Directions)
  }

  /** `searchInMiShape(...)[1]`: the non-empty rays, as relative positions. */
  function MiShapeRel(b: Board, f: RayFilter, cid: int, min: int, max: int): seq<seq<Pos>> {
    RelRows(b, f, cid, min, max, Directions)
  }

  /** Index in `Directions` of the direction `(i, j)` visited by the nested loops. */
  function DirIndex(i: int, j: int): int {
    3 * (i + 1) + (j + 1) - (if i > 0 || (i == 0 && j > 0) then 1 else 0)
  }

  lemma DirectionAt(i: int, j: int)
    requires -1 <= i <= 1 && -1 <= j <= 1 && (i != 0 || j != 0)
    ensures 0 <= DirIndex(i, j) < |Directions| && Directions[DirIndex(i, j)] == Pos(i, j)
  {
    if i == -1 {
      if j == -1 {} else if j == 0 {} else {}
    } else if i == 0 {
      if j == -1 {} else {}
    } else {
      if j == -1 {} else if j == 0 {} else {}
    }
  }

  lemma AllDirections(b: Board, f: RayFilter, cid: int, min: int, max: int)
    ensures MiShape(b, f, cid, min, max) == CIdRows(b, f, cid, min, max, Directions[..8])
    ensures MiShapeRel(b, f, cid, min, max) == RelRows(b, f, cid, min, max, Directions[..8])
  {
    assert Directions[..8] == Directions;
  }

  /** Appending the ray of the next direction to the rows found so far. */
  lemma RowsStep(b: Board, f: RayFilter, cid: int, min: int, max: int, ds: seq<Pos>, k: nat)
    requires k < |ds|
    ensures CIdRows(b, f, cid, min, max, ds[..k + 1])
         == CIdRows(b, f, cid, min, max, ds[..k]) + NonEmpty(Ray(b, f, cid, ds[k], min, max))
    ensures RelRows(b, f, cid, min, max, ds[..k + 1])
         == RelRows(b, f, cid, min, max, ds[..k]) + NonEmpty(RayRel(b, f, cid, ds[k], min, max))
  {
    assert ds[..k + 1][..k] == ds[..k];
  }

  /** A step of one of the eight searches: each coordinate moves by at most one, and one of them moves. */
  predicate UnitDir(d: Pos) {
    -1 <= d.x <= 1 && -1 <= d.y <= 1 && (d.x != 0 || d.y != 0)
  }

  lemma DirectionsAreUnit()
    ensures forall k :: 0 <= k < |Directions| ==> UnitDir(Directions[k])
  {
  }

  /** The walk stops at the first refused cell: it is at most `max - n + 1` long,
      every cell it covers passes, and when it stops short of `max` the next cell fails. */
  lemma {:induction false} RayShape(b: Board, f: RayFilter, p: Pos, d: Pos, n: int, max: int)
    ensures RayLength(b, f, p, d, n, max) <= if n <= max then max - n + 1 else 0
    ensures forall m :: n <= m < n + RayLength(b, f, p, d, n, max) ==> Passes(b, f, Along(p, d, m))
    ensures n + RayLength(b, f, p, d, n, max) <= max
            ==> !Passes(b, f, Along(p, d, n + RayLength(b, f, p, d, n, max)))
    decreases max - n
  {
    if n <= max && Passes(b, f, Along(p, d, n)) {
      RayShape(b, f, p, d, n + 1, max);
    }
  }

  /** `n * e` for a direction component `e`. */
  lemma MulUnit(n: int, e: int)
    requires -1 <= e <= 1
    ensures n * e == if e == 1 then n else if e == -1 then -n else 0
  {
  }

  /** On the board, the cell `n >= 0` steps away along a unit direction is at distance `n`. */
  lemma AlongDistance(cid: int, d: Pos, n: int)
    requires 0 <= cid < N && UnitDir(d) && 0 <= n
    requires Along(CId2Pos(cid), d, n) != -1
    ensures CellDistance(cid, Along(CId2Pos(cid), d, n)) == n
  {
    var p := CId2Pos(cid);
    MulUnit(n, d.x);
    MulUnit(n, d.y);
    var x, y := p.x + n * d.x, p.y + n * d.y;
    PosRoundTrip(x, y);
    CIdRoundTrip(cid);
    assert CId2Pos(Along(p, d, n)) == Pos(x, y);
    assert NaiveDistance(Pos(x, y), p) == n;
  }

  /** The facts about one ray of `searchInMiShape`: no longer than `max - min + 1`,
      each of its cells on the board, admitted by the filter and exactly `min + t`
      steps from the origin, and the walk ends at `max` or at a refused cell. */
  lemma RayFacts(b: Board, f: RayFilter, cid: int, d: Pos, min: int, max: int)
    requires 0 <= cid < N && UnitDir(d) && 0 <= min
    ensures |Ray(b, f, cid, d, min, max)| <= if min <= max then max - min + 1 else 0
    ensures |RayRel(b, f, cid, d, min, max)| == |Ray(b, f, cid, d, min, max)|
    ensures forall t :: 0 <= t < |Ray(b, f, cid, d, min, max)| ==>
              Passes(b, f, Ray(b, f, cid, d, min, max)[t])
              && CellDistance(cid, Ray(b, f, cid, d, min, max)[t]) == min + t
    ensures var r := Ray(b, f, cid, d, min, max);
            min + |r| <= max ==> !Passes(b, f, Along(CId2Pos(cid), d, min + |r|))
  {
    var p := CId2Pos(cid);
    var r := Ray(b, f, cid, d, min, max);
    RayShape(b, f, p, d, min, max);
    forall t | 0 <= t < |r|
      ensures Passes(b, f, r[t]) && CellDistance(cid, r[t]) == min + t
    {
      RayCell(b, f, cid, d, min, max, t);
    }
  }

  /** The `t`-th cell of a ray. */
  lemma RayCell(b: Board, f: RayFilter, cid: int, d: Pos, min: int, max: int, t: int)
    requires 0 <= cid < N && UnitDir(d) && 0 <= min
    requires 0 <= t < |Ray(b, f, cid, d, min, max)|
    requires forall m :: min <= m < min + |Ray(b, f, cid, d, min, max)| ==> Passes(b, f, Along(CId2Pos(cid), d, m))
    ensures Passes(b, f, Ray(b, f, cid, d, min, max)[t])
    ensures CellDistance(cid, Ray(b, f, cid, d, min, max)[t]) == min + t
  {
    var r := Ray(b, f, cid, d, min, max);
    assert r[t] == Along(CId2Pos(cid), d, min + t);
    assert Passes(b, f, Along(CId2Pos(cid), d, min + t));
    AlongDistance(cid, d, min + t);
  }

  /** Every cell found by the search lies on the board, is admitted by the filter,
      and lies between `min` and `max` steps from the origin. */
  lemma {:induction false} RowsFacts(b: Board, f: RayFilter, cid: int, min: int, max: int, ds: seq<Pos>)
    requires 0 <= cid < N && 0 <= min
    requires forall k :: 0 <= k < |ds| ==> UnitDir(ds[k])
    ensures forall row, id :: row in CIdRows(b, f, cid, min, max, ds) && id in row ==>
              Passes(b, f, id) && min <= CellDistance(cid, id) <= max
    ensures |RelRows(b, f, cid, min, max, ds)| == |CIdRows(b, f, cid, min, max, ds)|
  {
    if ds != [] {
      var last := ds[|ds| - 1];
      RowsFacts(b, f, cid, min, max, ds[..|ds| - 1]);
      RayFacts(b, f, cid, last, min, max);
      var r := Ray(b, f, cid, last, min, max);
      forall id | id in r ensures Passes(b, f, id) && min <= CellDistance(cid, id) <= max {
        var t :| 0 <= t < |r| && r[t] == id;
      }
    }
  }

  /** Every cell found by the search passes the filter, wherever the search starts. */
  lemma {:induction false} RowsPass(b: Board, f: RayFilter, cid: int, min: int, max: int, ds: seq<Pos>)
    ensures forall row, id :: row in CIdRows(b, f, cid, min, max, ds) && id in row ==> Passes(b, f, id)
  {
    if ds != [] {
      var last := ds[|ds| - 1];
      RowsPass(b, f, cid, min, max, ds[..|ds| - 1]);
      RayShape(b, f, CId2Pos(cid), last, min, max);
      var r := Ray(b, f, cid, last, min, max);
      forall id | id in r ensures Passes(b, f, id) {
        var t :| 0 <= t < |r| && r[t] == id;
        assert r[t] == Along(CId2Pos(cid), last, min + t);
      }
    }
  }

  lemma MiShapePasses(b: Board, f: RayFilter, cid: int, min: int, max: int, id: int)
    requires id in Flatten(MiShape(b, f, cid, min, max))
    ensures Passes(b, f, id)
  {
    RowsPass(b, f, cid, min, max, Directions);
  }

  /** The search in the 8 directions: what `RowsFacts` states, for `MiShape`. */
  lemma MiShapeFacts(b: Board, f: RayFilter, cid: int, min: int, max: int)
    requires 0 <= cid < N && 0 <= min
    ensures forall id :: id in Flatten(MiShape(b, f, cid, min, max)) ==>
              Passes(b, f, id) && min <= CellDistance(cid, id) <= max
    ensures |MiShapeRel(b, f, cid, min, max)| == |MiShape(b, f, cid, min, max)|
    ensures |MiShape(b, f, cid, min, max)| <= 8
  {
    DirectionsAreUnit();
    RowsFacts(b, f, cid, min, max, Directions);
    RowsCount(b, f, cid, min, max, Directions);
  }

  lemma {:induction false} RowsCount(b: Board, f: RayFilter, cid: int, min: int, max: int, ds: seq<Pos>)
    ensures |CIdRows(b, f, cid, min, max, ds)| <= |ds|
  {
    if ds != [] {
      RowsCount(b, f, cid, min, max, ds[..|ds| - 1]);
    }
  }

  lemma DirectionsDistinct()
    ensures NoDup(Directions)
  {
  }

  /** Two steps from the same cell along unit directions, both at least one step long,
      reach the same cell only with the same direction and length. */
  lemma AlongInjective(cid: int, d1: Pos, d2: Pos, n1: int, n2: int)
    requires 0 <= cid < N && UnitDir(d1) && UnitDir(d2) && 1 <= n1 && 1 <= n2
    requires Along(CId2Pos(cid), d1, n1) != -1 && Along(CId2Pos(cid), d1, n1) == Along(CId2Pos(cid), d2, n2)
    ensures n1 == n2 && d1 == d2
  {
    var p := CId2Pos(cid);
    AlongDistance(cid, d1, n1);
    AlongDistance(cid, d2, n2);
    MulUnit(n1, d1.x); MulUnit(n1, d1.y); MulUnit(n1, d2.x); MulUnit(n1, d2.y);
    PosRoundTrip(p.x + n1 * d1.x, p.y + n1 * d1.y);
    PosRoundTrip(p.x + n1 * d2.x, p.y + n1 * d2.y);
  }

  /** A ray lists each cell once. */
  lemma RayDistinct(b: Board, f: RayFilter, cid: int, d: Pos, min: int, max: int)
    requires 0 <= cid < N && UnitDir(d) && 0 <= min
    ensures NoDup(Ray(b, f, cid, d, min, max))
  {
    RayFacts(b, f, cid, d, min, max);
  }

  /** The step at which a ray meets one of its cells. */
  lemma RayStep(b: Board, f: RayFilter, cid: int, d: Pos, min: int, max: int, id: int) returns (t: nat)
    requires id in Ray(b, f, cid, d, min, max)
    ensures t < |Ray(b, f, cid, d, min, max)| && id == Along(CId2Pos(cid), d, min + t) && id != -1
  {
    var r := Ray(b, f, cid, d, min, max);
    RayShape(b, f, CId2Pos(cid), d, min, max);
    var i :| 0 <= i < |r| && r[i] == id;
    t := i;
  }

  /** Rays in two different directions, starting at least one step out, share no cell. */
  lemma RaysDisjoint(b: Board, f: RayFilter, cid: int, d1: Pos, d2: Pos, min: int, max: int, id: int)
    requires 0 <= cid < N && 1 <= min && UnitDir(d1) && UnitDir(d2) && d1 != d2
    requires id in Ray(b, f, cid, d1, min, max)
    ensures id !in Ray(b, f, cid, d2, min, max)
  {
    var t1 := RayStep(b, f, cid, d1, min, max, id);
    if id in Ray(b, f, cid, d2, min, max) {
      var t2 := RayStep(b, f, cid, d2, min, max, id);
      AlongInjective(cid, d1, d2, min + t1, min + t2);
    }
  }

  /** A cell found in directions `ds` lies on the ray of one of them. */
  lemma {:induction false} RowsMembership(b: Board, f: RayFilter, cid: int, min: int, max: int, ds: seq<Pos>, id: int)
    requires id in Flatten(CIdRows(b, f, cid, min, max, ds))
    ensures exists k :: 0 <= k < |ds| && id in Ray(b, f, cid, ds[k], min, max)
  {
    var front, last := ds[..|ds| - 1], ds[|ds| - 1];
    var r := Ray(b, f, cid, last, min, max);
    if |r| != 0 {
      FlattenAppend(CIdRows(b, f, cid, min, max, front), r);
      assert CIdRows(b, f, cid, min, max, ds) == CIdRows(b, f, cid, min, max, front) + [r];
    } else {
      assert CIdRows(b, f, cid, min, max, ds) == CIdRows(b, f, cid, min, max, front);
    }
    if id in r {
      assert ds[|ds| - 1] == last;
    } else {
      RowsMembership(b, f, cid, min, max, front, id);
      var k :| 0 <= k < |front| && id in Ray(b, f, cid, front[k], min, max);
      assert ds[k] == front[k];
    }
  }

  /** A cell in the ray of one of the directions is found by the search over them. */
  lemma {:induction false} RowsInclude(b: Board, f: RayFilter, cid: int, min: int, max: int, ds: seq<Pos>, k: int, id: int)
    requires 0 <= k < |ds| && id in Ray(b, f, cid, ds[k], min, max)
    ensures id in Flatten(CIdRows(b, f, cid, min, max, ds))
  {
    var front, last := ds[..|ds| - 1], ds[|ds| - 1];
    var r := Ray(b, f, cid, last, min, max);
    if |r| != 0 {
      FlattenAppend(CIdRows(b, f, cid, min, max, front), r);
      assert CIdRows(b, f, cid, min, max, ds) == CIdRows(b, f, cid, min, max, front) + [r];
    } else {
      assert CIdRows(b, f, cid, min, max, ds) == CIdRows(b, f, cid, min, max, front);
    }
    if k < |ds| - 1 {
      assert front[k] == ds[k];
      RowsInclude(b, f, cid, min, max, front, k, id);
    }
  }

  /** A ray runs on at least as far as its cells keep passing. */
  lemma {:induction false} RayLengthAtLeast(b: Board, f: RayFilter, p: Pos, d: Pos, n: int, m: int, max: int)
    requires n <= m <= max
    requires forall k :: n <= k <= m ==> Passes(b, f, Along(p, d, k))
    ensures RayLength(b, f, p, d, n, max) >= m - n + 1
    decreases m - n
  {
    if n < m {
      RayLengthAtLeast(b, f, p, d, n + 1, m, max);
    }
  }

  /** `id` lies `m` steps from `cid` in one of the eight directions, `min <= m <= max`,
      and every cell of that direction from `min` steps up to `id` passes the filter. */
  ghost predicate Sighted(b: Board, f: RayFilter, cid: int, min: int, max: int, id: int) {
    exists d, m :: UnitDir(d) && min <= m <= max && id == Along(CId2Pos(cid), d, m)
                   && forall k :: min <= k <= m ==> Passes(b, f, Along(CId2Pos(cid), d, k))
  }

  /** Every cell the search finds is sighted. */
  lemma MiShapeSighted(b: Board, f: RayFilter, cid: int, min: int, max: int, id: int)
    requires id in Flatten(MiShape(b, f, cid, min, max))
    ensures Sighted(b, f, cid, min, max, id)
  {
    var p := CId2Pos(cid);
    RowsMembership(b, f, cid, min, max, Directions, id);
    var k :| 0 <= k < |Directions| && id in Ray(b, f, cid, Directions[k], min, max);
    var d := Directions[k];
    DirectionsAreUnit();
    var t := RayStep(b, f, cid, d, min, max, id);
    RayShape(b, f, p, d, min, max);
    assert forall j :: min <= j <= min + t ==> Passes(b, f, Along(p, d, j));
    assert UnitDir(d) && min <= min + t <= max && id == Along(p, d, min + t);
  }

  /** No sighted cell is missed by the search. */
  lemma SightedInMiShape(b: Board, f: RayFilter, cid: int, min: int, max: int, id: int)
    requires Sighted(b, f, cid, min, max, id)
    ensures id in Flatten(MiShape(b, f, cid, min, max))
  {
    var p := CId2Pos(cid);
    var d, m :| UnitDir(d) && min <= m <= max && id == Along(p, d, m)
                && forall k :: min <= k <= m ==> Passes(b, f, Along(p, d, k));
    RayLengthAtLeast(b, f, p, d, min, m, max);
    assert Ray(b, f, cid, d, min, max)[m - min] == id;
    DirectionAt(d.x, d.y);
    RowsInclude(b, f, cid, min, max, Directions, DirIndex(d.x, d.y), id);
  }

  /** The search finds exactly the sighted cells: no more, and none is missed. */
  lemma MiShapeExact(b: Board, f: RayFilter, cid: int, min: int, max: int, id: int)
    ensures id in Flatten(MiShape(b, f, cid, min, max)) <==> Sighted(b, f, cid, min, max, id)
  {
    if id in Flatten(MiShape(b, f, cid, min, max)) {
      MiShapeSighted(b, f, cid, min, max, id);
    }
    if Sighted(b, f, cid, min, max, id) {
      SightedInMiShape(b, f, cid, min, max, id);
    }
  }

  /** With the directions distinct and `min >= 1`, no cell is found twice. */
  lemma {:induction false} RowsDistinct(b: Board, f: RayFilter, cid: int, min: int, max: int, ds: seq<Pos>)
    requires 0 <= cid < N && 1 <= min && NoDup(ds)
    requires forall k :: 0 <= k < |ds| ==> UnitDir(ds[k])
    ensures NoDup(Flatten(CIdRows(b, f, cid, min, max, ds)))
  {
    if ds != [] {
      var front, last := ds[..|ds| - 1], ds[|ds| - 1];
      RowsDistinct(b, f, cid, min, max, front);
      var u, r := Flatten(CIdRows(b, f, cid, min, max, front)), Ray(b, f, cid, last, min, max);
      if |r| != 0 {
        RayDistinct(b, f, cid, last, min, max);
        FlattenAppend(CIdRows(b, f, cid, min, max, front), r);
        assert CIdRows(b, f, cid, min, max, ds) == CIdRows(b, f, cid, min, max, front) + [r];
        forall i, j | 0 <= i < |u| && 0 <= j < |r| ensures u[i] != r[j] {
          assert u[i] in u;
          RowsMembership(b, f, cid, min, max, front, u[i]);
          var k :| 0 <= k < |front| && u[i] in Ray(b, f, cid, front[k], min, max);
          assert front[k] == ds[k] != ds[|ds| - 1];
          RaysDisjoint(b, f, cid, front[k], last, min, max, u[i]);
        }
        DistinctAppend(u, r);
      } else {
        assert CIdRows(b, f, cid, min, max, ds) == CIdRows(b, f, cid, min, max, front);
      }
    }
  }

  /** `searchInMiShape` with `min >= 1` finds each cell once. */
  lemma MiShapeDistinct(b: Board, f: RayFilter, cid: int, min: int, max: int)
    requires 0 <= cid < N && 1 <= min
    ensures NoDup(Flatten(MiShape(b, f, cid, min, max)))
  {
    DirectionsAreUnit();
    DirectionsDistinct();
    RowsDistinct(b, f, cid, min, max, Directions);
  }

  /** Relative positions back to cell ids, as `getBattleFactor` does with the charge rows. */
  function ToCIds(p: Pos, rel: seq<Pos>): (r: seq<int>)
    ensures |r| == |rel|
  {
    seq(|rel|, t requires 0 <= t < |rel| => Pos2CId(p.x + rel[t].x, p.y + rel[t].y))
  }

  lemma ToCIdsAppend(p: Pos, u: seq<Pos>, v: seq<Pos>)
    ensures ToCIds(p, u + v) == ToCIds(p, u) + ToCIds(p, v)
  {
  }

  lemma RayToCIds(b: Board, f: RayFilter, cid: int, d: Pos, min: int, max: int)
    ensures ToCIds(CId2Pos(cid), RayRel(b, f, cid, d, min, max)) == Ray(b, f, cid, d, min, max)
  {
    var p := CId2Pos(cid);
    var rel, ids := RayRel(b, f, cid, d, min, max), Ray(b, f, cid, d, min, max);
    forall t | 0 <= t < |rel| ensures ToCIds(p, rel)[t] == ids[t] {
      assert rel[t] == Pos((min + t) * d.x, (min + t) * d.y);
      assert ids[t] == Along(p, d, min + t);
    }
  }

  /** The relative rows, turned back into cell ids, are the cell-id rows. */
  lemma {:induction false} RelRowsToCIds(b: Board, f: RayFilter, cid: int, min: int, max: int, ds: seq<Pos>)
    ensures ToCIds(CId2Pos(cid), Flatten(RelRows(b, f, cid, min, max, ds)))
         == Flatten(CIdRows(b, f, cid, min, max, ds))
  {
    if ds != [] {
      var p, d := CId2Pos(cid), ds[|ds| - 1];
      var front := ds[..|ds| - 1];
      RelRowsToCIds(b, f, cid, min, max, front);
      var rel, ids := RayRel(b, f, cid, d, min, max), Ray(b, f, cid, d, min, max);
      RayToCIds(b, f, cid, d, min, max);
      assert |ids| == |rel|;
      var relFront, idsFront := RelRows(b, f, cid, min, max, front), CIdRows(b, f, cid, min, max, front);
      if |rel| != 0 {
        assert RelRows(b, f, cid, min, max, ds) == relFront + [rel];
        assert CIdRows(b, f, cid, min, max, ds) == idsFront + [ids];
        FlattenAppend(relFront, rel);
        FlattenAppend(idsFront, ids);
        ToCIdsAppend(p, Flatten(relFront), rel);
      } else {
        assert RelRows(b, f, cid, min, max, ds) == relFront;
        assert CIdRows(b, f, cid, min, max, ds) == idsFront;
      }
    }
  }

  /** `searchInMiShape`'s two results describe the same cells. */
  lemma MiShapeRelToCIds(b: Board, f: RayFilter, cid: int, min: int, max: int)
    ensures ToCIds(CId2Pos(cid), Flatten(MiShapeRel(b, f, cid, min, max)))
         == Flatten(MiShape(b, f, cid, min, max))
  {
    RelRowsToCIds(b, f, cid, min, max, Directions);
  }

  /** One direction of `searchInMiShape`: walk from distance `min` to `max`
      and stop at the first cell that is off the board or fails the filter. */
  method WalkRay(b: Board, cid: int, f: RayFilter, i: int, j: int, min: int, max: int)
    returns (aCIdLine: seq<int>, relPosLine: seq<Pos>)
    ensures aCIdLine == Ray(b, f, cid, Pos(i, j), min, max)
    ensures relPosLine == RayRel(b, f, cid, Pos(i, j), min, max)
  {
    var pos := CId2Pos(cid);
    ghost var d := Pos(i, j);
    relPosLine, aCIdLine := [], [];
    var n := min;
    while n <= max
      invariant min <= n
      invariant aCIdLine == seq(n - min, t => Along(pos, d, min + t))
      invariant relPosLine == seq(n - min, t => Pos((min + t) * d.x, (min + t) * d.y))
      invariant RayLength(b, f, pos, d, min, max) == (n - min) + RayLength(b, f, pos, d, n, max)
      decreases max - n
    {
      var cx := pos.x + n * i;
      var cy := pos.y + n * j;
      var cCId := Pos2CId(cx, cy);
      if cCId != -1 && cCId < |b.cells| && Admits(f, b, cCId) {
        relPosLine := relPosLine + [Pos(n * i, n * j)];
        aCIdLine := aCIdLine + [cCId];
        n := n + 1;
      } else {
        break;
      }
    }
  }

  /** One pass of the inner search loop: the ray in direction `(i, j)`, kept when non-empty. */
  method VisitDirection(b: Board, cid: int, f: RayFilter, i: int, j: int, min: int, max: int,
                        rows: seq<seq<int>>, rels: seq<seq<Pos>>, ghost k: nat)
    returns (rows': seq<seq<int>>, rels': seq<seq<Pos>>)
    requires -1 <= i <= 1 && -1 <= j <= 1 && (i != 0 || j != 0) && k == DirIndex(i, j)
    requires rows == CIdRows(b, f, cid, min, max, Directions[..k])
    requires rels == RelRows(b, f, cid, min, max, Directions[..k])
    ensures rows' == CIdRows(b, f, cid, min, max, Directions[..k + 1])
    ensures rels' == RelRows(b, f, cid, min, max, Directions[..k + 1])
  {
    DirectionAt(i, j);
    var aCIdLine, relPosLine := WalkRay(b, cid, f, i, j, min, max);
    RowsStep(b, f, cid, min, max, Directions, k);
    rows', rels' := rows, rels;
    if |relPosLine| != 0 {
      rels' := rels' + [relPosLine];
      rows' := rows' + [aCIdLine];
    }
  }

  /** `searchInMiShape`: the non-empty rays in the eight directions, in loop order. */
  method SearchInMiShape(b: Board, cid: int, f: RayFilter, min: int, max: int)
    returns (aCIdRowsLst: seq<seq<int>>, rowsLst: seq<seq<Pos>>)
    ensures aCIdRowsLst == MiShape(b, f, cid, min, max)
    ensures rowsLst == MiShapeRel(b, f, cid, min, max)
  {
    aCIdRowsLst, rowsLst := [], [];
    ghost var k := 0;
    for i := -1 to 2
      invariant k == DirIndex(i, -1) && 0 <= k <= 8
      invariant aCIdRowsLst == CIdRows(b, f, cid, min, max, Directions[..k])
      invariant rowsLst == RelRows(b, f, cid, min, max, Directions[..k])
    {
      for j := -1 to 2
        invariant k == DirIndex(i, j) && 0 <= k <= 8
        invariant aCIdRowsLst == CIdRows(b, f, cid, min, max, Directions[..k])
        invariant rowsLst == RelRows(b, f, cid, min, max, Directions[..k])
      {
        if i != 0 || j != 0 {
          aCIdRowsLst, rowsLst := VisitDirection(b, cid, f, i, j, min, max, aCIdRowsLst, rowsLst, k);
          k := k + 1;
        }
      }
    }
    AllDirections(b, f, cid, min, max);
  }
}
