/** Board geometry: the 25 x 20 grid, cell id <-> (x, y), and the
    Chebyshev ("king move") distance. */
module Geometry {

  /** `BoardSize`. */
  const MX := 25
  const MY := 20
  /** The number of cells. */
  const N := 500
  /** The default search radius of a ray, `Math.max(mx, my)`. */
  const MaxReach := 25

  datatype Pos = Pos(x: int, y: int)

  predicate OnBoard(x: int, y: int) {
    0 <= x < MX && 0 <= y < MY
  }

  /** `Pos2CId`: row-major cell id, or -1 off the board. */
  function Pos2CId(x: int, y: int): (id: int)
    ensures id == -1 <==> !OnBoard(x, y)
    ensures id != -1 ==> 0 <= id < N
  {
    if x < 0 || y < 0 || x >= MX || y >= MY then -1 else y * MX + x
  }

  /** JavaScript's `%`, whose result takes the sign of the dividend. */
  function JsRem(a: int, m: int): int
    requires m > 0
  {
    if a >= 0 then a % m else -((-a) % m)
  }

  /** `CId2Pos`: `x = id % mx` (JavaScript remainder), `y = Math.floor(id / mx)`. */
  function CId2Pos(id: int): (p: Pos)
    ensures 0 <= id < N ==> OnBoard(p.x, p.y)
  {
    Pos(JsRem(id, MX), id / MX)
  }

  /** CId2Pos inverts Pos2CId on the board. */
  lemma PosRoundTrip(x: int, y: int)
    requires OnBoard(x, y)
    ensures CId2Pos(Pos2CId(x, y)) == Pos(x, y)
  {
    var id := y * MX + x;
    assert id / MX == y && id % MX == x by {
      assert id == MX * y + x && 0 <= x < MX;
    }
  }

  /** Pos2CId inverts CId2Pos on the board. */
  lemma CIdRoundTrip(id: int)
    requires 0 <= id < N
    ensures Pos2CId(CId2Pos(id).x, CId2Pos(id).y) == id
  {
  }

  function Abs(v: int): nat { if v < 0 then -v else v }

  /** `NaiveDistance`: the larger of the two coordinate differences. */
  function NaiveDistance(p1: Pos, p2: Pos): (d: nat)
    ensures d >= Abs(p1.x - p2.x) && d >= Abs(p1.y - p2.y)
    ensures d == Abs(p1.x - p2.x) || d == Abs(p1.y - p2.y)
    ensures d == 0 <==> p1 == p2
  {
    var dx, dy := Abs(p1.x - p2.x), Abs(p1.y - p2.y);
    if dx >= dy then dx else dy
  }

  /** Distance between two cell ids. */
  function CellDistance(a: int, b: int): nat {
    NaiveDistance(CId2Pos(a), CId2Pos(b))
  }

  /** Distance is a metric: symmetric and obeying the triangle inequality. */
  lemma DistanceMetric(p: Pos, q: Pos, r: Pos)
    ensures NaiveDistance(p, q) == NaiveDistance(q, p)
    ensures NaiveDistance(p, r) <= NaiveDistance(p, q) + NaiveDistance(q, r)
  {
  }

  /** `ptSetDisLessThan`: some cell of `pts` lies within `dis` of `pt`. */
  function PtSetDisLessThan(pts: seq<int>, pt: int, dis: int): (r: bool)
    ensures r <==> exists i :: 0 <= i < |pts| && CellDistance(pt, pts[i]) <= dis
  {
    if |pts| == 0 then false
    else
      var r' := PtSetDisLessThan(pts[..|pts| - 1], pt, dis);
      assert forall i :: 0 <= i < |pts| - 1 ==> pts[..|pts| - 1][i] == pts[i];
      r' || CellDistance(pt, pts[|pts| - 1]) <= dis
  }
}
