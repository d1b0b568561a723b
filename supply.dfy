/** Supply: direct supply lines cast from a side's Arsenals and relayed by its
    Relay units, and the units connected to them (`getDirSuppliedLines`,
    `connectedComponents`, `getSuppliedCells`). */
module Supply {
  import opened Seqs
  import opened Pieces
  import opened Geometry
  import opened Rays

  /** `dirSupplyFrom`: the supply rays cast from `cid` for `p`, from distance 0
      up to the default search radius. */
  function DirSupplyFrom(b: Board, cid: int, p: Player): seq<seq<int>> {
    MiShape(b, SupplyLine(p), cid, 0, MaxReach)
  }

  /** The supply rays from `cid` reach exactly the cells sighted from it, where
      Mountains and armed, supplied enemy units block. */
  lemma DirSupplyExact(b: Board, cid: int, p: Player, x: int)
    ensures x in Flatten(DirSupplyFrom(b, cid, p)) <==> Sighted(b, SupplyLine(p), cid, 0, MaxReach, x)
  {
    MiShapeExact(b, SupplyLine(p), cid, 0, MaxReach, x);
  }

  predicate OwnArsenal(p: Player, s: Stronghold) {
    s.belong == Some(p) && s.placeType == Arsenal
  }

  /** A Relay by functional type: the Swift_Relay counts too. */
  predicate OwnRelay(p: Player, u: Unit) {
    u.belong == p && u.Data().objType == Relay
  }

  predicate Own(p: Player, u: Unit) {
    u.belong == p
  }

  /** The cells of the Arsenals owned by `p`. */
  function Arsenals(b: Board, p: Player): seq<int> {
    FilterCId(b.places, s => OwnArsenal(p, s))
  }

  /** The cells of the relay units of `p`. */
  function Relays(b: Board, p: Player): seq<int> {
    FilterCId(b.cells, u => OwnRelay(p, u))
  }

  /** The cells of all units of `p` (`myPieceLst`). */
  function Mine(b: Board, p: Player): seq<int> {
    FilterCId(b.cells, u => Own(p, u))
  }

  /** The supply rays cast from each cell of `srcs`. */
  function LinesFrom(b: Board, p: Player, srcs: seq<int>): (r: seq<seq<seq<int>>>)
    ensures |r| == |srcs|
  {
    seq(|srcs|, k requires 0 <= k < |srcs| => DirSupplyFrom(b, srcs[k], p))
  }

  /** `lines.flat(2)`. */
  function Flat2(lines: seq<seq<seq<int>>>): seq<int> {
    Flatten(Flatten(lines))
  }

  /** The elements of `ids` that occur in `on`, in order. */
  function OnLines(ids: seq<int>, on: seq<int>): seq<int> {
    Filter(ids, id => id in on)
  }

  /** The supply lines after the Arsenal pass (`k == 0`) and `k` relay passes:
      each pass adds the rays of every relay lying on the lines found so far. */
  function SupplyLines(b: Board, p: Player, k: nat): seq<seq<seq<int>>> {
    if k == 0 then LinesFrom(b, p, Arsenals(b, p))
    else
      var prev := SupplyLines(b, p, k - 1);
      prev + LinesFrom(b, p, OnLines(Relays(b, p), Flat2(prev)))
  }

  /** `getDirSuppliedLines(G, p)[0]`: the directly supplied cells, without duplicates. */
  function DirSupplied(b: Board, p: Player): seq<int> {
    RemoveDup(Flat2(SupplyLines(b, p, 2)))
  }

  /** `getDirSuppliedLines`: the Arsenal pass, then two relay passes. */
  method GetDirSuppliedLines(b: Board, p: Player) returns (dirSupplied: seq<int>, lines: seq<seq<seq<int>>>)
    ensures lines == SupplyLines(b, p, 2)
    ensures dirSupplied == DirSupplied(b, p)
  {
    var arsenalLst := Arsenals(b, p);
    var relayLst := Relays(b, p);
    lines := LinesFrom(b, p, arsenalLst);
    var flat := Flat2(lines);
    for i := 0 to 2
      invariant lines == SupplyLines(b, p, i)
      invariant flat == Flat2(lines)
    {
      var dirRelayLst := OnLines(relayLst, flat);
      lines := lines + LinesFrom(b, p, dirRelayLst);
      flat := Flat2(lines);
    }
    dirSupplied := RemoveDup(flat);
  }

  lemma FlattenConcat<T(!new)>(u: seq<seq<T>>, v: seq<seq<T>>)
    ensures forall x :: x in Flatten(u + v) <==> x in Flatten(u) || x in Flatten(v)
  {
    forall x ensures x in Flatten(u + v) <==> x in Flatten(u) || x in Flatten(v) {
      if x in Flatten(u + v) {
        var i :| 0 <= i < |u + v| && x in (u + v)[i];
        if i < |u| { assert x in u[i]; } else { assert x in v[i - |u|]; }
      }
      if x in Flatten(u) {
        var i :| 0 <= i < |u| && x in u[i];
        assert x in (u + v)[i];
      }
      if x in Flatten(v) {
        var i :| 0 <= i < |v| && x in v[i];
        assert x in (u + v)[|u| + i];
      }
    }
  }

  /** A cell lies on `lines.flat(2)` exactly when it lies on the rows of one entry. */
  lemma InFlat2(lines: seq<seq<seq<int>>>, x: int)
    ensures x in Flat2(lines) <==> exists k :: 0 <= k < |lines| && x in Flatten(lines[k])
  {
    if x in Flat2(lines) {
      var i :| 0 <= i < |Flatten(lines)| && x in Flatten(lines)[i];
      var row := Flatten(lines)[i];
      assert row in Flatten(lines);
      var k :| 0 <= k < |lines| && row in lines[k];
      var j :| 0 <= j < |lines[k]| && lines[k][j] == row;
      assert x in Flatten(lines[k]);
    }
    if exists k :: 0 <= k < |lines| && x in Flatten(lines[k]) {
      var k :| 0 <= k < |lines| && x in Flatten(lines[k]);
      var j :| 0 <= j < |lines[k]| && x in lines[k][j];
      var row := lines[k][j];
      assert row in Flatten(lines);
      var i :| 0 <= i < |Flatten(lines)| && Flatten(lines)[i] == row;
    }
  }

  /** A cell lies on the lines cast from `srcs` exactly when it lies on the rays of one of them. */
  lemma OnLinesFrom(b: Board, p: Player, srcs: seq<int>, x: int)
    ensures x in Flat2(LinesFrom(b, p, srcs))
        <==> exists s :: s in srcs && x in Flatten(DirSupplyFrom(b, s, p))
  {
    var lines := LinesFrom(b, p, srcs);
    InFlat2(lines, x);
    if exists s :: s in srcs && x in Flatten(DirSupplyFrom(b, s, p)) {
      var s :| s in srcs && x in Flatten(DirSupplyFrom(b, s, p));
      var k :| 0 <= k < |srcs| && srcs[k] == s;
      assert x in Flatten(lines[k]);
    }
  }

  /** The cells reached by the supply lines after the Arsenal pass and `k` relay passes. */
  lemma {:induction false} SupplyLinesStep(b: Board, p: Player, k: nat, x: int)
    ensures x in Flat2(SupplyLines(b, p, 0))
        <==> exists a :: a in Arsenals(b, p) && x in Flatten(DirSupplyFrom(b, a, p))
    ensures x in Flat2(SupplyLines(b, p, k + 1))
        <==> x in Flat2(SupplyLines(b, p, k))
             || exists r :: r in Relays(b, p) && r in Flat2(SupplyLines(b, p, k)) && x in Flatten(DirSupplyFrom(b, r, p))
  {
    OnLinesFrom(b, p, Arsenals(b, p), x);
    var prev := SupplyLines(b, p, k);
    var added := LinesFrom(b, p, OnLines(Relays(b, p), Flat2(prev)));
    FlattenConcat(prev, added);
    OnLinesFrom(b, p, OnLines(Relays(b, p), Flat2(prev)), x);
    assert Flat2(SupplyLines(b, p, k + 1)) == Flatten(Flatten(prev) + Flatten(added)) by {
      FlattenOfConcat(prev, added);
    }
    FlattenConcat(Flatten(prev), Flatten(added));
  }

  lemma {:induction false} FlattenOfConcat<T(!new)>(u: seq<seq<T>>, v: seq<seq<T>>)
    ensures Flatten(u + v) == Flatten(u) + Flatten(v)
    decreases |v|
  {
    if v == [] {
      assert u + v == u;
    } else {
      var v' := v[..|v| - 1];
      FlattenOfConcat(u, v');
      assert (u + v)[..|u + v| - 1] == u + v';
      assert Flatten(v) == Flatten(v') + v[|v| - 1] by {
        assert v[..|v| - 1] == v';
      }
    }
  }

  /** `getDirSuppliedLines`: a cell is directly supplied exactly when it lies on the
      rays of an own Arsenal, or of an own relay reached by those, or of an own relay
      reached in turn by the first relays' rays (two relay passes, no more). */
  lemma DirSuppliedCells(b: Board, p: Player, x: int)
    ensures x in DirSupplied(b, p) <==> x in Flat2(SupplyLines(b, p, 2))
    ensures x in Flat2(SupplyLines(b, p, 0))
        <==> exists a :: a in Arsenals(b, p) && x in Flatten(DirSupplyFrom(b, a, p))
    ensures x in Flat2(SupplyLines(b, p, 1))
        <==> x in Flat2(SupplyLines(b, p, 0))
             || exists r :: r in Relays(b, p) && r in Flat2(SupplyLines(b, p, 0)) && x in Flatten(DirSupplyFrom(b, r, p))
    ensures x in Flat2(SupplyLines(b, p, 2))
        <==> x in Flat2(SupplyLines(b, p, 1))
             || exists r :: r in Relays(b, p) && r in Flat2(SupplyLines(b, p, 1)) && x in Flatten(DirSupplyFrom(b, r, p))
  {
    SupplyLinesStep(b, p, 0, x);
    SupplyLinesStep(b, p, 1, x);
  }

  /** Arsenals, relays and units are read from the right layer, with the Swift_Relay
      counted as a relay. */
  lemma Sources(b: Board, p: Player)
    ensures forall a :: a in Arsenals(b, p) <==>
              0 <= a < |b.places| && b.places[a] == Some(Stronghold(Arsenal, Some(p)))
    ensures forall r :: r in Relays(b, p) <==>
              0 <= r < |b.cells| && b.cells[r].Some? && b.cells[r].value.belong == p
              && b.cells[r].value.typeName in {Relay, SwiftRelay}
    ensures forall u :: u in Mine(b, p) <==> 0 <= u < |b.cells| && b.cells[u].Some? && b.cells[u].value.belong == p
  {
  }

  /** A directly supplied cell lies on the rays cast from some cell. */
  lemma OnSomeRay(b: Board, p: Player, x: int) returns (src: int)
    requires x in DirSupplied(b, p)
    ensures x in Flatten(DirSupplyFrom(b, src, p))
  {
    DirSuppliedCells(b, p, x);
    if x in Flat2(SupplyLines(b, p, 0)) {
      src :| src in Arsenals(b, p) && x in Flatten(DirSupplyFrom(b, src, p));
    } else if x in Flat2(SupplyLines(b, p, 1)) {
      src :| src in Relays(b, p) && src in Flat2(SupplyLines(b, p, 0)) && x in Flatten(DirSupplyFrom(b, src, p));
    } else {
      src :| src in Relays(b, p) && src in Flat2(SupplyLines(b, p, 1)) && x in Flatten(DirSupplyFrom(b, src, p));
    }
  }

  /** Every directly supplied cell is on the board and not blocked for `p`: no Mountain
      and no armed, supplied enemy unit there. */
  lemma DirSuppliedUnblocked(b: Board, p: Player, x: int)
    requires x in DirSupplied(b, p)
    ensures 0 <= x < |b.cells| && PlaceTypeAt(b, x) != Some(Mountain)
    ensures CellAt(b, x).Some? ==> CellAt(b, x).value.belong == p || CellAt(b, x).value.Data().offense == 0
                                   || !CellAt(b, x).value.supplied
  {
    var src := OnSomeRay(b, p, x);
    MiShapePasses(b, SupplyLine(p), src, 0, MaxReach, x);
  }

  /** The cells of `pool` not yet in `olds` that touch a cell of `olds` (one step of
      `connectedComponents`). */
  function NewCells(pool: seq<int>, olds: seq<int>): seq<int> {
    Filter(pool, c => c !in olds && PtSetDisLessThan(olds, c, 1))
  }

  ghost function Remaining(pool: seq<int>, olds: seq<int>): set<int> {
    (set x | x in pool) - (set x | x in olds)
  }

  lemma ShrinkBy(pool: seq<int>, olds: seq<int>, nw: seq<int>)
    requires |nw| != 0 && nw[0] in pool && nw[0] !in olds
    ensures |Remaining(pool, olds + nw)| < |Remaining(pool, olds)|
  {
    var c := nw[0];
    var r0, r1 := Remaining(pool, olds), Remaining(pool, olds + nw);
    assert c in r0 && c !in r1;
    assert r1 <= r0;
    assert r0 == r1 + (r0 - r1);
    assert c in r0 - r1;
  }

  lemma Shrinks(pool: seq<int>, olds: seq<int>)
    requires |NewCells(pool, olds)| != 0
    ensures |Remaining(pool, olds + NewCells(pool, olds))| < |Remaining(pool, olds)|
  {
    var nw := NewCells(pool, olds);
    assert nw[0] in nw;
    ShrinkBy(pool, olds, nw);
  }

  /** `connectedComponents(pool, olds)`: grow `olds` by the touching cells of `pool`
      until nothing is added. */
  function CC(pool: seq<int>, olds: seq<int>): seq<int>
    decreases |Remaining(pool, olds)|
  {
    var nw := NewCells(pool, olds);
    if |nw| == 0 then olds
    else
      Shrinks(pool, olds);
      CC(pool, olds + nw)
  }

  /** `connectedComponents`: the do-while loop. */
  method ConnectedComponents(pool: seq<int>, pts: seq<int>) returns (r: seq<int>)
    ensures r == CC(pool, pts)
  {
    var oldSet := pts;
    var newSet: seq<int>;
    while true
      invariant CC(pool, oldSet) == CC(pool, pts)
      decreases |Remaining(pool, oldSet)|
    {
      newSet := NewCells(pool, oldSet);
      if |newSet| != 0 {
        Shrinks(pool, oldSet);
      }
      oldSet := oldSet + newSet;
      if |newSet| == 0 {
        break;
      }
    }
    r := oldSet;
  }

  /** The component starts with `olds` and adds only cells of `pool`. */
  lemma {:induction false} CCGrows(pool: seq<int>, olds: seq<int>)
    ensures |CC(pool, olds)| >= |olds| && CC(pool, olds)[..|olds|] == olds
    ensures forall x :: x in CC(pool, olds) ==> x in olds || x in pool
    decreases |Remaining(pool, olds)|
  {
    var nw := NewCells(pool, olds);
    if |nw| != 0 {
      Shrinks(pool, olds);
      var next := olds + nw;
      CCGrows(pool, next);
      var r := CC(pool, next);
      assert r[..|next|] == next;
      assert next[..|olds|] == olds;
      assert r[..|olds|] == r[..|next|][..|olds|];
    }
  }

  /** Each cell added to the component touches a cell listed before it. */
  lemma {:induction false} CCChain(pool: seq<int>, olds: seq<int>)
    ensures forall i :: |olds| <= i < |CC(pool, olds)| ==>
              exists j :: 0 <= j < i && CellDistance(CC(pool, olds)[i], CC(pool, olds)[j]) <= 1
    decreases |Remaining(pool, olds)|
  {
    var nw := NewCells(pool, olds);
    if |nw| != 0 {
      Shrinks(pool, olds);
      var next := olds + nw;
      CCChain(pool, next);
      CCGrows(pool, next);
      var r := CC(pool, next);
      assert CC(pool, olds) == r;
      forall i | |olds| <= i < |r|
        ensures exists j :: 0 <= j < i && CellDistance(r[i], r[j]) <= 1
      {
        if i < |next| {
          ChainStep(olds, nw, r, i);
        } else {
          assert |next| <= i < |CC(pool, next)|;
        }
      }
    } else {
      assert CC(pool, olds) == olds;
    }
  }

  lemma ChainStep(olds: seq<int>, nw: seq<int>, r: seq<int>, i: int)
    requires forall c :: c in nw ==> PtSetDisLessThan(olds, c, 1)
    requires |r| >= |olds + nw| && r[..|olds + nw|] == olds + nw
    requires |olds| <= i < |olds + nw|
    ensures exists j :: 0 <= j < i && CellDistance(r[i], r[j]) <= 1
  {
    var next := olds + nw;
    assert r[i] == next[i] == nw[i - |olds|];
    assert nw[i - |olds|] in nw;
    var j :| 0 <= j < |olds| && CellDistance(r[i], olds[j]) <= 1;
    assert r[j] == next[j] == olds[j];
  }

  /** No cell of `pool` outside the component touches it. */
  lemma {:induction false} CCClosed(pool: seq<int>, olds: seq<int>)
    ensures forall c :: c in pool && c !in CC(pool, olds) ==> !PtSetDisLessThan(CC(pool, olds), c, 1)
    decreases |Remaining(pool, olds)|
  {
    var nw := NewCells(pool, olds);
    if |nw| != 0 {
      Shrinks(pool, olds);
      CCClosed(pool, olds + nw);
    }
  }

  /** The component lists each cell once when `pool` and `olds` do. */
  lemma {:induction false} CCDistinct(pool: seq<int>, olds: seq<int>)
    requires NoDup(pool) && NoDup(olds)
    ensures NoDup(CC(pool, olds))
    decreases |Remaining(pool, olds)|
  {
    var nw := NewCells(pool, olds);
    if |nw| != 0 {
      Shrinks(pool, olds);
      var next := olds + nw;
      forall i, j | 0 <= i < j < |next| ensures next[i] != next[j] {
        if j >= |olds| && i < |olds| {
          assert next[j] in nw;
          assert next[i] in olds;
        }
      }
      CCDistinct(pool, next);
    }
  }

  /** `getSuppliedCells`: the component of `p`'s units grown from those directly supplied. */
  function SuppliedCells(b: Board, p: Player): seq<int> {
    CC(Mine(b, p), OnLines(Mine(b, p), DirSupplied(b, p)))
  }

  method GetSuppliedCells(b: Board, p: Player) returns (r: seq<int>)
    ensures r == SuppliedCells(b, p)
  {
    var dirSupplied, _ := GetDirSuppliedLines(b, p);
    var myPieceLst := Mine(b, p);
    var myPieceDirSupplied := OnLines(myPieceLst, dirSupplied);
    r := ConnectedComponents(myPieceLst, myPieceDirSupplied);
  }

  /** The supplied units of `p`: only its own units, every own unit on a direct supply
      line, and each of the others touching one listed before it; an own unit outside
      touches none of them. */
  lemma SuppliedFacts(b: Board, p: Player)
    ensures NoDup(SuppliedCells(b, p))
    ensures forall x :: x in SuppliedCells(b, p) ==>
              0 <= x < |b.cells| && b.cells[x].Some? && b.cells[x].value.belong == p
    ensures forall x :: x in Mine(b, p) && x in DirSupplied(b, p) ==> x in SuppliedCells(b, p)
    ensures forall i :: 0 <= i < |SuppliedCells(b, p)| ==>
              SuppliedCells(b, p)[i] in DirSupplied(b, p)
              || exists j :: 0 <= j < i && CellDistance(SuppliedCells(b, p)[i], SuppliedCells(b, p)[j]) <= 1
    ensures forall y :: y in Mine(b, p) && y !in SuppliedCells(b, p) ==>
              !PtSetDisLessThan(SuppliedCells(b, p), y, 1)
  {
    var mine := Mine(b, p);
    var direct := OnLines(mine, DirSupplied(b, p));
    CCGrows(mine, direct);
    CCChain(mine, direct);
    CCClosed(mine, direct);
    CCDistinct(mine, direct);
    var r := SuppliedCells(b, p);
    forall x | x in mine && x in DirSupplied(b, p) ensures x in r {
      assert x in direct;
      assert x in r[..|direct|];
    }
    forall i | 0 <= i < |direct| ensures r[i] in DirSupplied(b, p) {
      assert r[i] == direct[i];
      assert direct[i] in direct;
    }
  }
}
