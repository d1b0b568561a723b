/** Movement: the cells a unit can reach (`moveRange`) and the pick and put
    checks of a move (`canPick`, `canPut`). */
module Moves {
  import opened Seqs
  import opened Pieces
  import opened Geometry

  /** A cell a unit from `st` may step onto next to the cells of `prev`: within
      `speed` of `st`, empty, not a Mountain, and touching a cell of `prev`. */
  predicate StepTarget(b: Board, st: int, speed: int, prev: seq<int>, id: int) {
    0 <= id < |b.cells| && CellDistance(st, id) <= speed && b.cells[id].None?
    && PlaceTypeAt(b, id) != Some(Mountain) && PtSetDisLessThan(prev, id, 1)
  }

  /** One round of `moveRange`'s loop: the board's cells that are step targets, in order. */
  function Expand(b: Board, st: int, speed: int, prev: seq<int>): seq<int> {
    Where(|b.cells|, id => StepTarget(b, st, speed, prev, id))
  }

  /** The cells held after `k` rounds, starting from `[st]`. */
  function Reach(b: Board, st: int, speed: int, k: nat): seq<int> {
    if k == 0 then [st] else Expand(b, st, speed, Reach(b, st, speed, k - 1))
  }

  /** `moveRange`: `speed` rounds of expansion from `[st]`. */
  method MoveRange(b: Board, st: int, speed: nat) returns (result: seq<int>)
    ensures result == Reach(b, st, speed, speed)
  {
    result := [st];
    for i := 0 to speed
      invariant result == Reach(b, st, speed, i)
    {
      result := Expand(b, st, speed, result);
    }
  }

  /** Every cell reached after one or more rounds is on the board, empty, not a
      Mountain and within `speed` of `st`, and touches a cell reached one round
      earlier; the cells are listed in increasing order. */
  lemma ReachFacts(b: Board, st: int, speed: int, k: nat)
    requires k >= 1
    ensures forall x :: x in Reach(b, st, speed, k) ==>
              0 <= x < |b.cells| && b.cells[x].None? && PlaceTypeAt(b, x) != Some(Mountain)
              && CellDistance(st, x) <= speed
              && exists y :: y in Reach(b, st, speed, k - 1) && CellDistance(x, y) <= 1
    ensures forall i, j :: 0 <= i < j < |Reach(b, st, speed, k)| ==> Reach(b, st, speed, k)[i] < Reach(b, st, speed, k)[j]
  {
    var prev := Reach(b, st, speed, k - 1);
    forall x | x in Reach(b, st, speed, k)
      ensures exists y :: y in prev && CellDistance(x, y) <= 1
    {
      assert StepTarget(b, st, speed, prev, x);
      var i :| 0 <= i < |prev| && CellDistance(x, prev[i]) <= 1;
    }
  }

  /** After the first round the reach only grows: a reached cell touches itself. */
  lemma ReachGrows(b: Board, st: int, speed: int, k: nat)
    requires k >= 1
    ensures forall x :: x in Reach(b, st, speed, k) ==> x in Reach(b, st, speed, k + 1)
  {
    var cur := Reach(b, st, speed, k);
    ReachFacts(b, st, speed, k);
    forall x | x in cur ensures x in Reach(b, st, speed, k + 1) {
      var i :| 0 <= i < |cur| && cur[i] == x;
      assert CellDistance(x, cur[i]) == 0;
      assert StepTarget(b, st, speed, cur, x);
    }
  }

  /** A cell reached after round `k >= 1` is still reached after any later round `n`. */
  lemma {:induction false} ReachKept(b: Board, st: int, speed: int, k: nat, n: nat, id: int)
    requires 1 <= k <= n && id in Reach(b, st, speed, k)
    ensures id in Reach(b, st, speed, n)
    decreases n - k
  {
    if k < n {
      ReachGrows(b, st, speed, k);
      ReachKept(b, st, speed, k + 1, n, id);
    }
  }

  /** The first round reaches every empty, non-Mountain cell next to `st`. */
  lemma FirstRound(b: Board, st: int, speed: nat, id: int)
    requires 1 <= speed
    requires 0 <= id < |b.cells| && b.cells[id].None? && PlaceTypeAt(b, id) != Some(Mountain)
    requires CellDistance(st, id) <= 1
    ensures id in Reach(b, st, speed, 1)
  {
    assert [st][0] == st;
    assert PtSetDisLessThan([st], id, 1);
    assert Reach(b, st, speed, 1) == Expand(b, st, speed, [st]);
  }

  /** A unit with speed at least one can step onto any empty, non-Mountain cell next to it. */
  lemma NeighbourReachable(b: Board, st: int, speed: nat, id: int)
    requires 1 <= speed
    requires 0 <= id < |b.cells| && b.cells[id].None? && PlaceTypeAt(b, id) != Some(Mountain)
    requires CellDistance(st, id) <= 1
    ensures id in Reach(b, st, speed, speed)
  {
    FirstRound(b, st, speed, id);
    ReachKept(b, st, speed, 1, speed, id);
  }

  /** `moveRecords[p].map(r => r[1])`: the cells moved onto this turn. */
  function Destinations(recs: seq<MoveRecord>): (r: seq<int>)
    ensures |r| == |recs| && forall i :: 0 <= i < |recs| ==> r[i] == recs[i].1
  {
    seq(|recs|, i requires 0 <= i < |recs| => recs[i].1)
  }

  /** `canPick`: `p` may pick the unit on `cid`. */
  function CanPick(s: GameState, p: Player, cid: int): (r: bool)
    requires 0 <= cid < |s.cells|
    ensures r ==> s.attackRecords.Get(p).None? && |s.moveRecords.Get(p)| < 5
    ensures r ==> forall i :: 0 <= i < |s.moveRecords.Get(p)| ==> s.moveRecords.Get(p)[i].1 != cid
    ensures r && s.forcedRetreat.Get(p).st.Some? ==> cid == s.forcedRetreat.Get(p).st.value
    ensures r && s.forcedRetreat.Get(p).st.None? ==>
              s.cells[cid].Some? && s.cells[cid].value.belong == p
              && (s.cells[cid].value.supplied || s.cells[cid].value.typeName in {Relay, SwiftRelay})
    ensures s.attackRecords.Get(p).None? && |s.moveRecords.Get(p)| < 5
            && (forall i :: 0 <= i < |s.moveRecords.Get(p)| ==> s.moveRecords.Get(p)[i].1 != cid)
            && (if s.forcedRetreat.Get(p).st.Some? then cid == s.forcedRetreat.Get(p).st.value
                else s.cells[cid].Some? && s.cells[cid].value.belong == p
                     && (s.cells[cid].value.supplied || s.cells[cid].value.Data().objType == Relay))
            ==> r
  {
    var moveEdRec := Destinations(s.moveRecords.Get(p));
    var retreatSt := s.forcedRetreat.Get(p).st;
    if s.attackRecords.Get(p).Some? || |moveEdRec| >= 5 || cid in moveEdRec then false
    else if retreatSt.Some? then cid == retreatSt.value
    else
      var obj := s.cells[cid];
      obj.Some? && obj.value.belong == p && (obj.value.supplied || obj.value.Data().objType == Relay)
  }

  /** `canPut`: the unit on `st` can reach `ed` within its speed. */
  function CanPut(s: GameState, st: int, ed: int): bool
    requires 0 <= st < |s.cells|
  {
    s.cells[st].Some? && ed in Reach(s.ToBoard(), st, s.cells[st].value.Data().speed, s.cells[st].value.Data().speed)
  }

  /** The unit on `st` can always be put on an empty, non-Mountain cell touching it. */
  lemma CanPutNeighbour(s: GameState, st: int, ed: int)
    requires 0 <= st < |s.cells| && s.cells[st].Some?
    requires 0 <= ed < |s.cells| && s.cells[ed].None? && PlaceTypeAt(s.ToBoard(), ed) != Some(Mountain)
    requires CellDistance(st, ed) <= 1
    ensures CanPut(s, st, ed)
  {
    NeighbourReachable(s.ToBoard(), st, s.cells[st].value.Data().speed, ed);
  }

  /** A put lands on an empty, non-Mountain cell of the board within the unit's speed,
      reached by steps between touching cells. */
  lemma CanPutFacts(s: GameState, st: int, ed: int)
    requires 0 <= st < |s.cells|
    requires CanPut(s, st, ed)
    ensures 0 <= ed < |s.cells| && s.cells[ed].None? && ed != st
    ensures PlaceTypeAt(s.ToBoard(), ed) != Some(Mountain)
    ensures CellDistance(st, ed) <= s.cells[st].value.Data().speed
  {
    ReachFacts(s.ToBoard(), st, s.cells[st].value.Data().speed, s.cells[st].value.Data().speed);
  }
}
