/** Battle values: fire range, cavalry charges, the offence and defence factors of
    a side on a cell, and whether the current side may attack it. */
module Combat {
  import opened Seqs
  import opened Pieces
  import opened Geometry
  import opened Rays

  /** `fireRange`: the cells seen from `cid` along the eight directions up to
      `range` steps, stopping at Mountains (units do not block fire). */
  function FireRange(b: Board, cid: int, range: int): seq<int> {
    RemoveDup(Flatten(MiShape(b, FireLine, cid, 0, range)))
  }

  /** `getChargedCavalries`: the charge rows, as positions relative to `cid`. No charge
      reaches a target in a Fortress or on a Pass, or an empty cell. */
  function ChargeRows(b: Board, cid: int): seq<seq<Pos>> {
    var obj := CellAt(b, cid);
    var placeType := PlaceTypeAt(b, cid);
    if placeType == Some(Fortress) || placeType == Some(Pass) || obj.None? then []
    else MiShapeRel(b, ChargeLine(obj.value.belong), cid, 1, 4)
  }

  /** The charging cavalries as cell ids, mapped back from their relative positions. */
  function ChargedCavalries(b: Board, cid: int): seq<int> {
    ToCIds(CId2Pos(cid), Flatten(ChargeRows(b, cid)))
  }

  /** A unit at `id` adds to the factor of `player` on `cid`: the target lies within
      its range, it is supplied and `player`'s, and for offence it is neither
      retreating nor unarmed. */
  predicate Contributes(b: Board, player: Player, isOffense: bool, cid: int, id: int) {
    var obj := CellAt(b, id);
    obj.Some? && NaiveDistance(CId2Pos(cid), CId2Pos(id)) <= obj.value.Data().range
    && obj.value.supplied && obj.value.belong == player
    && !(isOffense && (obj.value.retreating || obj.value.Data().offense == 0))
  }

  /** `effectingObjs` before the cavalries are merged in. */
  function InRange(b: Board, player: Player, isOffense: bool, cid: int): seq<int> {
    Filter(FireRange(b, cid, 3), id => Contributes(b, player, isOffense, cid, id))
  }

  /** The defence bonus of the stronghold under a unit that can use it. */
  function StrongholdBonusAt(b: Board, id: int): nat {
    var obj := CellAt(b, id);
    if 0 <= id < |b.places| && b.places[id].Some? && b.places[id].value.DefenseAdd() > 0
       && obj.Some? && obj.value.Data().canAddDef
    then b.places[id].value.DefenseAdd() else 0
  }

  /** `strongholdDef`: the stronghold bonuses under the units of `ids`. */
  function StrongholdDef(b: Board, ids: seq<int>): nat {
    if ids == [] then 0 else StrongholdDef(b, ids[..|ids| - 1]) + StrongholdBonusAt(b, ids[|ids| - 1])
  }

  /** The offence or defence value of the unit at `id`. */
  function UnitValue(b: Board, id: int, isOffense: bool): nat {
    var obj := CellAt(b, id);
    if obj.None? then 0 else if isOffense then obj.value.Data().offense else obj.value.Data().defense
  }

  /** The sum of the unit values of `ids`. */
  function Total(b: Board, ids: seq<int>, isOffense: bool): nat {
    if ids == [] then 0 else Total(b, ids[..|ids| - 1], isOffense) + UnitValue(b, ids[|ids| - 1], isOffense)
  }

  /** Offence against a unit of the other side: the charge rules apply. */
  predicate Charging(b: Board, player: Player, isOffense: bool, cid: int) {
    CellAt(b, cid).Some? && CellAt(b, cid).value.belong != player && isOffense
  }

  /** `getBattleFactor`: the factor of `player` on `cid` and the units making it. */
  function GetBattleFactor(b: Board, player: Player, isOffense: bool, cid: int): (int, seq<int>) {
    var effecting := InRange(b, player, isOffense, cid);
    var charged := ChargedCavalries(b, cid);
    var units := if Charging(b, player, isOffense, cid) then RemoveDup(effecting + charged) else effecting;
    var addValue :=
      if Charging(b, player, isOffense, cid) then 3 * |charged|
      else if !isOffense then StrongholdDef(b, effecting)
      else 0;
    (Total(b, units, isOffense) + addValue, units)
  }

  /** `getRelDef`: `player`'s defence on `cid` less the other side's offence there. */
  function GetRelDef(b: Board, cid: int, player: Player): int {
    GetBattleFactor(b, player, false, cid).0 - GetBattleFactor(b, Dual(player), true, cid).0
  }

  /** `canAttack`: the current side `p` may attack the enemy unit on `cid` when it has
      no pending retreat and has not attacked this turn, and its offence there beats
      the enemy's defence; the second value is the margin (0 when not eligible). */
  function CanAttack(s: GameState, p: Player, cid: int): (r: (bool, int))
    ensures r.0 ==> r.1 > 0
    ensures r.0 ==> CellAt(s.ToBoard(), cid).Some? && CellAt(s.ToBoard(), cid).value.belong != p
  {
    var b := s.ToBoard();
    var obj := CellAt(b, cid);
    if s.forcedRetreat.Get(p).st.None? && s.attackRecords.Get(p).None? && obj.Some? && obj.value.belong != p then
      var off := GetBattleFactor(b, p, true, cid).0;
      var def := GetBattleFactor(b, obj.value.belong, false, cid).0;
      (off - def > 0, off - def)
    else (false, 0)
  }

  // ---------------------------------------------------------------- properties

  /** Every stronghold bonus is 0, 2 (Pass) or 4 (Fortress), so the sum is at most four per unit. */
  lemma {:induction false} StrongholdDefBound(b: Board, ids: seq<int>)
    ensures StrongholdDef(b, ids) <= 4 * |ids|
  {
    if ids != [] {
      StrongholdDefBound(b, ids[..|ids| - 1]);
    }
  }

  /** A charge comes only from a supplied, non-retreating cavalry of the attacker's side
      (the side that does not own the target), one to four steps away, not in a
      Fortress, and each only once, so the charge bonus counts cavalries. */
  lemma ChargedFacts(b: Board, cid: int)
    requires 0 <= cid < N
    ensures var ch := ChargedCavalries(b, cid);
            forall id :: id in ch ==>
              CellAt(b, cid).Some? && CellAt(b, id).Some?
              && CellAt(b, id).value.belong != CellAt(b, cid).value.belong
              && CellAt(b, id).value.Data().objType == Cavalry
              && CellAt(b, id).value.supplied && !CellAt(b, id).value.retreating
              && PlaceTypeAt(b, id) != Some(Fortress)
              && 1 <= CellDistance(cid, id) <= 4
    ensures PlaceTypeAt(b, cid) in {Some(Fortress), Some(Pass)} || CellAt(b, cid).None?
            ==> ChargedCavalries(b, cid) == []
    ensures NoDup(ChargedCavalries(b, cid))
  {
    var obj := CellAt(b, cid);
    var placeType := PlaceTypeAt(b, cid);
    if !(placeType == Some(Fortress) || placeType == Some(Pass) || obj.None?) {
      var f := ChargeLine(obj.value.belong);
      MiShapeRelToCIds(b, f, cid, 1, 4);
      MiShapeFacts(b, f, cid, 1, 4);
      MiShapeDistinct(b, f, cid, 1, 4);
    }
  }

  /** Every unit in fire range that counts is `player`'s and supplied, armed and not
      retreating in an offence, and lies on a fire line within three steps. */
  lemma InRangeFacts(b: Board, player: Player, isOffense: bool, cid: int)
    requires 0 <= cid < N
    ensures NoDup(InRange(b, player, isOffense, cid))
    ensures forall id :: id in InRange(b, player, isOffense, cid) ==>
              Contributes(b, player, isOffense, cid, id) && Passes(b, FireLine, id) && CellDistance(cid, id) <= 3
  {
    MiShapeFacts(b, FireLine, cid, 0, 3);
  }

  /** Every unit listed by `getBattleFactor` is `player`'s and supplied, armed and not
      retreating in an offence, and either fires on `cid` from within its range or
      charges it. */
  lemma BattleUnits(b: Board, player: Player, isOffense: bool, cid: int)
    requires 0 <= cid < N
    ensures NoDup(GetBattleFactor(b, player, isOffense, cid).1)
    ensures var ids := GetBattleFactor(b, player, isOffense, cid).1;
            forall id :: id in ids ==>
              CellAt(b, id).Some? && CellAt(b, id).value.belong == player && CellAt(b, id).value.supplied
              && (isOffense ==> !CellAt(b, id).value.retreating && CellAt(b, id).value.Data().offense > 0)
              && ((Contributes(b, player, isOffense, cid, id) && CellDistance(cid, id) <= 3)
                  || (Charging(b, player, isOffense, cid) && id in ChargedCavalries(b, cid)))
  {
    InRangeFacts(b, player, isOffense, cid);
    ChargedFacts(b, cid);
    if Charging(b, player, isOffense, cid) {
      assert CellAt(b, cid).value.belong == Dual(player);
    }
  }

  /** No attack out of nothing: if `p` may attack, at least one of its supplied,
      non-retreating, armed units fires on the target or charges it. */
  lemma AttackNeedsAttacker(s: GameState, p: Player, cid: int)
    requires 0 <= cid < N
    requires CanAttack(s, p, cid).0
    ensures CellAt(s.ToBoard(), cid).Some? && CellAt(s.ToBoard(), cid).value.belong != p
    ensures exists id :: id in GetBattleFactor(s.ToBoard(), p, true, cid).1
  {
    var b := s.ToBoard();
    assert s.forcedRetreat.Get(p).st.None? && s.attackRecords.Get(p).None?;
    AttackMargin(s, p, cid);
    var (off, ids) := GetBattleFactor(b, p, true, cid);
    var def := GetBattleFactor(b, CellAt(b, cid).value.belong, false, cid).0;
    assert off > def >= 0;
    var ch := ChargedCavalries(b, cid);
    if |ch| > 0 {
      assert ch[0] in RemoveDup(InRange(b, p, true, cid) + ch);
    } else {
      assert off == Total(b, ids, true);
      assert ids != [];
      assert ids[0] in ids;
    }
  }

  /** `fireRange`: exactly the sighted cells up to `range` steps, where only Mountains
      block, each listed once. */
  lemma FireRangeExact(b: Board, cid: int, range: int, id: int)
    ensures NoDup(FireRange(b, cid, range))
    ensures id in FireRange(b, cid, range) <==> Sighted(b, FireLine, cid, 0, range, id)
  {
    MiShapeExact(b, FireLine, cid, 0, range, id);
  }

  /** The units in range are exactly the contributing units that a fire line from the
      target reaches within three steps. */
  lemma InRangeExact(b: Board, player: Player, isOffense: bool, cid: int, id: int)
    ensures id in InRange(b, player, isOffense, cid)
        <==> Contributes(b, player, isOffense, cid, id) && Sighted(b, FireLine, cid, 0, 3, id)
  {
    FireRangeExact(b, cid, 3, id);
  }

  /** `getChargedCavalries`: a cavalry charges exactly when the target is a unit outside
      a Fortress or Pass and the cavalry lies in an unbroken run of charging cavalry, one
      to four steps out in one direction. */
  lemma ChargeExact(b: Board, cid: int, id: int)
    ensures id in ChargedCavalries(b, cid)
        <==> CellAt(b, cid).Some? && PlaceTypeAt(b, cid) != Some(Fortress) && PlaceTypeAt(b, cid) != Some(Pass)
             && Sighted(b, ChargeLine(CellAt(b, cid).value.belong), cid, 1, 4, id)
  {
    var obj := CellAt(b, cid);
    var placeType := PlaceTypeAt(b, cid);
    if !(placeType == Some(Fortress) || placeType == Some(Pass) || obj.None?) {
      MiShapeRelToCIds(b, ChargeLine(obj.value.belong), cid, 1, 4);
      MiShapeExact(b, ChargeLine(obj.value.belong), cid, 1, 4, id);
    }
  }

  /** `getBattleFactor`: the units counted are those in range, joined by the charging
      cavalries in an offence on an enemy unit. The value sums their factors, plus three
      per charging cavalry in such an offence, or plus the stronghold bonuses (at most four
      per unit) in defence. */
  lemma BattleFactor(b: Board, player: Player, isOffense: bool, cid: int)
    ensures var g := GetBattleFactor(b, player, isOffense, cid);
            var inRange := InRange(b, player, isOffense, cid);
            forall id :: id in g.1 <==>
              id in inRange || (Charging(b, player, isOffense, cid) && id in ChargedCavalries(b, cid))
    ensures var g := GetBattleFactor(b, player, isOffense, cid);
            Charging(b, player, isOffense, cid) ==> g.0 == Total(b, g.1, true) + 3 * |ChargedCavalries(b, cid)|
    ensures var g := GetBattleFactor(b, player, isOffense, cid);
            var inRange := InRange(b, player, false, cid);
            !isOffense ==> g.1 == inRange && g.0 == Total(b, inRange, false) + StrongholdDef(b, inRange)
                           && StrongholdDef(b, inRange) <= 4 * |inRange|
    ensures var g := GetBattleFactor(b, player, isOffense, cid);
            var inRange := InRange(b, player, true, cid);
            isOffense && !Charging(b, player, isOffense, cid) ==> g.1 == inRange && g.0 == Total(b, inRange, true)
  {
    StrongholdDefBound(b, InRange(b, player, false, cid));
  }

  /** `getRelDef`: the side's defence on the cell (its units in range plus the stronghold
      bonuses) less the other side's offence there. On an empty cell, or one the other
      side holds, that offence has no charge. */
  lemma RelDef(b: Board, cid: int, p: Player)
    ensures var own := InRange(b, p, false, cid);
            GetRelDef(b, cid, p) == Total(b, own, false) + StrongholdDef(b, own) - GetBattleFactor(b, Dual(p), true, cid).0
    ensures CellAt(b, cid).None? || CellAt(b, cid).value.belong == Dual(p) ==>
              GetBattleFactor(b, Dual(p), true, cid).0 == Total(b, InRange(b, Dual(p), true, cid), true)
  {
  }

  /** `canAttack` refuses every attack while the side has a pending retreat or has
      already attacked this turn, with margin 0. */
  lemma AttackForbidden(s: GameState, p: Player, cid: int)
    requires s.forcedRetreat.Get(p).st.Some? || s.attackRecords.Get(p).Some?
    ensures CanAttack(s, p, cid) == (false, 0)
  {
  }

  /** `canAttack` with no pending retreat and no attack yet, on an enemy unit: the margin
      is the attacker's offence there less the defence of the unit's side, and the attack
      is allowed exactly when that margin is positive. */
  lemma AttackMargin(s: GameState, p: Player, cid: int)
    requires s.forcedRetreat.Get(p).st.None? && s.attackRecords.Get(p).None?
    requires CellAt(s.ToBoard(), cid).Some? && CellAt(s.ToBoard(), cid).value.belong != p
    ensures var margin := GetBattleFactor(s.ToBoard(), p, true, cid).0
                          - GetBattleFactor(s.ToBoard(), CellAt(s.ToBoard(), cid).value.belong, false, cid).0;
            CanAttack(s, p, cid).1 == margin && CanAttack(s, p, cid).0 == (margin > 0)
  {
  }
}
