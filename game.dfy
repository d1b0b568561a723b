/** The game: `update` (supply of both sides, strongholds, control area), the
    moves `movePiece` and `attack`, the turn hooks, the edition moves and `endIf`.
    The transitions are stated as functions on `GameState`; the class `Kriegspiel`
    holds the state and changes it in place. */
module Game {
  import opened Seqs
  import opened Pieces
  import opened Geometry
  import opened Supply
  import opened Combat
  import opened Moves
  import opened Codec

  // ---------------------------------------------------------------- invariants

  predicate RetreatOnBoard(r: Retreat) {
    (r.st.Some? ==> 0 <= r.st.value < N) && (r.ed.Some? ==> 0 <= r.ed.value < N)
  }

  /** Both layers and the control area hold one entry per cell, a pending retreat names
      cells of the board, and no side has recorded more than five moves. */
  predicate Shaped(s: GameState) {
    |s.cells| == N && |s.places| == N && |s.controlArea| == N
    && RetreatOnBoard(s.forcedRetreat.p0) && RetreatOnBoard(s.forcedRetreat.p1)
    && |s.moveRecords.p0| <= 5 && |s.moveRecords.p1| <= 5
  }

  /** Every unit's `supplied` flag says whether its cell is in its side's `inSupply`. */
  predicate SupplyConsistent(s: GameState) {
    forall id :: 0 <= id < |s.cells| && s.cells[id].Some? ==>
      s.cells[id].value.supplied == (id in s.inSupply.Get(s.cells[id].value.belong))
  }

  /** The state after every move and hook. */
  predicate GameValid(s: GameState) {
    Shaped(s) && SupplyConsistent(s) && OwnLists(s)
  }

  // ---------------------------------------------------------------- update

  /** `updateSuppliedObj`: each unit's flag from its side's current `inSupply`. */
  function MarkSupplied(cells: seq<Option<Unit>>, ins: PerPlayer<seq<int>>): (r: seq<Option<Unit>>)
    ensures |r| == |cells|
  {
    seq(|cells|, id requires 0 <= id < |cells| =>
      if cells[id].None? then None
      else Some(cells[id].value.(supplied := id in ins.Get(cells[id].value.belong))))
  }

  /** `updateSuppliedCells(G, p)`: recompute `p`'s supplied cells on the current board,
      then re-mark the units of both sides. */
  function SupplyStep(s: GameState, p: Player): GameState {
    var ins := s.inSupply.Set(p, SuppliedCells(s.ToBoard(), p));
    s.(inSupply := ins, cells := MarkSupplied(s.cells, ins))
  }

  /** An owned Arsenal on `cid` with an armed, supplied enemy unit on it. */
  predicate ArsenalTakenAt(b: Board, cid: int)
    requires 0 <= cid < |b.places|
  {
    var strong := b.places[cid];
    var obj := CellAt(b, cid);
    strong.Some? && strong.value.placeType == Arsenal && strong.value.belong.Some?
    && obj.Some? && Some(obj.value.belong) != strong.value.belong
    && obj.value.Data().offense > 0 && obj.value.supplied
  }

  /** One pass of `update`'s stronghold loop on `cid`. */
  function NewPlace(b: Board, cid: int): Option<Stronghold>
    requires 0 <= cid < |b.places|
  {
    var strong := b.places[cid];
    if strong.None? then None
    else if strong.value.placeType == Mountain then strong
    else if strong.value.placeType == Arsenal && strong.value.belong.Some? then
      if ArsenalTakenAt(b, cid) then None else strong
    else
      var obj := CellAt(b, cid);
      if obj.Some? && obj.value.Data().canAddDef then Some(strong.value.(belong := Some(obj.value.belong)))
      else Some(strong.value.(belong := None))
  }

  /** The strongholds after the loop has visited the cells below `k`. */
  function PlacesUpTo(b: Board, k: int): (r: seq<Option<Stronghold>>)
    ensures |r| == |b.places|
  {
    seq(|b.places|, i requires 0 <= i < |b.places| => if i < k then NewPlace(b, i) else b.places[i])
  }

  /** The last Arsenal below `k` that is taken: the one whose record survives the loop. */
  function LastTaken(b: Board, k: nat): (r: Option<int>)
    requires k <= |b.places|
    ensures r.Some? ==> 0 <= r.value < k && ArsenalTakenAt(b, r.value)
    ensures r.Some? ==> forall j :: r.value < j < k ==> !ArsenalTakenAt(b, j)
    ensures r.None? ==> forall j :: 0 <= j < k ==> !ArsenalTakenAt(b, j)
  {
    if k == 0 then None
    else if ArsenalTakenAt(b, k - 1) then Some(k - 1)
    else LastTaken(b, k - 1)
  }

  /** `attackRecords` after the loop has visited the cells below `k`. */
  function RecordUpTo(b: Board, records: PerPlayer<Option<AttackRecord>>, p: Player, k: nat)
    : PerPlayer<Option<AttackRecord>>
    requires k <= |b.places|
  {
    var t := LastTaken(b, k);
    if t.Some? then records.Set(p, Some(ArsenalTaken(t.value))) else records
  }

  /** `update`'s stronghold loop. */
  function PlacesStep(s: GameState, p: Player): GameState {
    var b := s.ToBoard();
    s.(places := PlacesUpTo(b, |b.places|), attackRecords := RecordUpTo(b, s.attackRecords, p, |b.places|))
  }

  /** `updateControlArea` on one cell: a unit holds its cell for its side; otherwise
      the side with the strictly higher relative defence takes it, and a tie keeps
      the previous controller. */
  function NewControl(b: Board, area: Control, cid: int): Control {
    var relDef0 := GetRelDef(b, cid, P0);
    var relDef1 := GetRelDef(b, cid, P1);
    var c0 := if relDef0 > relDef1 then P0 else area.control;
    var c1 := if relDef1 > relDef0 then P1 else c0;
    var obj := CellAt(b, cid);
    Control(if obj.Some? then obj.value.belong else c1, relDef0, relDef1)
  }

  function ControlStep(s: GameState): GameState {
    s.(controlArea := seq(|s.controlArea|, cid requires 0 <= cid < |s.controlArea| =>
                          NewControl(s.ToBoard(), s.controlArea[cid], cid)))
  }

  /** `update(G, ctx)` for the current side `p`: `p`'s supply first (on the other side's
      old flags), then the other side's, then the strongholds, then the control area. */
  function Updated(s: GameState, p: Player): GameState {
    ControlStep(PlacesStep(SupplyStep(SupplyStep(s, p), Dual(p)), p))
  }

  // ---------------------------------------------------------------- moves and hooks

  /** `movePiece`'s guard. */
  predicate CanMove(s: GameState, p: Player, st: int, ed: int) {
    0 <= st < |s.cells| && s.cells[st].Some? && CanPick(s, p, st) && CanPut(s, st, ed)
  }

  /** `movePiece` before `update`: the unit leaves `st` unsupplied for `ed`, the move is
      recorded, and a pending retreat is marked as done at `ed`. */
  function Moved(s: GameState, p: Player, st: int, ed: int): GameState
    requires 0 <= st < |s.cells| && 0 <= ed < |s.cells| && s.cells[st].Some?
  {
    var obj := s.cells[st].value;
    var fr := if s.forcedRetreat.Get(p).st.Some? then s.forcedRetreat.Set(p, Retreat(None, Some(ed)))
              else s.forcedRetreat;
    s.(cells := s.cells[st := None][ed := Some(obj.(supplied := false))],
       moveRecords := s.moveRecords.Set(p, s.moveRecords.Get(p) + [(st, ed)]),
       forcedRetreat := fr)
  }

  /** `attack` before `update`: a margin of exactly one forces the target to retreat
      (it stays, marked retreating, and its side owes a retreat from `cid`); a larger
      margin captures it. The record holds the unit as it stands after the attack. */
  function Attacked(s: GameState, p: Player, cid: int): GameState
    requires 0 <= cid < |s.cells| && s.cells[cid].Some?
  {
    var obj := s.cells[cid].value;
    if CanAttack(s, p, cid).1 == 1 then
      var struck := obj.(retreating := true);
      s.(attackRecords := s.attackRecords.Set(p, Some(Struck(cid, struck))),
         cells := s.cells[cid := Some(struck)],
         forcedRetreat := s.forcedRetreat.Set(obj.belong, Retreat(Some(cid), None)))
    else
      s.(attackRecords := s.attackRecords.Set(p, Some(Struck(cid, obj))),
         cells := s.cells[cid := None])
  }

  /** `Attacked` spelled out for a margin of one and for a larger margin. */
  lemma AttackedCases(s: GameState, p: Player, cid: int, margin: int)
    requires 0 <= cid < |s.cells| && s.cells[cid].Some? && margin == CanAttack(s, p, cid).1
    ensures var obj := s.cells[cid].value;
            margin == 1 ==>
              Attacked(s, p, cid)
              == s.(attackRecords := s.attackRecords.Set(p, Some(Struck(cid, obj.(retreating := true)))),
                    cells := s.cells[cid := Some(obj.(retreating := true))],
                    forcedRetreat := s.forcedRetreat.Set(obj.belong, Retreat(Some(cid), None)))
    ensures var obj := s.cells[cid].value;
            margin != 1 ==>
              Attacked(s, p, cid)
              == s.(attackRecords := s.attackRecords.Set(p, Some(Struck(cid, obj))), cells := s.cells[cid := None])
  {
  }

  /** The retreating unit on `st` is lost: it has no cell to step to, or it is out of supply. */
  predicate RetreatFails(s: GameState, st: int) {
    var b := s.ToBoard();
    |Reach(b, st, 1, 1)| == 0 || !(CellAt(b, st).Some? && CellAt(b, st).value.supplied)
  }

  /** `turn.onBegin` before `update`: clear `p`'s records; a pending retreat that cannot
      be made costs the unit. */
  function Begun(s: GameState, p: Player): GameState
    requires Shaped(s)
  {
    var s1 := s.(moveRecords := s.moveRecords.Set(p, []), attackRecords := s.attackRecords.Set(p, None));
    var st := s.forcedRetreat.Get(p).st;
    if st.Some? && RetreatFails(s1, st.value) then
      s1.(cells := s1.cells[st.value := None], forcedRetreat := s1.forcedRetreat.Set(p, Retreat(None, None)))
    else s1
  }

  /** `turn.onEnd` before `update`: a unit that has retreated stops retreating. */
  function Ended(s: GameState, p: Player): GameState
    requires Shaped(s)
  {
    var ed := s.forcedRetreat.Get(p).ed;
    if ed.Some? && s.cells[ed.value].Some? then
      s.(cells := s.cells[ed.value := Some(s.cells[ed.value].value.(retreating := false))],
         forcedRetreat := s.forcedRetreat.Set(p, Retreat(None, None)))
    else s
  }

  /** `merge`: every unit of the loaded board replaces what is on its cell. */
  function Merged(s: GameState, add: seq<Option<Unit>>): GameState
    requires |add| >= |s.cells|
  {
    s.(cells := seq(|s.cells|, id requires 0 <= id < |s.cells| => if add[id].Some? then add[id] else s.cells[id]))
  }

  /** `loadGame` before `update`: the loaded layers with empty records; the control
      area starts with the first half of the board for side 0 and the rest for side 1. */
  function Initial(cells: seq<Option<Unit>>, places: seq<Option<Stronghold>>): GameState {
    GameState(cells, places, PerPlayer([], []), PerPlayer([], []), PerPlayer(None, None),
              PerPlayer(Retreat(None, None), Retreat(None, None)),
              seq(N, i => Control(if i < N / 2 then P0 else P1, 0, 0)))
  }

  function LoadGame(fields: seq<Field>, p: Player): GameState {
    Updated(Initial(Fen2Board(fields, PieceOf), Fen2Board(fields, PlaceOf)), p)
  }

  /** `endIf` for the current side `p`: when the board has strongholds but `p` owns no
      Arsenal, the other side wins. */
  function EndIf(s: GameState, p: Player): (winner: Option<Player>)
    ensures winner.Some? <==>
              (exists i :: 0 <= i < |s.places| && s.places[i].Some?)
              && (forall i :: 0 <= i < |s.places| ==> s.places[i] != Some(Stronghold(Arsenal, Some(p))))
    ensures winner.Some? ==> winner.value == Dual(p)
  {
    var arsenals := Arsenals(s.ToBoard(), p);
    var strongholds := FilterCId(s.places, (_: Stronghold) => true);
    Sources(s.ToBoard(), p);
    if |strongholds| != 0 && |arsenals| == 0 then
      assert strongholds[0] in strongholds;
      Some(Dual(p))
    else if |strongholds| != 0 then
      assert arsenals[0] in arsenals;
      None
    else None
  }

  // ---------------------------------------------------------------- properties of update

  /** Two units are the same up to their `supplied` flag. */
  predicate SameUnit(a: Option<Unit>, b: Option<Unit>) {
    Bare(a) == Bare(b)
  }

  /** A unit with its `supplied` flag cleared. */
  function Bare(a: Option<Unit>): Option<Unit> {
    if a.None? then None else Some(a.value.(supplied := false))
  }

  /** The units of a board with their flags cleared: what `update` does not change. */
  function Strip(cells: seq<Option<Unit>>): (r: seq<Option<Unit>>)
    ensures |r| == |cells|
  {
    seq(|cells|, id requires 0 <= id < |cells| => Bare(cells[id]))
  }

  /** `update` moves, adds and removes no unit: only `supplied` flags change. */
  lemma UpdatedStrip(s: GameState, p: Player)
    ensures Strip(Updated(s, p).cells) == Strip(s.cells)
  {
    var s1 := SupplyStep(s, p);
    SupplyFrame(s, p);
    SupplyStepFacts(s, p);
    SupplyStepFacts(s1, Dual(p));
  }

  /** `update` keeps the records of moves and retreats and the other side's attack
      record; the current side's attack record changes only to an Arsenal taken. */
  lemma UpdatedRecords(s: GameState, p: Player)
    ensures var u := Updated(s, p);
            |u.cells| == |s.cells| && |u.places| == |s.places| && |u.controlArea| == |s.controlArea|
            && u.moveRecords == s.moveRecords && u.forcedRetreat == s.forcedRetreat
            && u.attackRecords.Get(Dual(p)) == s.attackRecords.Get(Dual(p))
            && (u.attackRecords.Get(p) != s.attackRecords.Get(p) ==>
                  u.attackRecords.Get(p).Some? && u.attackRecords.Get(p).value.ArsenalTaken?)
  {
    var b := SupplyStep(SupplyStep(s, p), Dual(p)).ToBoard();
    assert Updated(s, p).attackRecords == RecordUpTo(b, s.attackRecords, p, |b.places|);
    assert Dual(Dual(p)) == p;
  }

  /** `list` names only cells of `q`'s units. */
  predicate ListOwn(s: GameState, q: Player, list: seq<int>) {
    forall x :: x in list ==> 0 <= x < |s.cells| && s.cells[x].Some? && s.cells[x].value.belong == q
  }

  /** Each side's supplied list names only cells of that side's units. */
  predicate OwnLists(s: GameState) {
    ListOwn(s, P0, s.inSupply.p0) && ListOwn(s, P1, s.inSupply.p1)
  }

  /** One supply pass: `p`'s list is recomputed on the board as it stands, the other
      list is kept, units keep their cells, and afterwards every flag matches the lists. */
  lemma SupplyStepFacts(s: GameState, p: Player)
    ensures var t := SupplyStep(s, p);
            SupplyConsistent(t)
            && t.inSupply.Get(p) == SuppliedCells(s.ToBoard(), p)
            && t.inSupply.Get(Dual(p)) == s.inSupply.Get(Dual(p))
            && |t.cells| == |s.cells|
            && (forall id :: 0 <= id < |s.cells| ==> SameUnit(t.cells[id], s.cells[id]))
  {
  }

  /** The stronghold and control passes of `update` leave the units and the supplied
      lists as the two supply passes made them. */
  lemma SupplyFrame(s: GameState, p: Player)
    ensures Updated(s, p).cells == SupplyStep(SupplyStep(s, p), Dual(p)).cells
    ensures Updated(s, p).inSupply == SupplyStep(SupplyStep(s, p), Dual(p)).inSupply
  {
  }

  /** A list naming `q`'s units still does once the flags are re-marked. */
  lemma ListOwnSame(s: GameState, t: GameState, q: Player, list: seq<int>)
    requires ListOwn(s, q, list)
    requires |t.cells| == |s.cells| && forall id :: 0 <= id < |s.cells| ==> SameUnit(t.cells[id], s.cells[id])
    ensures ListOwn(t, q, list)
  {
    forall x | x in list ensures 0 <= x < |t.cells| && t.cells[x].Some? && t.cells[x].value.belong == q {
      assert SameUnit(t.cells[x], s.cells[x]);
    }
  }

  /** `p`'s computed supplied cells are `p`'s units. */
  lemma SuppliedOwn(s: GameState, p: Player)
    ensures ListOwn(s, p, SuppliedCells(s.ToBoard(), p))
  {
    SuppliedFacts(s.ToBoard(), p);
  }

  /** After `update` every unit is flagged supplied exactly when its cell is in its
      side's supplied list, and each list holds only cells of that side's units. */
  lemma UpdatedConsistent(s: GameState, p: Player)
    ensures SupplyConsistent(Updated(s, p))
    ensures OwnLists(Updated(s, p))
  {
    var s1 := SupplyStep(s, p);
    var s2 := SupplyStep(s1, Dual(p));
    SupplyFrame(s, p);
    SupplyStepFacts(s, p);
    SupplyStepFacts(s1, Dual(p));
    SuppliedOwn(s, p);
    ListOwnSame(s, s1, p, s1.inSupply.Get(p));
    ListOwnSame(s1, s2, p, s2.inSupply.Get(p));
    SuppliedOwn(s1, Dual(p));
    ListOwnSame(s1, s2, Dual(p), s2.inSupply.Get(Dual(p)));
    if p == P0 {
      assert OwnLists(s2);
    } else {
      assert OwnLists(s2);
    }
  }

  /** The order of `update`: the current side's supply is computed on the board as it
      stands, the other side's on the board whose flags the first pass re-marked. */
  lemma UpdateOrder(s: GameState, p: Player)
    ensures Updated(s, p).inSupply.Get(p) == SuppliedCells(s.ToBoard(), p)
    ensures Updated(s, p).inSupply.Get(Dual(p)) == SuppliedCells(SupplyStep(s, p).ToBoard(), Dual(p))
  {
  }

  /** The stronghold loop on one cell: no stronghold appears or changes type; Mountains
      stay; an owned Arsenal is destroyed exactly when an armed, supplied enemy unit
      stands on it; any other stronghold belongs to the unit on it if that unit can use
      it, and to nobody otherwise. */
  lemma NewPlaceFacts(b: Board, cid: int)
    requires 0 <= cid < |b.places|
    ensures b.places[cid].None? ==> NewPlace(b, cid).None?
    ensures NewPlace(b, cid).Some? ==>
              b.places[cid].Some? && NewPlace(b, cid).value.placeType == b.places[cid].value.placeType
    ensures b.places[cid].Some? && b.places[cid].value.placeType == Mountain ==> NewPlace(b, cid) == b.places[cid]
    ensures b.places[cid].Some? && b.places[cid].value.placeType == Arsenal && b.places[cid].value.belong.Some?
            ==> (NewPlace(b, cid).None? <==> ArsenalTakenAt(b, cid))
                && (NewPlace(b, cid).Some? ==> NewPlace(b, cid) == b.places[cid])
    ensures b.places[cid].Some?
            && (b.places[cid].value.placeType in {Fortress, Pass}
                || (b.places[cid].value.placeType == Arsenal && b.places[cid].value.belong.None?))
            ==> NewPlace(b, cid).Some?
                && (NewPlace(b, cid).value.belong.Some? <==>
                      CellAt(b, cid).Some? && CellAt(b, cid).value.Data().canAddDef)
                && (NewPlace(b, cid).value.belong.Some? ==>
                      NewPlace(b, cid).value.belong.value == CellAt(b, cid).value.belong)
  {
  }

  /** The taken Arsenal with no taken Arsenal after it is the one `LastTaken` finds. */
  lemma LastTakenIs(b: Board, c: int)
    requires 0 <= c < |b.places| && ArsenalTakenAt(b, c)
    requires forall j :: c < j < |b.places| ==> !ArsenalTakenAt(b, j)
    ensures LastTaken(b, |b.places|) == Some(c)
  {
  }

  /** An Arsenal taken during `update` is recorded as the current side's attack of the
      turn (the last one wins when several fall) and leaves the board; the other side's
      record is untouched, and with no Arsenal taken no record changes. */
  lemma ArsenalRecord(s: GameState, p: Player, c: int)
    requires 0 <= c < |s.places|
    ensures var b := SupplyStep(SupplyStep(s, p), Dual(p)).ToBoard();
            var u := Updated(s, p);
            u.attackRecords.Get(Dual(p)) == s.attackRecords.Get(Dual(p))
            && ((forall j :: 0 <= j < |b.places| ==> !ArsenalTakenAt(b, j)) ==> u.attackRecords == s.attackRecords)
            && (ArsenalTakenAt(b, c) && (forall j :: c < j < |b.places| ==> !ArsenalTakenAt(b, j))
                ==> u.attackRecords.Get(p) == Some(ArsenalTaken(c)) && u.places[c].None?)
  {
    var b := SupplyStep(SupplyStep(s, p), Dual(p)).ToBoard();
    var u := Updated(s, p);
    assert u.attackRecords == RecordUpTo(b, s.attackRecords, p, |b.places|);
    assert u.places == PlacesUpTo(b, |b.places|);
    if ArsenalTakenAt(b, c) && (forall j :: c < j < |b.places| ==> !ArsenalTakenAt(b, j)) {
      LastTakenIs(b, c);
      NewPlaceFacts(b, c);
    }
  }

  /** The control area after `update`: an occupied cell is its unit's side's, and an
      empty cell changes hands only to the side whose relative defence there is
      strictly higher. */
  lemma ControlFacts(s: GameState, p: Player, cid: int)
    requires 0 <= cid < |s.controlArea|
    ensures var b := PlacesStep(SupplyStep(SupplyStep(s, p), Dual(p)), p).ToBoard();
            var c := Updated(s, p).controlArea[cid];
            c.rel0 == GetRelDef(b, cid, P0) && c.rel1 == GetRelDef(b, cid, P1)
            && (CellAt(b, cid).Some? ==> c.control == CellAt(b, cid).value.belong)
            && (CellAt(b, cid).None? && c.control != s.controlArea[cid].control ==>
                  (c.control == P0 && c.rel0 > c.rel1) || (c.control == P1 && c.rel1 > c.rel0))
            && (CellAt(b, cid).None? && c.rel0 > c.rel1 ==> c.control == P0)
            && (CellAt(b, cid).None? && c.rel1 > c.rel0 ==> c.control == P1)
  {
  }

  /** `update` turns any well-shaped state into a valid one. */
  lemma UpdatedValid(s: GameState, p: Player)
    requires Shaped(s)
    ensures GameValid(Updated(s, p))
  {
    UpdatedRecords(s, p);
    UpdatedConsistent(s, p);
  }

  // ---------------------------------------------------------------- properties of the moves

  /** A move before `update`: the unit goes from `st` to a different cell `ed` of the
      board, the move is appended to the side's record, which stays within five moves,
      and a pending retreat is marked as made at `ed`. */
  lemma MovedFacts(s: GameState, p: Player, st: int, ed: int)
    requires Shaped(s) && CanMove(s, p, st, ed)
    ensures 0 <= ed < N && ed != st
    ensures var m := Moved(s, p, st, ed);
            Shaped(m)
            && Strip(m.cells) == Strip(s.cells[st := None][ed := s.cells[st]])
            && m.moveRecords == s.moveRecords.Set(p, s.moveRecords.Get(p) + [(st, ed)])
            && (s.forcedRetreat.Get(p).st.Some? ==> m.forcedRetreat == s.forcedRetreat.Set(p, Retreat(None, Some(ed))))
            && (s.forcedRetreat.Get(p).st.None? ==> m.forcedRetreat == s.forcedRetreat)
  {
    CanPutFacts(s, st, ed);
  }

  /** `movePiece`: the unit on `st` now stands on `ed` and nothing else moves; the move
      is recorded; a pending retreat is marked as made; the state is valid. */
  lemma MoveEffect(s: GameState, p: Player, st: int, ed: int)
    requires GameValid(s) && CanMove(s, p, st, ed)
    ensures 0 <= ed < N && ed != st
    ensures GameValid(Updated(Moved(s, p, st, ed), p))
    ensures Strip(Updated(Moved(s, p, st, ed), p).cells) == Strip(s.cells[st := None][ed := s.cells[st]])
    ensures Updated(Moved(s, p, st, ed), p).moveRecords == s.moveRecords.Set(p, s.moveRecords.Get(p) + [(st, ed)])
    ensures s.forcedRetreat.Get(p).st.Some? ==>
              Updated(Moved(s, p, st, ed), p).forcedRetreat.Get(p) == Retreat(None, Some(ed))
  {
    var m := Moved(s, p, st, ed);
    MovedFacts(s, p, st, ed);
    UpdatedStrip(m, p);
    UpdatedRecords(m, p);
    UpdatedValid(m, p);
  }

  /** The quota: once five moves are recorded, or once the side has attacked, no move is legal. */
  lemma MoveQuota(s: GameState, p: Player, st: int, ed: int)
    requires |s.moveRecords.Get(p)| >= 5 || s.attackRecords.Get(p).Some?
    ensures !CanMove(s, p, st, ed)
  {
  }

  /** An attack before `update`: the target is the other side's; a margin of one leaves
      it on its cell, retreating, with its side owing a retreat from there; a larger
      margin removes it; the attack is recorded. */
  lemma AttackedFacts(s: GameState, p: Player, cid: int)
    requires Shaped(s) && 0 <= cid < N && s.cells[cid].Some? && CanAttack(s, p, cid).0
    ensures s.cells[cid].value.belong == Dual(p) && CanAttack(s, p, cid).1 >= 1
    ensures var a := Attacked(s, p, cid);
            var obj := s.cells[cid].value;
            Shaped(a) && a.attackRecords.Get(p).Some? && a.moveRecords == s.moveRecords
            && (CanAttack(s, p, cid).1 == 1 ==>
                  Strip(a.cells) == Strip(s.cells[cid := Some(obj.(retreating := true))])
                  && a.forcedRetreat == s.forcedRetreat.Set(Dual(p), Retreat(Some(cid), None)))
            && (CanAttack(s, p, cid).1 > 1 ==>
                  Strip(a.cells) == Strip(s.cells[cid := None]) && a.forcedRetreat == s.forcedRetreat)
  {
    assert s.cells[cid].value.belong != p;
  }

  /** `attack`: a margin of one puts the target into retreat where it stands, a larger
      margin captures it, no other unit moves, and the side can neither attack nor move
      again this turn. */
  lemma AttackEffect(s: GameState, p: Player, cid: int)
    requires GameValid(s) && 0 <= cid < N && s.cells[cid].Some? && CanAttack(s, p, cid).0
    ensures s.cells[cid].value.belong == Dual(p)
    ensures GameValid(Updated(Attacked(s, p, cid), p))
    ensures CanAttack(s, p, cid).1 == 1 ==>
              Strip(Updated(Attacked(s, p, cid), p).cells) == Strip(s.cells[cid := Some(s.cells[cid].value.(retreating := true))])
              && Updated(Attacked(s, p, cid), p).forcedRetreat.Get(Dual(p)) == Retreat(Some(cid), None)
    ensures CanAttack(s, p, cid).1 > 1 ==>
              Strip(Updated(Attacked(s, p, cid), p).cells) == Strip(s.cells[cid := None])
    ensures forall x :: !CanAttack(Updated(Attacked(s, p, cid), p), p, x).0
    ensures forall st, ed :: !CanMove(Updated(Attacked(s, p, cid), p), p, st, ed)
  {
    var a := Attacked(s, p, cid);
    AttackedFacts(s, p, cid);
    UpdatedStrip(a, p);
    UpdatedRecords(a, p);
    UpdatedValid(a, p);
    AttackUsed(Updated(a, p), p);
  }

  /** A side that holds an attack record can neither attack nor move. */
  lemma AttackUsed(u: GameState, p: Player)
    requires u.attackRecords.Get(p).Some?
    ensures forall x :: !CanAttack(u, p, x).0
    ensures forall st, ed :: !CanMove(u, p, st, ed)
  {
    forall st, ed ensures !CanMove(u, p, st, ed) {
      MoveQuota(u, p, st, ed);
    }
  }

  /** `turn.onBegin` before `update`: the side's records are cleared; a retreat that
      cannot be made costs the unit and is dropped, otherwise nothing else changes. */
  lemma BegunFacts(s: GameState, p: Player)
    requires Shaped(s)
    ensures var g := Begun(s, p);
            var st := s.forcedRetreat.Get(p).st;
            Shaped(g)
            && g.moveRecords == s.moveRecords.Set(p, []) && g.attackRecords == s.attackRecords.Set(p, None)
            && (st.Some? && RetreatFails(s, st.value) ==>
                  g.cells == s.cells[st.value := None] && g.forcedRetreat == s.forcedRetreat.Set(p, Retreat(None, None)))
            && (!(st.Some? && RetreatFails(s, st.value)) ==> g.cells == s.cells && g.forcedRetreat == s.forcedRetreat)
  {
    var s1 := s.(moveRecords := s.moveRecords.Set(p, []), attackRecords := s.attackRecords.Set(p, None));
    assert s1.ToBoard() == s.ToBoard();
  }

  /** `turn.onBegin`: the side starts with no moves; a failed retreat has cost the unit;
      the only attack record it can start with is an Arsenal taken during `update`. */
  lemma BeginEffect(s: GameState, p: Player)
    requires GameValid(s)
    ensures GameValid(Updated(Begun(s, p), p))
    ensures Updated(Begun(s, p), p).moveRecords == s.moveRecords.Set(p, [])
    ensures var st := s.forcedRetreat.Get(p).st;
            st.Some? && RetreatFails(s, st.value) ==>
              Strip(Updated(Begun(s, p), p).cells) == Strip(s.cells[st.value := None])
              && Updated(Begun(s, p), p).forcedRetreat.Get(p) == Retreat(None, None)
    ensures var st := s.forcedRetreat.Get(p).st;
            !(st.Some? && RetreatFails(s, st.value)) ==>
              Strip(Updated(Begun(s, p), p).cells) == Strip(s.cells)
              && Updated(Begun(s, p), p).forcedRetreat == s.forcedRetreat
    ensures Updated(Begun(s, p), p).attackRecords.Get(p).Some? ==>
              Updated(Begun(s, p), p).attackRecords.Get(p).value.ArsenalTaken?
  {
    var g := Begun(s, p);
    BegunFacts(s, p);
    UpdatedStrip(g, p);
    UpdatedRecords(g, p);
    UpdatedValid(g, p);
  }

  /** `turn.onEnd` before `update`: a unit on the cell its retreat ended on stops
      retreating and the retreat is cleared; otherwise nothing changes. */
  lemma EndedFacts(s: GameState, p: Player)
    requires Shaped(s)
    ensures var e := Ended(s, p);
            var ed := s.forcedRetreat.Get(p).ed;
            Shaped(e) && e.moveRecords == s.moveRecords
            && (ed.Some? && s.cells[ed.value].Some? ==>
                  e.cells == s.cells[ed.value := Some(s.cells[ed.value].value.(retreating := false))]
                  && e.forcedRetreat == s.forcedRetreat.Set(p, Retreat(None, None)))
            && (!(ed.Some? && s.cells[ed.value].Some?) ==> e == s)
  {
  }

  /** `turn.onEnd`: a unit that has made its retreat stops retreating and the retreat is
      cleared; nothing else changes but the flags. */
  lemma EndEffect(s: GameState, p: Player)
    requires GameValid(s)
    ensures GameValid(Updated(Ended(s, p), p))
    ensures Updated(Ended(s, p), p).moveRecords == s.moveRecords
    ensures var ed := s.forcedRetreat.Get(p).ed;
            ed.Some? && s.cells[ed.value].Some? ==>
              Strip(Updated(Ended(s, p), p).cells) == Strip(s.cells[ed.value := Some(s.cells[ed.value].value.(retreating := false))])
              && Updated(Ended(s, p), p).forcedRetreat.Get(p) == Retreat(None, None)
    ensures var ed := s.forcedRetreat.Get(p).ed;
            !(ed.Some? && s.cells[ed.value].Some?) ==>
              Strip(Updated(Ended(s, p), p).cells) == Strip(s.cells)
              && Updated(Ended(s, p), p).forcedRetreat == s.forcedRetreat
  {
    var e := Ended(s, p);
    EndedFacts(s, p);
    UpdatedStrip(e, p);
    UpdatedRecords(e, p);
    UpdatedValid(e, p);
  }

  /** `merge`: every loaded unit stands on its cell, every other cell keeps its unit. */
  lemma MergeEffect(s: GameState, add: seq<Option<Unit>>, p: Player)
    requires GameValid(s) && |add| == N
    ensures GameValid(Updated(Merged(s, add), p))
    ensures forall id :: 0 <= id < N ==>
              Strip(Updated(Merged(s, add), p).cells)[id] == Bare(if add[id].Some? then add[id] else s.cells[id])
  {
    var m := Merged(s, add);
    UpdatedStrip(m, p);
    UpdatedValid(m, p);
    MergeCells(Updated(m, p).cells, s, add);
  }

  lemma MergeCells(uc: seq<Option<Unit>>, s: GameState, add: seq<Option<Unit>>)
    requires |s.cells| == N && |add| == N
    requires Strip(uc) == Strip(Merged(s, add).cells)
    ensures forall id :: 0 <= id < N ==> Strip(uc)[id] == Bare(if add[id].Some? then add[id] else s.cells[id])
  {
  }

  /** `editCells`: the edited cell holds the new unit (or none), the rest is kept. */
  lemma EditCellsEffect(s: GameState, cid: int, element: Option<Unit>, p: Player)
    requires GameValid(s) && 0 <= cid < N
    ensures GameValid(Updated(s.(cells := s.cells[cid := element]), p))
    ensures Strip(Updated(s.(cells := s.cells[cid := element]), p).cells) == Strip(s.cells[cid := element])
  {
    var e := s.(cells := s.cells[cid := element]);
    UpdatedStrip(e, p);
    UpdatedRecords(e, p);
    UpdatedValid(e, p);
  }

  /** `editPlaces`: the edited cell holds a stronghold of the new type or, for an owned
      Arsenal, nothing; clearing the cell leaves it clear; the units are kept. */
  lemma EditPlacesEffect(s: GameState, cid: int, element: Option<Stronghold>, p: Player)
    requires GameValid(s) && 0 <= cid < N
    ensures var u := Updated(s.(places := s.places[cid := element]), p);
            GameValid(u) && Strip(u.cells) == Strip(s.cells)
            && (u.places[cid].Some? ==> element.Some? && u.places[cid].value.placeType == element.value.placeType)
            && (element.Some? && !(element.value.placeType == Arsenal && element.value.belong.Some?) ==> u.places[cid].Some?)
  {
    var e := s.(places := s.places[cid := element]);
    UpdatedStrip(e, p);
    UpdatedRecords(e, p);
    UpdatedValid(e, p);
    PlacesFrame(e, p);
    var b := SupplyStep(SupplyStep(e, p), Dual(p)).ToBoard();
    EditedPlace(Updated(e, p).places, b, cid, element);
  }

  /** The stronghold loop on a cell holding `element`. */
  lemma EditedPlace(up: seq<Option<Stronghold>>, b: Board, cid: int, element: Option<Stronghold>)
    requires 0 <= cid < |b.places| && up == PlacesUpTo(b, |b.places|) && b.places[cid] == element
    ensures up[cid].Some? ==> element.Some? && up[cid].value.placeType == element.value.placeType
    ensures element.Some? && !(element.value.placeType == Arsenal && element.value.belong.Some?) ==> up[cid].Some?
  {
    NewPlaceFacts(b, cid);
  }

  /** The strongholds after `update` are those the stronghold loop made of the board
      the two supply passes left. */
  lemma PlacesFrame(s: GameState, p: Player)
    ensures var b := SupplyStep(SupplyStep(s, p), Dual(p)).ToBoard();
            b.places == s.places && Updated(s, p).places == PlacesUpTo(b, |b.places|)
  {
  }

  /** The stronghold loop creates no stronghold and changes no type, and it removes only
      owned Arsenals. */
  lemma PlacesKeepTypes(b: Board, places: seq<Option<Stronghold>>)
    requires b.places == places
    ensures forall id :: 0 <= id < |places| && PlacesUpTo(b, |places|)[id].Some? ==>
              places[id].Some? && PlacesUpTo(b, |places|)[id].value.placeType == places[id].value.placeType
    ensures forall id :: 0 <= id < |places| && places[id].Some?
                           && !(places[id].value.placeType == Arsenal && places[id].value.belong.Some?) ==>
              PlacesUpTo(b, |places|)[id].Some?
  {
    forall id | 0 <= id < |places| {
      NewPlaceFacts(b, id);
    }
  }

  /** `loadGame`: a valid state with no moves, attacks or retreats recorded, the loaded
      units on their cells and the loaded strongholds where they were (an owned Arsenal
      under an armed, supplied enemy falls at once). */
  lemma LoadGameFacts(fields: seq<Field>, p: Player)
    ensures GameValid(LoadGame(fields, p))
    ensures LoadGame(fields, p).moveRecords == PerPlayer([], [])
    ensures LoadGame(fields, p).forcedRetreat == PerPlayer(Retreat(None, None), Retreat(None, None))
    ensures LoadGame(fields, p).attackRecords.Get(Dual(p)).None?
    ensures LoadGame(fields, p).attackRecords.Get(p).Some? ==> LoadGame(fields, p).attackRecords.Get(p).value.ArsenalTaken?
    ensures Strip(LoadGame(fields, p).cells) == Strip(Fen2Board(fields, PieceOf))
    ensures forall id :: 0 <= id < N && LoadGame(fields, p).places[id].Some? ==>
              Fen2Board(fields, PlaceOf)[id].Some?
              && LoadGame(fields, p).places[id].value.placeType == Fen2Board(fields, PlaceOf)[id].value.placeType
  {
    var i := Initial(Fen2Board(fields, PieceOf), Fen2Board(fields, PlaceOf));
    UpdatedStrip(i, p);
    UpdatedRecords(i, p);
    UpdatedValid(i, p);
    PlacesFrame(i, p);
    PlacesKeepTypes(SupplyStep(SupplyStep(i, p), Dual(p)).ToBoard(), i.places);
  }
}
