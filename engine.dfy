/** The game object: the state `G` that every move and hook of `Kriegspiel` changes in
    place. The current side (`ctx.currentPlayer`) is passed to each method; a move that
    `Game.ts` rejects with `INVALID_MOVE` returns `false` here and changes nothing. */
module Engine {
  import opened Seqs
  import opened Pieces
  import opened Geometry
  import opened Supply
  import opened Combat
  import opened Moves
  import opened Codec
  import opened Game

  class Kriegspiel {
    var cells: seq<Option<Unit>>
    var places: seq<Option<Stronghold>>
    var inSupply: PerPlayer<seq<int>>
    var moveRecords: PerPlayer<seq<MoveRecord>>
    var attackRecords: PerPlayer<Option<AttackRecord>>
    var forcedRetreat: PerPlayer<Retreat>
    var controlArea: seq<Control>

    /** The fields as a `GameState` value. */
    function Snapshot(): GameState
      reads this
    {
      GameState(cells, places, inSupply, moveRecords, attackRecords, forcedRetreat, controlArea)
    }

    predicate Valid()
      reads this
    {
      GameValid(Snapshot())
    }

    /** `setup`: `loadGame` on a board text. */
    constructor (fields: seq<Field>, p: Player)
      ensures Valid() && Snapshot() == LoadGame(fields, p)
    {
      var c := LoadPieces(fields);
      var pl := LoadPlaces(fields);
      cells := c;
      places := pl;
      inSupply := PerPlayer([], []);
      moveRecords := PerPlayer([], []);
      attackRecords := PerPlayer(None, None);
      forcedRetreat := PerPlayer(Retreat(None, None), Retreat(None, None));
      controlArea := seq(N, i => Control(if i < N / 2 then P0 else P1, 0, 0));
      new;
      Update(p);
      LoadGameFacts(fields, p);
    }

    /** The `load` edition move: the whole state is replaced by `loadGame`'s. */
    method Load(fields: seq<Field>, p: Player)
      modifies this
      ensures Valid() && Snapshot() == LoadGame(fields, p)
    {
      cells := LoadPieces(fields);
      places := LoadPlaces(fields);
      inSupply := PerPlayer([], []);
      moveRecords := PerPlayer([], []);
      attackRecords := PerPlayer(None, None);
      forcedRetreat := PerPlayer(Retreat(None, None), Retreat(None, None));
      controlArea := seq(N, i => Control(if i < N / 2 then P0 else P1, 0, 0));
      assert Snapshot() == Initial(Fen2Board(fields, PieceOf), Fen2Board(fields, PlaceOf));
      Update(p);
      LoadGameFacts(fields, p);
    }

    /** `updateSuppliedCells(G, p)` with `updateSuppliedObj`. */
    method UpdateSuppliedCells(p: Player)
      modifies this
      ensures Snapshot() == SupplyStep(old(Snapshot()), p)
    {
      var supplied := GetSuppliedCells(Board(cells, places), p);
      inSupply := inSupply.Set(p, supplied);
      cells := MarkSupplied(cells, inSupply);
    }

    /** `update`'s stronghold loop: strongholds are visited in cell order. */
    method UpdatePlaces(p: Player)
      modifies this
      ensures Snapshot() == PlacesStep(old(Snapshot()), p)
    {
      ghost var b := Board(cells, places);
      ghost var records := attackRecords;
      for cid := 0 to |places|
        invariant |places| == |b.places| && cells == b.cells
        invariant places == PlacesUpTo(b, cid)
        invariant attackRecords == RecordUpTo(b, records, p, cid)
        invariant inSupply == old(inSupply) && moveRecords == old(moveRecords)
        invariant forcedRetreat == old(forcedRetreat) && controlArea == old(controlArea)
      {
        var strong := places[cid];
        var obj := CellAt(Board(cells, places), cid);
        assert obj == CellAt(b, cid);
        if strong.None? {
        } else if strong.value.placeType == Mountain {
        } else if strong.value.placeType == Arsenal && strong.value.belong.Some? {
          if obj.Some? && Some(obj.value.belong) != strong.value.belong && obj.value.Data().offense > 0
             && obj.value.supplied {
            attackRecords := attackRecords.Set(p, Some(ArsenalTaken(cid)));
            places := places[cid := None];
          }
        } else if obj.Some? && obj.value.Data().canAddDef {
          places := places[cid := Some(strong.value.(belong := Some(obj.value.belong)))];
        } else {
          places := places[cid := Some(strong.value.(belong := None))];
        }
        assert places == PlacesUpTo(b, cid + 1);
      }
    }

    /** `updateControlArea`. */
    method UpdateControlArea()
      modifies this
      ensures Snapshot() == ControlStep(old(Snapshot()))
    {
      var b := Board(cells, places);
      var oldArea := controlArea;
      controlArea := seq(|oldArea|, cid requires 0 <= cid < |oldArea| => NewControl(b, oldArea[cid], cid));
    }

    /** `update`: the current side's supply, the other side's, the strongholds, the
        control area. */
    method Update(p: Player)
      modifies this
      ensures Snapshot() == Updated(old(Snapshot()), p)
      ensures Shaped(old(Snapshot())) ==> Valid()
    {
      ghost var s := Snapshot();
      UpdateSuppliedCells(p);
      UpdateSuppliedCells(Dual(p));
      UpdatePlaces(p);
      UpdateControlArea();
      if Shaped(s) {
        UpdatedValid(s, p);
      }
    }

    /** `movePiece`'s guard: a unit on `st` that `canPick` allows and whose `moveRange`
        holds `ed`. */
    static method CheckMove(s: GameState, p: Player, st: int, ed: int) returns (ok: bool)
      ensures ok == CanMove(s, p, st, ed)
    {
      if !(0 <= st < |s.cells|) || s.cells[st].None? {
        return false;
      }
      var obj := s.cells[st].value;
      var range := MoveRange(s.ToBoard(), st, obj.Data().speed);
      ok := CanPick(s, p, st) && ed in range;
    }

    /** `movePiece`: move the unit on `st` to `ed` if it may be picked and put there. */
    method MovePiece(p: Player, st: int, ed: int) returns (valid: bool)
      requires Valid()
      modifies this
      ensures valid == CanMove(old(Snapshot()), p, st, ed)
      ensures valid ==> Snapshot() == Updated(Moved(old(Snapshot()), p, st, ed), p)
      ensures !valid ==> Snapshot() == old(Snapshot())
      ensures Valid()
    {
      var s := Snapshot();
      valid := CheckMove(s, p, st, ed);
      if !valid {
        return;
      }
      var obj := cells[st].value;
      MovedFacts(s, p, st, ed);
      cells := cells[st := None];
      cells := cells[ed := Some(obj.(supplied := false))];
      moveRecords := moveRecords.Set(p, moveRecords.Get(p) + [(st, ed)]);
      if forcedRetreat.Get(p).st.Some? {
        forcedRetreat := forcedRetreat.Set(p, Retreat(None, Some(ed)));
      }
      assert Snapshot() == Moved(s, p, st, ed);
      Update(p);
    }

    /** `attack`'s guard: a unit stands on `cid` and `canAttack` allows the attack; the
        second result is the margin. */
    static method CheckAttack(s: GameState, p: Player, cid: int) returns (ok: bool, relOff: int)
      ensures ok == (0 <= cid < |s.cells| && s.cells[cid].Some? && CanAttack(s, p, cid).0)
      ensures relOff == CanAttack(s, p, cid).1
    {
      var obj := CellAt(s.ToBoard(), cid);
      var verdict := CanAttack(s, p, cid);
      ok := obj.Some? && verdict.0;
      relOff := verdict.1;
    }

    /** `attack`: strike the unit on `cid` if the current side may attack it. The record
        holds the struck unit as the attack leaves it. */
    method Attack(p: Player, cid: int) returns (valid: bool)
      requires Valid()
      modifies this
      ensures valid == (0 <= cid < N && old(cells)[cid].Some? && CanAttack(old(Snapshot()), p, cid).0)
      ensures valid ==> Snapshot() == Updated(Attacked(old(Snapshot()), p, cid), p)
      ensures !valid ==> Snapshot() == old(Snapshot())
      ensures Valid()
    {
      var s := Snapshot();
      var ok, relOff := CheckAttack(s, p, cid);
      if !ok {
        return false;
      }
      var obj := cells[cid];
      AttackedFacts(s, p, cid);
      AttackedCases(s, p, cid, relOff);
      if relOff == 1 {
        var struck := obj.value.(retreating := true);
        attackRecords := attackRecords.Set(p, Some(Struck(cid, struck)));
        cells := cells[cid := Some(struck)];
        forcedRetreat := forcedRetreat.Set(obj.value.belong, Retreat(Some(cid), None));
        assert Snapshot() == Attacked(s, p, cid);
      } else {
        attackRecords := attackRecords.Set(p, Some(Struck(cid, obj.value)));
        cells := cells[cid := None];
        assert Snapshot() == Attacked(s, p, cid);
      }
      Update(p);
      valid := true;
    }

    /** `turn.onBegin`'s test of a pending retreat from `st`: no cell to step to, or
        the unit there is out of supply. */
    static method CheckRetreat(b: Board, st: int) returns (fails: bool)
      ensures fails == (|Reach(b, st, 1, 1)| == 0 || !(CellAt(b, st).Some? && CellAt(b, st).value.supplied))
    {
      var range := MoveRange(b, st, 1);
      var obj := CellAt(b, st);
      fails := |range| == 0 || !(obj.Some? && obj.value.supplied);
    }

    /** `turn.onBegin`. */
    method OnBegin(p: Player)
      requires Valid()
      modifies this
      ensures Snapshot() == Updated(Begun(old(Snapshot()), p), p)
      ensures Valid()
    {
      ghost var s := Snapshot();
      BegunFacts(s, p);
      moveRecords := moveRecords.Set(p, []);
      attackRecords := attackRecords.Set(p, None);
      ghost var s1 := Snapshot();
      assert s1.ToBoard() == s.ToBoard();
      var retreatSt := forcedRetreat.Get(p).st;
      if retreatSt.Some? {
        var fails := CheckRetreat(Board(cells, places), retreatSt.value);
        assert fails == RetreatFails(s, retreatSt.value);
        if fails {
          cells := cells[retreatSt.value := None];
          forcedRetreat := forcedRetreat.Set(p, Retreat(None, None));
          assert Snapshot() == Begun(s, p);
        } else {
          assert Snapshot() == Begun(s, p);
        }
      } else {
        assert Snapshot() == Begun(s, p);
      }
      Update(p);
    }

    /** `turn.onEnd`. */
    method OnEnd(p: Player)
      requires Valid()
      modifies this
      ensures Snapshot() == Updated(Ended(old(Snapshot()), p), p)
      ensures Valid()
    {
      ghost var s := Snapshot();
      var retreatEd := forcedRetreat.Get(p).ed;
      if retreatEd.Some? {
        var retreatObj := cells[retreatEd.value];
        if retreatObj.Some? {
          cells := cells[retreatEd.value := Some(retreatObj.value.(retreating := false))];
          forcedRetreat := forcedRetreat.Set(p, Retreat(None, None));
        }
      }
      EndedFacts(s, p);
      assert Snapshot() == Ended(s, p);
      Update(p);
    }

    /** The `merge` edition move: the units of a board text are laid over the board. */
    method Merge(fields: seq<Field>, p: Player)
      requires Valid()
      modifies this
      ensures Snapshot() == Updated(Merged(old(Snapshot()), Fen2Board(fields, PieceOf)), p)
      ensures Valid()
    {
      ghost var s := Snapshot();
      var addCells := LoadPieces(fields);
      var oldCells := cells;
      cells := seq(|oldCells|, id requires 0 <= id < |oldCells| => if addCells[id].Some? then addCells[id] else oldCells[id]);
      assert Snapshot() == Merged(s, addCells);
      Update(p);
    }

    /** The `editCells` edition move. */
    method EditCells(p: Player, cid: int, element: Option<Unit>)
      requires Valid() && 0 <= cid < N
      modifies this
      ensures Snapshot() == Updated(old(Snapshot()).(cells := old(cells)[cid := element]), p)
      ensures Valid()
    {
      ghost var s := Snapshot();
      cells := cells[cid := element];
      assert Snapshot() == s.(cells := s.cells[cid := element]);
      Update(p);
    }

    /** The `editPlaces` edition move. */
    method EditPlaces(p: Player, cid: int, element: Option<Stronghold>)
      requires Valid() && 0 <= cid < N
      modifies this
      ensures Snapshot() == Updated(old(Snapshot()).(places := old(places)[cid := element]), p)
      ensures Valid()
    {
      ghost var s := Snapshot();
      places := places[cid := element];
      assert Snapshot() == s.(places := s.places[cid := element]);
      Update(p);
    }
  }
}
