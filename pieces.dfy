/** The Kriegspiel data model: sides, the unit and stronghold catalogs with
    their fixed stats, the board and the game state. */
module Pieces {
  import opened Seqs

  /** `P_ID`: the two sides, '0' and '1'. */
  datatype Player = P0 | P1

  /** `dualPlayerID`: the other side. */
  function Dual(p: Player): (q: Player)
    ensures q != p
  {
    if p == P0 then P1 else P0
  }

  /** The render symbols of the catalog (emoji in the engine); `Unrecognised`
      stands for any other text. */
  datatype Symbol =
    | Guard | Horse | Popper | Rocket | Flag | Truck   // units
    | Tent | Castle | Road | Peak                      // strongholds
    | Unrecognised

  datatype ObjType = Infantry | Cavalry | Artillery | SwiftArtillery | Relay | SwiftRelay

  /** The fixed stats of a unit type; `objType` is its functional type. */
  datatype ObjData = ObjData(
    objType: ObjType, objRender: Symbol,
    speed: nat, range: nat, offense: nat, defense: nat, canAddDef: bool)

  /** `objDataList`: the stat table of the unit catalog. */
  function ObjDataOf(t: ObjType): (d: ObjData)
    ensures d.speed >= 1 && d.defense >= 1
    ensures d.objType in {Infantry, Cavalry, Artillery, Relay}
    ensures d.objType == t || (t == SwiftArtillery && d.objType == Artillery) || (t == SwiftRelay && d.objType == Relay)
    ensures d.offense == 0 <==> d.objType == Relay
    ensures d.objType == Relay ==> d.range == 0
    ensures d.canAddDef <==> d.objType in {Infantry, Artillery}
    ensures d.objRender in {Guard, Horse, Popper, Rocket, Flag, Truck}
  {
    match t
    case Infantry       => ObjData(Infantry,  Guard,  1, 2, 4, 6, true)
    case Cavalry        => ObjData(Cavalry,   Horse,  2, 2, 4, 5, false)
    case Artillery      => ObjData(Artillery, Popper, 1, 3, 5, 8, true)
    case SwiftArtillery => ObjData(Artillery, Rocket, 2, 3, 5, 8, true)
    case Relay          => ObjData(Relay,     Flag,   1, 0, 0, 1, false)
    case SwiftRelay     => ObjData(Relay,     Truck,  2, 0, 0, 1, false)
  }

  /** `ObjInstance`: a unit on the board; its stats are those of its type. */
  datatype Unit = Unit(typeName: ObjType, belong: Player, supplied: bool, retreating: bool) {
    function Data(): ObjData { ObjDataOf(typeName) }
  }

  /** `newPiece`: a fresh unit starts supplied and not retreating. */
  function NewPiece(t: ObjType, be: Player): Unit {
    Unit(t, be, true, false)
  }

  datatype PlaceType = Arsenal | Fortress | Pass | Mountain

  /** `renderPlaceByType`: render symbol and defence bonus of a stronghold type. */
  function RenderPlaceByType(t: PlaceType): (r: (Symbol, nat))
    ensures r.1 > 0 <==> t in {Fortress, Pass}
    ensures r.0 in {Tent, Castle, Road, Peak}
  {
    match t
    case Arsenal  => (Tent, 0)
    case Pass     => (Road, 2)
    case Fortress => (Castle, 4)
    case Mountain => (Peak, 0)
  }

  /** A stronghold; only its owner ever changes. */
  datatype Stronghold = Stronghold(placeType: PlaceType, belong: Option<Player>) {
    function DefenseAdd(): nat { RenderPlaceByType(placeType).1 }
    function PlaceRender(): Symbol { RenderPlaceByType(placeType).0 }
  }

  /** `newStronghold`. */
  function NewStronghold(t: PlaceType, belong: Option<Player>): Stronghold {
    Stronghold(t, belong)
  }

  /** The two layers of the board: units and strongholds, one entry per cell. */
  datatype Board = Board(cells: seq<Option<Unit>>, places: seq<Option<Stronghold>>)

  /** `G.cells[id]`, where an id off the array reads as no unit. */
  function CellAt(b: Board, id: int): Option<Unit> {
    if 0 <= id < |b.cells| then b.cells[id] else None
  }

  /** `G.places[id]?.placeType`. */
  function PlaceTypeAt(b: Board, id: int): Option<PlaceType> {
    if 0 <= id < |b.places| && b.places[id].Some? then Some(b.places[id].value.placeType) else None
  }

  /** A value kept once per side. */
  datatype PerPlayer<T> = PerPlayer(p0: T, p1: T) {
    function Get(p: Player): T { if p == P0 then p0 else p1 }
    function Set(p: Player, v: T): PerPlayer<T> { if p == P0 then this.(p0 := v) else this.(p1 := v) }
  }

  /** `attackRecords[p]`: the unit struck at a cell, or an Arsenal destroyed there. */
  datatype AttackRecord = Struck(cid: int, unit: Unit) | ArsenalTaken(cid: int)

  /** `forcedRetreat[p]`: the cell the retreat starts from and the cell it ended on. */
  datatype Retreat = Retreat(st: Option<int>, ed: Option<int>)

  /** `controlArea[id]`: controlling side and each side's relative defence. */
  datatype Control = Control(control: Player, rel0: int, rel1: int)

  /** A move record `[stCId, edCId]`. */
  type MoveRecord = (int, int)

  /** `GameState`. */
  datatype GameState = GameState(
    cells: seq<Option<Unit>>,
    places: seq<Option<Stronghold>>,
    inSupply: PerPlayer<seq<int>>,
    moveRecords: PerPlayer<seq<MoveRecord>>,
    attackRecords: PerPlayer<Option<AttackRecord>>,
    forcedRetreat: PerPlayer<Retreat>,
    controlArea: seq<Control>)
  {
    function ToBoard(): Board { Board(cells, places) }
  }
}
