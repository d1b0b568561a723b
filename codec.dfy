/** The board text format: a `|`-separated list of fields where a number skips
    that many empty cells and any other field describes one cell, as
    `unit.side/stronghold.side`, `unit.side` or `stronghold[.side]`.
    The text is modelled already split into fields and each field into its parts. */
module Codec {
  import opened Seqs
  import opened Pieces
  import opened Geometry

  /** One `.`-separated part of a cell's text: a symbol and an optional side. */
  datatype Part = Part(sym: Symbol, side: Option<Player>)

  /** A cell's text: its `/`-separated parts. */
  datatype Text = Text(first: Part, rest: seq<Part>) {
    function Last(): Part { if rest == [] then first else rest[|rest| - 1] }
  }

  /** A field between two `|`: empty, a run of empty cells, or one cell. */
  datatype Field = Blank | Run(n: nat) | Occupant(text: Text)

  // ---------------------------------------------------------------- encoding

  /** The text of a unit, `render.side`. */
  function UnitPart(u: Unit): Part {
    Part(u.Data().objRender, Some(u.belong))
  }

  /** The text of a stronghold, `render` with `.side` when it has an owner. */
  function PlacePart(s: Stronghold): Part {
    Part(s.PlaceRender(), s.belong)
  }

  /** `exportGame`'s `mixedBoard` with its encoder: unit and stronghold, unit alone,
      stronghold alone, or nothing. */
  function MixedCell(obj: Option<Unit>, strong: Option<Stronghold>): Option<Text> {
    match (obj, strong)
    case (Some(u), Some(s)) => Some(Text(UnitPart(u), [PlacePart(s)]))
    case (Some(u), None) => Some(Text(UnitPart(u), []))
    case (None, Some(s)) => Some(Text(PlacePart(s), []))
    case (None, None) => None
  }

  function MixedBoard(s: GameState): seq<Option<Text>>
    requires |s.places| >= |s.cells|
  {
    seq(|s.cells|, id requires 0 <= id < |s.cells| => MixedCell(s.cells[id], s.places[id]))
  }

  /** `board2FEN`'s loop after the cells of `board`: the fields pushed so far and
      the count of empty cells not yet written. */
  function Scan(board: seq<Option<Text>>): (seq<Field>, nat) {
    if board == [] then ([], 0)
    else
      var (result, emptyCells) := Scan(board[..|board| - 1]);
      match board[|board| - 1]
      case None => (result, emptyCells + 1)
      case Some(t) => (result + (if emptyCells > 0 then [Run(emptyCells)] else []) + [Occupant(t)], 0)
  }

  /** `'|' + result.join('|') + '|'` split at every `|`: joining no fields gives one empty one. */
  function Framed(result: seq<Field>): seq<Field> {
    [Blank] + (if result == [] then [Blank] else result) + [Blank]
  }

  /** `board2FEN`: trailing empty cells are not written. */
  function Board2Fen(board: seq<Option<Text>>): seq<Field> {
    Framed(Scan(board).0)
  }

  method BoardToFen(board: seq<Option<Text>>) returns (fen: seq<Field>)
    ensures fen == Board2Fen(board)
  {
    var result: seq<Field> := [];
    var emptyCells: nat := 0;
    for id := 0 to |board|
      invariant (result, emptyCells) == Scan(board[..id])
    {
      assert board[..id + 1][..id] == board[..id];
      match board[id]
      case None =>
        emptyCells := emptyCells + 1;
      case Some(t) =>
        ghost var before := result + (if emptyCells > 0 then [Run(emptyCells)] else []);
        if emptyCells > 0 {
          result := result + [Run(emptyCells)];
          emptyCells := 0;
        }
        assert result == before;
        result := result + [Occupant(t)];
    }
    assert board[..|board|] == board;
    fen := Framed(result);
  }

  /** `exportGame`. */
  method ExportGame(s: GameState) returns (fen: seq<Field>)
    requires |s.places| >= |s.cells|
    ensures fen == Board2Fen(MixedBoard(s))
  {
    fen := BoardToFen(MixedBoard(s));
  }

  // ---------------------------------------------------------------- decoding

  /** `decodeObj`: a unit symbol with a side gives a fresh unit of that type. */
  function DecodeObj(p: Part): (r: Option<Unit>)
    ensures r.Some? ==> p.side.Some? && r.value == NewPiece(r.value.typeName, p.side.value)
    ensures r.Some? ==> r.value.Data().objRender == p.sym
  {
    if p.side.None? then None
    else
      match p.sym
      case Guard => Some(NewPiece(Infantry, p.side.value))
      case Horse => Some(NewPiece(Cavalry, p.side.value))
      case Popper => Some(NewPiece(Artillery, p.side.value))
      case Rocket => Some(NewPiece(SwiftArtillery, p.side.value))
      case Flag => Some(NewPiece(Relay, p.side.value))
      case Truck => Some(NewPiece(SwiftRelay, p.side.value))
      case _ => None
  }

  /** `decodeStrong`: a stronghold symbol gives a stronghold, owned when a side is given. */
  function DecodeStrong(p: Part): (r: Option<Stronghold>)
    ensures r.Some? ==> r.value.belong == p.side && r.value.PlaceRender() == p.sym
  {
    match p.sym
    case Tent => Some(NewStronghold(Arsenal, p.side))
    case Castle => Some(NewStronghold(Fortress, p.side))
    case Road => Some(NewStronghold(Pass, p.side))
    case Peak => Some(NewStronghold(Mountain, p.side))
    case _ => None
  }

  /** `loadPieces`' decoder: the first part. */
  function PieceOf(t: Text): Option<Unit> {
    DecodeObj(t.first)
  }

  /** `loadPlaces`' decoder: the last part. */
  function PlaceOf(t: Text): Option<Stronghold> {
    DecodeStrong(t.Last())
  }

  /** `FEN2board`'s loop after `fields`: the board so far and the cursor. A run moves
      the cursor, a blank (`Number('')` is 0) leaves it, a cell is written at the
      cursor and moves it by one. */
  function Load<T>(fields: seq<Field>, decode: Text -> Option<T>): (r: (seq<Option<T>>, nat))
    ensures |r.0| == N
  {
    if fields == [] then (seq(N, _ => None), 0)
    else
      var (board, pointer) := Load(fields[..|fields| - 1], decode);
      match fields[|fields| - 1]
      case Blank => (board, pointer)
      case Run(n) => (board, pointer + n)
      case Occupant(t) => (if pointer < N then board[pointer := decode(t)] else board, pointer + 1)
  }

  function Fen2Board<T>(fields: seq<Field>, decode: Text -> Option<T>): seq<Option<T>> {
    Load(fields, decode).0
  }

  /** The number of cells `fields` covers: a run its length, an occupant one, a blank none. */
  function Span(fields: seq<Field>): nat {
    if fields == [] then 0
    else
      Span(fields[..|fields| - 1]) +
        match fields[|fields| - 1]
        case Blank => 0
        case Run(n) => n
        case Occupant(_) => 1
  }

  /** `FEN2board`'s cursor ends at the span of the fields read, and no cell at or past
      it has been written. */
  lemma {:induction false} LoadCursor<T>(fields: seq<Field>, decode: Text -> Option<T>)
    ensures Load(fields, decode).1 == Span(fields)
    ensures forall i :: Span(fields) <= i < N ==> Load(fields, decode).0[i] == None
  {
    if fields != [] {
      LoadCursor(fields[..|fields| - 1], decode);
    }
  }

  /** `FEN2board`. */
  method FenToBoard<T>(fields: seq<Field>, decode: Text -> Option<T>) returns (result: seq<Option<T>>)
    ensures result == Fen2Board(fields, decode)
  {
    result := seq(N, _ => None);
    var pointer: nat := 0;
    for k := 0 to |fields|
      invariant (result, pointer) == Load(fields[..k], decode)
    {
      assert fields[..k + 1][..k] == fields[..k];
      match fields[k]
      case Blank =>
      case Run(n) =>
        pointer := pointer + n;
      case Occupant(t) =>
        if pointer < N {
          result := result[pointer := decode(t)];
        }
        pointer := pointer + 1;
    }
    assert fields[..|fields|] == fields;
  }

  /** `loadPieces`. */
  method LoadPieces(fields: seq<Field>) returns (cells: seq<Option<Unit>>)
    ensures cells == Fen2Board(fields, PieceOf)
  {
    cells := FenToBoard(fields, PieceOf);
  }

  /** `loadPlaces`. */
  method LoadPlaces(fields: seq<Field>) returns (places: seq<Option<Stronghold>>)
    ensures places == Fen2Board(fields, PlaceOf)
  {
    places := FenToBoard(fields, PlaceOf);
  }

  // ---------------------------------------------------------------- round trip

  function Decoded<T>(x: Option<Text>, decode: Text -> Option<T>): Option<T> {
    if x.None? then None else decode(x.value)
  }

  /** A run of empty cells only moves the cursor. */
  lemma LoadRun<T>(fields: seq<Field>, decode: Text -> Option<T>, n: nat)
    ensures Load(fields + [Run(n)], decode) == (Load(fields, decode).0, Load(fields, decode).1 + n)
  {
    assert (fields + [Run(n)])[..|fields|] == fields;
  }

  /** A cell's text is written at the cursor, which moves by one. */
  lemma LoadOccupant<T>(fields: seq<Field>, decode: Text -> Option<T>, t: Text)
    requires Load(fields, decode).1 < N
    ensures Load(fields + [Occupant(t)], decode)
         == (Load(fields, decode).0[Load(fields, decode).1 := decode(t)], Load(fields, decode).1 + 1)
  {
    assert (fields + [Occupant(t)])[..|fields|] == fields;
  }

  /** The decoded `out` and cursor `pointer` agree with `board`: the cursor plus the
      pending empty cells cover the board, every cell before the cursor holds the
      decoding of its text, and everything from the cursor on is empty. */
  ghost predicate Agrees<T>(board: seq<Option<Text>>, decode: Text -> Option<T>, emptyCells: nat,
                            out: seq<Option<T>>, pointer: nat)
  {
    |out| == N && |board| <= N && pointer + emptyCells == |board|
    && (forall i :: 0 <= i < pointer ==> out[i] == Decoded(board[i], decode))
    && (forall i :: pointer <= i < N ==> out[i] == None)
    && (forall i :: pointer <= i < |board| ==> board[i] == None)
  }

  lemma AgreesEmpty<T>(board: seq<Option<Text>>, decode: Text -> Option<T>, emptyCells: nat,
                       out: seq<Option<T>>, pointer: nat)
    requires |board| <= N && board != [] && board[|board| - 1].None?
    requires Agrees(board[..|board| - 1], decode, emptyCells, out, pointer)
    ensures Agrees(board, decode, emptyCells + 1, out, pointer)
  {
  }

  lemma AgreesCell<T>(board: seq<Option<Text>>, decode: Text -> Option<T>, emptyCells: nat,
                      out: seq<Option<T>>, pointer: nat)
    requires |board| <= N && board != [] && board[|board| - 1].Some?
    requires Agrees(board[..|board| - 1], decode, emptyCells, out, pointer)
    ensures Agrees(board, decode, 0, out[|board| - 1 := decode(board[|board| - 1].value)], |board|)
  {
  }

  /** Decoding what the scan of `board` has written agrees with `board`. */
  lemma {:induction false} ScanLoad<T>(board: seq<Option<Text>>, decode: Text -> Option<T>)
    requires |board| <= N
    ensures Agrees(board, decode, Scan(board).1, Load(Scan(board).0, decode).0, Load(Scan(board).0, decode).1)
  {
    if board != [] {
      var front := board[..|board| - 1];
      ScanLoad(front, decode);
      var (result, emptyCells) := Scan(front);
      var (out, pointer) := Load(result, decode);
      match board[|board| - 1]
      case None =>
        assert Scan(board) == (result, emptyCells + 1);
        AgreesEmpty(board, decode, emptyCells, out, pointer);
      case Some(t) =>
        var r1 := result + (if emptyCells > 0 then [Run(emptyCells)] else []);
        assert Scan(board) == (r1 + [Occupant(t)], 0);
        assert Load(r1, decode) == (out, |front|) by {
          if emptyCells > 0 {
            LoadRun(result, decode, emptyCells);
          } else {
            assert r1 == result;
          }
        }
        LoadOccupant(r1, decode, t);
        AgreesCell(board, decode, emptyCells, out, pointer);
    }
  }

  /** Blank fields move nothing. */
  lemma {:induction false} LoadBlankFront<T>(fields: seq<Field>, decode: Text -> Option<T>)
    ensures Load([Blank] + fields, decode) == Load(fields, decode)
  {
    if fields != [] {
      LoadBlankFront(fields[..|fields| - 1], decode);
      assert ([Blank] + fields)[..|fields|] == [Blank] + fields[..|fields| - 1];
    } else {
      assert Load([Blank], decode).0 == seq(N, _ => None);
    }
  }

  /** `FEN2board(board2FEN(board))` gives back every cell's decoded text, for a board of
      `N` cells: the trailing empty cells that were not written stay empty. */
  lemma RoundTrip<T>(board: seq<Option<Text>>, decode: Text -> Option<T>)
    requires |board| == N
    ensures Fen2Board(Board2Fen(board), decode) == seq(N, i requires 0 <= i < N => Decoded(board[i], decode))
  {
    var result := Scan(board).0;
    ScanLoad(board, decode);
    assert Agrees(board, decode, Scan(board).1, Load(result, decode).0, Load(result, decode).1);
    var mid := if result == [] then [Blank] else result;
    LoadBlankFront(mid, decode);
    assert Board2Fen(board) == ([Blank] + mid) + [Blank];
    assert ([Blank] + mid + [Blank])[..|mid| + 1] == [Blank] + mid;
    if result == [] {
      LoadBlankFront([], decode);
    }
  }

  /** `loadPieces(exportGame(G))`: every unit comes back as a fresh unit of the same
      type and side (supplied, not retreating); every other cell comes back empty. */
  lemma PiecesRoundTrip(s: GameState)
    requires |s.cells| == N && |s.places| == N
    ensures Fen2Board(Board2Fen(MixedBoard(s)), PieceOf)
         == seq(N, i requires 0 <= i < N =>
                  if s.cells[i].Some? then Some(NewPiece(s.cells[i].value.typeName, s.cells[i].value.belong)) else None)
  {
    RoundTrip(MixedBoard(s), PieceOf);
  }

  /** `loadPlaces(exportGame(G))`: the strongholds come back exactly, owners included. */
  lemma PlacesRoundTrip(s: GameState)
    requires |s.cells| == N && |s.places| == N
    ensures Fen2Board(Board2Fen(MixedBoard(s)), PlaceOf) == s.places
  {
    RoundTrip(MixedBoard(s), PlaceOf);
    forall i | 0 <= i < N ensures Decoded(MixedBoard(s)[i], PlaceOf) == s.places[i] {
      if s.places[i].Some? {
        var st := s.places[i].value;
        assert DecodeStrong(PlacePart(st)) == Some(st) by {
          match st.placeType
          case Arsenal =>
          case Fortress =>
          case Pass =>
          case Mountain =>
        }
      }
    }
  }
}
