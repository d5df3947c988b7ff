/** The tile map: three layers (floor, ceiling, wall) over fixed 30 x 40
    storage, of which the top-left `width` x `height` cells are in use.
    Every query is bounds-checked against the size in use; outside it the
    map counts as wall and every texture id is 0. */
module Grid {
  import opened Wrappers

  const MaxWidth := 40
  const MaxHeight := 30
  const DefaultWidth := 20
  const DefaultHeight := 15

  const LayerFloor := 0
  const LayerCeiling := 1
  const LayerWall := 2
  const NumLayers := 3

  const TileEmpty := 0
  const TileSolid := 1

  /** A tile's type (only `TileSolid` blocks) and its texture id; a loaded
      file may store any integer in either. */
  datatype Tile = Tile(kind: int, textureId: int)

  const EmptyTile := Tile(TileEmpty, 0)

  /** The three tiles stacked on one cell. */
  datatype Cell = Cell(floor: Tile, ceiling: Tile, wall: Tile)

  const EmptyCell := Cell(EmptyTile, EmptyTile, EmptyTile)

  /** The six integers a map file gives for one cell, when they parse. */
  datatype CellFields = CellFields(floorType: int, floorTex: int, ceilingType: int, ceilingTex: int,
                                   wallType: int, wallTex: int)

  /** The size rule of a `SIZE w h` header: it is taken only when both
      dimensions are positive and fit the storage. */
  predicate SizeAccepted(w: int, h: int)
  {
    0 < w <= MaxWidth && 0 < h <= MaxHeight
  }

  /** The tiles a cell receives while loading: the parsed fields, or an
      empty tile with texture 0 in all three layers when they fail to parse. */
  function CellOf(parsed: Option<CellFields>): (c: Cell)
    ensures parsed.None? ==> c == EmptyCell
    ensures parsed.Some? ==> var p := parsed.value;
              && c.floor == Tile(p.floorType, p.floorTex)
              && c.ceiling == Tile(p.ceilingType, p.ceilingTex)
              && c.wall == Tile(p.wallType, p.wallTex)
  {
    match parsed
    case None => EmptyCell
    case Some(p) => Cell(Tile(p.floorType, p.floorTex), Tile(p.ceilingType, p.ceilingTex), Tile(p.wallType, p.wallTex))
  }

  /** The parse outcome of the k-th cell of a file whose cells parse as
      `cells`; reading past the end of the file fails like a bad cell. */
  function CellAt(cells: seq<Option<CellFields>>, k: int): Option<CellFields>
  {
    if 0 <= k < |cells| then cells[k] else None
  }

  /** (x, y) lies inside a map whose size in use is width x height. */
  predicate InBounds(width: int, height: int, x: int, y: int)
  {
    0 <= x < width && 0 <= y < height
  }

  /** The contents of a map as a value: the size in use and the three
      tiles at every position. The queries below are the map's queries
      asked of this value. */
  datatype MapView = MapView(width: int, height: int, cell: (int, int) -> Cell) {
    ghost predicate Valid()
    {
      0 < width <= MaxWidth && 0 < height <= MaxHeight
    }

    function CellIn(x: int, y: int): Cell
    {
      cell(x, y)
    }

    /** A wall outside the size in use, else a solid wall tile. */
    predicate IsWall(x: int, y: int)
      requires Valid()
    {
      !InBounds(width, height, x, y) || CellIn(x, y).wall.kind == TileSolid
    }

    function WallTexture(x: int, y: int): int
      requires Valid()
    {
      if InBounds(width, height, x, y) then CellIn(x, y).wall.textureId else 0
    }

    function FloorTexture(x: int, y: int): int
      requires Valid()
    {
      if InBounds(width, height, x, y) then CellIn(x, y).floor.textureId else 0
    }

    function CeilingTexture(x: int, y: int): int
      requires Valid()
    {
      if InBounds(width, height, x, y) then CellIn(x, y).ceiling.textureId else 0
    }
  }

  class Map {
    const layers: array3<Tile>
    var width: int
    var height: int
    var playerStartX: real
    var playerStartY: real

    /** The storage has its fixed shape: three layers of 30 rows of 40. */
    predicate Storage()
    {
      layers.Length0 == NumLayers && layers.Length1 == MaxHeight && layers.Length2 == MaxWidth
    }

    /** The size in use fits inside the storage. */
    ghost predicate Valid()
      reads this
    {
      Storage() && 0 < width <= MaxWidth && 0 < height <= MaxHeight
    }

    /** The three tiles stored at a storage position. */
    function CellAtPos(x: int, y: int): Cell
      reads layers
      requires Storage() && 0 <= x < MaxWidth && 0 <= y < MaxHeight
    {
      Cell(layers[LayerFloor, y, x], layers[LayerCeiling, y, x], layers[LayerWall, y, x])
    }

    /** `map_is_wall`: every cell outside the size in use is a wall; inside,
        a cell is a wall exactly when its wall tile is solid. */
    function IsWall(x: int, y: int): (w: bool)
      reads this, layers
      requires Valid()
      ensures !InBounds(width, height, x, y) ==> w
      ensures InBounds(width, height, x, y) ==> (w <==> CellAtPos(x, y).wall.kind == TileSolid)
    {
      if x < 0 || x >= width || y < 0 || y >= height then true
      else layers[LayerWall, y, x].kind == TileSolid
    }

    /** `map_get_wall_texture`: 0 outside the map, else the wall tile's id. */
    function WallTexture(x: int, y: int): (t: int)
      reads this, layers
      requires Valid()
      ensures !InBounds(width, height, x, y) ==> t == 0
      ensures InBounds(width, height, x, y) ==> t == CellAtPos(x, y).wall.textureId
    {
      if x < 0 || x >= width || y < 0 || y >= height then 0
      else layers[LayerWall, y, x].textureId
    }

    /** `map_get_floor_texture`: 0 outside the map, else the floor tile's id. */
    function FloorTexture(x: int, y: int): (t: int)
      reads this, layers
      requires Valid()
      ensures !InBounds(width, height, x, y) ==> t == 0
      ensures InBounds(width, height, x, y) ==> t == CellAtPos(x, y).floor.textureId
    {
      if x < 0 || x >= width || y < 0 || y >= height then 0
      else layers[LayerFloor, y, x].textureId
    }

    /** `map_get_ceiling_texture`: 0 outside the map, else the ceiling tile's id. */
    function CeilingTexture(x: int, y: int): (t: int)
      reads this, layers
      requires Valid()
      ensures !InBounds(width, height, x, y) ==> t == 0
      ensures InBounds(width, height, x, y) ==> t == CellAtPos(x, y).ceiling.textureId
    {
      if x < 0 || x >= width || y < 0 || y >= height then 0
      else layers[LayerCeiling, y, x].textureId
    }

    /** Every storage position holds the empty cell. */
    ghost predicate AllEmpty()
      reads layers
      requires Storage()
    {
      forall x, y :: 0 <= x < MaxWidth && 0 <= y < MaxHeight ==> CellAtPos(x, y) == EmptyCell
    }

    /** A map whose storage is cleared has walls exactly outside its bounds
        and texture id 0 everywhere. */
    lemma EmptyMapQueries(x: int, y: int)
      requires Valid() && AllEmpty()
      ensures IsWall(x, y) <==> !InBounds(width, height, x, y)
      ensures WallTexture(x, y) == 0 && FloorTexture(x, y) == 0 && CeilingTexture(x, y) == 0
    {
      if InBounds(width, height, x, y) {
        assert CellAtPos(x, y) == EmptyCell;
      }
    }

    /** The map's contents as a value; positions outside the storage
        read as empty cells. */
    ghost function View(): (v: MapView)
      reads this, layers
      requires Valid()
      ensures v.Valid() && v.width == width && v.height == height
    {
      var cells := seq(MaxHeight, y requires 0 <= y < MaxHeight && Storage() reads layers =>
                         seq(MaxWidth, x requires 0 <= x < MaxWidth && Storage() reads layers => CellAtPos(x, y)));
      MapView(width, height, (x, y) => if 0 <= x < MaxWidth && 0 <= y < MaxHeight then cells[y][x] else EmptyCell)
    }

    /** The wall query of the map is the wall query of its view. */
    lemma ViewWall(v: MapView, x: int, y: int)
      requires Valid() && v == View()
      ensures IsWall(x, y) == v.IsWall(x, y)
    {
      if InBounds(width, height, x, y) {
        assert v.CellIn(x, y) == CellAtPos(x, y);
      }
    }

    /** The texture queries of the map are those of its view. */
    lemma ViewTextures(v: MapView, x: int, y: int)
      requires Valid() && v == View()
      ensures WallTexture(x, y) == v.WallTexture(x, y)
      ensures FloorTexture(x, y) == v.FloorTexture(x, y)
      ensures CeilingTexture(x, y) == v.CeilingTexture(x, y)
    {
      if InBounds(width, height, x, y) {
        assert v.CellIn(x, y) == CellAtPos(x, y);
      }
    }

    /** A cell that failed to parse is open floor with texture id 0 in
        every layer. */
    lemma BadCellQueries(x: int, y: int)
      requires Valid() && InBounds(width, height, x, y) && CellAtPos(x, y) == CellOf(None)
      ensures !IsWall(x, y)
      ensures WallTexture(x, y) == 0 && FloorTexture(x, y) == 0 && CeilingTexture(x, y) == 0
    {
    }

    /** A map in the state `map_init` leaves. */
    constructor ()
      ensures Valid() && fresh(layers)
      ensures width == DefaultWidth && height == DefaultHeight
      ensures playerStartX == 10.0 && playerStartY == 7.5
      ensures AllEmpty()
    {
      layers := new Tile[NumLayers, MaxHeight, MaxWidth];
      new;
      Init();
    }

    /** `map_init`: the default size 20 x 15, the player start at its
        centre, and every tile of all three layers over the whole storage
        empty with texture id 0. */
    method Init()
      requires Storage()
      modifies this, layers
      ensures Valid()
      ensures width == DefaultWidth && height == DefaultHeight
      ensures playerStartX == DefaultWidth as real / 2.0 && playerStartY == DefaultHeight as real / 2.0
      ensures AllEmpty()
    {
      width := DefaultWidth;
      height := DefaultHeight;
      playerStartX := DefaultWidth as real / 2.0;
      playerStartY := DefaultHeight as real / 2.0;
      for layer := 0 to NumLayers
        modifies layers
        invariant forall l, y, x :: 0 <= l < layer && 0 <= y < MaxHeight && 0 <= x < MaxWidth ==>
                    layers[l, y, x] == EmptyTile
      {
        for y := 0 to MaxHeight
          modifies layers
          invariant forall l, y', x :: 0 <= l < layer && 0 <= y' < MaxHeight && 0 <= x < MaxWidth ==>
                      layers[l, y', x] == EmptyTile
          invariant forall y', x :: 0 <= y' < y && 0 <= x < MaxWidth ==> layers[layer, y', x] == EmptyTile
        {
          for x := 0 to MaxWidth
            modifies layers
            invariant forall l, y', x' :: 0 <= l < layer && 0 <= y' < MaxHeight && 0 <= x' < MaxWidth ==>
                        layers[l, y', x'] == EmptyTile
            invariant forall y', x' :: 0 <= y' < y && 0 <= x' < MaxWidth ==> layers[layer, y', x'] == EmptyTile
            invariant forall x' :: 0 <= x' < x ==> layers[layer, y, x'] == EmptyTile
          {
            layers[layer, y, x] := EmptyTile;
          }
        }
      }
    }

    /** The size step of `map_load`: an accepted `SIZE w h` header replaces
        the size; any other keeps the current one. */
    method ApplySize(w: int, h: int)
      requires Valid()
      modifies this`width, this`height
      ensures Valid()
      ensures SizeAccepted(w, h) ==> width == w && height == h
      ensures !SizeAccepted(w, h) ==> width == old(width) && height == old(height)
    {
      if w > 0 && w <= MaxWidth && h > 0 && h <= MaxHeight {
        width := w;
        height := h;
      }
    }

    /** One cell of the load loop: the parsed fields go into the three
        layers, or the empty tile when they fail to parse. */
    method StoreCell(x: int, y: int, parsed: Option<CellFields>)
      requires Valid() && InBounds(width, height, x, y)
      modifies layers
      ensures CellAtPos(x, y) == CellOf(parsed)
      ensures forall x', y' :: 0 <= x' < MaxWidth && 0 <= y' < MaxHeight && (x', y') != (x, y) ==>
                CellAtPos(x', y') == old(CellAtPos(x', y'))
    {
      var c := CellOf(parsed);
      layers[LayerFloor, y, x] := c.floor;
      layers[LayerCeiling, y, x] := c.ceiling;
      layers[LayerWall, y, x] := c.wall;
    }

    /** The cell loop of `map_load`: row by row, every cell in use takes
        the k-th parse outcome of the file, k = y * width + x; storage
        outside the size in use is not touched. */
    method LoadCells(cells: seq<Option<CellFields>>)
      requires Valid()
      modifies layers
      ensures forall x, y :: 0 <= x < width && 0 <= y < height ==>
                CellAtPos(x, y) == CellOf(CellAt(cells, y * width + x))
      ensures forall x, y :: 0 <= x < MaxWidth && 0 <= y < MaxHeight && !InBounds(width, height, x, y) ==>
                CellAtPos(x, y) == old(CellAtPos(x, y))
    {
      for y := 0 to height
        invariant forall x', y' :: 0 <= x' < width && 0 <= y' < y ==>
                    CellAtPos(x', y') == CellOf(CellAt(cells, y' * width + x'))
        invariant forall x', y' :: 0 <= x' < MaxWidth && 0 <= y' < MaxHeight && !(y' < y && x' < width) ==>
                    CellAtPos(x', y') == old(CellAtPos(x', y'))
      {
        for x := 0 to width
          invariant forall x', y' :: 0 <= x' < width && 0 <= y' < y ==>
                      CellAtPos(x', y') == CellOf(CellAt(cells, y' * width + x'))
          invariant forall x' :: 0 <= x' < x ==> CellAtPos(x', y) == CellOf(CellAt(cells, y * width + x'))
          invariant forall x', y' ::
                      0 <= x' < MaxWidth && 0 <= y' < MaxHeight && !(y' < y && x' < width) && !(y' == y && x' < x) ==>
                      CellAtPos(x', y') == old(CellAtPos(x', y'))
        {
          StoreCell(x, y, CellAt(cells, y * width + x));
        }
      }
    }

    /** `map_load` with the file read abstracted: `fileOpened` says whether the
        file opened, `size` is the `SIZE w h` header when one parses,
        `start` the `PLAYER_START` line when one parses, and `cells` the
        parse outcome of each cell in file order. A file that does not open
        leaves the map untouched; otherwise the map is reset, then takes
        the accepted size, the start and every cell in use. */
    method Load(fileOpened: bool, size: Option<(int, int)>, start: Option<(real, real)>,
                cells: seq<Option<CellFields>>) returns (ok: bool)
      requires Storage()
      modifies this, layers
      ensures ok == fileOpened
      ensures !fileOpened ==> unchanged(this, layers)
      ensures fileOpened ==> Valid()
      ensures fileOpened ==>
                (if size.Some? && SizeAccepted(size.value.0, size.value.1)
                 then width == size.value.0 && height == size.value.1
                 else width == DefaultWidth && height == DefaultHeight)
      ensures fileOpened ==>
                (if start.Some? then playerStartX == start.value.0 && playerStartY == start.value.1
                 else playerStartX == 10.0 && playerStartY == 7.5)
      ensures fileOpened ==> forall x, y :: 0 <= x < width && 0 <= y < height ==>
                           CellAtPos(x, y) == CellOf(CellAt(cells, y * width + x))
      ensures fileOpened ==> forall x, y :: 0 <= x < MaxWidth && 0 <= y < MaxHeight && !InBounds(width, height, x, y) ==>
                           CellAtPos(x, y) == EmptyCell
    {
      if !fileOpened {
        return false;
      }
      Init();
      if size.Some? {
        ApplySize(size.value.0, size.value.1);
      }
      if start.Some? {
        playerStartX := start.value.0;
        playerStartY := start.value.1;
      }
      assert AllEmpty();
      LoadCells(cells);
      return true;
    }
  }
}
