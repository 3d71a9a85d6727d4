/**
 * The built-in world: the two map descriptions and the tile-type table that
 * the file check writes out when they are missing (as map1.json, map2.json
 * and items.json), with the consistency properties that make them playable.
 */
module WorldData {
  import opened Wrappers

  datatype Color = Rgb(r: int, g: int, b: int)

  /** A door tile at (x, y) leading to tile (targetX, targetY) of map `targetMap`. */
  datatype Portal = Portal(x: int, y: int, targetMap: string, targetX: int, targetY: int)

  /** An object placed on tile (x, y); `id` is its tile-type code. */
  datatype PlacedObject = PlacedObject(id: int, x: int, y: int, message: string)

  datatype EdgeTransition = EdgeTransition(targetMap: string, playerX: int, playerY: int)

  datatype MapDescription = MapDescription(
    name: string,
    width: int,
    height: int,
    tileSize: int,
    backgroundColor: Color,
    wallColor: Color,
    data: seq<seq<int>>,
    portals: seq<Portal>,
    objects: seq<PlacedObject>,
    enemies: seq<PlacedObject>,
    edgeTransitions: map<string, Option<EdgeTransition>>,
    soundtrack: string)

  datatype TileDetails = TileDetails(interactive: bool, interactionSound: string)

  datatype TileType = TileType(name: string, kind: string, collision: bool, image: string, details: Option<TileDetails>)

  /** Tile codes used by the two grids, and the code of a sign object. */
  const Floor: int := 0
  const WallCode: int := 1
  const Door: int := 2
  const Sign: int := 12

  /** `[v] * n`. */
  function Repeat<T>(v: T, n: nat): (r: seq<T>)
    ensures |r| == n
    ensures forall i :: 0 <= i < n ==> r[i] == v
  {
    if n == 0 then [] else Repeat(v, n - 1) + [v]
  }

  /** `[1] * 25`. */
  function SolidRow(): seq<int>
  {
    Repeat(WallCode, 25)
  }

  /** `[1] + [0] * 23 + [1]`. */
  function WalledRow(): seq<int>
  {
    [WallCode] + Repeat(Floor, 23) + [WallCode]
  }

  /** `[1] + [0] * 11 + [2] + [0] * 11 + [1]`: the door in the middle column. */
  function DoorRow(): seq<int>
  {
    [WallCode] + Repeat(Floor, 11) + [Door] + Repeat(Floor, 11) + [WallCode]
  }

  /** No edge of a built-in map leads anywhere. */
  function NoEdgeTransitions(): map<string, Option<EdgeTransition>>
  {
    map["north" := None, "south" := None, "east" := None, "west" := None]
  }

  /** The starting forest, with its door in the middle of row 9. */
  function DefaultMap(): MapDescription
  {
    MapDescription(
      "Floresta Inicial", 25, 19, 32, Rgb(50, 150, 50), Rgb(100, 100, 100),
      [SolidRow()] + Repeat(WalledRow(), 8) + [DoorRow()] + Repeat(WalledRow(), 8) + [SolidRow()],
      [Portal(12, 9, "map2", 12, 17)],
      [PlacedObject(Sign, 10, 9, "Use a tecla E para interagir com a porta")],
      [],
      NoEdgeTransitions(),
      "music/forest.mp3")
  }

  /** The cave the forest door leads to, with its door in row 17. */
  function Map2(): MapDescription
  {
    MapDescription(
      "Caverna", 25, 19, 32, Rgb(80, 80, 80), Rgb(60, 60, 60),
      [SolidRow()] + Repeat(WalledRow(), 16) + [DoorRow()] + [SolidRow()],
      [Portal(12, 17, "map1", 12, 9)],
      [PlacedObject(Sign, 14, 17, "Use a tecla E para voltar à Floresta")],
      [],
      NoEdgeTransitions(),
      "music/cave.mp3")
  }

  /** The two maps under the ids their files are written as. */
  function World(): map<string, MapDescription>
  {
    map["map1" := DefaultMap(), "map2" := Map2()]
  }

  /** The tile-type table, keyed by the decimal text of the code. */
  function DefaultItems(): map<string, TileType>
  {
    map[
      "0" := TileType("Vazio", "terreno", false, "tiles/empty.png", None),
      "1" := TileType("Parede", "terreno", true, "tiles/wall.png", None),
      "2" := TileType("Porta", "objeto", false, "objects/door.png",
                      Some(TileDetails(true, "effects/door.wav"))),
      "12" := TileType("Placa", "objeto", false, "objects/sign.png",
                       Some(TileDetails(true, "effects/sign.wav")))
    ]
  }

  /** The decimal text of a code, as JSON object keys spell it. */
  function CodeKey(n: nat): string
  {
    if n < 10 then [Digit(n)] else CodeKey(n / 10) + [Digit(n % 10)]
  }

  function Digit(d: nat): char
    requires d < 10
  {
    "0123456789"[d]
  }

  // What a consistent map description is.

  /** The grid has `height` rows of `width` codes each. */
  predicate HasDeclaredShape(m: MapDescription)
  {
    |m.data| == m.height && forall y :: 0 <= y < |m.data| ==> |m.data[y]| == m.width
  }

  /** The first and last rows are all wall, and every row starts and ends with a wall. */
  predicate IsWalledIn(m: MapDescription)
    requires HasDeclaredShape(m) && m.height >= 1 && m.width >= 1
  {
    && (forall x :: 0 <= x < m.width ==> m.data[0][x] == WallCode && m.data[m.height - 1][x] == WallCode)
    && (forall y :: 0 <= y < m.height ==> m.data[y][0] == WallCode && m.data[y][m.width - 1] == WallCode)
  }

  predicate InGrid(m: MapDescription, x: int, y: int)
  {
    0 <= y < |m.data| && 0 <= x < |m.data[y]|
  }

  /** Every portal stands on a door tile. */
  predicate PortalsOnDoors(m: MapDescription)
  {
    forall p :: p in m.portals ==> InGrid(m, p.x, p.y) && m.data[p.y][p.x] == Door
  }

  /** Every sign stands on a floor tile. */
  predicate SignsOnFloor(m: MapDescription)
  {
    forall o :: o in m.objects && o.id == Sign ==> InGrid(m, o.x, o.y) && m.data[o.y][o.x] == Floor
  }

  /** Every portal leads to a portal of its target map that leads straight back. */
  predicate PortalsReciprocal(w: map<string, MapDescription>)
  {
    forall id, p :: id in w && p in w[id].portals ==>
      && p.targetMap in w
      && Portal(p.targetX, p.targetY, id, p.x, p.y) in w[p.targetMap].portals
  }

  /** Every code in the grid and every object id has an entry in the tile-type table. */
  predicate CodesKnown(m: MapDescription, items: map<string, TileType>)
  {
    && (forall y, x :: 0 <= y < |m.data| && 0 <= x < |m.data[y]| ==>
          m.data[y][x] >= 0 && CodeKey(m.data[y][x]) in items)
    && (forall o :: o in m.objects ==> o.id >= 0 && CodeKey(o.id) in items)
  }

  // The built-in world is consistent.

  /** A grid stacked from the three row shapes uses only floor, wall and door codes. */
  lemma RowsOfStack(rows: seq<seq<int>>)
    requires forall y :: 0 <= y < |rows| ==> rows[y] in {SolidRow(), WalledRow(), DoorRow()}
    ensures forall y, x :: 0 <= y < |rows| && 0 <= x < |rows[y]| ==> rows[y][x] in {Floor, WallCode, Door}
  {
  }

  lemma DefaultMapRows()
    ensures forall y :: 0 <= y < |DefaultMap().data| ==>
      DefaultMap().data[y] == if y == 0 || y == 18 then SolidRow() else if y == 9 then DoorRow() else WalledRow()
    ensures |DefaultMap().data| == 19
  {
  }

  lemma Map2Rows()
    ensures forall y :: 0 <= y < |Map2().data| ==>
      Map2().data[y] == if y == 0 || y == 18 then SolidRow() else if y == 17 then DoorRow() else WalledRow()
    ensures |Map2().data| == 19
  {
  }

  /** Both grids have the size their descriptions declare and are walled in on every side. */
  lemma BuiltInMapsWellShaped()
    ensures HasDeclaredShape(DefaultMap()) && DefaultMap().height == 19 && DefaultMap().width == 25
    ensures HasDeclaredShape(Map2()) && Map2().height == 19 && Map2().width == 25
    ensures IsWalledIn(DefaultMap()) && IsWalledIn(Map2())
  {
  }

  /** Each map's portal stands on its door tile and each sign on floor. */
  lemma BuiltInObjectsPlaced()
    ensures PortalsOnDoors(DefaultMap()) && PortalsOnDoors(Map2())
    ensures SignsOnFloor(DefaultMap()) && SignsOnFloor(Map2())
  {
  }

  /** The forest door leads to the cave door and the cave door leads back. */
  lemma BuiltInPortalsReciprocal()
    ensures PortalsReciprocal(World())
  {
  }

  /** Every code the two grids and their objects use is in the tile-type table. */
  lemma BuiltInCodesKnown()
    ensures CodesKnown(DefaultMap(), DefaultItems()) && CodesKnown(Map2(), DefaultItems())
  {
    DefaultMapRows();
    Map2Rows();
    RowsOfStack(DefaultMap().data);
    RowsOfStack(Map2().data);
    assert CodeKey(0) == "0" && CodeKey(1) == "1" && CodeKey(2) == "2" && CodeKey(12) == "12";
  }

  /** Only the wall code blocks movement. */
  lemma OnlyWallCollides()
    ensures forall k :: k in DefaultItems() ==> (DefaultItems()[k].collision <==> k == "1")
  {
  }
}
