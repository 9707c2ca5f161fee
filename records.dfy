/**
 * Rows of the store's tables, one datatype per table, with named fields instead of the
 * positional tuples the queries return. Ids are the tables' AUTOINCREMENT keys; timestamps
 * are readings of a counter that grows by one at every write.
 */
module Records {
  import opened Wrappers

  type Id = nat

  datatype Position = Position(x: int, y: int)

  /** The structured `event_data` payload that each timeline logger builds. */
  datatype EventData =
    | NoData
    | TurnStartData(turn: int, initiativeOrder: seq<Id>)
    | TokenMoveData(mapTokenId: Id, from: Position, to: Position)
    | TokenActionData(mapTokenId: Id, actionType: string, actionText: string)
    | TokenPresenceData(mapTokenId: Id, position: Position)
    | CombatData(attacker: string, target: string, damage: Option<int>, hit: bool)
    | NoteData(noteId: Id, location: Option<Position>)
    | LocationData(locationName: string, locationType: string)
    | MapChangeData(oldMap: string, newMap: string, newMapId: Id)

  datatype World = World(id: Id, name: string, description: string, createdAt: nat, lastAccessed: nat)

  datatype MapRow = MapRow(
    id: Id, worldId: Option<Id>, parentMapId: Option<Id>, name: string, imagePath: string,
    gridSize: int, gridEnabled: int, width: int, height: int, gridColor: string,
    mapScale: real, gridStyle: string, gridOpacity: real, mapType: string, createdAt: nat)

  /** A token template (`tokens`). */
  datatype TokenRow = TokenRow(
    id: Id, name: string, imagePath: string, size: int, color: string, kind: string,
    notes: string, initiative: int, maxHp: int, currentHp: int, armorClass: int)

  /** A placement of a template on a map (`map_tokens`). */
  datatype Placement = Placement(
    id: Id, mapId: Id, tokenId: Id, x: int, y: int, rotation: int, active: bool,
    initiative: int, hasMoved: bool, currentTurn: int)

  datatype TokenAction = TokenAction(id: Id, mapTokenId: Id, turn: int, text: string, kind: string, timestamp: nat)

  /** A row of `token_position_history`. */
  datatype Snapshot = Snapshot(
    id: Id, mapTokenId: Id, turn: int, x: int, y: int, hp: Option<int>,
    statusEffects: Option<string>, timestamp: nat)

  datatype TimelineEvent = TimelineEvent(
    id: Id, worldId: Id, mapId: Option<Id>, turn: int, eventType: string, title: string,
    description: string, data: EventData, timestamp: nat)

  datatype GameState = GameState(
    worldId: Id, currentTurn: int, currentMapId: Option<Id>, activeTokenId: Option<Id>,
    stateData: Option<string>, lastUpdated: nat)

  /** A value stored in a dynamically typed SQLite column. */
  datatype SqlValue = SqlNull | SqlInt(i: int) | SqlText(s: string)

  /** A row of `location_icons`; its editable columns are held by name. */
  datatype LocationIcon = LocationIcon(id: Id, mapId: Id, columns: map<string, SqlValue>)

  /** A placement joined with its template: the columns of the live listing. */
  datatype LiveRow = LiveRow(
    id: Id, tokenId: Id, name: string, imagePath: string, size: int, color: string, kind: string,
    x: int, y: int, rotation: int, active: bool, initiative: int, hasMoved: bool,
    currentHp: int, maxHp: int)

  /** A placement joined with its template and its as-of snapshot: NULL columns where there is none. */
  datatype HistoricRow = HistoricRow(
    id: Id, tokenId: Id, name: string, x: Option<int>, y: Option<int>, hp: Option<int>,
    statusEffects: Option<string>, imagePath: string, size: int, color: string, kind: string)
}
