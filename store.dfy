/**
 * The `Database` class: every table is a field, every write a method that reassigns the fields it
 * names in `modifies`, every read a function of the fields. Ids come from one AUTOINCREMENT
 * counter per table, and `clock` stands for CURRENT_TIMESTAMP / datetime('now'), advancing at
 * every write.
 */
module Store {
  import opened Wrappers
  import opened Records
  import opened Events
  import opened History
  import opened Placements
  import opened Worlds
  import opened Sorting

  /** `get_map_tokens_with_history` returns live rows without a turn and historical rows with one. */
  datatype TokenListing = LiveRows(live: seq<LiveRow>) | HistoricRows(historic: seq<HistoricRow>)

  class Database {
    var worlds: seq<World>
    var maps: seq<MapRow>
    var icons: seq<LocationIcon>
    var events: seq<TimelineEvent>
    var tokens: seq<TokenRow>
    var placements: seq<Placement>
    var actions: seq<TokenAction>
    var history: seq<Snapshot>
    /** game_state, one row per world. */
    var states: map<Id, GameState>

    var nextWorldId: nat
    var nextMapId: nat
    var nextIconId: nat
    var nextEventId: nat
    var nextTokenId: nat
    var nextPlacementId: nat
    var nextActionId: nat
    var nextSnapshotId: nat
    var clock: nat

    /**
     * What the queries rely on: snapshots have unique (placement, turn) keys, and each game state
     * row sits under its own world id.
     */
    ghost predicate Valid()
      reads this`history, this`states
    {
      && UniqueKeys(history)
      && (forall w :: w in states ==> states[w].worldId == w)
    }

    /**
     * The tables' own constraints: ids are positive, ascending in table order and below their
     * counter (AUTOINCREMENT), and world names are unique (`name TEXT NOT NULL UNIQUE`). Every
     * write keeps the constraint of each table it writes, and its `modifies` frame keeps the
     * others; they are kept apart from `Valid` because no query needs them.
     */
    ghost predicate Tables()
      reads this`worlds, this`nextWorldId, this`maps, this`nextMapId, this`icons, this`nextIconId
      reads this`events, this`nextEventId, this`tokens, this`nextTokenId
      reads this`placements, this`nextPlacementId, this`actions, this`nextActionId
    {
      && WorldsKept() && MapsKept() && IconsKept() && EventsKept()
      && TokensKept() && PlacementsKept() && ActionsKept()
    }

    ghost predicate WorldsKept()
      reads this`worlds, this`nextWorldId
    {
      WorldTable(worlds, nextWorldId)
    }

    ghost predicate MapsKept()
      reads this`maps, this`nextMapId
    {
      Keyed(maps, MapKey, nextMapId)
    }

    ghost predicate IconsKept()
      reads this`icons, this`nextIconId
    {
      Keyed(icons, IconKey, nextIconId)
    }

    ghost predicate EventsKept()
      reads this`events, this`nextEventId
    {
      Keyed(events, EventId, nextEventId)
    }

    ghost predicate TokensKept()
      reads this`tokens, this`nextTokenId
    {
      Keyed(tokens, TokenKey, nextTokenId)
    }

    ghost predicate PlacementsKept()
      reads this`placements, this`nextPlacementId
    {
      Keyed(placements, PlacementKey, nextPlacementId)
    }

    ghost predicate ActionsKept()
      reads this`actions, this`nextActionId
    {
      Keyed(actions, ActionId, nextActionId)
    }

    constructor ()
      ensures worlds == [] && maps == [] && icons == [] && events == [] && tokens == []
      ensures placements == [] && actions == [] && history == [] && states == map[]
      ensures Valid() && Tables()
    {
      worlds, maps, icons, events, tokens := [], [], [], [], [];
      placements, actions, history, states := [], [], [], map[];
      nextWorldId, nextMapId, nextIconId, nextEventId, nextTokenId := 1, 1, 1, 1, 1;
      nextPlacementId, nextActionId, nextSnapshotId, clock := 1, 1, 1, 0;
    }

    // ---- timeline events -------------------------------------------------------------------

    /** `add_timeline_event`: appends the event and returns its new id. */
    method AddTimelineEvent(worldId: Id, turn: int, eventType: string, title: string,
                            description: string, data: EventData, mapId: Option<Id>) returns (id: Id)
      requires Valid()
      modifies this`events, this`nextEventId, this`clock
      ensures Valid() && (old(EventsKept()) ==> EventsKept())
      ensures id == old(nextEventId) && nextEventId == id + 1 && clock == old(clock) + 1
      ensures events == old(events) + [TimelineEvent(id, worldId, mapId, turn, eventType, title, description, data, old(clock))]
    {
      id := nextEventId;
      var e := TimelineEvent(id, worldId, mapId, turn, eventType, title, description, data, clock);
      if EventsKept() { KeyedAppend(events, EventId, nextEventId, e); }
      events := events + [e];
      nextEventId := nextEventId + 1;
      clock := clock + 1;
    }

    /**
     * `get_timeline_events`: the world's events in the turn range, ordered by turn and then
     * timestamp; with a positive limit, the first `limit` of them.
     */
    function GetTimelineEvents(worldId: Id, start: Option<int>, end: Option<int>, limit: Option<int>): (r: seq<TimelineEvent>)
      reads this
      ensures forall i, j :: 0 <= i < j < |r| ==>
        r[i].turn < r[j].turn || (r[i].turn == r[j].turn && r[i].timestamp <= r[j].timestamp)
      ensures limit.Some? && limit.value > 0 ==> |r| <= limit.value
      ensures forall e :: e in r ==> e in events && InRange(e, worldId, start, end)
      ensures limit.None? || limit.value <= 0 || |r| < limit.value ==>
        forall e {:trigger multiset(r)[e]} :: InRange(e, worldId, start, end) ==> multiset(r)[e] == multiset(events)[e]
    {
      QueryOrdered(events, worldId, start, end, limit);
      QueryLimit(events, worldId, start, end, limit);
      QueryContents(events, worldId, start, end, None);
      Query(events, worldId, start, end, limit)
    }

    /** A limited listing is the first rows of the unlimited one. */
    lemma TimelineEventsPrefix(worldId: Id, start: Option<int>, end: Option<int>, limit: Option<int>)
      ensures var full := GetTimelineEvents(worldId, start, end, None);
        var r := GetTimelineEvents(worldId, start, end, limit);
        |r| <= |full| && r == full[..|r|]
    {
      QueryLimit(events, worldId, start, end, limit);
    }

    /** `get_max_turn_number`: the world's highest turn number, 0 when it has no events. */
    function GetMaxTurnNumber(worldId: Id): (r: int)
      reads this
      ensures forall e :: e in events && e.worldId == worldId ==> e.turn <= r
      ensures (exists e :: e in events && e.worldId == worldId && e.turn == r)
           || (r == 0 && forall e :: e in events ==> e.worldId != worldId)
    {
      MaxTurn(events, worldId)
    }

    // ---- token actions and position history ------------------------------------------------

    /** `add_token_action`. */
    method AddTokenAction(mapTokenId: Id, turn: int, text: string, kind: string) returns (id: Id)
      requires Valid()
      modifies this`actions, this`nextActionId, this`clock
      ensures Valid() && (old(ActionsKept()) ==> ActionsKept())
      ensures id == old(nextActionId) && nextActionId == id + 1 && clock == old(clock) + 1
      ensures actions == old(actions) + [TokenAction(id, mapTokenId, turn, text, kind, old(clock))]
    {
      id := nextActionId;
      var a := TokenAction(id, mapTokenId, turn, text, kind, clock);
      if ActionsKept() { KeyedAppend(actions, ActionId, nextActionId, a); }
      actions := actions + [a];
      nextActionId := nextActionId + 1;
      clock := clock + 1;
    }

    /** `get_token_actions`: the placement's actions, of one turn when given, in turn and time order. */
    function GetTokenActions(mapTokenId: Id, turn: Option<int>): (r: seq<TokenAction>)
      reads this
      ensures forall a :: a in r <==> a in actions && ActionSelected(a, mapTokenId, turn)
      ensures forall i, j :: 0 <= i < j < |r| ==>
        r[i].turn < r[j].turn || (r[i].turn == r[j].turn && r[i].timestamp <= r[j].timestamp)
    {
      ActionsOfMembers(actions, mapTokenId, turn);
      ActionsOfOrdered(actions, mapTokenId, turn);
      ActionsOf(actions, mapTokenId, turn)
    }

    /** `save_token_position`, as an upsert by (placement, turn); it reports success. */
    method SaveTokenPosition(mapTokenId: Id, turn: int, x: int, y: int, hp: Option<int>, statusEffects: Option<string>)
      returns (ok: bool)
      requires Valid()
      modifies this`history, this`nextSnapshotId, this`clock
      ensures Valid() && ok
      ensures nextSnapshotId == old(nextSnapshotId) + 1 && clock == old(clock) + 1
      ensures history == Upsert(old(history), Snapshot(old(nextSnapshotId), mapTokenId, turn, x, y, hp, statusEffects, old(clock)))
    {
      var s := Snapshot(nextSnapshotId, mapTokenId, turn, x, y, hp, statusEffects, clock);
      UpsertSpec(history, s);
      history := Upsert(history, s);
      nextSnapshotId := nextSnapshotId + 1;
      clock := clock + 1;
      ok := true;
    }

    /** `get_token_position_at_turn`: the placement's latest saved position at or before the turn. */
    function GetTokenPositionAtTurn(mapTokenId: Id, turn: int): (r: Option<Snapshot>)
      reads this
      ensures r.Some? ==> r.value in history && r.value.mapTokenId == mapTokenId && r.value.turn <= turn
      ensures r.Some? ==> forall x :: x in history && x.mapTokenId == mapTokenId && x.turn <= turn ==> x.turn <= r.value.turn
      ensures r.None? <==> forall x :: x in history && x.mapTokenId == mapTokenId ==> x.turn > turn
    {
      AsOf(history, mapTokenId, turn)
    }

    /**
     * `get_all_token_positions_at_turn`: one row per listed placement, in the order of the live
     * join, each with its position as of the turn, with NULL coordinates when it has no snapshot
     * at or before the turn.
     */
    function GetAllTokenPositionsAtTurn(mapId: Option<Id>, turn: int): (r: seq<HistoricRow>)
      reads this
      ensures UniqueKeys(history) ==> JoinMatches(r, LiveJoin(placements, tokens, mapId), history, turn)
    {
      HistoricJoinUnique(placements, tokens, history, mapId, turn);
      HistoricJoin(placements, tokens, history, mapId, turn)
    }

    // ---- game state -------------------------------------------------------------------------

    /** `save_game_state`, as an upsert by world. */
    method SaveGameState(worldId: Id, turn: int, mapId: Option<Id>, activeTokenId: Option<Id>, stateData: Option<string>)
      returns (ok: bool)
      requires Valid()
      modifies this`states, this`clock
      ensures Valid() && ok && clock == old(clock) + 1
      ensures states == old(states)[worldId := GameState(worldId, turn, mapId, activeTokenId, stateData, old(clock))]
    {
      states := states[worldId := GameState(worldId, turn, mapId, activeTokenId, stateData, clock)];
      clock := clock + 1;
      ok := true;
    }

    /** `get_game_state`: the world's row, or None. */
    function GetGameState(worldId: Id): (r: Option<GameState>)
      reads this
      ensures r.Some? <==> worldId in states
      ensures r.Some? ==> r.value == states[worldId]
    {
      if worldId in states then Some(states[worldId]) else None
    }

    // ---- templates and placements -------------------------------------------------------------

    /** `add_token`: a template whose current hit points start at its maximum. */
    method AddToken(name: string, imagePath: string, size: int, color: string, kind: string,
                    notes: string, initiative: int, maxHp: int) returns (id: Id)
      requires Valid()
      modifies this`tokens, this`nextTokenId
      ensures Valid() && (old(TokensKept()) ==> TokensKept())
      ensures id == old(nextTokenId) && nextTokenId == id + 1
      ensures tokens == old(tokens) + [TokenRow(id, name, imagePath, size, color, kind, notes, initiative, maxHp, maxHp, 10)]
    {
      id := nextTokenId;
      var t := TokenRow(id, name, imagePath, size, color, kind, notes, initiative, maxHp, maxHp, 10);
      if TokensKept() { KeyedAppend(tokens, TokenKey, nextTokenId, t); }
      tokens := tokens + [t];
      nextTokenId := nextTokenId + 1;
    }

    /** `add_map_token`: a new placement, unmoved, at turn 0. */
    method AddMapToken(mapId: Id, tokenId: Id, x: int, y: int, rotation: int, active: bool, initiative: int)
      returns (id: Id)
      requires Valid()
      modifies this`placements, this`nextPlacementId
      ensures Valid() && (old(PlacementsKept()) ==> PlacementsKept())
      ensures id == old(nextPlacementId) && nextPlacementId == id + 1
      ensures placements == old(placements) + [Placement(id, mapId, tokenId, x, y, rotation, active, initiative, false, 0)]
    {
      id := nextPlacementId;
      var p := Placement(id, mapId, tokenId, x, y, rotation, active, initiative, false, 0);
      if PlacementsKept() { KeyedAppend(placements, PlacementKey, nextPlacementId, p); }
      placements := placements + [p];
      nextPlacementId := nextPlacementId + 1;
    }

    /**
     * `update_token_position`: moves the placement and records a snapshot at `turn` without hit
     * points or status. It reports success even when no placement has that id.
     */
    method UpdateTokenPosition(mapTokenId: Id, x: int, y: int, turn: int, hasMoved: bool) returns (ok: bool)
      requires Valid()
      modifies this`placements, this`history, this`nextSnapshotId, this`clock
      ensures Valid() && ok && (old(PlacementsKept()) ==> PlacementsKept())
      ensures placements == MoveRow(old(placements), mapTokenId, x, y, turn, hasMoved)
      ensures history == Upsert(old(history), Snapshot(old(nextSnapshotId), mapTokenId, turn, x, y, None, None, old(clock)))
      ensures nextSnapshotId == old(nextSnapshotId) + 1 && clock == old(clock) + 1
    {
      if PlacementsKept() { KeyedSameIds(placements, MoveRow(placements, mapTokenId, x, y, turn, hasMoved), PlacementKey, nextPlacementId); }
      placements := MoveRow(placements, mapTokenId, x, y, turn, hasMoved);
      ok := SaveTokenPosition(mapTokenId, turn, x, y, None, None);
      ok := true;
    }

    /** `reset_token_movement_flags`. */
    method ResetTokenMovementFlags(mapId: Id, turn: int) returns (ok: bool)
      requires Valid()
      modifies this`placements
      ensures Valid() && ok && (old(PlacementsKept()) ==> PlacementsKept())
      ensures placements == ResetFlags(old(placements), mapId, turn)
    {
      if PlacementsKept() { KeyedSameIds(placements, ResetFlags(placements, mapId, turn), PlacementKey, nextPlacementId); }
      placements := ResetFlags(placements, mapId, turn);
      ok := true;
    }

    /**
     * `get_map_tokens_with_history(map_id, turn_number)`: with a turn, the as-of listing of
     * `get_all_token_positions_at_turn`; without one, the live listing by initiative.
     */
    function GetMapTokensWithHistory(mapId: Option<Id>, turn: Option<int>): (r: TokenListing)
      reads this
      ensures turn.None? <==> r.LiveRows?
      ensures turn.None? ==> r == LiveRows(LiveListing(placements, tokens, mapId))
      ensures turn.Some? ==> r == HistoricRows(GetAllTokenPositionsAtTurn(mapId, turn.value))
      ensures turn.Some? && UniqueKeys(history) ==>
        JoinMatches(r.historic, LiveJoin(placements, tokens, mapId), history, turn.value)
    {
      if turn.Some? then HistoricRows(HistoricJoin(placements, tokens, history, mapId, turn.value))
      else LiveRows(LiveListing(placements, tokens, mapId))
    }

    // ---- worlds and maps ----------------------------------------------------------------------

    /** `world_name_exists`: whether some world has exactly this name. */
    function WorldNameExists(name: string): (r: bool)
      reads this
      ensures r <==> exists w :: w in worlds && w.name == name
    {
      NameTaken(worlds, name)
    }

    /**
     * `create_world`: None, with nothing written, when the name is taken (the UNIQUE constraint
     * fails and the transaction rolls back); otherwise the new world's id, after assigning the
     * active map, if an id is given, to the new world.
     */
    method CreateWorld(name: string, description: string, activeMapId: Option<Id>) returns (r: Option<Id>)
      requires Valid()
      modifies this`worlds, this`maps, this`nextWorldId, this`clock
      ensures Valid() && (old(WorldsKept()) ==> WorldsKept()) && (old(MapsKept()) ==> MapsKept())
      ensures NameTaken(old(worlds), name) <==> r.None?
      ensures r.None? ==> worlds == old(worlds) && maps == old(maps) && nextWorldId == old(nextWorldId) && clock == old(clock)
      ensures r.Some? ==>
        && r.value == old(nextWorldId) && nextWorldId == r.value + 1 && clock == old(clock) + 1
        && worlds == old(worlds) + [World(r.value, name, description, old(clock), old(clock))]
        && maps == (if Present(activeMapId) then AssignWorld(old(maps), activeMapId.value, r.value) else old(maps))
    {
      if NameTaken(worlds, name) {
        return None;
      }
      var id := InsertWorld(name, description);
      if Present(activeMapId) {
        AssignMap(activeMapId.value, id);
      }
      r := Some(id);
    }

    /** The INSERT of `create_world`, for a name not yet taken. */
    method InsertWorld(name: string, description: string) returns (id: Id)
      requires Valid() && !NameTaken(worlds, name)
      modifies this`worlds, this`nextWorldId, this`clock
      ensures Valid() && (old(WorldsKept()) ==> WorldsKept())
      ensures id == old(nextWorldId) && nextWorldId == id + 1 && clock == old(clock) + 1
      ensures worlds == old(worlds) + [World(id, name, description, old(clock), old(clock))]
    {
      id := nextWorldId;
      if WorldsKept() { WorldTableAppend(worlds, nextWorldId, World(id, name, description, clock, clock)); }
      worlds := worlds + [World(id, name, description, clock, clock)];
      nextWorldId := nextWorldId + 1;
      clock := clock + 1;
    }

    /** The UPDATE of `create_world` that hands the active map to the new world. */
    method AssignMap(mapId: Id, worldId: Id)
      requires Valid()
      modifies this`maps
      ensures Valid() && (old(MapsKept()) ==> MapsKept())
      ensures maps == AssignWorld(old(maps), mapId, worldId)
    {
      if MapsKept() { KeyedSameIds(maps, AssignWorld(maps, mapId, worldId), MapKey, nextMapId); }
      maps := AssignWorld(maps, mapId, worldId);
    }

    /** `delete_world`: the world's maps are kept with no world, then the world row goes. */
    method DeleteWorld(worldId: Id) returns (ok: bool)
      requires Valid()
      modifies this`worlds, this`maps
      ensures Valid() && ok && (old(WorldsKept()) ==> WorldsKept()) && (old(MapsKept()) ==> MapsKept())
      ensures maps == Unassign(old(maps), worldId)
      ensures worlds == DropWorld(old(worlds), worldId)
    {
      if MapsKept() { KeyedSameIds(maps, Unassign(maps, worldId), MapKey, nextMapId); }
      maps := Unassign(maps, worldId);
      if WorldsKept() { DropWorldTable(worlds, worldId, nextWorldId); }
      worlds := DropWorld(worlds, worldId);
      ok := true;
    }

    /**
     * `save_or_update_map`: None when the name or the image path is missing or empty; an update in
     * place when a truthy id is given (that id is returned even when no row has it); otherwise a
     * new row and its new id.
     */
    method SaveOrUpdateMap(input: MapInput) returns (r: Option<Id>)
      requires Valid()
      modifies this`maps, this`nextMapId, this`clock
      ensures Valid()
      ensures old(MapsKept()) ==> MapsKept()
      ensures !AcceptedMap(input) ==> r.None? && maps == old(maps) && nextMapId == old(nextMapId) && clock == old(clock)
      ensures AcceptedMap(input) && Present(input.id) ==>
        r == input.id && maps == UpdateMaps(old(maps), input.id.value, input)
        && nextMapId == old(nextMapId) && clock == old(clock)
      ensures AcceptedMap(input) && !Present(input.id) ==>
        && r == Some(old(nextMapId)) && nextMapId == old(nextMapId) + 1 && clock == old(clock) + 1
        && maps == old(maps) + [NewMap(old(nextMapId), input, old(clock))]
    {
      if !AcceptedMap(input) {
        return None;
      }
      if Present(input.id) {
        if MapsKept() { KeyedSameIds(maps, UpdateMaps(maps, input.id.value, input), MapKey, nextMapId); }
        maps := UpdateMaps(maps, input.id.value, input);
        r := input.id;
      } else {
        if MapsKept() { KeyedAppend(maps, MapKey, nextMapId, NewMap(nextMapId, input, clock)); }
        maps := maps + [NewMap(nextMapId, input, clock)];
        r := Some(nextMapId);
        nextMapId := nextMapId + 1;
        clock := clock + 1;
      }
    }

    /** `get_unassigned_maps`: (id, name) of every map of no world, one row each, names ascending. */
    function GetUnassignedMaps(): (r: seq<(Id, string)>)
      reads this
      ensures |r| == |Unassigned(maps)|
      ensures forall m :: m in maps && m.worldId.None? ==> (m.id, m.name) in r
      ensures forall i :: 0 <= i < |r| ==> exists m :: m in maps && m.worldId.None? && r[i] == (m.id, m.name)
      ensures forall i, j :: 0 <= i < j < |r| ==> LexLe(CodePoints(r[i].1), CodePoints(r[j].1))
    {
      UnassignedMapsPairs(maps);
      UnassignedMaps(maps)
    }

    // ---- location icons -----------------------------------------------------------------------

    /** `add_location_icon`: the icon's editable columns as given. */
    method AddLocationIcon(mapId: Id, columns: map<string, SqlValue>) returns (id: Id)
      requires Valid()
      modifies this`icons, this`nextIconId
      ensures Valid() && (old(IconsKept()) ==> IconsKept())
      ensures id == old(nextIconId) && nextIconId == id + 1
      ensures icons == old(icons) + [LocationIcon(id, mapId, columns)]
    {
      id := nextIconId;
      if IconsKept() { KeyedAppend(icons, IconKey, nextIconId, LocationIcon(id, mapId, columns)); }
      icons := icons + [LocationIcon(id, mapId, columns)];
      nextIconId := nextIconId + 1;
    }

    /** `update_location_icon`. */
    method UpdateLocationIcon(iconId: Id, kwargs: map<string, SqlValue>) returns (ok: bool)
      requires Valid()
      modifies this`icons
      ensures Valid() && (old(IconsKept()) ==> IconsKept())
      ensures (ok, icons) == UpdateIcon(old(icons), iconId, kwargs)
    {
      var r := UpdateIcon(icons, iconId, kwargs);
      if IconsKept() { KeyedSameIds(icons, SetColumns(icons, iconId, Whitelisted(kwargs)), IconKey, nextIconId); }
      ok, icons := r.0, r.1;
    }
  }

  /** A table whose ids are positive, ascending in table order and below the next id to hand out. */
  ghost predicate Keyed<T>(rows: seq<T>, id: T -> Id, next: nat) {
    && next > 0
    && (forall i, j :: 0 <= i < j < |rows| ==> id(rows[i]) < id(rows[j]))
    && (forall i :: 0 <= i < |rows| ==> 0 < id(rows[i]) < next)
  }

  function MapKey(m: MapRow): Id { m.id }
  function IconKey(c: LocationIcon): Id { c.id }
  function EventId(e: TimelineEvent): Id { e.id }
  function TokenKey(t: TokenRow): Id { t.id }
  function PlacementKey(p: Placement): Id { p.id }
  function ActionId(a: TokenAction): Id { a.id }

  ghost predicate WorldTable(worlds: seq<World>, next: nat) {
    && next > 0
    && (forall i, j :: 0 <= i < j < |worlds| ==> worlds[i].id < worlds[j].id && worlds[i].name != worlds[j].name)
    && (forall i :: 0 <= i < |worlds| ==> 0 < worlds[i].id < next)
  }

  lemma KeyedAppend<T>(rows: seq<T>, id: T -> Id, next: nat, x: T)
    requires Keyed(rows, id, next) && id(x) == next
    ensures Keyed(rows + [x], id, next + 1)
  {
  }

  lemma KeyedSameIds<T>(rows: seq<T>, r: seq<T>, id: T -> Id, next: nat)
    requires Keyed(rows, id, next) && |r| == |rows|
    requires forall i :: 0 <= i < |rows| ==> id(r[i]) == id(rows[i])
    ensures Keyed(r, id, next)
  {
  }

  lemma {:induction false} DropWorldTable(worlds: seq<World>, worldId: Id, next: nat)
    requires WorldTable(worlds, next)
    ensures WorldTable(DropWorld(worlds, worldId), next)
  {
    if worlds != [] {
      var tail := worlds[1..];
      DropWorldTable(tail, worldId, next);
      var rest := DropWorld(tail, worldId);
      if worlds[0].id != worldId {
        HeadBeforeRest(worlds, rest, next);
        WorldTableCons(worlds[0], rest, next);
        assert DropWorld(worlds, worldId) == [worlds[0]] + rest;
      } else {
        assert DropWorld(worlds, worldId) == rest;
      }
    }
  }

  lemma HeadBeforeRest(worlds: seq<World>, rest: seq<World>, next: nat)
    requires WorldTable(worlds, next) && worlds != []
    requires forall w :: w in rest ==> w in worlds[1..]
    ensures forall j :: 0 <= j < |rest| ==> worlds[0].id < rest[j].id && worlds[0].name != rest[j].name
  {
    forall j | 0 <= j < |rest| ensures worlds[0].id < rest[j].id && worlds[0].name != rest[j].name {
      assert rest[j] in worlds[1..];
      var k :| 0 <= k < |worlds| - 1 && worlds[1..][k] == rest[j];
      assert worlds[k + 1] == rest[j];
    }
  }

  lemma WorldTableCons(w: World, rest: seq<World>, next: nat)
    requires WorldTable(rest, next) && 0 < w.id < next
    requires forall j :: 0 <= j < |rest| ==> w.id < rest[j].id && w.name != rest[j].name
    ensures WorldTable([w] + rest, next)
  {
    var r := [w] + rest;
    forall i, j | 0 <= i < j < |r| ensures r[i].id < r[j].id && r[i].name != r[j].name {
      assert r[j] == rest[j - 1];
      if i > 0 {
        assert r[i] == rest[i - 1];
      }
    }
  }

  lemma WorldTableAppend(worlds: seq<World>, next: nat, w: World)
    requires WorldTable(worlds, next) && !NameTaken(worlds, w.name) && w.id == next
    ensures WorldTable(worlds + [w], next + 1)
  {
    var r := worlds + [w];
    forall i, j | 0 <= i < j < |r| ensures r[i].id < r[j].id && r[i].name != r[j].name {
      if j == |worlds| {
        assert r[i] == worlds[i];
      }
    }
  }
}
