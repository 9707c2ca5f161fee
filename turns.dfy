/**
 * The `Timeline` turn engine: a turn counter with a high-water mark, a scrubbing mode that
 * views a past turn and refuses every write, the initiative order, the per-turn event cache and
 * the cache of historical positions, over a reference to the store.
 */
module Turns {
  import opened Wrappers
  import opened Records
  import opened PyInt
  import opened Text
  import opened Tally
  import opened Events
  import opened History
  import opened Placements
  import opened Store
  import opened Rotation

  /** Python truthiness of an optional string: present and non-empty. */
  predicate Truthy(s: Option<string>) {
    s.Some? && s.value != []
  }

  /** The position of the first listed row with that id, as the lookup loop of `update_token_position` finds it. */
  function PositionOf(rows: seq<LiveRow>, id: Id): (r: Option<Position>)
    ensures r.None? <==> forall i :: 0 <= i < |rows| ==> rows[i].id != id
    ensures r.Some? ==> exists i :: 0 <= i < |rows| && rows[i].id == id && r.value == Position(rows[i].x, rows[i].y)
                                 && forall j :: 0 <= j < i ==> rows[j].id != id
  {
    if rows == [] then None
    else if rows[0].id == id then
      assert rows[0].id == id && Some(Position(rows[0].x, rows[0].y)).value == Position(rows[0].x, rows[0].y);
      Some(Position(rows[0].x, rows[0].y))
    else
      var r := PositionOf(rows[1..], id);
      assert forall i :: 0 < i < |rows| ==> rows[i] == rows[1..][i - 1];
      assert r.Some? ==> exists i :: 0 <= i < |rows| && rows[i].id == id && r.value == Position(rows[i].x, rows[i].y)
                                    && forall j :: 0 <= j < i ==> rows[j].id != id by {
        if r.Some? {
          var k :| 0 <= k < |rows| - 1 && rows[1..][k].id == id && r.value == Position(rows[1..][k].x, rows[1..][k].y)
            && forall j :: 0 <= j < k ==> rows[1..][j].id != id;
          assert rows[k + 1].id == id && forall j :: 0 <= j < k + 1 ==> rows[j].id != id;
        }
      }
      r
  }

  /** The title `log_combat_event` chooses; a damage of None or 0 is not mentioned. */
  function CombatTitle(attacker: string, target: string, damage: Option<int>, hit: bool): string {
    if hit && damage.Some? && damage.value != 0 then attacker + " hits " + target + " for " + IntToString(damage.value) + " damage"
    else if hit then attacker + " hits " + target
    else attacker + " misses " + target
  }

  function MoveDescription(from: Position, to: Position): string {
    "Moved from (" + IntToString(from.x) + ", " + IntToString(from.y) + ") to ("
      + IntToString(to.x) + ", " + IntToString(to.y) + ")"
  }

  function TurnTitle(turn: int): string {
    "Turn " + IntToString(turn) + " begins"
  }

  /** The statistics dict of `get_timeline_statistics`. */
  datatype Stats = Stats(
    totalTurns: int, totalEvents: nat, eventsByType: seq<(string, nat)>,
    mostActiveTurn: Option<int>, mostActiveTurnEvents: nat)

  function TypesOf(es: seq<TimelineEvent>): seq<string> {
    if es == [] then [] else TypesOf(es[..|es| - 1]) + [es[|es| - 1].eventType]
  }

  function TurnsOf(es: seq<TimelineEvent>): (r: seq<int>)
    ensures |r| == |es| && forall i :: 0 <= i < |es| ==> r[i] == es[i].turn
  {
    if es == [] then [] else TurnsOf(es[..|es| - 1]) + [es[|es| - 1].turn]
  }

  lemma {:induction false} TypesOfLength(es: seq<TimelineEvent>)
    ensures |TypesOf(es)| == |es|
  {
    if es != [] {
      TypesOfLength(es[..|es| - 1]);
    }
  }

  class Timeline {
    const db: Database
    var currentWorldId: Option<Id>
    var currentMapId: Option<Id>
    var currentTurn: int
    var maxTurn: int
    /** Placement ids in the order they act. */
    var initiativeOrder: seq<Id>
    var isScrubbing: bool
    var scrubTurn: int
    /** `timeline_cache`: the events of each turn. */
    var timelineCache: map<int, seq<CacheEntry>>
    /** `token_positions_cache`, keyed by the (map id, turn) pair its key string spells. */
    var positionsCache: map<(Id, int), seq<HistoricRow>>

    /** The store is consistent and the high-water mark is never below the live turn. */
    ghost predicate Valid()
      reads this`currentTurn, this`maxTurn, db`history, db`states
    {
      db.Valid() && currentTurn <= maxTurn
    }

    /** Every cached position list is what the store answers now: no stale read is possible. */
    ghost predicate CacheCoherent()
      reads this`positionsCache, db
    {
      forall k :: k in positionsCache ==> positionsCache[k] == db.GetAllTokenPositionsAtTurn(Some(k.0), k.1)
    }

    /** Writes are allowed: a world is set and the timeline is live. */
    predicate Logging()
      reads this`currentWorldId, this`isScrubbing
    {
      Present(currentWorldId) && !isScrubbing
    }

    constructor (database: Database)
      requires database.Valid()
      ensures Valid() && CacheCoherent() && db == database
      ensures currentWorldId.None? && currentMapId.None? && currentTurn == 0 && maxTurn == 0
      ensures initiativeOrder == [] && !isScrubbing && scrubTurn == 0
      ensures timelineCache == map[] && positionsCache == map[]
    {
      db := database;
      currentWorldId, currentMapId := None, None;
      currentTurn, maxTurn := 0, 0;
      initiativeOrder := [];
      isScrubbing, scrubTurn := false, 0;
      timelineCache, positionsCache := map[], map[];
    }

    // ---- world and map --------------------------------------------------------------------

    /** `set_world`. */
    method SetWorld(worldId: Option<Id>)
      requires Valid()
      modifies this`currentWorldId, this`currentTurn, this`currentMapId, this`maxTurn
      ensures Valid() && currentWorldId == worldId
      ensures !Present(worldId) ==> currentTurn == old(currentTurn) && currentMapId == old(currentMapId) && maxTurn == old(maxTurn)
      ensures Present(worldId) ==> LoadedState(worldId.value, old(currentTurn), old(currentMapId))
    {
      currentWorldId := worldId;
      LoadWorldState();
    }

    /** The turn, map and high-water mark after loading world `w`'s saved state. */
    ghost predicate LoadedState(w: Id, turnBefore: int, mapBefore: Option<Id>)
      reads this, db
    {
      var st := db.GetGameState(w);
      && currentTurn == (if st.Some? then st.value.currentTurn else turnBefore)
      && currentMapId == (if st.Some? then st.value.currentMapId else mapBefore)
      && maxTurn == Max(db.GetMaxTurnNumber(w), currentTurn)
    }

    /**
     * `load_world_state`: restores the saved turn and map, then raises the high-water mark to
     * the greatest logged turn and at least to the restored turn.
     */
    method LoadWorldState()
      requires Valid()
      modifies this`currentTurn, this`currentMapId, this`maxTurn
      ensures Valid()
      ensures !Present(currentWorldId) ==> currentTurn == old(currentTurn) && currentMapId == old(currentMapId) && maxTurn == old(maxTurn)
      ensures Present(currentWorldId) ==> LoadedState(currentWorldId.value, old(currentTurn), old(currentMapId))
    {
      if !Present(currentWorldId) {
        return;
      }
      var w := currentWorldId.value;
      var st := db.GetGameState(w);
      if st.Some? {
        currentTurn := st.value.currentTurn;
        currentMapId := st.value.currentMapId;
      }
      maxTurn := db.GetMaxTurnNumber(w);
      if maxTurn < currentTurn {
        maxTurn := currentTurn;
      }
    }

    /** `set_map`. */
    method SetMap(mapId: Option<Id>)
      requires Valid()
      modifies this`currentMapId, this`initiativeOrder, this`timelineCache
      ensures Valid() && currentMapId == mapId
      ensures Present(mapId) ==> initiativeOrder == InitiativeOrder(LiveListing(db.placements, db.tokens, mapId))
      ensures !Present(mapId) ==> initiativeOrder == old(initiativeOrder)
      ensures Present(currentWorldId) ==> timelineCache == GroupByTurn(db.GetTimelineEvents(currentWorldId.value, None, None, None))
      ensures !Present(currentWorldId) ==> timelineCache == old(timelineCache)
    {
      currentMapId := mapId;
      LoadInitiativeOrder();
      LoadMapTimeline();
    }

    /**
     * `load_initiative_order`: the ids of the map's placements with a positive initiative, highest
     * first, ties in listing order; without a map the old order stays.
     */
    method LoadInitiativeOrder()
      requires Valid()
      modifies this`initiativeOrder
      ensures Valid()
      ensures Present(currentMapId) ==> initiativeOrder == InitiativeOrder(LiveListing(db.placements, db.tokens, currentMapId))
      ensures !Present(currentMapId) ==> initiativeOrder == old(initiativeOrder)
    {
      if !Present(currentMapId) {
        return;
      }
      var listing := db.GetMapTokensWithHistory(currentMapId, None).live;
      var sorted := Sorting.SortBy(listing, InitiativeKey);
      var order := PositiveIds(sorted);
      initiativeOrder := order;
    }

    /** `load_map_timeline`: the world's events, grouped by turn in query order. */
    method LoadMapTimeline()
      requires Valid()
      modifies this`timelineCache
      ensures Valid()
      ensures Present(currentWorldId) ==> timelineCache == GroupByTurn(db.GetTimelineEvents(currentWorldId.value, None, None, None))
      ensures !Present(currentWorldId) ==> timelineCache == old(timelineCache)
    {
      if !Present(currentWorldId) {
        return;
      }
      var events := db.GetTimelineEvents(currentWorldId.value, None, None, None);
      var cache := GroupEvents(events);
      timelineCache := cache;
    }

    // ---- whose turn -------------------------------------------------------------------------

    /**
     * `get_current_token`: nobody for an empty order; while scrubbing, the actor of the viewed
     * turn; live, the entry at (current_turn - 1) mod n, which has no guard against turn 0.
     */
    function GetCurrentToken(): (r: Option<Id>)
      reads this`initiativeOrder, this`isScrubbing, this`scrubTurn, this`currentTurn
      ensures r.None? <==> initiativeOrder == [] || (isScrubbing && scrubTurn <= 0)
      ensures r.Some? ==> r.value in initiativeOrder
      ensures isScrubbing ==> r == ActorAt(initiativeOrder, scrubTurn)
      ensures !isScrubbing && currentTurn > 0 ==> r == ActorAt(initiativeOrder, currentTurn)
    {
      if initiativeOrder == [] then None
      else if isScrubbing then ActorAt(initiativeOrder, scrubTurn)
      else
        LiveActorAgrees(initiativeOrder, currentTurn);
        LiveActor(initiativeOrder, currentTurn)
    }

    /** `get_current_display_turn`: the viewed turn while scrubbing, the live turn otherwise. */
    function GetCurrentDisplayTurn(): (r: int)
      reads this`isScrubbing, this`scrubTurn, this`currentTurn
      ensures isScrubbing ==> r == scrubTurn
      ensures !isScrubbing ==> r == currentTurn
    {
      if isScrubbing then scrubTurn else currentTurn
    }

    /** `get_timeline_events_for_turn`: the cached list of the turn, or nothing. */
    function GetTimelineEventsForTurn(t: int): (r: seq<CacheEntry>)
      reads this`timelineCache
      ensures t in timelineCache ==> r == timelineCache[t]
      ensures t !in timelineCache ==> r == []
    {
      EventsFor(timelineCache, t)
    }

    // ---- scrubbing --------------------------------------------------------------------------

    /** `start_scrubbing`: views the live turn. */
    method StartScrubbing()
      modifies this`isScrubbing, this`scrubTurn
      ensures isScrubbing && scrubTurn == currentTurn
    {
      isScrubbing := true;
      scrubTurn := currentTurn;
    }

    /** `stop_scrubbing`: back to live mode, the viewed turn reset to the live one. */
    method StopScrubbing()
      modifies this`isScrubbing, this`scrubTurn
      ensures !isScrubbing && scrubTurn == currentTurn
    {
      isScrubbing := false;
      scrubTurn := currentTurn;
    }

    /**
     * `previous_turn`: enters scrubbing at the live turn if needed, then steps the viewed turn
     * back by one unless it is already at 0 or below, and names that turn's actor.
     */
    method PreviousTurn() returns (r: Option<Id>)
      modifies this`isScrubbing, this`scrubTurn
      ensures isScrubbing
      ensures var from := if old(isScrubbing) then old(scrubTurn) else currentTurn;
        && (from > 0 ==> scrubTurn == from - 1 && r == ActorAt(initiativeOrder, scrubTurn))
        && (from <= 0 ==> scrubTurn == from && r.None?)
        && (from >= 0 ==> scrubTurn >= 0)
    {
      if !isScrubbing {
        StartScrubbing();
      }
      r := None;
      if scrubTurn > 0 {
        scrubTurn := scrubTurn - 1;
        r := ActorAt(initiativeOrder, scrubTurn);
      }
    }

    /**
     * `scrub_to_turn`: enters scrubbing, clamps the viewed turn into [0, max_turn] and answers
     * the positions of that turn.
     */
    method ScrubToTurn(t: int) returns (positions: seq<HistoricRow>)
      requires Valid()
      modifies this`isScrubbing, this`scrubTurn, this`positionsCache
      ensures Valid() && isScrubbing && scrubTurn == Clamp(t, 0, maxTurn)
      ensures 0 <= scrubTurn && (0 <= maxTurn ==> scrubTurn <= maxTurn)
      ensures 0 <= t <= maxTurn ==> scrubTurn == t
      ensures old(CacheCoherent()) ==> CacheCoherent()
      ensures CacheCoherent() && Present(currentMapId) ==> positions == db.GetAllTokenPositionsAtTurn(currentMapId, scrubTurn)
      ensures !Present(currentMapId) ==> positions == []
    {
      if !isScrubbing {
        StartScrubbing();
      }
      scrubTurn := Max(0, Min(t, maxTurn));
      positions := GetTokenPositionsAtTurn(scrubTurn);
    }

    /**
     * `get_token_positions_at_turn`: a repeated (map, turn) is answered from the cache; a new one
     * is read from the store and cached. A coherent cache stays coherent and answers what the
     * store would.
     */
    method GetTokenPositionsAtTurn(t: int) returns (positions: seq<HistoricRow>)
      requires Valid()
      modifies this`positionsCache
      ensures Valid()
      ensures !Present(currentMapId) ==> positions == [] && positionsCache == old(positionsCache)
      ensures Present(currentMapId) && (currentMapId.value, t) in old(positionsCache) ==>
        positions == old(positionsCache)[(currentMapId.value, t)] && positionsCache == old(positionsCache)
      ensures Present(currentMapId) && (currentMapId.value, t) !in old(positionsCache) ==>
        positions == db.GetAllTokenPositionsAtTurn(currentMapId, t)
        && positionsCache == old(positionsCache)[(currentMapId.value, t) := positions]
      ensures old(CacheCoherent()) ==> CacheCoherent()
      ensures CacheCoherent() && Present(currentMapId) ==> positions == db.GetAllTokenPositionsAtTurn(currentMapId, t)
    {
      if !Present(currentMapId) {
        return [];
      }
      var key := (currentMapId.value, t);
      if key in positionsCache {
        return positionsCache[key];
      }
      positions := db.GetAllTokenPositionsAtTurn(currentMapId, t);
      positionsCache := positionsCache[key := positions];
    }

    // ---- logging ----------------------------------------------------------------------------

    /**
     * What one `log_event` call did, measured from the given store and cache state: while
     * logging is allowed, exactly one event stamped with the live turn and map, the next id and
     * the clock reading, also appended to the cache under that turn; otherwise nothing at all.
     */
    ghost predicate LoggedFrom(events0: seq<TimelineEvent>, nextId0: nat, clock0: nat, cache0: map<int, seq<CacheEntry>>,
                               id: Option<Id>, eventType: string, title: string, description: string, data: EventData)
      reads this`currentWorldId, this`isScrubbing, this`currentMapId, this`currentTurn, this`timelineCache
      reads db`events, db`nextEventId, db`clock
    {
      if Logging() then
        && id == Some(nextId0)
        && db.events == events0 + [TimelineEvent(nextId0, currentWorldId.value, currentMapId, currentTurn, eventType, title, description, data, clock0)]
        && db.nextEventId == nextId0 + 1 && db.clock == clock0 + 1
        && timelineCache == Appended(cache0, currentTurn, CacheEntry(nextId0, eventType, title, description, data, clock0))
      else
        && id.None?
        && db.events == events0 && db.nextEventId == nextId0 && db.clock == clock0
        && timelineCache == cache0
    }

    /** `log_event`: refused without a world and while scrubbing. */
    method LogEvent(eventType: string, title: string, data: EventData, description: string) returns (id: Option<Id>)
      requires Valid()
      modifies db`events, db`nextEventId, db`clock, this`timelineCache
      ensures Valid()
      ensures LoggedFrom(old(db.events), old(db.nextEventId), old(db.clock), old(timelineCache), id, eventType, title, description, data)
    {
      if !Present(currentWorldId) {
        return None;
      }
      if isScrubbing {
        return None;
      }
      var stamp := db.clock;
      var eventId := db.AddTimelineEvent(currentWorldId.value, currentTurn, eventType, title, description, data, currentMapId);
      timelineCache := Appended(timelineCache, currentTurn, CacheEntry(eventId, eventType, title, description, data, stamp));
      id := Some(eventId);
    }

    /** `log_token_moved`, without the distance, which is floating point. */
    method LogTokenMoved(mapTokenId: Id, name: string, from: Position, to: Position) returns (id: Option<Id>)
      requires Valid()
      modifies db`events, db`nextEventId, db`clock, this`timelineCache
      ensures Valid()
      ensures LoggedFrom(old(db.events), old(db.nextEventId), old(db.clock), old(timelineCache), id,
                         "token_move", name + " moved", MoveDescription(from, to), TokenMoveData(mapTokenId, from, to))
    {
      id := LogEvent("token_move", name + " moved", TokenMoveData(mapTokenId, from, to), MoveDescription(from, to));
    }

    /** `log_token_action`: the action row is written first, even when the event is then refused. */
    method LogTokenAction(mapTokenId: Id, name: string, text: string, kind: string) returns (id: Option<Id>)
      requires Valid()
      modifies db`actions, db`nextActionId, db`events, db`nextEventId, db`clock, this`timelineCache
      ensures Valid()
      ensures db.actions == old(db.actions) + [TokenAction(old(db.nextActionId), mapTokenId, currentTurn, text, kind, old(db.clock))]
      ensures db.nextActionId == old(db.nextActionId) + 1
      ensures LoggedFrom(old(db.events), old(db.nextEventId), old(db.clock) + 1, old(timelineCache), id,
                         "token_action", name + ": " + text, "", TokenActionData(mapTokenId, kind, text))
    {
      var _ := db.AddTokenAction(mapTokenId, currentTurn, text, kind);
      id := LogEvent("token_action", name + ": " + text, TokenActionData(mapTokenId, kind, text), "");
    }

    method LogTokenAdded(mapTokenId: Id, name: string, position: Position) returns (id: Option<Id>)
      requires Valid()
      modifies db`events, db`nextEventId, db`clock, this`timelineCache
      ensures Valid()
      ensures LoggedFrom(old(db.events), old(db.nextEventId), old(db.clock), old(timelineCache), id,
                         "token_add", name + " enters the battlefield", "", TokenPresenceData(mapTokenId, position))
    {
      id := LogEvent("token_add", name + " enters the battlefield", TokenPresenceData(mapTokenId, position), "");
    }

    method LogTokenRemoved(mapTokenId: Id, name: string, position: Position) returns (id: Option<Id>)
      requires Valid()
      modifies db`events, db`nextEventId, db`clock, this`timelineCache
      ensures Valid()
      ensures LoggedFrom(old(db.events), old(db.nextEventId), old(db.clock), old(timelineCache), id,
                         "token_remove", name + " leaves the battlefield", "", TokenPresenceData(mapTokenId, position))
    {
      id := LogEvent("token_remove", name + " leaves the battlefield", TokenPresenceData(mapTokenId, position), "");
    }

    method LogCombatEvent(attacker: string, target: string, damage: Option<int>, hit: bool) returns (id: Option<Id>)
      requires Valid()
      modifies db`events, db`nextEventId, db`clock, this`timelineCache
      ensures Valid()
      ensures LoggedFrom(old(db.events), old(db.nextEventId), old(db.clock), old(timelineCache), id,
                         "combat", CombatTitle(attacker, target, damage, hit), "", CombatData(attacker, target, damage, hit))
    {
      id := LogEvent("combat", CombatTitle(attacker, target, damage, hit), CombatData(attacker, target, damage, hit), "");
    }

    method LogNoteAdded(noteId: Id, title: string, location: Option<Position>) returns (id: Option<Id>)
      requires Valid()
      modifies db`events, db`nextEventId, db`clock, this`timelineCache
      ensures Valid()
      ensures LoggedFrom(old(db.events), old(db.nextEventId), old(db.clock), old(timelineCache), id,
                         "note_add", "Note added: " + title, "", NoteData(noteId, location))
    {
      id := LogEvent("note_add", "Note added: " + title, NoteData(noteId, location), "");
    }

    method LogLocationDiscovered(name: string, kind: string) returns (id: Option<Id>)
      requires Valid()
      modifies db`events, db`nextEventId, db`clock, this`timelineCache
      ensures Valid()
      ensures LoggedFrom(old(db.events), old(db.nextEventId), old(db.clock), old(timelineCache), id,
                         "location_discover", "Discovered " + name, "", LocationData(name, kind))
    {
      id := LogEvent("location_discover", "Discovered " + name, LocationData(name, kind), "");
    }

    method LogMapChange(oldName: string, newName: string, newMapId: Id) returns (id: Option<Id>)
      requires Valid()
      modifies db`events, db`nextEventId, db`clock, this`timelineCache
      ensures Valid()
      ensures LoggedFrom(old(db.events), old(db.nextEventId), old(db.clock), old(timelineCache), id,
                         "map_change", "Moved to " + newName, "Party moved from " + oldName + " to " + newName,
                         MapChangeData(oldName, newName, newMapId))
    {
      id := LogEvent("map_change", "Moved to " + newName, MapChangeData(oldName, newName, newMapId),
                     "Party moved from " + oldName + " to " + newName);
    }

    // ---- turns ------------------------------------------------------------------------------

    /** `_save_current_state`: writes the game state only while logging is allowed. */
    method SaveCurrentState()
      requires Valid()
      modifies db`states, db`clock
      ensures Valid()
      ensures Logging() ==>
        && db.clock == old(db.clock) + 1
        && db.states == old(db.states)[currentWorldId.value := GameState(currentWorldId.value, currentTurn, currentMapId, None, None, old(db.clock))]
      ensures !Logging() ==> db.states == old(db.states) && db.clock == old(db.clock)
    {
      if Present(currentWorldId) && !isScrubbing {
        var _ := db.SaveGameState(currentWorldId.value, currentTurn, currentMapId, None, None);
      }
    }

    /**
     * `next_turn`: refused while scrubbing. Otherwise the turn goes up by one, the map's movement
     * flags are reset for it, the high-water mark follows, the state is saved, a `turn_start`
     * event is logged, and the new turn's actor is returned.
     */
    method NextTurn() returns (r: Option<Id>)
      requires Valid()
      modifies this`currentTurn, this`maxTurn, this`timelineCache
      modifies db`placements, db`states, db`events, db`nextEventId, db`clock
      ensures Valid()
      ensures old(isScrubbing) ==>
        && r.None? && currentTurn == old(currentTurn) && maxTurn == old(maxTurn)
        && timelineCache == old(timelineCache) && db.placements == old(db.placements) && db.states == old(db.states)
        && db.events == old(db.events) && db.nextEventId == old(db.nextEventId) && db.clock == old(db.clock)
      ensures !old(isScrubbing) ==>
        && currentTurn == old(currentTurn) + 1 && maxTurn == Max(old(maxTurn), currentTurn)
        && db.placements == (if Present(currentMapId) then ResetFlags(old(db.placements), currentMapId.value, currentTurn) else old(db.placements))
        && (Present(currentWorldId) ==> db.states == old(db.states)[currentWorldId.value := GameState(currentWorldId.value, currentTurn, currentMapId, None, None, old(db.clock))])
        && (!Present(currentWorldId) ==> db.states == old(db.states))
        && LoggedFrom(old(db.events), old(db.nextEventId), if Present(currentWorldId) then old(db.clock) + 1 else old(db.clock), old(timelineCache),
                      if Present(currentWorldId) then Some(old(db.nextEventId)) else None,
                      "turn_start", TurnTitle(currentTurn), "", TurnStartData(currentTurn, initiativeOrder))
        && r == GetCurrentToken()
    {
      if isScrubbing {
        return None;
      }
      AdvanceTurn();
      SaveAndLogTurn(old(db.states), old(db.events), old(db.nextEventId), old(db.clock), old(timelineCache));
      r := GetCurrentToken();
    }

    /** The first half of `next_turn`: the turn goes up, the map's flags are reset, the mark follows. */
    method AdvanceTurn()
      requires Valid()
      modifies this`currentTurn, this`maxTurn, db`placements
      ensures Valid()
      ensures currentTurn == old(currentTurn) + 1 && maxTurn == Max(old(maxTurn), currentTurn)
      ensures db.placements == if Present(currentMapId) then ResetFlags(old(db.placements), currentMapId.value, currentTurn) else old(db.placements)
    {
      currentTurn := currentTurn + 1;
      if Present(currentMapId) {
        var _ := db.ResetTokenMovementFlags(currentMapId.value, currentTurn);
      }
      if currentTurn > maxTurn {
        maxTurn := currentTurn;
      }
    }

    /** The second half of `next_turn`, measured from the given state: the save, then the `turn_start` event. */
    method SaveAndLogTurn(ghost states0: map<Id, GameState>, ghost events0: seq<TimelineEvent>, ghost nextId0: nat,
                          ghost clock0: nat, ghost cache0: map<int, seq<CacheEntry>>)
      requires Valid() && !isScrubbing
      requires db.states == states0 && db.events == events0 && db.nextEventId == nextId0 && db.clock == clock0 && timelineCache == cache0
      modifies db`states, db`events, db`nextEventId, db`clock, this`timelineCache
      ensures Valid()
      ensures Present(currentWorldId) ==> db.states == states0[currentWorldId.value := GameState(currentWorldId.value, currentTurn, currentMapId, None, None, clock0)]
      ensures !Present(currentWorldId) ==> db.states == states0
      ensures LoggedFrom(events0, nextId0, if Present(currentWorldId) then clock0 + 1 else clock0, cache0,
                         if Present(currentWorldId) then Some(nextId0) else None,
                         "turn_start", TurnTitle(currentTurn), "", TurnStartData(currentTurn, initiativeOrder))
    {
      SaveCurrentState();
      var _ := LogEvent("turn_start", TurnTitle(currentTurn), TurnStartData(currentTurn, initiativeOrder), "");
    }

    // ---- token state ------------------------------------------------------------------------

    /** `save_token_state`: refused while scrubbing; otherwise a snapshot at the live turn. */
    method SaveTokenState(mapTokenId: Id, x: int, y: int, hp: Option<int>, statusEffects: Option<string>) returns (ok: bool)
      requires Valid()
      modifies db`history, db`nextSnapshotId, db`clock
      ensures Valid()
      ensures ok <==> !isScrubbing
      ensures !ok ==> db.history == old(db.history) && db.nextSnapshotId == old(db.nextSnapshotId) && db.clock == old(db.clock)
      ensures ok ==>
        && db.history == Upsert(old(db.history), Snapshot(old(db.nextSnapshotId), mapTokenId, currentTurn, x, y, hp, statusEffects, old(db.clock)))
        && db.nextSnapshotId == old(db.nextSnapshotId) + 1 && db.clock == old(db.clock) + 1
    {
      if isScrubbing {
        return false;
      }
      ok := db.SaveTokenPosition(mapTokenId, currentTurn, x, y, hp, statusEffects);
    }

    /**
     * `update_token_position`: refused while scrubbing. Otherwise the placement moves, one
     * snapshot for the live turn holds the new position (the store's write and the timeline's
     * own save land on the same key), a move is logged when a name is given and the listed old
     * position differs, and the positions cache is emptied.
     */
    method UpdateTokenPosition(mapTokenId: Id, x: int, y: int, name: Option<string>) returns (ok: bool)
      requires Valid()
      modifies db`placements, db`history, db`nextSnapshotId, db`events, db`nextEventId, db`clock
      modifies this`positionsCache, this`timelineCache
      ensures Valid()
      ensures ok <==> !isScrubbing
      ensures !ok ==>
        && db.placements == old(db.placements) && db.history == old(db.history) && db.nextSnapshotId == old(db.nextSnapshotId)
        && db.events == old(db.events) && db.nextEventId == old(db.nextEventId) && db.clock == old(db.clock)
        && positionsCache == old(positionsCache) && timelineCache == old(timelineCache)
      ensures ok ==>
        && db.placements == MoveRow(old(db.placements), mapTokenId, x, y, currentTurn, true)
        && db.history == Upsert(old(db.history), Snapshot(old(db.nextSnapshotId) + 1, mapTokenId, currentTurn, x, y, None, None, old(db.clock) + 1))
        && db.nextSnapshotId == old(db.nextSnapshotId) + 2
        && positionsCache == map[] && CacheCoherent()
      ensures ok ==>
        var from := PositionOf(old(db.GetMapTokensWithHistory(currentMapId, None)).live, mapTokenId);
        if Truthy(name) && from.Some? && from.value != Position(x, y) then
          LoggedFrom(old(db.events), old(db.nextEventId), old(db.clock) + 2, old(timelineCache),
                     if Logging() then Some(old(db.nextEventId)) else None,
                                  "token_move", name.value + " moved", MoveDescription(from.value, Position(x, y)),
                                  TokenMoveData(mapTokenId, from.value, Position(x, y)))
        else
          && db.events == old(db.events) && db.nextEventId == old(db.nextEventId) && db.clock == old(db.clock) + 2
          && timelineCache == old(timelineCache)
    {
      if isScrubbing {
        return false;
      }
      var from;
      ok, from := MoveAndSnapshot(mapTokenId, x, y, name);
      RecordMove(mapTokenId, name, from, Position(x, y), old(db.events), old(db.nextEventId), old(db.clock) + 2, old(timelineCache));
    }

    /** The tail of `update_token_position`: the move event when the token has a name and really moved, then the cache is dropped. */
    method RecordMove(mapTokenId: Id, name: Option<string>, from: Option<Position>, to: Position,
                      ghost events0: seq<TimelineEvent>, ghost nextId0: nat, ghost clock0: nat, ghost cache0: map<int, seq<CacheEntry>>)
      requires Valid()
      requires db.events == events0 && db.nextEventId == nextId0 && db.clock == clock0 && timelineCache == cache0
      modifies db`events, db`nextEventId, db`clock, this`positionsCache, this`timelineCache
      ensures Valid() && positionsCache == map[] && CacheCoherent()
      ensures
        if Truthy(name) && from.Some? && from.value != to then
          LoggedFrom(events0, nextId0, clock0, cache0, if Logging() then Some(nextId0) else None,
                     "token_move", name.value + " moved", MoveDescription(from.value, to), TokenMoveData(mapTokenId, from.value, to))
        else
          && db.events == events0 && db.nextEventId == nextId0 && db.clock == clock0
          && timelineCache == cache0
    {
      if Truthy(name) && from.Some? && from.value != to {
        var _ := LogTokenMoved(mapTokenId, name.value, from.value, to);
      }
      positionsCache := map[];
    }

    /**
     * The head of `update_token_position`: for a named token its listed position is looked up
     * first; then the store moves the placement and snapshots it, and `save_token_state`
     * snapshots it again for the same turn, which replaces the first.
     */
    method MoveAndSnapshot(mapTokenId: Id, x: int, y: int, name: Option<string>) returns (ok: bool, from: Option<Position>)
      requires Valid() && !isScrubbing
      modifies db`placements, db`history, db`nextSnapshotId, db`clock
      ensures Valid() && ok
      ensures from == if Truthy(name) then PositionOf(old(db.GetMapTokensWithHistory(currentMapId, None)).live, mapTokenId) else None
      ensures db.placements == MoveRow(old(db.placements), mapTokenId, x, y, currentTurn, true)
      ensures db.history == Upsert(old(db.history), Snapshot(old(db.nextSnapshotId) + 1, mapTokenId, currentTurn, x, y, None, None, old(db.clock) + 1))
      ensures db.nextSnapshotId == old(db.nextSnapshotId) + 2 && db.clock == old(db.clock) + 2
    {
      from := None;
      if Truthy(name) {
        var rows := db.GetMapTokensWithHistory(currentMapId, None).live;
        var i := 0;
        while i < |rows|
          invariant 0 <= i <= |rows|
          invariant PositionOf(rows, mapTokenId) == PositionOf(rows[i..], mapTokenId)
        {
          if rows[i].id == mapTokenId {
            from := Some(Position(rows[i].x, rows[i].y));
            break;
          }
          assert rows[i..][1..] == rows[i + 1..];
          i := i + 1;
        }
      }
      ghost var h0, sid, c0 := db.history, db.nextSnapshotId, db.clock;
      ok := db.UpdateTokenPosition(mapTokenId, x, y, currentTurn, true);
      var _ := SaveTokenState(mapTokenId, x, y, None, None);
      UpsertTwice(h0, Snapshot(sid, mapTokenId, currentTurn, x, y, None, None, c0),
                  Snapshot(sid + 1, mapTokenId, currentTurn, x, y, None, None, c0 + 1));
    }

    // ---- initiative -------------------------------------------------------------------------

    /** `reset_initiative`. */
    method ResetInitiative()
      modifies this`initiativeOrder
      ensures initiativeOrder == []
    {
      initiativeOrder := [];
    }

    /** `set_token_initiative`: the value is not stored; the order is only reloaded. */
    method SetTokenInitiative(mapTokenId: Id, value: int)
      requires Valid()
      modifies this`initiativeOrder
      ensures Valid()
      ensures Present(currentMapId) ==> initiativeOrder == InitiativeOrder(LiveListing(db.placements, db.tokens, currentMapId))
      ensures !Present(currentMapId) ==> initiativeOrder == old(initiativeOrder)
    {
      LoadInitiativeOrder();
    }

    // ---- reports ----------------------------------------------------------------------------

    /** `get_recent_events`: the events from five turns before the displayed turn to one after it. */
    function GetRecentEvents(limit: int): (r: seq<TimelineEvent>)
      reads this`currentWorldId, this`isScrubbing, this`scrubTurn, this`currentTurn, db
      ensures !Present(currentWorldId) ==> r == []
      ensures Present(currentWorldId) ==>
        r == db.GetTimelineEvents(currentWorldId.value, Some(Max(0, GetCurrentDisplayTurn() - 5)), Some(GetCurrentDisplayTurn() + 1), Some(limit))
    {
      if !Present(currentWorldId) then []
      else
        var d := GetCurrentDisplayTurn();
        db.GetTimelineEvents(currentWorldId.value, Some(Max(0, d - 5)), Some(d + 1), Some(limit))
    }

    /**
     * `get_timeline_summary`: the range defaults to the last ten turns up to the live one; every
     * turn of the range with cached events gives one row, in ascending order.
     */
    method GetTimelineSummary(start: Option<int>, end: Option<int>) returns (rows: seq<SummaryRow>)
      ensures rows == SummaryRows(timelineCache, start.GetOr(Max(0, currentTurn - 10)), end.GetOr(currentTurn))
    {
      var lo := if start.Some? then start.value else Max(0, currentTurn - 10);
      var hi := if end.Some? then end.value else currentTurn;
      rows := Summarize(timelineCache, lo, hi);
    }

    /**
     * `get_timeline_statistics`: None stands for the empty dict returned without a world. The
     * per-type counts are those of the world's events in query order; the most active turn is the
     * first turn with the greatest number of events.
     */
    method GetTimelineStatistics() returns (stats: Option<Stats>)
      requires Valid()
      ensures !Present(currentWorldId) <==> stats.None?
      ensures stats.Some? ==>
        var events := db.GetTimelineEvents(currentWorldId.value, None, None, None);
        && stats.value.totalTurns == maxTurn
        && stats.value.totalEvents == |events|
        && stats.value.eventsByType == TallyOf(TypesOf(events))
        && Total(stats.value.eventsByType) == stats.value.totalEvents
        && (stats.value.mostActiveTurn.None? <==> events == [])
        && (events == [] ==> stats.value.mostActiveTurnEvents == 0)
        && (stats.value.mostActiveTurn.Some? ==> MostActive(TurnsOf(events), stats.value.mostActiveTurn.value, stats.value.mostActiveTurnEvents))
    {
      if !Present(currentWorldId) {
        return None;
      }
      var events := db.GetTimelineEvents(currentWorldId.value, None, None, None);
      var byType, byTurn := CountEvents(events);
      TallyTotal(TypesOf(events));
      TypesOfLength(events);
      var most: Option<int> := None;
      var mostCount := 0;
      if byTurn != [] {
        var i := FirstMax(byTurn);
        most, mostCount := Some(byTurn[i].0), byTurn[i].1;
        QueryOrdered(db.events, currentWorldId.value, None, None, None);
        MostActiveSpec(TurnsOf(events), i);
      } else {
        TallyTotal(TurnsOf(events));
      }
      if events == [] {
        assert byTurn == [];
      }
      stats := Some(Stats(maxTurn, |events|, byType, most, mostCount));
    }
  }

  /** The loop of `load_initiative_order`: the ids of the rows with a positive initiative, in order. */
  method PositiveIds(sorted: seq<LiveRow>) returns (order: seq<Id>)
    ensures order == Ids(PositiveRows(sorted))
  {
    order := [];
    for i := 0 to |sorted|
      invariant order == Ids(PositiveRows(sorted[..i]))
    {
      PrefixStep(sorted, i);
      PositiveRowsAppend(sorted[..i], sorted[i]);
      IdsAppend(PositiveRows(sorted[..i]), sorted[i], sorted[i].initiative > 0);
      if sorted[i].initiative > 0 {
        order := order + [sorted[i].id];
      }
    }
    assert sorted[..|sorted|] == sorted;
  }

  /** The loop of `load_map_timeline`: each event appended to the list of its turn. */
  method GroupEvents(events: seq<TimelineEvent>) returns (cache: map<int, seq<CacheEntry>>)
    ensures cache == GroupByTurn(events)
  {
    cache := map[];
    for i := 0 to |events|
      invariant cache == GroupByTurn(events[..i])
    {
      GroupByTurnStep(events, i);
      var e := events[i];
      ghost var before := cache;
      if e.turn !in cache {
        cache := cache[e.turn := []];
      }
      cache := cache[e.turn := cache[e.turn] + [EntryOf(e)]];
      CacheAppend(before, e.turn, EntryOf(e));
    }
    assert events[..|events|] == events;
  }

  /** The loop of `get_timeline_summary` over `range(lo, hi + 1)`. */
  method Summarize(cache: map<int, seq<CacheEntry>>, lo: int, hi: int) returns (rows: seq<SummaryRow>)
    ensures rows == SummaryRows(cache, lo, hi)
  {
    rows := [];
    var t := lo;
    while t <= hi
      invariant lo <= t <= Max(lo, hi + 1)
      invariant rows == SummaryRows(cache, lo, t - 1)
      decreases hi - t
    {
      var evs := EventsFor(cache, t);
      if evs != [] {
        rows := rows + [SummaryRow(t, |evs|, evs)];
      }
      t := t + 1;
    }
  }

  lemma GroupByTurnStep(events: seq<TimelineEvent>, i: nat)
    requires i < |events|
    ensures GroupByTurn(events[..i + 1]) == Appended(GroupByTurn(events[..i]), events[i].turn, EntryOf(events[i]))
  {
    PrefixStep(events, i);
    GroupByTurnAppend(events[..i], events[i]);
  }

  /** Creating the list when it is missing and then appending to it is `Appended`. */
  lemma CacheAppend(c: map<int, seq<CacheEntry>>, t: int, entry: CacheEntry)
    ensures var d := if t in c then c else c[t := []];
      d[t := d[t] + [entry]] == Appended(c, t, entry)
  {
  }

  lemma PrefixStep<T>(s: seq<T>, i: nat)
    requires i < |s|
    ensures s[..i + 1] == s[..i] + [s[i]]
  {
  }

  /** The counting loop of `get_timeline_statistics`: one counter by event type, one by turn. */
  method CountEvents(events: seq<TimelineEvent>) returns (byType: seq<(string, nat)>, byTurn: seq<(int, nat)>)
    ensures byType == TallyOf(TypesOf(events)) && byTurn == TallyOf(TurnsOf(events))
  {
    byType, byTurn := [], [];
    for i := 0 to |events|
      invariant byType == TallyOf(TypesOf(events[..i])) && byTurn == TallyOf(TurnsOf(events[..i]))
    {
      assert events[..i + 1][..i] == events[..i];
      byType := Bump(byType, events[i].eventType);
      byTurn := Bump(byTurn, events[i].turn);
    }
    assert events[..|events|] == events;
  }

  /** `max(d.items(), key=count)`: the first entry with the greatest count. */
  method FirstMax<K>(c: seq<(K, nat)>) returns (i: nat)
    requires c != []
    ensures IsFirstMax(c, i)
  {
    i := 0;
    for j := 1 to |c|
      invariant i < j
      invariant forall k :: 0 <= k < j ==> c[k].1 <= c[i].1
      invariant forall k :: 0 <= k < i ==> c[k].1 < c[i].1
    {
      if c[j].1 > c[i].1 {
        i := j;
      }
    }
  }

  /** Turn `t` has `n` events, no turn has more, and every turn with as many comes no earlier. */
  ghost predicate MostActive(turns: seq<int>, t: int, n: nat) {
    && multiset(turns)[t] == n
    && (forall u :: multiset(turns)[u] <= n)
    && (forall u :: multiset(turns)[u] == n ==> t <= u)
  }

  /**
   * Over turns in ascending order the counter's keys ascend, so the first maximal entry is the
   * smallest turn with the greatest count.
   */
  lemma MostActiveSpec(turns: seq<int>, i: nat)
    requires forall a, b :: 0 <= a < b < |turns| ==> turns[a] <= turns[b]
    requires IsFirstMax(TallyOf(turns), i)
    ensures MostActive(turns, TallyOf(turns)[i].0, TallyOf(turns)[i].1)
  {
    var c := TallyOf(turns);
    TallyKeysAscending(turns);
    TallyCounts(turns, c[i].0);
    LookupAt(c, i);
    TalliedKeyOccurs(turns, i);
    FirstMaxBounds(c, i);
    forall u ensures multiset(turns)[u] == Lookup(c, u) {
      TallyCounts(turns, u);
    }
  }

  /** Every key of the counter occurs in what was counted. */
  lemma TalliedKeyOccurs(turns: seq<int>, i: nat)
    requires i < |TallyOf(turns)|
    ensures TallyOf(turns)[i].0 in multiset(turns)
  {
    var c := TallyOf(turns);
    TallyKeys(turns);
    KeysOfIndex(c);
    assert KeysOf(c)[i] == c[i].0;
    assert c[i].0 in turns;
  }

  lemma FirstMaxBounds(c: seq<(int, nat)>, i: nat)
    requires DistinctKeys(c) && IsFirstMax(c, i) && c[i].1 > 0
    requires forall a, b :: 0 <= a < b < |c| ==> c[a].0 < c[b].0
    ensures forall u :: Lookup(c, u) <= c[i].1 && (Lookup(c, u) == c[i].1 ==> c[i].0 <= u)
  {
    forall u ensures Lookup(c, u) <= c[i].1 && (Lookup(c, u) == c[i].1 ==> c[i].0 <= u) {
      CountBelowMax(c, i, u);
    }
  }

  /** With distinct ascending keys, any key's count is at most the first maximum's, and only a later key ties it. */
  lemma CountBelowMax(c: seq<(int, nat)>, i: nat, u: int)
    requires DistinctKeys(c) && IsFirstMax(c, i) && c[i].1 > 0
    requires forall a, b :: 0 <= a < b < |c| ==> c[a].0 < c[b].0
    ensures Lookup(c, u) <= c[i].1
    ensures Lookup(c, u) == c[i].1 ==> c[i].0 <= u
  {
    KeysOfIndex(c);
    if j :| 0 <= j < |c| && c[j].0 == u {
      LookupAt(c, j);
      if j < i {
        assert c[j].1 < c[i].1;
      }
    } else {
      LookupAbsent(c, u);
    }
  }

  /** Appending a row appends it to the rotation's rows, when its initiative is positive. */
  lemma {:induction false} PositiveRowsAppend(rows: seq<LiveRow>, x: LiveRow)
    ensures PositiveRows(rows + [x]) == PositiveRows(rows) + (if x.initiative > 0 then [x] else [])
  {
    if rows != [] {
      TailOfAppend(rows, x);
      PositiveRowsAppend(rows[1..], x);
      PositiveRowsAppendStep(rows, x);
    }
  }

  lemma PositiveRowsAppendStep(rows: seq<LiveRow>, x: LiveRow)
    requires rows != [] && (rows + [x])[0] == rows[0] && (rows + [x])[1..] == rows[1..] + [x]
    requires PositiveRows(rows[1..] + [x]) == PositiveRows(rows[1..]) + (if x.initiative > 0 then [x] else [])
    ensures PositiveRows(rows + [x]) == PositiveRows(rows) + (if x.initiative > 0 then [x] else [])
  {
    var head := if rows[0].initiative > 0 then [rows[0]] else [];
    var tail := if x.initiative > 0 then [x] else [];
    assert PositiveRows(rows + [x]) == head + (PositiveRows(rows[1..]) + tail);
    assert head + (PositiveRows(rows[1..]) + tail) == (head + PositiveRows(rows[1..])) + tail;
  }

  /** The ids of a listing with one more row kept are the ids before it and that row's id. */
  lemma IdsAppend(rows: seq<LiveRow>, x: LiveRow, keep: bool)
    ensures Ids(rows + (if keep then [x] else [])) == Ids(rows) + (if keep then [x.id] else [])
  {
    if !keep {
      assert rows + [] == rows;
    }
  }
}
