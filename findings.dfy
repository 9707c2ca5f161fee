/**
 * Code of the store and the turn engine as it is written, where it defeats its evident purpose.
 *
 * Two writes use `INSERT OR REPLACE`, but neither table has a UNIQUE constraint on the key the
 * write means (token_position_history has none on (map_token_id, turn_number), game_state none on
 * world_id); the only key is the AUTOINCREMENT id, which the INSERT never names. So nothing is
 * ever replaced and every save appends a row.
 *
 * Two reads take the `SELECT *` rows of timeline_events by position as if the map_id column were
 * not there: `load_map_timeline` and `get_timeline_statistics` read every field from the column
 * before its own.
 *
 * The rest of the model uses the evidently intended behaviour (History.Upsert, the game-state map
 * of Store.Database, and the turn-keyed cache of Rotation.GroupByTurn); this module shows what
 * the code does instead.
 */
module Findings {
  import opened Wrappers
  import opened Records
  import opened Placements
  import opened History
  import opened Tally
  import Turns

  // ---- token_position_history ----------------------------------------------------------------

  /** `save_token_position` as written: the snapshot is appended, whatever its key. */
  function AppendSnapshot(h: seq<Snapshot>, s: Snapshot): seq<Snapshot> {
    h + [s]
  }

  /** One template, placed once on map 1. */
  const Goblin := TokenRow(1, "Goblin", "goblin.png", 1, "red", "npc", "", 12, 7, 7, 15)
  const GoblinOnMap := Placement(1, 1, 1, 0, 0, 0, true, 12, false, 3)

  /**
   * The two snapshots one `Timeline.update_token_position` call writes in turn 3: the store's
   * `update_token_position` saves the new position, then the timeline's `save_token_state`
   * saves it again under the same (placement, turn).
   */
  const StoreWrite := Snapshot(1, 1, 3, 4, 5, None, None, 0)
  const TimelineWrite := Snapshot(2, 1, 3, 4, 5, None, None, 1)

  /**
   * After that one move, the as-of listing for turn 3 lists the single placement twice: the
   * LEFT JOIN on `turn_number = MAX(turn_number)` matches both snapshots.
   */
  lemma AppendedSavesDuplicateRow()
    ensures LiveJoin([GoblinOnMap], [Goblin], Some(1)) == [LiveRowOf(GoblinOnMap, Goblin)]
    ensures |HistoricJoin([GoblinOnMap], [Goblin], AppendSnapshot(AppendSnapshot([], StoreWrite), TimelineWrite), Some(1), 3)| == 2
  {
    var h := AppendSnapshot(AppendSnapshot([], StoreWrite), TimelineWrite);
    assert h == [StoreWrite, TimelineWrite];
    assert h[1..] == [TimelineWrite] && h[1..][1..] == [];
    assert AsOf(h, 1, 3) == Some(TimelineWrite);
    assert RowsAt(h[1..][1..], 1, 3) == [];
    assert RowsAt(h[1..], 1, 3) == [TimelineWrite] + [];
    assert RowsAt(h, 1, 3) == [StoreWrite] + [TimelineWrite];
    var rows := [StoreWrite] + [TimelineWrite];
    assert rows[1..] == [TimelineWrite] && rows[1..][1..] == [];
    assert |SnapshotRows(GoblinOnMap, Goblin, rows[1..])| == 1;
    assert TemplateOf([Goblin], 1) == Some(Goblin);
    assert HistoricJoin([GoblinOnMap], [Goblin], h, Some(1), 3)
      == JoinPlacement(GoblinOnMap, Goblin, h, 3) + HistoricJoin([], [Goblin], h, Some(1), 3);
  }

  // ---- game_state ------------------------------------------------------------------------------

  /** `save_game_state` as written: a new row for every save. */
  function AppendState(rows: seq<GameState>, g: GameState): seq<GameState> {
    rows + [g]
  }

  /** `get_game_state` as written: `fetchone` without ORDER BY, the world's first row in table order. */
  function FirstState(rows: seq<GameState>, worldId: Id): (r: Option<GameState>)
    ensures r.Some? ==> r.value in rows && r.value.worldId == worldId
    ensures r.None? <==> forall g :: g in rows ==> g.worldId != worldId
  {
    if rows == [] then None
    else if rows[0].worldId == worldId then Some(rows[0])
    else
      assert forall g :: g in rows ==> g == rows[0] || g in rows[1..];
      FirstState(rows[1..], worldId)
  }

  /** Once a world has a saved row, no later save changes what `get_game_state` reads back. */
  lemma {:induction false} LaterSavesUnread(rows: seq<GameState>, g: GameState)
    requires FirstState(rows, g.worldId).Some?
    ensures FirstState(AppendState(rows, g), g.worldId) == FirstState(rows, g.worldId)
  {
    assert AppendState(rows, g)[0] == rows[0];
    if rows[0].worldId != g.worldId {
      assert AppendState(rows, g)[1..] == AppendState(rows[1..], g);
      LaterSavesUnread(rows[1..], g);
    }
  }

  /**
   * `next_turn` saves the state of world 1 at turns 1 and 2; `load_world_state` then reads the
   * turn-1 row back and resumes the world one turn behind.
   */
  lemma ReloadResumesFirstSave()
    ensures var rows := AppendState(AppendState([], GameState(1, 1, Some(1), None, None, 0)), GameState(1, 2, Some(1), None, None, 1));
      FirstState(rows, 1) == Some(GameState(1, 1, Some(1), None, None, 0))
  {
    var rows := AppendState(AppendState([], GameState(1, 1, Some(1), None, None, 0)), GameState(1, 2, Some(1), None, None, 1));
    assert rows[0] == GameState(1, 1, Some(1), None, None, 0);
  }

  // ---- timeline_events read by position ------------------------------------------------------

  /** The white space `json.loads` skips before a value. */
  predicate JsonSpace(c: char) {
    c == ' ' || c == '\t' || c == '\n' || c == '\r'
  }

  /** The characters a value `json.loads` accepts can begin with (NaN and Infinity included). */
  predicate JsonStart(c: char) {
    c in "{[\"-0123456789tfnNI"
  }

  function SkipJsonSpace(s: string): (r: string)
    ensures r != [] ==> !JsonSpace(r[0])
  {
    if s != [] && JsonSpace(s[0]) then SkipJsonSpace(s[1..]) else s
  }

  /** A text `json.loads` rejects whatever follows: only white space, or no value starts there. */
  predicate NotJson(s: string) {
    var t := SkipJsonSpace(s);
    t == [] || !JsonStart(t[0])
  }

  /** `json.loads(event[6]) if event[6] else None` raises on this description. */
  predicate Raises(description: string) {
    description != "" && NotJson(description)
  }

  /** A description decoded as JSON; the decoded value itself is not modelled. */
  datatype JsonText = JsonText(text: string)

  /** What `'data'` receives when the description does not make `json.loads` raise. */
  function DataOf(description: string): Option<JsonText> {
    if description == "" then None else Some(JsonText(description))
  }

  /**
   * The dict `load_map_timeline` builds from a row read one column off: 'event_type' holds the
   * turn number, 'title' the event type, 'description' the title, 'data' the description read
   * as JSON, and 'timestamp' the event data.
   */
  datatype LoadedEntry = LoadedEntry(
    id: Id, eventType: int, title: string, description: string, data: Option<JsonText>, timestamp: EventData)

  function ShiftedEntry(e: TimelineEvent): LoadedEntry {
    LoadedEntry(e.id, e.turn, e.eventType, e.title, DataOf(e.description), e.data)
  }

  /** The key a row is filed under: `event[2]`, the map id, None for an event logged without a map. */
  function KeyOf(e: TimelineEvent): Option<Id> {
    e.mapId
  }

  /** The cache the loop leaves, and whether `json.loads` raised and cut it short. */
  datatype Loaded = Loaded(cache: map<Option<Id>, seq<LoadedEntry>>, raised: bool)

  /** The entries of the rows filed under `k`, in query order. */
  function LoadedOn(es: seq<TimelineEvent>, k: Option<Id>): seq<LoadedEntry> {
    if es == [] then []
    else LoadedOn(es[..|es| - 1], k) + (if KeyOf(es[|es| - 1]) == k then [ShiftedEntry(es[|es| - 1])] else [])
  }

  /**
   * `load_map_timeline` as written, over the rows in query order: each row is filed under its
   * map id, until a description that is not JSON raises.
   */
  function LoadAsWritten(es: seq<TimelineEvent>): Loaded {
    if es == [] then Loaded(map[], false)
    else
      var prev := LoadAsWritten(es[..|es| - 1]);
      var e := es[|es| - 1];
      if prev.raised then prev
      else if Raises(e.description) then Loaded(prev.cache, true)
      else
        var k := KeyOf(e);
        Loaded(prev.cache[k := (if k in prev.cache then prev.cache[k] else []) + [ShiftedEntry(e)]], false)
  }

  /** The load raises exactly when some row's description is not JSON. */
  lemma {:induction false} LoadRaisedIff(es: seq<TimelineEvent>)
    ensures LoadAsWritten(es).raised <==> exists i :: 0 <= i < |es| && Raises(es[i].description)
  {
    if es != [] {
      var init := es[..|es| - 1];
      LoadRaisedIff(init);
      LoadRaisedStep(es);
      SomeRaisesStep(es);
    }
  }

  /** One more row raises the load when it was raised already or its description is not JSON. */
  lemma LoadRaisedStep(es: seq<TimelineEvent>)
    requires es != []
    ensures LoadAsWritten(es).raised == (LoadAsWritten(es[..|es| - 1]).raised || Raises(es[|es| - 1].description))
  {
  }

  lemma SomeRaisesStep(es: seq<TimelineEvent>)
    requires es != []
    ensures var init := es[..|es| - 1];
      (exists i :: 0 <= i < |es| && Raises(es[i].description))
      <==> (exists i :: 0 <= i < |init| && Raises(init[i].description)) || Raises(es[|es| - 1].description)
  {
    var init := es[..|es| - 1];
    if exists i :: 0 <= i < |es| && Raises(es[i].description) {
      var i :| 0 <= i < |es| && Raises(es[i].description);
      if i < |init| {
        assert init[i] == es[i];
      }
    }
    if exists i :: 0 <= i < |init| && Raises(init[i].description) {
      var i :| 0 <= i < |init| && Raises(init[i].description);
      assert es[i] == init[i];
    }
  }

  /**
   * A load that does not raise files every row under its map id: a key is present exactly when
   * some row has that map id, and holds those rows' entries in query order.
   */
  lemma {:induction false} LoadKeyedByMap(es: seq<TimelineEvent>)
    requires !LoadAsWritten(es).raised
    ensures forall k :: k in LoadAsWritten(es).cache <==> LoadedOn(es, k) != []
    ensures forall k :: k in LoadAsWritten(es).cache ==> LoadAsWritten(es).cache[k] == LoadedOn(es, k)
  {
    if es != [] {
      var init := es[..|es| - 1];
      assert !LoadAsWritten(init).raised;
      LoadKeyedByMap(init);
    }
  }

  /** A move's description begins with 'M', which no JSON value begins with. */
  lemma MoveDescriptionRaises(from: Position, to: Position)
    ensures Raises(Turns.MoveDescription(from, to))
  {
    var d := Turns.MoveDescription(from, to);
    assert d[0] == 'M';
  }

  /**
   * A world whose timeline holds a token move is never loaded: `json.loads` raises on the move's
   * description, and `set_map` fails with it.
   */
  lemma MoveEventBreaksLoad(es: seq<TimelineEvent>, i: nat, from: Position, to: Position)
    requires i < |es| && es[i].description == Turns.MoveDescription(from, to)
    ensures LoadAsWritten(es).raised
  {
    MoveDescriptionRaises(from, to);
    LoadRaisedIff(es);
  }

  /** `dict.get(turn_number, [])` on the loaded cache, whose keys are map ids. */
  function LookupAsWritten(cache: map<Option<Id>, seq<LoadedEntry>>, t: int): seq<LoadedEntry> {
    if t >= 0 && Some(t as Id) in cache then cache[Some(t as Id)] else []
  }

  /** Once loaded, `get_timeline_events_for_turn(t)` answers the events of map t, whatever their turn. */
  lemma TurnLookupReadsMap(es: seq<TimelineEvent>, t: Id)
    requires !LoadAsWritten(es).raised
    ensures LookupAsWritten(LoadAsWritten(es).cache, t) == LoadedOn(es, Some(t))
  {
    LoadKeyedByMap(es);
  }

  /** After a raise the rest of the rows are not read: the cache stays as the raise left it. */
  lemma {:induction false} RaisedStays(es: seq<TimelineEvent>, n: nat)
    requires n <= |es| && LoadAsWritten(es[..n]).raised
    ensures LoadAsWritten(es) == LoadAsWritten(es[..n])
    decreases |es| - n
  {
    if n < |es| {
      assert es[..n + 1][..n] == es[..n];
      RaisedStays(es, n + 1);
    } else {
      assert es[..n] == es;
    }
  }

  /** The loop of `load_map_timeline` as written; `raised` stands for the JSONDecodeError it ends with. */
  method LoadLoop(events: seq<TimelineEvent>) returns (cache: map<Option<Id>, seq<LoadedEntry>>, raised: bool)
    ensures Loaded(cache, raised) == LoadAsWritten(events)
  {
    cache, raised := map[], false;
    var i := 0;
    while i < |events| && !raised
      invariant 0 <= i <= |events|
      invariant Loaded(cache, raised) == LoadAsWritten(events[..i])
    {
      assert events[..i + 1][..i] == events[..i];
      var e := events[i];
      if Raises(e.description) {
        raised := true;
      } else {
        var k := KeyOf(e);
        if k !in cache {
          cache := cache[k := []];
        }
        cache := cache[k := cache[k] + [ShiftedEntry(e)]];
      }
      i := i + 1;
    }
    if raised {
      RaisedStays(events, i);
    } else {
      assert events[..i] == events;
    }
  }

  /** The map id of every row, in query order. */
  function MapKeysOf(es: seq<TimelineEvent>): seq<Option<Id>> {
    if es == [] then [] else MapKeysOf(es[..|es| - 1]) + [KeyOf(es[|es| - 1])]
  }

  /**
   * The counting loop of `get_timeline_statistics` as written: `event[3]`, the turn number, is
   * counted as the event type, and `event[2]`, the map id, as the turn.
   */
  method CountAsWritten(events: seq<TimelineEvent>) returns (byType: seq<(int, nat)>, byTurn: seq<(Option<Id>, nat)>)
    ensures byType == TallyOf(Turns.TurnsOf(events)) && byTurn == TallyOf(MapKeysOf(events))
  {
    byType, byTurn := [], [];
    for i := 0 to |events|
      invariant byType == TallyOf(Turns.TurnsOf(events[..i])) && byTurn == TallyOf(MapKeysOf(events[..i]))
    {
      var pre := events[..i + 1];
      assert pre[..i] == events[..i] && pre[i] == events[i];
      assert MapKeysOf(pre) == MapKeysOf(events[..i]) + [KeyOf(events[i])];
      assert Turns.TurnsOf(pre) == Turns.TurnsOf(events[..i]) + [events[i].turn];
      byType := Bump(byType, events[i].turn);
      byTurn := Bump(byTurn, KeyOf(events[i]));
    }
    assert events[..|events|] == events;
  }

  /** Two turns on map 7, each with one turn_start event and no description. */
  const TurnOne := TimelineEvent(1, 1, Some(7), 1, "turn_start", "Turn 1 begins", "", NoData, 0)
  const TurnTwo := TimelineEvent(2, 1, Some(7), 2, "turn_start", "Turn 2 begins", "", NoData, 1)

  /** Counting two keys. */
  lemma TallyOfPair<K>(a: K, b: K)
    ensures TallyOf([a, b]) == if a == b then [(a, 2)] else [(a, 1), (b, 1)]
  {
    var ks := [a, b];
    assert ks[..1] == [a] && [a][..0] == [];
    assert TallyOf([a]) == Bump([], a) == [(a, 1)];
    assert TallyOf(ks) == Bump([(a, 1)], b);
    if a != b {
      assert Bump([(a, 1)], b) == [(a, 1)] + Bump([], b);
    }
  }

  /** The three columns the statistics read, for two rows. */
  lemma ColumnsOfPair(x: TimelineEvent, y: TimelineEvent)
    ensures Turns.TurnsOf([x, y]) == [x.turn, y.turn]
    ensures MapKeysOf([x, y]) == [KeyOf(x), KeyOf(y)]
    ensures Turns.TypesOf([x, y]) == [x.eventType, y.eventType]
  {
    var es := [x, y];
    assert es[..1] == [x] && [x][..0] == [];
    assert MapKeysOf([x]) == MapKeysOf([]) + [KeyOf(x)];
    assert MapKeysOf(es) == MapKeysOf([x]) + [KeyOf(y)];
    assert Turns.TypesOf([x]) == Turns.TypesOf([]) + [x.eventType];
    assert Turns.TypesOf(es) == Turns.TypesOf([x]) + [y.eventType];
  }

  /**
   * For those two events the statistics as written count the types 1 and 2, not turn_start, and
   * name map 7 as the most active turn with both events, where each real turn has one.
   */
  lemma MostActiveIsMapId()
    ensures TallyOf(Turns.TurnsOf([TurnOne, TurnTwo])) == [(1, 1), (2, 1)]
    ensures TallyOf(MapKeysOf([TurnOne, TurnTwo])) == [(Some(7), 2)]
    ensures IsFirstMax(TallyOf(MapKeysOf([TurnOne, TurnTwo])), 0)
    ensures TallyOf(Turns.TypesOf([TurnOne, TurnTwo])) == [("turn_start", 2)]
  {
    ColumnsOfPair(TurnOne, TurnTwo);
    TallyOfPair<int>(1, 2);
    TallyOfPair<Option<Id>>(Some(7), Some(7));
    TallyOfPair<string>("turn_start", "turn_start");
  }
}
