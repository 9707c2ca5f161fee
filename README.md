# World-Builder turn engine, store and widgets in Dafny

This project models the logic under World-Builder's tabletop GUI and proves properties of it:

- the Timeline turn engine: turns, scrubbing through history, initiative rotation, the event log and its caches;
- the SQLite store it drives, kept as in-memory tables;
- the dice-expression roller;
- the bookkeeping of five pygame widgets;
- the map view's camera and its coordinate conversions.

Modules follow the program's files:

| module | file | what it holds |
|---|---|---|
| `Records` | database.py | one datatype per table row |
| `Events`, `History`, `Placements`, `Worlds` | database.py | the queries and updates of each table, as pure functions with lemmas |
| `Store` | database.py | class `Database`: the tables as `seq`/`map` fields, an id counter per table, and a clock; each write is a method |
| `Rotation`, `Turns` | timeline.py | the initiative rotation and the event-cache functions; class `Timeline` holding a reference to a `Database` |
| `Dice` | dice_roller.py | `strip`/`lower`, the regular expression, validation, the report text, class `DiceRoller` |
| `Input`, `Widgets` | ui_elements.py | the pygame events the handlers read; classes `TextInput`, `Breadcrumb`, `TimelineSlider`, `ListBox`, `ToggleButton` |
| `Camera` | map_view.py, config.py | the map area and class `MapView` |
| `Findings` | database.py, timeline.py | the two writes and the two reads of the event log whose code defeats its evident purpose (see "Findings") |

`Sorting` is a stable insertion sort by a lexicographic integer key. It stands for both SQL `ORDER BY` and Python's `sorted`/`list.sort`. Rows that tie keep table order, which is the order SQLite returns in practice.

`Tally` is an insertion-ordered counter, like a Python dict. `Text` provides `str(int)` and `int(str)`. `PyInt` provides Python's floor division, `max`, `min` and the clamp idiom.

Modelling decisions:

- **Time.** Timestamps come from a counter, `Database.clock`, that every stamped write advances.
- **Randomness.** The roller takes its die values as a parameter.
- **Images.** A map image is given by its pixel size.
- **Intended upserts.** `INSERT OR REPLACE` into `token_position_history` and into `game_state` is modelled as the upsert the code evidently means: by (placement, turn) and by world. Neither table declares the unique key that would make SQLite replace anything. What the code does as written is shown in `Findings`.
- **Historic listing.** `get_all_token_positions_at_turn` is a LEFT JOIN that selects only the snapshot's coordinates. A placement with no snapshot at or before the turn therefore has NULL coordinates; the live position is not used as a fallback. The model follows the code.
- **Scrubbing.** `scrub_to_turn` and `previous_turn` enter scrubbing themselves when called in live mode; the model follows the code here too.
- **Caches.** `update_token_position` clears the whole position cache, not only the current map's entries.
- **Event rows by position.** `load_map_timeline` and `get_timeline_statistics` index the `SELECT *` rows of `timeline_events` as if the `map_id` column were not there, so every field is read from the column before its own. The `Timeline` class is modelled on the evident reading (turn from `turn_number`, type from `event_type`, and so on); `Findings` models the code as written.

## Model

| member | source | states |
|---|---|---|
| Turns.Timeline.constructor | timeline.py:8-21 | starts live at turn 0 with no world, no map, an empty order and empty caches |
| Turns.Timeline.SetWorld | timeline.py:28-31 | sets the world, then restores the saved turn and map and raises the high-water mark as LoadWorldState does; without a world nothing else changes |
| Turns.Timeline.LoadWorldState | timeline.py:39-56 | with a world: turn and map come from the saved game state (unchanged when there is none), and max_turn becomes the larger of the greatest logged turn and the turn; without a world nothing changes |
| Turns.Timeline.SetMap | timeline.py:33-37 | sets the map, reloads the initiative order and regroups the world's events by turn, on the evident reading of the rows; as written, the rows are read one column off and a move event makes the reload raise (see Findings) |
| Turns.Timeline.LoadInitiativeOrder | timeline.py:58-72 | with a map, the order is the ids of the map's positive-initiative placements, sorted by initiative descending and stable on ties; without a map the old order stays |
| Turns.PositiveIds | timeline.py:69-72 | the loop keeps, in order, the ids of exactly the rows with positive initiative |
| Placements.PositiveRows | timeline.py:69-72 | keeps exactly the rows with initiative > 0 |
| Placements.InitiativeMembers | timeline.py:69-72 | the rotation holds exactly the listed rows with initiative > 0 |
| Placements.InitiativeDescending | timeline.py:69 | the rotation is ordered by initiative, highest first |
| Placements.InitiativeStable | timeline.py:69 | rows of equal initiative keep the order the store listed them in |
| Placements.InitiativeOrderSpec | timeline.py:58-72 | the three properties above together |
| Placements.InitiativeOrderOfListing | timeline.py:64-69 | the store's listing is already in initiative order, so the re-sort changes nothing |
| Turns.Timeline.LoadMapTimeline | timeline.py:74-94 | evident reading: with a world, the event cache is the world's events grouped by turn in query order; without one it is unchanged. As written the cache is keyed by map id with shifted fields (Findings.LoadKeyedByMap) |
| Turns.GroupEvents | timeline.py:83-94 | evident reading: the loop builds exactly GroupByTurn of the events (as written: Findings.LoadLoop) |
| Rotation.GroupByTurn | timeline.py:83-94 | evident reading: a turn is a key of the cache exactly when it has events, and its list is their entries in order |
| Rotation.EntriesAtMembers | timeline.py:83-94 | evident reading: a turn's list holds exactly the entries of the events of that turn |
| Rotation.EventsForGroup | timeline.py:199-201 | evident reading: looking up a turn of a freshly loaded cache gives that turn's events; as written it gives the events of the map with that id (Findings.TurnLookupReadsMap) |
| Rotation.GroupByTurnAppend | timeline.py:242-253 | logging one more event keeps the turn-keyed cache equal to the grouping of all events logged, so log_event and the evident reading of load_map_timeline agree |
| Rotation.Appended | timeline.py:242-253 | the cache after log_event's append: the turn gains the entry at its end and no other list changes |
| Turns.Timeline.NextTurn | timeline.py:96-120 | while scrubbing: None, and turn, mark, caches and store unchanged. Live: the turn goes up by exactly one, max_turn follows it, the map's movement flags are reset for the new turn, the state is saved (with a world), a turn_start event stamped with the new turn is logged, and the new turn's actor is returned |
| Turns.Timeline.AdvanceTurn | timeline.py:101-109 | the turn goes up by one, max_turn >= turn afterwards, and the map's has_moved flags are reset with the new turn |
| Turns.Timeline.SaveAndLogTurn | timeline.py:111-118 | the game state is written, then one turn_start event is logged, exactly as LoggedFrom describes |
| Turns.Timeline.PreviousTurn | timeline.py:122-131 | enters scrubbing at the live turn if needed; a viewed turn above 0 steps back by one and names that turn's actor; at or below 0 it stays and the answer is None; it never goes below 0 from a non-negative turn |
| Turns.Timeline.StartScrubbing | timeline.py:133-137 | scrubbing, viewing the live turn |
| Turns.Timeline.StopScrubbing | timeline.py:139-143 | live again, with scrub_turn == current_turn |
| Turns.Timeline.ScrubToTurn | timeline.py:145-152 | enters scrubbing and clamps the viewed turn into [0, max_turn] (a requested turn in range is kept); a coherent cache stays coherent and the answer is the store's listing for that turn |
| Turns.Timeline.GetCurrentToken | timeline.py:154-167 | None exactly for an empty order, or a scrubbed turn <= 0; otherwise a member of the order; the rotation actor of the viewed turn while scrubbing, and of the live turn after 0 |
| Rotation.ActorAt | timeline.py:169-175 | None exactly for an empty order or a turn <= 0, otherwise a member of the order |
| Rotation.ActorAtFirstRound | timeline.py:169-175 | turn k of the first round belongs to order[k-1] |
| Rotation.ActorAtWraps | timeline.py:174 | the rotation repeats every len(order) turns |
| Rotation.LiveActor | timeline.py:163-165 | None exactly for an empty order |
| Rotation.LiveActorAgrees | timeline.py:154-175 | after turn 0 the live and historic answers agree; at turn 0 the unguarded live branch names the last entry while the historic one names nobody |
| Turns.Timeline.GetTokenPositionsAtTurn | timeline.py:177-193 | no map: []. A cached (map, turn) is answered from the cache and leaves it unchanged; a new one is read from the store and cached. A coherent cache stays coherent and the answer equals the store's listing |
| Turns.Timeline.GetCurrentDisplayTurn | timeline.py:195-197 | scrub_turn while scrubbing, current_turn otherwise |
| Turns.Timeline.GetTimelineEventsForTurn | timeline.py:199-201 | the cached list of the turn, or [] when the turn has none |
| Turns.Timeline.GetTimelineSummary | timeline.py:203-220 | defaults the range to max(0, turn-10)..turn and returns SummaryRows of the cache over it |
| Turns.Summarize | timeline.py:210-218 | the loop over range(lo, hi+1) builds exactly SummaryRows |
| Rotation.SummaryRowsFaithful | timeline.py:211-218 | every row is a turn of the range with cached events, carrying those events and their number |
| Rotation.SummaryRowsAscending | timeline.py:211 | rows come in strictly ascending turn order |
| Rotation.SummaryRowsComplete | timeline.py:211-218 | every turn of the range with cached events has a row |
| Turns.Timeline.LogEvent | timeline.py:222-255 | without a world or while scrubbing: None, and no store write and no cache change. Otherwise exactly one event stamped with the live turn and map, the next id and the clock, also appended to the cache under that turn |
| Turns.Timeline.LogTokenMoved | timeline.py:257-269 | a LogEvent of type token_move with the "moved" title and the "Moved from (x, y) to (x, y)" description |
| Turns.Timeline.LogTokenAction | timeline.py:271-285 | the token action is stored at the live turn first, even when the event is then refused; then a token_action event |
| Turns.Timeline.LogTokenAdded | timeline.py:287-296 | a LogEvent of type token_add titled "<name> enters the battlefield" |
| Turns.Timeline.LogTokenRemoved | timeline.py:298-307 | a LogEvent of type token_remove titled "<name> leaves the battlefield" |
| Turns.Timeline.LogCombatEvent | timeline.py:309-327 | a LogEvent of type combat with the title chosen by hit and damage (a damage of None or 0 is not mentioned) |
| Turns.Timeline.LogNoteAdded | timeline.py:329-338 | a LogEvent of type note_add titled "Note added: <title>" |
| Turns.Timeline.LogLocationDiscovered | timeline.py:340-349 | a LogEvent of type location_discover titled "Discovered <name>" |
| Turns.Timeline.LogMapChange | timeline.py:351-362 | a LogEvent of type map_change with "Moved to" title and "Party moved from" description |
| Turns.Timeline.SaveTokenState | timeline.py:364-376 | succeeds exactly when live; then the store's history is upserted with a snapshot at the live turn; refused, nothing changes |
| Turns.Timeline.UpdateTokenPosition | timeline.py:378-408 | refused while scrubbing with nothing changed. Live: the placement moves and is marked moved at the live turn; one snapshot of (placement, live turn) holds the new position; a move event is logged exactly when a name is given and the listed old position differs; the position cache is emptied |
| Turns.Timeline.MoveAndSnapshot | timeline.py:384-399 | the old position is looked up only for a named token; the store's move and snapshot are followed by the timeline's own snapshot of the same key, which replaces it |
| Turns.Timeline.RecordMove | timeline.py:401-406 | the move event is logged exactly when there is a name, an old position and a real move; the cache is then empty and coherent |
| Turns.PositionOf | timeline.py:388-392 | the position of the first listed row with that id, None exactly when no row has it |
| Turns.Timeline.GetRecentEvents | timeline.py:410-420 | without a world []; otherwise the world's events from max(0, display turn - 5) to display turn + 1, with the given limit |
| Turns.Timeline.ResetInitiative | timeline.py:422-424 | the order becomes empty |
| Turns.Timeline.SetTokenInitiative | timeline.py:426-430 | the value is not stored; the order is reloaded as LoadInitiativeOrder does |
| Turns.Timeline.SaveCurrentState | timeline.py:432-439 | with a world and live: the world's game state row becomes (turn, map); otherwise nothing is written |
| Turns.Timeline.GetTimelineStatistics | timeline.py:474-511 | no world: the empty result. Otherwise total_turns == max_turn, total_events is the number of the world's events, the per-type counts are those events' tally and add up to total_events, and the most active turn is the smallest turn with the greatest count (none exactly when there are no events); this is the evident reading, as written the turn numbers are counted as types and the map ids as turns (Findings.MostActiveIsMapId) |
| Turns.CountEvents | timeline.py:489-503 | evident reading: the loop builds the per-type and per-turn tallies of the events (as written: Findings.CountAsWritten) |
| Turns.FirstMax | timeline.py:507 | the index of the first entry with the greatest count, as max() with a key returns it |
| Turns.MostActiveSpec | timeline.py:505-509 | evident reading: over turns in ascending order, the first maximal entry is a turn with the greatest count and no earlier turn ties it |
| Tally.TallyTotal | timeline.py:491-503 | the counts of a tally add up to the number of items counted |
| Tally.TallyCounts | timeline.py:491-503 | each key appears once and its count is its number of occurrences |
| Tally.TallyKeys | timeline.py:496-503 | the keys are exactly the distinct items counted |
| Tally.TallyKeysAscending | timeline.py:501-503 | counting a non-decreasing list gives strictly ascending keys |
| Store.Database.constructor | database.py:9-21 | a store opened on a new database file: all tables empty, with Valid and the table constraints holding |
| Store.Database.AddTimelineEvent | database.py:301-317 | appends the event with the next id and the clock reading and returns the id |
| Events.QueryContents | database.py:319-343 | without a positive limit the query returns exactly the world's events with start <= turn <= end (absent bounds do not filter), each as often as stored |
| Events.MatchingExact | database.py:322-331 | the filtered events are exactly those of the world within the bounds, with every stored copy kept |
| Events.MatchingCount | database.py:322-331 | the WHERE filter keeps every copy of an event in range and none outside |
| Events.QueryOrdered | database.py:333 | the result is ordered by turn, then timestamp |
| Events.QueryLimit | database.py:335-337 | a positive limit keeps the first limit rows of the unlimited result; None, 0 or a negative limit keeps all |
| Events.Lex2 | database.py:333 | the two-column key compares turn first, then timestamp |
| Store.Database.GetTimelineEvents | database.py:319-343 | the world's events in the turn range, ordered by turn then timestamp; with a positive limit at most that many; every row is a stored event in range, and when the limit does not cut, every stored event in range appears as often as stored |
| Store.Database.TimelineEventsPrefix | database.py:335-337 | a limited listing is the first rows of the unlimited one |
| Store.Database.GetMaxTurnNumber | database.py:345-355 | an upper bound of the world's event turns that is reached, or 0 when the world has no events |
| Events.MaxTurn | database.py:345-355 | an upper bound of the world's event turns that is reached, or 0 when the world has no events |
| Store.Database.AddTokenAction | database.py:358-369 | appends the action with the next id and the clock reading |
| Store.Database.GetTokenActions | database.py:371-391 | exactly the placement's stored actions, of the given turn when one is given, ordered by turn then time |
| Events.ActionsOfMembers | database.py:371-391 | the placement's actions (in that turn when given), each as often as stored |
| Events.SelectActionsExact | database.py:374-389 | the WHERE clause keeps exactly the placement's actions, restricted to the turn when one is given |
| Events.ActionsOfOrdered | database.py:374-387 | ordered by turn then time; with a turn given, by time |
| Store.Database.SaveTokenPosition | database.py:393-408 | the history becomes the upsert of the new snapshot; keys stay unique |
| History.UpsertSpec | database.py:399-403 | after a save the key holds only the new snapshot, every other key's snapshots are kept, and unique keys stay unique |
| History.UpsertTwice | database.py:393-408 | saving twice for one (placement, turn) equals saving the second time alone |
| History.Without | database.py:399-403 | the snapshots of every other key |
| Store.Database.GetTokenPositionAtTurn | database.py:410-422 | the placement's stored snapshot of the greatest turn <= the turn, None exactly when it has none at or before it |
| History.AsOf | database.py:410-422 | the placement's snapshot of the greatest turn <= t, None exactly when it has none at or before t |
| History.AsOfDeterminate | database.py:413-418 | with unique keys the as-of snapshot is the only one of its turn |
| Store.Database.GetAllTokenPositionsAtTurn | database.py:424-443 | with unique history keys: one row per row of the live listing of the map, in order, each matching the as-of snapshot |
| History.HistoricJoinUnique | database.py:424-443 | the join matches the live listing whenever the history keys are unique |
| History.HistoricJoinSpec | database.py:424-443 | with unique keys: one row per row of the live join, in order, with the as-of snapshot's columns, NULL without a snapshot |
| History.JoinOne | database.py:432-437 | one placement contributes exactly one row |
| Store.Database.SaveGameState | database.py:446-461 | the world's game state row is replaced by the new one (clock as last_updated) |
| Store.Database.GetGameState | database.py:463-473 | the world's row, None exactly when the world has none |
| Store.Database.UpdateTokenPosition | database.py:602-619 | the placement's x, y, has_moved and current_turn are updated and no other row changes; a snapshot at the turn is upserted; it reports success even when no placement has that id |
| Placements.MoveRow | database.py:606-610 | rows with that id take the four new values; every other row and column is unchanged |
| Store.Database.ResetTokenMovementFlags | database.py:621-633 | updates exactly as ResetFlags |
| Placements.ResetFlags | database.py:624-628 | every placement of the map is unmoved at the new turn; placements elsewhere are untouched |
| Store.Database.GetMapTokensWithHistory | database.py:636-655 | without a turn, the live listing by initiative; with one, exactly the as-of listing of get_all_token_positions_at_turn, which with unique history keys matches the live join row for row |
| Placements.LiveListingSpec | database.py:643-651 | the live listing holds exactly the map's placements with a template, joined with it, by initiative descending |
| Placements.LiveJoinMembers | database.py:643-649 | the inner join yields a row for exactly the placements of the map with a template, and each row is built from its placement and template |
| Placements.LiveListingStable | database.py:650 | placements of equal initiative keep table order |
| Placements.TemplateOf | database.py:648 | the joined template has the placement's token id; None exactly when no template has it |
| Store.Database.AddToken | database.py:1089-1099 | appends a template whose current hit points start at max_hp |
| Store.Database.AddMapToken | database.py:1105-1111 | appends an unmoved placement at turn 0 |
| Store.Database.CreateWorld | database.py:814-840 | a taken name gives None and writes nothing; otherwise the world is appended with the next id and the active map, when given, is assigned to it |
| Store.Database.WorldNameExists | database.py:937-945 | true exactly when some world has that name |
| Store.Database.InsertWorld | database.py:819-823 | the INSERT: the new world row with the next id |
| Store.Database.AssignMap | database.py:826-828 | the maps change exactly as AssignWorld says |
| Worlds.AssignWorld | database.py:827 | maps with that id get the world; others are unchanged |
| Store.Database.DeleteWorld | database.py:947-963 | the world's maps are unassigned, then the world row is removed |
| Worlds.Unassign | database.py:952 | exactly the world's maps lose their world |
| Worlds.DropWorld | database.py:955 | exactly the rows of other worlds remain |
| Worlds.DeleteWorldOrphans | database.py:947-963 | afterwards no map points at the world; each former map is kept and listed as unassigned |
| Store.DropWorldTable | database.py:955 | deleting a world keeps ids ascending and names unique |
| Store.WorldTableAppend | database.py:819-823 | a new world with a fresh name keeps names unique (name UNIQUE) |
| Store.Database.SaveOrUpdateMap | database.py:1011-1062 | None with nothing written when name or image path is missing or empty; an update in place for a truthy id (returned even when no row has it); otherwise an INSERT with the next id |
| Worlds.NewMap | database.py:1022-1054 | for each of the eight optional columns the given value is stored, and a missing key or an explicit None gives the column default (equal to the dict.get default); grid_enabled is 0 only for an explicit False; name, path, world, parent and id as given; created_at is the clock reading |
| Worlds.UpdatedMap | database.py:1022-1046 | for each of the eight optional columns: a given value is written, an explicit None keeps the old column, a missing key writes the dict.get default; grid_enabled is 0 only for an explicit False; a missing world or parent id keeps the old one; id and created_at are kept |
| Worlds.UpdateMaps | database.py:1043-1046 | rows with another id are untouched |
| Store.Database.GetUnassignedMaps | database.py:1064-1076 | one (id, name) row per map without a world: every such map is listed, every row comes from one, names ascend by code point |
| Worlds.UnassignedMapsPairs | database.py:1064-1076 | the same, for the listing of any maps table |
| Worlds.UnassignedMapsSpec | database.py:1064-1076 | exactly the maps without a world, ascending by name |
| Worlds.UnassignedMembers | database.py:1068-1074 | the sorted listing holds exactly the maps without a world |
| Worlds.Unassigned | database.py:1070 | exactly the maps whose world is NULL |
| Store.Database.AddLocationIcon | database.py:238-251 | appends the icon with the next id |
| Store.Database.UpdateLocationIcon | database.py:265-288 | the result and new icons are UpdateIcon's |
| Worlds.Whitelisted | database.py:268-275 | exactly the given keys among the eight accepted fields, with their values |
| Worlds.UpdateIcon | database.py:265-288 | false with nothing changed when no accepted key is given, a NOT NULL column would become NULL, or no icon has the id; true otherwise |
| Worlds.UpdateIconSpec | database.py:265-288 | a successful edit sets exactly the given accepted columns of that icon; all else is unchanged |
| Worlds.SetColumns | database.py:280-283 | only the icon with that id changes |
| Sorting.SortBy | database.py:333 | sorting is a permutation of its input |
| Sorting.SortBySorted | database.py:333 | the result is sorted by the key |
| Sorting.SortByStable | database.py:333 | for every key, its elements keep their input order |
| Sorting.SortBySortedIdentity | database.py:650 | sorting a sorted sequence changes nothing |
| Dice.StripLeftSpec | dice_roller.py:16 | lstrip removes exactly the leading white space |
| Dice.StripRightSpec | dice_roller.py:16 | rstrip removes exactly the trailing white space |
| Dice.MatchGroups | dice_roller.py:9-19 | the groups of a match are digits, digits and an optional signed number |
| Dice.MatchGroupsComplete | dice_roller.py:9-19 | the pattern matches every text of the shape counts 'd' sides [modifier] rest and captures those three groups |
| Dice.MatchGroupsSound | dice_roller.py:9-19 | every match is of that shape, with the captured groups at its front |
| Dice.ParseDiceString | dice_roller.py:13-37 | a spec exactly for a stripped, lowered text of the shape counts 'd' sides [modifier] rest, and then that text's numbers |
| Dice.MatchDiceShaped | dice_roller.py:19-37 | every match comes from a text of that shape and is read as it says |
| Dice.MatchDiceAllShapes | dice_roller.py:19-37 | every text of that shape is matched and read as its numbers |
| Dice.MatchDice | dice_roller.py:19-37 | a DiceSpec exactly when the pattern matches |
| Dice.MatchDiceComplete | dice_roller.py:19-37 | every text of the shape counts 'd' sides [modifier] rest is read as those numbers, modifier 0 when absent, whatever rest follows |
| Dice.MatchDiceSound | dice_roller.py:19-37 | every accepted text has that shape and is read as it says |
| Dice.ParseRender | dice_roller.py:13-37 | writing a DiceSpec out without leading zeros and parsing it back gives the same DiceSpec, whatever suitable text follows |
| Text.NatToString | dice_roller.py:24-25 | str(n) of a natural number is a non-empty run of digits with no leading zero |
| PyInt.FloorDiv | map_view.py:219-220 | Python's `//`: the quotient rounded toward minus infinity, for either sign of divisor |
| PyInt.Clamp | map_view.py:124-129 | max(lo, min(x, hi)) lies in [lo, hi] when lo <= hi and leaves x in range unchanged |
| Text.DigitsValueOfNatToString | dice_roller.py:24-25 | int(str(n)) == n |
| Dice.Validate | dice_roller.py:42-55 | the three refusal messages, each exactly under its condition; a parsed spec of 1..100 dice of at least one face is accepted as parsed, and only such specs are accepted |
| Dice.AddUp | dice_roller.py:61-74 | the loop computes sum(rolls) and the " + " join |
| Dice.RollWith | dice_roller.py:58-82 | the record holds the rolls, modifier and total = sum + modifier; the result is the report of that record |
| Dice.FormatRollShape | dice_roller.py:72-79 | the report begins with "Rolled <expr>: <total>" and has a bracketed detail exactly when there is more than one die or a nonzero modifier |
| Dice.NegativeModifierShown | dice_roller.py:77-79 | a negative modifier ends the detail as " - \|m\|)" |
| Dice.SingleDieReport | dice_roller.py:72-73 | one die without a modifier is reported as its bare value |
| Dice.DiceRoller.constructor | dice_roller.py:7-11 | no last roll and no last result |
| Dice.DiceRoller.Roll | dice_roller.py:39-82 | a refused expression returns its message and leaves the last roll as it was; an accepted one has num_dice values in [1, dice_type], is recorded with total = sum + modifier, and its report becomes the last result |
| Dice.DiceRoller.GetLastRoll | dice_roller.py:84-86 | the last roll, whose total is its dice plus modifier |
| Dice.DiceRoller.GetLastResult | dice_roller.py:88-90 | "No dice rolled yet." before any roll, the last report after |
| Widgets.TextInput.constructor | ui_elements.py:588-600 | the default text with the cursor after it, inactive |
| Widgets.TextInput.HandleEvent | ui_elements.py:627-662 | 0 <= cursor <= len(text) is kept. A left click focuses exactly when inside and puts the cursor at the end. While focused: Backspace removes the character before a cursor > 0; Delete removes the one at a cursor < len; Left/Right move by one clamped into [0, len]; Home and End go to the ends; Return leaves the input and submits; any other key inserts its text at the cursor, which passes the first character. Hidden, unfocused keys and other events change nothing |
| Widgets.Breadcrumb.constructor | ui_elements.py:473-476 | the stack is empty |
| Widgets.Breadcrumb.PushMap | ui_elements.py:478-480 | the map goes on top |
| Widgets.Breadcrumb.PopMap | ui_elements.py:482-486 | with more than one entry the top comes off and is returned, undoing its push; the root is never popped, and then the answer is None |
| Widgets.TimelineSlider.constructor | ui_elements.py:113-126 | both numbers are taken as given; no markers |
| Widgets.TimelineSlider.SetMaxTurns | ui_elements.py:196-199 | only max_turns changes |
| Widgets.TimelineSlider.SetCurrentTurn | ui_elements.py:201-204 | the turn is clamped into [0, max_turns]; in-range turns are kept, a negative maximum gives 0 |
| Widgets.TimelineSlider.AddTimelineEvent | ui_elements.py:206-209 | the markers gain exactly the new one, stay ordered by turn, and each turn's markers keep insertion order, the new one last |
| Widgets.SortedMarks | ui_elements.py:209 | sorting markers by turn orders them by turn |
| Widgets.ListBox.constructor | ui_elements.py:790-806 | scrolled to the top with nothing hovered or selected; max_visible = height // 30 |
| Widgets.ListBox.HandleEvent | ui_elements.py:852-893 | scroll stays in [0, max(0, (len - max_visible) * 30)] and hover and selection in [-1, len). Motion hovers the row under the mouse or -1; a left click selects only an existing row and reports it; buttons 4 and 5 scroll one row up or down, clamped; other events change nothing |
| Widgets.IndexOf | ui_elements.py:944 | list.index: the first position holding the value |
| Widgets.NextOption | ui_elements.py:944-945 | the next option is one of the options |
| Widgets.NextIndex | ui_elements.py:944-945 | one click moves the position among distinct options on by one, wrapping |
| Widgets.ToggledIndex | ui_elements.py:944-945 | after k clicks the position has moved on by k modulo the number of options |
| Widgets.ToggleCycles | ui_elements.py:944-945 | clicking cycles through all distinct options: back after len(options) clicks and never before |
| Widgets.ToggleButton.constructor | ui_elements.py:899-911 | the given options and value, not hovered |
| Widgets.ToggleButton.HandleEvent | ui_elements.py:933-952 | motion sets the hover; a left click inside moves to the next option and reports it (or the callback's answer); a value not among the options raises ValueError; other events change nothing |
| Camera.ScreenToMap | map_view.py:204-210 | the map pixel converts back to the screen point by MapToScreen |
| Camera.MapToScreenInverse | map_view.py:230-236 | a map pixel's screen point converts back to the pixel |
| Camera.MapToGrid | map_view.py:212-222 | None exactly for a grid size of 0 (ZeroDivisionError); for a positive size the pixel lies in the returned cell |
| Camera.GridToMap | map_view.py:224-228 | for a nonzero grid size, the cell's top-left pixel maps back to the cell |
| Camera.MapView.constructor | map_view.py:7-45 | camera at (0, 0), grid 50, no map, no panning |
| Camera.MapView.ClampCamera | map_view.py:114-129 | with a map each offset is pulled into [0, max(0, map size - view size)], staying put when already there; without a map nothing changes |
| Camera.MapView.HandleEvent | map_view.py:48-112 | arrow keys set and clear their panning flag; inside the map area the middle button starts panning, a left click reports the grid cell under the mouse, and a left or right click fails for grid size 0; releasing the middle button stops panning; a panning motion subtracts the mouse delta and clamps; the wheel over the map scrolls vertically and clamps; the bounds are kept and other events move nothing |
| Camera.MapView.FlagsAfter | map_view.py:51-68 | pressing or releasing an arrow key sets its own flag only |
| Camera.MapView.LoadMapData | map_view.py:158-202 | the grid size entry or 50; the map size is the loaded image's size, or 0 with no map; the camera is back at (0, 0) and in bounds |
| Findings.AppendedSavesDuplicateRow | database.py:393-408 | as written, the two saves of one move list the placement twice in the as-of listing |
| Findings.FirstState | database.py:463-470 | as written, the first row of the world in table order, None exactly when it has none |
| Findings.LaterSavesUnread | database.py:446-470 | as written, once a world has a row, no later save changes what is read back |
| Findings.ReloadResumesFirstSave | database.py:446-473 | as written, after saves at turns 1 and 2 the world reloads at turn 1 |
| Findings.LoadRaisedIff | timeline.py:83-94 | as written, the load raises exactly when some row's description is a text `json.loads` rejects at its first character |
| Findings.LoadKeyedByMap | timeline.py:83-94 | as written and without a raise, a key of the cache is a map id (None for an event without a map) that some row has, and holds those rows' entries in query order, each read one column off |
| Findings.LoadLoop | timeline.py:83-94 | the loop as written builds that cache, stopping at the first raise |
| Findings.RaisedStays | timeline.py:83-94 | once the load has raised, the rows after it change nothing |
| Findings.MoveDescriptionRaises | timeline.py:268 | a move's description is not JSON |
| Findings.MoveEventBreaksLoad | timeline.py:74-94 | as written, a world whose events include a token move is never loaded: the load raises |
| Findings.TurnLookupReadsMap | timeline.py:199-201 | as written, the lookup of turn t in a loaded cache gives the events of map t |
| Findings.CountAsWritten | timeline.py:489-503 | the counting loop as written tallies turn numbers as types and map ids as turns |
| Findings.MostActiveIsMapId | timeline.py:491-509 | as written, two turn_start events at turns 1 and 2 on map 7 are counted as types 1 and 2 and give map 7 as the most active turn with 2 events |

## Left out

- I/O, printing, fonts and drawing: the `draw` methods, `print` diagnostics, image loading (`MapView._load_image` and the image search of `load_map_data` are reduced to the size of the image found), the SQLite connection, commits and migrations.
- Randomness: `random.randint` in `roll` is the `values` parameter, each value constrained to [1, dice_type].
- Clock: `datetime('now')`, `CURRENT_TIMESTAMP` and `datetime.now()` are one counter; the cache entry of `log_event` carries that counter reading instead of an ISO time string.
- JSON: `event_data`, `status_effects` and `state_data` are opaque values; `json.dumps`/`json.loads` are not modelled, and neither is `export_timeline`, which only serializes.
- Floating point: `_calculate_distance` (so `log_token_moved` records no distance), `MapView.update` (`speed * time_delta`), `map_scale`/`grid_opacity` beyond being stored, and the slider's pixel arithmetic (`_update_handle_position`, `_update_turn_from_pos`, dragging in its `handle_event`).
- Callbacks into the application: `app.handle_map_click` is the returned `Click`; `ListBox.on_select` is not modelled (the returned action carries the item); the value `ToggleButton.action` returns is opaque (`ToggleCallback`).
- `Timeline.update` does nothing and is not modelled.
- Errors the store catches other than the two the model reaches (a duplicate world name and a NOT NULL column set to NULL): every other write reports success.
- Persistence: `Database()` may open a file that already holds rows; the constructor models a new file, and any later state is reached through the modelled writes.
- Foreign keys: SQLite enforces them only with `PRAGMA foreign_keys`, which the code never issues, so `ON DELETE CASCADE`/`SET NULL` do nothing and are not modelled.
- Database queries outside the turn engine: notes, sub-maps and the map hierarchy, `get_location_icons`, `delete_location_icon`, `get_worlds_simple`, `get_all_worlds`, `load_world`, `get_maps`, `get_map_by_id`, `get_tokens`. They are not part of this model.
- `map_to_grid_coords` accepting either a tuple or two numbers: only the (x, y) point form is modelled.
- A `grid_size` entry present with the value None (a TypeError at the first conversion): `LoadMapData` takes the entry as present with a number or absent.
- Dice.ParseDiceString: `\d` and `int()` also accept non-ASCII Unicode digits and `str.lower` maps all of Unicode; the model reads ASCII digits and lowers A-Z only, which decides the match for every ASCII input.
- Turns.Timeline.SaveTokenState: does not promise CacheCoherent, because `save_token_state` leaves `token_positions_cache` as it is; inside the core its only caller, `update_token_position`, clears the cache right afterwards.
- Widgets.TextInput.HandleEvent: a click puts the cursor at the end of the text, as the source's own simplification does; no click-to-position.
- Widgets.ListBox.HandleEvent: `items` is fixed at construction; a caller mutating the list it passed in (aliasing) is not modelled.
- JSON decoding of descriptions in `Findings`: a description that begins like a JSON value but is not one ("1 goblin") also makes `json.loads` raise; the model counts only texts rejected at their first character, so every raise it shows is one the code has.
- `MapInput.gridEnabled` is an `Option<bool>`: an explicit `grid_enabled: None`, for which `int(map_data.get('grid_enabled', True))` raises a TypeError outside the `try` of `save_or_update_map`, cannot be expressed.
- Turns.Timeline.GetRecentEvents: the Python default `limit=10` (timeline.py:410) is not modelled; every caller passes the limit.
- SQL tie order: table order for rows with equal `ORDER BY` keys, and for `fetchone` without `ORDER BY`, is assumed to be insertion order, which SQLite does not guarantee.

## Findings

| source | as written | input that shows it | evidently intended | confidence | as-written member | corrected member |
|---|---|---|---|---|---|---|
| database.py:393-408 | `token_position_history` has no UNIQUE key on (map_token_id, turn_number), so `INSERT OR REPLACE` never replaces: every save appends | one `Timeline.update_token_position` of placement 1 at turn 3 saves twice (database.py:613, timeline.py:399); `get_all_token_positions_at_turn(1, 3)` then returns two rows for the one placement | one snapshot per (placement, turn), a later save replacing the earlier, and one listing row per placement | not executed | Findings.AppendedSavesDuplicateRow | History.HistoricJoinSpec |
| database.py:446-473 | `game_state` has no UNIQUE key on world_id, so every save appends, and `get_game_state` reads the first row with `fetchone` and no ORDER BY | `next_turn` saves world 1 at turn 1 and then turn 2; `load_world_state` reads back turn 1 and resumes a turn behind | one row per world, overwritten by each save, so the last save is read back | not executed | Findings.ReloadResumesFirstSave | Store.Database.SaveGameState |
| timeline.py:83-94 | `load_map_timeline` reads the `SELECT *` rows as if `map_id` were not a column: the key is the map id, `'data'` is `json.loads` of the description, and every other field is the column before its own | a world with one `log_token_moved` event: `json.loads("Moved from (1, 2) to (3, 4)")` raises and `set_map` fails; with only empty descriptions, `get_timeline_events_for_turn(7)` returns the events of map 7 | the cache keyed by `turn_number`, each entry's fields from its own columns, and `'data'` from `event_data` | not executed | Findings.MoveEventBreaksLoad | Rotation.EventsForGroup |
| timeline.py:491-509 | `get_timeline_statistics` reads `event[3]`, the turn number, as the type and `event[2]`, the map id, as the turn | two `turn_start` events at turns 1 and 2 on map 7: the types counted are 1 and 2, and the most active turn is 7 with 2 events | counts per `event_type`, and the most active turn among `turn_number`s | not executed | Findings.MostActiveIsMapId | Turns.MostActiveSpec |
