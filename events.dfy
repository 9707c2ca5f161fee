/** The timeline_events and token_actions tables: append-only logs and their range queries. */
module Events {
  import opened Wrappers
  import opened Records
  import opened Sorting

  /** `ORDER BY turn_number ASC, timestamp ASC`. */
  function EventKey(e: TimelineEvent): seq<int> { [e.turn, e.timestamp] }

  /** The WHERE clause of `get_timeline_events`; an absent bound does not filter. */
  predicate InRange(e: TimelineEvent, world: Id, start: Option<int>, end: Option<int>) {
    && e.worldId == world
    && (start.None? || e.turn >= start.value)
    && (end.None? || e.turn <= end.value)
  }

  function Matching(events: seq<TimelineEvent>, world: Id, start: Option<int>, end: Option<int>): seq<TimelineEvent> {
    if events == [] then []
    else (if InRange(events[0], world, start, end) then [events[0]] else []) + Matching(events[1..], world, start, end)
  }

  /** `LIMIT ?` is only added for a truthy limit, and SQLite reads a negative limit as no limit. */
  function Limit<T>(s: seq<T>, limit: Option<int>): seq<T> {
    if limit.Some? && 0 < limit.value < |s| then s[..limit.value] else s
  }

  /** `get_timeline_events(world_id, start_turn, end_turn, limit)`. */
  function Query(events: seq<TimelineEvent>, world: Id, start: Option<int>, end: Option<int>, limit: Option<int>): seq<TimelineEvent> {
    Limit(SortBy(Matching(events, world, start, end), EventKey), limit)
  }

  /** Two-column keys compare column by column. */
  lemma Lex2(a: int, b: int, c: int, d: int)
    ensures LexLe([a, b], [c, d]) <==> a < c || (a == c && b <= d)
  {
    if a == c {
      assert [a, b][1..] == [b] && [c, d][1..] == [d];
      assert LexLe([a, b], [c, d]) == LexLe([b], [d]);
      assert [b][1..] == [] && [d][1..] == [];
      assert LexLe([b], [d]) == (b <= d);
    }
  }

  /** The filter keeps every copy of an event in range and no copy of one outside it. */
  lemma {:induction false} MatchingCount(events: seq<TimelineEvent>, world: Id, start: Option<int>, end: Option<int>, e: TimelineEvent)
    ensures multiset(Matching(events, world, start, end))[e] == if InRange(e, world, start, end) then multiset(events)[e] else 0
  {
    if events != [] {
      var head := if InRange(events[0], world, start, end) then [events[0]] else [];
      MatchingCount(events[1..], world, start, end, e);
      assert Matching(events, world, start, end) == head + Matching(events[1..], world, start, end);
      SplitHead(events);
    }
  }

  lemma SplitHead<T>(s: seq<T>)
    requires s != []
    ensures multiset(s) == multiset{s[0]} + multiset(s[1..])
  {
    assert s == [s[0]] + s[1..];
  }

  lemma MatchingExact(events: seq<TimelineEvent>, world: Id, start: Option<int>, end: Option<int>)
    ensures multiset(Matching(events, world, start, end)) <= multiset(events)
    ensures forall e :: e in Matching(events, world, start, end) <==> e in events && InRange(e, world, start, end)
    ensures forall e :: InRange(e, world, start, end) ==> multiset(Matching(events, world, start, end))[e] == multiset(events)[e]
    ensures forall e :: !InRange(e, world, start, end) ==> multiset(Matching(events, world, start, end))[e] == 0
  {
    var m := Matching(events, world, start, end);
    forall e ensures multiset(m)[e] == if InRange(e, world, start, end) then multiset(events)[e] else 0 {
      MatchingCount(events, world, start, end, e);
    }
    forall e ensures e in m <==> e in events && InRange(e, world, start, end) {
      assert e in m <==> e in multiset(m);
      assert e in events <==> e in multiset(events);
    }
  }

  /**
   * Without a positive limit the query returns exactly the world's events whose turn lies within
   * the given bounds, each as often as it is stored.
   */
  lemma QueryContents(events: seq<TimelineEvent>, world: Id, start: Option<int>, end: Option<int>, limit: Option<int>)
    requires limit.None? || limit.value <= 0
    ensures forall e :: e in Query(events, world, start, end, limit) <==> e in events && InRange(e, world, start, end)
    ensures forall e :: InRange(e, world, start, end) ==> multiset(Query(events, world, start, end, limit))[e] == multiset(events)[e]
    ensures forall e :: !InRange(e, world, start, end) ==> multiset(Query(events, world, start, end, limit))[e] == 0
  {
    var m := Matching(events, world, start, end);
    var r := Query(events, world, start, end, limit);
    assert r == SortBy(m, EventKey);
    MatchingExact(events, world, start, end);
    SameMembers(r, m);
  }

  /** Sequences with the same multiset have the same members. */
  lemma SameMembers<T>(a: seq<T>, b: seq<T>)
    requires multiset(a) == multiset(b)
    ensures forall x :: x in a <==> x in b
  {
    forall x ensures x in a <==> x in b {
      assert x in a <==> x in multiset(a);
      assert x in b <==> x in multiset(b);
    }
  }

  /** The result is ordered by turn and, within a turn, by timestamp. */
  lemma QueryOrdered(events: seq<TimelineEvent>, world: Id, start: Option<int>, end: Option<int>, limit: Option<int>)
    ensures var r := Query(events, world, start, end, limit);
      forall i, j :: 0 <= i < j < |r| ==>
        r[i].turn < r[j].turn || (r[i].turn == r[j].turn && r[i].timestamp <= r[j].timestamp)
  {
    var full := SortBy(Matching(events, world, start, end), EventKey);
    SortBySorted(Matching(events, world, start, end), EventKey);
    var r := Query(events, world, start, end, limit);
    assert forall i :: 0 <= i < |r| ==> r[i] == full[i];
    forall i, j | 0 <= i < j < |r|
      ensures r[i].turn < r[j].turn || (r[i].turn == r[j].turn && r[i].timestamp <= r[j].timestamp)
    {
      assert LexLe(EventKey(full[i]), EventKey(full[j]));
      Lex2(r[i].turn, r[i].timestamp, r[j].turn, r[j].timestamp);
    }
  }

  /** A positive limit keeps the first `limit` rows of the unlimited result; zero, None or a negative limit keeps all. */
  lemma QueryLimit(events: seq<TimelineEvent>, world: Id, start: Option<int>, end: Option<int>, limit: Option<int>)
    ensures var full := Query(events, world, start, end, None);
      var r := Query(events, world, start, end, limit);
      && (limit.Some? && limit.value > 0 ==> |r| == if limit.value < |full| then limit.value else |full|)
      && (limit.None? || limit.value <= 0 ==> r == full)
      && r == full[..|r|]
  {
  }

  /** `get_max_turn_number`: `MAX(turn_number)` over the world's events, 0 when it has none. */
  function MaxTurn(events: seq<TimelineEvent>, world: Id): (r: int)
    ensures forall e :: e in events && e.worldId == world ==> e.turn <= r
    ensures (exists e :: e in events && e.worldId == world && e.turn == r)
         || (r == 0 && forall e :: e in events ==> e.worldId != world)
  {
    if events == [] then 0
    else
      var rest := MaxTurn(events[1..], world);
      var e := events[0];
      assert forall x :: x in events ==> x == e || x in events[1..];
      if e.worldId != world then rest
      else if forall x :: x in events[1..] ==> x.worldId != world then e.turn
      else if e.turn >= rest then e.turn
      else rest
  }

  /** `ORDER BY timestamp ASC`, used for one placement's actions in one turn. */
  function TimestampKey(a: TokenAction): seq<int> { [a.timestamp] }

  /** `ORDER BY turn_number ASC, timestamp ASC`, used for all of one placement's actions. */
  function ActionKey(a: TokenAction): seq<int> { [a.turn, a.timestamp] }

  predicate ActionSelected(a: TokenAction, mapTokenId: Id, turn: Option<int>) {
    a.mapTokenId == mapTokenId && (turn.None? || a.turn == turn.value)
  }

  function SelectActions(actions: seq<TokenAction>, mapTokenId: Id, turn: Option<int>): seq<TokenAction> {
    if actions == [] then []
    else
      var head := if ActionSelected(actions[0], mapTokenId, turn) then [actions[0]] else [];
      head + SelectActions(actions[1..], mapTokenId, turn)
  }

  /** `get_token_actions(map_token_id, turn_number)`. */
  function ActionsOf(actions: seq<TokenAction>, mapTokenId: Id, turn: Option<int>): seq<TokenAction> {
    var selected := SelectActions(actions, mapTokenId, turn);
    if turn.Some? then SortBy(selected, TimestampKey) else SortBy(selected, ActionKey)
  }

  lemma {:induction false} SelectActionsExact(actions: seq<TokenAction>, mapTokenId: Id, turn: Option<int>)
    ensures forall a :: a in SelectActions(actions, mapTokenId, turn) <==> a in actions && ActionSelected(a, mapTokenId, turn)
  {
    if actions != [] {
      SelectActionsExact(actions[1..], mapTokenId, turn);
      assert actions == [actions[0]] + actions[1..];
    }
  }

  /** The placement's actions (in that turn, when one is given), each as often as it is stored. */
  lemma ActionsOfMembers(actions: seq<TokenAction>, mapTokenId: Id, turn: Option<int>)
    ensures forall a :: a in ActionsOf(actions, mapTokenId, turn) <==> a in actions && ActionSelected(a, mapTokenId, turn)
  {
    var selected := SelectActions(actions, mapTokenId, turn);
    SelectActionsExact(actions, mapTokenId, turn);
    var r := ActionsOf(actions, mapTokenId, turn);
    assert multiset(r) == multiset(selected);
    assert forall a :: a in r <==> a in multiset(selected);
  }

  /** Ordered by turn and then by time; with a turn given all rows share it and time alone orders them. */
  lemma ActionsOfOrdered(actions: seq<TokenAction>, mapTokenId: Id, turn: Option<int>)
    ensures var r := ActionsOf(actions, mapTokenId, turn);
      forall i, j :: 0 <= i < j < |r| ==>
        r[i].turn < r[j].turn || (r[i].turn == r[j].turn && r[i].timestamp <= r[j].timestamp)
  {
    var selected := SelectActions(actions, mapTokenId, turn);
    var r := ActionsOf(actions, mapTokenId, turn);
    if turn.Some? {
      ActionsOfMembers(actions, mapTokenId, turn);
      SortBySorted(selected, TimestampKey);
      forall i, j | 0 <= i < j < |r| ensures r[i].turn == r[j].turn && r[i].timestamp <= r[j].timestamp {
        assert r[i] in r && r[j] in r;
        assert LexLe(TimestampKey(r[i]), TimestampKey(r[j]));
        assert [r[i].timestamp][1..] == [] && [r[j].timestamp][1..] == [];
      }
    } else {
      SortBySorted(selected, ActionKey);
      forall i, j | 0 <= i < j < |r|
        ensures r[i].turn < r[j].turn || (r[i].turn == r[j].turn && r[i].timestamp <= r[j].timestamp)
      {
        assert LexLe(ActionKey(r[i]), ActionKey(r[j]));
        Lex2(r[i].turn, r[i].timestamp, r[j].turn, r[j].timestamp);
      }
    }
  }
}
