/**
 * The pure parts of the turn engine: whose turn it is, the per-turn event cache and the turn
 * summary, as functions of the timeline's state.
 */
module Rotation {
  import opened Wrappers
  import opened Records
  import opened PyInt

  /** `get_current_token_at_turn`: None for an empty order or a turn not after 0. */
  function ActorAt(order: seq<Id>, turn: int): (r: Option<Id>)
    ensures r.None? <==> order == [] || turn <= 0
    ensures r.Some? ==> r.value in order
  {
    if order == [] || turn <= 0 then None else Some(order[(turn - 1) % |order|])
  }

  /** The live branch of `get_current_token`, which has no guard on the turn. */
  function LiveActor(order: seq<Id>, turn: int): (r: Option<Id>)
    ensures r.None? <==> order == []
  {
    if order == [] then None else Some(order[(turn - 1) % |order|])
  }

  /** Turn k of the first round belongs to the k-th entry of the order. */
  lemma ActorAtFirstRound(order: seq<Id>, k: int)
    requires 1 <= k <= |order|
    ensures ActorAt(order, k) == Some(order[k - 1])
  {
  }

  /** The rotation repeats every |order| turns. */
  lemma ActorAtWraps(order: seq<Id>, turn: int)
    requires turn > 0
    ensures ActorAt(order, turn + |order|) == ActorAt(order, turn)
  {
    if order != [] {
      var n := |order|;
      var q, r := (turn - 1) / n, (turn - 1) % n;
      ModUnique(turn + n - 1, n, q + 1, r);
    }
  }

  /**
   * For turns after 0 the live and historical answers agree; at turn 0 the live branch, having
   * no guard, names the last entry of the order where the historical one names nobody.
   */
  lemma LiveActorAgrees(order: seq<Id>, turn: int)
    ensures turn > 0 ==> LiveActor(order, turn) == ActorAt(order, turn)
    ensures order != [] ==> LiveActor(order, 0) == Some(order[|order| - 1]) && ActorAt(order, 0).None?
  {
    if order != [] {
      var n := |order|;
      ModUnique(-1, n, -1, n - 1);
    }
  }

  /** An entry of the per-turn event cache `timeline_cache[turn]`. */
  datatype CacheEntry = CacheEntry(id: Id, eventType: string, title: string, description: string, data: EventData, timestamp: nat)

  function EntryOf(e: TimelineEvent): CacheEntry {
    CacheEntry(e.id, e.eventType, e.title, e.description, e.data, e.timestamp)
  }

  /** The entries of the events of turn `t`, in list order. */
  function EntriesAt(es: seq<TimelineEvent>, t: int): seq<CacheEntry> {
    if es == [] then []
    else EntriesAt(es[..|es| - 1], t) + (if es[|es| - 1].turn == t then [EntryOf(es[|es| - 1])] else [])
  }

  /** The cache `load_map_timeline` builds: events appended under their turn, in list order. */
  function GroupByTurn(es: seq<TimelineEvent>): (g: map<int, seq<CacheEntry>>)
    ensures forall t :: t in g <==> EntriesAt(es, t) != []
    ensures forall t :: t in g ==> g[t] == EntriesAt(es, t)
  {
    if es == [] then map[]
    else
      var g := GroupByTurn(es[..|es| - 1]);
      var e := es[|es| - 1];
      g[e.turn := (if e.turn in g then g[e.turn] else []) + [EntryOf(e)]]
  }

  /** The cache after `log_event` appends `entry` under turn `t`, creating the list if needed. */
  function Appended(cache: map<int, seq<CacheEntry>>, t: int, entry: CacheEntry): (r: map<int, seq<CacheEntry>>)
    ensures r.Keys == cache.Keys + {t}
    ensures forall u :: u in r ==> EventsFor(r, u) == EventsFor(cache, u) + (if u == t then [entry] else [])
  {
    cache[t := EventsFor(cache, t) + [entry]]
  }

  /** Logging one more event keeps the cache equal to the grouping of the events logged so far. */
  lemma GroupByTurnAppend(es: seq<TimelineEvent>, e: TimelineEvent)
    ensures GroupByTurn(es + [e]) == Appended(GroupByTurn(es), e.turn, EntryOf(e))
  {
    assert (es + [e])[..|es|] == es;
  }

  /** A turn's cached list holds exactly the entries of the events of that turn. */
  lemma {:induction false} EntriesAtMembers(es: seq<TimelineEvent>, t: int)
    ensures forall c :: c in EntriesAt(es, t) <==> exists i :: 0 <= i < |es| && es[i].turn == t && c == EntryOf(es[i])
  {
    if es != [] {
      var init := es[..|es| - 1];
      EntriesAtMembers(init, t);
      forall c ensures c in EntriesAt(es, t) <==> exists i :: 0 <= i < |es| && es[i].turn == t && c == EntryOf(es[i]) {
        if c in EntriesAt(init, t) {
          var i :| 0 <= i < |init| && init[i].turn == t && c == EntryOf(init[i]);
          assert es[i] == init[i];
        }
        if exists i :: 0 <= i < |es| && es[i].turn == t && c == EntryOf(es[i]) {
          var i :| 0 <= i < |es| && es[i].turn == t && c == EntryOf(es[i]);
          if i < |init| {
            assert init[i] == es[i];
          }
        }
      }
    }
  }

  /** `get_timeline_events_for_turn` on a freshly loaded cache answers the events of that turn. */
  lemma EventsForGroup(es: seq<TimelineEvent>, t: int)
    ensures EventsFor(GroupByTurn(es), t) == EntriesAt(es, t)
  {
  }

  /** `dict.get(turn, [])` on the cache. */
  function EventsFor(cache: map<int, seq<CacheEntry>>, t: int): seq<CacheEntry> {
    if t in cache then cache[t] else []
  }

  datatype SummaryRow = SummaryRow(turn: int, eventCount: nat, events: seq<CacheEntry>)

  /** The summary of turns `lo..hi`: one row per turn with cached events, in ascending turn order. */
  function SummaryRows(cache: map<int, seq<CacheEntry>>, lo: int, hi: int): seq<SummaryRow>
    decreases hi - lo + 1
  {
    if hi < lo then []
    else
      var evs := EventsFor(cache, hi);
      SummaryRows(cache, lo, hi - 1) + (if evs != [] then [SummaryRow(hi, |evs|, evs)] else [])
  }

  /** Every row is a turn of `lo..hi` that has cached events, with those events and their number. */
  ghost predicate RowsFaithful(cache: map<int, seq<CacheEntry>>, lo: int, hi: int, rows: seq<SummaryRow>) {
    forall i :: 0 <= i < |rows| ==>
      && lo <= rows[i].turn <= hi
      && rows[i].events == EventsFor(cache, rows[i].turn) && rows[i].events != []
      && rows[i].eventCount == |rows[i].events|
  }

  ghost predicate RowsAscending(rows: seq<SummaryRow>) {
    forall i, j :: 0 <= i < j < |rows| ==> rows[i].turn < rows[j].turn
  }

  /** Every row of the summary is a turn of the range with cached events, carrying those events. */
  lemma {:induction false} SummaryRowsFaithful(cache: map<int, seq<CacheEntry>>, lo: int, hi: int)
    ensures RowsFaithful(cache, lo, hi, SummaryRows(cache, lo, hi))
    decreases hi - lo + 1
  {
    if lo <= hi {
      var rows, rest := SummaryRows(cache, lo, hi), SummaryRows(cache, lo, hi - 1);
      var evs := EventsFor(cache, hi);
      assert rows == rest + (if evs != [] then [SummaryRow(hi, |evs|, evs)] else []);
      SummaryRowsFaithful(cache, lo, hi - 1);
      forall i | 0 <= i < |rows|
        ensures && lo <= rows[i].turn <= hi
          && rows[i].events == EventsFor(cache, rows[i].turn) && rows[i].events != []
          && rows[i].eventCount == |rows[i].events|
      {
        if i < |rest| {
          assert rows[i] == rest[i];
        }
      }
    }
  }

  /** The rows come in strictly ascending turn order. */
  lemma {:induction false} SummaryRowsAscending(cache: map<int, seq<CacheEntry>>, lo: int, hi: int)
    ensures RowsAscending(SummaryRows(cache, lo, hi))
    decreases hi - lo + 1
  {
    if lo <= hi {
      var rows, rest := SummaryRows(cache, lo, hi), SummaryRows(cache, lo, hi - 1);
      var evs := EventsFor(cache, hi);
      assert rows == rest + (if evs != [] then [SummaryRow(hi, |evs|, evs)] else []);
      SummaryRowsAscending(cache, lo, hi - 1);
      SummaryRowsFaithful(cache, lo, hi - 1);
      forall i, j | 0 <= i < j < |rows| ensures rows[i].turn < rows[j].turn {
        assert rows[i] == rest[i];
        if j < |rest| {
          assert rows[j] == rest[j];
        }
      }
    }
  }

  /** No turn of the range with cached events is missing from the summary. */
  lemma {:induction false} SummaryRowsComplete(cache: map<int, seq<CacheEntry>>, lo: int, hi: int, t: int)
    requires lo <= t <= hi && EventsFor(cache, t) != []
    ensures exists i :: 0 <= i < |SummaryRows(cache, lo, hi)| && SummaryRows(cache, lo, hi)[i].turn == t
    decreases hi - lo + 1
  {
    var rows := SummaryRows(cache, lo, hi);
    var rest := SummaryRows(cache, lo, hi - 1);
    var evs := EventsFor(cache, hi);
    assert rows == rest + (if evs != [] then [SummaryRow(hi, |evs|, evs)] else []);
    if t == hi {
      assert rows[|rows| - 1].turn == t;
    } else {
      SummaryRowsComplete(cache, lo, hi - 1, t);
      var i :| 0 <= i < |rest| && rest[i].turn == t;
      assert rows[i] == rest[i];
    }
  }
}
