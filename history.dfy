/**
 * The token_position_history table: per-turn snapshots of placements, saved as an upsert keyed by
 * (map_token_id, turn_number), and the as-of-turn queries over them.
 */
module History {
  import opened Wrappers
  import opened Records
  import opened Placements

  predicate SameKey(s: Snapshot, mapTokenId: Id, turn: int) {
    s.mapTokenId == mapTokenId && s.turn == turn
  }

  /** No two snapshots share a (placement, turn) key. */
  ghost predicate UniqueKeys(h: seq<Snapshot>) {
    forall i, j :: 0 <= i < j < |h| ==> !SameKey(h[j], h[i].mapTokenId, h[i].turn)
  }

  function Without(h: seq<Snapshot>, mapTokenId: Id, turn: int): (r: seq<Snapshot>)
    ensures forall s :: s in r <==> s in h && !SameKey(s, mapTokenId, turn)
  {
    if h == [] then []
    else
      assert forall s :: s in h ==> s == h[0] || s in h[1..];
      (if SameKey(h[0], mapTokenId, turn) then [] else [h[0]]) + Without(h[1..], mapTokenId, turn)
  }

  /** `save_token_position` read as an upsert: the old snapshot of that key, if any, is replaced. */
  function Upsert(h: seq<Snapshot>, s: Snapshot): seq<Snapshot> {
    Without(h, s.mapTokenId, s.turn) + [s]
  }

  lemma {:induction false} WithoutSubsequence(h: seq<Snapshot>, mapTokenId: Id, turn: int)
    requires UniqueKeys(h)
    ensures UniqueKeys(Without(h, mapTokenId, turn))
  {
    if h != [] {
      WithoutSubsequence(h[1..], mapTokenId, turn);
      var rest := Without(h[1..], mapTokenId, turn);
      if !SameKey(h[0], mapTokenId, turn) {
        forall j | 0 <= j < |rest| ensures !SameKey(rest[j], h[0].mapTokenId, h[0].turn) {
          assert rest[j] in h[1..];
        }
        assert Without(h, mapTokenId, turn) == [h[0]] + rest;
      }
    }
  }

  /**
   * After a save the snapshot of its key holds the new values and is the only one of that key;
   * snapshots of every other key are kept; keys stay unique.
   */
  lemma UpsertSpec(h: seq<Snapshot>, s: Snapshot)
    ensures s in Upsert(h, s)
    ensures forall x :: x in Upsert(h, s) && SameKey(x, s.mapTokenId, s.turn) ==> x == s
    ensures forall x :: !SameKey(x, s.mapTokenId, s.turn) ==> (x in Upsert(h, s) <==> x in h)
    ensures UniqueKeys(h) ==> UniqueKeys(Upsert(h, s))
  {
    if UniqueKeys(h) {
      WithoutSubsequence(h, s.mapTokenId, s.turn);
      var w := Without(h, s.mapTokenId, s.turn);
      forall i | 0 <= i < |w| ensures !SameKey(s, w[i].mapTokenId, w[i].turn) {
        assert w[i] in w;
      }
    }
  }

  lemma {:induction false} WithoutAppend(h: seq<Snapshot>, s: Snapshot, mapTokenId: Id, turn: int)
    ensures Without(h + [s], mapTokenId, turn) == Without(h, mapTokenId, turn) + (if SameKey(s, mapTokenId, turn) then [] else [s])
  {
    if h != [] {
      TailOfAppend(h, s);
      WithoutAppend(h[1..], s, mapTokenId, turn);
    }
  }

  lemma TailOfAppend<T>(h: seq<T>, s: T)
    requires h != []
    ensures (h + [s])[0] == h[0] && (h + [s])[1..] == h[1..] + [s]
  {
  }

  lemma {:induction false} WithoutTwice(h: seq<Snapshot>, mapTokenId: Id, turn: int)
    ensures Without(Without(h, mapTokenId, turn), mapTokenId, turn) == Without(h, mapTokenId, turn)
  {
    if h != [] {
      WithoutTwice(h[1..], mapTokenId, turn);
      if !SameKey(h[0], mapTokenId, turn) {
        var w := Without(h, mapTokenId, turn);
        assert w == [h[0]] + Without(h[1..], mapTokenId, turn);
        assert w[0] == h[0] && w[1..] == Without(h[1..], mapTokenId, turn);
        assert Without(w, mapTokenId, turn) == [w[0]] + Without(w[1..], mapTokenId, turn);
      } else {
        var w := Without(h, mapTokenId, turn);
        assert w == Without(h[1..], mapTokenId, turn);
        assert Without(w, mapTokenId, turn) == Without(Without(h[1..], mapTokenId, turn), mapTokenId, turn);
      }
    }
  }

  /**
   * Saving twice for the same placement and turn leaves what saving the second time alone would:
   * the double save of a move (the store's own and the timeline's) leaves one snapshot.
   */
  lemma UpsertTwice(h: seq<Snapshot>, s1: Snapshot, s2: Snapshot)
    requires s1.mapTokenId == s2.mapTokenId && s1.turn == s2.turn
    ensures Upsert(Upsert(h, s1), s2) == Upsert(h, s2)
  {
    var w := Without(h, s1.mapTokenId, s1.turn);
    WithoutAppend(w, s1, s1.mapTokenId, s1.turn);
    WithoutTwice(h, s1.mapTokenId, s1.turn);
  }

  /**
   * `get_token_position_at_turn`: the placement's snapshot of the greatest turn not after `t`
   * (`WHERE turn_number <= ? ORDER BY turn_number DESC LIMIT 1`), or none.
   */
  function AsOf(h: seq<Snapshot>, mapTokenId: Id, t: int): (r: Option<Snapshot>)
    ensures r.Some? ==> r.value in h && r.value.mapTokenId == mapTokenId && r.value.turn <= t
    ensures r.Some? ==> forall x :: x in h && x.mapTokenId == mapTokenId && x.turn <= t ==> x.turn <= r.value.turn
    ensures r.None? <==> forall x :: x in h && x.mapTokenId == mapTokenId ==> x.turn > t
  {
    if h == [] then None
    else
      var rest := AsOf(h[1..], mapTokenId, t);
      assert forall x :: x in h ==> x == h[0] || x in h[1..];
      var s := h[0];
      if s.mapTokenId == mapTokenId && s.turn <= t && (rest.None? || rest.value.turn < s.turn) then Some(s)
      else rest
  }

  /** With unique keys the as-of answer is the only snapshot of its placement and turn: no tie to break. */
  lemma AsOfDeterminate(h: seq<Snapshot>, mapTokenId: Id, t: int)
    requires UniqueKeys(h)
    ensures var r := AsOf(h, mapTokenId, t);
      r.Some? ==> forall x :: x in h && SameKey(x, mapTokenId, r.value.turn) ==> x == r.value
  {
    var r := AsOf(h, mapTokenId, t);
    if r.Some? {
      forall x | x in h && SameKey(x, mapTokenId, r.value.turn) ensures x == r.value {
        var i :| 0 <= i < |h| && h[i] == x;
        var j :| 0 <= j < |h| && h[j] == r.value;
        SameKeySameIndex(h, i, j);
      }
    }
  }

  lemma SameKeySameIndex(h: seq<Snapshot>, i: int, j: int)
    requires UniqueKeys(h) && 0 <= i < |h| && 0 <= j < |h|
    requires SameKey(h[i], h[j].mapTokenId, h[j].turn)
    ensures i == j
  {
  }

  /** The snapshots of one key in table order: what `tph.turn_number = (SELECT MAX ...)` joins. */
  function RowsAt(h: seq<Snapshot>, mapTokenId: Id, turn: int): seq<Snapshot> {
    if h == [] then []
    else (if SameKey(h[0], mapTokenId, turn) then [h[0]] else []) + RowsAt(h[1..], mapTokenId, turn)
  }

  function HistoricRowOf(p: Placement, t: TokenRow, s: Option<Snapshot>): HistoricRow {
    match s
    case None => HistoricRow(p.id, p.tokenId, t.name, None, None, None, None, t.imagePath, t.size, t.color, t.kind)
    case Some(v) => HistoricRow(p.id, p.tokenId, t.name, Some(v.x), Some(v.y), v.hp, v.statusEffects,
      t.imagePath, t.size, t.color, t.kind)
  }

  function SnapshotRows(p: Placement, t: TokenRow, rows: seq<Snapshot>): seq<HistoricRow> {
    if rows == [] then [] else [HistoricRowOf(p, t, Some(rows[0]))] + SnapshotRows(p, t, rows[1..])
  }

  /** The LEFT JOIN for one placement: a row per snapshot of its as-of turn, or one row of NULLs. */
  function JoinPlacement(p: Placement, t: TokenRow, h: seq<Snapshot>, turn: int): seq<HistoricRow> {
    var a := AsOf(h, p.id, turn);
    if a.None? then [HistoricRowOf(p, t, None)]
    else SnapshotRows(p, t, RowsAt(h, p.id, a.value.turn))
  }

  /** `get_all_token_positions_at_turn(map_id, turn)`, placements in table order. */
  function HistoricJoin(ps: seq<Placement>, tokens: seq<TokenRow>, h: seq<Snapshot>, mapId: Option<Id>, turn: int): seq<HistoricRow> {
    if ps == [] then []
    else
      var head := if Listed(ps[0], tokens, mapId) then JoinPlacement(ps[0], TemplateOf(tokens, ps[0].tokenId).value, h, turn) else [];
      head + HistoricJoin(ps[1..], tokens, h, mapId, turn)
  }

  lemma {:induction false} RowsAtSingle(h: seq<Snapshot>, a: Snapshot)
    requires UniqueKeys(h) && a in h
    ensures RowsAt(h, a.mapTokenId, a.turn) == [a]
  {
    if h[0] == a {
      RowsAtNone(h[1..], a.mapTokenId, a.turn);
    } else {
      assert a in h[1..];
      RowsAtSingle(h[1..], a);
      assert !SameKey(h[0], a.mapTokenId, a.turn) by {
        var j :| 0 < j < |h| && h[j] == a;
      }
    }
  }

  lemma {:induction false} RowsAtNone(h: seq<Snapshot>, mapTokenId: Id, turn: int)
    requires forall x :: x in h ==> !SameKey(x, mapTokenId, turn)
    ensures RowsAt(h, mapTokenId, turn) == []
  {
    if h != [] {
      RowsAtNone(h[1..], mapTokenId, turn);
    }
  }

  /**
   * A historical row for a live row: its placement and template columns, and the as-of
   * snapshot's coordinates, hit points and status effects, all NULL when there is none.
   */
  predicate RowMatches(r: HistoricRow, live: LiveRow, a: Option<Snapshot>) {
    && r.id == live.id && r.tokenId == live.tokenId && r.name == live.name
    && (a.None? ==> r.x.None? && r.y.None? && r.hp.None? && r.statusEffects.None?)
    && (a.Some? ==>
          r.x == Some(a.value.x) && r.y == Some(a.value.y)
          && r.hp == a.value.hp && r.statusEffects == a.value.statusEffects)
  }

  ghost predicate JoinMatches(r: seq<HistoricRow>, live: seq<LiveRow>, h: seq<Snapshot>, turn: int) {
    && |r| == |live|
    && forall i :: 0 <= i < |r| ==> RowMatches(r[i], live[i], AsOf(h, live[i].id, turn))
  }

  /** The join at a turn, for a history that holds at most one row per placement and turn. */
  lemma HistoricJoinUnique(ps: seq<Placement>, tokens: seq<TokenRow>, h: seq<Snapshot>, mapId: Option<Id>, turn: int)
    ensures UniqueKeys(h) ==> JoinMatches(HistoricJoin(ps, tokens, h, mapId, turn), LiveJoin(ps, tokens, mapId), h, turn)
  {
    if UniqueKeys(h) {
      HistoricJoinSpec(ps, tokens, h, mapId, turn);
    }
  }

  /**
   * With unique keys the historical listing has exactly one row per row of the live join, in
   * the same order, matching it as RowMatches says (the live position is not used as a
   * fallback when no snapshot at or before the turn exists).
   */
  lemma {:induction false} HistoricJoinSpec(ps: seq<Placement>, tokens: seq<TokenRow>, h: seq<Snapshot>, mapId: Option<Id>, turn: int)
    requires UniqueKeys(h)
    ensures JoinMatches(HistoricJoin(ps, tokens, h, mapId, turn), LiveJoin(ps, tokens, mapId), h, turn)
  {
    if ps != [] {
      HistoricJoinSpec(ps[1..], tokens, h, mapId, turn);
      var p := ps[0];
      if Listed(p, tokens, mapId) {
        var t := TemplateOf(tokens, p.tokenId).value;
        JoinOne(p, t, h, turn);
        assert HistoricJoin(ps, tokens, h, mapId, turn) == [HistoricRowOf(p, t, AsOf(h, p.id, turn))] + HistoricJoin(ps[1..], tokens, h, mapId, turn);
        assert LiveJoin(ps, tokens, mapId) == [LiveRowOf(p, t)] + LiveJoin(ps[1..], tokens, mapId);
        JoinMatchesCons(HistoricRowOf(p, t, AsOf(h, p.id, turn)), LiveRowOf(p, t), HistoricJoin(ps[1..], tokens, h, mapId, turn), LiveJoin(ps[1..], tokens, mapId), h, turn);
      } else {
        assert HistoricJoin(ps, tokens, h, mapId, turn) == HistoricJoin(ps[1..], tokens, h, mapId, turn);
        assert LiveJoin(ps, tokens, mapId) == LiveJoin(ps[1..], tokens, mapId);
      }
    }
  }

  /** One listed placement contributes exactly one row, which matches its live row. */
  lemma JoinOne(p: Placement, t: TokenRow, h: seq<Snapshot>, turn: int)
    requires UniqueKeys(h)
    ensures JoinPlacement(p, t, h, turn) == [HistoricRowOf(p, t, AsOf(h, p.id, turn))]
    ensures RowMatches(HistoricRowOf(p, t, AsOf(h, p.id, turn)), LiveRowOf(p, t), AsOf(h, LiveRowOf(p, t).id, turn))
  {
    var a := AsOf(h, p.id, turn);
    if a.Some? {
      RowsAtSingle(h, a.value);
      assert SnapshotRows(p, t, [a.value]) == [HistoricRowOf(p, t, a)];
    }
  }

  lemma JoinMatchesCons(r0: HistoricRow, l0: LiveRow, r: seq<HistoricRow>, live: seq<LiveRow>, h: seq<Snapshot>, turn: int)
    requires RowMatches(r0, l0, AsOf(h, l0.id, turn)) && JoinMatches(r, live, h, turn)
    ensures JoinMatches([r0] + r, [l0] + live, h, turn)
  {
    forall i | 0 <= i < |r| + 1 ensures RowMatches(([r0] + r)[i], ([l0] + live)[i], AsOf(h, ([l0] + live)[i].id, turn)) {
      if i > 0 {
        assert ([r0] + r)[i] == r[i - 1] && ([l0] + live)[i] == live[i - 1];
      }
    }
  }
}
