/** The map_tokens table: placements of token templates on maps, their updates and listings. */
module Placements {
  import opened Wrappers
  import opened Records
  import opened Sorting

  /** The template a placement joins with (`JOIN tokens t ON mt.token_id = t.id`). */
  function TemplateOf(tokens: seq<TokenRow>, id: Id): (r: Option<TokenRow>)
    ensures r.Some? ==> r.value in tokens && r.value.id == id
    ensures r.None? <==> forall t :: t in tokens ==> t.id != id
  {
    if tokens == [] then None
    else if tokens[0].id == id then Some(tokens[0])
    else TemplateOf(tokens[1..], id)
  }

  /**
   * `UPDATE map_tokens SET x = ?, y = ?, has_moved = ?, current_turn = ? WHERE id = ?`: the rows
   * with that id take the four new values, every other column and every other row is unchanged.
   */
  function MoveRow(ps: seq<Placement>, id: Id, x: int, y: int, turn: int, moved: bool): (r: seq<Placement>)
    ensures |r| == |ps|
    ensures forall i :: 0 <= i < |ps| && ps[i].id != id ==> r[i] == ps[i]
    ensures forall i :: 0 <= i < |ps| && ps[i].id == id ==>
      r[i] == ps[i].(x := x, y := y, hasMoved := moved, currentTurn := turn)
  {
    if ps == [] then []
    else
      var p := ps[0];
      [if p.id == id then p.(x := x, y := y, hasMoved := moved, currentTurn := turn) else p]
        + MoveRow(ps[1..], id, x, y, turn, moved)
  }

  /**
   * `UPDATE map_tokens SET has_moved = 0, current_turn = ? WHERE map_id = ?`: every placement of
   * the map is marked unmoved in the new turn; placements of other maps are untouched.
   */
  function ResetFlags(ps: seq<Placement>, mapId: Id, turn: int): (r: seq<Placement>)
    ensures |r| == |ps|
    ensures forall i :: 0 <= i < |ps| && ps[i].mapId != mapId ==> r[i] == ps[i]
    ensures forall i :: 0 <= i < |ps| && ps[i].mapId == mapId ==>
      r[i] == ps[i].(hasMoved := false, currentTurn := turn)
  {
    if ps == [] then []
    else
      var p := ps[0];
      [if p.mapId == mapId then p.(hasMoved := false, currentTurn := turn) else p]
        + ResetFlags(ps[1..], mapId, turn)
  }

  function LiveRowOf(p: Placement, t: TokenRow): LiveRow {
    LiveRow(p.id, p.tokenId, t.name, t.imagePath, t.size, t.color, t.kind,
      p.x, p.y, p.rotation, p.active, p.initiative, p.hasMoved, t.currentHp, t.maxHp)
  }

  /** A placement appears in a map's listing when it is on that map and its template exists. */
  predicate Listed(p: Placement, tokens: seq<TokenRow>, mapId: Option<Id>) {
    mapId.Some? && p.mapId == mapId.value && TemplateOf(tokens, p.tokenId).Some?
  }

  /** The joined rows in table order; a NULL map id matches nothing (`map_id = NULL`). */
  function LiveJoin(ps: seq<Placement>, tokens: seq<TokenRow>, mapId: Option<Id>): seq<LiveRow> {
    if ps == [] then []
    else
      var head := if Listed(ps[0], tokens, mapId) then [LiveRowOf(ps[0], TemplateOf(tokens, ps[0].tokenId).value)] else [];
      head + LiveJoin(ps[1..], tokens, mapId)
  }

  /** `ORDER BY mt.initiative DESC`. */
  function InitiativeKey(r: LiveRow): seq<int> { [-r.initiative] }

  /** `get_map_tokens_with_history(map_id)` without a turn: the live listing. */
  function LiveListing(ps: seq<Placement>, tokens: seq<TokenRow>, mapId: Option<Id>): seq<LiveRow> {
    SortBy(LiveJoin(ps, tokens, mapId), InitiativeKey)
  }

  lemma {:induction false} LiveJoinMembers(ps: seq<Placement>, tokens: seq<TokenRow>, mapId: Option<Id>)
    ensures forall p :: p in ps && Listed(p, tokens, mapId) ==>
      LiveRowOf(p, TemplateOf(tokens, p.tokenId).value) in LiveJoin(ps, tokens, mapId)
    ensures forall r :: r in LiveJoin(ps, tokens, mapId) ==>
      exists p :: p in ps && Listed(p, tokens, mapId) && r == LiveRowOf(p, TemplateOf(tokens, p.tokenId).value)
  {
    if ps != [] {
      LiveJoinMembers(ps[1..], tokens, mapId);
      assert forall p :: p in ps ==> p == ps[0] || p in ps[1..];
    }
  }

  /**
   * The live listing holds exactly the map's placements that have a template, joined with it,
   * ordered by initiative from highest to lowest.
   */
  lemma LiveListingSpec(ps: seq<Placement>, tokens: seq<TokenRow>, mapId: Option<Id>)
    ensures var r := LiveListing(ps, tokens, mapId);
      && (forall p :: p in ps && Listed(p, tokens, mapId) ==> LiveRowOf(p, TemplateOf(tokens, p.tokenId).value) in r)
      && (forall x :: x in r ==>
            exists p :: p in ps && Listed(p, tokens, mapId) && x == LiveRowOf(p, TemplateOf(tokens, p.tokenId).value))
      && (forall i, j :: 0 <= i < j < |r| ==> r[i].initiative >= r[j].initiative)
  {
    var join := LiveJoin(ps, tokens, mapId);
    var r := LiveListing(ps, tokens, mapId);
    LiveJoinMembers(ps, tokens, mapId);
    assert multiset(r) == multiset(join);
    assert forall x :: x in r <==> x in join by {
      forall x ensures x in r <==> x in join {
        assert x in r <==> x in multiset(r);
        assert x in join <==> x in multiset(join);
      }
    }
    SortBySorted(join, InitiativeKey);
    forall i, j | 0 <= i < j < |r| ensures r[i].initiative >= r[j].initiative {
      assert LexLe(InitiativeKey(r[i]), InitiativeKey(r[j]));
      assert [-r[i].initiative][1..] == [] && [-r[j].initiative][1..] == [];
    }
  }

  /** Placements of equal initiative keep their table order in the live listing. */
  lemma LiveListingStable(ps: seq<Placement>, tokens: seq<TokenRow>, mapId: Option<Id>, v: int)
    ensures WithKey(LiveListing(ps, tokens, mapId), InitiativeKey, [-v]) == WithKey(LiveJoin(ps, tokens, mapId), InitiativeKey, [-v])
  {
    SortByStable(LiveJoin(ps, tokens, mapId), InitiativeKey, [-v]);
  }

  /** The rows that take part in the rotation: `token[11] > 0`. */
  function PositiveRows(rows: seq<LiveRow>): (r: seq<LiveRow>)
    ensures forall x :: x in r <==> x in rows && x.initiative > 0
  {
    if rows == [] then []
    else
      assert forall x :: x in rows ==> x == rows[0] || x in rows[1..];
      (if rows[0].initiative > 0 then [rows[0]] else []) + PositiveRows(rows[1..])
  }

  function Ids(rows: seq<LiveRow>): seq<Id> {
    seq(|rows|, i requires 0 <= i < |rows| => rows[i].id)
  }

  /**
   * `Timeline.load_initiative_order`: re-sort the live listing by initiative, descending
   * (Python's sort is stable also with `reverse=True`), and keep the ids of the rows with a
   * positive initiative.
   */
  function InitiativeOrder(listing: seq<LiveRow>): seq<Id> {
    Ids(PositiveRows(SortBy(listing, InitiativeKey)))
  }

  lemma {:induction false} PositiveRowsSorted(rows: seq<LiveRow>)
    requires SortedBy(rows, InitiativeKey)
    ensures SortedBy(PositiveRows(rows), InitiativeKey)
  {
    if rows != [] {
      PositiveRowsSorted(rows[1..]);
      var tail := PositiveRows(rows[1..]);
      forall j | 0 <= j < |tail| ensures LexLe(InitiativeKey(rows[0]), InitiativeKey(tail[j])) {
        assert tail[j] in rows[1..];
      }
    }
  }

  lemma {:induction false} PositiveRowsWithKey(rows: seq<LiveRow>, v: int)
    requires v > 0
    ensures WithKey(PositiveRows(rows), InitiativeKey, [-v]) == WithKey(rows, InitiativeKey, [-v])
  {
    if rows != [] {
      PositiveRowsWithKey(rows[1..], v);
      var head := if rows[0].initiative > 0 then [rows[0]] else [];
      assert PositiveRows(rows) == head + PositiveRows(rows[1..]);
      if head == [] {
        assert InitiativeKey(rows[0]) != [-v] by {
          assert InitiativeKey(rows[0])[0] != -v;
        }
        assert PositiveRows(rows) == PositiveRows(rows[1..]);
        assert WithKey(rows, InitiativeKey, [-v]) == WithKey(rows[1..], InitiativeKey, [-v]);
      } else {
        assert PositiveRows(rows)[0] == rows[0];
        assert PositiveRows(rows)[1..] == PositiveRows(rows[1..]);
      }
    }
  }

  /**
   * The initiative order lists one id per row of positive initiative, from highest initiative
   * to lowest; rows of equal initiative keep the order in which the listing gave them.
   */
  lemma InitiativeOrderSpec(listing: seq<LiveRow>, v: int)
    requires v > 0
    ensures var rows := PositiveRows(SortBy(listing, InitiativeKey));
      && InitiativeOrder(listing) == Ids(rows)
      && (forall x :: x in rows <==> x in listing && x.initiative > 0)
      && (forall i, j :: 0 <= i < j < |rows| ==> rows[i].initiative >= rows[j].initiative)
      && WithKey(rows, InitiativeKey, [-v]) == WithKey(listing, InitiativeKey, [-v])
  {
    InitiativeMembers(listing);
    InitiativeDescending(listing);
    InitiativeStable(listing, v);
  }

  lemma InitiativeMembers(listing: seq<LiveRow>)
    ensures forall x :: x in PositiveRows(SortBy(listing, InitiativeKey)) <==> x in listing && x.initiative > 0
  {
    var sorted := SortBy(listing, InitiativeKey);
    forall x ensures x in sorted <==> x in listing {
      assert x in sorted <==> x in multiset(sorted);
      assert x in listing <==> x in multiset(listing);
    }
  }

  lemma InitiativeDescending(listing: seq<LiveRow>)
    ensures var rows := PositiveRows(SortBy(listing, InitiativeKey));
      forall i, j :: 0 <= i < j < |rows| ==> rows[i].initiative >= rows[j].initiative
  {
    var sorted := SortBy(listing, InitiativeKey);
    var rows := PositiveRows(sorted);
    SortBySorted(listing, InitiativeKey);
    PositiveRowsSorted(sorted);
    forall i, j | 0 <= i < j < |rows| ensures rows[i].initiative >= rows[j].initiative {
      assert LexLe(InitiativeKey(rows[i]), InitiativeKey(rows[j]));
      assert [-rows[i].initiative][1..] == [] && [-rows[j].initiative][1..] == [];
    }
  }

  lemma InitiativeStable(listing: seq<LiveRow>, v: int)
    requires v > 0
    ensures WithKey(PositiveRows(SortBy(listing, InitiativeKey)), InitiativeKey, [-v]) == WithKey(listing, InitiativeKey, [-v])
  {
    PositiveRowsWithKey(SortBy(listing, InitiativeKey), v);
    SortByStable(listing, InitiativeKey, [-v]);
  }

  /** The listing the store hands over is already in initiative order, so the re-sort changes nothing. */
  lemma InitiativeOrderOfListing(ps: seq<Placement>, tokens: seq<TokenRow>, mapId: Option<Id>)
    ensures InitiativeOrder(LiveListing(ps, tokens, mapId)) == Ids(PositiveRows(LiveListing(ps, tokens, mapId)))
  {
    SortBySorted(LiveJoin(ps, tokens, mapId), InitiativeKey);
    SortBySortedIdentity(LiveListing(ps, tokens, mapId), InitiativeKey);
  }
}
