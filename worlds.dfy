/** The worlds, maps and location_icons tables: world lifecycle, map validation and icon edits. */
module Worlds {
  import opened Wrappers
  import opened Records
  import opened Sorting

  /** `world_name_exists`: `SELECT COUNT(*) FROM worlds WHERE name = ?` is positive. */
  predicate NameTaken(worlds: seq<World>, name: string) {
    exists i :: 0 <= i < |worlds| && worlds[i].name == name
  }

  /** `UPDATE maps SET world_id = ? WHERE id = ?`, which `create_world` runs for an active map. */
  function AssignWorld(maps: seq<MapRow>, mapId: Id, worldId: Id): (r: seq<MapRow>)
    ensures |r| == |maps|
    ensures forall i :: 0 <= i < |maps| && maps[i].id != mapId ==> r[i] == maps[i]
    ensures forall i :: 0 <= i < |maps| && maps[i].id == mapId ==> r[i] == maps[i].(worldId := Some(worldId))
  {
    if maps == [] then []
    else
      var m := maps[0];
      [if m.id == mapId then m.(worldId := Some(worldId)) else m] + AssignWorld(maps[1..], mapId, worldId)
  }

  /** `UPDATE maps SET world_id = NULL WHERE world_id = ?`, the first step of `delete_world`. */
  function Unassign(maps: seq<MapRow>, worldId: Id): (r: seq<MapRow>)
    ensures |r| == |maps|
    ensures forall i :: 0 <= i < |maps| && maps[i].worldId != Some(worldId) ==> r[i] == maps[i]
    ensures forall i :: 0 <= i < |maps| && maps[i].worldId == Some(worldId) ==> r[i] == maps[i].(worldId := None)
  {
    if maps == [] then []
    else
      var m := maps[0];
      [if m.worldId == Some(worldId) then m.(worldId := None) else m] + Unassign(maps[1..], worldId)
  }

  /** `DELETE FROM worlds WHERE id = ?`. */
  function DropWorld(worlds: seq<World>, worldId: Id): (r: seq<World>)
    ensures forall w :: w in r <==> w in worlds && w.id != worldId
  {
    if worlds == [] then []
    else
      assert forall w :: w in worlds ==> w == worlds[0] || w in worlds[1..];
      (if worlds[0].id == worldId then [] else [worlds[0]]) + DropWorld(worlds[1..], worldId)
  }

  /** A text as its code points, the order in which SQLite's BINARY collation compares text. */
  function CodePoints(s: string): seq<int> {
    seq(|s|, i requires 0 <= i < |s| => s[i] as int)
  }

  function NameKey(m: MapRow): seq<int> {
    CodePoints(m.name)
  }

  function Unassigned(maps: seq<MapRow>): (r: seq<MapRow>)
    ensures forall m :: m in r <==> m in maps && m.worldId.None?
  {
    if maps == [] then []
    else
      assert forall m :: m in maps ==> m == maps[0] || m in maps[1..];
      (if maps[0].worldId.None? then [maps[0]] else []) + Unassigned(maps[1..])
  }

  /** `get_unassigned_maps`: `WHERE world_id IS NULL ORDER BY name`, as (id, name) pairs. */
  function UnassignedMaps(maps: seq<MapRow>): seq<(Id, string)> {
    var rows := SortBy(Unassigned(maps), NameKey);
    seq(|rows|, i requires 0 <= i < |rows| => (rows[i].id, rows[i].name))
  }

  /**
   * The unassigned listing names exactly the maps that belong to no world, each once per row,
   * in ascending order of name.
   */
  lemma UnassignedMapsSpec(maps: seq<MapRow>)
    ensures var rows := SortBy(Unassigned(maps), NameKey);
      && |UnassignedMaps(maps)| == |rows|
      && (forall i :: 0 <= i < |rows| ==> UnassignedMaps(maps)[i] == (rows[i].id, rows[i].name))
      && multiset(rows) == multiset(Unassigned(maps))
      && (forall m :: m in rows <==> m in maps && m.worldId.None?)
      && (forall i, j :: 0 <= i < j < |rows| ==> LexLe(NameKey(rows[i]), NameKey(rows[j])))
  {
    UnassignedMembers(maps);
    SortBySorted(Unassigned(maps), NameKey);
  }

  /**
   * The listing as pairs: one row per map of no world, every such map listed, names ascending.
   */
  lemma UnassignedMapsPairs(maps: seq<MapRow>)
    ensures var r := UnassignedMaps(maps);
      && |r| == |Unassigned(maps)|
      && (forall m :: m in maps && m.worldId.None? ==> (m.id, m.name) in r)
      && (forall i :: 0 <= i < |r| ==> exists m :: m in maps && m.worldId.None? && r[i] == (m.id, m.name))
      && (forall i, j :: 0 <= i < j < |r| ==> LexLe(CodePoints(r[i].1), CodePoints(r[j].1)))
  {
    UnassignedMapsSpec(maps);
    var rows := SortBy(Unassigned(maps), NameKey);
    PairsOfRows(rows, UnassignedMaps(maps));
    assert |multiset(rows)| == |multiset(Unassigned(maps))|;
  }

  /** What the pairs of a listing say, given what its rows say. */
  lemma PairsOfRows(rows: seq<MapRow>, r: seq<(Id, string)>)
    requires |r| == |rows| && forall i :: 0 <= i < |rows| ==> r[i] == (rows[i].id, rows[i].name)
    ensures forall m :: m in rows ==> (m.id, m.name) in r
    ensures forall i :: 0 <= i < |r| ==> rows[i] in rows && r[i] == (rows[i].id, rows[i].name)
    ensures (forall i, j :: 0 <= i < j < |rows| ==> LexLe(NameKey(rows[i]), NameKey(rows[j])))
        ==> forall i, j :: 0 <= i < j < |r| ==> LexLe(CodePoints(r[i].1), CodePoints(r[j].1))
  {
    forall m | m in rows
      ensures (m.id, m.name) in r
    {
      var k :| 0 <= k < |rows| && rows[k] == m;
      assert r[k] == (m.id, m.name);
    }
  }


  lemma UnassignedMembers(maps: seq<MapRow>)
    ensures forall m :: m in SortBy(Unassigned(maps), NameKey) <==> m in maps && m.worldId.None?
  {
    var rows := SortBy(Unassigned(maps), NameKey);
    forall m ensures m in rows <==> m in Unassigned(maps) {
      assert m in rows <==> m in multiset(rows);
      assert m in Unassigned(maps) <==> m in multiset(Unassigned(maps));
    }
  }

  /**
   * Deleting a world leaves no map pointing at it: each of its maps is kept, now unassigned,
   * and shows up in the unassigned listing.
   */
  lemma DeleteWorldOrphans(maps: seq<MapRow>, worldId: Id)
    ensures forall m :: m in Unassign(maps, worldId) ==> m.worldId != Some(worldId)
    ensures forall m :: m in maps && m.worldId == Some(worldId) ==>
      (m.id, m.name) in UnassignedMaps(Unassign(maps, worldId))
  {
    var after := Unassign(maps, worldId);
    forall m | m in after ensures m.worldId != Some(worldId) {
      var i :| 0 <= i < |after| && after[i] == m;
    }
    UnassignedMembers(after);
    var rows := SortBy(Unassigned(after), NameKey);
    forall m | m in maps && m.worldId == Some(worldId)
      ensures (m.id, m.name) in UnassignedMaps(after)
    {
      var i :| 0 <= i < |maps| && maps[i] == m;
      assert after[i] in rows;
      var j :| 0 <= j < |rows| && rows[j] == after[i];
      assert UnassignedMaps(after)[j] == (m.id, m.name);
    }
  }

  /** A key of `map_data`: missing, present with None, or present with a value. */
  datatype Field<T> = Absent | Null | Given(value: T)

  /** The `map_data` dict that `save_or_update_map` reads. */
  datatype MapInput = MapInput(
    id: Option<Id>, worldId: Option<Id>, parentMapId: Option<Id>,
    name: Option<string>, imagePath: Option<string>,
    gridSize: Field<int>, gridEnabled: Option<bool>, width: Field<int>, height: Field<int>,
    gridColor: Field<string>, mapScale: Field<real>, gridStyle: Field<string>,
    gridOpacity: Field<real>, mapType: Field<string>)

  /** `all([name, image_path])`: both present and non-empty. */
  predicate AcceptedMap(input: MapInput) {
    input.name.Some? && input.name.value != [] && input.imagePath.Some? && input.imagePath.value != []
  }

  /** A parameter that survives the `v is not None` filter; `dict.get` supplies `default` for a missing key. */
  function Resolve<T>(f: Field<T>, default: T): Option<T> {
    match f
    case Absent => Some(default)
    case Null => None
    case Given(v) => Some(v)
  }

  /** What an UPDATE leaves in a column: the given value, the default for a missing key, or the old value for None. */
  ghost predicate Written<T>(f: Field<T>, default: T, keep: T, v: T) {
    (f.Given? ==> v == f.value) && (f.Absent? ==> v == default) && (f.Null? ==> v == keep)
  }

  function Pick<T>(f: Field<T>, default: T, keep: T): (v: T)
    ensures Written(f, default, keep, v)
  {
    Resolve(f, default).GetOr(keep)
  }

  function BoolInt(b: bool): int { if b then 1 else 0 }

  /** The column defaults of the maps table, which `dict.get` repeats. */
  const DefaultGridColor: string := "#FFFFFF"
  const DefaultGridStyle: string := "dashed"
  const DefaultMapType: string := "world"
  const DefaultMapScale: real := 1.0
  const DefaultGridOpacity: real := 0.7

  /**
   * The row an INSERT creates: each parameter that survives the None filter is stored, each one
   * dropped takes the column default, which equals the `dict.get` default.
   */
  function NewMap(id: Id, input: MapInput, now: nat): (m: MapRow)
    requires AcceptedMap(input)
    ensures m.id == id && m.name == input.name.value && m.imagePath == input.imagePath.value
    ensures m.worldId == input.worldId && m.parentMapId == input.parentMapId
    ensures m.gridSize == (if input.gridSize.Given? then input.gridSize.value else 50)
    ensures m.gridEnabled == (if input.gridEnabled == Some(false) then 0 else 1)
    ensures m.width == (if input.width.Given? then input.width.value else 0)
    ensures m.height == (if input.height.Given? then input.height.value else 0)
    ensures m.mapScale == (if input.mapScale.Given? then input.mapScale.value else DefaultMapScale)
    ensures m.gridOpacity == (if input.gridOpacity.Given? then input.gridOpacity.value else DefaultGridOpacity)
    ensures m.mapType == (if input.mapType.Given? then input.mapType.value else DefaultMapType)
    ensures m.gridColor == (if input.gridColor.Given? then input.gridColor.value else DefaultGridColor)
    ensures m.gridStyle == (if input.gridStyle.Given? then input.gridStyle.value else DefaultGridStyle)
    ensures m.createdAt == now
  {
    MapRow(id, input.worldId, input.parentMapId, input.name.value, input.imagePath.value,
      Resolve(input.gridSize, 50).GetOr(50),
      BoolInt(input.gridEnabled.GetOr(true)),
      Resolve(input.width, 0).GetOr(0),
      Resolve(input.height, 0).GetOr(0),
      Resolve(input.gridColor, DefaultGridColor).GetOr(DefaultGridColor),
      Resolve(input.mapScale, DefaultMapScale).GetOr(DefaultMapScale),
      Resolve(input.gridStyle, DefaultGridStyle).GetOr(DefaultGridStyle),
      Resolve(input.gridOpacity, DefaultGridOpacity).GetOr(DefaultGridOpacity),
      Resolve(input.mapType, DefaultMapType).GetOr(DefaultMapType),
      now)
  }

  /**
   * The row an UPDATE leaves: a parameter dropped by the None filter (an explicit None, or a
   * missing world or parent id) keeps the old column; a missing key writes the `dict.get` default.
   */
  function UpdatedMap(m: MapRow, input: MapInput): (r: MapRow)
    requires AcceptedMap(input)
    ensures r.id == m.id && r.createdAt == m.createdAt
    ensures r.name == input.name.value && r.imagePath == input.imagePath.value
    ensures r.worldId == (if input.worldId.Some? then input.worldId else m.worldId)
    ensures r.parentMapId == (if input.parentMapId.Some? then input.parentMapId else m.parentMapId)
    ensures Written(input.gridSize, 50, m.gridSize, r.gridSize)
    ensures Written(input.width, 0, m.width, r.width)
    ensures Written(input.height, 0, m.height, r.height)
    ensures Written(input.gridColor, DefaultGridColor, m.gridColor, r.gridColor)
    ensures Written(input.mapScale, DefaultMapScale, m.mapScale, r.mapScale)
    ensures Written(input.gridStyle, DefaultGridStyle, m.gridStyle, r.gridStyle)
    ensures Written(input.gridOpacity, DefaultGridOpacity, m.gridOpacity, r.gridOpacity)
    ensures Written(input.mapType, DefaultMapType, m.mapType, r.mapType)
    ensures r.gridEnabled == (if input.gridEnabled == Some(false) then 0 else 1)
  {
    var gridSize := Pick(input.gridSize, 50, m.gridSize);
    var width := Pick(input.width, 0, m.width);
    var height := Pick(input.height, 0, m.height);
    var gridColor := Pick(input.gridColor, DefaultGridColor, m.gridColor);
    var mapScale := Pick(input.mapScale, DefaultMapScale, m.mapScale);
    var gridStyle := Pick(input.gridStyle, DefaultGridStyle, m.gridStyle);
    var gridOpacity := Pick(input.gridOpacity, DefaultGridOpacity, m.gridOpacity);
    var mapType := Pick(input.mapType, DefaultMapType, m.mapType);
    MapRow(m.id,
      if input.worldId.Some? then input.worldId else m.worldId,
      if input.parentMapId.Some? then input.parentMapId else m.parentMapId,
      input.name.value, input.imagePath.value,
      gridSize, BoolInt(input.gridEnabled.GetOr(true)), width, height,
      gridColor, mapScale, gridStyle, gridOpacity, mapType, m.createdAt)
  }

  /** `UPDATE maps SET ... WHERE id = :id`: rows with another id are untouched. */
  function UpdateMaps(maps: seq<MapRow>, id: Id, input: MapInput): (r: seq<MapRow>)
    requires AcceptedMap(input)
    ensures |r| == |maps|
    ensures forall i :: 0 <= i < |maps| && maps[i].id != id ==> r[i] == maps[i]
    ensures forall i :: 0 <= i < |maps| && maps[i].id == id ==> r[i] == UpdatedMap(maps[i], input)
  {
    if maps == [] then []
    else [if maps[0].id == id then UpdatedMap(maps[0], input) else maps[0]] + UpdateMaps(maps[1..], id, input)
  }

  /** The columns `update_location_icon` accepts; other keyword arguments are ignored. */
  const IconFields: set<string> := {"x", "y", "name", "location_type", "sub_map_id", "notes", "audio_file", "icon_path"}

  /** The columns declared NOT NULL: setting one to NULL aborts the UPDATE. */
  const IconRequired: set<string> := {"x", "y", "name"}

  function Whitelisted(kwargs: map<string, SqlValue>): (r: map<string, SqlValue>)
    ensures r.Keys == kwargs.Keys * IconFields
    ensures forall k :: k in r ==> r[k] == kwargs[k]
  {
    map k | k in kwargs.Keys * IconFields :: kwargs[k]
  }

  predicate HasIcon(icons: seq<LocationIcon>, id: Id) {
    exists i :: 0 <= i < |icons| && icons[i].id == id
  }

  predicate ViolatesNotNull(updates: map<string, SqlValue>) {
    exists k :: k in updates && k in IconRequired && updates[k] == SqlNull
  }

  function SetColumns(icons: seq<LocationIcon>, id: Id, updates: map<string, SqlValue>): (r: seq<LocationIcon>)
    ensures |r| == |icons|
    ensures forall i :: 0 <= i < |icons| && icons[i].id != id ==> r[i] == icons[i]
    ensures forall i :: 0 <= i < |icons| && icons[i].id == id ==>
      r[i] == icons[i].(columns := icons[i].columns + updates)
  {
    if icons == [] then []
    else
      var c := icons[0];
      [if c.id == id then c.(columns := c.columns + updates) else c] + SetColumns(icons[1..], id, updates)
  }

  /**
   * `update_location_icon(icon_id, **kwargs)`: the success flag and the icons afterwards. It is
   * False, changing nothing, when no whitelisted field is given, when a NOT NULL column would
   * become NULL (the error is caught), or when no icon has that id (`rowcount` is 0).
   */
  function UpdateIcon(icons: seq<LocationIcon>, id: Id, kwargs: map<string, SqlValue>): (r: (bool, seq<LocationIcon>))
    ensures r.0 <==> Whitelisted(kwargs) != map[] && !ViolatesNotNull(Whitelisted(kwargs)) && HasIcon(icons, id)
    ensures !r.0 ==> r.1 == icons
  {
    var updates := Whitelisted(kwargs);
    if updates == map[] || ViolatesNotNull(updates) then (false, icons)
    else (HasIcon(icons, id), SetColumns(icons, id, updates))
  }

  /**
   * A successful edit sets exactly the whitelisted columns given, on that icon only: every other
   * column of it, and every other icon, is unchanged.
   */
  lemma UpdateIconSpec(icons: seq<LocationIcon>, id: Id, kwargs: map<string, SqlValue>)
    ensures var r := UpdateIcon(icons, id, kwargs);
      && |r.1| == |icons|
      && (forall i :: 0 <= i < |icons| && icons[i].id != id ==> r.1[i] == icons[i])
      && (forall i :: 0 <= i < |icons| && icons[i].id == id && r.0 ==>
            && r.1[i].id == id && r.1[i].mapId == icons[i].mapId
            && (forall k :: k in kwargs && k in IconFields ==> k in r.1[i].columns && r.1[i].columns[k] == kwargs[k])
            && (forall k :: k !in kwargs || k !in IconFields ==>
                  (k in r.1[i].columns <==> k in icons[i].columns)
                  && (k in icons[i].columns ==> r.1[i].columns[k] == icons[i].columns[k])))
  {
  }
}
