/**
 * `MapView`'s camera: where the map area sits on screen, how far the camera may pan over the
 * map image, and the conversions between screen, map-pixel and grid coordinates. Zoom is fixed
 * at 1, so every conversion is integer arithmetic.
 */
module Camera {
  import opened Wrappers
  import opened PyInt
  import opened Input

  /** The map area of the window: `MAP_AREA_LEFT`, `MAP_AREA_TOP`, `MAP_AREA_WIDTH`, `MAP_AREA_HEIGHT`. */
  const AreaLeft := 0
  const AreaTop := 40
  const AreaWidth := 1200 - 0 - 250
  const AreaHeight := 800 - 40 - 150
  const MapArea := Rect(AreaLeft, AreaTop, AreaWidth, AreaHeight)

  const DefaultGridSize := 50
  /** Pixels per wheel tick. */
  const ScrollSpeed := 50

  datatype Point = Point(x: int, y: int)

  /** `screen_to_map_coords`: undone by MapToScreen. */
  function ScreenToMap(p: Point, camera: Point): (m: Point)
    ensures MapToScreen(m, camera) == p
  {
    Point(p.x - AreaLeft + camera.x, p.y - AreaTop + camera.y)
  }

  /** `map_to_screen_coords`. */
  function MapToScreen(m: Point, camera: Point): Point {
    Point(m.x - camera.x + AreaLeft, m.y - camera.y + AreaTop)
  }

  /** The other direction: the screen point of a map pixel converts back to that pixel. */
  lemma MapToScreenInverse(m: Point, camera: Point)
    ensures ScreenToMap(MapToScreen(m, camera), camera) == m
  {
  }

  /**
   * `map_to_grid_coords`: the cell holding a map pixel, by floor division; a grid size of 0
   * raises ZeroDivisionError, modelled as None. For a positive size the pixel lies in the cell.
   */
  function MapToGrid(m: Point, gridSize: int): (g: Option<Point>)
    ensures g.None? <==> gridSize == 0
    ensures gridSize > 0 ==>
      && g.value.x * gridSize <= m.x < g.value.x * gridSize + gridSize
      && g.value.y * gridSize <= m.y < g.value.y * gridSize + gridSize
  {
    if gridSize == 0 then None else Some(Point(FloorDiv(m.x, gridSize), FloorDiv(m.y, gridSize)))
  }

  /** `grid_to_map_coords`: the top-left pixel of a cell, which MapToGrid maps back to the cell. */
  function GridToMap(g: Point, gridSize: int): (m: Point)
    ensures gridSize != 0 ==> MapToGrid(m, gridSize) == Some(g)
  {
    if gridSize == 0 then Point(0, 0)
    else
      FloorDivMul(g.x, gridSize);
      FloorDivMul(g.y, gridSize);
      Point(g.x * gridSize, g.y * gridSize)
  }

  /**
   * What a click asks of the application: the grid cell of a left click, or the conversion
   * failing (a left or right click with a grid size of 0 raises ZeroDivisionError).
   */
  datatype Click = NoClick | CellClicked(cell: Point) | ClickFailed

  /** `MapView`: the camera offset, the loaded map's pixel size, the grid and the panning state. */
  class MapView {
    var cameraX: int
    var cameraY: int
    var gridSize: int
    /** Whether a map image is loaded (`map_surface` is not None). */
    var hasMap: bool
    var mapWidth: int
    var mapHeight: int
    var panningMouse: bool
    var lastMouse: Option<Point>
    var panUp: bool
    var panDown: bool
    var panLeft: bool
    var panRight: bool

    constructor()
      ensures cameraX == 0 && cameraY == 0 && gridSize == DefaultGridSize
      ensures !hasMap && mapWidth == 0 && mapHeight == 0
      ensures !panningMouse && lastMouse.None? && !panUp && !panDown && !panLeft && !panRight
    {
      cameraX, cameraY := 0, 0;
      gridSize := DefaultGridSize;
      hasMap := false;
      mapWidth, mapHeight := 0, 0;
      panningMouse, lastMouse := false, None;
      panUp, panDown, panLeft, panRight := false, false, false, false;
    }

    /** The largest camera offsets that keep the view inside the map (0 for a map smaller than the view). */
    function MaxCameraX(): int
      reads this`mapWidth
    {
      Max(0, mapWidth - AreaWidth)
    }

    function MaxCameraY(): int
      reads this`mapHeight
    {
      Max(0, mapHeight - AreaHeight)
    }

    ghost predicate InBounds()
      reads this
    {
      hasMap ==> 0 <= cameraX <= MaxCameraX() && 0 <= cameraY <= MaxCameraY()
    }

    /**
     * `clamp_camera`: with a map loaded, each offset is pulled back into [0, max]; an offset
     * already there stays. Without a map nothing changes.
     */
    method ClampCamera()
      modifies this`cameraX, this`cameraY
      ensures InBounds()
      ensures !hasMap ==> cameraX == old(cameraX) && cameraY == old(cameraY)
      ensures hasMap ==>
        && (0 <= old(cameraX) <= MaxCameraX() ==> cameraX == old(cameraX))
        && (old(cameraX) < 0 ==> cameraX == 0)
        && (old(cameraX) > MaxCameraX() ==> cameraX == MaxCameraX())
      ensures hasMap ==>
        && (0 <= old(cameraY) <= MaxCameraY() ==> cameraY == old(cameraY))
        && (old(cameraY) < 0 ==> cameraY == 0)
        && (old(cameraY) > MaxCameraY() ==> cameraY == MaxCameraY())
    {
      if !hasMap {
        return;
      }
      var maxX := Max(0, mapWidth - AreaWidth);
      var maxY := Max(0, mapHeight - AreaHeight);
      cameraX := Max(0, Min(cameraX, maxX));
      cameraY := Max(0, Min(cameraY, maxY));
    }

    /**
     * `handle_event`. The arrow keys set and clear the keyboard panning flags. Inside the map
     * area the middle button starts mouse panning and a left click reports the grid cell under
     * the mouse; a right click only converts the mouse position, which fails for a grid size of 0.
     * While panning, motion moves the camera against the mouse and clamps it;
     * the wheel scrolls vertically and clamps. Releasing the middle button stops panning.
     */
    method HandleEvent(e: UiEvent) returns (click: Click)
      modifies this`cameraX, this`cameraY, this`panningMouse, this`lastMouse
      modifies this`panUp, this`panDown, this`panLeft, this`panRight
      ensures old(InBounds()) ==> InBounds()
      ensures e.KeyDown? ==> Flags() == old(FlagsAfter(e.key, true))
      ensures e.KeyUp? ==> Flags() == old(FlagsAfter(e.key, false))
      ensures !(e.KeyDown? || e.KeyUp?) ==> Flags() == old(Flags())
      ensures !(e.MouseDown? && (e.button == 1 || (e.button == 3 && gridSize == 0)) && Collides(MapArea, e.x, e.y)) ==>
        click == NoClick
      ensures e.MouseDown? && e.button == 3 && gridSize == 0 && Collides(MapArea, e.x, e.y) ==> click == ClickFailed
      ensures e.MouseDown? && e.button == 1 && Collides(MapArea, e.x, e.y) ==>
        click == match MapToGrid(ScreenToMap(Point(e.x, e.y), old(Point(cameraX, cameraY))), gridSize)
                 case Some(g) => CellClicked(g)
                 case None => ClickFailed
      ensures e.MouseDown? && e.button == 2 && Collides(MapArea, e.x, e.y) ==>
        panningMouse && lastMouse == Some(Point(e.x, e.y))
      ensures e.MouseUp? && e.button == 2 ==> !panningMouse && lastMouse.None?
      ensures e.MouseMotion? && old(panningMouse) && old(lastMouse).Some? ==>
        && InBounds() && panningMouse && lastMouse == Some(Point(e.x, e.y))
        && (hasMap ==> cameraX == Clamp(old(cameraX) - (e.x - old(lastMouse).value.x), 0, MaxCameraX()))
        && (hasMap ==> cameraY == Clamp(old(cameraY) - (e.y - old(lastMouse).value.y), 0, MaxCameraY()))
        && (!hasMap ==> cameraX == old(cameraX) - (e.x - old(lastMouse).value.x))
        && (!hasMap ==> cameraY == old(cameraY) - (e.y - old(lastMouse).value.y))
      ensures e.MouseWheel? && Collides(MapArea, e.mouseX, e.mouseY) ==>
        && InBounds() && panningMouse == old(panningMouse) && lastMouse == old(lastMouse)
        && (hasMap ==> cameraX == Clamp(old(cameraX), 0, MaxCameraX()))
        && (hasMap ==> cameraY == Clamp(old(cameraY) - e.dy * ScrollSpeed, 0, MaxCameraY()))
        && (!hasMap ==> cameraX == old(cameraX) && cameraY == old(cameraY) - e.dy * ScrollSpeed)
      ensures !Pans(e, old(panningMouse), old(lastMouse)) ==> cameraX == old(cameraX) && cameraY == old(cameraY)
      ensures !(e.MouseDown? && e.button == 2 && Collides(MapArea, e.x, e.y)) && !(e.MouseUp? && e.button == 2) && !(e.MouseMotion? && old(panningMouse) && old(lastMouse).Some?) ==>
        panningMouse == old(panningMouse) && lastMouse == old(lastMouse)
    {
      click := NoClick;
      if e.KeyDown? || e.KeyUp? {
        var down := e.KeyDown?;
        if e.key == Up {
          panUp := down;
        } else if e.key == Down {
          panDown := down;
        } else if e.key == Left {
          panLeft := down;
        } else if e.key == Right {
          panRight := down;
        }
      }
      if e.MouseDown? {
        if Collides(MapArea, e.x, e.y) {
          if e.button == 2 {
            panningMouse, lastMouse := true, Some(Point(e.x, e.y));
          } else if e.button == 1 {
            var m := ScreenToMap(Point(e.x, e.y), Point(cameraX, cameraY));
            var g := MapToGrid(m, gridSize);
            click := if g.Some? then CellClicked(g.value) else ClickFailed;
          } else if e.button == 3 && gridSize == 0 {
            click := ClickFailed;
          }
        }
      } else if e.MouseUp? {
        if e.button == 2 {
          panningMouse, lastMouse := false, None;
        }
      } else if e.MouseMotion? {
        if panningMouse && lastMouse.Some? {
          var dx, dy := e.x - lastMouse.value.x, e.y - lastMouse.value.y;
          cameraX, cameraY := cameraX - dx, cameraY - dy;
          lastMouse := Some(Point(e.x, e.y));
          ClampCamera();
        }
      } else if e.MouseWheel? {
        if Collides(MapArea, e.mouseX, e.mouseY) {
          cameraY := cameraY - e.dy * ScrollSpeed;
          ClampCamera();
        }
      }
    }

    /** The keyboard panning flags: up, down, left, right. */
    function Flags(): (bool, bool, bool, bool)
      reads this`panUp, this`panDown, this`panLeft, this`panRight
    {
      (panUp, panDown, panLeft, panRight)
    }

    /** The flags after pressing (`down`) or releasing an arrow key; other keys change none. */
    function FlagsAfter(k: Key, down: bool): (f: (bool, bool, bool, bool))
      reads this`panUp, this`panDown, this`panLeft, this`panRight
      ensures k !in {Up, Down, Left, Right} ==> f == Flags()
      ensures k == Up ==> f == (down, panDown, panLeft, panRight)
      ensures k == Down ==> f == (panUp, down, panLeft, panRight)
      ensures k == Left ==> f == (panUp, panDown, down, panRight)
      ensures k == Right ==> f == (panUp, panDown, panLeft, down)
    {
      match k
      case Up => (down, panDown, panLeft, panRight)
      case Down => (panUp, down, panLeft, panRight)
      case Left => (panUp, panDown, down, panRight)
      case Right => (panUp, panDown, panLeft, down)
      case _ => Flags()
    }

    /**
     * `load_map_data`. The map entry's grid size is taken, or 50. Loading the image is I/O:
     * `image` is the pixel size of the image that the first existing candidate path yielded,
     * or None when the entry has no path or none loaded. The size entries are assigned but
     * always overwritten: by the image's size, or by 0 when no image loaded. The camera then
     * returns to the map's top-left corner.
     */
    method LoadMapData(gridSizeEntry: Option<int>, widthEntry: Option<int>, heightEntry: Option<int>, image: Option<Point>)
      modifies this`gridSize, this`mapWidth, this`mapHeight, this`hasMap, this`cameraX, this`cameraY
      ensures gridSize == gridSizeEntry.GetOr(DefaultGridSize)
      ensures hasMap == image.Some?
      ensures mapWidth == (if image.Some? then image.value.x else 0)
      ensures mapHeight == (if image.Some? then image.value.y else 0)
      ensures cameraX == 0 && cameraY == 0 && InBounds()
    {
      gridSize := gridSizeEntry.GetOr(DefaultGridSize);
      mapWidth := widthEntry.GetOr(AreaWidth);
      mapHeight := heightEntry.GetOr(AreaHeight);
      if image.Some? {
        hasMap := true;
        mapWidth, mapHeight := image.value.x, image.value.y;
      } else {
        hasMap := false;
        mapWidth, mapHeight := 0, 0;
      }
      cameraX, cameraY := 0, 0;
      ClampCamera();
    }
  }

  /** Whether an event moves the camera: a panning motion or a wheel tick over the map area. */
  predicate Pans(e: UiEvent, panning: bool, last: Option<Point>) {
    || (e.MouseMotion? && panning && last.Some?)
    || (e.MouseWheel? && Collides(MapArea, e.mouseX, e.mouseY))
  }
}
