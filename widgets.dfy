/**
 * The bookkeeping of the pygame widgets: a one-line text editor, the sub-map breadcrumb, the
 * timeline slider's turn and markers, a scrolling list and a toggle. Drawing, fonts and the
 * slider's pixel arithmetic are not modelled; each widget is a class whose fields the event
 * handlers rewrite.
 */
module Widgets {
  import opened Wrappers
  import opened Records
  import opened PyInt
  import opened Sorting
  import opened Input

  /** A list entry: an `(id, name)` tuple or a bare label. */
  datatype ListItem = Pair(id: int, name: string) | Plain(text: string)

  /** The dictionaries the handlers return. */
  datatype Action =
    | TextChanged(text: string)
    | TextSubmitted(text: string)
    | ListSelected(index: nat, item: ListItem)
    | ListScrolled
    | ToggleChanged(value: string)
    /** What the button's `action` callback returns when called with the new value. */
    | ToggleCallback(value: string)

  /** A handler's outcome: None, a returned action, or an exception it raises. */
  datatype Reply = Ignored | Emitted(action: Action) | Raised(error: string)

  /** Backspace: the character before the cursor goes, everything else stays on its side. */
  lemma RemoveBefore(t: string, c: int)
    requires 0 < c <= |t|
    ensures var u := t[..c - 1] + t[c..];
      |u| == |t| - 1 && u[..c - 1] == t[..c - 1] && u[c - 1..] == t[c..]
  {
  }

  /** Delete: the character at the cursor goes. */
  lemma RemoveAt(t: string, c: int)
    requires 0 <= c < |t|
    ensures var u := t[..c] + t[c + 1..];
      |u| == |t| - 1 && u[..c] == t[..c] && u[c..] == t[c + 1..]
  {
  }

  /** Typing: the text lands at the cursor, which then passes its first character. */
  lemma InsertAt(t: string, c: int, s: string)
    requires 0 <= c <= |t| && s != ""
    ensures var u := t[..c] + s + t[c..];
      |u| == |t| + |s| && u[..c + 1] == t[..c] + s[..1] && u[c + 1..] == s[1..] + t[c..]
  {
    var u := t[..c] + s + t[c..];
    assert u[..c + 1] == t[..c] + s[..1];
    assert u[c + 1..] == s[1..] + t[c..];
  }

  /** `TextInput`: a text with a cursor between two of its characters. */
  class TextInput {
    const rect: Rect
    var visible: bool
    var active: bool
    var text: string
    var cursor: int

    ghost predicate Valid()
      reads this
    {
      0 <= cursor <= |text|
    }

    /** The text left of the cursor. */
    function Before(): string
      reads this
      requires Valid()
    {
      text[..cursor]
    }

    /** The text right of the cursor. */
    function After(): string
      reads this
      requires Valid()
    {
      text[cursor..]
    }

    /** A new input holds the default text with the cursor after it. */
    constructor(rect: Rect, defaultText: string)
      ensures Valid() && this.rect == rect && visible && !active
      ensures text == defaultText && After() == ""
    {
      this.rect := rect;
      visible := true;
      active := false;
      text := defaultText;
      cursor := |defaultText|;
    }

    /**
     * `handle_event`. A left click focuses the input when it lands inside it and moves the
     * cursor to the end; while focused, the editing keys work around the cursor, Return
     * submits and leaves the input, and every other key types its text.
     */
    method HandleEvent(e: UiEvent) returns (r: Reply)
      requires Valid()
      modifies this`text, this`cursor, this`active
      ensures Valid()
      ensures !visible ==> r == Ignored && text == old(text) && cursor == old(cursor) && active == old(active)
      ensures visible && e.MouseDown? && e.button == 1 ==>
        && r == Ignored && text == old(text) && active == Collides(rect, e.x, e.y)
        && (if active then After() == "" else cursor == old(cursor))
      ensures visible && !(e.MouseDown? && e.button == 1) && !(e.KeyDown? && old(active)) ==>
        r == Ignored && text == old(text) && cursor == old(cursor) && active == old(active)
      ensures visible && e.KeyDown? && old(active) && e.key == Return ==>
        r == Emitted(TextSubmitted(text)) && !active && text == old(text) && cursor == old(cursor)
      ensures visible && e.KeyDown? && old(active) && e.key != Return ==>
        r == Emitted(TextChanged(text)) && active
      ensures visible && e.KeyDown? && old(active) && e.key == Backspace ==>
        if old(cursor) > 0 then Before() == old(Before()[..cursor - 1]) && After() == old(After())
        else text == old(text) && cursor == old(cursor)
      ensures visible && e.KeyDown? && old(active) && e.key == Delete ==>
        if old(After()) != "" then Before() == old(Before()) && After() == old(After()[1..])
        else text == old(text) && cursor == old(cursor)
      ensures visible && e.KeyDown? && old(active) && e.key == Left ==>
        text == old(text) && cursor == Max(0, old(cursor) - 1)
      ensures visible && e.KeyDown? && old(active) && e.key == Right ==>
        text == old(text) && cursor == Min(|text|, old(cursor) + 1)
      ensures visible && e.KeyDown? && old(active) && e.key == Home ==>
        text == old(text) && Before() == ""
      ensures visible && e.KeyDown? && old(active) && e.key == End ==>
        text == old(text) && After() == ""
      ensures visible && e.KeyDown? && old(active) && e.key in {Up, Down, OtherKey} ==>
        if e.unicode != "" then Before() == old(Before()) + e.unicode[..1] && After() == e.unicode[1..] + old(After())
        else text == old(text) && cursor == old(cursor)
    {
      r := Ignored;
      if !visible {
        return;
      }
      if e.MouseDown? && e.button == 1 {
        active := Collides(rect, e.x, e.y);
        if active {
          cursor := |text|;
        }
      } else if e.KeyDown? && active {
        var k, t, c := e.key, text, cursor;
        if k == Backspace {
          if c > 0 {
            RemoveBefore(t, c);
            t, c := t[..c - 1] + t[c..], c - 1;
          }
        } else if k == Delete {
          if c < |t| {
            RemoveAt(t, c);
            t := t[..c] + t[c + 1..];
          }
        } else if k == Left {
          c := Max(0, c - 1);
        } else if k == Right {
          c := Min(|t|, c + 1);
        } else if k == Home {
          c := 0;
        } else if k == End {
          c := |t|;
        } else if k == Return {
          active := false;
          r := Emitted(TextSubmitted(text));
          return;
        } else if e.unicode != "" {
          InsertAt(t, c, e.unicode);
          t, c := t[..c] + e.unicode + t[c..], c + 1;
        }
        text, cursor := t, c;
        r := Emitted(TextChanged(text));
      }
    }
  }

  /** `MapNavigationBreadcrumb`: the stack of `(map_id, map_name)` of the maps entered so far. */
  class Breadcrumb {
    var stack: seq<(Id, string)>

    constructor()
      ensures stack == []
    {
      stack := [];
    }

    /** `push_map`: the map entered goes on top. */
    method PushMap(mapId: Id, mapName: string)
      modifies this`stack
      ensures stack == old(stack) + [(mapId, mapName)]
    {
      stack := stack + [(mapId, mapName)];
    }

    /**
     * `pop_map`: with more than one entry the top one comes off and is returned, undoing its
     * push; the root entry is never popped, and then the answer is None.
     */
    method PopMap() returns (r: Option<(Id, string)>)
      modifies this`stack
      ensures |old(stack)| > 1 ==> r.Some? && stack + [r.value] == old(stack)
      ensures |old(stack)| <= 1 ==> r.None? && stack == old(stack)
      ensures old(stack) != [] ==> stack != [] && stack[0] == old(stack)[0]
    {
      if |stack| > 1 {
        r := Some(stack[|stack| - 1]);
        assert stack[..|stack| - 1] + [r.value] == stack;
        stack := stack[..|stack| - 1];
      } else {
        r := None;
      }
    }
  }

  /** A marker of the timeline slider: a turn and the event data shown for it. */
  datatype Mark = Mark(turn: int, data: EventData)

  function MarkKey(m: Mark): seq<int> {
    [m.turn]
  }

  lemma LexLeSingle(a: int, b: int)
    ensures LexLe([a], [b]) <==> a <= b
  {
    assert [a][1..] == [];
    assert LexLe([], [b][1..]);
  }

  /** `TimelineSlider`: the turn it shows, the last turn it offers, and its markers. */
  class TimelineSlider {
    var maxTurns: int
    var currentTurn: int
    var marks: seq<Mark>

    /** The constructor takes both numbers as given, without clamping. */
    constructor(maxTurns: int, currentTurn: int)
      ensures this.maxTurns == maxTurns && this.currentTurn == currentTurn && marks == []
    {
      this.maxTurns := maxTurns;
      this.currentTurn := currentTurn;
      marks := [];
    }

    /** `set_max_turns`: the current turn is left as it is, even beyond the new maximum. */
    method SetMaxTurns(maxTurns: int)
      modifies this`maxTurns
      ensures this.maxTurns == maxTurns
    {
      this.maxTurns := maxTurns;
    }

    /** `set_current_turn`: the turn is clamped into [0, max_turns]; a negative maximum gives 0. */
    method SetCurrentTurn(turn: int)
      modifies this`currentTurn
      ensures 0 <= currentTurn && (maxTurns >= 0 ==> currentTurn <= maxTurns)
      ensures 0 <= turn <= maxTurns ==> currentTurn == turn
      ensures turn < 0 ==> currentTurn == 0
      ensures turn > maxTurns ==> currentTurn == Max(0, maxTurns)
    {
      currentTurn := Max(0, Min(turn, maxTurns));
    }

    /**
     * `add_timeline_event`: append, then Python's stable sort by turn. The markers keep turn
     * order, gain exactly the new one, and the markers of one turn keep the order they were
     * added in, the new one last.
     */
    method AddTimelineEvent(turn: int, data: EventData)
      modifies this`marks
      ensures marks == SortBy(old(marks) + [Mark(turn, data)], MarkKey)
      ensures multiset(marks) == multiset(old(marks)) + multiset{Mark(turn, data)}
      ensures forall i, j :: 0 <= i < j < |marks| ==> marks[i].turn <= marks[j].turn
      ensures forall t :: WithKey(marks, MarkKey, [t]) == WithKey(old(marks), MarkKey, [t]) + (if t == turn then [Mark(turn, data)] else [])
    {
      var m := Mark(turn, data);
      var appended := marks + [m];
      marks := SortBy(appended, MarkKey);
      SortedMarks(appended);
      forall t ensures WithKey(marks, MarkKey, [t]) == WithKey(appended[..|appended| - 1], MarkKey, [t]) + (if t == turn then [m] else []) {
        SortByStable(appended, MarkKey, [t]);
        WithKeyLast(appended, MarkKey, [t]);
      }
      assert appended[..|appended| - 1] == old(marks);
    }
  }

  /** Sorting markers by MarkKey puts them in turn order. */
  lemma SortedMarks(s: seq<Mark>)
    ensures forall i, j :: 0 <= i < j < |SortBy(s, MarkKey)| ==> SortBy(s, MarkKey)[i].turn <= SortBy(s, MarkKey)[j].turn
  {
    var r := SortBy(s, MarkKey);
    SortBySorted(s, MarkKey);
    forall i, j | 0 <= i < j < |r| ensures r[i].turn <= r[j].turn {
      LexLeSingle(r[i].turn, r[j].turn);
    }
  }

  /** `item_height`. */
  const ItemHeight := 30

  /** `ListBox`: a scrolling list with a hovered and a selected row (-1 for none). */
  class ListBox {
    const rect: Rect
    const items: seq<ListItem>
    const maxVisible: int
    var visible: bool
    var scrollY: int
    var hovered: int
    var selected: int

    /** How far the list scrolls: until its last row is in view. */
    function MaxScroll(): int {
      Max(0, (|items| - maxVisible) * ItemHeight)
    }

    /** The row under a mouse at height `y`. */
    function RowAt(y: int): int
      reads this`scrollY
    {
      FloorDiv(scrollY, ItemHeight) + FloorDiv(y - rect.top, ItemHeight)
    }

    ghost predicate Valid()
      reads this
    {
      && maxVisible == FloorDiv(rect.height, ItemHeight)
      && 0 <= scrollY <= MaxScroll()
      && -1 <= hovered < |items|
      && -1 <= selected < |items|
    }

    constructor(rect: Rect, items: seq<ListItem>)
      ensures Valid() && this.rect == rect && this.items == items && visible
      ensures scrollY == 0 && hovered == -1 && selected == -1
    {
      this.rect := rect;
      this.items := items;
      maxVisible := FloorDiv(rect.height, ItemHeight);
      visible := true;
      scrollY := 0;
      hovered := -1;
      selected := -1;
    }

    /**
     * `handle_event`: the mouse hovers the row under it; a left click selects that row when
     * there is one; the wheel scrolls one row, never above the top nor past the last row. The
     * `on_select` callback is not modelled; the returned action carries the selected item.
     */
    method HandleEvent(e: UiEvent) returns (r: Reply)
      requires Valid()
      modifies this`scrollY, this`hovered, this`selected
      ensures Valid()
      ensures !visible || !(e.MouseMotion? || (e.MouseDown? && Collides(rect, e.x, e.y))) ==>
        r == Ignored && scrollY == old(scrollY) && hovered == old(hovered) && selected == old(selected)
      ensures visible && e.MouseMotion? ==>
        && r == Ignored && scrollY == old(scrollY) && selected == old(selected)
        && hovered == (if Collides(rect, e.x, e.y) && RowAt(e.y) < |items| then RowAt(e.y) else -1)
      ensures visible && e.MouseDown? && Collides(rect, e.x, e.y) && e.button == 1 ==>
        && scrollY == old(scrollY) && hovered == old(hovered)
        && if 0 <= RowAt(e.y) < |items| then selected == RowAt(e.y) && r == Emitted(ListSelected(selected, items[selected]))
           else selected == old(selected) && r == Ignored
      ensures visible && e.MouseDown? && Collides(rect, e.x, e.y) && e.button == 4 ==>
        && r == Emitted(ListScrolled) && hovered == old(hovered) && selected == old(selected)
        && scrollY == Max(0, old(scrollY) - ItemHeight)
      ensures visible && e.MouseDown? && Collides(rect, e.x, e.y) && e.button == 5 ==>
        && r == Emitted(ListScrolled) && hovered == old(hovered) && selected == old(selected)
        && scrollY == Min(MaxScroll(), old(scrollY) + ItemHeight)
      ensures visible && e.MouseDown? && Collides(rect, e.x, e.y) && e.button !in {1, 4, 5} ==>
        r == Ignored && scrollY == old(scrollY) && hovered == old(hovered) && selected == old(selected)
    {
      r := Ignored;
      if !visible {
        return;
      }
      if e.MouseMotion? {
        if Collides(rect, e.x, e.y) {
          hovered := RowAt(e.y);
          if hovered >= |items| {
            hovered := -1;
          }
        } else {
          hovered := -1;
        }
      } else if e.MouseDown? {
        if Collides(rect, e.x, e.y) {
          if e.button == 1 {
            var click := RowAt(e.y);
            if 0 <= click < |items| {
              selected := click;
              r := Emitted(ListSelected(click, items[click]));
            }
          } else if e.button == 4 {
            scrollY := Max(0, scrollY - ItemHeight);
            r := Emitted(ListScrolled);
          } else if e.button == 5 {
            var maxScroll := Max(0, (|items| - maxVisible) * ItemHeight);
            scrollY := Min(maxScroll, scrollY + ItemHeight);
            r := Emitted(ListScrolled);
          }
        }
      }
    }
  }

  /** `list.index`: the first position holding `v`. */
  function IndexOf(s: seq<string>, v: string): (i: nat)
    requires v in s
    ensures i < |s| && s[i] == v && v !in s[..i]
  {
    if s[0] == v then 0
    else
      var i := 1 + IndexOf(s[1..], v);
      assert s[..i] == [s[0]] + s[1..][..i - 1];
      i
  }

  /** The option after `v`, wrapping from the last to the first. */
  function NextOption(options: seq<string>, v: string): (r: string)
    requires v in options
    ensures r in options
  {
    options[(IndexOf(options, v) + 1) % |options|]
  }

  predicate Distinct(s: seq<string>) {
    forall i, j :: 0 <= i < j < |s| ==> s[i] != s[j]
  }

  /** The value after `k` clicks. */
  function Toggled(options: seq<string>, v: string, k: nat): (r: string)
    requires v in options
    ensures r in options
  {
    if k == 0 then v else NextOption(options, Toggled(options, v, k - 1))
  }

  lemma IndexOfDistinct(options: seq<string>, j: int)
    requires Distinct(options) && 0 <= j < |options|
    ensures IndexOf(options, options[j]) == j
  {
  }

  /** One click moves the position among distinct options on by one, wrapping at the end. */
  lemma NextIndex(options: seq<string>, w: string)
    requires Distinct(options) && w in options
    ensures IndexOf(options, NextOption(options, w)) == (IndexOf(options, w) + 1) % |options|
  {
    IndexOfDistinct(options, (IndexOf(options, w) + 1) % |options|);
  }

  /** After `k` clicks the position among distinct options has moved on by `k`, modulo their number. */
  lemma {:induction false} ToggledIndex(options: seq<string>, v: string, k: nat)
    requires Distinct(options) && v in options
    ensures IndexOf(options, Toggled(options, v, k)) == (IndexOf(options, v) + k) % |options|
  {
    if k == 0 {
      ToggledZero(options, v);
    } else {
      ToggledIndex(options, v, k - 1);
      ToggledStep(options, v, k);
    }
  }

  lemma ToggledZero(options: seq<string>, v: string)
    requires v in options
    ensures IndexOf(options, Toggled(options, v, 0)) == (IndexOf(options, v) + 0) % |options|
  {
    var i0 := IndexOf(options, v);
    ModUnique(i0, |options|, 0, i0);
  }

  lemma ToggledStep(options: seq<string>, v: string, k: nat)
    requires Distinct(options) && v in options && k > 0
    requires IndexOf(options, Toggled(options, v, k - 1)) == (IndexOf(options, v) + (k - 1)) % |options|
    ensures IndexOf(options, Toggled(options, v, k)) == (IndexOf(options, v) + k) % |options|
  {
    var w, n := Toggled(options, v, k - 1), |options|;
    var x := IndexOf(options, v) + (k - 1);
    calc {
      IndexOf(options, Toggled(options, v, k));
      IndexOf(options, NextOption(options, w));
      { NextIndex(options, w); }
      (IndexOf(options, w) + 1) % n;
      (x % n + 1) % n;
      { StepMod(x, n); }
      (x + 1) % n;
    }
  }

  lemma StepMod(x: int, n: int)
    requires n > 0
    ensures (x % n + 1) % n == (x + 1) % n
  {
    var q, r := x / n, x % n;
    if r + 1 < n {
      ModUnique(x + 1, n, q, r + 1);
      ModUnique(r + 1, n, 0, r + 1);
    } else {
      ModUnique(x + 1, n, q + 1, 0);
      ModUnique(r + 1, n, 1, 0);
    }
  }

  /**
   * With distinct options, clicking cycles through all of them: after as many clicks as there
   * are options the value is back, and never before.
   */
  lemma ToggleCycles(options: seq<string>, v: string)
    requires Distinct(options) && v in options
    ensures Toggled(options, v, |options|) == v
    ensures forall k :: 0 < k < |options| ==> Toggled(options, v, k) != v
  {
    var n, i0 := |options|, IndexOf(options, v);
    ToggledIndex(options, v, n);
    ModUnique(i0 + n, n, 1, i0);
    forall k | 0 < k < n ensures Toggled(options, v, k) != v {
      ToggledAway(options, v, k);
    }
  }

  lemma ToggledAway(options: seq<string>, v: string, k: nat)
    requires Distinct(options) && v in options && 0 < k < |options|
    ensures Toggled(options, v, k) != v
  {
    var n, i0 := |options|, IndexOf(options, v);
    ToggledIndex(options, v, k);
    if i0 + k < n {
      ModUnique(i0 + k, n, 0, i0 + k);
    } else {
      ModUnique(i0 + k, n, 1, i0 + k - n);
    }
  }

  /** `ToggleButton`: a labelled button showing one of its options. */
  class ToggleButton {
    const rect: Rect
    const caption: string
    const options: seq<string>
    /** Whether an `action` callback was given. */
    const hasAction: bool
    var visible: bool
    var hovered: bool
    var current: string

    constructor(rect: Rect, caption: string, options: seq<string>, current: string, hasAction: bool)
      ensures this.rect == rect && this.caption == caption && this.options == options
      ensures this.current == current && this.hasAction == hasAction && visible && !hovered
    {
      this.rect := rect;
      this.caption := caption;
      this.options := options;
      this.current := current;
      this.hasAction := hasAction;
      visible := true;
      hovered := false;
    }

    /**
     * `handle_event`: motion tracks the hover; a left click inside moves to the next option and
     * reports it, or to the callback. A current value that is not among the options makes
     * `list.index` raise ValueError.
     */
    method HandleEvent(e: UiEvent) returns (r: Reply)
      modifies this`hovered, this`current
      ensures visible && e.MouseMotion? ==> r == Ignored && hovered == Collides(rect, e.x, e.y) && current == old(current)
      ensures visible && e.MouseDown? && e.button == 1 && Collides(rect, e.x, e.y) ==>
        && hovered == old(hovered)
        && if old(current) in options then
             current == NextOption(options, old(current))
             && r == Emitted(if hasAction then ToggleCallback(current) else ToggleChanged(current))
           else current == old(current) && r == Raised("ValueError")
      ensures !visible || !(e.MouseMotion? || (e.MouseDown? && e.button == 1 && Collides(rect, e.x, e.y))) ==>
        r == Ignored && hovered == old(hovered) && current == old(current)
    {
      r := Ignored;
      if !visible {
        return;
      }
      if e.MouseMotion? {
        hovered := Collides(rect, e.x, e.y);
      } else if e.MouseDown? {
        if e.button == 1 && Collides(rect, e.x, e.y) {
          if current !in options {
            r := Raised("ValueError");
            return;
          }
          var i := IndexOf(options, current);
          current := options[(i + 1) % |options|];
          if hasAction {
            r := Emitted(ToggleCallback(current));
          } else {
            r := Emitted(ToggleChanged(current));
          }
        }
      }
    }
  }
}
