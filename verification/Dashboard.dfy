/** _build_page of create_dashboard.py: widgets are packed row by row into a grid of 24 columns. */
module Dashboard {
  import opened Sequences

  const GRID_WIDTH := 24

  /** A widget of the page definition; a size that is absent has a default. */
  datatype Widget = Widget(kind: string, title: string, width: Option<int>, height: Option<int>)

  /** The position and size of a widget payload. */
  datatype Placed = Placed(zabbixType: string, title: string, x: int, y: int, width: int, height: int)

  function Width(w: Widget): int {
    if w.width.None? then 6 else w.width.value
  }

  function Height(w: Widget): int {
    if w.height.None? then 5 else w.height.value
  }

  /** None is an unknown widget type. */
  function ZabbixType(kind: string): Option<string> {
    if kind == "graph" then Some("svggraph")
    else if kind == "plain_value" then Some("item")
    else if kind == "problems" then Some("problems")
    else if kind == "clock" then Some("clock")
    else None
  }

  /** _wrap_widget. */
  function WrapWidget(w: Widget, x: int, y: int, zabbixType: string): Placed {
    Placed(zabbixType, w.title, x, y, Width(w), Height(w))
  }

  /** The widgets of a known type. */
  function Shown(ws: seq<Widget>): seq<Widget> {
    if ws == [] then []
    else Shown(ws[..|ws| - 1]) + if ZabbixType(ws[|ws| - 1].kind).Some? then [ws[|ws| - 1]] else []
  }

  predicate Positive(ws: seq<Widget>) {
    forall i :: 0 <= i < |ws| ==> Width(ws[i]) > 0 && Height(ws[i]) > 0
  }

  predicate AllKnown(ws: seq<Widget>) {
    forall i :: 0 <= i < |ws| ==> ZabbixType(ws[i].kind).Some?
  }

  /** p carries w's type, title and size. */
  predicate Shows(p: Placed, w: Widget) {
    Some(p.zabbixType) == ZabbixType(w.kind) && p.title == w.title && p.width == Width(w) && p.height == Height(w)
  }

  /** b stands to the right of a in the same row, or in a row below all of a. */
  predicate After(a: Placed, b: Placed) {
    (a.y == b.y && a.x + a.width <= b.x) || a.y + a.height <= b.y
  }

  predicate InRows(s: seq<Placed>) {
    forall i, j :: 0 <= i < j < |s| ==> After(s[i], s[j])
  }

  /** The first free row below all of s. */
  function Bottom(s: seq<Placed>): (b: int)
    ensures b >= 0
  {
    if s == [] then 0
    else
      var last := s[|s| - 1];
      if last.y + last.height > Bottom(s[..|s| - 1]) then last.y + last.height else Bottom(s[..|s| - 1])
  }

  /** The place right of the widget before, or else the start of the first free row. */
  predicate Packed(s: seq<Placed>, p: Placed) {
    if s == [] then (p.x, p.y) == (0, 0)
    else
      var last := s[|s| - 1];
      (p.x, p.y) == if last.x + last.width + p.width <= GRID_WIDTH then (last.x + last.width, last.y) else (0, Bottom(s))
  }

  predicate Covers(p: Placed, cx: int, cy: int) {
    p.x <= cx < p.x + p.width && p.y <= cy < p.y + p.height
  }

  /** Everything that has been placed lies left of x in the current row, or in rows above it. */
  predicate Front(s: seq<Placed>, x: int, y: int) {
    forall i :: 0 <= i < |s| ==> (s[i].y == y && s[i].x + s[i].width <= x) || s[i].y + s[i].height <= y
  }

  /** The cursor after the last placed widget, when none was skipped. */
  predicate AtEnd(s: seq<Placed>, x: int, y: int) {
    if s == [] then (x, y) == (0, 0) else (x, y) == (s[|s| - 1].x + s[|s| - 1].width, s[|s| - 1].y)
  }

  /** Each widget stands where Packed says, given those before it. */
  ghost predicate AllPacked(s: seq<Placed>) {
    s == [] || (AllPacked(s[..|s| - 1]) && Packed(s[..|s| - 1], s[|s| - 1]))
  }

  /** The loop's state: the cursor (x, y) and the height of the current row. */
  ghost predicate Packing(known: bool, s: seq<Placed>, x: int, y: int, rowHeight: int) {
    && x >= 0 && y >= 0 && rowHeight >= 0
    && InRows(s) && InGrid(s) && Front(s, x, y) && Bottom(s) == y + rowHeight
    && (known ==> AtEnd(s, x, y) && AllPacked(s))
  }

  lemma NextRow(s: seq<Placed>, x: int, y: int, rowHeight: int)
    requires Front(s, x, y) && Bottom(s) == y + rowHeight
    ensures Front(s, 0, y + rowHeight)
  {
    BelowBottom(s);
  }

  lemma {:induction false} BelowBottom(s: seq<Placed>)
    ensures forall i :: 0 <= i < |s| ==> s[i].y + s[i].height <= Bottom(s)
  {
    if s != [] {
      BelowBottom(s[..|s| - 1]);
    }
  }

  lemma PlaceInRow(s: seq<Placed>, p: Placed)
    requires p.width > 0 && InRows(s) && Front(s, p.x, p.y)
    ensures InRows(s + [p]) && Front(s + [p], p.x + p.width, p.y)
  {
  }

  lemma PlaceBottom(s: seq<Placed>, p: Placed, rowHeight: int)
    requires Bottom(s) == p.y + rowHeight && p.height > 0
    ensures Bottom(s + [p]) == p.y + if rowHeight > p.height then rowHeight else p.height
  {
    assert (s + [p])[..|s|] == s;
  }

  lemma PlacePacked(s: seq<Placed>, p: Placed)
    requires AllPacked(s) && Packed(s, p)
    ensures AllPacked(s + [p])
  {
    assert (s + [p])[..|s|] == s;
  }

  /** Placing one widget at the cursor keeps the packing. */
  lemma PlaceKeeps(known: bool, s: seq<Placed>, p: Placed, rowHeight: int)
    requires p.x >= 0 && p.y >= 0 && rowHeight >= 0 && p.width > 0 && p.height > 0
    requires p.x + p.width <= GRID_WIDTH || p.x == 0
    requires InRows(s) && InGrid(s) && Front(s, p.x, p.y) && Bottom(s) == p.y + rowHeight
    requires known ==> Packed(s, p) && AllPacked(s)
    ensures Packing(known, s + [p], p.x + p.width, p.y, if rowHeight > p.height then rowHeight else p.height)
  {
    PlaceInRow(s, p);
    PlaceInGrid(s, p);
    PlaceBottom(s, p, rowHeight);
    if known {
      PlacePacked(s, p);
    }
  }

  lemma PlaceInGrid(s: seq<Placed>, p: Placed)
    requires InGrid(s) && p.x >= 0 && p.y >= 0 && (p.x + p.width <= GRID_WIDTH || p.x == 0)
    ensures InGrid(s + [p]) && AtEnd(s + [p], p.x + p.width, p.y)
  {
  }

  lemma ShownSnoc(ws: seq<Widget>, k: nat)
    requires k < |ws|
    ensures Shown(ws[..k + 1]) == Shown(ws[..k]) + if ZabbixType(ws[k].kind).Some? then [ws[k]] else []
  {
    assert ws[..k + 1][..k] == ws[..k];
  }

  ghost predicate ShowsAll(s: seq<Placed>, ws: seq<Widget>) {
    |s| == |ws| && forall i :: 0 <= i < |s| ==> Shows(s[i], ws[i])
  }

  /** No widget reaches past the last column unless it is wider than the grid, and that one starts a row. */
  ghost predicate InGrid(s: seq<Placed>) {
    forall i :: 0 <= i < |s| ==> 0 <= s[i].x && 0 <= s[i].y && (s[i].x + s[i].width <= GRID_WIDTH || s[i].x == 0)
  }

  /** Placing a widget of a known type shows it after the others; others are not placed. */
  lemma ShowsNext(before: seq<Placed>, built: seq<Placed>, shown: seq<Widget>, w: Widget)
    requires ShowsAll(before, shown)
    requires if ZabbixType(w.kind).None? then built == before
             else |built| == |before| + 1 && built[..|before|] == before && Shows(built[|before|], w)
    ensures ShowsAll(built, shown + if ZabbixType(w.kind).Some? then [w] else [])
  {
    if ZabbixType(w.kind).Some? {
      ShowsMore(before, shown, built[|before|], w);
      assert built == before + [built[|before|]];
    } else {
      assert shown + [] == shown;
    }
  }

  lemma ShowsMore(s: seq<Placed>, ws: seq<Widget>, p: Placed, w: Widget)
    requires ShowsAll(s, ws) && Shows(p, w)
    ensures ShowsAll(s + [p], ws + [w])
  {
  }

  /** Where the widget goes: at the cursor, or at the start of the next row. */
  method Wrap(ghost known: bool, s: seq<Placed>, x: int, y: int, rowHeight: int, width: int) 
    returns (x2: int, y2: int, rowHeight2: int)
    requires Packing(known, s, x, y, rowHeight)
    ensures x2 >= 0 && y2 >= 0 && rowHeight2 >= 0 && Front(s, x2, y2) && Bottom(s) == y2 + rowHeight2
    ensures x2 + width <= GRID_WIDTH || x2 == 0
    ensures known ==> forall p: Placed :: p.width == width && (p.x, p.y) == (x2, y2) ==> Packed(s, p)
    ensures (x2, y2, rowHeight2) == if x + width > GRID_WIDTH then (0, y + rowHeight, 0) else (x, y, rowHeight)
  {
    x2, y2, rowHeight2 := x, y, rowHeight;
    if x + width > GRID_WIDTH {
      NextRow(s, x, y, rowHeight);
      x2 := 0;
      y2 := y + rowHeight;
      rowHeight2 := 0;
    }
  }

  /** The loop body of _build_page: a widget of unknown type moves the cursor at most to the next row. */
  method PlaceWidget(ghost known: bool, w: Widget, s: seq<Placed>, x: int, y: int, rowHeight: int)
    returns (built: seq<Placed>, x2: int, y2: int, rowHeight2: int)
    requires Packing(known, s, x, y, rowHeight) && Width(w) > 0 && Height(w) > 0
    ensures Packing(known && ZabbixType(w.kind).Some?, built, x2, y2, rowHeight2)
    ensures if ZabbixType(w.kind).None? then built == s
            else |built| == |s| + 1 && built[..|s|] == s && Shows(built[|s|], w)
  {
    built := s;
    x2, y2, rowHeight2 := Wrap(known, s, x, y, rowHeight, Width(w));
    var zabbixType := ZabbixType(w.kind);
    if zabbixType.None? {
      return;
    }
    var entry := WrapWidget(w, x2, y2, zabbixType.value);
    PlaceKeeps(known, s, entry, rowHeight2);
    built := s + [entry];
    x2 := x2 + Width(w);
    rowHeight2 := if rowHeight2 > Height(w) then rowHeight2 else Height(w);
  }

  /** _build_page: every widget of a known type is shown once, in order, row by row inside the grid; where no
      type is unknown, each one stands right of the one before if it fits, or else starts the first free row. */
  method BuildPage(widgets: seq<Widget>) returns (built: seq<Placed>)
    requires Positive(widgets)
    ensures ShowsAll(built, Shown(widgets))
    ensures InRows(built) && InGrid(built)
    ensures AllKnown(widgets) ==> AllPacked(built)
  {
    built := [];
    var x, y := 0, 0;
    var rowHeight := 0;
    for k := 0 to |widgets|
      invariant ShowsAll(built, Shown(widgets[..k]))
      invariant Packing(AllKnown(widgets[..k]), built, x, y, rowHeight)
    {
      ghost var before := built;
      built, x, y, rowHeight := PlaceWidget(AllKnown(widgets[..k]), widgets[k], built, x, y, rowHeight);
      ShownSnoc(widgets, k);
      KnownBefore(widgets, k);
      ShowsNext(before, built, Shown(widgets[..k]), widgets[k]);
    }
    assert widgets[..|widgets|] == widgets;
  }

  lemma KnownBefore(ws: seq<Widget>, k: nat)
    requires k < |ws|
    ensures AllKnown(ws[..k + 1]) <==> AllKnown(ws[..k]) && ZabbixType(ws[k].kind).Some?
  {
    assert ws[..k + 1] == ws[..k] + [ws[k]];
  }

  /** One widget of each type and one more, without sizes: a row of four that fills the 24 columns, and the next row. */
  method DefaultPage(t: seq<string>) returns (built: seq<Placed>)
    requires |t| == 5
    ensures built == [Placed("svggraph", t[0], 0, 0, 6, 5), Placed("item", t[1], 6, 0, 6, 5), Placed("problems", t[2], 12, 0, 6, 5),
                      Placed("clock", t[3], 18, 0, 6, 5), Placed("svggraph", t[4], 0, 5, 6, 5)]
  {
    var ws := [Widget("graph", t[0], None, None), Widget("plain_value", t[1], None, None), Widget("problems", t[2], None, None),
               Widget("clock", t[3], None, None), Widget("graph", t[4], None, None)];
    KindsAre();
    AllShown(ws);
    built := BuildPage(ws);
    Unpack(built, 4);
    Unpack(built, 3);
    Unpack(built, 2);
    Unpack(built, 1);
    Unpack(built, 0);
    RowOfFour(built);
    assert Shows(built[0], ws[0]) && Shows(built[1], ws[1]) && Shows(built[2], ws[2]) && Shows(built[3], ws[3]) && Shows(built[4], ws[4]);
  }

  lemma KindsAre()
    ensures ZabbixType("graph") == Some("svggraph") && ZabbixType("plain_value") == Some("item")
    ensures ZabbixType("problems") == Some("problems") && ZabbixType("clock") == Some("clock")
  {
  }

  lemma {:induction false} AllShown(ws: seq<Widget>)
    requires AllKnown(ws)
    ensures Shown(ws) == ws
    decreases |ws|
  {
    if ws != [] {
      AllShown(ws[..|ws| - 1]);
      assert ws == ws[..|ws| - 1] + [ws[|ws| - 1]];
    }
  }

  lemma {:induction false} Unpack(s: seq<Placed>, k: nat)
    requires AllPacked(s) && k < |s|
    ensures Packed(s[..k], s[k])
    decreases |s|
  {
    if k + 1 < |s| {
      Unpack(s[..|s| - 1], k);
      assert s[..|s| - 1][..k] == s[..k];
    }
  }

  lemma RowOfFour(s: seq<Placed>)
    requires |s| == 5 && forall k :: 0 <= k < 5 ==> s[k].width == 6 && s[k].height == 5 && Packed(s[..k], s[k])
    ensures (s[0].x, s[0].y) == (0, 0) && (s[1].x, s[1].y) == (6, 0) && (s[2].x, s[2].y) == (12, 0) && (s[3].x, s[3].y) == (18, 0)
    ensures (s[4].x, s[4].y) == (0, 5)
  {
    assert Packed(s[..0], s[0]) && Packed(s[..1], s[1]) && Packed(s[..2], s[2]) && Packed(s[..3], s[3]) && Packed(s[..4], s[4]);
    assert s[..1][..0] == [] && s[..2][..1] == s[..1] && s[..3][..2] == s[..2] && s[..4][..3] == s[..3];
    assert Bottom(s[..1]) == 5;
    assert Bottom(s[..2]) == 5;
    assert Bottom(s[..3]) == 5;
    assert Bottom(s[..4]) == 5;
  }

  /** Widgets in rows share no cell. */
  lemma RowsDoNotOverlap(s: seq<Placed>, i: nat, j: nat, cx: int, cy: int)
    requires InRows(s) && i < |s| && j < |s| && i != j
    ensures !(Covers(s[i], cx, cy) && Covers(s[j], cx, cy))
  {
    assert if i < j then After(s[i], s[j]) else After(s[j], s[i]);
  }
}
