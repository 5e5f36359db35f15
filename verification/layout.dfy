/** Filling the cover grid from the list of game records (`populate_games`). */
module Layout {
  import opened Values
  import opened Text
  import opened Grid
  import opened Games

  /** A cover button: the record it launches and the cell it believes it sits in. */
  datatype Button = Button(game: Record, row: int, col: int)

  /** A layout item: possibly a widget, at a grid cell. */
  datatype Item = Item(widget: Option<Button>, cell: Cell)

  /** The grid layout's items in insertion order. */
  datatype GridLayout = GridLayout(items: seq<Item>)

  /** The widgets among `items`, in order. */
  function Widgets(items: seq<Item>): seq<Button> {
    if items == [] then []
    else (if items[0].widget.Some? then [items[0].widget.value] else []) + Widgets(items[1..])
  }

  /** The item `populate_games` adds for record `i`. */
  function PlacedItem(game: Record, i: nat): Item {
    Item(Some(Button(game, Place(i).row, Place(i).col)), Place(i))
  }

  /**
   * The clearing loop: take item 0 until the layout is empty, scheduling
   * every widget taken for deletion.
   */
  method Clear(layout: GridLayout) returns (cleared: GridLayout, deleted: seq<Button>)
    ensures cleared.items == []
    ensures deleted == Widgets(layout.items)
  {
    var items := layout.items;
    deleted := [];
    while |items| > 0
      invariant Widgets(layout.items) == deleted + Widgets(items)
      decreases |items|
    {
      var child := items[0];
      items := items[1..];
      if child.widget.Some? {
        deleted := deleted + [child.widget.value];
      }
    }
    cleared := GridLayout(items);
  }

  /**
   * `populate_games`: removes every existing item, then adds one button per
   * record, record `i` at row `i div 5` and column `i mod 5`, in list order.
   */
  method Populate(layout: GridLayout, games: seq<Record>) returns (filled: GridLayout, deleted: seq<Button>)
    ensures deleted == Widgets(layout.items)
    ensures |filled.items| == |games|
    ensures forall i :: 0 <= i < |games| ==> filled.items[i] == PlacedItem(games[i], i)
  {
    var cleared;
    cleared, deleted := Clear(layout);
    var items := cleared.items;
    var row, col := 0, 0;
    for i := 0 to |games|
      invariant |items| == i
      invariant row == i / Columns && col == i % Columns
      invariant forall j :: 0 <= j < i ==> items[j] == PlacedItem(games[j], j)
    {
      var button := Button(games[i], row, col);
      items := items + [Item(Some(button), Cell(row, col))];
      col := col + 1;
      if col >= Columns {
        col := 0;
        row := row + 1;
      }
    }
    filled := GridLayout(items);
  }

  /**
   * The filled layout is one button per record, each record in a different
   * cell, in reading order, each button agreeing with the cell it is in, and
   * the cells used are exactly those of the first `|games|` reading positions.
   */
  lemma {:induction false} PopulatedGridShape(games: seq<Record>, items: seq<Item>)
    requires |items| == |games|
    requires forall i :: 0 <= i < |games| ==> items[i] == PlacedItem(games[i], i)
    ensures |Widgets(items)| == |games|
    ensures forall i, j :: 0 <= i < j < |items| ==> Index(items[i].cell) < Index(items[j].cell)
    ensures forall i :: 0 <= i < |items| ==>
      items[i].widget.Some? && items[i].widget.value.game == games[i] &&
      items[i].cell == Cell(items[i].widget.value.row, items[i].widget.value.col)
    ensures (set i | 0 <= i < |items| :: items[i].cell) == Cells(|games|)
  {
    WidgetsOfPlaced(games, items);
    forall i, j | 0 <= i < j < |items|
      ensures Index(items[i].cell) < Index(items[j].cell)
    {
      PlaceRowMajor(i, j);
    }
    assert (set i | 0 <= i < |items| :: items[i].cell) == Cells(|games|) by {
      forall c | c in Cells(|games|)
        ensures c in (set i | 0 <= i < |items| :: items[i].cell)
      {
        var i :| 0 <= i < |games| && Place(i) == c;
        assert items[i].cell == c;
      }
    }
  }

  lemma {:induction false} WidgetsOfPlaced(games: seq<Record>, items: seq<Item>)
    requires |items| == |games|
    requires forall i :: 0 <= i < |games| ==> items[i].widget.Some?
    ensures |Widgets(items)| == |games|
    decreases |items|
  {
    if items != [] {
      WidgetsOfPlaced(games[1..], items[1..]);
    }
  }

  /** `ALL GAMES (n)`: the header above the grid. */
  const HeaderPrefix: string := "ALL GAMES ("

  function Header(games: seq<Record>): string {
    HeaderPrefix + Decimal(|games|) + ")"
  }

  /** Reads the count back out of a header, if it has the header's shape. */
  function ParseHeader(s: string): Option<nat> {
    var p := |HeaderPrefix|;
    if |s| >= p + 2 && s[..p] == HeaderPrefix && s[|s| - 1] == ')' && AllDigits(s[p..|s| - 1])
    then Some(DigitsValue(s[p..|s| - 1]))
    else None
  }

  /** The header reports exactly the number of records, which is the number of buttons. */
  lemma HeaderReportsCount(games: seq<Record>)
    ensures ParseHeader(Header(games)) == Some(|games|)
  {
    var h := Header(games);
    var p := |HeaderPrefix|;
    assert h[..p] == HeaderPrefix;
    assert h[p..|h| - 1] == Decimal(|games|);
    DecimalRoundTrip(|games|);
  }
}
