/**
 * scraper.py: finds the mix table and the song table among the page's
 * tables, reads the mix's name, release date and region, and turns every row
 * of the song table into a song record whose charts are placed in the
 * single or double set by a rolling "is the single slot filled yet?" check.
 * Chart statistics stay the strings the page shows.
 */
module Scraper {
  import opened Text
  import opened Page

  /** A chart as this scraper stores it: the label and three raw strings. */
  datatype Chart = Chart(difficulty: string, step: string, freeze: string, shock: string)

  /** `song['single']` or `song['double']`: a slot per difficulty, None until filled. */
  type Slots = map<Difficulty, Option<Chart>>

  datatype Song = Song(
    name: string,
    nameTranslation: string,
    artist: string,
    artistTranslation: string,
    bpm: string,
    genre: string,
    unlock: string,
    single: Slots,
    double: Slots)

  /** The mix dictionary: the metadata fields found, and the songs. */
  datatype Mix = Mix(info: map<MixField, string>, songs: seq<Song>)

  /**
   * Why no pair of tables comes back: an empty page makes `tables[longest]`
   * raise IndexError; a page with no "Data" header leaves `mix_table` unbound.
   */
  datatype TableError = NoTables | NoMixTable

  datatype Result<T> = Ok(value: T) | Err(error: TableError)

  /** Indices of the mix table and of the song table. */
  datatype Picked = Picked(mixTable: nat, songsTable: nat)

  // ---------------------------------------------------------------------------
  // get_mix_and_songs_tables

  /** The first `th` from this table on exists and its text contains "Data". */
  predicate IsDataTable(t: Table) {
    t.header.Some? && Contains(t.header.value, "Data")
  }

  predicate IsLastDataTable(tables: seq<Table>, m: nat) {
    m < |tables| && IsDataTable(tables[m])
    && forall j :: m < j < |tables| ==> !IsDataTable(tables[j])
  }

  /** `k` has the largest size and every earlier table is strictly smaller. */
  predicate IsFirstLargest(tables: seq<Table>, k: nat) {
    k < |tables|
    && (forall j :: 0 <= j < |tables| ==> tables[j].size <= tables[k].size)
    && (forall j :: 0 <= j < k ==> tables[j].size < tables[k].size)
  }

  function LastDataTable(tables: seq<Table>): (r: Option<nat>)
    ensures r.Some? ==> IsLastDataTable(tables, r.value)
    ensures r.None? ==> forall j :: 0 <= j < |tables| ==> !IsDataTable(tables[j])
  {
    if tables == [] then None
    else if IsDataTable(tables[|tables| - 1]) then Some(|tables| - 1)
    else
      var init := tables[..|tables| - 1];
      assert forall j :: 0 <= j < |init| ==> init[j] == tables[j];
      LastDataTable(init)
  }

  function FirstLargest(tables: seq<Table>): (r: nat)
    requires tables != []
    ensures IsFirstLargest(tables, r)
  {
    if |tables| == 1 then 0
    else
      var init := tables[..|tables| - 1];
      assert forall j :: 0 <= j < |init| ==> init[j] == tables[j];
      var k := FirstLargest(init);
      if tables[|tables| - 1].size > tables[k].size then |tables| - 1 else k
  }

  /**
   * The tables the scraper picks: the mix table is the last one whose header
   * contains "Data", the song table the first of the largest.
   */
  function PickTables(tables: seq<Table>): (r: Result<Picked>)
    ensures r == Err(NoTables) <==> tables == []
    ensures r == Err(NoMixTable) <==>
      tables != [] && forall j :: 0 <= j < |tables| ==> !IsDataTable(tables[j])
    ensures r.Ok? ==> IsLastDataTable(tables, r.value.mixTable)
                      && IsFirstLargest(tables, r.value.songsTable)
  {
    if tables == [] then Err(NoTables)
    else match LastDataTable(tables)
      case None => Err(NoMixTable)
      case Some(m) => Ok(Picked(m, FirstLargest(tables)))
  }

  method GetMixAndSongsTables(tables: seq<Table>) returns (r: Result<Picked>)
    ensures r == PickTables(tables)
  {
    var longest := 0;
    var mixTable: Option<nat> := None;
    for i := 0 to |tables|
      invariant mixTable == LastDataTable(tables[..i])
      invariant if i == 0 then longest == 0 else longest == FirstLargest(tables[..i])
    {
      assert tables[..i + 1][..i] == tables[..i];
      if IsDataTable(tables[i]) {
        mixTable := Some(i);
      }
      if tables[i].size > tables[longest].size {
        longest := i;
      }
    }
    assert tables[..|tables|] == tables;
    if tables == [] {
      return Err(NoTables);
    }
    match mixTable {
      case None => r := Err(NoMixTable);
      case Some(m) => r := Ok(Picked(m, longest));
    }
  }

  // ---------------------------------------------------------------------------
  // get_mix_data

  /** The mix fields after reading `rows` in order; a later row overwrites an earlier one. */
  function MixInfo(rows: seq<Row>): map<MixField, string>
    requires MixRowsOk(rows)
  {
    if rows == [] then map[]
    else
      var init := rows[..|rows| - 1];
      assert forall j :: 0 <= j < |init| ==> init[j] == rows[j];
      var r := rows[|rows| - 1];
      match RowRoute(r)
      case None => MixInfo(init)
      case Some(f) => MixInfo(init)[f := r.tds[1].text]
  }

  /** A field is present exactly when some row is routed to it, and the last such row wins. */
  lemma {:induction false} MixInfoLastWins(rows: seq<Row>, f: MixField)
    requires MixRowsOk(rows)
    ensures f in MixInfo(rows) <==> LastRouted(rows, f).Some?
    ensures f in MixInfo(rows) ==>
      MixInfo(rows)[f] == rows[LastRouted(rows, f).value].tds[1].text
  {
    if rows != [] {
      var init := rows[..|rows| - 1];
      assert forall j :: 0 <= j < |init| ==> init[j] == rows[j];
      MixInfoLastWins(init, f);
    }
  }

  method GetMixData(table: Table) returns (mix: map<MixField, string>)
    requires MixRowsOk(table.rows)
    ensures mix == MixInfo(table.rows)
  {
    var rows := table.rows;
    mix := map[];
    for i := 0 to |rows|
      invariant mix == MixInfo(rows[..i])
    {
      assert rows[..i + 1][..i] == rows[..i];
      var cols := rows[i].tds;
      if cols == [] {
        continue;
      }
      var key := Lower(cols[0].text);
      var field: MixField;
      if Contains(key, "name") {
        field := Name;
      } else if Contains(key, "release date") {
        field := Release;
      } else if Contains(key, "region") {
        field := Region;
      } else {
        continue;
      }
      mix := mix[field := cols[1].text];
    }
    assert rows[..|rows|] == rows;
  }

  // ---------------------------------------------------------------------------
  // get_song_data: the song record and its fields

  /** The placeholder song: all strings empty, every slot None, no beginner slot for double. */
  function NewSong(): (s: Song)
    ensures s.name == "" && s.nameTranslation == "" && s.artist == "" && s.artistTranslation == ""
    ensures s.bpm == "" && s.genre == "" && s.unlock == ""
    ensures s.single.Keys == AllDifficulties && s.double.Keys == DoubleDifficulties
    ensures Beginner !in s.double
    ensures forall d :: d in s.single ==> s.single[d] == None
    ensures forall d :: d in s.double ==> s.double[d] == None
  {
    Song("", "", "", "", "", "", "",
         map d | d in AllDifficulties :: None,
         map d | d in DoubleDifficulties :: None)
  }

  // ---------------------------------------------------------------------------
  // get_song_data: chart cells

  /** The colour classes tested in order; the first one present decides the difficulty. */
  function Classify(classes: seq<string>): (r: Option<Difficulty>)
    ensures r.None? ==> forall d :: Colour(d) !in classes
    ensures r.Some? ==> Colour(r.value) in classes
                        && forall e :: Rank(e) < Rank(r.value) ==> Colour(e) !in classes
  {
    if "lightblue" in classes then Some(Beginner)
    else if "yellow" in classes then Some(Basic)
    else if "fuchsia" in classes then Some(Difficult)
    else if "green" in classes then Some(Expert)
    else if "purple" in classes then Some(Challenge)
    else None
  }

  /** A coloured cell has a `<strong>`, and a `<small>` unless its label holds a '-'. */
  predicate ChartCellOk(c: Cell) {
    Classify(c.classes).Some? ==>
      c.strong.Some? && ('-' !in Strip(c.strong.value) ==> c.small.Some?)
  }

  /** Token `k` of a split, or '' when the split is shorter. */
  function TokenOr(tokens: seq<string>, k: nat): string {
    if k < |tokens| then tokens[k] else ""
  }

  /** The chart a cell yields: its label, and the stripped small text split on " / ". */
  function ChartOf(shown: string, small: string): Chart {
    var tokens := StatPieces(small);
    Chart(shown, TokenOr(tokens, 0), TokenOr(tokens, 1), TokenOr(tokens, 2))
  }

  /** The three statistics popped off the split one by one, '' once it runs out. */
  method FillChart(shown: string, small: string) returns (chart: Chart)
    ensures chart == ChartOf(shown, small)
  {
    var tokens := StatPieces(small);
    var data := tokens;
    var values: seq<string> := [];
    for k := 0 to 3
      invariant |values| == k
      invariant data == if k <= |tokens| then tokens[k..] else []
      invariant forall j :: 0 <= j < k ==> values[j] == TokenOr(tokens, j)
    {
      if data != [] {
        values := values + [data[0]];
        data := data[1..];
      } else {
        values := values + [""];
      }
    }
    chart := Chart(shown, values[0], values[1], values[2]);
  }

  /** The two chart sets of one song while its cells are read. */
  datatype Charts = Charts(single: Slots, double: Slots)

  predicate SlotsOk(ch: Charts) {
    ch.single.Keys == AllDifficulties
  }

  function FreshCharts(): Charts {
    Charts(NewSong().single, NewSong().double)
  }

  /**
   * One iteration of the chart loop: a coloured cell goes to `single` when
   * that slot is still None and to `double` otherwise, unless its label
   * contains a '-'.
   */
  function PlaceCell(ch: Charts, c: Cell): (r: Charts)
    requires SlotsOk(ch) && ChartCellOk(c)
    ensures SlotsOk(r)
  {
    match Classify(c.classes)
    case None => ch
    case Some(d) =>
      var toDouble := ch.single[d].Some?;
      var shown := Strip(c.strong.value);
      if '-' in shown then ch
      else
        var chart := ChartOf(shown, c.small.value);
        if toDouble then ch.(double := ch.double[d := Some(chart)])
        else ch.(single := ch.single[d := Some(chart)])
  }

  /** The chart sets after the loop has read `cs` in document order. */
  function PlaceAll(cs: seq<Cell>): (r: Charts)
    requires forall c :: c in cs ==> ChartCellOk(c)
    ensures SlotsOk(r)
  {
    if cs == [] then FreshCharts()
    else
      var init := cs[..|cs| - 1];
      assert forall c :: c in init ==> c in cs;
      PlaceCell(PlaceAll(init), cs[|cs| - 1])
  }

  /** A cell of difficulty `d` that is stored somewhere: its label has no '-'. */
  predicate Accepts(c: Cell, d: Difficulty) {
    Classify(c.classes) == Some(d) && c.strong.Some? && '-' !in Strip(c.strong.value)
  }

  /** The cells of `cs` that store a chart of difficulty `d`, in document order. */
  function Accepted(cs: seq<Cell>, d: Difficulty): (acc: seq<Cell>)
    ensures forall i :: 0 <= i < |acc| ==> acc[i] in cs && Accepts(acc[i], d)
  {
    if cs == [] then []
    else
      var init := cs[..|cs| - 1];
      assert forall c :: c in init ==> c in cs;
      var last := cs[|cs| - 1];
      Accepted(init, d) + (if Accepts(last, d) then [last] else [])
  }

  /** Every cell of `cs` accepted for `d` is among the cells stored for it. */
  lemma {:induction false} AcceptedComplete(cs: seq<Cell>, d: Difficulty, c: Cell)
    requires c in cs && Accepts(c, d)
    ensures c in Accepted(cs, d)
  {
    var init := cs[..|cs| - 1];
    assert cs == init + [cs[|cs| - 1]];
    if c != cs[|cs| - 1] {
      assert c in init;
      AcceptedComplete(init, d, c);
    }
  }

  /** The accepted cells of two stretches of a row, in document order. */
  lemma {:induction false} AcceptedConcat(a: seq<Cell>, b: seq<Cell>, d: Difficulty)
    ensures Accepted(a + b, d) == Accepted(a, d) + Accepted(b, d)
    decreases |b|
  {
    if b == [] {
      assert a + b == a;
    } else {
      var init := b[..|b| - 1];
      var last := b[|b| - 1];
      assert (a + b)[..|a + b| - 1] == a + init;
      assert (a + b)[|a + b| - 1] == last;
      AcceptedConcat(a, init, d);
    }
  }

  function CellChart(c: Cell): Chart
    requires c.strong.Some? && c.small.Some?
  {
    ChartOf(Strip(c.strong.value), c.small.value)
  }

  /** The chart sets hold, for `d`, what the cells `acc` it accepted so far leave there. */
  predicate PlacedAs(r: Charts, acc: seq<Cell>, d: Difficulty)
    requires forall i :: 0 <= i < |acc| ==> acc[i].strong.Some? && acc[i].small.Some?
  {
    && d in r.single
    && r.single[d] == (if acc == [] then None else Some(CellChart(acc[0])))
    && (d in r.double <==> d != Beginner || |acc| >= 2)
    && (d in r.double ==>
          r.double[d] == if |acc| >= 2 then Some(CellChart(acc[|acc| - 1])) else None)
  }

  /** One more cell keeps the placement rule for `d`. */
  lemma PlacementStep(before: Charts, acc: seq<Cell>, c: Cell, d: Difficulty)
    requires SlotsOk(before) && ChartCellOk(c)
    requires forall i :: 0 <= i < |acc| ==> acc[i].strong.Some? && acc[i].small.Some?
    requires PlacedAs(before, acc, d)
    ensures Accepts(c, d) ==> c.small.Some?
    ensures PlacedAs(PlaceCell(before, c), acc + (if Accepts(c, d) then [c] else []), d)
  {
    if Accepts(c, d) {
      PlacementStepAccepted(before, acc, c, d);
    } else {
      PlacementStepSkipped(before, acc, c, d);
      assert acc + [] == acc;
    }
  }

  /** An accepted cell fills the single slot if it is the first, and the double slot otherwise. */
  lemma PlacementStepAccepted(before: Charts, acc: seq<Cell>, c: Cell, d: Difficulty)
    requires SlotsOk(before) && ChartCellOk(c) && Accepts(c, d)
    requires forall i :: 0 <= i < |acc| ==> acc[i].strong.Some? && acc[i].small.Some?
    requires PlacedAs(before, acc, d)
    ensures c.small.Some?
    ensures PlacedAs(PlaceCell(before, c), acc + [c], d)
  {
    var after := PlaceCell(before, c);
    var acc' := acc + [c];
    if acc == [] {
      assert after.single == before.single[d := Some(CellChart(c))];
      assert after.double == before.double;
    } else {
      assert after.single == before.single;
      assert after.double == before.double[d := Some(CellChart(c))];
      assert acc'[0] == acc[0] && acc'[|acc'| - 1] == c;
    }
  }

  /** A cell not accepted for `d` leaves the slots of `d` alone. */
  lemma PlacementStepSkipped(before: Charts, acc: seq<Cell>, c: Cell, d: Difficulty)
    requires SlotsOk(before) && ChartCellOk(c) && !Accepts(c, d)
    requires forall i :: 0 <= i < |acc| ==> acc[i].strong.Some? && acc[i].small.Some?
    requires PlacedAs(before, acc, d)
    ensures PlacedAs(PlaceCell(before, c), acc, d)
  {
    var after := PlaceCell(before, c);
    assert after.single[d] == before.single[d];
    assert d in after.double <==> d in before.double;
    assert d in after.double ==> after.double[d] == before.double[d];
  }

  /**
   * The placement rule: the first accepted cell of a difficulty is its
   * single chart, every later one overwrites its double chart, and the
   * double set gains a beginner slot only from a second accepted beginner cell.
   */
  lemma {:induction false} Placement(cs: seq<Cell>, d: Difficulty)
    requires forall c :: c in cs ==> ChartCellOk(c)
    ensures forall i :: 0 <= i < |Accepted(cs, d)| ==>
      Accepted(cs, d)[i].strong.Some? && Accepted(cs, d)[i].small.Some?
    ensures PlacedAs(PlaceAll(cs), Accepted(cs, d), d)
  {
    AcceptedCellsOk(cs, d);
    if cs != [] {
      var init := cs[..|cs| - 1];
      var c := cs[|cs| - 1];
      assert forall x :: x in init ==> x in cs;
      Placement(init, d);
      assert PlaceAll(cs) == PlaceCell(PlaceAll(init), c);
      assert Accepted(cs, d) == Accepted(init, d) + (if Accepts(c, d) then [c] else []);
      PlacementStep(PlaceAll(init), Accepted(init, d), c, d);
    }
  }

  /** Every accepted cell has a label and a small, so it yields a chart. */
  lemma AcceptedCellsOk(cs: seq<Cell>, d: Difficulty)
    requires forall c :: c in cs ==> ChartCellOk(c)
    ensures forall i :: 0 <= i < |Accepted(cs, d)| ==>
      Accepted(cs, d)[i].strong.Some? && Accepted(cs, d)[i].small.Some?
  {
    var acc := Accepted(cs, d);
    forall i | 0 <= i < |acc|
      ensures acc[i].strong.Some? && acc[i].small.Some?
    {
      assert ChartCellOk(acc[i]) && Accepts(acc[i], d);
    }
  }

  /** A cell without a colour, or whose label contains '-', leaves both chart sets alone. */
  lemma SkippedCell(ch: Charts, c: Cell)
    requires SlotsOk(ch) && ChartCellOk(c)
    requires Classify(c.classes).None? || '-' in Strip(c.strong.value)
    ensures PlaceCell(ch, c) == ch
  {
  }

  /** Slots are only ever set: a single chart never changes again, a double slot never empties. */
  lemma PlaceCellKeeps(ch: Charts, c: Cell, d: Difficulty)
    requires SlotsOk(ch) && ChartCellOk(c)
    ensures var r := PlaceCell(ch, c);
      && (ch.single[d].Some? ==> r.single[d] == ch.single[d])
      && ch.double.Keys <= r.double.Keys
      && (d in ch.double && ch.double[d].Some? ==> r.double[d].Some?)
  {
  }

  // ---------------------------------------------------------------------------
  // get_song_data: rows

  /**
   * What the row body dereferences without a guard: a "border" info cell
   * with a `<strong>` and a genre span, a "border centre" bpm cell among the
   * remaining cells, and chart cells with what the chart loop reads.
   */
  predicate SongRowOk(row: Row) {
    match InfoIndex(row.tds)
    case None => false
    case Some(k) =>
      var info := row.tds[k];
      var cells := RemoveAt(row.tds, k);
      info.strong.Some? && info.info.genre.Some? && BpmIndex(cells).Some?
      && forall c :: c in cells ==> ChartCellOk(c)
  }

  /** The row's cells once the info cell has been extracted. */
  function ChartCells(row: Row): seq<Cell>
    requires InfoIndex(row.tds).Some?
  {
    RemoveAt(row.tds, InfoIndex(row.tds).value)
  }

  /** The song record of one row. */
  function SongOf(row: Row): Song
    requires SongRowOk(row)
  {
    var info := row.tds[InfoIndex(row.tds).value];
    var cells := ChartCells(row);
    var charts := PlaceAll(cells);
    Song(
      name := Strip(info.strong.value),
      nameTranslation := HoverOr(info.info.nameHover),
      artist := Strip(info.info.remainder),
      artistTranslation := HoverOr(info.info.remainderHover),
      bpm := cells[BpmIndex(cells).value].text,
      genre := Strip(info.info.genre.value),
      unlock := match info.info.imgTitle case None => "" case Some(t) => t,
      single := charts.single,
      double := charts.double)
  }

  /**
   * The chart loop of one row: read the cells in document order and store
   * each accepted chart in the single or the double set of the song.
   */
  method FillCharts(start: Song, cells: seq<Cell>) returns (song: Song)
    requires start.single == FreshCharts().single && start.double == FreshCharts().double
    requires forall c :: c in cells ==> ChartCellOk(c)
    ensures song == start.(single := PlaceAll(cells).single, double := PlaceAll(cells).double)
  {
    song := start;
    for i := 0 to |cells|
      invariant song.single == PlaceAll(cells[..i]).single
      invariant song.double == PlaceAll(cells[..i]).double
      invariant song.(single := start.single, double := start.double) == start
    {
      var col := cells[i];
      assert col in cells;
      ghost var ch := PlaceAll(cells[..i]);
      assert cells[..i + 1][..i] == cells[..i];
      assert forall c :: c in cells[..i + 1] ==> c in cells;
      assert PlaceAll(cells[..i + 1]) == PlaceCell(ch, col);
      var colour := Classify(col.classes);
      if colour.None? {
        continue;
      }
      var d := colour.value;
      var toDouble := song.single[d].Some?;
      var shown := Strip(col.strong.value);
      if '-' in shown {
        continue;
      }
      var chart := FillChart(shown, col.small.value);
      if toDouble {
        song := song.(double := song.double[d := Some(chart)]);
      } else {
        song := song.(single := song.single[d := Some(chart)]);
      }
    }
    assert cells[..|cells|] == cells;
  }

  /** The body of the row loop: fill the placeholder song field by field, then its charts. */
  method ParseSong(row: Row) returns (song: Song)
    requires SongRowOk(row)
    ensures song == SongOf(row)
  {
    song := NewSong();
    var k := InfoIndex(row.tds).value;
    var songData := row.tds[k];
    var cells := RemoveAt(row.tds, k);
    assert forall c :: c in cells ==> ChartCellOk(c);

    song := song.(name := Strip(songData.strong.value));
    match songData.info.nameHover {
      case Some(attr) => song := song.(nameTranslation := HoverText(attr));
      case None =>
    }
    song := song.(genre := Strip(songData.info.genre.value));
    song := song.(artist := Strip(songData.info.remainder));
    match songData.info.remainderHover {
      case Some(attr) => song := song.(artistTranslation := HoverText(attr));
      case None =>
    }
    song := song.(bpm := cells[BpmIndex(cells).value].text);
    match songData.info.imgTitle {
      case Some(title) => song := song.(unlock := title);
      case None =>
    }

    song := FillCharts(song, cells);
  }

  /** One song per row, in row order. */
  predicate SongsOf(rows: seq<Row>, songs: seq<Song>)
    requires forall i :: 0 <= i < |rows| ==> SongRowOk(rows[i])
  {
    |songs| == |rows| && forall i :: 0 <= i < |rows| ==> songs[i] == SongOf(rows[i])
  }

  method GetSongData(table: Table) returns (songs: seq<Song>)
    requires forall i :: 0 <= i < |table.rows| ==> SongRowOk(table.rows[i])
    ensures SongsOf(table.rows, songs)
  {
    songs := [];
    for i := 0 to |table.rows|
      invariant |songs| == i
      invariant forall j :: 0 <= j < i ==> songs[j] == SongOf(table.rows[j])
    {
      var song := ParseSong(table.rows[i]);
      songs := songs + [song];
    }
  }

  // ---------------------------------------------------------------------------
  // main, without the fetch and the file

  /** The two tables the scrape reads have the shape their readers dereference. */
  predicate PickedTablesOk(tables: seq<Table>) {
    match PickTables(tables)
    case Err(_) => true
    case Ok(p) =>
      MixRowsOk(tables[p.mixTable].rows)
      && forall i :: 0 <= i < |tables[p.songsTable].rows| ==> SongRowOk(tables[p.songsTable].rows[i])
  }

  method Scrape(tables: seq<Table>) returns (r: Result<Mix>)
    requires PickedTablesOk(tables)
    ensures r.Err? <==> PickTables(tables).Err?
    ensures r.Err? ==> r.error == PickTables(tables).error
    ensures r.Ok? ==>
      var p := PickTables(tables).value;
      r.value.info == MixInfo(tables[p.mixTable].rows)
      && SongsOf(tables[p.songsTable].rows, r.value.songs)
  {
    var picked := GetMixAndSongsTables(tables);
    match picked {
      case Err(e) => r := Err(e);
      case Ok(p) =>
        var info := GetMixData(tables[p.mixTable]);
        var songs := GetSongData(tables[p.songsTable]);
        r := Ok(Mix(info, songs));
    }
  }
}
