/**
 * When the two scrapers read a page the same way.  They share the row
 * routing of the mix table and the way the info cell is taken apart, but
 * differ in how a chart cell becomes a single or a double chart: scraper.py
 * places by "is the single slot filled yet?", scrape_zenius.py by position
 * among the cells of one colour.  On tidy rows the two placements
 * coincide.  A tidy row is one both scrapers can read, in which every
 * coloured cell has exactly the classes "centre <colour>", a label without
 * '-' that equals its whole stripped text outside the small, and a small
 * with at most three statistics, and in which no colour has more than two
 * cells.
 */
module Agreement {
  import opened Text
  import opened Page
  import Scraper
  import Zenius

  // ---------------------------------------------------------------------------
  // Mix metadata

  /** Scraper.py's mix fields with scrape_zenius.py's one rename applied to the name. */
  function Renamed(m: map<MixField, string>): map<MixField, string> {
    if Name in m then m[Name := Zenius.RenameMix(m[Name])] else m
  }

  /**
   * Both scrapers route the same rows to the same fields; scrape_zenius.py
   * differs only by renaming the stored name.
   */
  lemma {:induction false} MixDataAgree(rows: seq<Row>)
    requires MixRowsOk(rows)
    ensures Zenius.MixInfo(rows) == Renamed(Scraper.MixInfo(rows))
  {
    if rows != [] {
      var init := rows[..|rows| - 1];
      assert forall j :: 0 <= j < |init| ==> init[j] == rows[j];
      MixDataAgree(init);
      var r := rows[|rows| - 1];
      match RowRoute(r) {
        case None =>
        case Some(f) =>
          RenamedStep(Scraper.MixInfo(init), f, r.tds[1].text);
      }
    }
  }

  /** Storing a value and then renaming is renaming and then storing the renamed value. */
  lemma RenamedStep(m: map<MixField, string>, f: MixField, v: string)
    ensures Renamed(m[f := v]) == Renamed(m)[f := if f == Name then Zenius.RenameMix(v) else v]
  {
  }

  /** The rename touches only the one name the site gives DDR 2013/2014. */
  lemma RenameOnlyNew(m: map<MixField, string>)
    ensures Renamed(m).Keys == m.Keys
    ensures forall f :: f in m && f != Name ==> Renamed(m)[f] == m[f]
    ensures Name in m && m[Name] != "DanceDanceRevolution (New)" ==> Renamed(m)[Name] == m[Name]
    ensures Name in m && m[Name] == "DanceDanceRevolution (New)" ==>
      Renamed(m)[Name] == "DanceDanceRevolution 2013"
  {
  }

  // ---------------------------------------------------------------------------
  // Chart cells

  /**
   * A chart cell both scrapers read alike: a coloured cell has exactly the
   * classes "centre" and its colour, a label without '-' that is also the
   * whole text outside its small, and a small with at most three pieces.
   */
  predicate Tidy(c: Cell) {
    match Scraper.Classify(c.classes)
    case None => true
    case Some(d) =>
      c.classes == ["centre", Colour(d)] && c.strong.Some? && '-' !in Strip(c.strong.value)
      && c.small.Some? && |Zenius.Tokens(c)| <= 3
      && Strip(c.strong.value) == Strip(c.textOutsideSmall)
  }

  /** On a tidy cell, scraper.py accepts it for `d` exactly when scrape_zenius.py finds it for `d`. */
  lemma TidyMatches(c: Cell, d: Difficulty)
    requires Tidy(c)
    ensures Scraper.Accepts(c, d) <==> Zenius.Matches(c, Colour(d))
  {
    if Zenius.Matches(c, Colour(d)) {
      assert Colour(d) in c.classes;
      var r := Scraper.Classify(c.classes);
      assert r.Some?;
      ColourInjective(r.value, d);
    }
  }

  /** The cells scraper.py accepts for a difficulty are, on tidy cells, the ones scrape_zenius.py finds. */
  lemma {:induction false} AcceptedIsChartList(cs: seq<Cell>, d: Difficulty)
    requires forall c :: c in cs ==> Tidy(c)
    ensures Scraper.Accepted(cs, d) == Zenius.ChartList(cs, Colour(d))
  {
    if cs != [] {
      var init := cs[..|cs| - 1];
      var last := cs[|cs| - 1];
      assert forall c :: c in init ==> c in cs;
      AcceptedIsChartList(init, d);
      assert cs == init + [last];
      Zenius.ChartListConcat(init, [last], Colour(d));
      TidyMatches(last, d);
      assert Zenius.ChartList([last], Colour(d)) == if Zenius.Matches(last, Colour(d)) then [last] else [];
    }
  }

  /** The info cell is never a chart cell, so removing it does not change what scrape_zenius.py finds. */
  lemma InfoCellNotChart(tds: seq<Cell>, k: nat, d: Difficulty)
    requires k < |tds| && IsInfoCell(tds[k])
    ensures Zenius.ChartList(RemoveAt(tds, k), Colour(d)) == Zenius.ChartList(tds, Colour(d))
  {
    var a, x, b := tds[..k], tds[k], tds[k + 1..];
    var colour := Colour(d);
    ColourInjective(d, d);
    assert !Zenius.Matches(x, colour);
    var xb := [x] + b;
    assert xb[0] == x && xb[1..] == b;
    assert Zenius.ChartList(xb, colour) == Zenius.ChartList(b, colour);
    assert tds == a + xb;
    assert RemoveAt(tds, k) == a + b;
    Zenius.ChartListConcat(a, xb, colour);
    Zenius.ChartListConcat(a, b, colour);
  }

  /** scraper.py's string chart as scrape_zenius.py would convert it. */
  function ToZ(ch: Scraper.Chart): Zenius.Stats {
    map[Zenius.StepCount := IntOr0(ch.step), Zenius.FreezeCount := IntOr0(ch.freeze),
        Zenius.ShockCount := IntOr0(ch.shock), Zenius.DifficultyLabel := IntOr0(ch.difficulty)]
  }

  /**
   * On a tidy coloured cell, converting scraper.py's chart to integers gives
   * scrape_zenius.py's statistics: a missing piece is '' there and 0 here,
   * and both read as 0.
   */
  lemma ChartAgrees(c: Cell)
    requires c.strong.Some? && c.small.Some? && |Zenius.Tokens(c)| <= 3
    requires Strip(c.strong.value) == Strip(c.textOutsideSmall)
    ensures ToZ(Scraper.CellChart(c)) == Zenius.StatsOf(c)
  {
    var ch := Scraper.CellChart(c);
    var raw := Zenius.RawStats(c);
    FieldsAgree(c);
    StatsOfFields(c);
    assert Zenius.StatsOf(c) == map[Zenius.StepCount := IntOr0(ch.step), Zenius.FreezeCount := IntOr0(ch.freeze),
        Zenius.ShockCount := IntOr0(ch.shock), Zenius.DifficultyLabel := IntOr0(ch.difficulty)];
  }

  /** A tidy coloured cell meets the conditions of ChartAgrees. */
  lemma TidyChartAgrees(c: Cell)
    requires Tidy(c) && Scraper.Classify(c.classes).Some?
    ensures c.strong.Some? && c.small.Some? && ToZ(Scraper.CellChart(c)) == Zenius.StatsOf(c)
  {
    ChartAgrees(c);
  }

  /** Field by field, a cell's raw statistic converts to what scraper.py's string converts to. */
  lemma FieldsAgree(c: Cell)
    requires c.strong.Some? && c.small.Some? && |Zenius.Tokens(c)| <= 3
    requires Strip(c.strong.value) == Strip(c.textOutsideSmall)
    ensures var ch, raw := Scraper.CellChart(c), Zenius.RawStats(c);
      && Zenius.Convert(raw[Zenius.StepCount]) == IntOr0(ch.step)
      && Zenius.Convert(raw[Zenius.FreezeCount]) == IntOr0(ch.freeze)
      && Zenius.Convert(raw[Zenius.ShockCount]) == IntOr0(ch.shock)
      && Zenius.Convert(raw[Zenius.DifficultyLabel]) == IntOr0(ch.difficulty)
  {
    PyIntNoDigit("");
    PyIntNoDigit("-");
    assert IntOr0("") == 0;
  }

  /** The converted statistics, written out key by key. */
  lemma StatsOfFields(c: Cell)
    requires c.small.Some?
    ensures var raw := Zenius.RawStats(c);
      Zenius.StatsOf(c) == map[Zenius.StepCount := Zenius.Convert(raw[Zenius.StepCount]),
        Zenius.FreezeCount := Zenius.Convert(raw[Zenius.FreezeCount]),
        Zenius.ShockCount := Zenius.Convert(raw[Zenius.ShockCount]),
        Zenius.DifficultyLabel := Zenius.Convert(raw[Zenius.DifficultyLabel])]
  {
  }

  // ---------------------------------------------------------------------------
  // Rows

  /** A row both scrapers can read, whose cells are tidy, with at most two cells per colour. */
  predicate TidyRow(row: Row) {
    Scraper.SongRowOk(row) && Zenius.SongRowOk(row)
    && (forall c :: c in row.tds ==> Tidy(c))
    && forall d :: |Zenius.ChartList(row.tds, Colour(d))| <= 2
  }

  /**
   * With the same cells of `d` found by both, at most two of them, the
   * chart sets of the two scrapers hold the same charts of `d`.
   */
  lemma SlotsAgree(ch: Scraper.Charts, tds: seq<Cell>, d: Difficulty)
    requires SameList(ch, tds, d)
    ensures var single, double := Zenius.ChartSetOf(tds, 0), Zenius.ChartSetOf(tds, 1);
      && (d in single <==> ch.single[d].Some?)
      && (d in single ==> single[d] == ToZ(ch.single[d].value))
      && (d in double <==> d in ch.double && ch.double[d].Some?)
      && (d in double ==> double[d] == ToZ(ch.double[d].value))
  {
    SingleAgrees(ch, tds, d);
    DoubleAgrees(ch, tds, d);
  }

  /** Both scrapers work from the same at most two tidy coloured cells of `d`, placed as scraper.py places them. */
  predicate SameList(ch: Scraper.Charts, tds: seq<Cell>, d: Difficulty) {
    var list := Zenius.ChartList(tds, Colour(d));
    && |list| <= 2
    && (forall i :: 0 <= i < |list| ==> Tidy(list[i]) && Scraper.Classify(list[i].classes).Some?)
    && Scraper.PlacedAs(ch, list, d)
  }

  lemma SingleAgrees(ch: Scraper.Charts, tds: seq<Cell>, d: Difficulty)
    requires SameList(ch, tds, d)
    ensures var single := Zenius.ChartSetOf(tds, 0);
      && (d in single <==> ch.single[d].Some?)
      && (d in single ==> single[d] == ToZ(ch.single[d].value))
  {
    var list := Zenius.ChartList(tds, Colour(d));
    Zenius.ChartSetMembers(tds, d, 0);
    if |list| >= 1 {
      TidyChartAgrees(list[0]);
    }
  }

  lemma DoubleAgrees(ch: Scraper.Charts, tds: seq<Cell>, d: Difficulty)
    requires SameList(ch, tds, d)
    ensures var double := Zenius.ChartSetOf(tds, 1);
      && (d in double <==> d in ch.double && ch.double[d].Some?)
      && (d in double ==> double[d] == ToZ(ch.double[d].value))
  {
    var list := Zenius.ChartList(tds, Colour(d));
    var double := Zenius.ChartSetOf(tds, 1);
    Zenius.ChartSetMembers(tds, d, 1);
    if |list| >= 2 {
      TidyChartAgrees(list[1]);
      assert d in double && double[d] == Zenius.StatsOf(list[1]);
      assert |list| == 2 && list[|list| - 1] == list[1];
      assert d in ch.double;
      assert ch.double[d] == Some(Scraper.CellChart(list[1]));
    } else {
      assert d !in double;
      assert d in ch.double ==> ch.double[d] == None;
    }
  }

  /**
   * The placement agreement: on a tidy row, scrape_zenius.py has a single
   * chart of `d` exactly when scraper.py filled that single slot, and a
   * double chart exactly when scraper.py has a filled double slot, with the
   * same statistics once scraper.py's strings are converted.
   */
  lemma PlacementsAgree(row: Row, d: Difficulty)
    requires TidyRow(row)
    ensures var s := Scraper.SongOf(row); var z := Zenius.SongOf(row);
      && (d in z.single <==> s.single[d].Some?)
      && (d in z.single ==> z.single[d] == ToZ(s.single[d].value))
      && (d in z.double <==> d in s.double && s.double[d].Some?)
      && (d in z.double ==> z.double[d] == ToZ(s.double[d].value))
  {
    var cells := Scraper.ChartCells(row);
    SameCellsFound(row, d);
    Scraper.Placement(cells, d);
    SlotsAgree(Scraper.PlaceAll(cells), row.tds, d);
  }

  /** On a tidy row, the cells scraper.py accepts for `d` are the tidy coloured cells scrape_zenius.py finds. */
  lemma SameCellsFound(row: Row, d: Difficulty)
    requires TidyRow(row)
    ensures var list := Zenius.ChartList(row.tds, Colour(d));
      && (forall c :: c in Scraper.ChartCells(row) ==> Scraper.ChartCellOk(c))
      && Scraper.Accepted(Scraper.ChartCells(row), d) == list
      && |list| <= 2
      && forall i :: 0 <= i < |list| ==> Tidy(list[i]) && Scraper.Classify(list[i].classes).Some?
  {
    var cells := Scraper.ChartCells(row);
    var list := Zenius.ChartList(row.tds, Colour(d));
    assert forall c :: c in cells ==> c in row.tds;
    AcceptedIsChartList(cells, d);
    InfoCellNotChart(row.tds, InfoIndex(row.tds).value, d);
    Zenius.ChartListSpec(row.tds, Colour(d));
    forall i | 0 <= i < |list|
      ensures Tidy(list[i]) && Scraper.Classify(list[i].classes).Some?
    {
      TidyMatches(list[i], d);
    }
  }

  /** The bpm cell is never before the info cell: a "border centre" cell is a "border" cell. */
  lemma BpmAfterInfo(row: Row)
    requires Scraper.SongRowOk(row)
    requires !IsBpmCell(row.tds[InfoIndex(row.tds).value])
    ensures BpmIndex(row.tds) == Some(BpmIndex(Scraper.ChartCells(row)).value + 1)
    ensures InfoIndex(row.tds).value < BpmIndex(row.tds).value
  {
    var tds := row.tds;
    var k := InfoIndex(tds).value;
    var cells := Scraper.ChartCells(row);
    var b := BpmIndex(cells).value;
    assert cells[b] == tds[b + 1];
    forall j | 0 <= j < b + 1
      ensures !IsBpmCell(tds[j])
    {
      if j < k {
        assert !IsInfoCell(tds[j]);
      } else if k < j {
        assert tds[j] == cells[j - 1];
      }
    }
  }

  /**
   * The text fields of a song read the same in both scrapers; the bpm too,
   * unless the info cell is itself a "border centre" cell, which
   * scrape_zenius.py then takes as the bpm cell.
   */
  lemma SongTextAgree(row: Row)
    requires Scraper.SongRowOk(row) && Zenius.SongRowOk(row)
    ensures var s := Scraper.SongOf(row); var z := Zenius.SongOf(row);
      && z.name == s.name && z.nameTranslation == s.nameTranslation
      && z.artist == s.artist && z.artistTranslation == s.artistTranslation
      && z.genre == s.genre
      && (!IsBpmCell(row.tds[InfoIndex(row.tds).value]) ==> z.bpm == s.bpm)
  {
    if !IsBpmCell(row.tds[InfoIndex(row.tds).value]) {
      BpmAfterInfo(row);
    }
  }
}
