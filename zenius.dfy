/**
 * scrape_zenius.py: reads the mix's name, release date and region from the
 * first table, picks the song table by the mix name, and turns every row of
 * it into a song record.  A row's charts of one difficulty are the cells
 * whose class is exactly "centre <colour>": the first one is the single
 * chart, the second the double chart.  Each chart's statistics are read off
 * its `<small>` text, split on " / ", and converted to integers.
 */
module Zenius {
  import opened Text
  import opened Page

  // ---------------------------------------------------------------------------
  // Chart statistics

  datatype StatField = StepCount | FreezeCount | ShockCount | DifficultyLabel

  const AllStatFields: set<StatField> := {StepCount, FreezeCount, ShockCount, DifficultyLabel}

  /** A statistic before conversion: a piece of page text, or the literal 0 put in for a missing one. */
  datatype Value = Str(s: string) | Num(n: int)

  /** A chart's `stats` dictionary once every value is an integer. */
  type Stats = map<StatField, int>

  /** `single` or `double`: the charts found, by difficulty. */
  type ChartSet = map<Difficulty, Stats>

  /** `int(v)`, with 0 where the conversion raises ValueError. */
  function Convert(v: Value): int {
    match v
    case Num(n) => n
    case Str(s) => IntOr0(s)
  }

  /** An integer the page prints reads back unchanged; the filler 0 stays 0. */
  lemma ConvertRoundTrip(n: int)
    ensures Convert(Str(ShowInt(n))) == n
    ensures Convert(Num(n)) == n
  {
    PyIntShowInt(n);
  }

  /** The pieces of a chart cell's small text, split on " / " once stripped. */
  function Tokens(c: Cell): (ts: seq<string>)
    requires c.small.Some?
    ensures |ts| >= 1
  {
    StatPieces(c.small.value)
  }

  /**
   * The `stats` dictionary before conversion.  The step count is always the
   * first piece; two pieces add a freeze count, three a freeze and a shock
   * count; any other number of pieces leaves both at 0.  The difficulty is
   * the cell's stripped text outside the small.
   */
  function RawStats(c: Cell): (m: map<StatField, Value>)
    requires c.small.Some?
    ensures m.Keys == AllStatFields
    ensures m[StepCount] == Str(Tokens(c)[0])
    ensures m[DifficultyLabel] == Str(Strip(c.textOutsideSmall))
  {
    var ts := Tokens(c);
    var base := map[StepCount := Str(ts[0]), DifficultyLabel := Str(Strip(c.textOutsideSmall))];
    if |ts| == 2 then base[FreezeCount := Str(ts[1])][ShockCount := Num(0)]
    else if |ts| == 3 then base[FreezeCount := Str(ts[1])][ShockCount := Str(ts[2])]
    else base[FreezeCount := Num(0)][ShockCount := Num(0)]
  }

  /** The statistics a cell with a small yields. */
  function StatsOf(c: Cell): (s: Stats)
    requires c.small.Some?
    ensures s.Keys == AllStatFields
  {
    var raw := RawStats(c);
    map f | f in raw :: Convert(raw[f])
  }

  /** "Convert all strings to integers": every value is replaced by its `int()`, 0 on failure. */
  method IntConvert(stats: map<StatField, Value>) returns (out: Stats)
    ensures out.Keys == stats.Keys
    ensures forall f :: f in stats ==> out[f] == Convert(stats[f])
  {
    out := map[];
    var keys := stats.Keys;
    while keys != {}
      invariant keys <= stats.Keys
      invariant out.Keys == stats.Keys - keys
      invariant forall f :: f in out ==> out[f] == Convert(stats[f])
      decreases |keys|
    {
      var attr :| attr in keys;
      out := out[attr := Convert(stats[attr])];
      keys := keys - {attr};
    }
  }

  /** The statistics of one chart cell: build the raw dictionary, then convert it in place. */
  method ReadStats(style: Cell) returns (stats: Stats)
    requires style.small.Some?
    ensures stats == StatsOf(style)
  {
    var raw := RawStats(style);
    stats := IntConvert(raw);
    assert stats == map f | f in raw :: Convert(raw[f]);
  }

  function Shown(ns: seq<int>): (ts: seq<string>)
    ensures |ts| == |ns|
    ensures forall i :: 0 <= i < |ns| ==> ts[i] == ShowInt(ns[i])
  {
    if ns == [] then [] else [ShowInt(ns[0])] + Shown(ns[1..])
  }

  /**
   * Reading back what the page prints: when the small's pieces are counts as
   * printed and the label is a printed number, the statistics are those
   * numbers, with 0 for a missing freeze or shock count, and with both at 0
   * when there are more than three counts.
   */
  lemma StatsOfShown(c: Cell, counts: seq<int>, level: int)
    requires c.small.Some? && |counts| >= 1
    requires Tokens(c) == Shown(counts) && Strip(c.textOutsideSmall) == ShowInt(level)
    ensures StatsOf(c)[StepCount] == counts[0]
    ensures StatsOf(c)[FreezeCount] == if |counts| == 2 || |counts| == 3 then counts[1] else 0
    ensures StatsOf(c)[ShockCount] == if |counts| == 3 then counts[2] else 0
    ensures StatsOf(c)[DifficultyLabel] == level
  {
    StatsArity(c);
    PyIntShowInt(level);
    PyIntShowInt(counts[0]);
    if |counts| == 2 || |counts| == 3 {
      PyIntShowInt(counts[1]);
    }
    if |counts| == 3 {
      PyIntShowInt(counts[2]);
    }
  }

  /** Pieces the page prints between the separators: non-empty, trimmed, without a '/'. */
  predicate Pieces(ts: seq<string>) {
    forall i :: 0 <= i < |ts| ==> |ts[i]| >= 1 && Trimmed(ts[i]) && '/' !in ts[i]
  }

  lemma ShownPieces(counts: seq<int>)
    ensures Pieces(Shown(counts))
  {
  }

  /** Splitting a padded " / "-join of such pieces gives the pieces back. */
  lemma TokensOfJoin(c: Cell, ts: seq<string>, before: string, after: string)
    requires |ts| >= 1 && AllSpace(before) && AllSpace(after) && Pieces(ts)
    requires c.small == Some(before + Join(ts, Sep) + after)
    ensures Tokens(c) == ts
  {
    JoinTrimmed(ts);
    StripPadded(before, Join(ts, Sep), after);
    SplitJoin(ts);
  }

  /** A small holding counts joined by " / ", whatever whitespace surrounds it, splits into those counts. */
  lemma TokensShown(c: Cell, counts: seq<int>, before: string, after: string)
    requires |counts| >= 1 && AllSpace(before) && AllSpace(after)
    requires c.small == Some(before + Join(Shown(counts), Sep) + after)
    ensures Tokens(c) == Shown(counts)
  {
    ShownPieces(counts);
    TokensOfJoin(c, Shown(counts), before, after);
  }

  /** A label or a statistic that is not a number, such as an empty small, counts as 0. */
  lemma StatsNotANumber(c: Cell)
    requires c.small == Some("") && c.textOutsideSmall == "-"
    ensures StatsOf(c) == map[StepCount := 0, FreezeCount := 0, ShockCount := 0, DifficultyLabel := 0]
  {
    PyIntNoDigit("");
    PyIntNoDigit("-");
    assert Strip("") == "";
    assert Find("", Sep) == None;
    assert Tokens(c) == [""];
    StripTrimmed("-");
  }

  /**
   * The arity rule for any small: the step count is the first piece; the
   * freeze count is the second piece when there are two or three pieces;
   * the shock count is the third piece when there are three; every other
   * count is 0.  Each piece, and the label, goes through `int()` or 0.
   */
  lemma StatsArity(c: Cell)
    requires c.small.Some?
    ensures var ts, z := Tokens(c), StatsOf(c);
      && z[StepCount] == IntOr0(ts[0])
      && z[FreezeCount] == (if |ts| == 2 || |ts| == 3 then IntOr0(ts[1]) else 0)
      && z[ShockCount] == (if |ts| == 3 then IntOr0(ts[2]) else 0)
      && z[DifficultyLabel] == IntOr0(Strip(c.textOutsideSmall))
  {
    var raw := RawStats(c);
    assert StatsOf(c) == map f | f in raw :: Convert(raw[f]);
  }

  /** When neither the pieces nor the label hold a decimal digit, every count is 0, however many pieces there are. */
  lemma StatsNoDigits(c: Cell)
    requires c.small.Some?
    requires forall i :: 0 <= i < |Tokens(c)| ==> NoDigit(Tokens(c)[i])
    requires NoDigit(Strip(c.textOutsideSmall))
    ensures StatsOf(c) == map[StepCount := 0, FreezeCount := 0, ShockCount := 0, DifficultyLabel := 0]
  {
    var ts := Tokens(c);
    StatsArity(c);
    forall i | 0 <= i < |ts| ensures IntOr0(ts[i]) == 0 {
      PyIntNoDigit(ts[i]);
    }
    PyIntNoDigit(Strip(c.textOutsideSmall));
  }

  // ---------------------------------------------------------------------------
  // get_chart_data

  /** The `difficulties` dictionary: each colour class and the difficulty it names. */
  const Difficulties: map<string, Difficulty> :=
    map["lightblue" := Beginner, "yellow" := Basic, "fuchsia" := Difficult,
        "green" := Expert, "purple" := Challenge]

  /** The dictionary is exactly the colour of every difficulty, read backwards. */
  lemma DifficultiesAreColours()
    ensures forall colour :: colour in Difficulties ==> Colour(Difficulties[colour]) == colour
    ensures forall d :: Colour(d) in Difficulties && Difficulties[Colour(d)] == d
  {
  }

  /** `attrs={"class": "centre " + colour}`: the class attribute is exactly that pair. */
  predicate Matches(c: Cell, colour: string) {
    c.classes == ["centre", colour]
  }

  /** `row.findAll("td", ...)`: the matching cells in document order. */
  function ChartList(tds: seq<Cell>, colour: string): (r: seq<Cell>)
    ensures |r| <= |tds|
  {
    if tds == [] then []
    else (if Matches(tds[0], colour) then [tds[0]] else []) + ChartList(tds[1..], colour)
  }

  /** Every cell the search finds is a cell of the row with the class pair. */
  lemma {:induction false} ChartListSound(tds: seq<Cell>, colour: string, i: nat)
    requires i < |ChartList(tds, colour)|
    ensures ChartList(tds, colour)[i] in tds && Matches(ChartList(tds, colour)[i], colour)
  {
    var head := if Matches(tds[0], colour) then [tds[0]] else [];
    var rest := ChartList(tds[1..], colour);
    assert ChartList(tds, colour) == head + rest;
    if i >= |head| {
      ChartListSound(tds[1..], colour, i - |head|);
      assert ChartList(tds, colour)[i] == rest[i - |head|];
    }
  }

  /** Every cell of the row with the class pair is found. */
  lemma {:induction false} ChartListComplete(tds: seq<Cell>, colour: string, c: Cell)
    requires c in tds && Matches(c, colour)
    ensures c in ChartList(tds, colour)
  {
    var head := if Matches(tds[0], colour) then [tds[0]] else [];
    var rest := ChartList(tds[1..], colour);
    assert ChartList(tds, colour) == head + rest;
    if c != tds[0] {
      var k :| 0 <= k < |tds| && tds[k] == c;
      assert tds[1..][k - 1] == c;
      ChartListComplete(tds[1..], colour, c);
    }
  }

  /** The search finds every matching cell and only matching cells. */
  lemma ChartListSpec(tds: seq<Cell>, colour: string)
    ensures var r := ChartList(tds, colour);
      (forall i :: 0 <= i < |r| ==> r[i] in tds && Matches(r[i], colour))
      && (forall c :: c in tds && Matches(c, colour) ==> c in r)
  {
    forall i | 0 <= i < |ChartList(tds, colour)| {
      ChartListSound(tds, colour, i);
    }
    forall c | c in tds && Matches(c, colour) {
      ChartListComplete(tds, colour, c);
    }
  }

  /** The search keeps document order: the matches of a concatenation are the matches of each part. */
  lemma {:induction false} ChartListConcat(a: seq<Cell>, b: seq<Cell>, colour: string)
    ensures ChartList(a + b, colour) == ChartList(a, colour) + ChartList(b, colour)
  {
    if a == [] {
      assert a + b == b;
    } else {
      var ab := a + b;
      assert ab[0] == a[0];
      assert ab[1..] == a[1..] + b;
      var head := if Matches(a[0], colour) then [a[0]] else [];
      assert ChartList(ab, colour) == head + ChartList(ab[1..], colour);
      ChartListConcat(a[1..], b, colour);
      assert ChartList(a, colour) == head + ChartList(a[1..], colour);
    }
  }

  /**
   * The chart of difficulty `d` for the style `count` (0 single, 1 double):
   * the `count`-th matching cell, when there is one and it has a small.
   */
  function ChartAt(tds: seq<Cell>, d: Difficulty, count: nat): Option<Stats> {
    Slot(ChartList(tds, Colour(d)), count)
  }

  /** The statistics of the `count`-th cell of a chart list, if it exists and has a small. */
  function Slot(list: seq<Cell>, count: nat): Option<Stats> {
    if count < |list| && list[count].small.Some? then Some(StatsOf(list[count])) else None
  }

  /** The single (`count` 0) or double (`count` 1) chart set of a row. */
  function ChartSetOf(tds: seq<Cell>, count: nat): ChartSet {
    map d | d in AllDifficulties && ChartAt(tds, d, count).Some? :: ChartAt(tds, d, count).value
  }

  /** `m` with the chart `x` stored under `d`, if there is one. */
  function Store(m: ChartSet, d: Difficulty, x: Option<Stats>): ChartSet {
    match x
    case None => m
    case Some(s) => m[d := s]
  }

  /**
   * The inner loop of get_chart_data for one difficulty: the first matching
   * cell fills the single set and the second the double set, each only when
   * it has a small.
   */
  method ReadDifficulty(tds: seq<Cell>, d: Difficulty, single0: ChartSet, double0: ChartSet)
    returns (single: ChartSet, double: ChartSet)
    ensures single == Store(single0, d, ChartAt(tds, d, 0))
    ensures double == Store(double0, d, ChartAt(tds, d, 1))
  {
    single, double := single0, double0;
    var chartList := ChartList(tds, Colour(d));
    if chartList == [] {
      return;
    }
    for count := 0 to 2
      invariant count == 0 ==> single == single0
      invariant count > 0 ==> single == Store(single0, d, Slot(chartList, 0))
      invariant count <= 1 ==> double == double0
      invariant count > 1 ==> double == Store(double0, d, Slot(chartList, 1))
    {
      if count >= |chartList| {
        continue;
      }
      var style := chartList[count];
      if style.small.None? {
        continue;
      }
      var stats := ReadStats(style);
      assert Slot(chartList, count) == Some(stats);
      if count != 0 {
        double := double[d := stats];
      } else {
        single := single[d := stats];
      }
    }
  }

  /** `m` holds the `count` charts of exactly the difficulties in `done`. */
  predicate Collected(tds: seq<Cell>, count: nat, done: set<Difficulty>, m: ChartSet) {
    forall e :: (e in m <==> e in done && ChartAt(tds, e, count).Some?)
                && (e in m ==> m[e] == ChartAt(tds, e, count).value)
  }

  lemma CollectStep(tds: seq<Cell>, count: nat, done: set<Difficulty>, m: ChartSet, d: Difficulty)
    requires Collected(tds, count, done, m) && d !in done
    ensures Collected(tds, count, done + {d}, Store(m, d, ChartAt(tds, d, count)))
  {
    var m' := Store(m, d, ChartAt(tds, d, count));
    forall e
      ensures (e in m' <==> e in done + {d} && ChartAt(tds, e, count).Some?)
              && (e in m' ==> m'[e] == ChartAt(tds, e, count).value)
    {
      if e != d {
        assert (e in m' <==> e in m) && (e in m ==> m'[e] == m[e]);
      }
    }
  }

  lemma CollectAll(tds: seq<Cell>, count: nat, m: ChartSet)
    requires Collected(tds, count, AllDifficulties, m)
    ensures m == ChartSetOf(tds, count)
  {
  }

  method GetChartData(row: Row) returns (single: ChartSet, double: ChartSet)
    ensures single == ChartSetOf(row.tds, 0)
    ensures double == ChartSetOf(row.tds, 1)
  {
    DifficultiesAreColours();
    single := map[];
    double := map[];
    var todo := Difficulties.Keys;
    ghost var done: set<Difficulty> := {};
    while todo != {}
      invariant todo <= Difficulties.Keys
      invariant forall e :: e in done <==> Colour(e) !in todo
      invariant Collected(row.tds, 0, done, single)
      invariant Collected(row.tds, 1, done, double)
      decreases |todo|
    {
      var colour :| colour in todo;
      var d := Difficulties[colour];
      todo := todo - {colour};
      CollectStep(row.tds, 0, done, single, d);
      CollectStep(row.tds, 1, done, double, d);
      single, double := ReadDifficulty(row.tds, d, single, double);
      done := done + {d};
    }
    assert done == AllDifficulties;
    CollectAll(row.tds, 0, single);
    CollectAll(row.tds, 1, double);
  }

  /** A chart of difficulty `d` is in a set exactly when its cell exists and has a small. */
  lemma ChartSetMembers(tds: seq<Cell>, d: Difficulty, count: nat)
    ensures var list := ChartList(tds, Colour(d));
      (d in ChartSetOf(tds, count) <==> count < |list| && list[count].small.Some?)
      && (d in ChartSetOf(tds, count) ==> ChartSetOf(tds, count)[d] == StatsOf(list[count]))
  {
  }

  /** A first cell without a small leaves the single slot empty and does not shift the second into it. */
  lemma MissingSmallKeepsDouble(tds: seq<Cell>, d: Difficulty)
    requires var list := ChartList(tds, Colour(d));
      |list| >= 2 && list[0].small.None? && list[1].small.Some?
    ensures d !in ChartSetOf(tds, 0)
    ensures d in ChartSetOf(tds, 1) && ChartSetOf(tds, 1)[d] == StatsOf(ChartList(tds, Colour(d))[1])
  {
    ChartSetMembers(tds, d, 0);
    ChartSetMembers(tds, d, 1);
  }

  /** Once a difficulty has two cells, a further matching cell changes neither chart set. */
  lemma ThirdCellIgnored(tds: seq<Cell>, c: Cell, count: nat)
    requires exists d :: Matches(c, Colour(d)) && |ChartList(tds, Colour(d))| >= 2
    requires count <= 1
    ensures ChartSetOf(tds + [c], count) == ChartSetOf(tds, count)
  {
    var d :| Matches(c, Colour(d)) && |ChartList(tds, Colour(d))| >= 2;
    forall e | e in AllDifficulties
      ensures ChartAt(tds + [c], e, count) == ChartAt(tds, e, count)
    {
      ThirdCellSlot(tds, c, count, d, e);
    }
  }

  /** The list of `e` either does not grow, or grows past the first two cells. */
  lemma ThirdCellSlot(tds: seq<Cell>, c: Cell, count: nat, d: Difficulty, e: Difficulty)
    requires Matches(c, Colour(d)) && |ChartList(tds, Colour(d))| >= 2
    requires count <= 1
    ensures ChartAt(tds + [c], e, count) == ChartAt(tds, e, count)
  {
    ChartListConcat(tds, [c], Colour(e));
    assert ChartList([c], Colour(e)) == (if Matches(c, Colour(e)) then [c] else []);
    if Matches(c, Colour(e)) {
      ColourInjective(d, e);
      var l := ChartList(tds + [c], Colour(e));
      assert l == ChartList(tds, Colour(e)) + [c];
      assert l[count] == ChartList(tds, Colour(e))[count];
    }
  }

  /** The double set has a beginner chart only from a second light-blue cell with a small. */
  lemma DoubleBeginner(tds: seq<Cell>)
    ensures Beginner in ChartSetOf(tds, 1) <==>
      var list := ChartList(tds, "lightblue");
      |list| >= 2 && list[1].small.Some?
  {
    ChartSetMembers(tds, Beginner, 1);
  }

  // ---------------------------------------------------------------------------
  // get_mix_data

  /** The page's name for DDR 2013/2014, replaced by the name the data files use. */
  function RenameMix(name: string): string {
    if name == "DanceDanceRevolution (New)" then "DanceDanceRevolution 2013" else name
  }

  /** The mix fields after reading `rows` in order; each name row is renamed as it is stored. */
  function MixInfo(rows: seq<Row>): map<MixField, string>
    requires MixRowsOk(rows)
  {
    if rows == [] then map[]
    else
      var init := rows[..|rows| - 1];
      assert forall j :: 0 <= j < |init| ==> init[j] == rows[j];
      var r := rows[|rows| - 1];
      match RowRoute(r)
      case None => MixInfo(init)
      case Some(f) => MixInfo(init)[f := if f == Name then RenameMix(r.tds[1].text) else r.tds[1].text]
  }

  /** A field is present exactly when some row is routed to it; the last such row wins, renamed if it is the name. */
  lemma {:induction false} MixInfoLastWins(rows: seq<Row>, f: MixField)
    requires MixRowsOk(rows)
    ensures f in MixInfo(rows) <==> LastRouted(rows, f).Some?
    ensures f in MixInfo(rows) ==>
      var v := rows[LastRouted(rows, f).value].tds[1].text;
      MixInfo(rows)[f] == if f == Name then RenameMix(v) else v
  {
    if rows != [] {
      var init := rows[..|rows| - 1];
      assert forall j :: 0 <= j < |init| ==> init[j] == rows[j];
      MixInfoLastWins(init, f);
    }
  }

  /** Reading one more row: the field it is routed to, if any, takes its value, renamed if it is the name. */
  lemma MixInfoStep(rows: seq<Row>, i: nat)
    requires MixRowsOk(rows) && i < |rows|
    ensures MixRowsOk(rows[..i]) && MixRowsOk(rows[..i + 1])
    ensures MixInfo(rows[..i + 1]) == match RowRoute(rows[i])
      case None => MixInfo(rows[..i])
      case Some(f) =>
        var v := rows[i].tds[1].text;
        MixInfo(rows[..i])[f := if f == Name then RenameMix(v) else v]
  {
    assert rows[..i + 1][..i] == rows[..i];
  }

  /** get_mix_data: the mix table is the first table of the page. */
  method GetMixData(tables: seq<Table>) returns (mix: map<MixField, string>)
    requires |tables| >= 1 && MixRowsOk(tables[0].rows)
    ensures mix == MixInfo(tables[0].rows)
  {
    var rows := tables[0].rows;
    mix := map[];
    for i := 0 to |rows|
      invariant MixRowsOk(rows[..i]) && mix == MixInfo(rows[..i])
    {
      MixInfoStep(rows, i);
      var cols := rows[i].tds;
      if cols == [] {
        continue;
      }
      var key := Lower(cols[0].text);
      var field: MixField;
      if Contains(key, "name") {
        field := Name;
      } else if Contains(key, "release date") {
        field := Release;
      } else if Contains(key, "region") {
        field := Region;
      } else {
        continue;
      }
      assert RowRoute(rows[i]) == Some(field);
      mix := mix[field := cols[1].text];
      if field == Name && mix[Name] == "DanceDanceRevolution (New)" {
        mix := mix[Name := "DanceDanceRevolution 2013"];
      }
    }
    assert rows[..|rows|] == rows;
  }

  // ---------------------------------------------------------------------------
  // get_song_data

  /** The index of the song table: 1 for three mixes the site lays out differently, 2 otherwise. */
  function TableIndex(name: string): (n: nat)
    ensures n == 1 || n == 2
    ensures n == 1 <==> name in {"Dance Dance Revolution 3rdMIX PLUS",
                                 "Dance Dance Revolution 4thMIX PLUS", "Dancing Stage EuroMIX2"}
  {
    if name == "Dance Dance Revolution 3rdMIX PLUS"
       || name == "Dance Dance Revolution 4thMIX PLUS"
       || name == "Dancing Stage EuroMIX2"
    then 1 else 2
  }

  datatype Song = Song(
    name: string,
    nameTranslation: string,
    artist: string,
    artistTranslation: string,
    bpm: string,
    genre: string,
    single: ChartSet,
    double: ChartSet)

  /** The placeholder song: every string empty and no charts yet. */
  function NewSong(): (s: Song)
    ensures s.name == "" && s.nameTranslation == "" && s.artist == "" && s.artistTranslation == ""
    ensures s.bpm == "" && s.genre == "" && s.single == map[] && s.double == map[]
  {
    Song("", "", "", "", "", "", map[], map[])
  }

  /** What the row body dereferences without a guard: a "border" cell with a strong and a genre span, and a "border centre" cell. */
  predicate SongRowOk(row: Row) {
    match InfoIndex(row.tds)
    case None => false
    case Some(k) =>
      row.tds[k].strong.Some? && row.tds[k].info.genre.Some? && BpmIndex(row.tds).Some?
  }

  /**
   * The bpm cell is searched for among all cells, the info cell included.
   * When the info cell is itself the first "border centre" cell, its text by
   * then is what the extractions left of it.
   */
  function BpmText(row: Row): string
    requires SongRowOk(row)
  {
    var b := BpmIndex(row.tds).value;
    if b == InfoIndex(row.tds).value then row.tds[b].info.remainder else row.tds[b].text
  }

  /** No earlier cell can be the bpm cell: a "border centre" cell is also a "border" cell. */
  lemma BpmNotBeforeInfo(row: Row)
    requires SongRowOk(row)
    ensures InfoIndex(row.tds).value <= BpmIndex(row.tds).value
    ensures BpmIndex(row.tds).value == InfoIndex(row.tds).value <==>
      IsBpmCell(row.tds[InfoIndex(row.tds).value])
  {
  }

  function SongOf(row: Row): Song
    requires SongRowOk(row)
  {
    var info := row.tds[InfoIndex(row.tds).value];
    Song(
      name := Strip(info.strong.value),
      nameTranslation := HoverOr(info.info.nameHover),
      artist := Strip(info.info.remainder),
      artistTranslation := HoverOr(info.info.remainderHover),
      bpm := BpmText(row),
      genre := Strip(info.info.genre.value),
      single := ChartSetOf(row.tds, 0),
      double := ChartSetOf(row.tds, 1))
  }

  /** The body of the row loop: fill the placeholder song field by field, then its charts. */
  method ParseSong(row: Row) returns (song: Song)
    requires SongRowOk(row)
    ensures song == SongOf(row)
  {
    song := NewSong();
    var k := InfoIndex(row.tds).value;
    var songData := row.tds[k];
    song := song.(genre := Strip(songData.info.genre.value));
    match songData.info.nameHover {
      case Some(attr) => song := song.(nameTranslation := HoverText(attr));
      case None =>
    }
    song := song.(name := Strip(songData.strong.value));
    match songData.info.remainderHover {
      case Some(attr) => song := song.(artistTranslation := HoverText(attr));
      case None =>
    }
    song := song.(artist := Strip(songData.info.remainder));
    var b := BpmIndex(row.tds).value;
    song := song.(bpm := if b == k then songData.info.remainder else row.tds[b].text);
    var single, double := GetChartData(row);
    song := song.(single := single, double := double);
  }

  predicate SongsOf(rows: seq<Row>, songs: seq<Song>)
    requires forall i :: 0 <= i < |rows| ==> SongRowOk(rows[i])
  {
    |songs| == |rows| && forall i :: 0 <= i < |rows| ==> songs[i] == SongOf(rows[i])
  }

  /** get_song_data: one song per row of the table the mix name selects. */
  method GetSongData(tables: seq<Table>, mix: map<MixField, string>) returns (songs: seq<Song>)
    requires Name in mix && TableIndex(mix[Name]) < |tables|
    requires var rows := tables[TableIndex(mix[Name])].rows;
      forall i :: 0 <= i < |rows| ==> SongRowOk(rows[i])
    ensures SongsOf(tables[TableIndex(mix[Name])].rows, songs)
  {
    var tableNum := TableIndex(mix[Name]);
    var rows := tables[tableNum].rows;
    songs := [];
    for i := 0 to |rows|
      invariant |songs| == i
      invariant forall j :: 0 <= j < i ==> songs[j] == SongOf(rows[j])
    {
      var song := ParseSong(rows[i]);
      songs := songs + [song];
    }
  }

  // ---------------------------------------------------------------------------
  // main, without the fetch and the file

  datatype Mix = Mix(info: map<MixField, string>, songs: seq<Song>)

  /** The page has the tables the scrape reads, with the shape their readers dereference. */
  predicate TablesOk(tables: seq<Table>) {
    |tables| >= 1 && MixRowsOk(tables[0].rows)
    && var info := MixInfo(tables[0].rows);
    Name in info && TableIndex(info[Name]) < |tables|
    && var rows := tables[TableIndex(info[Name])].rows;
    forall i :: 0 <= i < |rows| ==> SongRowOk(rows[i])
  }

  method Scrape(tables: seq<Table>) returns (mix: Mix)
    requires TablesOk(tables)
    ensures mix.info == MixInfo(tables[0].rows)
    ensures SongsOf(tables[TableIndex(mix.info[Name])].rows, mix.songs)
  {
    var info := GetMixData(tables);
    var songs := GetSongData(tables, info);
    mix := Mix(info, songs);
  }
}
