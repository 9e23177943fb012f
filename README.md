# DDR song-data scrapers, modelled in Dafny

The repository holds two Python 2 scrapers. Each reads a game-database page
of the zenius-i-vanisher site and turns it into one dictionary per mix: the
mix's name, release date and region, plus a song list. Every song has its
name, artist, translations, bpm, genre and its single and double chart sets.
A chart of a difficulty (beginner, basic, difficult, expert, challenge) comes
from a table cell coloured with that difficulty's class. The cell's bold label
is the difficulty rating. Its `<small>` text holds the step, freeze and shock
counts, separated by " / ".

The model works on the page once it is parsed. A table is a sequence of rows
and a row is a sequence of `td` cells. Each cell carries its class list, its
text, the texts of its first `<strong>` and `<small>` (each optional), and the
optional pieces of the song's info cell: hover attributes, genre span, image
title.

- `text.dfy` (module `Text`): the Python string operations the scrapers rely
  on. These are `strip()` with Python 2.7's whitespace set, ASCII `lower()`,
  the `in` substring test, `split(" / ")` with its inverse `join`, the
  `[16:-2]` slice, and `int()`.
- `page.dfy` (module `Page`): the parsed page, BeautifulSoup's `find` as the
  first matching cell, the five difficulties with their colour classes, and
  the routing of a mix-table row by its lower-cased label.
- `scraper.dfy` (module `Scraper`): `scraper.py`.
  - It picks the mix table and the song table.
  - It reads the mix fields.
  - For each row, it extracts the info cell and then walks the remaining
    cells. The first accepted cell of a difficulty fills the single slot;
    every later one overwrites the double slot.
  - Statistics stay strings.
- `zenius.dfy` (module `Zenius`): `scrape_zenius.py`.
  - Mix fields come from the first table, with one rename.
  - The song table is chosen by mix name.
  - For each colour, the first cell of class exactly "centre <colour>" is the
    single chart and the second is the double chart.
  - Statistics follow an arity rule and are converted to integers, 0 on
    failure.
- `agreement.dfy` (module `Agreement`): when the two scrapers give the same
  result.
  - The mix fields always agree, up to the rename.
  - On every row both scrapers can read, the name, its translation, the
    artist, its translation and the genre agree. Both read them from the same
    pieces of the info cell, so this rests on the genre span lying outside
    the song's `<strong>` (see "## Left out"). The bpm agrees too, unless
    the info cell is itself the "border centre" cell.
  - On tidy rows, the chart placements agree. Tidy means both scrapers can
    read the row, and:
    - every coloured cell has exactly the classes "centre <colour>";
    - its rating has no '-' and equals the cell's whole stripped text
      outside the small, since scrape_zenius.py:193 reads the label from
      there and scraper.py:250 from the `<strong>`;
    - its small has at most three counts;
    - no colour has more than two cells.

The loops of the source are methods with loop invariants, proved against
specification functions; the properties live in lemmas about those functions.

Behaviour the model follows as written, with the source's own comment cited
where it says otherwise:
- `scraper.py` reassigns the mix table for every table whose next `th`
  contains "Data" (scraper.py:114-117), so the last such table is the mix
  table. Its docstring (scraper.py:104-106) speaks of a single table that
  starts with "Data".
- A second accepted beginner cell of a row is stored as the double beginner
  chart (scraper.py:243-248 and 264). The placeholder double set has no
  beginner key (scraper.py:175-180), and nothing in the loop skips the cell.
  The remark that doubles have no beginner charts (scrape_zenius.py:166) is
  about the page, not a check in the code.
- `scraper.py` skips a cell whose rating contains a '-' anywhere
  (scraper.py:253), while its comment (scraper.py:252) speaks of a rating
  that is '-'.
- `int()` accepts negative counts such as "-5", and whitespace between the
  sign and the digits; nothing in scrape_zenius.py:195-200 clamps the result.
- A song-table row without a "border" cell, such as a header row, is not
  skipped: `find` then returns None and the code dereferences it
  (scraper.py:184, scrape_zenius.py:110-113). The model requires the cell.

## Model

| member | source | states |
|---|---|---|
| Text.Strip | scraper.py:188 | defined by its body, as `strip()`; stated by Text.StripSpec and Text.StripPadded |
| Text.StripSpec | scraper.py:188 | `strip()` yields a trimmed infix of its argument that only drops whitespace at the ends |
| Text.StripPadded | scrape_zenius.py:177 | whitespace padding on both sides around a trimmed string is exactly what `strip()` removes |
| Text.Lower | scraper.py:138 | lower-casing keeps the length and lowers each character |
| Text.Contains | scraper.py:140-145 | defined by its body, as `pat in s`; stated by Text.FindSpec |
| Text.Find | scraper.py:140-145 | a found occurrence fits in the string; that it is the first one, or that there is none, is stated by Text.FindSpec |
| Text.FindSpec | scraper.py:140-145 | the substring test finds the first occurrence, or reports that there is none |
| Text.FindShift | scraper.py:140-145 | past a position where the pattern does not start, the first occurrence is the first one in the rest of the string |
| Text.BeforeFirstFree | scraper.py:256 | the text before the first occurrence of a non-empty pattern does not contain it |
| Text.Split | scraper.py:256 | there is always at least one piece; the pieces are stated by Text.JoinSplit, Text.SplitPiecesFree and Text.SplitJoin |
| Text.StatPieces | scrape_zenius.py:177 | the stripped small split on " / " has at least one piece; both scrapers use it |
| Text.JoinSplit | scraper.py:256 | joining the pieces of `split(" / ")` with " / " gives the string back |
| Text.SplitPiecesFree | scraper.py:256 | no piece of a split contains the separator |
| Text.SplitJoin | scrape_zenius.py:177 | splitting " / "-joined pieces that hold no '/' gives exactly those pieces |
| Text.JoinTrimmed | scrape_zenius.py:177 | non-empty trimmed pieces joined by " / " form a trimmed string |
| Text.HoverText | scraper.py:189-192 | the translation is the attribute without its first 16 and last 2 characters, and '' when it is shorter than 18 |
| Text.HoverTextInner | scraper.py:200-203 | any text wrapped in a 16-character prefix and a 2-character suffix is recovered exactly |
| Text.PyInt | scrape_zenius.py:196-200 | defined by its body; stated by Text.PyIntShowInt, Text.PyIntSigned and Text.PyIntNoDigit |
| Text.IntOr0 | scrape_zenius.py:196-200 | defined by its body, `int()` with 0 on ValueError; stated by the same lemmas and Text.PyIntNoDigit |
| Text.PyIntShowInt | scrape_zenius.py:196-200 | `int()` reads back every integer as it is printed, negative ones included |
| Text.PyIntSigned | scrape_zenius.py:196-200 | any signed number with whitespace around it and between the sign and the digits reads as that number; a '-' gives a negative value, not clamped at zero |
| Text.PyIntNoDigit | scrape_zenius.py:196-200 | any string without a decimal digit fails to convert, so it counts as 0 |
| Page.HoverOr | scraper.py:189-192 | defined by its body: the `[16:-2]` slice of the onmouseover, '' when there is no span; the slice is stated by Text.HoverText |
| Page.FirstIndex | scraper.py:184 | `find` returns the first index whose cell matches, or none when no cell matches |
| Page.RemoveAt | scraper.py:184 | `extract` takes the cell out and keeps every other cell in order |
| Page.ColourInjective | scrape_zenius.py:146-152 | the five colour classes are distinct colours; neither "centre" nor "border" is one of them |
| Page.Route | scraper.py:140-147 | a label is routed to name if it contains "name"; otherwise to release if it contains "release date"; otherwise to region if it contains "region" |
| Page.RowRoute | scraper.py:134-138 | defined by its body: a row without a `td` has no field, any other is routed by the lower-cased text of its first cell; stated by Page.Route and Page.LastRouted |
| Page.LastRouted | scraper.py:133-149 | the last row routed to a field, and no later row is routed to it |
| Scraper.LastDataTable | scraper.py:114-117 | the last table whose header contains "Data", or none when no table has such a header |
| Scraper.FirstLargest | scraper.py:119-121 | the first table of largest size: none is larger, and every earlier one is strictly smaller |
| Scraper.PickTables | scraper.py:113-125 | an empty page fails; a page without a Data table fails; otherwise the mix table is the last Data table and the song table the first largest |
| Scraper.GetMixAndSongsTables | scraper.py:103-125 | the loop over the tables computes exactly that choice, including both failures |
| Scraper.MixInfo | scraper.py:133-149 | defined by its body, the fold over the rows; stated by Scraper.MixInfoLastWins |
| Scraper.MixInfoLastWins | scraper.py:133-151 | a mix field is present exactly when some row is routed to it, and its value is the second cell of the last such row |
| Scraper.GetMixData | scraper.py:128-151 | the loop fills the mix dictionary as that fold over the rows |
| Scraper.NewSong | scraper.py:160-181 | the placeholder song: all strings empty, five empty single slots, four empty double slots and no double beginner |
| Scraper.Classify | scraper.py:215-232 | the difficulty is the first colour class present in the order lightblue, yellow, fuchsia, green, purple; with none present there is none |
| Scraper.ChartOf | scraper.py:250-262 | defined by its body; computed by Scraper.FillChart and compared with scrape_zenius.py's statistics by Agreement.ChartAgrees |
| Scraper.FillChart | scraper.py:256-262 | the step, freeze and shock counts are the first three pieces of the stripped small split on " / ", '' where the split runs out |
| Scraper.PlaceCell | scraper.py:243-264 | one cell keeps all five single slots present |
| Scraper.PlaceAll | scraper.py:215-264 | reading the cells in order keeps all five single slots present |
| Scraper.Accepted | scraper.py:243-254 | the cells stored for a difficulty come from the row and carry that colour and a rating without '-'; completeness and document order are stated by Scraper.AcceptedComplete and Scraper.AcceptedConcat |
| Scraper.AcceptedComplete | scraper.py:215-254 | every cell of the row with that colour and a rating without '-' is among the accepted cells |
| Scraper.AcceptedConcat | scraper.py:215-254 | the cells are accepted in document order: those of a row split in two are those of the first part followed by those of the second |
| Scraper.PlacementStep | scraper.py:243-264 | one more cell keeps the placement rule below |
| Scraper.PlacementStepAccepted | scraper.py:243-264 | an accepted cell fills the single slot if it is empty and otherwise becomes the double chart, a second beginner adding the double key |
| Scraper.PlacementStepSkipped | scraper.py:250-254 | a cell not accepted for a difficulty leaves that difficulty's placement as it was |
| Scraper.Placement | scraper.py:243-264 | a difficulty's first accepted cell is its single chart and its last later one its double chart; a double beginner slot exists only after two accepted beginner cells |
| Scraper.AcceptedCellsOk | scraper.py:250-256 | every cell accepted for a difficulty has a rating and a small, so it yields a chart |
| Scraper.SkippedCell | scraper.py:250-254 | a cell with no colour class, or whose rating contains '-', changes neither chart set |
| Scraper.PlaceCellKeeps | scraper.py:243-264 | a filled single slot never changes, and double slots are only ever added or filled, never removed or cleared |
| Scraper.FillCharts | scraper.py:215-264 | the chart loop leaves the song's chart sets equal to the placement of the row's cells and every other field unchanged |
| Scraper.SongOf | scraper.py:158-265 | defined by its body; computed by Scraper.ParseSong, its charts stated by Scraper.Placement |
| Scraper.ParseSong | scraper.py:158-265 | one row gives the song whose fields are read from the extracted info cell, whose bpm is the "border centre" cell among the rest, and whose charts are their placement |
| Scraper.GetSongData | scraper.py:154-267 | one song per row, in row order |
| Scraper.Scrape | scraper.py:15-23 | the table choice fails exactly as it does on its own; otherwise the mix holds the fields of the mix table and the songs of the song table |
| Zenius.ConvertRoundTrip | scrape_zenius.py:196-200 | converting a printed integer, or the filler 0, gives that integer back |
| Zenius.Tokens | scrape_zenius.py:177 | the split of the stripped small always has at least one piece |
| Zenius.RawStats | scrape_zenius.py:179-193 | the raw dictionary has all four fields; the step count is the first piece and the difficulty the stripped text outside the small |
| Zenius.StatsOf | scrape_zenius.py:177-200 | a chart's statistics always have the four fields |
| Zenius.Convert | scrape_zenius.py:196-200 | defined by its body: `int()` or 0 for a piece of text, the filler 0 unchanged; stated by Zenius.ConvertRoundTrip |
| Zenius.ReadStats | scrape_zenius.py:177-200 | the statistics read from a cell with a small are exactly that cell's converted statistics |
| Zenius.IntConvert | scrape_zenius.py:195-200 | the conversion keeps the keys and replaces every value by its `int()`, or by 0 where that fails |
| Zenius.StatsOfShown | scrape_zenius.py:177-200 | printed counts come back; with 1 piece freeze and shock are 0, with 2 shock is 0, with 3 all three are read, and with 4 or more freeze and shock are 0 |
| Zenius.TokensOfJoin | scrape_zenius.py:177 | a padded " / "-join of printed pieces splits back into those pieces |
| Zenius.TokensShown | scrape_zenius.py:177 | a padded " / "-join of printed counts splits back into the counts as printed |
| Zenius.StatsArity | scrape_zenius.py:180-200 | for any small: the step count is the first piece; the freeze count the second when there are two or three pieces, else 0; the shock count the third when there are three, else 0; each converted by `int()` or 0 |
| Zenius.StatsNoDigits | scrape_zenius.py:177-200 | when no piece and not the label holds a digit, every count is 0, whatever the number of pieces |
| Zenius.StatsNotANumber | scrape_zenius.py:193-200 | an empty small and a "-" rating convert to 0 in every field |
| Zenius.DifficultiesAreColours | scrape_zenius.py:146-152 | the colour dictionary is the inverse of each difficulty's colour, so it is injective and has every difficulty |
| Zenius.ChartList | scrape_zenius.py:158 | never more cells than the row; what it finds is stated by Zenius.ChartListSound, Zenius.ChartListComplete and Zenius.ChartListConcat |
| Zenius.ChartListSound | scrape_zenius.py:158 | every cell found for a colour is a cell of the row with exactly the classes "centre <colour>" |
| Zenius.ChartListComplete | scrape_zenius.py:158 | every cell of the row with exactly the classes "centre <colour>" is found |
| Zenius.ChartListSpec | scrape_zenius.py:158 | every cell found for a colour has exactly the classes "centre <colour>"; every such cell of the row is found |
| Zenius.ChartListConcat | scrape_zenius.py:158 | the cells are found in document order |
| Zenius.ReadDifficulty | scrape_zenius.py:164-206 | for one difficulty, the first cell (when it has a small) fills single, the second fills double, and nothing else changes |
| Zenius.CollectStep | scrape_zenius.py:157-206 | handling one more difficulty keeps the sets holding exactly the handled difficulties' charts |
| Zenius.CollectAll | scrape_zenius.py:157-206 | once every difficulty is handled, the sets are the row's chart sets |
| Zenius.GetChartData | scrape_zenius.py:145-208 | whatever order the colours are visited in, single holds each difficulty's first cell and double its second, where those have a small |
| Zenius.ChartSetOf | scrape_zenius.py:154-208 | defined by its body; stated by Zenius.ChartSetMembers and computed by Zenius.GetChartData |
| Zenius.ChartSetMembers | scrape_zenius.py:165-206 | a difficulty is in a set exactly when its first (single) or second (double) cell exists and has a small, with that cell's statistics |
| Zenius.MissingSmallKeepsDouble | scrape_zenius.py:165-175 | a first cell without a small leaves single without the difficulty, and the second cell still goes to double |
| Zenius.ThirdCellIgnored | scrape_zenius.py:165-170 | once a colour has two cells, a further cell changes neither chart set |
| Zenius.ThirdCellSlot | scrape_zenius.py:165-170 | a cell of a colour that already has two cells changes no difficulty's first or second chart |
| Zenius.DoubleBeginner | scrape_zenius.py:160-170 | double has a beginner chart exactly when there is a second light-blue cell with a small |
| Zenius.RenameMix | scrape_zenius.py:67-69 | defined by its body; stated by Agreement.RenameOnlyNew |
| Zenius.MixInfo | scrape_zenius.py:59-73 | defined by its body, the fold over the rows; stated by Zenius.MixInfoLastWins |
| Zenius.MixInfoLastWins | scrape_zenius.py:59-73 | a mix field is present exactly when some row is routed to it; the last such row wins, and only its name is renamed |
| Zenius.MixInfoStep | scrape_zenius.py:59-73 | one more row stores its value under the field it is routed to, renamed if it is the name, and leaves the rest |
| Zenius.GetMixData | scrape_zenius.py:55-74 | the loop over the first table fills the mix dictionary as that fold |
| Zenius.TableIndex | scrape_zenius.py:79-84 | the song table is table 1 for the three listed mixes and table 2 for every other |
| Zenius.NewSong | scrape_zenius.py:88-108 | the placeholder song: all strings empty and no charts |
| Zenius.BpmNotBeforeInfo | scrape_zenius.py:110-135 | the bpm cell never precedes the info cell, and is the info cell exactly when that cell's classes are "border centre" |
| Zenius.BpmText | scrape_zenius.py:131-135 | defined by its body: the bpm cell's text, or what the extractions left of it when the info cell is itself the bpm cell; stated by Zenius.BpmNotBeforeInfo and Agreement.SongTextAgree |
| Zenius.SongOf | scrape_zenius.py:87-140 | defined by its body; computed by Zenius.ParseSong |
| Zenius.ParseSong | scrape_zenius.py:87-140 | one row gives the song whose text fields come from the info cell and whose charts come from the chart sets of all its cells |
| Zenius.GetSongData | scrape_zenius.py:77-142 | one song per row of the table the mix name selects |
| Zenius.Scrape | scrape_zenius.py:233-237 | the mix holds the fields of the first table and the songs of the selected table |
| Agreement.MixDataAgree | scrape_zenius.py:59-73 | both scrapers read the same mix fields from the same rows; scrape_zenius.py only renames the name |
| Agreement.RenamedStep | scrape_zenius.py:64-69 | storing a field and then renaming equals renaming and then storing the renamed value |
| Agreement.RenameOnlyNew | scrape_zenius.py:67-69 | the rename keeps every field and changes only the name "DanceDanceRevolution (New)" |
| Agreement.TidyMatches | scraper.py:215-254 | on a tidy cell, scraper.py accepts the cell for a difficulty exactly when scrape_zenius.py finds it for that colour |
| Agreement.AcceptedIsChartList | scrape_zenius.py:158 | on tidy cells, the cells scraper.py accepts are the cells scrape_zenius.py finds, in the same order |
| Agreement.InfoCellNotChart | scraper.py:184 | removing the info cell does not change the cells found for any colour |
| Agreement.ChartAgrees | scrape_zenius.py:177-200 | on a cell with a rating, a small of at most three pieces and a rating equal to its text outside the small, scraper.py's string chart converted to integers equals scrape_zenius.py's statistics |
| Agreement.TidyChartAgrees | scrape_zenius.py:177-200 | a tidy coloured cell has a rating and a small, and its two charts agree |
| Agreement.FieldsAgree | scrape_zenius.py:179-200 | field by field, scrape_zenius.py's raw statistic converts to what scraper.py's string converts to |
| Agreement.StatsOfFields | scrape_zenius.py:195-200 | the converted statistics hold, under each of the four keys, the conversion of the raw value |
| Agreement.SlotsAgree | scraper.py:243-264 | with the same at most two cells for a difficulty, both scrapers hold the same single and double charts |
| Agreement.SingleAgrees | scrape_zenius.py:202-206 | with the same at most two cells for a difficulty, both scrapers hold the same single chart |
| Agreement.DoubleAgrees | scrape_zenius.py:202-206 | with the same at most two cells for a difficulty, both scrapers hold the same double chart, none for one cell |
| Agreement.PlacementsAgree | scraper.py:243-264 | on a tidy row, scrape_zenius.py has a single or double chart exactly where scraper.py filled the slot, with the same statistics |
| Agreement.SameCellsFound | scrape_zenius.py:158 | on a tidy row, the cells scraper.py accepts for a difficulty are the at most two tidy coloured cells scrape_zenius.py finds |
| Agreement.BpmAfterInfo | scraper.py:206 | when the info cell is not a "border centre" cell, both scrapers find the same bpm cell, one place later in the full row |
| Agreement.SongTextAgree | scrape_zenius.py:110-135 | name, translations, artist and genre agree, and the bpm too unless the info cell is itself the "border centre" cell |

## Left out

- Argument parsing, the mix-name and game-id tables, the HTTP fetch and its
  status check, JSON output and file writing: these are I/O and command-line
  handling, outside the extraction logic.
- BeautifulSoup itself is not modelled. The model takes as inputs the results
  of `findAll`, `find`, `findNext('th')`, `get_text` and `extract`, and the
  class matching. A single class is matched by membership in the class list;
  "border centre" and "centre <colour>" are matched by comparing the whole
  class list.
- `tables[i] > tables[longest]` compares Tag objects in Python 2. The model
  compares an abstract size per table and keeps only the strict `>`, so ties
  keep the first table.
- The order in which the `difficulties` dictionary is iterated is not fixed
  in Python 2. The model visits the colours in an arbitrary order, and the
  result is proved for every order.
- `lower()` handles only A-Z.
- `int()` is modelled as CPython 2.7 reads a unicode string in base 10:
  outer whitespace, an optional sign, whitespace after the sign, and ASCII
  digits. Non-ASCII decimal digits, which Python also accepts, are not
  modelled. A number too wide for a C long goes through a second parser in
  CPython; the model does not tell the two parsers apart.
- A `<span>` without an onmouseover attribute, or an `<img>` without a title,
  raises KeyError in the source. The model has no such markup: a present
  span always has the attribute.
- The genre span is assumed to lie outside the song's `<strong>`. That way
  the two files' different extraction orders leave the same pieces.
- Crashes that the code does not guard against are preconditions rather than
  modelled exceptions (`Scraper.SongRowOk`, `Zenius.SongRowOk`,
  `MixRowsOk`, `Zenius.TablesOk`). They are:
  - a row without a "border" cell, a `<strong>`, a genre span or a bpm cell;
  - a coloured cell without a `<strong>` in scraper.py, or without a
    `<small>` when its rating has no '-';
  - a routed mix row with a single cell;
  - a mix without a name in scrape_zenius.py;
  - a missing table.
- Scraper.PlaceCell: its contract states only that the single slots stay
  present. The placement itself is stated by Scraper.Placement.
- Text.Find: its contract states only that a found occurrence fits in the
  string. Text.FindSpec states that it is the first one, or that there is none.
- Zenius.StatsOf: its contract states only the four keys. The values are
  given for every small by Zenius.StatsArity.
- The two placements disagree on rows that are not tidy. With a third cell
  of one colour, scraper.py's double chart is the last cell while
  scrape_zenius.py's is the second. A rating with '-' is skipped by
  scraper.py but read by scrape_zenius.py. No lemma states these
  differences; they follow from Scraper.Placement and
  Zenius.ChartSetMembers.
