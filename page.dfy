/**
 * The parsed game-database page, as the two scrapers see it once the HTML
 * parser has done its work: a list of tables, each a list of rows, each a
 * list of `td` cells in document order.  A cell carries only the pieces the
 * scrapers look at.  Also the vocabulary both scrapers share: the five
 * difficulties with their colour classes, and how a mix-table row label
 * chooses the field it fills.
 */
module Page {
  import opened Text

  // ---------------------------------------------------------------------------
  // Markup

  /**
   * The parts of a song's info cell beyond its first `<strong>`.
   * `nameHover` is the onmouseover attribute of the `<span>` inside that
   * `<strong>` (None: the `<strong>` has no `<span>`).  `genre` is the text of
   * the first `<span class="rightfloat">`.  `remainder` is the cell's text once
   * the `<strong>` and that span are removed; `remainderHover` and `imgTitle`
   * are the onmouseover of the first `<span>` and the title of the first
   * `<img>` left after that removal.
   */
  datatype InfoParts = InfoParts(
    nameHover: Option<string>,
    genre: Option<string>,
    remainder: string,
    remainderHover: Option<string>,
    imgTitle: Option<string>)

  /** A translation: the onmouseover text cut by `[16:-2]`, or '' when there is no span. */
  function HoverOr(hover: Option<string>): string {
    match hover
    case None => ""
    case Some(attr) => HoverText(attr)
  }

  /**
   * One `td`: its class list, its whole text, the text of its first `<strong>`
   * and of its first `<small>` (None when absent), its text once that
   * `<small>` is removed, and the info-cell parts.
   */
  datatype Cell = Cell(
    classes: seq<string>,
    text: string,
    strong: Option<string>,
    small: Option<string>,
    textOutsideSmall: string,
    info: InfoParts)

  datatype Row = Row(tds: seq<Cell>)

  /**
   * A `table`: `header` is the text of the first `th` found from the start of
   * the table onwards (`findNext('th')`), `size` the measure the scraper
   * compares to find the largest table, `rows` every `tr` inside it.
   */
  datatype Table = Table(header: Option<string>, size: nat, rows: seq<Row>)

  /** The first element of `s` satisfying `p`, as BeautifulSoup's `find`. */
  function FirstIndex<T>(s: seq<T>, p: T -> bool): (r: Option<nat>)
    ensures r.Some? ==> r.value < |s| && p(s[r.value])
                        && forall j :: 0 <= j < r.value ==> !p(s[j])
    ensures r.None? ==> forall j :: 0 <= j < |s| ==> !p(s[j])
  {
    if s == [] then None
    else if p(s[0]) then Some(0)
    else match FirstIndex(s[1..], p)
      case None => None
      case Some(k) => Some(k + 1)
  }

  /** `find('td', attrs={'class': 'border'})`: a cell having the class "border". */
  predicate IsInfoCell(c: Cell) {
    "border" in c.classes
  }

  /** `find('td', attrs={'class': 'border centre'})`: the class attribute is exactly "border centre". */
  predicate IsBpmCell(c: Cell) {
    c.classes == ["border", "centre"]
  }

  function InfoIndex(tds: seq<Cell>): Option<nat> {
    FirstIndex(tds, IsInfoCell)
  }

  function BpmIndex(tds: seq<Cell>): Option<nat> {
    FirstIndex(tds, IsBpmCell)
  }

  /** `s` with its `k`-th element taken out (BeautifulSoup's `extract`). */
  function RemoveAt<T>(s: seq<T>, k: nat): (r: seq<T>)
    requires k < |s|
    ensures |r| == |s| - 1
    ensures forall j :: 0 <= j < k ==> r[j] == s[j]
    ensures forall j :: k <= j < |r| ==> r[j] == s[j + 1]
  {
    s[..k] + s[k + 1..]
  }

  // ---------------------------------------------------------------------------
  // Difficulties

  datatype Difficulty = Beginner | Basic | Difficult | Expert | Challenge

  const AllDifficulties: set<Difficulty> := {Beginner, Basic, Difficult, Expert, Challenge}

  /** The difficulties a double-play chart set starts with: all but beginner. */
  const DoubleDifficulties: set<Difficulty> := {Basic, Difficult, Expert, Challenge}

  /** The colour class the page gives each difficulty's chart cells. */
  function Colour(d: Difficulty): string {
    match d
    case Beginner => "lightblue"
    case Basic => "yellow"
    case Difficult => "fuchsia"
    case Expert => "green"
    case Challenge => "purple"
  }

  /** The position of a difficulty in the order both scrapers test the colours. */
  function Rank(d: Difficulty): (r: nat)
    ensures r < 5
  {
    match d
    case Beginner => 0
    case Basic => 1
    case Difficult => 2
    case Expert => 3
    case Challenge => 4
  }

  predicate IsColour(s: string) {
    s in {"lightblue", "yellow", "fuchsia", "green", "purple"}
  }

  /** The five colour classes are distinct, so each names one difficulty. */
  lemma ColourInjective(d: Difficulty, e: Difficulty)
    ensures Colour(d) == Colour(e) <==> d == e
    ensures IsColour(Colour(d)) && !IsColour("centre") && !IsColour("border")
  {
  }

  // ---------------------------------------------------------------------------
  // Mix-table rows

  datatype MixField = Name | Release | Region

  /**
   * The field a lower-cased row label fills: "name" is tested first, then
   * "release date", then "region", as substrings.
   */
  function Route(key: string): (f: Option<MixField>)
    ensures f == Some(Name) <==> Contains(key, "name")
    ensures f == Some(Release) <==> !Contains(key, "name") && Contains(key, "release date")
    ensures f == Some(Region) <==>
      !Contains(key, "name") && !Contains(key, "release date") && Contains(key, "region")
  {
    if Contains(key, "name") then Some(Name)
    else if Contains(key, "release date") then Some(Release)
    else if Contains(key, "region") then Some(Region)
    else None
  }

  /** The field a mix-table row fills; a row without `td` cells fills none. */
  function RowRoute(r: Row): Option<MixField> {
    if r.tds == [] then None else Route(Lower(r.tds[0].text))
  }

  /** A row whose label is routed has a second cell to take the value from. */
  predicate MixRowOk(r: Row) {
    RowRoute(r).Some? ==> |r.tds| >= 2
  }

  predicate MixRowsOk(rows: seq<Row>) {
    forall i :: 0 <= i < |rows| ==> MixRowOk(rows[i])
  }

  /** The index of the last row routed to `f`, if any. */
  function LastRouted(rows: seq<Row>, f: MixField): (r: Option<nat>)
    ensures r.Some? ==> r.value < |rows| && RowRoute(rows[r.value]) == Some(f)
                        && forall j :: r.value < j < |rows| ==> RowRoute(rows[j]) != Some(f)
    ensures r.None? ==> forall j :: 0 <= j < |rows| ==> RowRoute(rows[j]) != Some(f)
  {
    if rows == [] then None
    else if RowRoute(rows[|rows| - 1]) == Some(f) then Some(|rows| - 1)
    else
      var init := rows[..|rows| - 1];
      assert forall j :: 0 <= j < |init| ==> init[j] == rows[j];
      LastRouted(init, f)
  }
}
