/**
 * The status tiles' navigation URLs, the reading of the `query` parameter
 * from `location.search`, and the one-time decision whether the donut panel
 * is visible.
 */
module Navigation {
  import opened Wrappers
  import opened Seqs
  import opened JsText
  import opened UriCodec

  /** The list-view filters the running and stopped tiles navigate to. */
  const RUNNING_FILTER := "ステータス in (\"実行中\")"
  const STOPPED_FILTER := "ステータス in (\"停止中\")"

  /**
   * `base + "?app=" + appId + "&query=" + encodeURIComponent(filter)`, where
   * `base` is `protocol + "//" + host + pathname`.
   */
  function TileUrl(base: string, appId: nat, filter: string): string {
    base + "?app=" + NaturalText(appId) + "&query=" + EncodeUriComponent(filter)
  }

  function RunningUrl(base: string, appId: nat): string {
    TileUrl(base, appId, RUNNING_FILTER)
  }

  function StoppedUrl(base: string, appId: nat): string {
    TileUrl(base, appId, STOPPED_FILTER)
  }

  /** The clear tile: `base + "?app=" + appId`, with no query. */
  function ClearUrl(base: string, appId: nat): string {
    base + "?app=" + NaturalText(appId)
  }

  /** A `protocol//host/pathname` prefix never holds a `?` or a `#`. */
  predicate IsBase(base: string) {
    '?' !in base && '#' !in base
  }

  /** `location.search` of a URL: from the first `?` up to the fragment, "" when that is empty. */
  function SearchOf(url: string): string {
    var beforeFragment := SplitAtFirst(url, '#').0;
    match SplitAtFirst(beforeFragment, '?').1
    case None => ""
    case Some(q) => if q == "" then "" else "?" + q
  }

  /** What `URLSearchParams.get` finds: nothing, or the (still encoded) value of the first match. */
  datatype Lookup = Absent | Present(raw: string)

  /**
   * A piece of a query string is a pair when it is non-empty; its key runs up
   * to the first `=`, and it names `name` when that key decodes to it.
   */
  predicate Matches(piece: string, name: string) {
    piece != "" && DecodeComponent(SplitAtFirst(piece, '=').0) == Some(name)
  }

  /** The (still encoded) value of a pair: the text after the first `=`, or "" without one. */
  function ValueOf(piece: string): string {
    match SplitAtFirst(piece, '=').1
    case Some(value) => value
    case None => ""
  }

  /** The lookup over the `&`-separated pieces, front to back. */
  function FindParam(pieces: seq<string>, name: string): Lookup {
    if pieces == [] then Absent
    else if Matches(pieces[0], name) then Present(ValueOf(pieces[0]))
    else FindParam(pieces[1..], name)
  }

  /**
   * `get` finds a value exactly when some pair names `name`, and that value is
   * the one of the first such pair.
   */
  lemma {:induction false} FindParamFirstMatch(pieces: seq<string>, name: string)
    ensures FindParam(pieces, name).Present? <==> exists i :: 0 <= i < |pieces| && Matches(pieces[i], name)
    ensures FindParam(pieces, name).Present? ==>
      exists i :: 0 <= i < |pieces| && Matches(pieces[i], name) &&
        (forall j :: 0 <= j < i ==> !Matches(pieces[j], name)) &&
        FindParam(pieces, name).raw == ValueOf(pieces[i])
  {
    if pieces == [] || Matches(pieces[0], name) {
      return;
    }
    var rest := pieces[1..];
    FindParamFirstMatch(rest, name);
    if FindParam(rest, name).Present? {
      var i :| 0 <= i < |rest| && Matches(rest[i], name) &&
        (forall j :: 0 <= j < i ==> !Matches(rest[j], name)) &&
        FindParam(rest, name).raw == ValueOf(rest[i]);
      assert pieces[i + 1] == rest[i];
      forall j | 0 <= j < i + 1 ensures !Matches(pieces[j], name) {
        if j > 0 {
          assert pieces[j] == rest[j - 1];
        }
      }
    } else {
      forall i | 0 <= i < |pieces| ensures !Matches(pieces[i], name) {
        if i > 0 {
          assert pieces[i] == rest[i - 1];
        }
      }
    }
  }

  /** `new URLSearchParams(search).get(name)`, before the value is decoded. */
  function GetParam(search: string, name: string): Lookup {
    var body := if |search| > 0 && search[0] == '?' then search[1..] else search;
    FindParam(Split(body, '&'), name)
  }

  /**
   * The rule `if (!query) show else hide`: the panel is visible when the
   * `query` parameter is absent or empty. A value is empty after decoding
   * exactly when it is empty before (ValueEmptiness), so the raw value decides.
   */
  function ChartVisible(search: string): bool {
    match GetParam(search, "query")
    case Absent => true
    case Present(raw) => raw == ""
  }

  lemma ValueEmptiness(raw: string, value: string)
    requires DecodeComponent(raw) == Some(value)
    ensures value == "" <==> raw == ""
  {
  }

  /** The inline style `toggleChartVisibility` sets on the panel. */
  datatype PanelStyle = PanelStyle(display: string, flex: string, visibility: string)

  function ToggleChartVisibility(show: bool): PanelStyle {
    if show then PanelStyle("block", "1", "visible") else PanelStyle("block", "1", "hidden")
  }

  /** Both branches keep the panel in the layout; only its visibility differs. */
  lemma ToggleKeepsLayout(show: bool)
    ensures ToggleChartVisibility(show).display == "block"
    ensures ToggleChartVisibility(show).flex == "1"
    ensures ToggleChartVisibility(show).visibility == (if show then "visible" else "hidden")
    ensures ToggleChartVisibility(true) != ToggleChartVisibility(false)
  {
  }

  /** The panel's style right after the first render; it is not re-evaluated later. */
  function InitialPanelStyle(search: string): PanelStyle {
    ToggleChartVisibility(ChartVisible(search))
  }

  /** The parameter names the widget writes decode to themselves and differ. */
  lemma ParameterNames()
    ensures DecodeComponent("app") == Some("app") && DecodeComponent("query") == Some("query")
    ensures "app" != "query"
    ensures '=' !in "app" && '=' !in "query" && '&' !in "app" && '&' !in "query" && '#' !in "app" && '#' !in "query"
  {
    PlainName("app");
    PlainName("query");
    assert |"app"| != |"query"|;
  }

  /** Either parameter name the widget writes reads back as itself and holds no separator. */
  lemma PlainName(name: string)
    requires name == "app" || name == "query"
    ensures DecodeComponent(name) == Some(name)
    ensures '=' !in name && '&' !in name && '#' !in name
  {
    PlainComponent(name);
  }

  /** `location.search` of `base?rest` is `?rest` when the base has no `?` or `#`. */
  lemma SearchAfterBase(base: string, rest: string)
    requires IsBase(base) && '#' !in rest && rest != ""
    ensures SearchOf(base + ['?'] + rest) == ['?'] + rest
  {
    var url := base + ['?'] + rest;
    assert '#' !in url;
    assert SplitAtFirst(url, '#').0 == url;
    SplitAtFirstUnique(base, '?', rest);
  }

  /** The first non-empty piece `key=value` is the match when its key decodes to the name. */
  lemma FindParamHead(key: string, value: string, name: string, rest: seq<string>)
    requires '=' !in key
    ensures FindParam([key + ['='] + value] + rest, name) ==
            if DecodeComponent(key) == Some(name) then Present(value) else FindParam(rest, name)
  {
    var pieces := [key + ['='] + value] + rest;
    SplitAtFirstUnique(key, '=', value);
    assert pieces[1..] == rest;
  }

  /** The search string `?key1=value1&key2=value2`, with neither piece holding `&`. */
  lemma TwoParams(key1: string, value1: string, key2: string, value2: string, name: string)
    requires '=' !in key1 && '=' !in key2
    requires '&' !in key1 && '&' !in value1 && '&' !in key2 && '&' !in value2
    ensures GetParam(['?'] + (key1 + ['='] + value1 + ['&'] + key2 + ['='] + value2), name) ==
            if DecodeComponent(key1) == Some(name) then Present(value1)
            else if DecodeComponent(key2) == Some(name) then Present(value2)
            else Absent
  {
    var first := key1 + ['='] + value1;
    var second := key2 + ['='] + value2;
    var search := ['?'] + (key1 + ['='] + value1 + ['&'] + key2 + ['='] + value2);
    assert search[1..] == first + ['&'] + second;
    SplitConcat(first, '&', second);
    SplitNoSeparator(second, '&');
    FindParamHead(key1, value1, name, [second]);
    FindParamHead(key2, value2, name, []);
  }

  /** The search string `?key=value`, with no `&` in it. */
  lemma OneParam(key: string, value: string, name: string)
    requires '=' !in key && '&' !in key && '&' !in value
    ensures GetParam(['?'] + (key + ['='] + value), name) ==
            if DecodeComponent(key) == Some(name) then Present(value) else Absent
  {
    var piece := key + ['='] + value;
    assert (['?'] + piece)[1..] == piece;
    SplitNoSeparator(piece, '&');
    FindParamHead(key, value, name, []);
    assert [piece] + [] == [piece];
    assert FindParam([], name) == Absent;
  }

  lemma NoSeparatorsInTail(appId: nat, filter: string)
    ensures var digits := NaturalText(appId);
      var encoded := EncodeUriComponent(filter);
      '&' !in digits && '#' !in digits && '&' !in encoded && '#' !in encoded
  {
  }

  /** A tile URL is its base, a `?`, and the two pairs. */
  lemma TileShape(base: string, digits: string, encoded: string)
    ensures base + "?app=" + digits + "&query=" + encoded ==
            base + ['?'] + ("app" + ['='] + digits + ['&'] + "query" + ['='] + encoded)
  {
  }

  /** The clear tile's URL is its base, a `?`, and the one pair. */
  lemma ClearShape(base: string, digits: string)
    ensures base + "?app=" + digits == base + ['?'] + ("app" + ['='] + digits)
  {
  }

  /** The search string of a tile URL is exactly the part the tile appended. */
  lemma TileSearch(base: string, appId: nat, filter: string)
    requires IsBase(base)
    ensures SearchOf(TileUrl(base, appId, filter)) ==
            ['?'] + ("app" + ['='] + NaturalText(appId) + ['&'] + "query" + ['='] + EncodeUriComponent(filter))
  {
    var digits := NaturalText(appId);
    var encoded := EncodeUriComponent(filter);
    NoSeparatorsInTail(appId, filter);
    PlainName("app");
    PlainName("query");
    TileShape(base, digits, encoded);
    SearchAfterBase(base, "app" + ['='] + digits + ['&'] + "query" + ['='] + encoded);
  }

  /**
   * Following a running or stopped tile lands on a page whose `query`
   * parameter decodes to the tile's filter, so the panel starts hidden.
   */
  lemma TileUrlHidesChart(base: string, appId: nat, filter: string)
    requires IsBase(base) && filter != ""
    ensures var search := SearchOf(TileUrl(base, appId, filter));
      GetParam(search, "query") == Present(EncodeUriComponent(filter)) &&
      DecodeComponent(EncodeUriComponent(filter)) == Some(filter) &&
      !ChartVisible(search)
  {
    TileSearch(base, appId, filter);
    ParameterNames();
    NoSeparatorsInTail(appId, filter);
    TwoParams("app", NaturalText(appId), "query", EncodeUriComponent(filter), "query");
    ComponentRoundTrip(filter);
  }

  lemma RunningTileHidesChart(base: string, appId: nat)
    requires IsBase(base)
    ensures !ChartVisible(SearchOf(RunningUrl(base, appId)))
    ensures InitialPanelStyle(SearchOf(RunningUrl(base, appId))) == PanelStyle("block", "1", "hidden")
  {
    TileUrlHidesChart(base, appId, RUNNING_FILTER);
  }

  lemma StoppedTileHidesChart(base: string, appId: nat)
    requires IsBase(base)
    ensures !ChartVisible(SearchOf(StoppedUrl(base, appId)))
    ensures InitialPanelStyle(SearchOf(StoppedUrl(base, appId))) == PanelStyle("block", "1", "hidden")
  {
    TileUrlHidesChart(base, appId, STOPPED_FILTER);
  }

  /** Following the clear tile lands on a page without a `query`, so the panel is shown. */
  lemma ClearUrlShowsChart(base: string, appId: nat)
    requires IsBase(base)
    ensures GetParam(SearchOf(ClearUrl(base, appId)), "query") == Absent
    ensures ChartVisible(SearchOf(ClearUrl(base, appId)))
    ensures InitialPanelStyle(SearchOf(ClearUrl(base, appId))) == PanelStyle("block", "1", "visible")
  {
    var digits := NaturalText(appId);
    ParameterNames();
    NoSeparatorsInTail(appId, "");
    ClearShape(base, digits);
    SearchAfterBase(base, "app" + ['='] + digits);
    OneParam("app", digits, "query");
  }

  /** An empty search string holds no parameter at all. */
  lemma EmptySearch(name: string)
    ensures GetParam("", name) == Absent
  {
    SplitNoSeparator("", '&');
    assert !Matches("", name);
    assert FindParam([""], name) == FindParam([], name);
  }

  lemma QueryShapes()
    ensures "?query=" == ['?'] + ("query" + ['='] + "")
    ensures "?query=x" == ['?'] + ("query" + ['='] + "x")
  {
  }

  /** With no `query` parameter at all, or an empty one, the panel is visible; with a value it is hidden. */
  lemma VisibilityExamples()
    ensures ChartVisible("")
    ensures ChartVisible("?query=")
    ensures !ChartVisible("?query=x")
  {
    EmptySearch("query");
    PlainName("query");
    QueryShapes();
    OneParam("query", "", "query");
    OneParam("query", "x", "query");
  }
}
