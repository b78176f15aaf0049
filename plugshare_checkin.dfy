/**
 * Model of CheckIn.parse in evlens/data/plugshare.py: the field dispatch
 * over the children of a check-in's "details" element and of its
 * "additional" child, the fill of missing columns, and the single-row
 * frame the parse returns.
 *
 * The page is a tree of `Element`s (class attribute, text, children).
 * pd.to_datetime is left out: the date column holds the element's text.
 */
module PlugshareCheckIn {
  import opened Wrappers
  import opened PlugshareText

  datatype Element = Element(cls: string, text: string, children: seq<Element>)

  /** The two loops of parse: over the details children, then over the additional children. */
  datatype Section = Details | Additional

  /** The columns every parsed check-in ends up with. */
  const ExpectedColumns: seq<string> :=
    ["id", "date", "car", "problem", "connector_type", "charge_power_kilowatts", "comment", "station_id"]

  /** The class name of the "additional" child, whose children the second loop reads. */
  const AdditionalClass := "additional"

  /** The column a child with class attribute `cls` fills, in the given loop. */
  function KeyOf(sec: Section, cls: string): (k: Option<string>)
    ensures k.Some? ==> k.value in ExpectedColumns && k.value != "id" && k.value != "station_id"
    ensures sec.Details? && k.Some? ==> k.value == "date" || k.value == "car"
    ensures sec.Additional? && k.Some? ==> k.value != "date" && k.value != "car"
  {
    match sec
    case Details =>
      if cls == "date ng-binding" then Some("date")
      else if cls == "car ng-binding" then Some("car")
      else None
    case Additional =>
      if cls == "problem ng-scope" then Some("problem")
      else if cls == "connector ng-binding" then Some("connector_type")
      else if cls == "kilowatts ng-scope" then Some("charge_power_kilowatts")
      else if cls == "comment ng-binding" then Some("comment")
      else None
  }

  /** The value stored for a child's text: the power column goes through _get_power_number. */
  function FieldValue(key: string, text: string): Value {
    if key == "charge_power_kilowatts" then PowerNumber(Str(text)) else Str(text)
  }

  /** One child's effect on the output dict. */
  function Assign(sec: Section, output: Record, e: Element): Record {
    match KeyOf(sec, e.cls)
    case Some(k) => output[k := FieldValue(k, e.text)]
    case None => output
  }

  /** The output dict after a loop over `kids` that started from `output`. */
  function Apply(sec: Section, output: Record, kids: seq<Element>): Record
  {
    if |kids| == 0 then output
    else Assign(sec, Apply(sec, output, kids[..|kids| - 1]), kids[|kids| - 1])
  }

  /** One more child: the loop over kids[..j + 1] is the loop over kids[..j] and then kids[j]. */
  lemma ApplyStep(sec: Section, output: Record, kids: seq<Element>, j: nat)
    requires j < |kids|
    ensures Apply(sec, output, kids[..j + 1]) == Assign(sec, Apply(sec, output, kids[..j]), kids[j])
    ensures LastAdditional(kids[..j + 1])
         == if kids[j].cls == AdditionalClass then Some(kids[j].children) else LastAdditional(kids[..j])
  {
    assert kids[..j + 1][..j] == kids[..j];
  }

  /** kids[i] is the last child that fills column k. */
  ghost predicate LastWithKey(sec: Section, kids: seq<Element>, k: string, i: int) {
    0 <= i < |kids| && KeyOf(sec, kids[i].cls) == Some(k) &&
    forall j :: i < j < |kids| ==> KeyOf(sec, kids[j].cls) != Some(k)
  }

  /** One child touches its own column and no other. */
  lemma AssignKey(sec: Section, output: Record, e: Element, k: string)
    ensures KeyOf(sec, e.cls) == Some(k) ==>
      k in Assign(sec, output, e) && Assign(sec, output, e)[k] == FieldValue(k, e.text)
    ensures KeyOf(sec, e.cls) != Some(k) ==>
      (k in Assign(sec, output, e) <==> k in output) &&
      (k in output ==> Assign(sec, output, e)[k] == output[k])
  {
  }

  /** Each recognised class sets its own column, and the last child naming a column wins. */
  lemma {:induction false} ApplyLast(sec: Section, output: Record, kids: seq<Element>, k: string, i: int)
    requires LastWithKey(sec, kids, k, i)
    ensures k in Apply(sec, output, kids) && Apply(sec, output, kids)[k] == FieldValue(k, kids[i].text)
    decreases |kids|
  {
    var n := |kids| - 1;
    var prev := Apply(sec, output, kids[..n]);
    AssignKey(sec, prev, kids[n], k);
    if i < n {
      assert LastWithKey(sec, kids[..n], k, i) by {
        forall j | i < j < n ensures KeyOf(sec, kids[..n][j].cls) != Some(k) {
          assert kids[..n][j] == kids[j];
        }
      }
      ApplyLast(sec, output, kids[..n], k, i);
    }
  }

  /** A column no child names keeps the value it had, or stays missing. */
  lemma {:induction false} ApplyUntouched(sec: Section, output: Record, kids: seq<Element>, k: string)
    requires forall i :: 0 <= i < |kids| ==> KeyOf(sec, kids[i].cls) != Some(k)
    ensures k in Apply(sec, output, kids) <==> k in output
    ensures k in output ==> Apply(sec, output, kids)[k] == output[k]
  {
    if |kids| > 0 {
      var n := |kids| - 1;
      var init := kids[..n];
      assert forall i :: 0 <= i < |init| ==> KeyOf(sec, init[i].cls) != Some(k) by {
        forall i | 0 <= i < |init| ensures KeyOf(sec, init[i].cls) != Some(k) {
          assert init[i] == kids[i];
        }
      }
      ApplyUntouched(sec, output, init, k);
      AssignKey(sec, Apply(sec, output, init), kids[n], k);
    }
  }

  /** The loops only ever add recognised columns. */
  lemma {:induction false} ApplyKeys(sec: Section, output: Record, kids: seq<Element>)
    ensures forall k :: k in Apply(sec, output, kids) ==> k in output || k in KeysOf(sec)
  {
    if |kids| > 0 {
      ApplyKeys(sec, output, kids[..|kids| - 1]);
    }
  }

  /** The columns a loop can fill. */
  function KeysOf(sec: Section): (ks: set<string>)
    ensures forall c :: KeyOf(sec, c).Some? ==> KeyOf(sec, c).value in ks
  {
    match sec
    case Details => {"date", "car"}
    case Additional => {"problem", "connector_type", "charge_power_kilowatts", "comment"}
  }

  /** The children of the last "additional" child: what self.additional_children holds after the first loop. */
  function LastAdditional(kids: seq<Element>): Option<seq<Element>> {
    if |kids| == 0 then None
    else if kids[|kids| - 1].cls == AdditionalClass then Some(kids[|kids| - 1].children)
    else LastAdditional(kids[..|kids| - 1])
  }

  /** The column fill: each expected column not yet in the dict is set to missing. */
  function Fill(output: Record, columns: seq<string>): Record
    decreases |columns|
  {
    if |columns| == 0 then output
    else Fill(if columns[0] in output then output else output[columns[0] := Null], columns[1..])
  }

  lemma {:induction false} FillProperties(output: Record, columns: seq<string>)
    ensures Fill(output, columns).Keys == output.Keys + set c | c in columns
    ensures forall k :: k in output ==> k in Fill(output, columns) && Fill(output, columns)[k] == output[k]
    ensures forall c :: c in columns && c !in output ==> c in Fill(output, columns) && Fill(output, columns)[c] == Null
    decreases |columns|
  {
    if |columns| > 0 {
      var next := if columns[0] in output then output else output[columns[0] := Null];
      FillProperties(next, columns[1..]);
      assert forall c :: c in columns <==> c == columns[0] || c in columns[1..];
    }
  }

  /** The fill never changes a column that is already there. */
  lemma FillKeeps(output: Record, columns: seq<string>, k: string)
    requires k in output
    ensures k in Fill(output, columns) && Fill(output, columns)[k] == output[k]
  {
    FillProperties(output, columns);
  }

  /** The fill over the columns from n on handles columns[n], then the rest. */
  lemma FillStep(output: Record, columns: seq<string>, n: nat)
    requires n < |columns|
    ensures Fill(output, columns[n..])
         == Fill(if columns[n] in output then output else output[columns[n] := Null], columns[n + 1..])
  {
    assert columns[n..][1..] == columns[n + 1..];
  }

  /** The loop over expected_columns: set each column missing from the dict to NaN. */
  method FillMissing(output: Record, columns: seq<string>) returns (r: Record)
    ensures r == Fill(output, columns)
  {
    r := output;
    var n := 0;
    while n < |columns|
      invariant 0 <= n <= |columns|
      invariant Fill(r, columns[n..]) == Fill(output, columns)
    {
      FillStep(r, columns, n);
      if columns[n] !in r {
        r := r[columns[n] := Null];
      }
      n := n + 1;
    }
  }

  /**
   * What save_error_screenshot raises: ValueError when no screenshot
   * directory was given, and otherwise AttributeError from
   * `self.element.driver`, since a Selenium WebElement has no `driver`
   * attribute.
   */
  datatype ParseError = ScreenshotPathMissing | ElementHasNoDriver

  /**
   * The outcome of parse on a check-in whose "details" element has the
   * children `details` (None when find_element raises NoSuchElementException).
   * Without an "additional" child, reading self.additional_children fails;
   * the handler calls save_error_screenshot, which raises in turn.
   */
  function ParseSpec(details: Option<seq<Element>>, hasScreenshotPath: bool): Result<Record, ParseError> {
    match details
    case None => Success(Fill(map[], ExpectedColumns))
    case Some(kids) =>
      var d := Apply(Details, map[], kids);
      match LastAdditional(kids)
      case None => Failure(if hasScreenshotPath then ElementHasNoDriver else ScreenshotPathMissing)
      case Some(add) => Success(Fill(Apply(Additional, d, add), ExpectedColumns))
  }

  /**
   * CheckIn.parse up to the DataFrame construction: the dispatch loops and
   * the column fill.
   */
  method Parse(details: Option<seq<Element>>, hasScreenshotPath: bool) returns (r: Result<Record, ParseError>)
    ensures r == ParseSpec(details, hasScreenshotPath)
  {
    var output: Record := map[];
    if details.Some? {
      var kids := details.value;
      var additional: Option<seq<Element>> := None;
      var i := 0;
      while i < |kids|
        invariant 0 <= i <= |kids|
        invariant output == Apply(Details, map[], kids[..i])
        invariant additional == LastAdditional(kids[..i])
      {
        var d := kids[i];
        ApplyStep(Details, map[], kids, i);
        if d.cls == "date ng-binding" {
          output := output["date" := Str(d.text)];
        } else if d.cls == "car ng-binding" {
          output := output["car" := Str(d.text)];
        } else if d.cls == AdditionalClass {
          additional := Some(d.children);
        }
        i := i + 1;
      }
      assert kids[..|kids|] == kids;
      if additional.None? {
        if !hasScreenshotPath {
          return Failure(ScreenshotPathMissing);
        }
        return Failure(ElementHasNoDriver);
      } else {
        var add := additional.value;
        ghost var start := output;
        var j := 0;
        while j < |add|
          invariant 0 <= j <= |add|
          invariant output == Apply(Additional, start, add[..j])
        {
          var d := add[j];
          ApplyStep(Additional, start, add, j);
          if d.cls == "problem ng-scope" {
            output := output["problem" := Str(d.text)];
          } else if d.cls == "connector ng-binding" {
            output := output["connector_type" := Str(d.text)];
          } else if d.cls == "kilowatts ng-scope" {
            output := output["charge_power_kilowatts" := PowerNumber(Str(d.text))];
          } else if d.cls == "comment ng-binding" {
            output := output["comment" := Str(d.text)];
          }
          j := j + 1;
        }
        assert add[..|add|] == add;
      }
    }
    output := FillMissing(output, ExpectedColumns);
    return Success(output);
  }

  /** Every column a loop can fill is expected; "id" and "station_id" are expected but no loop fills them. */
  lemma RecognisedColumns()
    ensures KeysOf(Details) + KeysOf(Additional) <= set c | c in ExpectedColumns
    ensures "id" !in KeysOf(Details) + KeysOf(Additional) && "station_id" !in KeysOf(Details) + KeysOf(Additional)
    ensures "id" in ExpectedColumns && "station_id" in ExpectedColumns
  {
    var ec := ExpectedColumns;
    assert ec[1] == "date" && ec[2] == "car" && ec[3] == "problem" && ec[4] == "connector_type";
    assert ec[5] == "charge_power_kilowatts" && ec[6] == "comment";
    assert ec[0] == "id" && ec[7] == "station_id";
  }

  /** Filling a dict whose columns are all among `columns` gives exactly `columns`. */
  lemma FillOnto(d: Record, columns: seq<string>)
    requires d.Keys <= set c | c in columns
    ensures Fill(d, columns).Keys == set c | c in columns
  {
    FillProperties(d, columns);
  }

  /** Filling a dict that holds only recognised columns gives exactly the expected columns. */
  lemma FilledColumns(d: Record)
    requires d.Keys <= KeysOf(Details) + KeysOf(Additional)
    ensures Fill(d, ExpectedColumns).Keys == set c | c in ExpectedColumns
    ensures "id" in Fill(d, ExpectedColumns) && Fill(d, ExpectedColumns)["id"] == Null
    ensures "station_id" in Fill(d, ExpectedColumns) && Fill(d, ExpectedColumns)["station_id"] == Null
  {
    RecognisedColumns();
    FillOnto(d, ExpectedColumns);
    FillProperties(d, ExpectedColumns);
  }

  /**
   * After the fill a parsed check-in has exactly the eight expected
   * columns, and "id" and "station_id" are still missing.
   */
  lemma ParsedColumns(details: Option<seq<Element>>, hasScreenshotPath: bool)
    requires ParseSpec(details, hasScreenshotPath).Success?
    ensures var f := ParseSpec(details, hasScreenshotPath).value;
      f.Keys == (set c | c in ExpectedColumns) &&
      "id" in f && f["id"] == Null && "station_id" in f && f["station_id"] == Null
  {
    if details.None? {
      FilledColumns(map[]);
    } else {
      var kids := details.value;
      var d := Apply(Details, map[], kids);
      ApplyKeys(Details, map[], kids);
      match LastAdditional(kids)
      case None =>
        FilledColumns(d);
      case Some(add) =>
        ApplyKeys(Additional, d, add);
        FilledColumns(Apply(Additional, d, add));
    }
  }

  /**
   * A details child fills its column with its own text, the kilowatts
   * child of "additional" fills the power column with _get_power_number of
   * its text, and children of the other loop never touch these columns.
   */
  lemma ParsedFieldValues(kids: seq<Element>, add: seq<Element>, i: int, j: int)
    requires LastAdditional(kids) == Some(add)
    ensures LastWithKey(Details, kids, "car", i) ==> var f := ParseSpec(Some(kids), false).value;
      "car" in f && f["car"] == Str(kids[i].text)
    ensures LastWithKey(Additional, add, "charge_power_kilowatts", j) ==> var f := ParseSpec(Some(kids), false).value;
      "charge_power_kilowatts" in f && f["charge_power_kilowatts"] == PowerNumber(Str(add[j].text))
  {
    var d := Apply(Details, map[], kids);
    var a := Apply(Additional, d, add);
    assert ParseSpec(Some(kids), false) == Success(Fill(a, ExpectedColumns));
    if LastWithKey(Details, kids, "car", i) {
      assert "car" in a && a["car"] == Str(kids[i].text) by {
        ApplyLast(Details, map[], kids, "car", i);
        ApplyUntouched(Additional, d, add, "car");
      }
      FillKeeps(a, ExpectedColumns, "car");
    }
    if LastWithKey(Additional, add, "charge_power_kilowatts", j) {
      ApplyLast(Additional, d, add, "charge_power_kilowatts", j);
      FillKeeps(a, ExpectedColumns, "charge_power_kilowatts");
    }
  }

  /**
   * A check-in without a "details" element parses to all-missing columns;
   * one whose "details" element has no "additional" child makes parse raise,
   * ValueError without a screenshot path and AttributeError with one.
   */
  lemma ParseWithoutAdditional(details: Option<seq<Element>>, hasScreenshotPath: bool)
    requires details.None? || LastAdditional(details.value).None?
    ensures ParseSpec(details, hasScreenshotPath).Success? <==> details.None?
    ensures ParseSpec(details, hasScreenshotPath).Failure? ==>
      ParseSpec(details, hasScreenshotPath).error == (if hasScreenshotPath then ElementHasNoDriver else ScreenshotPathMissing)
    ensures details.None? ==> var f := ParseSpec(details, hasScreenshotPath).value;
      forall c :: c in ExpectedColumns ==> c in f && f[c] == Null
  {
    FillProperties(map[], ExpectedColumns);
  }

  /**
   * `pd.DataFrame(output, index=[0]).dropna(how='all')` followed by the
   * "id" assignment: no row when every value is missing, otherwise the one
   * row with `uuid` as its id.
   */
  function CheckInFrame(fields: Record, uuid: string): (f: Frame)
    ensures |f| <= 1
    ensures |f| == 0 <==> forall k :: k in fields ==> fields[k] == Null
    ensures |f| == 1 ==> f[0].Keys == fields.Keys + {"id"} && f[0]["id"] == Str(uuid)
    ensures |f| == 1 ==> forall k :: k in fields && k != "id" ==> f[0][k] == fields[k]
  {
    if forall k :: k in fields ==> fields[k] == Null then [] else [fields["id" := Str(uuid)]]
  }

  /** The class of the power reading selects the power column in the second loop only. */
  lemma KilowattsClass(kw: Element)
    requires kw.cls == "kilowatts ng-scope"
    ensures KeyOf(Additional, kw.cls) == Some("charge_power_kilowatts")
    ensures LastWithKey(Additional, [kw], "charge_power_kilowatts", 0)
    ensures LastAdditional([Element(AdditionalClass, "", [kw])]) == Some([kw])
  {
  }

  /**
   * A check-in whose only child is an "additional" element holding a power
   * reading parses, and when _get_power_number finds a
   * number the frame has one row holding it.
   */
  lemma PowerReadingRow(kw: Element, uuid: string)
    requires kw.cls == "kilowatts ng-scope"
    ensures var p := ParseSpec(Some([Element(AdditionalClass, "", [kw])]), false);
      p.Success? &&
      "charge_power_kilowatts" in p.value && p.value["charge_power_kilowatts"] == PowerNumber(Str(kw.text))
    ensures var f := ParseSpec(Some([Element(AdditionalClass, "", [kw])]), false).value;
      PowerNumber(Str(kw.text)) != Null ==>
        |CheckInFrame(f, uuid)| == 1 && "charge_power_kilowatts" in CheckInFrame(f, uuid)[0] &&
        CheckInFrame(f, uuid)[0]["charge_power_kilowatts"] == PowerNumber(Str(kw.text))
  {
    KilowattsClass(kw);
    ParsedFieldValues([Element(AdditionalClass, "", [kw])], [kw], 0, 0);
  }

  /** "110 Kilowatts" becomes one row whose power column is 110. */
  lemma KilowattsCheckInExample()
    ensures var f := ParseSpec(Some([Element("additional", "", [Element("kilowatts ng-scope", "110 Kilowatts", [])])]), false).value;
      |CheckInFrame(f, "u")| == 1 && "charge_power_kilowatts" in CheckInFrame(f, "u")[0] &&
      CheckInFrame(f, "u")[0]["charge_power_kilowatts"] == Int(110)
  {
    PowerNumberExample();
    PowerReadingRow(Element("kilowatts ng-scope", "110 Kilowatts", []), "u");
  }
}
