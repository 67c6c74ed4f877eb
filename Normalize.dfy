/** get_all_kebaps_as_df after the worksheet has been read: the header names
    are cleaned, rows without an id dropped, numbers coerced inside one try
    block, "datum uhrzeit" parsed all-or-nothing, and the weekday label and
    the cleaned preparer key derived. The sheet reader itself (which row is
    the header, the first six columns) and the datetime parser are inputs. */
module Normalize {
  import opened Wrappers
  import opened Text

  /** One cell of the loaded frame: NaN, text (the frame is read with dtype=str),
      or a number once pd.to_numeric has converted its column. */
  datatype Value = Missing | Str(text: string) | Num(n: int)

  /** What pd.to_datetime yields for one "datum uhrzeit" text: the name
      strftime('%a') prints for its day, its hour and its minute. */
  datatype Stamp = Stamp(dayName: string, hour: nat, minute: nat)

  /** One row of the loaded frame. The first six fields are the sheet's columns
      id, datum, gewicht_g, zubereitet, personen, uhrzeit; then DateTime,
      Wochentag, Stunde, Stunde_Ganz, Zubereitet_Clean and Wochentag_DE. */
  datatype Kebap = Kebap(
    id: Value, date: Option<string>, weight: Value, preparer: Option<string>, persons: Value, time: Option<string>,
    dateTime: Option<Stamp>, dayName: Option<string>, hourOfDay: Option<real>, hour: Option<nat>,
    preparerKey: Option<string>, weekday: Option<string>)

  /** An empty DataFrame, the loaded frame, or the KeyError that escapes when
      the column 'zubereitet' is missing. */
  datatype LoadResult = Empty | Loaded(kebaps: seq<Kebap>) | KeyError(column: string)

  type Column = seq<Option<string>>

  // ---- header names ----

  /** str(col).lower().strip() */
  function NormalizeHeader(h: string): string
  {
    Strip(Lower(h))
  }

  function NormalizeHeaders(header: seq<string>): (names: seq<string>)
    ensures |names| == |header|
    ensures forall j :: 0 <= j < |header| ==> names[j] == NormalizeHeader(header[j])
  {
    seq(|header|, j requires 0 <= j < |header| => NormalizeHeader(header[j]))
  }

  lemma {:induction false} LowerKeepsSpaces(s: string)
    ensures forall i :: 0 <= i < |s| ==> (IsSpace(Lower(s)[i]) <==> IsSpace(s[i]))
  {
  }

  lemma {:induction false} LeadingSpacesOfPadded(w: string, x: string)
    requires forall i :: 0 <= i < |w| ==> IsSpace(w[i])
    requires |x| > 0 && !IsSpace(x[0])
    ensures LeadingSpaces(w + x) == |w|
    decreases |w|
  {
    if |w| > 0 {
      assert (w + x)[1..] == w[1..] + x;
      LeadingSpacesOfPadded(w[1..], x);
    } else {
      assert w + x == x;
    }
  }

  lemma {:induction false} TrailingEndOfPadded(x: string, w: string)
    requires forall i :: 0 <= i < |w| ==> IsSpace(w[i])
    requires |x| > 0 && !IsSpace(x[|x| - 1])
    ensures TrailingEnd(x + w) == |x|
    decreases |w|
  {
    if |w| > 0 {
      assert (x + w)[..|x + w| - 1] == x + w[..|w| - 1];
      TrailingEndOfPadded(x, w[..|w| - 1]);
    } else {
      assert x + w == x;
    }
  }

  /** Any mix of case and surrounding whitespace around "id" is read as the id column. */
  lemma IdHeaderVariants(pre: string, c1: char, c2: char, post: string)
    requires forall i :: 0 <= i < |pre| ==> IsSpace(pre[i])
    requires forall i :: 0 <= i < |post| ==> IsSpace(post[i])
    requires c1 in "iI" && c2 in "dD"
    ensures NormalizeHeader(pre + [c1, c2] + post) == "id"
  {
    var h := pre + [c1, c2] + post;
    var l := Lower(h);
    assert l == Lower(pre) + "id" + Lower(post);
    LowerKeepsSpaces(pre);
    LowerKeepsSpaces(post);
    LeadingSpacesOfPadded(Lower(pre), "id" + Lower(post));
    assert Lower(pre) + "id" + Lower(post) == Lower(pre) + ("id" + Lower(post));
    TrailingEndOfPadded(Lower(pre) + "id", Lower(post));
    assert l[|pre|..|pre| + 2] == "id";
  }

  /** Conversely, a header read as "id" is "id" in some case, surrounded by whitespace. */
  lemma IdHeaderShape(h: string)
    requires NormalizeHeader(h) == "id"
    ensures var i := LeadingSpaces(Lower(h));
      && i + 2 <= |h| && LowerChar(h[i]) == 'i' && LowerChar(h[i + 1]) == 'd'
      && (forall k :: 0 <= k < i ==> IsSpace(h[k]))
      && (forall k :: i + 2 <= k < |h| ==> IsSpace(h[k]))
  {
    var l := Lower(h);
    LowerKeepsSpaces(h);
    var i, j := LeadingSpaces(l), TrailingEnd(l);
    assert i < j && l[i..j] == "id";
    assert l[i] == 'i' && l[i + 1] == 'd';
  }

  // ---- selecting columns and rows ----

  /** The position of the first column with the given name. */
  function ColumnIndex(names: seq<string>, name: string): (r: Option<nat>)
    ensures r.Some? ==> r.value < |names| && names[r.value] == name
    ensures r.None? <==> name !in names
  {
    if |names| == 0 then None
    else if names[0] == name then Some(0)
    else match ColumnIndex(names[1..], name)
      case None => None
      case Some(k) => Some(k + 1)
  }

  /** A row's cell in column j; a row shorter than the header reads as NaN there. */
  function Cell(row: seq<Option<string>>, j: nat): Option<string>
  {
    if j < |row| then row[j] else None
  }

  /** df[name] as a column of the given rows, or None when there is no such column. */
  function ColumnOf(names: seq<string>, rows: seq<seq<Option<string>>>, name: string): (c: Option<Column>)
    ensures c.Some? <==> name in names
    ensures c.Some? ==> |c.value| == |rows|
    ensures c.Some? ==> forall i :: 0 <= i < |rows| ==> c.value[i] == Cell(rows[i], ColumnIndex(names, name).value)
  {
    match ColumnIndex(names, name)
    case None => None
    case Some(j) => Some(seq(|rows|, i requires 0 <= i < |rows| => Cell(rows[i], j)))
  }

  /** The row survives dropna(subset=['id']) and the filter df['id'] != ''. */
  predicate HasId(row: seq<Option<string>>, idIndex: nat)
  {
    Cell(row, idIndex).Some? && Cell(row, idIndex).value != ""
  }

  /** The rows with a non-missing, non-empty id, in their order: each such row
      kept as often as it occurs, every other row dropped. */
  function KeepRowsWithId(rows: seq<seq<Option<string>>>, idIndex: nat): (kept: seq<seq<Option<string>>>)
    ensures forall k :: 0 <= k < |kept| ==> HasId(kept[k], idIndex)
    ensures forall row :: multiset(kept)[row] == if HasId(row, idIndex) then multiset(rows)[row] else 0
  {
    if |rows| == 0 then []
    else
      var rest := KeepRowsWithId(rows[1..], idIndex);
      assert rows == [rows[0]] + rows[1..];
      if HasId(rows[0], idIndex) then [rows[0]] + rest else rest
  }

  // ---- pd.to_numeric ----

  /** Text pd.to_numeric reads as an integer: an optional sign, then digits. */
  predicate IsIntText(s: string)
  {
    IsDigits(s) || (|s| > 1 && (s[0] == '-' || s[0] == '+') && IsDigits(s[1..]))
  }

  function IntValue(s: string): int
    requires IsIntText(s)
  {
    if IsDigits(s) then DigitsValue(s)
    else if s[0] == '-' then -(DigitsValue(s[1..]) as int)
    else DigitsValue(s[1..])
  }

  /** A cell pd.to_numeric turns into NaN. */
  predicate IsBlank(c: Option<string>) { c.None? || c.value == "" }

  /** The column as text, NaN kept. */
  function AsText(col: Column): (vs: seq<Value>)
    ensures |vs| == |col|
    ensures forall i :: 0 <= i < |col| ==> vs[i] == if col[i].None? then Missing else Str(col[i].value)
  {
    seq(|col|, i requires 0 <= i < |col| => if col[i].None? then Missing else Str(col[i].value))
  }

  /** pd.to_numeric(col): every cell converted, or None (the ValueError) as soon
      as one cell is neither blank nor integer text. */
  function ToNumeric(col: Column): (r: Option<seq<Value>>)
    ensures r.Some? <==> forall i :: 0 <= i < |col| ==> IsBlank(col[i]) || IsIntText(col[i].value)
    ensures r.Some? ==> |r.value| == |col| && forall i :: 0 <= i < |col| ==>
              r.value[i] == if IsBlank(col[i]) then Missing else Num(IntValue(col[i].value))
  {
    if forall i :: 0 <= i < |col| ==> IsBlank(col[i]) || IsIntText(col[i].value) then
      Some(seq(|col|, i requires 0 <= i < |col| => if IsBlank(col[i]) then Missing else Num(IntValue(col[i].value))))
    else None
  }

  // ---- pd.to_datetime ----

  /** df['datum'] + ' ' + df['uhrzeit']: NaN where either part is NaN. */
  function Combine(dates: Column, times: Column): (r: Column)
    requires |dates| == |times|
    ensures |r| == |dates|
    ensures forall i :: 0 <= i < |r| ==> r[i] == if dates[i].Some? && times[i].Some? then Some(dates[i].value + " " + times[i].value) else None
  {
    seq(|dates|, i requires 0 <= i < |dates| => if dates[i].Some? && times[i].Some? then Some(dates[i].value + " " + times[i].value) else None)
  }

  /** Every non-missing text of the column parses. */
  predicate AllParse(texts: Column, parse: string -> Option<Stamp>)
  {
    forall i :: 0 <= i < |texts| ==> texts[i].None? || parse(texts[i].value).Some?
  }

  /** pd.to_datetime on a whole column inside try/except: NaT for NaN text; one
      text that does not parse makes the whole column NaT. */
  function ParseDateTimes(texts: Column, parse: string -> Option<Stamp>): (r: seq<Option<Stamp>>)
    ensures |r| == |texts|
    ensures AllParse(texts, parse) ==> forall i :: 0 <= i < |r| ==> r[i] == if texts[i].None? then None else parse(texts[i].value)
    ensures !AllParse(texts, parse) ==> forall i :: 0 <= i < |r| ==> r[i].None?
  {
    if AllParse(texts, parse) then
      seq(|texts|, i requires 0 <= i < |texts| => if texts[i].None? then None else parse(texts[i].value))
    else seq(|texts|, i => None)
  }

  // ---- derived columns ----

  /** The seven names strftime('%a') prints in the C locale, Monday first. */
  const EnglishDays: seq<string> := ["Mon", "Tue", "Wed", "Thu", "Fri", "Sat", "Sun"]

  /** The German labels, in the order the statistics screen uses. */
  const GermanDays: seq<string> := ["Mo", "Di", "Mi", "Do", "Fr", "Sa", "So"]

  /** weekday_german */
  const WeekdayGerman: map<string, string> :=
    map["Mon" := "Mo", "Tue" := "Di", "Wed" := "Mi", "Thu" := "Do", "Fri" := "Fr", "Sat" := "Sa", "Sun" := "So"]

  /** df['Wochentag'].map(weekday_german): a name outside the map, or NaN, gives NaN. */
  function GermanDay(name: Option<string>): (day: Option<string>)
    ensures day.Some? ==> day.value in GermanDays
    ensures day.Some? <==> name.Some? && name.value in EnglishDays
  {
    if name.Some? && name.value in WeekdayGerman then Some(WeekdayGerman[name.value]) else None
  }

  /** The label is always one of the seven German labels or NaN; the map sends the
      i-th English day to the i-th German day and nothing else to a label. */
  lemma GermanDayLabels(name: Option<string>)
    ensures GermanDay(name).Some? ==> GermanDay(name).value in GermanDays
    ensures GermanDay(name).Some? <==> name.Some? && name.value in EnglishDays
    ensures forall i :: 0 <= i < 7 ==> GermanDay(Some(EnglishDays[i])) == Some(GermanDays[i])
  {
  }

  /** Stunde: hour + minute / 60.0 */
  function HourOfDay(s: Stamp): (h: real)
    ensures s.minute < 60 ==> s.hour as real <= h < s.hour as real + 1.0
  {
    s.hour as real + s.minute as real / 60.0
  }

  /** 'OG' -> 'OG1' and 'M' -> 'CHEF', any other value unchanged. */
  function Alias(u: string): string
  {
    if u == "OG" then "OG1" else if u == "M" then "CHEF" else u
  }

  /** .str.replace(' ', '').str.upper().replace({'OG': 'OG1', 'M': 'CHEF'}) */
  function CleanKey(s: string): (key: string)
    ensures forall i :: 0 <= i < |key| ==> key[i] != ' '
  {
    Alias(Upper(RemoveSpaces(s)))
  }

  lemma {:induction false} UpperIdempotent(s: string)
    ensures Upper(Upper(s)) == Upper(s)
  {
  }

  /** Cleaning a cleaned key changes nothing. */
  lemma CleanKeyIdempotent(s: string)
    ensures CleanKey(CleanKey(s)) == CleanKey(s)
  {
    var u := Upper(RemoveSpaces(s));
    var k := Alias(u);
    assert forall i :: 0 <= i < |u| ==> u[i] != ' ';
    assert forall i :: 0 <= i < |k| ==> k[i] != ' ';
    RemoveSpacesKeepsOthers(k);
    UpperIdempotent(RemoveSpaces(s));
    assert Upper(k) == k;
  }

  /** The key is empty exactly when the label holds nothing but ' ' characters. */
  lemma {:induction false} CleanKeyEmpty(s: string)
    ensures CleanKey(s) == "" <==> forall i :: 0 <= i < |s| ==> s[i] == ' '
  {
    RemoveSpacesKeepsOthers(s);
    if exists i :: 0 <= i < |s| && s[i] != ' ' {
      var i :| 0 <= i < |s| && s[i] != ' ';
      assert multiset(s)[s[i]] > 0;
      assert multiset(RemoveSpaces(s))[s[i]] > 0;
    } else {
      assert multiset(RemoveSpaces(s)) == multiset{} by {
        forall c ensures multiset(RemoveSpaces(s))[c] == 0 {
          if c != ' ' { assert c !in multiset(s); }
        }
      }
    }
  }

  /** The aliases apply after the spaces are gone and the letters upper-cased. */
  lemma CleanKeyAliases()
    ensures CleanKey("og") == "OG1"
    ensures CleanKey(" m ") == "CHEF"
    ensures CleanKey("O G") == "OG1"
  {
    assert RemoveSpaces(" m ") == "m";
    assert RemoveSpaces("O G") == "OG";
  }

  /** Only the whole value "OG" or "M" is replaced. */
  lemma CleanKeyWholeValue()
    ensures CleanKey("Chef") == "CHEF"
    ensures CleanKey("og 2") == "OG2"
  {
    assert RemoveSpaces("og 2") == "og2";
  }

  // ---- the load ----

  /** The id text of a kept row, as the frame holds it. */
  predicate IdPresent(v: Value)
  {
    v.Num? || (v.Str? && v.text != "")
  }

  ghost function KeptRows(header: seq<string>, rows: seq<seq<Option<string>>>): seq<seq<Option<string>>>
  {
    match ColumnIndex(NormalizeHeaders(header), "id")
    case None => []
    case Some(j) => KeepRowsWithId(rows, j)
  }

  /** The cell of a row under a cleaned header name, NaN when there is no such column. */
  function NamedCell(names: seq<string>, row: seq<Option<string>>, name: string): Option<string>
  {
    match ColumnIndex(names, name)
    case None => None
    case Some(j) => Cell(row, j)
  }

  /** One record: the six sheet columns as loaded, then the columns derived
      from the timestamp and the preparer label. */
  function MakeKebap(id: Value, date: Option<string>, weight: Value, preparer: Option<string>, persons: Value,
                     time: Option<string>, stamp: Option<Stamp>): (k: Kebap)
    ensures k.id == id && k.date == date && k.weight == weight && k.preparer == preparer
    ensures k.persons == persons && k.time == time && k.dateTime == stamp
    ensures stamp.None? ==> k.dayName.None? && k.hour.None? && k.hourOfDay.None? && k.weekday.None?
    ensures stamp.Some? ==> k.dayName == Some(stamp.value.dayName) && k.hour == Some(stamp.value.hour)
                            && k.hourOfDay == Some(HourOfDay(stamp.value))
    ensures k.weekday == GermanDay(k.dayName)
    ensures k.weekday.Some? ==> k.weekday.value in GermanDays
    ensures k.preparerKey.Some? <==> preparer.Some?
    ensures preparer.Some? ==> k.preparerKey.value == CleanKey(preparer.value)
  {
    var dayName := if stamp.Some? then Some(stamp.value.dayName) else None;
    GermanDayLabels(dayName);
    Kebap(id, date, weight, preparer, persons, time, stamp, dayName,
          if stamp.Some? then Some(HourOfDay(stamp.value)) else None,
          if stamp.Some? then Some(stamp.value.hour) else None,
          if preparer.Some? then Some(CleanKey(preparer.value)) else None,
          GermanDay(dayName))
  }

  /** Every record's derived columns agree with its timestamp and its preparer label. */
  ghost predicate Derived(k: Kebap)
  {
    && (k.dateTime.None? ==> k.dayName.None? && k.hour.None? && k.hourOfDay.None? && k.weekday.None?)
    && (k.dateTime.Some? ==> k.dayName == Some(k.dateTime.value.dayName) && k.hour == Some(k.dateTime.value.hour)
                             && k.hourOfDay == Some(HourOfDay(k.dateTime.value)))
    && k.weekday == GermanDay(k.dayName)
    && (k.weekday.Some? ==> k.weekday.value in GermanDays)
    && (k.preparer.Some? <==> k.preparerKey.Some?)
    && (k.preparer.Some? ==> k.preparerKey.value == CleanKey(k.preparer.value))
  }

  /** A number in a later column means every earlier column was converted;
      text in the id column means no later column was. */
  ghost predicate ColumnsInOrder(ids: seq<Value>, weights: seq<Value>, persons: seq<Value>)
    requires |ids| == |weights| == |persons|
  {
    && ((exists i :: 0 <= i < |ids| && weights[i].Num?) ==> forall i :: 0 <= i < |ids| ==> ids[i].Num?)
    && ((exists i :: 0 <= i < |ids| && persons[i].Num?) ==> forall i :: 0 <= i < |ids| ==> ids[i].Num? && !weights[i].Str?)
    && ((exists i :: 0 <= i < |ids| && ids[i].Str?) ==> forall i :: 0 <= i < |ids| ==> !weights[i].Num? && !persons[i].Num?)
  }

  /** The first try block: pd.to_numeric on 'id', then 'gewicht_g', then
      'personen'; the first conversion that fails (or the first missing column)
      ends the block and leaves that column and the later ones as text. */
  method CoerceNumbers(idCol: Column, weightCol: Option<Column>, personsCol: Option<Column>)
    returns (ids: seq<Value>, weights: seq<Value>, persons: seq<Value>)
    requires forall i :: 0 <= i < |idCol| ==> !IsBlank(idCol[i])
    requires weightCol.Some? ==> |weightCol.value| == |idCol|
    requires personsCol.Some? ==> |personsCol.value| == |idCol|
    ensures |ids| == |weights| == |persons| == |idCol|
    ensures forall i :: 0 <= i < |ids| ==> IdPresent(ids[i])
    ensures ToNumeric(idCol).Some? <==> forall i :: 0 <= i < |ids| ==> ids[i].Num?
    ensures ColumnsInOrder(ids, weights, persons)
    // the values each column holds afterwards
    ensures ids == if ToNumeric(idCol).Some? then ToNumeric(idCol).value else AsText(idCol)
    ensures weights == if weightCol.None? then seq(|idCol|, i => Missing)
                       else if ToNumeric(idCol).Some? && ToNumeric(weightCol.value).Some? then ToNumeric(weightCol.value).value
                       else AsText(weightCol.value)
    ensures persons == if personsCol.None? then seq(|idCol|, i => Missing)
                       else if ToNumeric(idCol).Some? && weightCol.Some? && ToNumeric(weightCol.value).Some?
                               && ToNumeric(personsCol.value).Some? then ToNumeric(personsCol.value).value
                       else AsText(personsCol.value)
  {
    var n := |idCol|;
    ids := AsText(idCol);
    weights := if weightCol.Some? then AsText(weightCol.value) else seq(n, i => Missing);
    persons := if personsCol.Some? then AsText(personsCol.value) else seq(n, i => Missing);
    assert forall i :: 0 <= i < n ==> ids[i].Str? && IdPresent(ids[i]);
    var numIds := ToNumeric(idCol);
    if numIds.Some? {
      ids := numIds.value;
      var numWeights := if weightCol.Some? then ToNumeric(weightCol.value) else None;
      if numWeights.Some? {
        weights := numWeights.value;
        var numPersons := if personsCol.Some? then ToNumeric(personsCol.value) else None;
        if numPersons.Some? {
          persons := numPersons.value;
        }
      }
    }
  }

  /** One cell after the try block: blank text is NaN and integer text its
      number when the column was converted; otherwise the text, NaN kept. */
  function CellValue(c: Option<string>, converted: bool): (v: Value)
    requires converted ==> IsBlank(c) || IsIntText(c.value)
    ensures v.Str? ==> !converted && c == Some(v.text)
    ensures v.Num? ==> converted && c.Some? && IsIntText(c.value) && IntValue(c.value) == v.n
    ensures v.Missing? <==> c.None? || (converted && c.value == "")
  {
    if converted then (if IsBlank(c) then Missing else Num(IntValue(c.value)))
    else if c.None? then Missing else Str(c.value)
  }

  /** pd.to_numeric(df[name]) succeeds: the column exists and every cell of
      it is blank or integer text. */
  predicate Converts(names: seq<string>, kept: seq<seq<Option<string>>>, name: string)
  {
    ColumnOf(names, kept, name).Some? && ToNumeric(ColumnOf(names, kept, name).value).Some?
  }

  /** The three columns of the try block, cell by cell: a column holds numbers
      exactly when it and every earlier column of the block converted;
      otherwise it holds the row's text. */
  ghost predicate CellsCoerced(names: seq<string>, kept: seq<seq<Option<string>>>,
                               ids: seq<Value>, weights: seq<Value>, persons: seq<Value>)
  {
    var idNum := Converts(names, kept, "id");
    var weightNum := idNum && Converts(names, kept, "gewicht_g");
    var personsNum := weightNum && Converts(names, kept, "personen");
    && |ids| == |kept| && |weights| == |kept| && |persons| == |kept|
    && forall i :: 0 <= i < |kept| ==>
         && ids[i] == CellValue(NamedCell(names, kept[i], "id"), idNum)
         && weights[i] == CellValue(NamedCell(names, kept[i], "gewicht_g"), weightNum)
         && persons[i] == CellValue(NamedCell(names, kept[i], "personen"), personsNum)
  }

  /** One column after the try block, cell by cell: reached says whether every
      earlier conversion of the block succeeded. */
  lemma ColumnCells(names: seq<string>, kept: seq<seq<Option<string>>>, name: string, vs: seq<Value>, reached: bool)
    requires vs == var col := ColumnOf(names, kept, name);
                   if col.None? then seq(|kept|, i => Missing)
                   else if reached && ToNumeric(col.value).Some? then ToNumeric(col.value).value
                   else AsText(col.value)
    ensures |vs| == |kept|
    ensures forall i :: 0 <= i < |kept| ==> vs[i] == CellValue(NamedCell(names, kept[i], name), reached && Converts(names, kept, name))
  {
    var col := ColumnOf(names, kept, name);
    forall i | 0 <= i < |kept| ensures col.Some? ==> col.value[i] == NamedCell(names, kept[i], name) {
    }
  }

  /** Lines 62 to 67 on the kept rows, stated cell by cell. */
  method CoerceKept(names: seq<string>, kept: seq<seq<Option<string>>>) returns (ids: seq<Value>, weights: seq<Value>, persons: seq<Value>)
    requires "id" in names
    requires forall i :: 0 <= i < |kept| ==> HasId(kept[i], ColumnIndex(names, "id").value)
    ensures |ids| == |weights| == |persons| == |kept|
    ensures forall i :: 0 <= i < |ids| ==> IdPresent(ids[i])
    ensures ColumnsInOrder(ids, weights, persons)
    ensures CellsCoerced(names, kept, ids, weights, persons)
  {
    var idCol := ColumnOf(names, kept, "id").value;
    var weightCol := ColumnOf(names, kept, "gewicht_g");
    var personsCol := ColumnOf(names, kept, "personen");
    assert forall i :: 0 <= i < |kept| ==> idCol[i] == NamedCell(names, kept[i], "id");
    ids, weights, persons := CoerceNumbers(idCol, weightCol, personsCol);
    ColumnCells(names, kept, "id", ids, true);
    ColumnCells(names, kept, "gewicht_g", weights, ToNumeric(idCol).Some?);
    ColumnCells(names, kept, "personen", persons, ToNumeric(idCol).Some? && weightCol.Some? && ToNumeric(weightCol.value).Some?);
  }

  /** The id, weight and persons of every record as the try block leaves them:
      a column holds numbers exactly when it and every earlier column of the
      block converted; otherwise it holds the row's text. */
  ghost predicate CoercedFrom(names: seq<string>, kept: seq<seq<Option<string>>>, ks: seq<Kebap>)
  {
    var idNum := Converts(names, kept, "id");
    var weightNum := idNum && Converts(names, kept, "gewicht_g");
    var personsNum := weightNum && Converts(names, kept, "personen");
    && |ks| == |kept|
    && forall i :: 0 <= i < |ks| ==>
         && ks[i].id == CellValue(NamedCell(names, kept[i], "id"), idNum)
         && ks[i].weight == CellValue(NamedCell(names, kept[i], "gewicht_g"), weightNum)
         && ks[i].persons == CellValue(NamedCell(names, kept[i], "personen"), personsNum)
  }

  /** One parsed timestamp means every row holds the parse of its own text;
      one text that does not parse means no row holds a timestamp. */
  ghost predicate StampColumnAllOrNothing(dates: Column, times: Column, stamps: seq<Option<Stamp>>, parse: string -> Option<Stamp>)
    requires |dates| == |times| == |stamps|
  {
    && ((exists i :: 0 <= i < |stamps| && stamps[i].Some?) ==>
          forall i :: 0 <= i < |stamps| ==>
            stamps[i] == if dates[i].Some? && times[i].Some? then parse(dates[i].value + " " + times[i].value) else None)
    && ((exists i :: 0 <= i < |stamps| && dates[i].Some? && times[i].Some? && parse(dates[i].value + " " + times[i].value).None?) ==>
          forall i :: 0 <= i < |stamps| ==> stamps[i].None?)
  }

  /** Every row with both a date and a time has a text that parses. */
  predicate TextsParse(dates: Column, times: Column, parse: string -> Option<Stamp>)
    requires |dates| == |times|
  {
    forall i :: 0 <= i < |dates| && dates[i].Some? && times[i].Some? ==> parse(dates[i].value + " " + times[i].value).Some?
  }

  /** When every text parses, every row holds the parse of its own text, and
      NaT where its date or time is NaN. */
  ghost predicate StampColumnAllParsed(dates: Column, times: Column, stamps: seq<Option<Stamp>>, parse: string -> Option<Stamp>)
    requires |dates| == |times| == |stamps|
  {
    TextsParse(dates, times, parse) ==>
      forall i :: 0 <= i < |stamps| ==>
        stamps[i] == if dates[i].Some? && times[i].Some? then parse(dates[i].value + " " + times[i].value) else None
  }

  /** The second try block: DateTime for every row, or NaT for every row when a
      column is missing or one text does not parse. */
  function DateTimes(dates: Column, times: Column, bothPresent: bool, parse: string -> Option<Stamp>): (r: seq<Option<Stamp>>)
    requires |dates| == |times|
    ensures |r| == |dates|
    ensures !bothPresent ==> forall i :: 0 <= i < |r| ==> r[i].None?
    ensures StampColumnAllOrNothing(dates, times, r, parse)
    ensures bothPresent ==> StampColumnAllParsed(dates, times, r, parse)
  {
    if bothPresent then
      var texts := Combine(dates, times);
      var r := ParseDateTimes(texts, parse);
      assert (exists i :: 0 <= i < |r| && dates[i].Some? && times[i].Some? && parse(dates[i].value + " " + times[i].value).None?)
             ==> !AllParse(texts, parse);
      assert TextsParse(dates, times, parse) ==> AllParse(texts, parse);
      r
    else seq(|dates|, i => None)
  }

  /** A number in a later column means every earlier column was converted;
      text in the id column means no later column was. */
  ghost predicate CoercionInOrder(ks: seq<Kebap>)
  {
    && ((exists i :: 0 <= i < |ks| && ks[i].weight.Num?) ==> forall i :: 0 <= i < |ks| ==> ks[i].id.Num?)
    && ((exists i :: 0 <= i < |ks| && ks[i].persons.Num?) ==> forall i :: 0 <= i < |ks| ==> ks[i].id.Num? && !ks[i].weight.Str?)
    && ((exists i :: 0 <= i < |ks| && ks[i].id.Str?) ==> forall i :: 0 <= i < |ks| ==> !ks[i].weight.Num? && !ks[i].persons.Num?)
  }

  /** One parsed timestamp means every row holds the parse of its own text;
      one text that does not parse means no row holds a timestamp; when every
      text parses, every row holds its parse. */
  ghost predicate StampsAllOrNothing(ks: seq<Kebap>, parse: string -> Option<Stamp>)
  {
    && ((forall i :: 0 <= i < |ks| && ks[i].date.Some? && ks[i].time.Some? ==> parse(ks[i].date.value + " " + ks[i].time.value).Some?) ==>
          forall i :: 0 <= i < |ks| ==>
            ks[i].dateTime == if ks[i].date.Some? && ks[i].time.Some? then parse(ks[i].date.value + " " + ks[i].time.value) else None)
    && ((exists i :: 0 <= i < |ks| && ks[i].dateTime.Some?) ==>
          forall i :: 0 <= i < |ks| ==>
            ks[i].dateTime == if ks[i].date.Some? && ks[i].time.Some? then parse(ks[i].date.value + " " + ks[i].time.value) else None)
    && ((exists i :: 0 <= i < |ks| && ks[i].date.Some? && ks[i].time.Some? && parse(ks[i].date.value + " " + ks[i].time.value).None?) ==>
          forall i :: 0 <= i < |ks| ==> ks[i].dateTime.None?)
  }

  /** df[name] where a missing column reads as NaN in every row. */
  function ColumnOrNaN(names: seq<string>, rows: seq<seq<Option<string>>>, name: string): (c: Column)
    ensures |c| == |rows|
    ensures forall i :: 0 <= i < |rows| ==> c[i] == NamedCell(names, rows[i], name)
  {
    seq(|rows|, i requires 0 <= i < |rows| => NamedCell(names, rows[i], name))
  }

  /** The frame's rows, built column by column. */
  function Assemble(ids: seq<Value>, dates: Column, weights: seq<Value>, preparers: Column, persons: seq<Value>,
                    times: Column, stamps: seq<Option<Stamp>>): (ks: seq<Kebap>)
    requires |dates| == |weights| == |preparers| == |persons| == |times| == |stamps| == |ids|
    ensures |ks| == |ids|
    ensures forall i :: 0 <= i < |ks| ==> ks[i].id == ids[i] && ks[i].weight == weights[i] && ks[i].persons == persons[i]
    ensures forall i :: 0 <= i < |ks| ==> ks[i].date == dates[i] && ks[i].time == times[i] && ks[i].preparer == preparers[i]
    ensures forall i :: 0 <= i < |ks| ==> ks[i].dateTime == stamps[i] && Derived(ks[i])
  {
    seq(|ids|, i requires 0 <= i < |ids| => MakeKebap(ids[i], dates[i], weights[i], preparers[i], persons[i], times[i], stamps[i]))
  }

  /** The column facts of the try blocks carry over to the records built from them. */
  lemma CoercionCarriesOver(ids: seq<Value>, weights: seq<Value>, persons: seq<Value>, ks: seq<Kebap>)
    requires |ids| == |weights| == |persons| == |ks|
    requires forall i :: 0 <= i < |ks| ==> ks[i].id == ids[i] && ks[i].weight == weights[i] && ks[i].persons == persons[i]
    requires ColumnsInOrder(ids, weights, persons)
    ensures CoercionInOrder(ks)
  {
  }

  /** The values a column vector holds carry over to the records built from it. */
  lemma ValuesCarryOver(names: seq<string>, kept: seq<seq<Option<string>>>,
                        ids: seq<Value>, weights: seq<Value>, persons: seq<Value>, ks: seq<Kebap>)
    requires |ids| == |weights| == |persons| == |ks|
    requires forall i :: 0 <= i < |ks| ==> ks[i].id == ids[i] && ks[i].weight == weights[i] && ks[i].persons == persons[i]
    requires CellsCoerced(names, kept, ids, weights, persons)
    ensures CoercedFrom(names, kept, ks)
  {
  }

  lemma StampsCarryOver(dates: Column, times: Column, stamps: seq<Option<Stamp>>, ks: seq<Kebap>, parse: string -> Option<Stamp>)
    requires |dates| == |times| == |stamps| == |ks|
    requires forall i :: 0 <= i < |ks| ==> ks[i].date == dates[i] && ks[i].time == times[i] && ks[i].dateTime == stamps[i]
    requires StampColumnAllOrNothing(dates, times, stamps, parse)
    requires StampColumnAllParsed(dates, times, stamps, parse)
    ensures StampsAllOrNothing(ks, parse)
  {
    assert (forall i :: 0 <= i < |ks| && ks[i].date.Some? && ks[i].time.Some? ==> parse(ks[i].date.value + " " + ks[i].time.value).Some?)
           ==> TextsParse(dates, times, parse);
  }

  /** The load's timestamp column holds every row's parse when every text
      parses: a missing column is NaN in every row, so no row has a text. */
  lemma LoadedStampsParsed(names: seq<string>, kept: seq<seq<Option<string>>>, parse: string -> Option<Stamp>)
    ensures var dates := ColumnOrNaN(names, kept, "datum");
            var times := ColumnOrNaN(names, kept, "uhrzeit");
            StampColumnAllParsed(dates, times, DateTimes(dates, times, "datum" in names && "uhrzeit" in names, parse), parse)
  {
    var dates := ColumnOrNaN(names, kept, "datum");
    var times := ColumnOrNaN(names, kept, "uhrzeit");
    if !("datum" in names && "uhrzeit" in names) {
      assert forall i :: 0 <= i < |kept| ==> dates[i].None? || times[i].None?;
    }
  }

  /** Lines 62 to 81 on the rows that survived the id filter. */
  method BuildFrame(names: seq<string>, kept: seq<seq<Option<string>>>, parse: string -> Option<Stamp>) returns (r: LoadResult)
    requires "id" in names && |kept| > 0
    requires forall i :: 0 <= i < |kept| ==> HasId(kept[i], ColumnIndex(names, "id").value)
    ensures r.Loaded? || r == KeyError("zubereitet")
    ensures r.KeyError? <==> "zubereitet" !in names
    ensures r.Loaded? ==> |r.kebaps| == |kept|
    ensures r.Loaded? ==> forall i :: 0 <= i < |r.kebaps| ==> IdPresent(r.kebaps[i].id) && Derived(r.kebaps[i])
    ensures r.Loaded? ==> forall i :: 0 <= i < |r.kebaps| ==>
              && r.kebaps[i].date == NamedCell(names, kept[i], "datum")
              && r.kebaps[i].preparer == NamedCell(names, kept[i], "zubereitet")
              && r.kebaps[i].time == NamedCell(names, kept[i], "uhrzeit")
    ensures r.Loaded? ==> CoercionInOrder(r.kebaps) && StampsAllOrNothing(r.kebaps, parse)
    ensures r.Loaded? ==> CoercedFrom(names, kept, r.kebaps)
  {
    var ids, weights, persons := CoerceKept(names, kept);

    var dates := ColumnOrNaN(names, kept, "datum");
    var times := ColumnOrNaN(names, kept, "uhrzeit");
    var stamps := DateTimes(dates, times, "datum" in names && "uhrzeit" in names, parse);
    LoadedStampsParsed(names, kept, parse);

    // df['zubereitet'] raises KeyError when the column is missing
    if "zubereitet" !in names { return KeyError("zubereitet"); }
    var preparers := ColumnOrNaN(names, kept, "zubereitet");

    var kebaps := Assemble(ids, dates, weights, preparers, persons, times, stamps);
    CoercionCarriesOver(ids, weights, persons, kebaps);
    ValuesCarryOver(names, kept, ids, weights, persons, kebaps);
    StampsCarryOver(dates, times, stamps, kebaps, parse);
    r := Loaded(kebaps);
  }

  /** get_all_kebaps_as_df from line 49 on. */
  method LoadKebaps(header: seq<string>, rows: seq<seq<Option<string>>>, parse: string -> Option<Stamp>) returns (r: LoadResult)
    // no id column after lower() and strip(): an empty frame
    ensures "id" !in NormalizeHeaders(header) ==> r == Empty
    ensures r.Empty? <==> |header| == 0 || "id" !in NormalizeHeaders(header) || KeptRows(header, rows) == []
    ensures r.KeyError? <==> !r.Empty? && "zubereitet" !in NormalizeHeaders(header)
    ensures r.KeyError? ==> r.column == "zubereitet"
    // one record per kept row, in order, each with its id
    ensures r.Loaded? ==> |r.kebaps| == |KeptRows(header, rows)|
    ensures r.Loaded? ==> forall i :: 0 <= i < |r.kebaps| ==> IdPresent(r.kebaps[i].id)
    ensures r.Loaded? ==> forall i :: 0 <= i < |r.kebaps| ==>
              && r.kebaps[i].date == NamedCell(NormalizeHeaders(header), KeptRows(header, rows)[i], "datum")
              && r.kebaps[i].preparer == NamedCell(NormalizeHeaders(header), KeptRows(header, rows)[i], "zubereitet")
              && r.kebaps[i].time == NamedCell(NormalizeHeaders(header), KeptRows(header, rows)[i], "uhrzeit")
    // the numeric coercion stops at the first column that fails
    ensures r.Loaded? ==> CoercionInOrder(r.kebaps)
    // the timestamp column is parsed all or nothing
    ensures r.Loaded? ==> StampsAllOrNothing(r.kebaps, parse)
    // the id, weight and persons of every record, as the try block leaves them
    ensures r.Loaded? ==> CoercedFrom(NormalizeHeaders(header), KeptRows(header, rows), r.kebaps)
    // derived columns
    ensures r.Loaded? ==> forall i :: 0 <= i < |r.kebaps| ==> Derived(r.kebaps[i])
  {
    if |rows| == 0 || |header| == 0 { return Empty; }
    var names := NormalizeHeaders(header);
    if "id" !in names { return Empty; }
    var idIndex := ColumnIndex(names, "id").value;
    var kept := KeepRowsWithId(rows, idIndex);
    assert kept == KeptRows(header, rows);
    if |kept| == 0 { return Empty; }
    r := BuildFrame(names, kept, parse);
  }
}
