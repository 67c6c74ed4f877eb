/** The worksheet "Tabellenblatt1" as an in-memory table: the writes of
    add_kebap, update_kebap and delete_kebap, and the lookup of
    get_kebap_row_by_id. Sheet row 1 is the header row; rows[k] is sheet row k + 1.
    Every cell is the text the sheet shows; an empty cell is "". */
module Worksheet {
  import opened Wrappers
  import opened Text

  /** A calendar date as the entry form delivers it. */
  datatype Date = Date(year: nat, month: nat, day: nat)

  /** One sheet row, columns 1 to 6: id, datum, gewicht_g, zubereitet, personen, uhrzeit. */
  datatype Row = Row(id: string, date: string, weight: string, preparer: string, persons: string, time: string)

  /** datum.strftime('%d.%m.%Y'): zero-padded day and month, then the year. */
  function DateText(d: Date): (t: string)
    ensures d.day < 100 && d.month < 100 ==> |t| >= 7 && t[2] == '.' && t[5] == '.'
  {
    ZeroPad2(d.day) + "." + ZeroPad2(d.month) + "." + NatToString(d.year)
  }

  /** The text written for a date reads back as that day, month and year. */
  lemma DateTextReadsBack(d: Date)
    requires d.day < 100 && d.month < 100
    ensures var t := DateText(d);
      && |t| >= 7 && t[2] == '.' && t[5] == '.'
      && (forall i :: 0 <= i < 2 ==> IsDigit(t[i])) && DigitsValue(t[..2]) == d.day
      && (forall i :: 3 <= i < 5 ==> IsDigit(t[i])) && DigitsValue(t[3..5]) == d.month
      && IsDigits(t[6..]) && DigitsValue(t[6..]) == d.year
  {
    var dd, mm, yy := ZeroPad2(d.day), ZeroPad2(d.month), NatToString(d.year);
    var t := DateText(d);
    assert t == dd + "." + mm + "." + yy;
    assert t[..2] == dd;
    assert t[3..5] == mm;
    assert t[6..] == yy;
  }

  /** sheet.col_values(1)[1:]: the column-1 cells below the header row. */
  function IdsBelowHeader(rows: seq<Row>): (ids: seq<string>)
    ensures |ids| == if |rows| == 0 then 0 else |rows| - 1
    ensures forall i :: 0 <= i < |ids| ==> ids[i] == rows[i + 1].id
  {
    if |rows| == 0 then [] else seq(|rows| - 1, i requires 0 <= i < |rows| - 1 => rows[i + 1].id)
  }

  /** The numbers int() reads from the all-digit cells of ids. */
  function DigitValues(ids: seq<string>): set<nat>
  {
    set i | 0 <= i < |ids| && IsDigits(ids[i]) :: DigitsValue(ids[i])
  }

  /** [int(i) for i in ids if str(i).isdigit()] */
  function DigitIds(ids: seq<string>): (r: seq<nat>)
    ensures forall x :: x in r <==> x in DigitValues(ids)
  {
    if |ids| == 0 then []
    else
      var rest := DigitIds(ids[1..]);
      assert DigitValues(ids) == (if IsDigits(ids[0]) then {DigitsValue(ids[0])} else {}) + DigitValues(ids[1..]) by {
        assert forall i :: 1 <= i < |ids| ==> ids[i] == ids[1..][i - 1];
        assert forall i :: 0 <= i < |ids| - 1 ==> ids[1..][i] == ids[i + 1];
      }
      if IsDigits(ids[0]) then [DigitsValue(ids[0])] + rest else rest
  }

  /** max(xs) of a non-empty list. */
  function Max(xs: seq<nat>): (m: nat)
    requires |xs| > 0
    ensures m in xs
    ensures forall x :: x in xs ==> x <= m
  {
    if |xs| == 1 then xs[0]
    else
      var m := Max(xs[1..]);
      assert forall x :: x in xs ==> x == xs[0] || x in xs[1..];
      if xs[0] > m then xs[0] else m
  }

  /** next_id = max(all_ids) + 1 if all_ids else 1 */
  function NextId(ids: seq<string>): (r: nat)
    ensures r >= 1
    ensures forall i :: 0 <= i < |ids| && IsDigits(ids[i]) ==> DigitsValue(ids[i]) < r
    ensures r == 1 || r - 1 in DigitValues(ids)
    ensures DigitValues(ids) == {} ==> r == 1
  {
    var all := DigitIds(ids);
    assert forall i :: 0 <= i < |ids| && IsDigits(ids[i]) ==> DigitsValue(ids[i]) in DigitValues(ids);
    if |all| > 0 then Max(all) + 1 else 1
  }

  /** The id text of a new row never equals a cell already below the header:
      it is all digits, and every all-digit cell reads as a smaller number. */
  lemma NextIdIsFresh(rows: seq<Row>)
    ensures forall i :: 1 <= i < |rows| ==> rows[i].id != NatToString(NextId(IdsBelowHeader(rows)))
  {
    var ids := IdsBelowHeader(rows);
    var n := NextId(ids);
    forall i | 1 <= i < |rows| ensures rows[i].id != NatToString(n) {
      assert ids[i - 1] == rows[i].id;
    }
  }

  lemma NextIdOfThreeIds()
    ensures NextId(["3", "1", "4"]) == 5
    ensures NextId([]) == 1
  {
    assert IsDigits("3") && DigitsValue("3") == 3;
    assert IsDigits("1") && DigitsValue("1") == 1;
    assert IsDigits("4") && DigitsValue("4") == 4;
    assert NextId(["3", "1", "4"]) - 1 in {3, 1, 4};
  }

  /** Text and empty cells are skipped; leading zeros read as int() reads them. */
  lemma NextIdSkipsText()
    ensures NextId(["7", "x7", "", "007"]) == 8
  {
    assert IsDigits("7") && DigitsValue("7") == 7;
    assert !IsDigit("x7"[0]);
    assert DigitsValue("007") == 7 by {
      assert "007"[..2] == "00" && "00"[..1] == "0";
    }
  }

  /** sheet.find(key, in_column=1): the first row, header included, whose
      column-1 cell is exactly key. */
  function FindRow(rows: seq<Row>, key: string): (r: Option<nat>)
    ensures r.Some? ==> r.value < |rows| && rows[r.value].id == key
                        && forall j :: 0 <= j < r.value ==> rows[j].id != key
    ensures r.None? <==> forall j :: 0 <= j < |rows| ==> rows[j].id != key
  {
    if |rows| == 0 then None
    else if rows[0].id == key then Some(0)
    else match FindRow(rows[1..], key)
      case None => None
      case Some(k) => Some(k + 1)
  }

  /** No two rows below the header share their column-1 cell. */
  ghost predicate DistinctIds(rows: seq<Row>) {
    forall i, j :: 1 <= i < j < |rows| ==> rows[i].id != rows[j].id
  }

  /** The row add_kebap appends. */
  function NewRow(rows: seq<Row>, date: Date, weight: int, preparer: string, persons: int, time: string): Row
  {
    Row(NatToString(NextId(IdsBelowHeader(rows))), DateText(date), IntToString(weight), preparer, IntToString(persons), time)
  }

  /** The table after add_kebap. */
  function Appended(rows: seq<Row>, date: Date, weight: int, preparer: string, persons: int, time: string): (r: seq<Row>)
    ensures |r| == |rows| + 1 && r[..|rows|] == rows
    ensures r[|rows|].id == NatToString(NextId(IdsBelowHeader(rows)))
  {
    rows + [NewRow(rows, date, weight, preparer, persons, time)]
  }

  /** Columns 2 to 6 of a row overwritten, the id cell kept. */
  function Overwritten(row: Row, date: Date, weight: int, preparer: string, persons: int, time: string): Row
  {
    Row(row.id, DateText(date), IntToString(weight), preparer, IntToString(persons), time)
  }

  /** The table after update_kebap. */
  function Updated(rows: seq<Row>, id: int, date: Date, weight: int, preparer: string, persons: int, time: string): (r: seq<Row>)
    ensures |r| == |rows| && forall k :: 0 <= k < |rows| ==> r[k].id == rows[k].id
  {
    match FindRow(rows, IntToString(id))
    case None => rows
    case Some(i) => rows[i := Overwritten(rows[i], date, weight, preparer, persons, time)]
  }

  /** The table after delete_kebap. */
  function Deleted(rows: seq<Row>, id: int): (r: seq<Row>)
    ensures FindRow(rows, IntToString(id)).None? ==> r == rows
    ensures FindRow(rows, IntToString(id)).Some? ==> |r| == |rows| - 1
  {
    match FindRow(rows, IntToString(id))
    case None => rows
    case Some(i) => rows[..i] + rows[i + 1..]
  }

  /** Appending keeps the earlier rows, adds one row at the end under a fresh
      id, and so keeps the ids below the header distinct. */
  lemma {:induction false} AppendedKeepsIdsDistinct(rows: seq<Row>, date: Date, weight: int, preparer: string, persons: int, time: string)
    ensures var r := Appended(rows, date, weight, preparer, persons, time);
      && |r| == |rows| + 1 && r[..|rows|] == rows
      && r[|rows|].id == NatToString(NextId(IdsBelowHeader(rows)))
      && (DistinctIds(rows) ==> DistinctIds(r))
  {
    var r := Appended(rows, date, weight, preparer, persons, time);
    assert r[..|rows|] == rows;
    NextIdIsFresh(rows);
    if DistinctIds(rows) {
      forall i, j | 1 <= i < j < |r| ensures r[i].id != r[j].id {
        if j == |rows| {
          assert r[i] == rows[i];
        } else {
          assert r[i] == rows[i] && r[j] == rows[j];
        }
      }
    }
  }

  /** An update that finds nothing changes nothing; one that finds its row
      changes columns 2 to 6 of that row only, so every id cell stays. */
  lemma UpdatedChangesOnlyTheFoundRow(rows: seq<Row>, id: int, date: Date, weight: int, preparer: string, persons: int, time: string)
    ensures var r := Updated(rows, id, date, weight, preparer, persons, time);
      && |r| == |rows|
      && (forall k :: 0 <= k < |rows| ==> r[k].id == rows[k].id)
      && (DistinctIds(rows) ==> DistinctIds(r))
      && ((forall k :: 0 <= k < |rows| ==> rows[k].id != IntToString(id)) ==> r == rows)
      && (forall k :: 0 <= k < |rows| && rows[k].id == IntToString(id) && (forall j :: 0 <= j < k ==> rows[j].id != IntToString(id))
            ==> r[k] == Overwritten(rows[k], date, weight, preparer, persons, time)
                && forall j :: 0 <= j < |rows| && j != k ==> r[j] == rows[j])
  {
  }

  /** Updating twice with the same values is the same as updating once. */
  lemma UpdatedIsIdempotent(rows: seq<Row>, id: int, date: Date, weight: int, preparer: string, persons: int, time: string)
    ensures var once := Updated(rows, id, date, weight, preparer, persons, time);
      Updated(once, id, date, weight, preparer, persons, time) == once
  {
    var key := IntToString(id);
    var once := Updated(rows, id, date, weight, preparer, persons, time);
    match FindRow(rows, key)
    case None =>
    case Some(i) =>
      assert FindRow(once, key) == Some(i) by {
        assert forall j :: 0 <= j < |once| ==> once[j].id == rows[j].id;
      }
  }

  /** A delete that finds nothing changes nothing; one that finds its row
      removes exactly that row and keeps the others in order. */
  lemma DeletedRemovesOnlyTheFoundRow(rows: seq<Row>, id: int)
    ensures var r := Deleted(rows, id);
      && ((forall k :: 0 <= k < |rows| ==> rows[k].id != IntToString(id)) <==> r == rows)
      && (r != rows ==> |r| == |rows| - 1 && exists k :: 0 <= k < |rows| && rows[k].id == IntToString(id)
                                                   && (forall j :: 0 <= j < k ==> rows[j].id != IntToString(id))
                                                   && r == rows[..k] + rows[k + 1..])
  {
    match FindRow(rows, IntToString(id))
    case None =>
    case Some(i) =>
      assert |Deleted(rows, id)| == |rows| - 1;
  }

  /** Deleting a row keeps the ids below the header distinct. */
  lemma {:induction false} DeletedKeepsIdsDistinct(rows: seq<Row>, id: int)
    requires DistinctIds(rows)
    ensures DistinctIds(Deleted(rows, id))
  {
    match FindRow(rows, IntToString(id))
    case None =>
    case Some(k) =>
      var r := rows[..k] + rows[k + 1..];
      forall i, j | 1 <= i < j < |r| ensures r[i].id != r[j].id {
        var i' := if i < k then i else i + 1;
        var j' := if j < k then j else j + 1;
        assert r[i] == rows[i'] && r[j] == rows[j'];
        assert 1 <= i' < j' < |rows|;
      }
  }

  /** Deleting the id that add_kebap just allocated restores the table, as long
      as the header's column-1 cell is not that id. */
  lemma DeleteUndoesAppend(rows: seq<Row>, date: Date, weight: int, preparer: string, persons: int, time: string)
    requires |rows| > 0 && rows[0].id != NatToString(NextId(IdsBelowHeader(rows)))
    ensures Deleted(Appended(rows, date, weight, preparer, persons, time), NextId(IdsBelowHeader(rows))) == rows
  {
    var n := NextId(IdsBelowHeader(rows));
    var r := Appended(rows, date, weight, preparer, persons, time);
    NextIdIsFresh(rows);
    assert IntToString(n) == NatToString(n);
    assert forall j :: 0 <= j < |rows| ==> r[j] == rows[j];
    var f := FindRow(r, IntToString(n));
    assert r[|rows|].id == IntToString(n);
    assert f.Some? && f.value == |rows|;
    assert r[..|rows|] == rows;
  }

  /** The worksheet, updated in place by the three write operations. */
  class Sheet {
    var rows: seq<Row>

    constructor (initial: seq<Row>)
      ensures rows == initial
    {
      rows := initial;
    }

    /** get_kebap_row_by_id: the 1-based sheet row holding str(id) in column 1, or None. */
    method GetKebapRowById(id: int) returns (row: Option<nat>)
      ensures row.Some? ==> 1 <= row.value <= |rows| && rows[row.value - 1].id == IntToString(id)
                            && forall j :: 0 <= j < row.value - 1 ==> rows[j].id != IntToString(id)
      ensures row.None? <==> forall j :: 0 <= j < |rows| ==> rows[j].id != IntToString(id)
    {
      match FindRow(rows, IntToString(id))
      case None => row := None;
      case Some(i) => row := Some(i + 1);
    }

    /** add_kebap: append [next_id, datum, gewicht, zubereitet, personen, uhrzeit]. */
    method AddKebap(date: Date, weight: int, preparer: string, persons: int, time: string)
      modifies this
      ensures rows == Appended(old(rows), date, weight, preparer, persons, time)
      ensures DistinctIds(old(rows)) ==> DistinctIds(rows)
    {
      var nextId := NextId(IdsBelowHeader(rows));
      var newRow := Row(NatToString(nextId), DateText(date), IntToString(weight), preparer, IntToString(persons), time);
      AppendedKeepsIdsDistinct(rows, date, weight, preparer, persons, time);
      rows := rows + [newRow];
    }

    /** update_kebap: five update_cell calls on the found row, or nothing. */
    method UpdateKebap(id: int, date: Date, weight: int, preparer: string, persons: int, time: string)
      modifies this
      ensures rows == Updated(old(rows), id, date, weight, preparer, persons, time)
      ensures |rows| == |old(rows)| && forall k :: 0 <= k < |rows| ==> rows[k].id == old(rows)[k].id
      ensures DistinctIds(old(rows)) ==> DistinctIds(rows)
    {
      UpdatedChangesOnlyTheFoundRow(rows, id, date, weight, preparer, persons, time);
      var rowIndex := GetKebapRowById(id);
      if rowIndex.None? { return; }
      var i := rowIndex.value - 1;
      rows := rows[i := rows[i].(date := DateText(date))];
      rows := rows[i := rows[i].(weight := IntToString(weight))];
      rows := rows[i := rows[i].(preparer := preparer)];
      rows := rows[i := rows[i].(persons := IntToString(persons))];
      rows := rows[i := rows[i].(time := time)];
    }

    /** delete_kebap: delete_rows on the found row, or nothing. */
    method DeleteKebap(id: int)
      modifies this
      ensures rows == Deleted(old(rows), id)
      ensures DistinctIds(old(rows)) ==> DistinctIds(rows)
    {
      if DistinctIds(rows) { DeletedKeepsIdsDistinct(rows, id); }
      var rowIndex := GetKebapRowById(id);
      if rowIndex.None? { return; }
      var i := rowIndex.value - 1;
      rows := rows[..i] + rows[i + 1..];
    }
  }
}
