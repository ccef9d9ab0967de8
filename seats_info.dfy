/**
 * The seat column of the lobby's active-table list: its text is two numbers
 * separated by "/", and a table whose two numbers differ still has a free seat.
 * The column's comparator puts tables with free seats first.
 */
module SeatsInfo {
  import opened Wrappers
  import opened JavaText

  /** The two numbers of a seat string, in the order they are written. */
  datatype Seats = Seats(first: int, second: int)

  /** Integer.parseInt failed on this field. */
  datatype NumberFormatError = NumberFormatError(field: string)

  /**
   * `parseSeatsInfo`: split on "/"; exactly two fields are parsed as integers,
   * any other number of fields gives 0/0. A field that is not an integer makes
   * the Java code throw, here an Err naming the field.
   */
  function ParseSeatsInfo(info: string): (r: Result<Seats, NumberFormatError>)
    ensures r.Ok? ==> IsInt32(r.value.first) && IsInt32(r.value.second)
    ensures |Split(info, '/')| != 2 ==> r == Ok(Seats(0, 0))
    ensures |Split(info, '/')| == 2 ==>
      (r.Err? <==> ParseInt(Split(info, '/')[0]).None? || ParseInt(Split(info, '/')[1]).None?)
    ensures |Split(info, '/')| == 2 && r.Ok? ==>
      r.value == Seats(ParseInt(Split(info, '/')[0]).value, ParseInt(Split(info, '/')[1]).value)
    ensures r.Err? ==> r.error.field in Split(info, '/') && ParseInt(r.error.field).None?
  {
    var fields := Split(info, '/');
    if |fields| == 2 then
      match ParseInt(fields[0])
      case None => Err(NumberFormatError(fields[0]))
      case Some(a) =>
        match ParseInt(fields[1])
        case None => Err(NumberFormatError(fields[1]))
        case Some(b) => Ok(Seats(a, b))
    else Ok(Seats(0, 0))
  }

  /** Two slash-free fields joined by one "/" split back into those two fields. */
  lemma SplitTwoFields(a: string, b: string)
    requires '/' !in a && '/' !in b && b != ""
    ensures Split(a + "/" + b, '/') == [a, b]
  {
    FieldsAfterFirstSeparator(a, b, '/');
    FieldsNoSeparator(b, '/');
    assert a + "/" + b == a + ['/'] + b;
    assert '/' in a + ['/'] + b by { assert (a + ['/'] + b)[|a|] == '/'; }
  }

  /** A sign is accepted, as parseInt accepts it. */
  lemma ParseSeatsSigned()
    ensures ParseSeatsInfo("+1/2") == Ok(Seats(1, 2))
  {
    SplitTwoFields("+1", "2");
    assert "+1" + "/" + "2" == "+1/2";
    assert ParseInt("+1") == Some(1) by { assert "+1"[1..] == "1"; }
  }

  /** Leading zeros are accepted, as parseInt accepts them. */
  lemma ParseSeatsLeadingZero()
    ensures ParseSeatsInfo("07/3") == Ok(Seats(7, 3))
  {
    SplitTwoFields("07", "3");
    assert "07" + "/" + "3" == "07/3";
    assert DigitsValue("07") == 7 by { assert "07"[..1] == "0"; }
  }

  /** A field that is not an integer is an error that names it. */
  lemma ParseSeatsRejectsWord()
    ensures ParseSeatsInfo("x/1") == Err(NumberFormatError("x"))
  {
    SplitTwoFields("x", "1");
    assert "x" + "/" + "1" == "x/1";
  }

  /** The text the parser expects: two integers written the way Java prints them. */
  function SeatsText(s: Seats): string
  {
    IntToString(s.first) + "/" + IntToString(s.second)
  }

  /** Reading back what SeatsText writes gives the same two numbers. */
  lemma ParseSeatsText(s: Seats)
    requires IsInt32(s.first) && IsInt32(s.second)
    ensures ParseSeatsInfo(SeatsText(s)) == Ok(s)
  {
    var a, b := IntToString(s.first), IntToString(s.second);
    IntToStringHasNoSlash(s.first);
    IntToStringHasNoSlash(s.second);
    SplitTwoFields(a, b);
    ParseIntToString(s.first);
    ParseIntToString(s.second);
  }

  /** Slashes added at the end of a seat string change nothing: Java's split drops them. */
  lemma ParseSeatsTrailingSlash(info: string)
    ensures ParseSeatsInfo(info + "/") == ParseSeatsInfo(info)
  {
    SplitTrailingSeparator(info, '/');
    if '/' !in info && info == "" {
      assert |Split(info, '/')| == 1;
    }
  }

  /** A string without "/" is not an error: it reads as 0/0. */
  lemma ParseSeatsWithoutSlash(info: string)
    requires '/' !in info
    ensures ParseSeatsInfo(info) == Ok(Seats(0, 0))
  {
  }

  /** The renderer and the comparator call a table free when its two numbers differ. */
  predicate IsFree(s: Seats) {
    s.first != s.second
  }

  /** `Boolean.compare(x, y)`: 0 when equal, 1 when only x is true, -1 when only y is. */
  function BooleanCompare(x: bool, y: bool): (r: int)
    ensures r == 0 <==> x == y
    ensures r == 1 <==> x && !y
    ensures r == -1 <==> !x && y
  {
    if x == y then 0 else if x then 1 else -1
  }

  /**
   * The seat column's comparator: free tables before full ones, otherwise equal.
   * Both strings are parsed first, so a bad first string is reported before a bad
   * second one, as the exception would be.
   */
  function CompareSeats(v1: string, v2: string): (r: Result<int, NumberFormatError>)
    ensures r.Err? <==> ParseSeatsInfo(v1).Err? || ParseSeatsInfo(v2).Err?
    ensures ParseSeatsInfo(v1).Err? ==> r == Err(ParseSeatsInfo(v1).error)
    ensures r.Ok? ==> r.value == Rank(ParseSeatsInfo(v1).value) - Rank(ParseSeatsInfo(v2).value)
  {
    match ParseSeatsInfo(v1)
    case Err(e) => Err(e)
    case Ok(seats1) =>
      match ParseSeatsInfo(v2)
      case Err(e) => Err(e)
      case Ok(seats2) =>
        var free1, free2 := IsFree(seats1), IsFree(seats2);
        if free1 || free2 then Ok(BooleanCompare(free2, free1)) else Ok(0)
  }

  /** Where a row goes: 0 for a free table, 1 for a full one. */
  function Rank(s: Seats): int {
    if IsFree(s) then 0 else 1
  }

  /** The comparator orders parsed rows by rank and by nothing else. */
  lemma CompareSeatsByRank(v1: string, v2: string, s1: Seats, s2: Seats)
    requires ParseSeatsInfo(v1) == Ok(s1) && ParseSeatsInfo(v2) == Ok(s2)
    ensures CompareSeats(v1, v2) == Ok(Rank(s1) - Rank(s2))
    ensures CompareSeats(v1, v2) == Ok(0) <==> IsFree(s1) == IsFree(s2)
    ensures CompareSeats(v1, v2) == Ok(-1) <==> IsFree(s1) && !IsFree(s2)
  {
  }

  /** A parse error in either string is what the comparator reports. */
  lemma CompareSeatsFails(v1: string, v2: string)
    ensures CompareSeats(v1, v2).Err? <==> ParseSeatsInfo(v1).Err? || ParseSeatsInfo(v2).Err?
  {
  }

  /**
   * The comparator contract Java's sorting relies on: the sign flips with the
   * arguments, "<= 0" is transitive, and compare(x, y) == 0 implies that x and y
   * compare alike against every z.
   */
  lemma CompareSeatsIsComparator(v1: string, v2: string, v3: string)
    requires ParseSeatsInfo(v1).Ok? && ParseSeatsInfo(v2).Ok? && ParseSeatsInfo(v3).Ok?
    ensures CompareSeats(v1, v2).Ok? && CompareSeats(v2, v1).Ok?
    ensures CompareSeats(v1, v2).value == -CompareSeats(v2, v1).value
    ensures CompareSeats(v1, v2).value <= 0 && CompareSeats(v2, v3).value <= 0 ==> CompareSeats(v1, v3).value <= 0
    ensures CompareSeats(v1, v2).value == 0 ==> CompareSeats(v1, v3) == CompareSeats(v2, v3)
  {
    var s1, s2, s3 := ParseSeatsInfo(v1).value, ParseSeatsInfo(v2).value, ParseSeatsInfo(v3).value;
    CompareSeatsByRank(v1, v2, s1, s2);
    CompareSeatsByRank(v2, v1, s2, s1);
    CompareSeatsByRank(v2, v3, s2, s3);
    CompareSeatsByRank(v1, v3, s1, s3);
  }

  /** A list of seat strings in comparator order. */
  ghost predicate SortedBySeats(rows: seq<string>) {
    forall i, j :: 0 <= i < j < |rows| ==> CompareSeats(rows[i], rows[j]).Ok? && CompareSeats(rows[i], rows[j]).value <= 0
  }

  /** In comparator order no full table comes before a free one. */
  lemma SortedPutsFreeFirst(rows: seq<string>, i: nat, j: nat)
    requires SortedBySeats(rows)
    requires i < j < |rows|
    requires ParseSeatsInfo(rows[j]).Ok? && IsFree(ParseSeatsInfo(rows[j]).value)
    ensures ParseSeatsInfo(rows[i]).Ok? && IsFree(ParseSeatsInfo(rows[i]).value)
  {
    assert CompareSeats(rows[i], rows[j]).Ok?;
    CompareSeatsByRank(rows[i], rows[j], ParseSeatsInfo(rows[i]).value, ParseSeatsInfo(rows[j]).value);
  }
}
