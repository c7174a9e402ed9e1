/** The list-backed result of traindb.engine.TrainDBResultFromListData: an
    optional list of rows with a forward-only cursor that can be rewound. */
module ResultCursor {
  import opened Common

  /** A cell as the core sees it: an Integer, a String or SQL NULL. */
  datatype Value = IntV(i: int) | StrV(s: string) | NullV

  type Row = seq<Value>

  /** The java.sql.Types codes getColumnType can report. */
  datatype ColumnType = Varchar | Integer | JavaObject

  /** Type of a cell by its runtime class: String is varchar, Integer is int,
      anything else (here: null) is JAVA_OBJECT. */
  function TypeOf(v: Value): ColumnType
  {
    match v
    case StrV(_) => Varchar
    case IntV(_) => Integer
    case NullV => JavaObject
  }

  /** Cell `col` of a row; List.get throws outside the row. */
  function Cell(row: Row, col: int): (r: Result<Value>)
    ensures r.Success? <==> 0 <= col < |row|
    ensures r.Success? ==> r.value == row[col]
    ensures r.Failure? ==> r.fault == IndexOutOfBounds
  {
    if 0 <= col < |row| then Success(row[col]) else Failure(IndexOutOfBounds)
  }

  class ResultFromListData {
    var result: Option<seq<Row>>
    var fieldsName: seq<string>
    var lastValueRead: Option<Value>
    var cursor: int

    /** The cursor is -1 (before the first row) or on a row; lastValueRead is
        never written by any member, so it stays null. */
    ghost predicate Valid()
      reads this
    {
      -1 <= cursor < RowCount() && lastValueRead == None
    }

    /** The rows, or none when the result is absent. */
    function Rows(): seq<Row>
      reads this
    {
      if result.Some? then result.value else []
    }

    constructor (header: seq<string>, result: Option<seq<Row>>)
      ensures Valid()
      ensures this.result == result && cursor == -1
      ensures fieldsName == (if result.Some? then header else [])
    {
      this.result := result;
      fieldsName := if result.Some? then header else [];
      lastValueRead := None;
      cursor := -1;
    }

    static method Empty() returns (e: ResultFromListData)
      ensures fresh(e) && e.Valid()
      ensures e.IsEmpty() && e.RowCount() == 0 && e.GetColumnCount() == 0
    {
      e := new ResultFromListData([], None);
    }

    predicate IsEmpty()
      reads this
    {
      result.None?
    }

    function GetColumnCount(): (n: nat)
      reads this
      ensures |Rows()| == 0 ==> n == 0
      ensures |Rows()| > 0 ==> n == |Rows()[0]|
    {
      if result.None? || |result.value| == 0 then 0 else |result.value[0]|
    }

    function GetColumnName(index: int): (r: Result<string>)
      reads this
      ensures r.Success? <==> result.Some? && 0 <= index < |fieldsName|
      ensures r.Success? ==> r.value == fieldsName[index]
    {
      if result.None? then Failure(EmptyResultAccessed)
      else if 0 <= index < |fieldsName| then Success(fieldsName[index])
      else Failure(IndexOutOfBounds)
    }

    /** The type of column `index`, judged from the first row's cell. */
    function GetColumnType(index: int): (r: Result<ColumnType>)
      reads this
      ensures r.Success? <==> |Rows()| > 0 && 0 <= index < |Rows()[0]|
      ensures r.Success? ==> r.value == TypeOf(Rows()[0][index])
      ensures |Rows()| == 0 ==> r == Failure(EmptyResultAccessed)
      ensures |Rows()| > 0 && r.Failure? ==> r.fault == IndexOutOfBounds
    {
      if result.None? || |result.value| == 0 then Failure(EmptyResultAccessed)
      else if 0 <= index < |result.value[0]| then Success(TypeOf(result.value[0][index]))
      else Failure(IndexOutOfBounds)
    }

    function RowCount(): (n: nat)
      reads this
      ensures result.None? ==> n == 0
      ensures result.Some? ==> n == |result.value|
    {
      |Rows()|
    }

    /** The cell `index` of the current row. */
    function GetValue(index: int): (r: Result<Value>)
      reads this
      ensures r.Success? <==> result.Some? && 0 <= cursor < |Rows()| && 0 <= index < |Rows()[cursor]|
      ensures r.Success? ==> r.value == Rows()[cursor][index]
      ensures result.None? ==> r == Failure(EmptyResultAccessed)
      ensures 0 <= cursor < |Rows()| ==> r == Cell(Rows()[cursor], index)
    {
      if result.None? then Failure(EmptyResultAccessed)
      else if 0 <= cursor < |result.value| && 0 <= index < |result.value[cursor]|
      then Success(result.value[cursor][index])
      else Failure(IndexOutOfBounds)
    }

    predicate WasNull()
      reads this
      requires Valid()
      ensures WasNull()
    {
      lastValueRead == None
    }

    /** Whether a following Next() moves to a row. */
    predicate HasNext()
      reads this
    {
      result.Some? && cursor < RowCount() - 1
    }

    method Next() returns (moved: bool)
      requires Valid()
      modifies this`cursor
      ensures Valid()
      ensures moved == old(HasNext())
      ensures moved <==> result.Some? && old(cursor) < RowCount() - 1
      ensures cursor == if moved then old(cursor) + 1 else old(cursor)
      ensures result.None? ==> !moved
    {
      if result.None? {
        return false;
      }
      if cursor < RowCount() - 1 {
        cursor := cursor + 1;
        return true;
      }
      return false;
    }

    method Rewind()
      requires Valid()
      modifies this`cursor
      ensures Valid() && cursor == -1
    {
      cursor := -1;
    }
  }

  /** The pass every merge helper makes: rewind, then call Next() until it
      returns false. It visits every row once, in list order, and ends on the
      last row. */
  method ReplayRows(res: ResultFromListData) returns (visited: seq<Row>, moves: nat)
    requires res.Valid()
    modifies res`cursor
    ensures res.Valid()
    ensures visited == res.Rows() && moves == res.RowCount()
    ensures res.cursor == res.RowCount() - 1 && !res.HasNext()
  {
    res.Rewind();
    visited, moves := [], 0;
    while true
      invariant res.Valid()
      invariant moves == res.cursor + 1
      invariant visited == res.Rows()[..res.cursor + 1]
      decreases res.RowCount() - res.cursor
    {
      var more := res.Next();
      if !more {
        break;
      }
      visited := visited + [res.Rows()[res.cursor]];
      moves := moves + 1;
    }
    assert res.Rows()[..res.cursor + 1] == res.Rows();
  }
}
