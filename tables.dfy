/** The in-memory table the cleaning pipeline works on: named columns of equal length,
    each holding either text cells or numeric cells. */
module Tables {

  datatype Option<T> = None | Some(value: T)

  datatype Result<T, E> = Ok(value: T) | Err(error: E)

  /** One cell: a text value, or a number that is `None` when it holds NaN. */
  datatype Cell = TextCell(text: string) | NumberCell(number: Option<real>)

  /** The cells of one column, all text or all numeric. */
  datatype Cells = Text(texts: seq<string>) | Numeric(numbers: seq<Option<real>>)
  {
    function Length(): nat
    {
      match this
      case Text(s) => |s|
      case Numeric(s) => |s|
    }

    /** The cell of row `i`. */
    function At(i: nat): Cell
      requires i < Length()
    {
      match this
      case Text(s) => TextCell(s[i])
      case Numeric(s) => NumberCell(s[i])
    }
  }

  /** A table as a value: the row count (the length of the index), the column labels
      and the columns, label `labels[k]` naming column `columns[k]`. */
  datatype Table = Table(rows: nat, labels: seq<string>, columns: seq<Cells>)
  {
    /** Every column has a label and exactly `rows` cells. */
    predicate WellFormed()
    {
      |labels| == |columns| &&
      forall k :: 0 <= k < |columns| ==> columns[k].Length() == rows
    }
  }

  /** A data frame whose labels and columns are overwritten in place. */
  class DataFrame {
    var rows: nat
    var labels: seq<string>
    var columns: seq<Cells>

    function Value(): Table
      reads this
    {
      Table(rows, labels, columns)
    }

    ghost predicate Valid()
      reads this
    {
      Value().WellFormed()
    }

    /** A frame holding the table `t`, as the loader hands it over. */
    constructor (t: Table)
      requires t.WellFormed()
      ensures Valid() && Value() == t
    {
      rows, labels, columns := t.rows, t.labels, t.columns;
    }
  }
}
