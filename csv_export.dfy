/**
 * The rows of the CSV export in deals/views.py (`ReportView.export_csv`):
 * a header of the stored field names, then one row of values per deal.
 */
module CsvExport {
  import opened Options
  import opened Deals

  /** The stored fields of the deal record, including the implicit primary key. */
  datatype Field = Id | DealDate | StockNumber | LastName | FirstName | Financed | Money(component: Component) | Manager

  /** The stored fields in declaration order; the derived total is not one of them. */
  const StoredFields: seq<Field> := [
    Id, DealDate, StockNumber, LastName, FirstName, Financed,
    Money(Reserve), Money(Vsc), Money(Gap), Money(Tw), Money(Tricare), Money(Key),
    Manager]

  /** A value read from a deal's field. */
  datatype Value = IntValue(number: int) | DateValue(day: Day) | TextValue(text: string) | BoolValue(flag: bool) | MoneyValue(amount: real)

  /** A row handed to the CSV writer. */
  type Row = seq<Value>

  function ComponentName(c: Component): string
  {
    match c
    case Reserve => "reserve"
    case Vsc => "vsc"
    case Gap => "gap"
    case Tw => "tw"
    case Tricare => "tricare"
    case Key => "key"
  }

  /** The column name of a field. */
  function FieldName(f: Field): string
  {
    match f
    case Id => "id"
    case DealDate => "deal_date"
    case StockNumber => "stock_number"
    case LastName => "last_name"
    case FirstName => "first_name"
    case Financed => "financed"
    case Money(c) => ComponentName(c)
    case Manager => "manager"
  }

  /** The value of one field of a deal: `getattr(deal, field)`. */
  function FieldValue(d: Deal, f: Field): Value
  {
    match f
    case Id => IntValue(d.id)
    case DealDate => DateValue(d.dealDate)
    case StockNumber => TextValue(d.stockNumber)
    case LastName => TextValue(d.lastName)
    case FirstName => TextValue(d.firstName)
    case Financed => BoolValue(d.financed)
    case Money(c) => MoneyValue(Amount(d, c))
    case Manager => TextValue(d.manager)
  }

  /** The header's column names, one per stored field. */
  function Header(): seq<string>
  {
    seq(|StoredFields|, i requires 0 <= i < |StoredFields| => FieldName(StoredFields[i]))
  }

  /** The header lists the stored columns in declaration order, without `total_profit`. */
  lemma HeaderColumns()
    ensures Header() == ["id", "deal_date", "stock_number", "last_name", "first_name", "financed",
                         "reserve", "vsc", "gap", "tw", "tricare", "key", "manager"]
    ensures "total_profit" !in Header()
    ensures forall i, j :: 0 <= i < j < |Header()| ==> Header()[i] != Header()[j]
  {
  }

  /** The header as the first row written. */
  function HeaderRow(): (row: Row)
    ensures |row| == |Header()|
    ensures forall i :: 0 <= i < |row| ==> row[i] == TextValue(Header()[i])
  {
    seq(|StoredFields|, i requires 0 <= i < |StoredFields| => TextValue(FieldName(StoredFields[i])))
  }

  /**
   * The row written for one deal: its field values in header order. It
   * holds every stored field, so the deal can be read back from it.
   */
  function DealRow(d: Deal): (row: Row)
    ensures |row| == |Header()|
    ensures ParseRow(row) == Some(d)
  {
    seq(|StoredFields|, i requires 0 <= i < |StoredFields| => FieldValue(d, StoredFields[i]))
  }

  /** Reading a deal back from a written row. */
  function ParseRow(row: Row): Option<Deal>
  {
    if |row| != |StoredFields| then None
    else
      match (row[0], row[1], row[2], row[3], row[4], row[5], row[6])
      case (IntValue(id), DateValue(day), TextValue(stock), TextValue(last), TextValue(first), BoolValue(financed), MoneyValue(reserve)) =>
        (match (row[7], row[8], row[9], row[10], row[11], row[12])
         case (MoneyValue(vsc), MoneyValue(gap), MoneyValue(tw), MoneyValue(tricare), MoneyValue(key), TextValue(manager)) =>
           Some(Deal(id, day, stock, last, first, financed, reserve, vsc, gap, tw, tricare, key, manager))
         case _ => None)
      case _ => None
  }

  /** Two deals give the same row only when they are the same deal. */
  lemma DealRowInjective(d: Deal, e: Deal)
    requires DealRow(d) == DealRow(e)
    ensures d == e
  {
  }

  /**
   * `export_csv`: write the header, then one row per deal in the order the
   * deals are given.
   */
  method ExportCsv(deals: seq<Deal>) returns (rows: seq<Row>)
    ensures |rows| == |deals| + 1
    ensures rows[0] == HeaderRow()
    ensures forall k :: 0 <= k < |rows| ==> |rows[k]| == |Header()|
    ensures forall k, i :: 0 <= k < |deals| && 0 <= i < |StoredFields| ==>
      rows[k + 1][i] == FieldValue(deals[k], StoredFields[i])
    ensures forall k :: 0 <= k < |deals| ==> ParseRow(rows[k + 1]) == Some(deals[k])
  {
    rows := [HeaderRow()];
    for n := 0 to |deals|
      invariant |rows| == n + 1
      invariant rows[0] == HeaderRow()
      invariant forall k :: 0 <= k < |rows| ==> |rows[k]| == |Header()|
      invariant forall k :: 0 <= k < n ==> rows[k + 1] == DealRow(deals[k])
    {
      rows := rows + [DealRow(deals[n])];
    }
  }
}
