/**
 * The deal record of deals/models.py: one row per sold unit, with six
 * profit components and a derived total that is never stored.
 */
module Deals {

  /** A calendar date, as a day number: a later date has a larger number. */
  type Day = int

  /** The fixed list of managers a deal can be attributed to. */
  const ManagerChoices: seq<string> := ["Victor", "Kevin", "Paul"]
  const DefaultManager: string := "Victor"

  /** Column length limits (`max_length`). */
  const StockNumberMaxLength: nat := 8
  const NameMaxLength: nat := 20
  const ManagerMaxLength: nat := 20

  /**
   * A stored deal. `id` is the primary key the store assigns; money is
   * exact (`real`) rather than floating point.
   */
  datatype Deal = Deal(
    id: int,
    dealDate: Day,
    stockNumber: string,
    lastName: string,
    firstName: string,
    financed: bool,
    reserve: real,
    vsc: real,
    gap: real,
    tw: real,
    tricare: real,
    key: real,
    manager: string)

  /** The six profit components of a deal, in declaration order. */
  datatype Component = Reserve | Vsc | Gap | Tw | Tricare | Key

  const Components: seq<Component> := [Reserve, Vsc, Gap, Tw, Tricare, Key]

  /** The amount a deal records for one component. */
  function Amount(d: Deal, c: Component): real
  {
    match c
    case Reserve => d.reserve
    case Vsc => d.vsc
    case Gap => d.gap
    case Tw => d.tw
    case Tricare => d.tricare
    case Key => d.key
  }

  /** The derived `total_profit` property. */
  function TotalProfit(d: Deal): real
  {
    d.reserve + d.vsc + d.gap + d.tw + d.tricare + d.key
  }

  /** Sum of a deal's amounts over a list of components. */
  function SumAmounts(d: Deal, cs: seq<Component>): real
  {
    if cs == [] then 0.0 else Amount(d, cs[0]) + SumAmounts(d, cs[1..])
  }

  /** `total_profit` is the sum of all six components, each counted once. */
  lemma TotalProfitIsSumOfComponents(d: Deal)
    ensures TotalProfit(d) == SumAmounts(d, Components)
  {
    var rest := [Vsc, Gap, Tw, Tricare, Key];
    assert Components[1..] == rest;
    assert rest[1..] == [Gap, Tw, Tricare, Key];
    assert rest[1..][1..] == [Tw, Tricare, Key];
    assert rest[1..][1..][1..] == [Tricare, Key];
    assert rest[1..][1..][1..][1..] == [Key];
    assert SumAmounts(d, [Key]) == d.key;
    assert SumAmounts(d, [Tricare, Key]) == d.tricare + d.key;
    assert SumAmounts(d, [Tw, Tricare, Key]) == d.tw + d.tricare + d.key;
    assert SumAmounts(d, [Gap, Tw, Tricare, Key]) == d.gap + d.tw + d.tricare + d.key;
    assert SumAmounts(d, rest) == d.vsc + d.gap + d.tw + d.tricare + d.key;
  }

  /** What the record's columns demand of a stored deal. */
  predicate ValidDeal(d: Deal)
  {
    && |d.stockNumber| <= StockNumberMaxLength
    && |d.lastName| <= NameMaxLength
    && |d.firstName| <= NameMaxLength
    && |d.manager| <= ManagerMaxLength
    && d.manager in ManagerChoices
  }

  /**
   * A deal whose optional columns take their defaults: financed, every
   * component zero, attributed to the default manager.
   */
  function NewDeal(id: int, dealDate: Day, stockNumber: string, lastName: string, firstName: string): (d: Deal)
    ensures d.id == id && d.dealDate == dealDate
    ensures d.stockNumber == stockNumber && d.lastName == lastName && d.firstName == firstName
    ensures d.financed && d.manager == "Victor"
    ensures forall c :: Amount(d, c) == 0.0
  {
    Deal(id, dealDate, stockNumber, lastName, firstName, true,
         0.0, 0.0, 0.0, 0.0, 0.0, 0.0, DefaultManager)
  }

  /** A deal made from the defaults has no profit. */
  lemma NewDealHasNoProfit(id: int, dealDate: Day, stockNumber: string, lastName: string, firstName: string)
    ensures TotalProfit(NewDeal(id, dealDate, stockNumber, lastName, firstName)) == 0.0
  {
  }

  /** A deal made from the defaults is valid exactly when its given text fits its columns. */
  lemma NewDealValid(id: int, dealDate: Day, stockNumber: string, lastName: string, firstName: string)
    ensures ValidDeal(NewDeal(id, dealDate, stockNumber, lastName, firstName)) <==>
      |stockNumber| <= StockNumberMaxLength && |lastName| <= NameMaxLength && |firstName| <= NameMaxLength
  {
  }

  /** Every manager choice fits the manager column, so the length limit never rejects a valid choice. */
  lemma ManagerChoicesFit(m: string)
    requires m in ManagerChoices
    ensures |m| <= ManagerMaxLength
    ensures m == "Victor" || m == "Kevin" || m == "Paul"
  {
  }
}
