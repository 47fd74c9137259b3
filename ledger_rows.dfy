/** The rows of the receipt table and the edits that act on one row:
    a product (name, unit price, quantity) plus a checkbox per buyer,
    and the generated buyer names. */
module LedgerRows {
  import Decimal

  datatype Option<+T> = None | Some(value: T)

  /** A line item as the receipt extraction delivers it. Prices and
      quantities are exact reals rather than IEEE doubles. */
  datatype Product = Product(name: string, price: real, quantity: real)

  /** A table row: the product's fields and its checkbox column, keyed by
      buyer name. A name that is not a key reads as unchecked. */
  datatype Row = Row(name: string, price: real, quantity: real, buyers: map<string, bool>)

  /** The editable fields of a row. */
  datatype Field = Name | Price | Quantity

  /** A row's cost before it is split: price times quantity. */
  function Cost(row: Row): (c: real)
    ensures row.price == 0.0 || row.quantity == 0.0 ==> c == 0.0
  {
    row.price * row.quantity
  }

  /** Whether `buyer` is checked on `row`; a missing entry reads as false. */
  predicate Flag(row: Row, buyer: string)
    ensures buyer !in row.buyers ==> !Flag(row, buyer)
    ensures buyer in row.buyers ==> (Flag(row, buyer) <==> row.buyers[buyer])
  {
    buyer in row.buyers && row.buyers[buyer]
  }

  /** The initial rows: one per product, same fields, no checkboxes. */
  function Seed(products: seq<Product>): (rows: seq<Row>)
    ensures |rows| == |products|
    ensures forall i :: 0 <= i < |rows| ==>
      && rows[i].name == products[i].name
      && rows[i].price == products[i].price
      && rows[i].quantity == products[i].quantity
      && rows[i].buyers == map[]
  {
    seq(|products|, i requires 0 <= i < |products| =>
      Row(products[i].name, products[i].price, products[i].quantity, map[]))
  }

  /** The number stored for a numeric field: JavaScript's `x || 0` on the
      result of parseFloat, where None stands for NaN. A parsed zero is
      zero either way. */
  function NumberOrZero(parsed: Option<real>): (x: real)
    ensures parsed.None? ==> x == 0.0
    ensures parsed.Some? ==> x == parsed.value
  {
    match parsed
    case None => 0.0
    case Some(v) => v
  }

  /** One keystroke in one cell. `parseFloat` is the host's number parser,
      given as a parameter; any text is accepted, a numeric field that does
      not parse becomes 0, and the checkboxes are never touched. */
  function EditRow(row: Row, field: Field, value: string, parseFloat: string -> Option<real>): (r: Row)
    ensures r.buyers == row.buyers
    ensures r.name == (if field == Name then value else row.name)
    ensures r.price == (if field == Price then NumberOrZero(parseFloat(value)) else row.price)
    ensures r.quantity == (if field == Quantity then NumberOrZero(parseFloat(value)) else row.quantity)
  {
    match field
    case Name => row.(name := value)
    case Price => row.(price := NumberOrZero(parseFloat(value)))
    case Quantity => row.(quantity := NumberOrZero(parseFloat(value)))
  }

  /** Malformed numeric input zeroes the field instead of failing. */
  lemma UnparsableNumberIsZero(row: Row, field: Field, value: string, parseFloat: string -> Option<real>)
    requires field != Name && parseFloat(value).None?
    ensures var r := EditRow(row, field, value, parseFloat);
      (field == Price ==> r.price == 0.0 && r.quantity == row.quantity) &&
      (field == Quantity ==> r.quantity == 0.0 && r.price == row.price) &&
      r.name == row.name
  {
  }

  /** Flips one checkbox; the new value is the negation of the old
      truthiness, so a missing entry becomes `true`. */
  function ToggleRow(row: Row, buyer: string): (r: Row)
    ensures Flag(r, buyer) == !Flag(row, buyer)
    ensures buyer in r.buyers
    ensures forall b :: b != buyer ==> (b in r.buyers <==> b in row.buyers)
    ensures forall b :: b != buyer && b in row.buyers ==> r.buyers[b] == row.buyers[b]
    ensures r.name == row.name && r.price == row.price && r.quantity == row.quantity
  {
    row.(buyers := row.buyers[buyer := !Flag(row, buyer)])
  }

  /** Toggling the same checkbox twice restores every checkbox's
      truthiness, and the row itself when the box already had an entry. */
  lemma ToggleTwiceRestoresFlags(row: Row, buyer: string)
    ensures var r := ToggleRow(ToggleRow(row, buyer), buyer);
      (forall b :: Flag(r, b) == Flag(row, b)) &&
      r.name == row.name && r.price == row.price && r.quantity == row.quantity &&
      (buyer in row.buyers ==> r == row)
  {
    var r := ToggleRow(ToggleRow(row, buyer), buyer);
    if buyer in row.buyers {
      assert r.buyers == row.buyers;
    }
  }

  /** Gives a row an unchecked box for a new buyer, leaving the rest alone. */
  function AddColumn(row: Row, buyer: string): (r: Row)
    ensures buyer in r.buyers && !r.buyers[buyer]
    ensures r.buyers.Keys == row.buyers.Keys + {buyer}
    ensures forall b :: b != buyer && b in row.buyers ==> r.buyers[b] == row.buyers[b]
    ensures r.name == row.name && r.price == row.price && r.quantity == row.quantity
  {
    row.(buyers := row.buyers[buyer := false])
  }

  /** AddColumn applied to every row. */
  function AddColumnToAll(rows: seq<Row>, buyer: string): (rs: seq<Row>)
    ensures |rs| == |rows|
    ensures forall i :: 0 <= i < |rows| ==> rs[i] == AddColumn(rows[i], buyer)
  {
    seq(|rows|, i requires 0 <= i < |rows| => AddColumn(rows[i], buyer))
  }

  /** The name of the buyer added when `count` buyers already exist:
      "Buyer " followed by the decimal numeral of count + 1. */
  function BuyerName(count: nat): (name: string)
    ensures |name| > 6 && name[..6] == "Buyer "
    ensures Decimal.AllDigits(name[6..]) && Decimal.DigitsValue(name[6..]) == count + 1
    ensures name[6] != '0'
  {
    Decimal.DigitsValueOfNatToString(count + 1);
    var name := "Buyer " + Decimal.NatToString(count + 1);
    assert name[6..] == Decimal.NatToString(count + 1);
    name
  }

  /** Different positions get different generated names. */
  lemma BuyerNamesDistinct(i: nat, j: nat)
    requires i != j
    ensures BuyerName(i) != BuyerName(j)
  {
    assert Decimal.DigitsValue(BuyerName(i)[6..]) != Decimal.DigitsValue(BuyerName(j)[6..]);
  }

  predicate Distinct(s: seq<string>) {
    forall i, j :: 0 <= i < j < |s| ==> s[i] != s[j]
  }

  /** The buyer list as the add-buyer button builds it: the i-th entry
      (from 0) is "Buyer i+1". */
  predicate NamedInOrder(buyers: seq<string>) {
    forall i :: 0 <= i < |buyers| ==> buyers[i] == BuyerName(i)
  }

  /** A buyer list built by the button has no repeated name. */
  lemma NamedInOrderDistinct(buyers: seq<string>)
    requires NamedInOrder(buyers)
    ensures Distinct(buyers)
  {
    forall i, j | 0 <= i < j < |buyers| ensures buyers[i] != buyers[j] {
      BuyerNamesDistinct(i, j);
    }
  }

  /** Appending the next generated name keeps the list in order, and that
      name is not yet taken. */
  lemma AppendNextName(buyers: seq<string>)
    requires NamedInOrder(buyers)
    ensures NamedInOrder(buyers + [BuyerName(|buyers|)])
    ensures BuyerName(|buyers|) !in buyers
  {
    forall i | 0 <= i < |buyers| ensures buyers[i] != BuyerName(|buyers|) {
      BuyerNamesDistinct(i, |buyers|);
    }
  }
}
