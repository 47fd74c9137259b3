/** The editable receipt table: the rows and the buyer list it owns, the
    handlers that change them in place, and the per-buyer totals it shows. */
module EditableTable {
  import opened LedgerRows
  import opened LedgerTotals

  class Ledger {
    var rows: array<Row>
    var buyers: seq<string>

    /** The buyer list is "Buyer 1", "Buyer 2", ... in order, and every row
        has a checkbox entry for every listed buyer. */
    ghost predicate Valid()
      reads this, rows
    {
      && NamedInOrder(buyers)
      && forall i, j :: 0 <= i < rows.Length && 0 <= j < |buyers| ==> buyers[j] in rows[i].buyers
    }

    /** Seeds the table from the extracted products; no buyers yet. */
    constructor (products: seq<Product>)
      ensures Valid() && fresh(rows)
      ensures rows[..] == Seed(products)
      ensures buyers == []
    {
      var seeded := Seed(products);
      rows := new Row[|seeded|](i requires 0 <= i < |seeded| => seeded[i]);
      buyers := [];
    }

    /** Stores one edited cell of row `index` and hands the rows to the
        owner. Numeric fields go through `parseFloat(value) || 0`. */
    method HandleFieldChange(index: nat, field: Field, value: string, parseFloat: string -> Option<real>)
      returns (notified: seq<Row>)
      requires Valid() && index < rows.Length
      modifies rows
      ensures Valid()
      ensures rows[..] == old(rows[..])[index := EditRow(old(rows[index]), field, value, parseFloat)]
      ensures notified == rows[..]
    {
      var row := rows[index];
      if field == Price || field == Quantity {
        var numericVal := NumberOrZero(parseFloat(value));
        if field == Price {
          rows[index] := row.(price := numericVal);
        } else {
          rows[index] := row.(quantity := numericVal);
        }
      } else {
        rows[index] := row.(name := value);
      }
      notified := rows[..];
    }

    /** Appends the next generated buyer and gives it an unchecked box on
        every row. */
    method AddBuyer()
      requires Valid()
      modifies this`buyers, rows
      ensures Valid()
      ensures buyers == old(buyers) + [BuyerName(|old(buyers)|)]
      ensures rows[..] == AddColumnToAll(old(rows[..]), BuyerName(|old(buyers)|))
    {
      var newBuyer := BuyerName(|buyers|);
      AppendNextName(buyers);
      buyers := buyers + [newBuyer];
      for i := 0 to rows.Length
        invariant buyers == old(buyers) + [newBuyer]
        invariant forall k :: 0 <= k < i ==> rows[k] == AddColumn(old(rows[k]), newBuyer)
        invariant forall k :: i <= k < rows.Length ==> rows[k] == old(rows[k])
      {
        var row := rows[i];
        rows[i] := row.(buyers := row.buyers[newBuyer := false]);
      }
    }

    /** Flips the checkbox of `buyer` on row `rowIndex`. */
    method ToggleBuyer(rowIndex: nat, buyer: string)
      requires Valid() && rowIndex < rows.Length
      modifies rows
      ensures Valid()
      ensures rows[..] == old(rows[..])[rowIndex := ToggleRow(old(rows[rowIndex]), buyer)]
    {
      var row := rows[rowIndex];
      rows[rowIndex] := row.(buyers := row.buyers[buyer := !Flag(row, buyer)]);
    }

    /** Each row's cost split evenly among its checked buyers, summed per
        buyer; every listed buyer starts from zero. */
    method CalculateBuyerTotals() returns (totals: map<string, real>)
      requires Valid()
      ensures totals == BuyerTotals(rows[..], buyers)
    {
      NamedInOrderDistinct(buyers);
      var rs := rows[..];
      totals := ZeroTotals(buyers);
      for i := 0 to |rs|
        invariant forall b :: b in totals <==> b in buyers
        invariant forall b :: b in buyers ==> totals[b] == Owed(rs[..i], buyers, b)
      {
        totals := CreditRow(totals, rs[i], buyers);
        forall b | b in buyers ensures totals[b] == Owed(rs[..i + 1], buyers, b) {
          OwedStep(rs, buyers, b, i);
        }
      }
      assert rs[..|rs|] == rs;
      TotalsOfOwed(totals, rs, buyers);
    }
  }

  /** A fresh totals map: every listed buyer at zero, nobody else. */
  method ZeroTotals(buyers: seq<string>) returns (totals: map<string, real>)
    ensures forall b :: b in totals <==> b in buyers
    ensures forall b :: b in totals ==> totals[b] == 0.0
  {
    totals := map[];
    for j := 0 to |buyers|
      invariant forall b :: b in totals <==> b in buyers[..j]
      invariant forall b :: b in totals ==> totals[b] == 0.0
    {
      totals := totals[buyers[j] := 0.0];
    }
    assert buyers[..|buyers|] == buyers;
  }

  /** One row of the totals loop: its cost split evenly among its checked
      buyers and added to their entries; a row nobody checked adds nothing. */
  method CreditRow(totals: map<string, real>, row: Row, buyers: seq<string>) returns (credited: map<string, real>)
    requires Distinct(buyers)
    requires forall b :: b in buyers ==> b in totals
    ensures credited.Keys == totals.Keys
    ensures forall b :: b in totals ==> credited[b] == totals[b] + Share(row, buyers, b)
  {
    var itemBuyers := Sharers(row, buyers);
    credited := totals;
    if |itemBuyers| > 0 {
      var perBuyerCost := Cost(row) / (|itemBuyers| as real);
      SharersDistinct(row, buyers);
      credited := Credit(totals, itemBuyers, perBuyerCost);
    }
    forall b | b in totals ensures credited[b] == totals[b] + Share(row, buyers, b) {
      ShareOfSharers(row, buyers, b, itemBuyers);
    }
  }

  /** Adds `part` to the running total of each name in `sharers`, which
      must all have one; no other entry changes. */
  method Credit(totals: map<string, real>, sharers: seq<string>, part: real) returns (credited: map<string, real>)
    requires Distinct(sharers)
    requires forall b :: b in sharers ==> b in totals
    ensures credited.Keys == totals.Keys
    ensures forall b :: b in totals ==>
      credited[b] == totals[b] + (if b in sharers then part else 0.0)
  {
    credited := totals;
    for j := 0 to |sharers|
      invariant credited.Keys == totals.Keys
      invariant forall b :: b in totals ==>
        credited[b] == totals[b] + (if b in sharers[..j] then part else 0.0)
    {
      credited := credited[sharers[j] := credited[sharers[j]] + part];
    }
    assert sharers[..|sharers|] == sharers;
  }

  /** Milk (cost 2) for the first buyer only, bread (cost 6) shared by
      both: the first owes 5 and the second 3. */
  lemma TwoItemSplit(milk: Row, bread: Row, b1: string, b2: string)
    requires b1 != b2
    requires Cost(milk) == 2.0 && Cost(bread) == 6.0
    requires Flag(milk, b1) && !Flag(milk, b2) && Flag(bread, b1) && Flag(bread, b2)
    ensures BuyerTotals([milk, bread], [b1, b2]) == map[b1 := 5.0, b2 := 3.0]
  {
    var buyers := [b1, b2];
    assert Share(milk, buyers, b1) == 2.0 by {
      ShareOfSharers(milk, buyers, b1, [b1]);
    }
    assert Share(bread, buyers, b1) == 3.0 && Share(bread, buyers, b2) == 3.0 by {
      ShareOfSharers(bread, buyers, b1, [b1, b2]);
      ShareOfSharers(bread, buyers, b2, [b1, b2]);
    }
    OwedTwoRows(milk, bread, buyers, b1);
    OwedTwoRows(milk, bread, buyers, b2);
  }

  /** The receipt before any box is checked: milk (2 x 1) and bread (3 x 2)
      seeded, the totals still empty, then two buyers added. */
  method ReceiptSetUp() returns (ledger: Ledger)
    ensures fresh(ledger) && fresh(ledger.rows) && ledger.Valid()
    ensures ledger.buyers == [BuyerName(0), BuyerName(1)]
    ensures ledger.rows.Length == 2
    ensures Cost(ledger.rows[0]) == 2.0 && Cost(ledger.rows[1]) == 6.0
    ensures !Flag(ledger.rows[0], BuyerName(0)) && !Flag(ledger.rows[0], BuyerName(1))
    ensures !Flag(ledger.rows[1], BuyerName(0)) && !Flag(ledger.rows[1], BuyerName(1))
  {
    ledger := new Ledger([Product("Milk", 2.0, 1.0), Product("Bread", 3.0, 2.0)]);
    var totals := ledger.CalculateBuyerTotals();
    assert totals == map[];
    ledger.AddBuyer();
    ledger.AddBuyer();
    BuyerNamesDistinct(0, 1);
  }

  /** The milk/bread scenario of TwoItemSplit, run through the class: check
      milk for the first buyer and bread for both, and read the totals. */
  method ReceiptExample() {
    var ledger := ReceiptSetUp();
    var b1, b2 := BuyerName(0), BuyerName(1);
    BuyerNamesDistinct(0, 1);
    ledger.ToggleBuyer(0, b1);
    ledger.ToggleBuyer(1, b1);
    ledger.ToggleBuyer(1, b2);
    var milk, bread := ledger.rows[0], ledger.rows[1];
    assert ledger.rows[..] == [milk, bread];
    TwoItemSplit(milk, bread, b1, b2);
    var totals := ledger.CalculateBuyerTotals();
    assert totals == map[b1 := 5.0, b2 := 3.0];
  }
}
