/** What the table owes per buyer: each row's cost is split evenly among
    the listed buyers checked on it, and a row nobody is checked on is
    left out of the settlement. */
module LedgerTotals {
  import opened LedgerRows

  /** The listed buyers checked on `row`, in list order (the filter over
      the buyer list). Names checked on the row but not listed are not
      among them. */
  function Sharers(row: Row, buyers: seq<string>): (s: seq<string>)
    ensures forall b :: b in s <==> b in buyers && Flag(row, b)
    ensures |s| <= |buyers|
  {
    if buyers == [] then []
    else (if Flag(row, buyers[0]) then [buyers[0]] else []) + Sharers(row, buyers[1..])
  }

  /** What `row` adds to `buyer`'s total: an equal part of its cost if the
      buyer is listed and checked, nothing otherwise. */
  function Share(row: Row, buyers: seq<string>, buyer: string): (x: real)
    ensures buyer in buyers && Flag(row, buyer) ==>
      |Sharers(row, buyers)| > 0 && x == Cost(row) / (|Sharers(row, buyers)| as real)
    ensures !(buyer in buyers && Flag(row, buyer)) ==> x == 0.0
  {
    var sharers := Sharers(row, buyers);
    if buyer in sharers then Cost(row) / (|sharers| as real) else 0.0
  }

  /** `buyer`'s running total after the rows, taken in order. A name that
      is not listed owes nothing. */
  function Owed(rows: seq<Row>, buyers: seq<string>, buyer: string): (owed: real)
    ensures buyer !in buyers ==> owed == 0.0
    decreases |rows|
  {
    if rows == [] then 0.0
    else Owed(rows[..|rows| - 1], buyers, buyer) + Share(rows[|rows| - 1], buyers, buyer)
  }

  /** Taking one more row adds that row's share. */
  lemma OwedStep(rows: seq<Row>, buyers: seq<string>, buyer: string, i: nat)
    requires i < |rows|
    ensures Owed(rows[..i + 1], buyers, buyer) == Owed(rows[..i], buyers, buyer) + Share(rows[i], buyers, buyer)
  {
    assert rows[..i + 1][..i] == rows[..i];
  }

  /** Over two rows, a buyer owes the sum of the two shares. */
  lemma OwedTwoRows(first: Row, second: Row, buyers: seq<string>, buyer: string)
    ensures Owed([first, second], buyers, buyer) == Share(first, buyers, buyer) + Share(second, buyers, buyer)
  {
    var rows := [first, second];
    assert rows[..0] == [] && rows[..2] == rows;
    OwedStep(rows, buyers, buyer, 0);
    OwedStep(rows, buyers, buyer, 1);
  }

  /** The result of the totals computation: one entry per listed buyer. */
  function BuyerTotals(rows: seq<Row>, buyers: seq<string>): (totals: map<string, real>)
    ensures totals.Keys == set b | b in buyers
  {
    map b | b in buyers :: Owed(rows, buyers, b)
  }

  /** A map holding exactly the listed buyers, each at what they owe, is
      the totals map. */
  lemma TotalsOfOwed(totals: map<string, real>, rows: seq<Row>, buyers: seq<string>)
    requires forall b :: b in totals <==> b in buyers
    requires forall b :: b in buyers ==> totals[b] == Owed(rows, buyers, b)
    ensures totals == BuyerTotals(rows, buyers)
  {
  }

  /** The amount a totals map records for `buyer`, zero if none. */
  function Lookup(totals: map<string, real>, buyer: string): real {
    if buyer in totals then totals[buyer] else 0.0
  }

  /** The cost of the rows that have at least one checked, listed buyer. */
  function AssignedCost(rows: seq<Row>, buyers: seq<string>): real
    decreases |rows|
  {
    if rows == [] then 0.0
    else
      var last := rows[|rows| - 1];
      AssignedCost(rows[..|rows| - 1], buyers) + (if Sharers(last, buyers) != [] then Cost(last) else 0.0)
  }

  /** Sum of `f` over a list of names, duplicates included. */
  function SumOf(names: seq<string>, f: string -> real): real {
    if names == [] then 0.0 else f(names[0]) + SumOf(names[1..], f)
  }

  // ---------------------------------------------------------------------
  // Sums

  lemma {:induction false} SumOfZero(names: seq<string>, f: string -> real)
    requires forall n :: n in names ==> f(n) == 0.0
    ensures SumOf(names, f) == 0.0
  {
    if names != [] {
      SumOfZero(names[1..], f);
    }
  }

  lemma {:induction false} SumOfCongruent(names: seq<string>, f: string -> real, g: string -> real)
    requires forall n :: n in names ==> f(n) == g(n)
    ensures SumOf(names, f) == SumOf(names, g)
  {
    if names != [] {
      SumOfCongruent(names[1..], f, g);
    }
  }

  lemma {:induction false} SumOfAdd(names: seq<string>, f: string -> real, g: string -> real, h: string -> real)
    requires forall n :: n in names ==> h(n) == f(n) + g(n)
    ensures SumOf(names, h) == SumOf(names, f) + SumOf(names, g)
  {
    if names != [] {
      SumOfAdd(names[1..], f, g, h);
    }
  }

  /** `count` equal parts of `part`, added one by one. */
  function Times(count: nat, part: real): real {
    if count == 0 then 0.0 else Times(count - 1, part) + part
  }

  lemma {:induction false} TimesIsProduct(count: nat, part: real)
    ensures Times(count, part) == (count as real) * part
  {
    if count > 0 {
      TimesIsProduct(count - 1, part);
      assert (count as real) * part == ((count - 1) as real) * part + part;
    }
  }

  /** Summing a fixed part over the checked names adds it once per sharer. */
  lemma {:induction false} SumOfFlagged(row: Row, names: seq<string>, part: real, f: string -> real)
    requires forall n :: n in names ==> f(n) == (if Flag(row, n) then part else 0.0)
    ensures SumOf(names, f) == Times(|Sharers(row, names)|, part)
  {
    if names != [] {
      SumOfFlagged(row, names[1..], part, f);
    }
  }

  // ---------------------------------------------------------------------
  // The sharer filter

  lemma {:induction false} SharersAppend(row: Row, buyers: seq<string>, b: string)
    ensures Sharers(row, buyers + [b]) == Sharers(row, buyers) + (if Flag(row, b) then [b] else [])
  {
    if buyers != [] {
      assert (buyers + [b])[1..] == buyers[1..] + [b];
      SharersAppend(row, buyers[1..], b);
    }
  }

  lemma {:induction false} SharersAgree(r1: Row, r2: Row, buyers: seq<string>)
    requires forall b :: b in buyers ==> Flag(r1, b) == Flag(r2, b)
    ensures Sharers(r1, buyers) == Sharers(r2, buyers)
  {
    if buyers != [] {
      SharersAgree(r1, r2, buyers[1..]);
    }
  }

  lemma {:induction false} SharersDistinct(row: Row, buyers: seq<string>)
    requires Distinct(buyers)
    ensures Distinct(Sharers(row, buyers))
  {
    if buyers != [] {
      SharersDistinct(row, buyers[1..]);
      var rest := Sharers(row, buyers[1..]);
      assert buyers[0] !in rest;
      var s := Sharers(row, buyers);
      if Flag(row, buyers[0]) {
        forall i, j | 0 <= i < j < |s| ensures s[i] != s[j] {
          if i == 0 {
            assert s[j] == rest[j - 1];
          } else {
            assert s[i] == rest[i - 1] && s[j] == rest[j - 1];
          }
        }
      }
    }
  }

  // ---------------------------------------------------------------------
  // Per-row properties

  /** A row with a checked buyer hands out exactly its cost, in equal
      parts, over the buyer list. */
  lemma RowConservation(row: Row, buyers: seq<string>)
    requires Sharers(row, buyers) != []
    ensures SumOf(buyers, b => Share(row, buyers, b)) == Cost(row)
  {
    var k := |Sharers(row, buyers)|;
    var part := Cost(row) / (k as real);
    SumOfFlagged(row, buyers, part, b => Share(row, buyers, b));
    TimesIsProduct(k, part);
  }

  /** A row nobody is checked on changes no total. */
  lemma UnassignedRowIgnored(rows: seq<Row>, row: Row, buyers: seq<string>)
    requires Sharers(row, buyers) == []
    ensures BuyerTotals(rows + [row], buyers) == BuyerTotals(rows, buyers)
    ensures AssignedCost(rows + [row], buyers) == AssignedCost(rows, buyers)
  {
    assert (rows + [row])[..|rows|] == rows;
  }

  // ---------------------------------------------------------------------
  // Whole-table properties

  /** The totals, summed over the buyer list, are the cost of the rows
      that have a checked buyer: nothing is lost or created by the split. */
  lemma {:induction false} OwedConservation(rows: seq<Row>, buyers: seq<string>)
    ensures SumOf(buyers, b => Owed(rows, buyers, b)) == AssignedCost(rows, buyers)
    decreases |rows|
  {
    if rows == [] {
      SumOfZero(buyers, b => Owed(rows, buyers, b));
    } else {
      var init, last := rows[..|rows| - 1], rows[|rows| - 1];
      OwedConservation(init, buyers);
      SumOfAdd(buyers, b => Owed(init, buyers, b), b => Share(last, buyers, b), b => Owed(rows, buyers, b));
      if Sharers(last, buyers) != [] {
        RowConservation(last, buyers);
      } else {
        SumOfZero(buyers, b => Share(last, buyers, b));
      }
    }
  }

  /** The same, read off the totals map. */
  lemma TotalsConservation(rows: seq<Row>, buyers: seq<string>)
    ensures SumOf(buyers, b => Lookup(BuyerTotals(rows, buyers), b)) == AssignedCost(rows, buyers)
  {
    var totals := BuyerTotals(rows, buyers);
    SumOfCongruent(buyers, b => Lookup(totals, b), b => Owed(rows, buyers, b));
    OwedConservation(rows, buyers);
  }

  /** A buyer checked on no row owes nothing. */
  lemma {:induction false} UncheckedBuyerOwesNothing(rows: seq<Row>, buyers: seq<string>, buyer: string)
    requires forall i :: 0 <= i < |rows| ==> !Flag(rows[i], buyer)
    ensures Owed(rows, buyers, buyer) == 0.0
    ensures buyer in buyers ==> BuyerTotals(rows, buyers)[buyer] == 0.0
    decreases |rows|
  {
    if rows != [] {
      UncheckedBuyerOwesNothing(rows[..|rows| - 1], buyers, buyer);
    }
  }

  /** Two rows split alike when they cost the same and agree on every
      listed buyer's checkbox. */
  predicate SplitAlike(r1: Row, r2: Row, buyers: seq<string>) {
    Cost(r1) == Cost(r2) && forall b :: b in buyers ==> Flag(r1, b) == Flag(r2, b)
  }

  lemma {:induction false} OwedAgree(rows1: seq<Row>, rows2: seq<Row>, buyers: seq<string>, buyer: string)
    requires |rows1| == |rows2|
    requires forall i :: 0 <= i < |rows1| ==> SplitAlike(rows1[i], rows2[i], buyers)
    ensures Owed(rows1, buyers, buyer) == Owed(rows2, buyers, buyer)
    decreases |rows1|
  {
    if rows1 != [] {
      var n := |rows1| - 1;
      OwedAgree(rows1[..n], rows2[..n], buyers, buyer);
      SharersAgree(rows1[n], rows2[n], buyers);
    }
  }

  /** The totals depend only on each row's cost and on the checkboxes of
      listed buyers. */
  lemma TotalsDependOnCostAndFlags(rows1: seq<Row>, rows2: seq<Row>, buyers: seq<string>)
    requires |rows1| == |rows2|
    requires forall i :: 0 <= i < |rows1| ==> SplitAlike(rows1[i], rows2[i], buyers)
    ensures BuyerTotals(rows1, buyers) == BuyerTotals(rows2, buyers)
  {
    forall b | b in buyers ensures Owed(rows1, buyers, b) == Owed(rows2, buyers, b) {
      OwedAgree(rows1, rows2, buyers, b);
    }
  }

  /** Toggling one checkbox twice leaves every total as it was. */
  lemma ToggleTwiceKeepsTotals(rows: seq<Row>, buyers: seq<string>, index: nat, buyer: string)
    requires index < |rows|
    ensures BuyerTotals(rows[index := ToggleRow(ToggleRow(rows[index], buyer), buyer)], buyers)
         == BuyerTotals(rows, buyers)
  {
    ToggleTwiceRestoresFlags(rows[index], buyer);
    TotalsDependOnCostAndFlags(rows[index := ToggleRow(ToggleRow(rows[index], buyer), buyer)], rows, buyers);
  }

  /** Renaming an item changes no total. */
  lemma RenameKeepsTotals(rows: seq<Row>, buyers: seq<string>, index: nat, value: string,
                          parseFloat: string -> Option<real>)
    requires index < |rows|
    ensures BuyerTotals(rows[index := EditRow(rows[index], Name, value, parseFloat)], buyers)
         == BuyerTotals(rows, buyers)
  {
    TotalsDependOnCostAndFlags(rows[index := EditRow(rows[index], Name, value, parseFloat)], rows, buyers);
  }

  /** A checkbox entry for a name that is not in the buyer list is ignored. */
  lemma UnlistedFlagIgnored(rows: seq<Row>, buyers: seq<string>, index: nat, name: string, value: bool)
    requires index < |rows| && name !in buyers
    ensures BuyerTotals(rows[index := rows[index].(buyers := rows[index].buyers[name := value])], buyers)
         == BuyerTotals(rows, buyers)
  {
    TotalsDependOnCostAndFlags(rows[index := rows[index].(buyers := rows[index].buyers[name := value])], rows, buyers);
  }

  /** A fresh, unchecked column leaves a row's sharers as they were. */
  lemma AddColumnSharers(row: Row, buyers: seq<string>, newBuyer: string)
    requires newBuyer !in buyers
    ensures Sharers(AddColumn(row, newBuyer), buyers + [newBuyer]) == Sharers(row, buyers)
  {
    var row' := AddColumn(row, newBuyer);
    SharersAppend(row', buyers, newBuyer);
    SharersAgree(row', row, buyers);
  }

  /** A new checkbox column does not change what a row costs. */
  lemma AddColumnCost(row: Row, newBuyer: string)
    ensures Cost(AddColumn(row, newBuyer)) == Cost(row)
  {
  }

  /** A row's share for a buyer, read off its sharer list. */
  lemma ShareOfSharers(row: Row, buyers: seq<string>, buyer: string, sharers: seq<string>)
    requires sharers == Sharers(row, buyers)
    ensures Share(row, buyers, buyer) == if buyer in sharers then Cost(row) / (|sharers| as real) else 0.0
  {
  }

  /** A fresh, unchecked column changes no share of a listed buyer and
      gives the newcomer none. */
  lemma AddColumnShare(row: Row, buyers: seq<string>, newBuyer: string, buyer: string)
    requires newBuyer !in buyers
    ensures Share(AddColumn(row, newBuyer), buyers + [newBuyer], buyer)
         == (if buyer == newBuyer then 0.0 else Share(row, buyers, buyer))
  {
    var row' := AddColumn(row, newBuyer);
    AddColumnCost(row, newBuyer);
    var s := Sharers(row, buyers);
    AddColumnSharers(row, buyers, newBuyer);
    ShareOfSharers(row', buyers + [newBuyer], buyer, s);
    ShareOfSharers(row, buyers, buyer, s);
    assert newBuyer !in s;
  }

  /** Adding a fresh, unchecked buyer column keeps every existing total and
      gives the newcomer zero. */
  lemma {:induction false} AddColumnOwed(rows: seq<Row>, buyers: seq<string>, newBuyer: string, buyer: string)
    requires newBuyer !in buyers
    ensures Owed(AddColumnToAll(rows, newBuyer), buyers + [newBuyer], buyer)
         == (if buyer == newBuyer then 0.0 else Owed(rows, buyers, buyer))
    decreases |rows|
  {
    if rows != [] {
      var n := |rows| - 1;
      var added := AddColumnToAll(rows, newBuyer);
      assert added[..n] == AddColumnToAll(rows[..n], newBuyer);
      AddColumnOwed(rows[..n], buyers, newBuyer, buyer);
      AddColumnShare(rows[n], buyers, newBuyer, buyer);
    }
  }

  lemma AddColumnTotals(rows: seq<Row>, buyers: seq<string>, newBuyer: string)
    requires newBuyer !in buyers
    ensures BuyerTotals(AddColumnToAll(rows, newBuyer), buyers + [newBuyer])
         == BuyerTotals(rows, buyers)[newBuyer := 0.0]
  {
    forall b | b in buyers + [newBuyer]
      ensures Owed(AddColumnToAll(rows, newBuyer), buyers + [newBuyer], b)
           == (if b == newBuyer then 0.0 else Owed(rows, buyers, b))
    {
      AddColumnOwed(rows, buyers, newBuyer, b);
    }
  }
}
