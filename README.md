# Receipt bill-splitting ledger

A Dafny model of the bill-splitting table of a receipt-scanning mobile app
(`components/EditableTable.tsx`). The table seeds one row per extracted
product. Each row has a name, a unit price, a quantity and a checkbox per
buyer. The table also keeps an append-only list of buyers named
"Buyer 1", "Buyer 2", and so on. Seeding sets this state up, and three
handlers change it: a field edit, adding a buyer, and toggling one
checkbox. The
per-buyer totals split each row's `price * quantity` evenly among the
buyers checked on it. A row with no checked buyer is dropped from the
settlement.

Files:

- `decimal.dfy` (module `Decimal`): decimal rendering of a natural number
  (the `${buyers.length + 1}` in a buyer's name), with the reading that
  undoes it, which shows that different numbers render differently.
- `ledger_rows.dfy` (module `LedgerRows`): the `Product` and `Row` data, and
  the per-row effect of each handler as a function: `Seed`, `EditRow`
  (with `parseFloat(value) || 0`), `ToggleRow`, `AddColumn`. It also holds the
  generated buyer names and the proof that they are pairwise distinct.
- `ledger_totals.dfy` (module `LedgerTotals`): the reference definition of the
  totals (`Sharers` is the filter of the buyer list, `Share` is one row's part
  for one buyer, `Owed` is the running total, `BuyerTotals` is the returned
  map). It also holds the lemmas: per-row and whole-table conservation,
  exclusion of unassigned rows, zero for unchecked buyers, and the effect of
  the handlers on the totals.
- `editable_table.dfy` (module `EditableTable`): the component's state as a
  class `Ledger`. It holds an `array<Row>` updated in place and a buyer
  `seq` that grows by append. Its handlers are proved against the functions
  above, and `CalculateBuyerTotals` is a loop proved equal to `BuyerTotals`.
  The module ends with the two-buyer milk/bread receipt as a client.

Prices and quantities are exact `real`s. The host's `parseFloat` is a
parameter of type `string -> Option<real>`, where `None` stands for NaN.
A checkbox entry that is missing reads as unchecked. This matches
`row.buyers[buyer] || false` at components/EditableTable.tsx:106.

Two behaviours of the component worth noting:

- A numeric field may become negative (`parseFloat("-3")`). Nothing forces
  prices or quantities to be non-negative.
- `toggleBuyer` accepts any name, not only a listed buyer. For an ordinary
  name the component stores the entry, and so does the model.
  `UnlistedFlagIgnored` shows that the totals ignore such an entry.

## Model

| member | source | states |
|---|---|---|
| LedgerRows.Cost | components/EditableTable.tsx:60 | a row whose price or quantity is 0 costs 0 |
| LedgerRows.Flag | components/EditableTable.tsx:58 | a missing checkbox entry reads as unchecked; a present one reads as its stored value |
| LedgerRows.Seed | components/EditableTable.tsx:16-21 | one row per product, in order, with the product's name, price and quantity and an empty checkbox map |
| EditableTable.Ledger.constructor | components/EditableTable.tsx:16-22 | the table starts as `Seed(products)` in a fresh array, with an empty buyer list, and satisfies the class invariant |
| LedgerRows.NumberOrZero | components/EditableTable.tsx:27 | the stored number is the parsed value, or 0 when parsing gives NaN (None) |
| LedgerRows.EditRow | components/EditableTable.tsx:24-31 | a name edit stores the text verbatim; a price or quantity edit stores the parsed number or 0; every other field and the checkbox map are unchanged |
| LedgerRows.UnparsableNumberIsZero | components/EditableTable.tsx:26-28 | text that does not parse zeroes the edited numeric field and leaves the other fields alone; the edit never fails |
| EditableTable.Ledger.HandleFieldChange | components/EditableTable.tsx:24-34 | row `index` becomes `EditRow` of its old value, every other row is unchanged, the buyers are unchanged, the invariant is kept, and the rows handed to `onChange` are the new rows |
| LedgerRows.BuyerName | components/EditableTable.tsx:37 | the new buyer's name is "Buyer " followed by a digit string with no leading zero whose value is count + 1 |
| Decimal.NatToString | components/EditableTable.tsx:37 | the rendering of a number is a non-empty digit string with no leading zero |
| Decimal.DigitsValueOfNatToString | components/EditableTable.tsx:37 | reading back a rendered number gives the number |
| Decimal.NatToStringInjective | components/EditableTable.tsx:37 | different numbers render differently |
| LedgerRows.BuyerNamesDistinct | components/EditableTable.tsx:37 | "Buyer i+1" and "Buyer j+1" differ whenever i and j differ |
| LedgerRows.NamedInOrderDistinct | components/EditableTable.tsx:37-38 | a buyer list whose i-th entry is "Buyer i+1" has no repeated name |
| LedgerRows.AppendNextName | components/EditableTable.tsx:37-38 | appending "Buyer n+1" to such a list of length n keeps the naming invariant, and the new name is not already listed |
| LedgerRows.AddColumn | components/EditableTable.tsx:41 | a row gains the new buyer's entry set to false; every other entry and every product field are unchanged |
| LedgerRows.AddColumnToAll | components/EditableTable.tsx:40-43 | every row, and only those, gets AddColumn, in the same order |
| EditableTable.Ledger.AddBuyer | components/EditableTable.tsx:36-45 | the buyer list grows by exactly "Buyer (old length + 1)"; the rows become `AddColumnToAll` of the old rows; the invariant (names in order, an entry for every buyer on every row) is kept |
| LedgerRows.ToggleRow | components/EditableTable.tsx:49 | the toggled box reads as the negation of its old truthiness; every other entry and every product field are unchanged |
| LedgerRows.ToggleTwiceRestoresFlags | components/EditableTable.tsx:49 | toggling twice restores every box's truthiness, and the row itself when the box had an entry |
| EditableTable.Ledger.ToggleBuyer | components/EditableTable.tsx:47-51 | only row `rowIndex` changes, to `ToggleRow` of its old value; the buyers and the invariant are kept |
| LedgerTotals.Sharers | components/EditableTable.tsx:58 | the filtered list holds exactly the listed buyers that are checked on the row, and is no longer than the buyer list |
| LedgerTotals.SharersAppend | components/EditableTable.tsx:58 | filtering a list with one more buyer appends that buyer exactly when it is checked |
| LedgerTotals.SharersAgree | components/EditableTable.tsx:58 | two rows that agree on every listed buyer's box have the same filtered list |
| LedgerTotals.SharersDistinct | components/EditableTable.tsx:58 | filtering a list with distinct names gives distinct names |
| LedgerTotals.Share | components/EditableTable.tsx:59-63 | a listed, checked buyer gets `price*quantity / k`, with k > 0 the number of checked listed buyers; anyone else gets 0 |
| LedgerTotals.Owed | components/EditableTable.tsx:57-65 | a name that is not a listed buyer owes 0 |
| LedgerTotals.OwedTwoRows | components/EditableTable.tsx:57-65 | over two rows, a buyer owes the sum of the two rows' shares |
| LedgerTotals.BuyerTotals | components/EditableTable.tsx:54-55 | the totals map has exactly one entry per listed buyer |
| LedgerTotals.RowConservation | components/EditableTable.tsx:59-63 | a row with at least one checked buyer hands out exactly its `price*quantity`, summed over the buyer list |
| LedgerTotals.UnassignedRowIgnored | components/EditableTable.tsx:59-64 | a row with no checked buyer changes no total and adds nothing to the assigned cost |
| LedgerTotals.OwedConservation | components/EditableTable.tsx:53-67 | the buyers' running totals sum to the cost of the rows that have a checked buyer |
| LedgerTotals.TotalsConservation | components/EditableTable.tsx:53-67 | the values of the returned map, summed over the buyer list, equal the cost of the rows that have a checked buyer |
| LedgerTotals.UncheckedBuyerOwesNothing | components/EditableTable.tsx:55-63 | a buyer checked on no row owes 0 and gets the entry 0 |
| LedgerTotals.OwedAgree | components/EditableTable.tsx:57-63 | two tables whose rows cost the same and agree on every listed buyer's box give every buyer the same running total |
| LedgerTotals.TotalsDependOnCostAndFlags | components/EditableTable.tsx:57-63 | the totals map depends only on each row's cost and on the listed buyers' boxes |
| LedgerTotals.ToggleTwiceKeepsTotals | components/EditableTable.tsx:47-67 | toggling one box twice leaves the totals map identical |
| LedgerTotals.RenameKeepsTotals | components/EditableTable.tsx:24-67 | renaming an item leaves the totals map identical |
| LedgerTotals.UnlistedFlagIgnored | components/EditableTable.tsx:58 | setting a box for a name that is not a listed buyer leaves the totals map identical |
| LedgerTotals.AddColumnSharers | components/EditableTable.tsx:40-58 | after a fresh buyer's unchecked column is added, a row's checked buyers are as before |
| LedgerTotals.AddColumnCost | components/EditableTable.tsx:41 | adding a checkbox column does not change a row's cost |
| LedgerTotals.AddColumnShare | components/EditableTable.tsx:40-63 | after a fresh buyer's unchecked column is added, every old buyer's share of a row is unchanged and the new buyer's is 0 |
| LedgerTotals.AddColumnOwed | components/EditableTable.tsx:36-67 | after a fresh buyer's unchecked column is added, every old buyer's running total is unchanged and the new buyer's is 0 |
| LedgerTotals.AddColumnTotals | components/EditableTable.tsx:36-67 | after adding a buyer, the totals map is the old one plus the new buyer at 0 |
| EditableTable.ZeroTotals | components/EditableTable.tsx:54-55 | the starting map has exactly the listed buyers, each at 0 |
| EditableTable.CreditRow | components/EditableTable.tsx:57-64 | each entry grows by exactly that buyer's share of the row, so a row with no checked buyer changes nothing; the keys are unchanged |
| EditableTable.Credit | components/EditableTable.tsx:61-63 | each sharer's entry grows by exactly the per-buyer cost, once; the keys and all other entries are unchanged |
| EditableTable.Ledger.CalculateBuyerTotals | components/EditableTable.tsx:53-68 | the map built by the loops equals `BuyerTotals` of the current rows and buyers |
| EditableTable.TwoItemSplit | components/EditableTable.tsx:53-67 | milk (cost 2) checked for the first buyer and bread (cost 6) for both give totals 5 and 3 |

## Left out

- Rendering: the JSX, the styles, and the `toFixed`/`toString` display (components/EditableTable.tsx:70-180) are not modelled.
- React state scheduling is not modelled. Each handler here runs to completion before the next one starts. In the component, `addBuyer` computes the name and the new list from the `buyers` value of the current render. Two clicks before a re-render therefore both call `setBuyers([...buyers, newBuyer])` on the same old list, and the second click is lost. No name is repeated.
- JavaScript objects used as maps are modelled as `map<string, bool>`. Names of inherited `Object.prototype` properties are not modelled. For `"constructor"`, the inherited function is truthy, so `toggleBuyer` stores `false`. For `"__proto__"`, it stores nothing. Only generated "Buyer n" names reach the handlers, so this cannot happen in the component.
- Aliasing is not modelled. `[...rows]` is a shallow copy, and the row objects handed to `onChange` are shared with the parent screen. The model owns the rows, and `HandleFieldChange` returns them as a value.
- The `useState` initialiser runs only on the first render. Later changes to the `products` prop are ignored, and the model has only the seeding constructor.
- Floating point is not modelled. Prices, quantities, shares and totals are exact reals, so there is no rounding in the division or the accumulation. `parseFloat` results of Infinity cannot be represented. NaN is `None`.
- The grammar of `parseFloat` is left out. It is a function parameter, and the model only relies on its result.
- EditableTable.Ledger.HandleFieldChange, EditableTable.Ledger.ToggleBuyer: an out-of-range row index is a precondition. In the component it would throw a TypeError on `undefined`, but the UI only offers valid indices.
- EditableTable.Ledger.CalculateBuyerTotals: this requires the class invariant, so buyer names are distinct. With a repeated name, the component would credit that name once per occurrence. Only `AddBuyer` extends the list, so that cannot happen.
- The other screens and the app shell (`screens/HomeScreen.tsx`, `screens/ReceiptEditorScreen.tsx`, `App.tsx`) are not part of this model. They handle image picking, the upload, navigation and display. Only the `Product` shape of `App.tsx` is reused.
