# POSSystem checkout, pricing and receipt layout in Dafny

This project models the core of a JavaFX point-of-sale application for a
cake shop:

- **The cart and its pricing.** `Order` maps each product to a quantity. Its
  subtotal is Σ price × quantity. The discount is tiered: 5% from 300,000
  rupiah and 10% from 500,000. The total is the subtotal less the discount.
  The cart also has a discount description.
- **The value types.** `Product`, `ProductType` and `Receipt`.
- **The receipt text.** `ThermalPrinter.generateReceiptContent` builds a
  32-character-wide text, using its `centerText` and `rightAlign` helpers.
  `printReceipt` derives a page height from it.
- **The checkout screen.** `CalculateTotalController` validates and adds cart
  entries and removes cart rows. It keeps the checkout button state. Its
  checkout runs through the payment dialog, the e-payment marker and the
  change computation.
- **The order-history screen.** `OrderHistoryController` filters by calendar
  date, clears the filter, shows total sales and guards deletion.

Modules, one per file:

| module | file | models |
|---|---|---|
| `Wrappers` | wrappers.dfy | `Option` and the pass/fail `Outcome` |
| `Text` | text.dfy | `String.repeat`, `%-Ns` / `%Ns` padding, `replace(",", "")` |
| `Numerals` | numerals.dfy | `%d`, `%,d`, `Integer.parseInt`, decimal `Double.parseDouble`, the `(long)` cast, `%.0f` |
| `Products` | products.dfy | `ProductType`, `Product`, `Product.toString` |
| `Pricing` | pricing.dfy | the discount tiers of `Order` as functions of the subtotal |
| `Orders` | order.dfy | `Order`: `addItem`, the subtotal walk, discount, total, description |
| `Calendar` | calendar.dfy | `LocalDate` / `LocalDateTime.toLocalDate` |
| `Receipts` | receipt.dfy | `Receipt` and its header constants |
| `ThermalPrinter` | thermal_printer.dfy | the receipt lines, the alignment rules, the buffer, the page height |
| `Checkout` | checkout.dfy | `CalculateTotalController` as a state machine |
| `OrderHistory` | order_history.dfy | `OrderHistoryController` as a state machine |

Modelling choices:

- **Money.**
  - Prices are whole rupiah (`int`).
  - Discounts and totals are exact `real`s.
  - Java's `(long)` cast is truncation toward zero (`Numerals.JavaLong`).
  - `%,d` uses ',' as the grouping separator.
- **Product identity.** `Product` does not override `equals` or `hashCode`,
  so the cart's keys are object identities. The model's `Product` carries a
  `ref` number that stands for that identity.
- **Map iteration order.** The order's `HashMap` iterates in an unspecified
  order. Every function that walks it takes a key sequence `keys` with
  `Orders.Enumerates(keys, items)`. Each property is stated for every such
  order.
- **Clock, dialogs and database.** These become parameters:
  - the date line of the receipt;
  - how the payment dialog was left (`Checkout.PaymentChoice`);
  - what the store returned on load or delete (`Option<seq<OrderRow>>`,
    `OrderHistory.DeleteOutcome`).
- **Controller state.** Each controller is a record. Each handler returns the
  next record, the error alert it raised (if any) and, for checkout, the
  accepted payment.
- **`Receipt.ePayment`.** `Receipt.java` has no `isEPayment`, but
  `ThermalPrinter.java:75` calls it. The model's `Receipt` carries an
  `ePayment` flag.
- **Exact Amount, as written and corrected.** `Checkout.HandleCheckout` is
  `handleCheckout()` as written: its Exact Amount button writes `%.0f` of
  the total. `Checkout.HandleCheckoutCorrected` writes the total rounded up
  instead (see "## Findings"). Every other dialog path is the same in both,
  and the screen invariant is proved for both.
- **`int` quantities.** Quantities are Java `int`s. `addItem` stores the
  wrapped sum (`Numerals.WrapInt`), so the positive-quantity invariant
  survives an add only while the sum fits.
- **No discount line.** The printed receipt has no discount line: the totals
  block prints only the discounted total (`ThermalPrinter.java:70-82`). The
  model follows that code.

## Model

| member | source | states |
|---|---|---|
| `Orders.NewOrderIsEmpty` | src/main/java/javafx/model/Order.java:13-15 | a new order has no entries, a zero subtotal, no discount, zero total and an empty description |
| `Orders.AddItem` | src/main/java/javafx/model/Order.java:17-19 | after `addItem(p, q)` the keys are the old keys plus `p`; every other entry is unchanged; no sign check is made; `p`'s quantity is its old quantity (0 if absent) plus `q` as a Java `int` sum, wrapped modulo 2^32, which is the plain sum whenever that fits the `int` range |
| `Orders.AddItemEntries` | src/main/java/javafx/model/Order.java:17-19 | re-adding a product already in the cart keeps the number of entries; a new product adds exactly one; a separately built product with equal fields is a second entry |
| `Orders.AddItemSubtotal` | src/main/java/javafx/model/Order.java:17-31 | adding `q` of `p` raises the subtotal by `p.price` times the change of `p`'s stored quantity, which is exactly `p.price × q` when the new quantity fits the `int` range |
| `Orders.GetSubtotal` | src/main/java/javafx/model/Order.java:25-31 | the loop over the entries, taken in any order, returns Σ price × quantity |
| `Orders.SumOverPick` | src/main/java/javafx/model/Order.java:25-31 | the sum over the entries does not depend on which entry is added first |
| `Orders.SumInOrderIsSumOver` | src/main/java/javafx/model/Order.java:25-31 | summing along any duplicate-free listing of a key set gives the set's sum, with one step per key |
| `Orders.EnumerationSubtotal` | src/main/java/javafx/model/Order.java:27-30 | every iteration order of the map has one step per entry and sums to the subtotal |
| `Orders.TotalBounds` | src/main/java/javafx/model/Order.java:43-45 | total = subtotal − discount; with non-negative prices and quantities, 0.9 × subtotal ≤ total ≤ subtotal |
| `Orders.RemoveEntrySubtotal` | src/main/java/javafx/controller/CalculateTotalController.java:405 | removing a product's entry lowers the subtotal by exactly that entry's price × quantity |
| `Orders.RemoveEntry` | src/main/java/javafx/controller/CalculateTotalController.java:405 | `getItems().remove(p)` drops `p`'s whole entry and keeps every other entry |
| `Pricing.Discount` | src/main/java/javafx/model/Order.java:33-41 | the discount is 10% of the subtotal from 500,000 up, 5% from 300,000 below 500,000, else 0; it is positive exactly from 300,000 up |
| `Pricing.Total` | src/main/java/javafx/model/Order.java:43-45 | the total is the subtotal times (1 − the tier's rate); it equals the subtotal below 300,000 and lies in [0.9 × subtotal, subtotal] for non-negative subtotals |
| `Pricing.DiscountDescription` | src/main/java/javafx/model/Order.java:47-55 | each of the three texts is returned exactly in its tier |
| `Pricing.DescriptionMatchesDiscount` | src/main/java/javafx/model/Order.java:33-55 | the description is non-empty exactly when a discount is taken, and names the rate that was applied |
| `Pricing.ThresholdLowersTotal` | src/main/java/javafx/model/Order.java:8-11 | crossing a threshold can lower the total: 299,999 costs 299,999 but 300,000 costs 285,000 |
| `Products.CategoriesAndNames` | src/main/java/javafx/model/ProductType.java:3-16 | exactly three categories in declaration order; display names "Cube Cake", "Tart", "Pudding", pairwise distinct |
| `Products.ProductStringParts` | src/main/java/javafx/model/Product.java:27-29 | `toString` is "{type} - {variant} (Rp {price})", and the grouped amount reads back as the price once its commas are removed |
| `Receipts.HeaderFitsLine` | src/main/java/javafx/model/Receipt.java:12-15 | every header constant is shorter than a 32-character line |
| `Text.PadRight` | src/main/java/javafx/utils/ThermalPrinter.java:50 | `%-22s`: the text, then spaces up to the width; longer text unchanged |
| `Text.PadLeft` | src/main/java/javafx/utils/ThermalPrinter.java:50 | `%10s`: spaces, then the text, up to the width; longer text unchanged |
| `Text.StripCommasKeeps` | src/main/java/javafx/controller/CalculateTotalController.java:269 | `replace(",", "")` leaves no comma, keeps every other character with its multiplicity, and changes comma-free text not at all |
| `Numerals.DigitsValueRoundTrip` | src/main/java/javafx/utils/ThermalPrinter.java:66-67 | `%d` digits and their value are inverse bijections on digit strings without leading zeros |
| `Numerals.GroupStrips` | src/main/java/javafx/utils/ThermalPrinter.java:66-67 | `%,d` grouping only inserts commas |
| `Numerals.GroupLength` | src/main/java/javafx/utils/ThermalPrinter.java:66-67 | grouping adds one comma per full group of three digits beyond the first |
| `Numerals.GroupedIntStripsToPlain` | src/main/java/javafx/controller/CalculateTotalController.java:269 | stripping the commas off `%,d` text gives the `%d` text |
| `Numerals.ParseInt` | src/main/java/javafx/controller/CalculateTotalController.java:188 | `Integer.parseInt` yields a value only inside the `int` range, and it is the value of the signed digit text |
| `Numerals.ParseIntRoundTrip` | src/main/java/javafx/controller/CalculateTotalController.java:188 | `Integer.parseInt` inverts `%d` exactly on the `int` range and throws outside it |
| `Numerals.ParseDecimalOfGrouped` | src/main/java/javafx/controller/CalculateTotalController.java:269-270 | an amount typed as the screen shows it, with grouping commas, parses back to that amount |
| `Numerals.JavaLong` | src/main/java/javafx/utils/ThermalPrinter.java:73 | the `(long)` cast truncates toward zero: within one of the value, never further from zero |
| `Numerals.WrapInt` | src/main/java/javafx/model/Order.java:18 | a Java `int` sum is the mathematical sum brought into [-2^31, 2^31 − 1] by a multiple of 2^32, and is the sum itself when that is in range |
| `Numerals.RoundHalfUp` | src/main/java/javafx/controller/CalculateTotalController.java:226 | `%.0f` picks the integer nearest the value, halves away from zero |
| `Numerals.FormatFixed0` | src/main/java/javafx/controller/CalculateTotalController.java:226 | `%.0f` text reads back as the half-up rounded value |
| `ThermalPrinter.CenterTextSpec` | src/main/java/javafx/utils/ThermalPrinter.java:209-213 | text of 32 characters or more is unchanged; shorter text gets ⌊slack/2⌋ leading spaces, ends with the text and fits the line |
| `ThermalPrinter.RightAlignSpec` | src/main/java/javafx/utils/ThermalPrinter.java:215-218 | text of 32 characters or more is unchanged; shorter text becomes exactly 32 characters, spaces and then the text |
| `ThermalPrinter.AlignmentRoundTrip` | src/main/java/javafx/utils/ThermalPrinter.java:209-218 | both alignments only add leading spaces: trimming them gives back any text that does not start with a space |
| `ThermalPrinter.SeparatorLayout` | src/main/java/javafx/utils/ThermalPrinter.java:39 | the separator is 32 dashes |
| `ThermalPrinter.ColumnHeaderLayout` | src/main/java/javafx/utils/ThermalPrinter.java:50 | the column header is "Description", 15 spaces, "Amount": 32 characters |
| `ThermalPrinter.HeaderLayout` | src/main/java/javafx/utils/ThermalPrinter.java:41-51 | the eight header lines as printed, with 9, 1, 2 and 12 leading spaces on the centred lines |
| `ThermalPrinter.FooterLayout` | src/main/java/javafx/utils/ThermalPrinter.java:84-93 | the footer as printed: the date line, a blank line, three centred closing lines with 2, 8 and 4 leading spaces, one blank line between |
| `ThermalPrinter.FixedLinesFit` | src/main/java/javafx/utils/ThermalPrinter.java:41-93 | every header line, and every footer line after the date, fits in 32 characters |
| `ThermalPrinter.ReceiptParts` | src/main/java/javafx/utils/ThermalPrinter.java:38-94 | a receipt has 20 + 2n lines for n entries: header, items, totals and footer at fixed offsets |
| `ThermalPrinter.EachEntryTwoLines` | src/main/java/javafx/utils/ThermalPrinter.java:54-68 | the iteration order lists each cart entry once, and the entry at position i owns item lines 2i and 2i + 1: "{type} - {variant}", then the right-aligned "{q}x{price} = Rp {price×q}" |
| `ThermalPrinter.FlatMapPairs` | src/main/java/javafx/utils/ThermalPrinter.java:54-68 | when each element lays out as two lines, element i owns lines 2i and 2i + 1 of the block |
| `ThermalPrinter.TotalsBlock` | src/main/java/javafx/utils/ThermalPrinter.java:70-82 | after the items: a separator, the truncated discounted total, "E-payment" or "Cash" with the tender, the change, and two separators; no discount line |
| `ThermalPrinter.TotalLineIsDiscounted` | src/main/java/javafx/utils/ThermalPrinter.java:73 | once a discount applies, the total line shows a figure below the subtotal, which reads back as the truncated total |
| `ThermalPrinter.LineWidths` | src/main/java/javafx/utils/ThermalPrinter.java:38-94 | the amount line of each entry and the total, tender and change lines are exactly 32 characters unless their text is longer, then the bare text; header lines and closing footer lines fit in 32 |
| `ThermalPrinter.FlatMapPermutation` | src/main/java/javafx/utils/ThermalPrinter.java:54 | reordering the entries permutes the item lines |
| `ThermalPrinter.EnumerationsPermute` | src/main/java/javafx/utils/ThermalPrinter.java:54 | two iteration orders of the same map are permutations of each other |
| `ThermalPrinter.OrderIndependent` | src/main/java/javafx/utils/ThermalPrinter.java:54 | whatever the map's iteration order, the receipt has the same length and lines outside the item block, and the same item lines up to order |
| `ThermalPrinter.GenerateReceiptContent` | src/main/java/javafx/utils/ThermalPrinter.java:38-94 | generating keeps what was already in the buffer and appends exactly the receipt's lines, 20 + 2n of them |
| `ThermalPrinter.PageHeight` | src/main/java/javafx/utils/ThermalPrinter.java:251 | the height is a multiple of 12 points with five lines of margin above the line count |
| `ThermalPrinter.PrintReceipt` | src/main/java/javafx/utils/ThermalPrinter.java:243-251 | printing keeps the printer's receipt and sets a height of 12 × (lines already buffered + 25 + 2n) |
| `ThermalPrinter.FreshPrinterPage` | src/main/java/javafx/utils/ThermalPrinter.java:33-36 | a freshly built printer lays out exactly the receipt's lines on a 300 + 24n point page; the receipt argument of `printReceipt` is ignored |
| `Checkout.ValidateInput` | src/main/java/javafx/controller/CalculateTotalController.java:178-198 | input passes iff a type and a variant are selected and the quantity parses as an `int` above zero; each failure raises its own alert, checked in the order type, variant, readable quantity, positive quantity |
| `Checkout.QuantityExamples` | src/main/java/javafx/controller/CalculateTotalController.java:187-196 | "0" and "-3" are refused as not positive, "" and "abc" as unreadable, "12" passes; selections are checked before the quantity |
| `Checkout.QuantityOutOfRange` | src/main/java/javafx/controller/CalculateTotalController.java:188 | a quantity below or above the `int` range is refused as unreadable |
| `Checkout.HandleAdd` | src/main/java/javafx/controller/CalculateTotalController.java:132-149 | on valid input the parsed quantity of the variant is added and the form cleared; otherwise the validation alert is raised and nothing changes |
| `Checkout.AddOnlyWhenValid` | src/main/java/javafx/controller/CalculateTotalController.java:132-143 | the order changes only on valid input; then the variant's quantity becomes the wrapped `int` sum, which while it fits is exactly that amount more, with the subtotal rising by price × amount; checkout becomes enabled |
| `Checkout.OverflowGoesNegative` | src/main/java/javafx/model/Order.java:18 | on a valid screen, an accepted add whose held plus typed quantity exceeds 2147483647 raises no alert and stores a negative quantity, breaking the positive-quantity invariant |
| `Checkout.QuantityOverflowWraps` | src/main/java/javafx/controller/CalculateTotalController.java:140-141 | adding 2147483647 of a variant to an empty cart, then 2147483647 again, is accepted both times and leaves a quantity of -2 |
| `Checkout.RemoveCartRow` | src/main/java/javafx/controller/CalculateTotalController.java:402-410 | removal drops the selected product's whole entry and keeps the other entries and the payment state; without a selection nothing changes |
| `Checkout.ProcessCheckout` | src/main/java/javafx/controller/CalculateTotalController.java:279-290 | accepted iff tender ≥ discounted total; then the change is tender − total and both are stored; otherwise "Not enough cash" and the state is kept |
| `Checkout.HandleResult` | src/main/java/javafx/controller/CalculateTotalController.java:262-276 | no dialog result changes nothing; an accepted tender stores exactly tender and change with change = tender − total ≥ 0; an alert is only the invalid-input or not-enough-cash one and keeps the state; the order and form are never touched |
| `Checkout.HandleCheckout` | src/main/java/javafx/controller/CalculateTotalController.java:200-277 | as written: the empty-order alert is raised exactly when the button is disabled; the order and form are kept; any accepted payment has non-negative change |
| `Checkout.HandleCheckoutCorrected` | src/main/java/javafx/controller/CalculateTotalController.java:200-277 | the same handler with the Exact Amount text rounded up; it keeps every promise of `HandleCheckout` |
| `Checkout.CorrectionOnlyTouchesExactAmount` | src/main/java/javafx/controller/CalculateTotalController.java:225-227 | the correction changes the outcome of no dialog path other than Exact Amount then Confirm |
| `Checkout.CheckoutButtonState` | src/main/java/javafx/controller/CalculateTotalController.java:367-369 | the button starts disabled, is enabled by every successful add, is disabled by removing the only entry, is unaffected by removing an absent product, and is disabled only on a zero subtotal |
| `Checkout.InitializeValid` | src/main/java/javafx/controller/CalculateTotalController.java:59-64 | the screen starts with an empty cart, checkout disabled, and the invariant holding |
| `Checkout.HandlersPreserveValid` | src/main/java/javafx/controller/CalculateTotalController.java:132-290 | removal and checkout, by either Exact Amount text, keep all quantities in (0, 2147483647] and the stored change non-negative; an add does too whenever the held plus typed quantity stays within 2147483647 |
| `Checkout.EmptyCheckoutRefused` | src/main/java/javafx/controller/CalculateTotalController.java:202-205 | checkout, as written and corrected, is refused with the empty-order alert exactly when the cart is empty, which is exactly when the button is disabled |
| `Checkout.RefusalKeepsState` | src/main/java/javafx/controller/CalculateTotalController.java:283-286 | a checkout refused by either handler keeps the order, the form and the previous tender and change |
| `Checkout.ChangeIsTenderMinusTotal` | src/main/java/javafx/controller/CalculateTotalController.java:279-290 | a checkout accepted by either handler has change tender − (subtotal − discount), never negative, and that is what the screen stores |
| `Checkout.EPaymentExact` | src/main/java/javafx/controller/CalculateTotalController.java:233-237 | e-payment, by its button or by typing "epayment", tenders the total itself and always goes through with zero change |
| `Checkout.CashTextHandling` | src/main/java/javafx/controller/CalculateTotalController.java:262-276 | cancel changes nothing; other text has its commas removed and is tendered as cash when it reads as a number, else raises the invalid-input alert |
| `Checkout.GroupedCashAccepted` | src/main/java/javafx/controller/CalculateTotalController.java:269-271 | an amount typed with grouping commas is tendered as that amount |
| `Checkout.ExactAmountAccepted` | src/main/java/javafx/controller/CalculateTotalController.java:225-227 | with the Exact Amount text corrected to round up, confirming always goes through as cash with change in [0, 1) |
| `Checkout.ExactAmountAsWrittenShortfall` | src/main/java/javafx/controller/CalculateTotalController.java:225-227 | as written, whenever the total lies less than half a rupiah above a whole amount, confirming the Exact Amount text is refused |
| `Checkout.ExactAmountAsWrittenRefused` | src/main/java/javafx/controller/CalculateTotalController.java:225-227 | as written, on a subtotal of 300,011 the total is 285,010.45, the button writes 285010 and the checkout is refused |
| `OrderHistory.FilterByDateSpec` | src/main/java/javafx/controller/OrderHistoryController.java:95-100 | the filter keeps exactly the rows of the picked day, each as often as it occurs, in their original order |
| `OrderHistory.FilterIdempotent` | src/main/java/javafx/controller/OrderHistoryController.java:95-100 | filtering the filtered rows again changes nothing |
| `OrderHistory.SalesPartition` | src/main/java/javafx/controller/OrderHistoryController.java:95-100 | the day's rows and the other days' rows sum to the sum over all rows |
| `OrderHistory.HandleFilterByDate` | src/main/java/javafx/controller/OrderHistoryController.java:88-104 | without a date, an alert and no change; with one, the shown rows are exactly that day's orders in order, and the label shows their total |
| `OrderHistory.HandleClearFilter` | src/main/java/javafx/controller/OrderHistoryController.java:106-111 | clearing empties the picker, shows every order and puts their total on the label |
| `OrderHistory.ClearForgetsFilter` | src/main/java/javafx/controller/OrderHistoryController.java:106-111 | clearing after filtering gives the same screen as clearing straight away |
| `OrderHistory.FilterTwice` | src/main/java/javafx/controller/OrderHistoryController.java:88-104 | filtering twice by the same date shows what filtering once showed |
| `OrderHistory.FilterAndClearRefreshLabel` | src/main/java/javafx/controller/OrderHistoryController.java:103-110 | after a filter or a clear the label agrees with the rows shown, and only stored orders are shown |
| `OrderHistory.DayTotalsAddUp` | src/main/java/javafx/controller/OrderHistoryController.java:169-178 | the filtered day's sales and the other days' sales add up to the unfiltered sales |
| `OrderHistory.ShowTotal` | src/main/java/javafx/controller/OrderHistoryController.java:169-178 | the running sum over the shown rows, truncated, is the sum of their totals; 0 when none is shown |
| `OrderHistory.TotalLabelReadsBack` | src/main/java/javafx/controller/OrderHistoryController.java:177 | the label starts "Total Sales: Rp " and its amount reads back as the sales figure |
| `OrderHistory.LoadOrderHistory` | src/main/java/javafx/controller/OrderHistoryController.java:113-120 | a successful load shows every fetched order and keeps the picker and label; a failure raises an alert and changes nothing |
| `OrderHistory.DeleteNeedsSelection` | src/main/java/javafx/controller/OrderHistoryController.java:145-149 | without a selection, delete raises its alert, deletes nothing and changes nothing |
| `OrderHistory.HandleDeleteOrder` | src/main/java/javafx/controller/OrderHistoryController.java:143-167 | an id is deleted only with a selection that was not cancelled, and it is the selected order's id; the screen changes only after a confirmed delete whose reload succeeded; no alert exactly when a selected delete was cancelled or went through with its reload |
| `OrderHistory.DeleteKeepsScreenUnlessDone` | src/main/java/javafx/controller/OrderHistoryController.java:156-166 | a cancelled or refused delete leaves the screen as it was; only the refusal alerts, and only a confirmed delete names an order |
| `OrderHistory.DeleteReloadsUnfiltered` | src/main/java/javafx/controller/OrderHistoryController.java:156-161 | a successful delete deletes the selected id and shows the reloaded list in full, keeping the picked date and the old label |

## Left out

- **The database.** `Database.saveOrder`, `getOrderHistory` and
  `deleteOrder` are not part of this model. What they return is a parameter.
- **Printer device paths and AWT drawing.** The ESC/POS path, the AWT
  `print` callback and the `PrinterJob` set-up are foreign calls. Only the
  page-height arithmetic of `printReceipt` is kept.
- **The clock.** The date line of the receipt is a parameter: the
  `LocalDateTime.now()` reading, formatted "yyyy-MM-dd HH:mm".
- **Locale grouping.** `%,d` is modelled with ',' as the separator, as the
  cash parser assumes. Other locales are not modelled.
- **Floating point.**
  - Prices are whole rupiah, and discounts and totals are exact rationals
    instead of doubles.
  - `Double.parseDouble` is modelled on plain decimal text `[+-]?(d+(.d*)?|.d+)`
    and gives the exact value. Surrounding whitespace, exponents, "NaN",
    "Infinity", hexadecimal and type suffixes are not modelled.
  - Digits are ASCII only.
- `Numerals.JavaLong`: does not saturate at the `long` range, because no
  modelled amount comes near it.
- `Checkout.HandlersPreserveValid`: promises positive quantities after an
  add only while the held plus the typed quantity stays within 2147483647.
  Beyond that, the source's `int` sum wraps and stores a negative quantity
  (`Checkout.OverflowGoesNegative`).
- **Labels and confirmation dialogs.** The `updateTotalDisplay` labels, the
  confirmation text of `processCheckout`, the receipt confirmation and the
  receipt view it loads are not modelled.
  - They show the same `%,d` figures of the same subtotal, discount and total.
  - They do not feed back into the state.
  - Saving the order on confirmation is database work.
- **The confirm-button listener.** The listener that disables the dialog's
  Confirm button while the cash field is blank is not modelled. A blank
  confirmed text is still handled, as an unreadable amount.
- **Combo box population.** The type and variant combo boxes (`loadProducts`,
  `setupComboBoxes`) are reduced to the selections they produce.
- **Receipt contents.** `Receipt` holds a snapshot of the order, not a live
  reference. `Receipt`'s clock reading is a field, and the printer does not
  read it.
- **Order details.** `showOrderDetails` of the history screen is not
  modelled; it is display only.

## Findings

| source | as written | input that shows it | evidently intended | confidence | as-written member | corrected member |
|---|---|---|---|---|---|---|
| src/main/java/javafx/controller/CalculateTotalController.java:225-227 | the Exact Amount button fills the cash field with `%.0f` of the total, which rounds half up | a cart whose subtotal is 300,011 has total 285,010.45; the button writes "285010"; confirming it gives "Not enough cash given!" | the button fills in an amount that covers the total, such as the total rounded up | not executed | `Checkout.ExactAmountAsWrittenRefused` | `Checkout.ExactAmountAccepted` |
