/**
 The checkout screen of `CalculateTotalController` as a state machine over
 the current order, the add form and the last accepted payment: adding an
 entry, removing a cart row, the checkout-button state, and checkout with
 its payment dialog and change computation. Each handler returns the next
 state together with the error alert it raises, if any.
 */
module Checkout {
  import opened Wrappers
  import opened Text
  import opened Numerals
  import opened Products
  import opened Orders
  import Pricing

  /** The error alerts of the screen. */
  datatype Alert =
    | NoTypeSelected
    | NoVariantSelected
    | QuantityNotPositive
    | InvalidQuantity
    | EmptyOrder
    | InvalidCash
    | NotEnoughCash

  /** The text each alert shows. */
  function Message(a: Alert): string {
    match a
    case NoTypeSelected => "Please select a product type."
    case NoVariantSelected => "Please select a product variant."
    case QuantityNotPositive => "Quantity must be greater than zero."
    case InvalidQuantity => "Invalid quantity. Please enter a valid number."
    case EmptyOrder => "Cannot checkout, no items in the order."
    case InvalidCash => "Invalid input. Please enter a valid number."
    case NotEnoughCash => "Not enough cash given!"
  }

  /** The add form: the selected type, the selected variant and the quantity
      text. */
  datatype Form = Form(typeSel: Option<ProductType>, variantSel: Option<Product>, quantityText: string)

  /** The form after a successful add: both selections cleared and the
      quantity field emptied. */
  const ClearedForm: Form := Form(None, None, "")

  /** The screen's state. */
  datatype Controller = Controller(order: Order, form: Form, lastCashGiven: real, lastChange: real)

  /** A payment that went through: the tender, the change and the method. */
  datatype Payment = Payment(cashGiven: real, change: real, ePayment: bool)

  /** The state after a handler, the alert it raised, and the payment it
      accepted. */
  datatype Step = Step(next: Controller, alert: Option<Alert>, payment: Option<Payment>)

  /** `initialize()`: an empty order, an empty form, no previous payment. */
  function Initialize(): Controller {
    Controller(NewOrder(), ClearedForm, 0.0, 0.0)
  }

  /** `updateCheckoutButton()`: the button is disabled exactly when the order
      has no entries. */
  function CheckoutDisabled(c: Controller): bool {
    |c.order.items| == 0
  }

  /** `validateInput`: the checks in the order the source makes them, each
      with its own alert. */
  function ValidateInput(form: Form): (r: Outcome<Alert>)
    ensures r.Pass? <==>
      && form.typeSel.Some? && form.variantSel.Some?
      && ParseInt(form.quantityText).Some? && ParseInt(form.quantityText).value > 0
    ensures r.Fail? ==> r.error in {NoTypeSelected, NoVariantSelected, InvalidQuantity, QuantityNotPositive}
    ensures r == Fail(NoTypeSelected) <==> form.typeSel.None?
    ensures form.typeSel.Some? && form.variantSel.None? ==> r == Fail(NoVariantSelected)
    ensures form.typeSel.Some? && form.variantSel.Some? && ParseInt(form.quantityText).None? ==>
      r == Fail(InvalidQuantity)
    ensures form.typeSel.Some? && form.variantSel.Some? && ParseInt(form.quantityText).Some? ==>
      (r == Fail(QuantityNotPositive) <==> ParseInt(form.quantityText).value <= 0)
  {
    if form.typeSel.None? then Fail(NoTypeSelected)
    else if form.variantSel.None? then Fail(NoVariantSelected)
    else match ParseInt(form.quantityText)
      case None => Fail(InvalidQuantity)
      case Some(q) => if q <= 0 then Fail(QuantityNotPositive) else Pass
  }

  /** `handleAddButton()`: on valid input, adds the parsed quantity of the
      selected variant to the order and clears the form; otherwise raises
      the validation alert and changes nothing. */
  function HandleAdd(c: Controller): (s: Step)
    ensures s.payment.None?
    ensures s.alert.None? <==> ValidateInput(c.form).Pass?
    ensures s.alert.Some? ==> s.next == c && s.alert == Some(ValidateInput(c.form).error)
    ensures s.alert.None? ==>
      var p, q := c.form.variantSel.value, ParseInt(c.form.quantityText).value;
      && q > 0
      && s.next == c.(order := AddItem(c.order, p, q), form := ClearedForm)
  {
    match ValidateInput(c.form)
    case Fail(e) => Step(c, Some(e), None)
    case Pass =>
      var q := ParseInt(c.form.quantityText).value;
      Step(c.(order := AddItem(c.order, c.form.variantSel.value, q), form := ClearedForm), None, None)
  }

  /** The remove button of the cart view: drops the selected row's whole
      entry; nothing happens without a selection. */
  function RemoveCartRow(c: Controller, selected: Option<Product>): (c': Controller)
    ensures c'.form == c.form && c'.lastCashGiven == c.lastCashGiven && c'.lastChange == c.lastChange
    ensures selected.None? ==> c' == c
    ensures selected.Some? ==> c'.order.items.Keys == c.order.items.Keys - {selected.value}
    ensures forall p :: p in c'.order.items ==> p in c.order.items && c'.order.items[p] == c.order.items[p]
  {
    match selected
    case None => c
    case Some(p) => c.(order := RemoveEntry(c.order, p))
  }

  /** `processCheckout(cashGiven, isEPayment)`: the change is the tender
      minus the discounted total; a negative change is refused and leaves
      the state as it was, otherwise the tender and change are stored. */
  ghost function ProcessCheckout(c: Controller, cash: real, ePayment: bool): (s: Step)
    ensures s.next.order == c.order && s.next.form == c.form
    ensures s.alert.None? <==> cash >= OrderTotal(c.order)
    ensures s.alert.Some? ==> s.alert == Some(NotEnoughCash) && s.next == c && s.payment.None?
    ensures s.alert.None? ==>
      && s.payment == Some(Payment(cash, cash - OrderTotal(c.order), ePayment))
      && s.next.lastCashGiven == cash
      && s.next.lastChange == cash - OrderTotal(c.order) >= 0.0
  {
    var change := cash - OrderTotal(c.order);
    if change < 0.0 then Step(c, Some(NotEnoughCash), None)
    else Step(c.(lastCashGiven := cash, lastChange := change), None, Some(Payment(cash, change, ePayment)))
  }

  /** How the payment dialog was left: cancelled, confirmed with whatever is
      in the cash field, closed by the E-Payment button, or confirmed right
      after pressing Exact Amount. */
  datatype PaymentChoice = Cancel | Confirm(cashText: string) | EPaymentButton | ExactAmountThenConfirm

  /** The result string the dialog hands back ("epayment" from its button);
      `exactText` is what the Exact Amount button writes into the field. */
  function DialogResult(choice: PaymentChoice, exactText: string): Option<string> {
    match choice
    case Cancel => None
    case Confirm(t) => Some(t)
    case EPaymentButton => Some("epayment")
    case ExactAmountThenConfirm => Some(exactText)
  }

  /** The handler of the dialog's result: "epayment" pays the total
      exactly; any other text has its commas removed and is read as a
      decimal, an unreadable one raising the invalid-input alert. Only the
      stored tender and change can change, and only when a payment goes
      through; a refusal leaves the state as it was. */
  ghost function HandleResult(c: Controller, result: Option<string>): (s: Step)
    ensures result.None? ==> s == Step(c, None, None)
    ensures s.next.order == c.order && s.next.form == c.form
    ensures s.alert.Some? ==> s.alert.value in {InvalidCash, NotEnoughCash} && s.next == c && s.payment.None?
    ensures s.payment.Some? <==> result.Some? && s.alert.None?
    ensures s.payment.Some? ==>
      && s.payment.value.change == s.payment.value.cashGiven - OrderTotal(c.order) >= 0.0
      && s.next == c.(lastCashGiven := s.payment.value.cashGiven, lastChange := s.payment.value.change)
  {
    match result
    case None => Step(c, None, None)
    case Some(t) =>
      if t == "epayment" then ProcessCheckout(c, OrderTotal(c.order), true)
      else match ParseDecimal(StripCommas(t))
        case None => Step(c, Some(InvalidCash), None)
        case Some(v) => ProcessCheckout(c, v, false)
  }

  /** The smallest whole amount that covers `x`. */
  function Ceil(x: real): (r: int)
    ensures x <= r as real < x + 1.0
  {
    -((-x).Floor)
  }

  /** What the Exact Amount button writes: `%.0f` of the total, which
      rounds half up and so can fall short of the total. */
  function ExactAmountText(total: real): string {
    FormatFixed0(total)
  }

  /** What the Exact Amount button evidently should write: the total rounded
      up, so the amount it fills in always covers the total. */
  function ExactAmountTextCorrected(total: real): string {
    IntToString(Ceil(total))
  }

  /** `handleCheckout()`: refused on an empty order before any dialog;
      otherwise the dialog's result is handled. */
  ghost function HandleCheckout(c: Controller, choice: PaymentChoice): (s: Step)
    ensures s.alert == Some(EmptyOrder) <==> CheckoutDisabled(c)
    ensures s.next.order == c.order && s.next.form == c.form
    ensures s.payment.Some? ==> s.payment.value.change >= 0.0
  {
    if |c.order.items| == 0 then Step(c, Some(EmptyOrder), None)
    else HandleResult(c, DialogResult(choice, ExactAmountText(OrderTotal(c.order))))
  }

  /** `handleCheckout()` with the Exact Amount button corrected to round
      the total up. */
  ghost function HandleCheckoutCorrected(c: Controller, choice: PaymentChoice): (s: Step)
    ensures s.alert == Some(EmptyOrder) <==> CheckoutDisabled(c)
    ensures s.next.order == c.order && s.next.form == c.form
    ensures s.payment.Some? ==> s.payment.value.change >= 0.0
  {
    if |c.order.items| == 0 then Step(c, Some(EmptyOrder), None)
    else HandleResult(c, DialogResult(choice, ExactAmountTextCorrected(OrderTotal(c.order))))
  }

  /** The screen's invariant: every entry has a positive quantity (an
      `Integer`, so at most 2147483647) and the stored change is never
      negative. */
  ghost predicate Valid(c: Controller) {
    && (forall p :: p in c.order.items ==> 0 < c.order.items[p] <= MaxInt)
    && c.lastChange >= 0.0
  }

  /** The screen starts valid, with an empty cart and checkout disabled. */
  lemma InitializeValid()
    ensures Valid(Initialize())
    ensures CheckoutDisabled(Initialize())
    ensures Subtotal(Initialize().order) == 0
  {
    NewOrderIsEmpty();
  }

  /** The add about to be made leaves the variant's quantity inside the
      `int` range: quantity held plus quantity typed is at most 2147483647. */
  ghost predicate AddFits(c: Controller) {
    ValidateInput(c.form).Pass? ==>
      Quantity(c.order, c.form.variantSel.value) + ParseInt(c.form.quantityText).value <= MaxInt
  }

  /** Adding keeps the invariant as long as the new quantity does not
      overflow: the added quantity is positive. */
  lemma AddPreservesValid(c: Controller)
    requires Valid(c)
    ensures AddFits(c) ==> Valid(HandleAdd(c).next)
  {
    var s := HandleAdd(c);
    if s.alert.None? && AddFits(c) {
      var p := c.form.variantSel.value;
      forall k | k in s.next.order.items ensures s.next.order.items[k] > 0 {
        if k != p {
          assert s.next.order.items[k] == c.order.items[k];
        }
      }
    }
  }

  /** Handling a dialog result keeps the invariant: it changes the state
      only by storing a non-negative change. */
  lemma ResultPreservesValid(c: Controller, result: Option<string>)
    requires Valid(c)
    ensures Valid(HandleResult(c, result).next)
  {
    var s := HandleResult(c, result);
    assert s.next.order == c.order;
    assert s.next.lastChange >= 0.0;
  }

  /** Every handler keeps the invariant; an add does so as long as the new
      quantity stays inside the `int` range. */
  lemma HandlersPreserveValid(c: Controller, choice: PaymentChoice, selected: Option<Product>)
    requires Valid(c)
    ensures AddFits(c) ==> Valid(HandleAdd(c).next)
    ensures Valid(RemoveCartRow(c, selected))
    ensures Valid(HandleCheckout(c, choice).next)
    ensures Valid(HandleCheckoutCorrected(c, choice).next)
  {
    AddPreservesValid(c);
    ResultPreservesValid(c, DialogResult(choice, ExactAmountText(OrderTotal(c.order))));
    ResultPreservesValid(c, DialogResult(choice, ExactAmountTextCorrected(OrderTotal(c.order))));
  }

  /** An add past the `int` range wraps around to a negative quantity:
      whenever the quantity held plus the valid quantity typed exceeds
      2147483647, the cart then holds a negative quantity of the variant and
      the invariant is broken. */
  lemma OverflowGoesNegative(c: Controller)
    requires Valid(c) && !AddFits(c)
    ensures var p := c.form.variantSel.value;
      && HandleAdd(c).alert.None?
      && Quantity(HandleAdd(c).next.order, p) < 0
      && !Valid(HandleAdd(c).next)
  {
    var p, q := c.form.variantSel.value, ParseInt(c.form.quantityText).value;
    AddOnlyWhenValid(c);
    var x := Quantity(c.order, p) + q;
    assert MaxInt < x <= MaxInt + MaxInt;
    WrapAbove(x);
    assert p in HandleAdd(c).next.order.items;
  }

  /** The first add of `n` = 2147483647 of a variant to an empty cart holds
      exactly `n` of it. */
  lemma FirstAddOfMax(t: ProductType, p: Product, n: int)
    requires n == MaxInt
    ensures var c1 := HandleAdd(Initialize().(form := Form(Some(t), Some(p), IntToString(n)))).next;
      Valid(c1) && c1.order.items == map[p := n]
  {
    var f := Form(Some(t), Some(p), IntToString(n));
    ParseIntRoundTrip(n);
    var c0 := Initialize().(form := f);
    NewOrderIsEmpty();
    AddOnlyWhenValid(c0);
    assert HandleAdd(c0).next.order.items.Keys == {p};
  }

  /** The overflow on a concrete input: adding `n` = 2147483647 of a variant
      to an empty cart, then again, leaves a quantity of -2. */
  lemma QuantityOverflowWraps(t: ProductType, p: Product, n: int)
    requires n == MaxInt
    ensures var f := Form(Some(t), Some(p), IntToString(n));
      var c1 := HandleAdd(Initialize().(form := f)).next;
      var c2 := HandleAdd(c1.(form := f)).next;
      && Valid(c1) && Quantity(c1.order, p) == n
      && HandleAdd(c1.(form := f)).alert.None?
      && Quantity(c2.order, p) == -2 && !Valid(c2)
  {
    var f := Form(Some(t), Some(p), IntToString(n));
    FirstAddOfMax(t, p, n);
    ParseIntRoundTrip(n);
    var c1 := HandleAdd(Initialize().(form := f)).next;
    AddOnlyWhenValid(c1.(form := f));
    WrapAbove(n + n);
  }

  /** An add changes the order only when a type and a variant are selected
      and the quantity reads as a positive `int`; then exactly that many are
      added to the variant's entry and the subtotal rises by price × quantity. */
  lemma AddOnlyWhenValid(c: Controller)
    ensures HandleAdd(c).next.order != c.order ==>
      && c.form.typeSel.Some? && c.form.variantSel.Some?
      && ParseInt(c.form.quantityText).Some? && ParseInt(c.form.quantityText).value > 0
    ensures HandleAdd(c).alert.None? ==>
      var p, q := c.form.variantSel.value, ParseInt(c.form.quantityText).value;
      && Quantity(HandleAdd(c).next.order, p) == WrapInt(Quantity(c.order, p) + q)
      && (MinInt <= Quantity(c.order, p) + q <= MaxInt ==>
            && Quantity(HandleAdd(c).next.order, p) == Quantity(c.order, p) + q
            && Subtotal(HandleAdd(c).next.order) == Subtotal(c.order) + p.price * q)
      && !CheckoutDisabled(HandleAdd(c).next)
  {
    if HandleAdd(c).alert.None? {
      AddItemSubtotal(c.order, c.form.variantSel.value, ParseInt(c.form.quantityText).value);
    }
  }

  /** The quantity checks on their own: "0" and "-3" are refused as not
      positive, "" and "abc" as unreadable, "12" is taken; a missing
      selection is reported before the quantity is looked at. */
  lemma QuantityExamples(t: ProductType, p: Product)
    ensures ValidateInput(Form(Some(t), Some(p), "0")) == Fail(QuantityNotPositive)
    ensures ValidateInput(Form(Some(t), Some(p), "-3")) == Fail(QuantityNotPositive)
    ensures ValidateInput(Form(Some(t), Some(p), "")) == Fail(InvalidQuantity)
    ensures ValidateInput(Form(Some(t), Some(p), "abc")) == Fail(InvalidQuantity)
    ensures ValidateInput(Form(Some(t), Some(p), "12")) == Pass
    ensures ValidateInput(Form(None, None, "abc")) == Fail(NoTypeSelected)
    ensures ValidateInput(Form(Some(t), None, "abc")) == Fail(NoVariantSelected)
  {
    assert "-3"[1..] == "3";
    assert "abc"[0] == 'a';
    assert "12"[..1] == "1";
  }

  /** A quantity beyond the `int` range is refused as unreadable, not as
      too large. */
  lemma QuantityOutOfRange(t: ProductType, p: Product, n: int)
    requires n < MinInt || n > MaxInt
    ensures ValidateInput(Form(Some(t), Some(p), IntToString(n))) == Fail(InvalidQuantity)
  {
    ParseIntRoundTrip(n);
  }

  /** The checkout button is disabled at start, enabled by every
      successful add, disabled again when the last entry is removed, and
      disabled only while the cart costs nothing. */
  lemma CheckoutButtonState(c: Controller, selected: Option<Product>)
    ensures CheckoutDisabled(Initialize())
    ensures HandleAdd(c).alert.None? ==> !CheckoutDisabled(HandleAdd(c).next)
    ensures selected.Some? && c.order.items.Keys == {selected.value} ==> CheckoutDisabled(RemoveCartRow(c, selected))
    ensures selected.Some? && selected.value !in c.order.items ==>
      CheckoutDisabled(RemoveCartRow(c, selected)) == CheckoutDisabled(c)
    ensures CheckoutDisabled(c) ==> Subtotal(c.order) == 0
  {
    NewOrderIsEmpty();
    if selected.Some? && c.order.items.Keys == {selected.value} {
      assert RemoveCartRow(c, selected).order.items.Keys == {};
    }
    if selected.Some? && selected.value !in c.order.items {
      assert RemoveCartRow(c, selected).order.items.Keys == c.order.items.Keys;
    }
    if CheckoutDisabled(c) {
      assert c.order.items.Keys == {};
    }
  }

  /** Checkout is refused on an empty order, whatever the payment choice,
      and on no other order; the button is disabled exactly then. Both the
      source's handler and the corrected one behave so. */
  lemma EmptyCheckoutRefused(c: Controller, choice: PaymentChoice)
    ensures HandleCheckout(c, choice).alert == Some(EmptyOrder) <==> CheckoutDisabled(c)
    ensures CheckoutDisabled(c) ==> HandleCheckout(c, choice).next == c
    ensures HandleCheckoutCorrected(c, choice).alert == Some(EmptyOrder) <==> CheckoutDisabled(c)
    ensures CheckoutDisabled(c) ==> HandleCheckoutCorrected(c, choice).next == c
  {
  }

  /** A refused checkout, for whatever reason (an empty cart, unreadable
      cash text, too little cash, the Exact Amount shortfall included),
      keeps the order, the form and the previous tender and change. */
  lemma RefusalKeepsState(c: Controller, choice: PaymentChoice)
    ensures HandleCheckout(c, choice).alert.Some? ==>
      HandleCheckout(c, choice).next == c && HandleCheckout(c, choice).payment.None?
    ensures HandleCheckoutCorrected(c, choice).alert.Some? ==>
      HandleCheckoutCorrected(c, choice).next == c && HandleCheckoutCorrected(c, choice).payment.None?
  {
  }

  /** An accepted checkout's change is the tender minus the discounted total
      and is never negative; the stored values are those of the payment. */
  lemma ChangeIsTenderMinusTotal(c: Controller, choice: PaymentChoice)
    ensures var s := HandleCheckout(c, choice);
      s.payment.Some? ==>
      && s.alert.None?
      && s.payment.value.change == s.payment.value.cashGiven - OrderTotal(c.order) >= 0.0
      && s.payment.value.change == s.payment.value.cashGiven - (Subtotal(c.order) as real - OrderDiscount(c.order))
      && s.next == c.(lastCashGiven := s.payment.value.cashGiven, lastChange := s.payment.value.change)
    ensures var s := HandleCheckoutCorrected(c, choice);
      s.payment.Some? ==>
      && s.alert.None?
      && s.payment.value.change == s.payment.value.cashGiven - OrderTotal(c.order) >= 0.0
      && s.payment.value.change == s.payment.value.cashGiven - (Subtotal(c.order) as real - OrderDiscount(c.order))
      && s.next == c.(lastCashGiven := s.payment.value.cashGiven, lastChange := s.payment.value.change)
  {
  }

  /** The correction changes only what happens after the Exact Amount
      button: every other way of leaving the dialog is handled alike. */
  lemma CorrectionOnlyTouchesExactAmount(c: Controller, choice: PaymentChoice)
    requires choice != ExactAmountThenConfirm
    ensures HandleCheckoutCorrected(c, choice) == HandleCheckout(c, choice)
  {
  }

  /** E-payment, by its button or by typing "epayment", tenders the total
      itself: it always goes through on a non-empty order, with no change. */
  lemma EPaymentExact(c: Controller)
    requires !CheckoutDisabled(c)
    ensures var s := HandleCheckout(c, EPaymentButton);
      && s.payment == Some(Payment(OrderTotal(c.order), 0.0, true))
      && s.next.lastChange == 0.0
      && s == HandleCheckout(c, Confirm("epayment"))
  {
  }

  /** What confirming the dialog does: cancelling changes nothing and
      raises nothing; any text but "epayment" has its commas removed and,
      when it reads as a number, is tendered as cash, and otherwise raises
      the invalid-input alert with nothing changed. */
  lemma CashTextHandling(c: Controller, choice: PaymentChoice)
    requires !CheckoutDisabled(c)
    ensures choice == Cancel ==> HandleCheckout(c, choice) == Step(c, None, None)
    ensures choice.Confirm? && choice.cashText != "epayment" ==>
      match ParseDecimal(StripCommas(choice.cashText))
      case None => HandleCheckout(c, choice) == Step(c, Some(InvalidCash), None)
      case Some(v) => HandleCheckout(c, choice) == ProcessCheckout(c, v, false)
  {
  }

  /** Commas in the cash field are ignored: an amount typed the way the
      screen displays it, with grouping commas, pays that amount. */
  lemma GroupedCashAccepted(c: Controller, n: int)
    requires !CheckoutDisabled(c)
    ensures HandleCheckout(c, Confirm(GroupedInt(n))) == ProcessCheckout(c, n as real, false)
  {
    ParseDecimalOfGrouped(n);
    GroupedFirstChar(n);
    assert "epayment"[0] == 'e';
  }

  /** Grouping keeps the leading digit in front. */
  lemma {:induction false} GroupFirst(d: string)
    requires |d| >= 1
    ensures |Group(d)| >= 1 && Group(d)[0] == d[0]
    decreases |d|
  {
    if |d| > 3 {
      GroupFirst(d[..|d| - 3]);
    }
  }

  /** `%,d` text starts with a sign or a digit. */
  lemma GroupedFirstChar(n: int)
    ensures |GroupedInt(n)| >= 1
    ensures GroupedInt(n)[0] == '-' || IsDigit(GroupedInt(n)[0])
  {
    if n >= 0 {
      GroupFirst(NatToString(n));
    }
  }

  /** A rendered integer is never the e-payment marker and has no comma. */
  lemma IntTextIsCash(n: int)
    ensures IntToString(n) != "epayment"
    ensures ',' !in IntToString(n)
    ensures StripCommas(IntToString(n)) == IntToString(n)
  {
    var s := IntToString(n);
    var d := NatToString(if n < 0 then -n else n);
    assert s[0] == '-' || IsDigit(s[0]);
    assert ',' !in d by {
      assert forall i :: 0 <= i < |d| ==> d[i] != ',';
    }
    if n < 0 {
      assert s == "-" + d;
    }
    StripCommasKeeps(s);
  }

  /** With the corrected Exact Amount button, confirming the filled-in
      amount always goes through on a non-empty order, as cash, with less
      than one rupiah of change. */
  lemma ExactAmountAccepted(c: Controller)
    requires !CheckoutDisabled(c)
    ensures var s := HandleCheckoutCorrected(c, ExactAmountThenConfirm);
      && s.alert.None?
      && s.payment.Some? && !s.payment.value.ePayment
      && 0.0 <= s.payment.value.change < 1.0
  {
    var n := Ceil(OrderTotal(c.order));
    IntTextIsCash(n);
    ParseDecimalOfInt(n);
  }

  /** As written, confirming the Exact Amount text pays the total rounded
      half up: whenever the total lies less than half a rupiah above a
      whole amount, that falls short and the checkout is refused. */
  lemma ExactAmountAsWrittenShortfall(c: Controller)
    requires !CheckoutDisabled(c)
    requires OrderTotal(c.order) > 0.0
    requires OrderTotal(c.order) - (OrderTotal(c.order).Floor as real) < 0.5
    requires OrderTotal(c.order).Floor as real < OrderTotal(c.order)
    ensures HandleCheckout(c, ExactAmountThenConfirm).alert == Some(NotEnoughCash)
  {
    var x := OrderTotal(c.order);
    var n := RoundHalfUp(x);
    assert n == x.Floor;
    IntTextIsCash(n);
    assert ExactAmountText(x) == IntToString(n);
    assert HandleCheckout(c, ExactAmountThenConfirm) == ProcessCheckout(c, n as real, false);
  }

  /** A one-entry cart for the counterexample: a 300,011-rupiah product,
      once. */
  function CounterexampleCart(): Controller {
    var p := Product(0, CubeCake, "Original", 300011);
    Controller(AddItem(NewOrder(), p, 1), ClearedForm, 0.0, 0.0)
  }

  /** The counterexample cart's total: 300,011 less 5%. */
  lemma CounterexampleTotal()
    ensures Subtotal(CounterexampleCart().order) == 300011
    ensures OrderTotal(CounterexampleCart().order) == 285010.45
    ensures !CheckoutDisabled(CounterexampleCart())
  {
    NewOrderIsEmpty();
    AddItemSubtotal(NewOrder(), Product(0, CubeCake, "Original", 300011), 1);
  }

  /** As written, the Exact Amount button can fill in less than the total:
      on a subtotal of 300,011 the total is 285,010.45, the button writes
      "285010", and confirming it is refused with "Not enough cash given!". */
  lemma ExactAmountAsWrittenRefused()
    ensures var c := CounterexampleCart();
      && !CheckoutDisabled(c)
      && OrderTotal(c.order) == 285010.45
      && RoundHalfUp(OrderTotal(c.order)) == 285010
      && HandleCheckout(c, ExactAmountThenConfirm).alert == Some(NotEnoughCash)
  {
    CounterexampleTotal();
    var c := CounterexampleCart();
    assert OrderTotal(c.order).Floor == 285010;
    ExactAmountAsWrittenShortfall(c);
  }
}
