/** The booking modal opened from the search results: step 1 picks dates
    and quantities (bounded by the live availability), step 2 collects one
    photo per item, step 3 takes the payment hold and posts the
    reservation. */
module BookingModalPage {
  import opened Basics
  import opened Domain
  import opened Engine
  import opened Pricing
  import opened ItemSlots

  /** Each selected quantity lowered to the availability where it exceeds
      it; the others are kept. */
  function Clamp(q: Tiers, avail: Tiers): (r: Tiers)
    ensures r.AtMost(avail) && r.AtMost(q)
    ensures forall t :: r.Get(t) == q.Get(t) || r.Get(t) == avail.Get(t)
    ensures q.AtMost(avail) ==> r == q
  {
    Tiers(Min(q.small, avail.small), Min(q.medium, avail.medium), Min(q.large, avail.large))
  }

  /** `space.min_days && days < space.min_days`: a minimum of 0 or none is no minimum. */
  predicate TooShort(minDays: Option<int>, days: int)
  {
    minDays.Some? && minDays.value != 0 && days < minDays.value
  }

  datatype NextOutcome = MustLogIn | DatesMissing | BelowMinimumStay | NothingSelected | Proceed

  /** The checks of `handleNext`, in their order. */
  function NextVerdict(loggedIn: bool, minDays: Option<int>, start: Option<Day>, end: Option<Day>, q: Tiers): (r: NextOutcome)
    ensures r == Proceed ==> loggedIn && start.Some? && end.Some? && !q.IsZero()
    ensures r == Proceed ==> minDays.None? || minDays.value <= 0 || InclusiveDays(start.value, end.value) >= minDays.value
    ensures r == BelowMinimumStay ==> start.Some? && end.Some? && minDays.Some? && InclusiveDays(start.value, end.value) < minDays.value
    ensures r == NothingSelected ==> q.IsZero()
    ensures loggedIn && start.Some? && end.Some? && !TooShort(minDays, InclusiveDays(start.value, end.value)) && !q.IsZero() ==> r == Proceed
  {
    if !loggedIn then MustLogIn
    else if start.None? || end.None? then DatesMissing
    else if TooShort(minDays, InclusiveDays(start.value, end.value)) then BelowMinimumStay
    else if q.small == 0 && q.medium == 0 && q.large == 0 then NothingSelected
    else Proceed
  }

  /** `payment_status`: a confirmed payment intent is held for capture, a
      booking without one waits for approval. */
  function PaymentStatusFor(confirmedPaymentId: Option<string>): (r: PaymentStatus)
    ensures r == RequiresCapture <==> confirmedPaymentId.Some? && confirmedPaymentId.value != ""
    ensures r != Paid
  {
    if confirmedPaymentId.Some? && confirmedPaymentId.value != "" then RequiresCapture else PendingApproval
  }

  /** `confirmedPaymentId || "paypal_mock_id"`. */
  function PaymentIntentId(confirmedPaymentId: Option<string>): (r: string)
    ensures r != ""
    ensures confirmedPaymentId.Some? && confirmedPaymentId.value != "" ==> r == confirmedPaymentId.value
    ensures !(confirmedPaymentId.Some? && confirmedPaymentId.value != "") ==> r == "paypal_mock_id"
  {
    if confirmedPaymentId.Some? && confirmedPaymentId.value != "" then confirmedPaymentId.value else "paypal_mock_id"
  }

  datatype PaymentStart = PhotosMissing | IntentCreated(amount: real) | IntentFailed(amount: real)

  class BookingModal {
    const space: Space
    var reservations: seq<Reservation>
    /** 1: details, 2: verification, 3: payment. */
    var step: int
    var startDate: Option<Day>
    var endDate: Option<Day>
    /** `qtySmall`, `qtyMedium`, `qtyLarge`. */
    var qty: Tiers
    var items: seq<Slot>
    var paymentMethod: PaymentMethod
    var clientSecret: string

    ghost predicate Valid()
      reads this
    {
      1 <= step <= 3
    }

    constructor (space: Space, initialStartDate: Option<Day>, initialEndDate: Option<Day>, initialQty: Tiers)
      ensures Valid()
      ensures this.space == space && reservations == [] && step == 1 && items == []
      ensures startDate == initialStartDate && endDate == initialEndDate && qty == initialQty
      ensures paymentMethod == Card && clientSecret == ""
    {
      this.space := space;
      reservations := [];
      step := 1;
      startDate := initialStartDate;
      endDate := initialEndDate;
      qty := initialQty;
      items := [];
      paymentMethod := Card;
      clientSecret := "";
    }

    /** `getAvailability()` over the reservations fetched for the space. */
    function Availability(): Tiers
      reads this
    {
      ClientAvailability(Capacity(space), reservations, startDate, endDate)
    }

    /** `calculateTotal()`. */
    function TotalPrice(): real
      reads this
    {
      BookingTotal(qty, UnitPrices(space), startDate, endDate)
    }

    /** The reservations fetch: kept only when the answer is `ok`. */
    method LoadReservations(fetched: Option<seq<Reservation>>)
      modifies this`reservations
      ensures reservations == if fetched.Some? then fetched.value else old(reservations)
    {
      if fetched.Some? {
        reservations := fetched.value;
      }
    }

    /** The effect that, once both dates are set, lowers every quantity above
        the availability to exactly that availability. */
    method ClampQuantities()
      modifies this`qty
      ensures startDate.Some? && endDate.Some? ==> qty == Clamp(old(qty), Availability())
      ensures startDate.None? || endDate.None? ==> qty == old(qty)
    {
      if startDate.Some? && endDate.Some? {
        var availability := Availability();
        if qty.small > availability.small { qty := qty.(small := availability.small); }
        if qty.medium > availability.medium { qty := qty.(medium := availability.medium); }
        if qty.large > availability.large { qty := qty.(large := availability.large); }
      }
    }

    /** `handleNext`: the checks, then (from step 1) one empty slot per
        selected unit and step 2. */
    method Next(loggedIn: bool) returns (outcome: NextOutcome)
      requires Valid()
      modifies this`items, this`step
      ensures Valid()
      ensures outcome == NextVerdict(loggedIn, space.minDays, startDate, endDate, qty)
      ensures outcome == Proceed && old(step) == 1 ==> items == Slots(qty) && step == 2
      ensures !(outcome == Proceed && old(step) == 1) ==> items == old(items) && step == old(step)
    {
      if !loggedIn {
        return MustLogIn;
      }
      if startDate.None? || endDate.None? {
        return DatesMissing;
      }
      var diffDays := InclusiveDays(startDate.value, endDate.value);
      if space.minDays.Some? && space.minDays.value != 0 && diffDays < space.minDays.value {
        return BelowMinimumStay;
      }
      if qty.small == 0 && qty.medium == 0 && qty.large == 0 {
        return NothingSelected;
      }
      if step == 1 {
        items := Expand(qty);
        step := 2;
      }
      return Proceed;
    }

    /** `handleFileChange(index, file)`, once the reader has produced `dataUrl`. */
    method FileChange(index: int, file: Option<File>, dataUrl: string)
      requires 0 <= index < |items|
      modifies this`items
      ensures items == WithFile(old(items), index, file, dataUrl)
    {
      items := WithFile(items, index, file, dataUrl);
    }

    /** `handleBack`: 3 to 2, 2 to 1. */
    method Back()
      requires Valid()
      modifies this`step
      ensures Valid()
      ensures step == if old(step) > 1 then old(step) - 1 else 1
    {
      var was := step;
      if was == 2 { step := 1; }
      if was == 3 { step := 2; }
    }

    /** `handleGoToPayment`, with the payment service's client secret (or
        none) as its answer: refused while a slot lacks a photo, else asks for
        an intent of the current total and moves to step 3 once one exists. */
    method GoToPayment(secret: Option<string>) returns (outcome: PaymentStart)
      requires Valid()
      modifies this`step, this`clientSecret
      ensures Valid()
      ensures !AllFilled(items) ==> outcome == PhotosMissing && step == old(step) && clientSecret == old(clientSecret)
      ensures AllFilled(items) && secret.Some? && secret.value != "" ==>
                outcome == IntentCreated(TotalPrice()) && step == 3 && clientSecret == secret.value
      ensures AllFilled(items) && !(secret.Some? && secret.value != "") ==>
                outcome == IntentFailed(TotalPrice()) && step == old(step) && clientSecret == old(clientSecret)
    {
      if exists i :: 0 <= i < |items| && items[i].file.None? {
        return PhotosMissing;
      }
      var amount := TotalPrice();
      if secret.Some? && secret.value != "" {
        clientSecret := secret.value;
        step := 3;
        return IntentCreated(amount);
      }
      return IntentFailed(amount);
    }

    /** The two payment buttons of step 3: `setPaymentMethod('card')` and
        `setPaymentMethod('paypal')`. */
    method SelectPaymentMethod(via: PaymentMethod)
      modifies this`paymentMethod
      ensures paymentMethod == via
    {
      paymentMethod := via;
    }

    /** `handleFinalSubmit`: nothing without a signed-in user, else the
        reservation body, always `pending`. */
    method FinalSubmit(userId: Option<string>, confirmedPaymentId: Option<string>) returns (body: Option<ReservationRequest>)
      ensures userId.None? <==> body.None?
      ensures body.Some? ==> body.value == ReservationRequest(userId.value, space.id, startDate, endDate, qty,
                                                             Photos(items), Pending,
                                                             Some(Payment(paymentMethod, PaymentIntentId(confirmedPaymentId),
                                                                          PaymentStatusFor(confirmedPaymentId))))
    {
      if userId.None? {
        return None;
      }
      var itemPhotos := Photos(items);
      var status := if confirmedPaymentId.Some? && confirmedPaymentId.value != "" then RequiresCapture else PendingApproval;
      var intentId := if confirmedPaymentId.Some? && confirmedPaymentId.value != "" then confirmedPaymentId.value else "paypal_mock_id";
      body := Some(ReservationRequest(userId.value, space.id, startDate, endDate, qty, itemPhotos, Pending,
                                      Some(Payment(paymentMethod, intentId, status))));
    }

    /** The "Pagar con PayPal" button, shown once PayPal is the selected
        method: `handleFinalSubmit("paypal_mock_id")`, so the body carries
        the mock intent id and is held for capture like a card payment. */
    method PayWithPayPal(userId: Option<string>) returns (body: Option<ReservationRequest>)
      requires paymentMethod == PayPal
      ensures userId.None? <==> body.None?
      ensures body.Some? ==> body.value.payment == Some(Payment(PayPal, "paypal_mock_id", RequiresCapture))
      ensures body.Some? ==> body.value.userId == userId.value && body.value.spaceId == space.id
                             && body.value.qty == qty && body.value.status == Pending
    {
      body := FinalSubmit(userId, Some("paypal_mock_id"));
    }
  }

  /** After the clamp effect, with both dates set, no quantity exceeds the
      availability, and an already admissible selection is left alone. */
  lemma ClampRespectsAvailability(q: Tiers, avail: Tiers)
    ensures Clamp(q, avail).AtMost(avail)
    ensures Clamp(Clamp(q, avail), avail) == Clamp(q, avail)
  {
  }

  /** What the modal lets through: after the clamp on a valid range, a
      selection that passes `handleNext` is within availability, hence within
      capacity, and turns into exactly `small + medium + large` slots. */
  lemma ProceedingSelectionFits(cap: Tiers, rs: seq<Reservation>, s: Day, e: Day, q: Tiers, minDays: Option<int>)
    requires cap.NonNegative() && q.NonNegative() && s <= e
    ensures var avail := ClientAvailability(cap, rs, Some(s), Some(e));
            var c := Clamp(q, avail);
            && c.AtMost(avail) && c.AtMost(cap) && c.NonNegative()
            && (NextVerdict(true, minDays, Some(s), Some(e), c) == Proceed ==> |Slots(c)| == c.small + c.medium + c.large > 0)
  {
    var avail := ClientAvailability(cap, rs, Some(s), Some(e));
    ClientAvailabilityBounds(cap, rs, Some(s), Some(e));
    SlotsShape(Clamp(q, avail));
  }
}
