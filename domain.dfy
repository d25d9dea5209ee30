/** The records the marketplace stores and passes around: spaces with a
    per-tier capacity and daily price, reservations with an inclusive date
    range and per-tier quantities, and the item classifier's answer.

    Calendar days are day ordinals (`Day`): the source compares fixed-width
    `YYYY-MM-DD` strings, whose lexicographic order is the chronological one
    (module `IsoDates` proves this for the strings the calendar builds). */
module Domain {
  import opened Basics

  type Day = int

  datatype Tier = Small | Medium | Large

  /** One integer per size tier, as the source's `{ small, medium, large }`. */
  datatype Tiers = Tiers(small: int, medium: int, large: int)
  {
    function Get(t: Tier): int
    {
      match t
      case Small => small
      case Medium => medium
      case Large => large
    }

    function Plus(o: Tiers): Tiers
    {
      Tiers(small + o.small, medium + o.medium, large + o.large)
    }

    /** Tier-wise maximum. */
    function Join(o: Tiers): Tiers
    {
      Tiers(Max(small, o.small), Max(medium, o.medium), Max(large, o.large))
    }

    /** Tier-wise `<=`. */
    predicate AtMost(o: Tiers)
    {
      small <= o.small && medium <= o.medium && large <= o.large
    }

    predicate NonNegative()
    {
      0 <= small && 0 <= medium && 0 <= large
    }

    predicate IsZero()
    {
      small == 0 && medium == 0 && large == 0
    }
  }

  const Zero: Tiers := Tiers(0, 0, 0)

  /** Tier-wise `<=` is `<=` on every tier. */
  lemma AtMostPerTier(a: Tiers, b: Tiers)
    ensures a.AtMost(b) <==> forall t :: a.Get(t) <= b.Get(t)
  {
    if forall t :: a.Get(t) <= b.Get(t) {
      assert a.Get(Small) <= b.Get(Small);
      assert a.Get(Medium) <= b.Get(Medium);
      assert a.Get(Large) <= b.Get(Large);
    }
  }

  datatype Status = Pending | Approved | Rejected

  /** A reservation row; the quantity columns may be NULL. */
  datatype Reservation = Reservation(
    spaceId: string,
    startDate: Day,
    endDate: Day,
    qtySmall: Option<int>,
    qtyMedium: Option<int>,
    qtyLarge: Option<int>,
    status: Status)

  /** The reservation's per-tier quantities, `qty_* || 0`. */
  function Quantities(r: Reservation): Tiers
  {
    Tiers(OrZero(r.qtySmall), OrZero(r.qtyMedium), OrZero(r.qtyLarge))
  }

  /** A space row; numeric columns may be NULL, `min_days` is optional. */
  datatype Space = Space(
    id: string,
    name: string,
    capacitySmall: Option<int>,
    capacityMedium: Option<int>,
    capacityLarge: Option<int>,
    priceSmall: Option<real>,
    priceMedium: Option<real>,
    priceLarge: Option<real>,
    minDays: Option<int>)

  /** The space's per-tier capacity, `capacity_* || 0`. */
  function Capacity(s: Space): Tiers
  {
    Tiers(OrZero(s.capacitySmall), OrZero(s.capacityMedium), OrZero(s.capacityLarge))
  }

  /** Daily unit price per tier. */
  datatype Prices = Prices(small: real, medium: real, large: real)

  /** The space's daily unit prices, `price_* || 0`. */
  function UnitPrices(s: Space): Prices
  {
    Prices(OrZeroReal(s.priceSmall), OrZeroReal(s.priceMedium), OrZeroReal(s.priceLarge))
  }

  /** One field of the item classifier's parsed JSON answer: left out
      (`undefined`), `null`, or a number. */
  datatype Count = Undefined | Null | Num(n: int)

  /** `c || 0`: `undefined` and `null` are both falsy. */
  function CountOrZero(c: Count): int
  {
    if c.Num? then c.n else 0
  }

  /** The item classifier's answer `{ small, medium, large }`. */
  datatype Requirements = Requirements(small: Count, medium: Count, large: Count)

  datatype PaymentMethod = Card | PayPal

  /** The payment sub-state of a reservation. */
  datatype PaymentStatus = PendingApproval | RequiresCapture | Paid

  datatype Payment = Payment(via: PaymentMethod, intentId: string, status: PaymentStatus)

  /** The body posted to `create-reservation`; the verification page sends
      no payment fields. */
  datatype ReservationRequest = ReservationRequest(
    userId: string,
    spaceId: string,
    startDate: Option<Day>,
    endDate: Option<Day>,
    qty: Tiers,
    itemPhotos: seq<string>,
    status: Status,
    payment: Option<Payment>)
}
