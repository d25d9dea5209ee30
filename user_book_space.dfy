/** The book-space page: it loads one space and its live reservations,
    bounds the quantity selectors by the same availability computation as
    the modal, and hands the selection to the verification page. */
module UserBookSpacePage {
  import opened Basics
  import opened Domain
  import opened Engine
  import opened Pricing
  import BookingModalPage
  import opened UserVerifyItemsPage

  /** Each selected quantity that exceeds the availability dropped to 0;
      the others are kept. */
  function ResetOver(q: Tiers, avail: Tiers): (r: Tiers)
    ensures forall t :: q.Get(t) <= avail.Get(t) ==> r.Get(t) == q.Get(t)
    ensures forall t :: q.Get(t) > avail.Get(t) ==> r.Get(t) == 0
    ensures avail.NonNegative() ==> r.AtMost(avail)
  {
    Tiers(if q.small > avail.small then 0 else q.small,
          if q.medium > avail.medium then 0 else q.medium,
          if q.large > avail.large then 0 else q.large)
  }

  datatype ReserveOutcome = NoSpace | MustLogIn | DatesMissing | NothingSelected | ToVerification(state: VerificationState)

  class UserBookSpace {
    var space: Option<Space>
    var reservations: seq<Reservation>
    var startDate: Option<Day>
    var endDate: Option<Day>
    var qty: Tiers
    /** Set when the dates come from the search page; the date inputs are then disabled. */
    var datesLocked: bool

    constructor ()
      ensures space.None? && reservations == [] && startDate.None? && endDate.None?
      ensures qty == Zero && !datesLocked
    {
      space := None;
      reservations := [];
      startDate := None;
      endDate := None;
      qty := Zero;
      datesLocked := false;
    }

    /** `getAvailability()`: nothing until the space is loaded. */
    function Availability(): (r: Tiers)
      reads this
      ensures space.None? ==> r == Zero
    {
      if space.None? then Zero else ClientAvailability(Capacity(space.value), reservations, startDate, endDate)
    }

    /** `calculateTotal()`: 0 until the space is loaded. */
    function TotalPrice(): (r: real)
      reads this
      ensures space.None? ==> r == 0.0
    {
      if space.None? then 0.0 else BookingTotal(qty, UnitPrices(space.value), startDate, endDate)
    }

    /** The two fetches of the mount effect; each is kept only when `ok`. */
    method Load(fetchedSpace: Option<Space>, fetchedReservations: Option<seq<Reservation>>)
      modifies this`space, this`reservations
      ensures space == if fetchedSpace.Some? then fetchedSpace else old(space)
      ensures reservations == if fetchedReservations.Some? then fetchedReservations.value else old(reservations)
    {
      if fetchedSpace.Some? {
        space := fetchedSpace;
      }
      if fetchedReservations.Some? {
        reservations := fetchedReservations.value;
      }
    }

    /** The initial-date effect: `start` and `end` query parameters both
        present become the dates and lock them; otherwise, when no date is
        set yet, today and tomorrow. */
    method InitDates(queryStart: Option<Day>, queryEnd: Option<Day>, today: Day)
      modifies this`startDate, this`endDate, this`datesLocked
      ensures queryStart.Some? && queryEnd.Some? ==>
                startDate == queryStart && endDate == queryEnd && datesLocked
      ensures !(queryStart.Some? && queryEnd.Some?) && old(startDate).None? && old(endDate).None? ==>
                startDate == Some(today) && endDate == Some(today + 1) && datesLocked == old(datesLocked)
      ensures !(queryStart.Some? && queryEnd.Some?) && !(old(startDate).None? && old(endDate).None?) ==>
                startDate == old(startDate) && endDate == old(endDate) && datesLocked == old(datesLocked)
    {
      if queryStart.Some? && queryEnd.Some? {
        startDate := queryStart;
        endDate := queryEnd;
        datesLocked := true;
      } else if startDate.None? && endDate.None? {
        startDate := Some(today);
        endDate := Some(today + 1);
      }
    }

    /** The effect run on a date change: a quantity above the availability
        goes back to 0. */
    method ResetQuantities()
      modifies this`qty
      ensures qty == ResetOver(old(qty), Availability())
    {
      var availability := Availability();
      if qty.small > availability.small { qty := qty.(small := 0); }
      if qty.medium > availability.medium { qty := qty.(medium := 0); }
      if qty.large > availability.large { qty := qty.(large := 0); }
    }

    /** `handleReserve`: no minimum-stay check and no check of the order of
        the dates; with a space, a user, both dates and some item, it hands
        the selection to the verification page. */
    method HandleReserve(userId: Option<string>) returns (outcome: ReserveOutcome)
      ensures space.None? ==> outcome == NoSpace
      ensures space.Some? && userId.None? ==> outcome == MustLogIn
      ensures space.Some? && userId.Some? && (startDate.None? || endDate.None?) ==> outcome == DatesMissing
      ensures space.Some? && userId.Some? && startDate.Some? && endDate.Some? && qty.IsZero() ==> outcome == NothingSelected
      ensures outcome.ToVerification? <==> space.Some? && userId.Some? && startDate.Some? && endDate.Some? && !qty.IsZero()
      ensures outcome.ToVerification? ==>
                outcome.state == VerificationState(userId.value, space.value.id, space.value.name,
                                                   startDate.value, endDate.value, qty)
    {
      if space.None? {
        return NoSpace;
      }
      if userId.None? {
        return MustLogIn;
      }
      if startDate.None? || endDate.None? {
        return DatesMissing;
      }
      if qty.small == 0 && qty.medium == 0 && qty.large == 0 {
        return NothingSelected;
      }
      var s := space.value;
      return ToVerification(VerificationState(userId.value, s.id, s.name, startDate.value, endDate.value, qty));
    }
  }

  /** The page resets what the modal clamps: a selection above a non-zero
      availability keeps that availability in the modal and drops to 0 here. */
  lemma ResetVersusClamp(q: Tiers, avail: Tiers, t: Tier)
    requires q.Get(t) > avail.Get(t) > 0
    ensures BookingModalPage.Clamp(q, avail).Get(t) == avail.Get(t)
    ensures ResetOver(q, avail).Get(t) == 0
  {
  }

  /** The modal refuses a one-day stay in a space with a two-day minimum,
      while `HandleReserve` above lets any non-empty selection with both
      dates through. */
  lemma MinimumStayOnlyInModal(space: Space, d: Day, q: Tiers)
    requires space.minDays == Some(2) && !q.IsZero()
    ensures BookingModalPage.NextVerdict(true, space.minDays, Some(d), Some(d), q) == BookingModalPage.BelowMinimumStay
  {
  }
}
