/** The date-range capacity engine shared, almost verbatim, by the search
    endpoint and the two booking pages: enumerate the days of the requested
    range, sum per tier the quantities of the reservations active on each day,
    keep the peak daily sum, and report capacity minus peak. */
module Engine {
  import opened Basics
  import opened Domain

  /** The inclusive run of days from `s` to `e`; empty when `s > e`. */
  function DaysFrom(s: Day, e: Day): seq<Day>
  {
    seq(if s <= e then e - s + 1 else 0, i => s + i)
  }

  /** `getDates` / `getDatesInRange`: push `dt` and step one day while `dt <= end`. */
  method GetDates(s: Day, e: Day) returns (days: seq<Day>)
    ensures days == DaysFrom(s, e)
  {
    days := [];
    var dt := s;
    while dt <= e
      invariant s <= dt
      invariant s <= e ==> dt <= e + 1
      invariant s > e ==> dt == s
      invariant days == DaysFrom(s, dt - 1)
    {
      days := days + [dt];
      dt := dt + 1;
    }
  }

  /** The enumeration holds exactly the days of the range, strictly increasing. */
  lemma DaysFromFacts(s: Day, e: Day)
    ensures |DaysFrom(s, e)| == if s <= e then e - s + 1 else 0
    ensures forall d :: d in DaysFrom(s, e) <==> s <= d <= e
    ensures forall i, j :: 0 <= i < j < |DaysFrom(s, e)| ==> DaysFrom(s, e)[i] < DaysFrom(s, e)[j]
  {
    var days := DaysFrom(s, e);
    forall d | s <= d <= e
      ensures d in days
    {
      assert days[d - s] == d;
    }
  }

  /** A reservation is active on `d` when its inclusive range contains `d`. */
  predicate Active(r: Reservation, d: Day)
  {
    r.startDate <= d <= r.endDate
  }

  /** What reservation `r` adds to the usage of tier `t` on day `d`. */
  function Contribution(r: Reservation, d: Day, t: Tier): int
  {
    if Active(r, d) then Quantities(r).Get(t) else 0
  }

  /** The sum, over the reservations active on `d`, of their tier-`t` quantity. */
  function Usage(rs: seq<Reservation>, d: Day, t: Tier): int
  {
    if rs == [] then 0
    else Usage(rs[..|rs| - 1], d, t) + Contribution(rs[|rs| - 1], d, t)
  }

  /** The largest tier-`t` usage of any day of `days`, starting from 0. */
  function PeakOf(rs: seq<Reservation>, days: seq<Day>, t: Tier): int
  {
    if days == [] then 0
    else Max(PeakOf(rs, days[..|days| - 1], t), Usage(rs, days[|days| - 1], t))
  }

  function DailyUsage(rs: seq<Reservation>, d: Day): Tiers
  {
    Tiers(Usage(rs, d, Small), Usage(rs, d, Medium), Usage(rs, d, Large))
  }

  function Peak(rs: seq<Reservation>, days: seq<Day>): Tiers
  {
    Tiers(PeakOf(rs, days, Small), PeakOf(rs, days, Medium), PeakOf(rs, days, Large))
  }

  /** The nested day/reservation loops that keep the `maxUsage*` counters. */
  method PeakUsage(rs: seq<Reservation>, days: seq<Day>) returns (peak: Tiers)
    ensures peak == Peak(rs, days)
  {
    var maxSmall, maxMedium, maxLarge := 0, 0, 0;
    for i := 0 to |days|
      invariant maxSmall == PeakOf(rs, days[..i], Small)
      invariant maxMedium == PeakOf(rs, days[..i], Medium)
      invariant maxLarge == PeakOf(rs, days[..i], Large)
    {
      var day := days[i];
      var daySmall, dayMedium, dayLarge := 0, 0, 0;
      for j := 0 to |rs|
        invariant daySmall == Usage(rs[..j], day, Small)
        invariant dayMedium == Usage(rs[..j], day, Medium)
        invariant dayLarge == Usage(rs[..j], day, Large)
      {
        var r := rs[j];
        if day >= r.startDate && day <= r.endDate {
          daySmall := daySmall + OrZero(r.qtySmall);
          dayMedium := dayMedium + OrZero(r.qtyMedium);
          dayLarge := dayLarge + OrZero(r.qtyLarge);
        }
        assert rs[..j + 1][..j] == rs[..j];
      }
      assert rs[..|rs|] == rs;
      if daySmall > maxSmall { maxSmall := daySmall; }
      if dayMedium > maxMedium { maxMedium := dayMedium; }
      if dayLarge > maxLarge { maxLarge := dayLarge; }
      assert days[..i + 1][..i] == days[..i];
    }
    assert days[..|days|] == days;
    peak := Tiers(maxSmall, maxMedium, maxLarge);
  }

  /** `capacity - used` per tier, unclamped (the search endpoint). */
  function Remaining(cap: Tiers, used: Tiers): Tiers
  {
    Tiers(cap.small - used.small, cap.medium - used.medium, cap.large - used.large)
  }

  /** `Math.max(0, capacity - used)` per tier (the booking pages). */
  function ClampedRemaining(cap: Tiers, used: Tiers): Tiers
  {
    Tiers(Max(0, cap.small - used.small), Max(0, cap.medium - used.medium), Max(0, cap.large - used.large))
  }

  /** `getAvailability` of the booking pages: zero on every tier when a date
      is missing or the range is inverted, else capacity minus peak, clamped. */
  function ClientAvailability(cap: Tiers, rs: seq<Reservation>, start: Option<Day>, end: Option<Day>): Tiers
  {
    if start.None? || end.None? || start.value > end.value then Zero
    else ClampedRemaining(cap, Peak(rs, DaysFrom(start.value, end.value)))
  }

  method ComputeClientAvailability(cap: Tiers, rs: seq<Reservation>, start: Option<Day>, end: Option<Day>)
    returns (avail: Tiers)
    ensures avail == ClientAvailability(cap, rs, start, end)
  {
    if start.None? || end.None? {
      return Zero;
    }
    if start.value > end.value {
      return Zero;
    }
    var rangeDates := GetDates(start.value, end.value);
    var peak := PeakUsage(rs, rangeDates);
    avail := Tiers(Max(0, cap.small - peak.small), Max(0, cap.medium - peak.medium), Max(0, cap.large - peak.large));
  }

  // ---------------------------------------------------------------------
  // What the peak is

  lemma {:induction false} PeakNonNegative(rs: seq<Reservation>, days: seq<Day>, t: Tier)
    ensures PeakOf(rs, days, t) >= 0
  {
    if days != [] {
      PeakNonNegative(rs, days[..|days| - 1], t);
    }
  }

  /** No day of the range uses more than the peak. */
  lemma {:induction false} PeakDominatesEveryDay(rs: seq<Reservation>, days: seq<Day>, d: Day, t: Tier)
    requires d in days
    ensures Usage(rs, d, t) <= PeakOf(rs, days, t)
  {
    var init := days[..|days| - 1];
    if d != days[|days| - 1] {
      assert days == init + [days[|days| - 1]];
      PeakDominatesEveryDay(rs, init, d, t);
    }
  }

  /** The peak is 0 or the usage of some day of the range: it is a maximum
      over days, not a sum. */
  lemma {:induction false} PeakIsAttained(rs: seq<Reservation>, days: seq<Day>, t: Tier)
    ensures PeakOf(rs, days, t) == 0
         || exists d :: d in days && Usage(rs, d, t) == PeakOf(rs, days, t)
  {
    if days != [] {
      var init := days[..|days| - 1];
      var last := days[|days| - 1];
      assert days == init + [last];
      PeakIsAttained(rs, init, t);
      assert days[..|days| - 1] == init;
      assert PeakOf(rs, days, t) == Max(PeakOf(rs, init, t), Usage(rs, last, t));
      if PeakOf(rs, days, t) == Usage(rs, last, t) {
        assert last in days;
      } else if PeakOf(rs, init, t) != 0 {
        var d :| d in init && Usage(rs, d, t) == PeakOf(rs, init, t);
        assert d in days;
      }
    }
  }

  lemma {:induction false} PeakWithoutReservations(days: seq<Day>, t: Tier)
    ensures PeakOf([], days, t) == 0
  {
    if days != [] {
      PeakWithoutReservations(days[..|days| - 1], t);
    }
  }

  /** Ranges whose days have equal usage have equal peaks. */
  lemma {:induction false} PeakDependsOnUsage(a: seq<Reservation>, b: seq<Reservation>, days: seq<Day>, t: Tier)
    requires forall d :: d in days ==> Usage(a, d, t) == Usage(b, d, t)
    ensures PeakOf(a, days, t) == PeakOf(b, days, t)
  {
    if days != [] {
      assert days == days[..|days| - 1] + [days[|days| - 1]];
      PeakDependsOnUsage(a, b, days[..|days| - 1], t);
    }
  }

  /** Dropping reservations that are not active on `d` leaves its usage unchanged. */
  lemma {:induction false} FilterKeepsUsage(rs: seq<Reservation>, p: Reservation -> bool, d: Day, t: Tier)
    requires forall r :: r in rs && !p(r) ==> !Active(r, d)
    ensures Usage(Filter(rs, p), d, t) == Usage(rs, d, t)
  {
    if rs != [] {
      var init := rs[..|rs| - 1];
      var r := rs[|rs| - 1];
      assert rs == init + [r];
      FilterKeepsUsage(init, p, d, t);
      var fi := Filter(init, p);
      if p(r) {
        assert Filter(rs, p) == fi + [r];
        assert (fi + [r])[..|fi|] == fi;
      } else {
        assert Filter(rs, p) == fi;
      }
    }
  }

  /** Two reservations never active on the same day of the range count by
      their individual peaks, never by their sum. */
  lemma {:induction false} DisjointReservationsPeak(a: Reservation, b: Reservation, days: seq<Day>, t: Tier)
    requires forall d :: d in days ==> !(Active(a, d) && Active(b, d))
    ensures PeakOf([a, b], days, t) == Max(PeakOf([a], days, t), PeakOf([b], days, t))
  {
    if days != [] {
      var init := days[..|days| - 1];
      var d := days[|days| - 1];
      assert days == init + [d];
      DisjointReservationsPeak(a, b, init, t);
      PeakNonNegative([a], init, t);
      PeakNonNegative([b], init, t);
      assert [a, b][..1] == [a];
      assert [a][..0] == [] && [b][..0] == [];
      assert Usage([a], d, t) == Contribution(a, d, t);
      assert Usage([b], d, t) == Contribution(b, d, t);
      assert Usage([a, b], d, t) == Contribution(a, d, t) + Contribution(b, d, t);
    }
  }

  /** A further reservation with non-negative quantities never lowers the peak. */
  lemma {:induction false} AddingReservationRaisesPeak(rs: seq<Reservation>, r: Reservation, days: seq<Day>, t: Tier)
    requires Quantities(r).NonNegative()
    ensures PeakOf(rs, days, t) <= PeakOf(rs + [r], days, t)
  {
    if days != [] {
      AddingReservationRaisesPeak(rs, r, days[..|days| - 1], t);
      assert (rs + [r])[..|rs|] == rs;
    }
  }

  // ---------------------------------------------------------------------
  // What the booking pages report

  /** With a non-negative capacity, each tier's availability lies in [0, capacity]. */
  lemma ClientAvailabilityBounds(cap: Tiers, rs: seq<Reservation>, start: Option<Day>, end: Option<Day>)
    requires cap.NonNegative()
    ensures Zero.AtMost(ClientAvailability(cap, rs, start, end))
    ensures ClientAvailability(cap, rs, start, end).AtMost(cap)
  {
    if start.Some? && end.Some? && start.value <= end.value {
      var days := DaysFrom(start.value, end.value);
      PeakNonNegative(rs, days, Small);
      PeakNonNegative(rs, days, Medium);
      PeakNonNegative(rs, days, Large);
    }
  }

  /** With no reservations, a valid range offers the whole capacity. */
  lemma ClientAvailabilityWithoutReservations(cap: Tiers, s: Day, e: Day)
    requires cap.NonNegative() && s <= e
    ensures ClientAvailability(cap, [], Some(s), Some(e)) == cap
  {
    var days := DaysFrom(s, e);
    PeakWithoutReservations(days, Small);
    PeakWithoutReservations(days, Medium);
    PeakWithoutReservations(days, Large);
  }

  /** Each tier of a valid range's availability is `max(0, capacity - p)`
      where `p` is the usage of the busiest day of the range (or 0). */
  lemma ClientAvailabilityIsBusiestDay(cap: Tiers, rs: seq<Reservation>, s: Day, e: Day, t: Tier)
    requires s <= e
    ensures var p := PeakOf(rs, DaysFrom(s, e), t);
            && ClientAvailability(cap, rs, Some(s), Some(e)).Get(t) == Max(0, cap.Get(t) - p)
            && (forall d :: s <= d <= e ==> Usage(rs, d, t) <= p)
            && (p == 0 || exists d :: s <= d <= e && Usage(rs, d, t) == p)
  {
    var days := DaysFrom(s, e);
    DaysFromFacts(s, e);
    forall d | s <= d <= e
      ensures Usage(rs, d, t) <= PeakOf(rs, days, t)
    {
      PeakDominatesEveryDay(rs, days, d, t);
    }
    PeakIsAttained(rs, days, t);
  }

  /** Another reservation with non-negative quantities never raises availability. */
  lemma ClientAvailabilityAntitone(cap: Tiers, rs: seq<Reservation>, r: Reservation, start: Option<Day>, end: Option<Day>)
    requires Quantities(r).NonNegative()
    ensures ClientAvailability(cap, rs + [r], start, end).AtMost(ClientAvailability(cap, rs, start, end))
  {
    if start.Some? && end.Some? && start.value <= end.value {
      var days := DaysFrom(start.value, end.value);
      AddingReservationRaisesPeak(rs, r, days, Small);
      AddingReservationRaisesPeak(rs, r, days, Medium);
      AddingReservationRaisesPeak(rs, r, days, Large);
    }
  }
  // ---------------------------------------------------------------------
  // Which reservations the booking pages see

  /** `get-space-reservations`: a row is handed to the booking pages when it
      belongs to the space, is not rejected and ends today or later. */
  predicate ClientLive(r: Reservation, id: string, today: Day)
  {
    r.spaceId == id && r.endDate >= today && r.status != Rejected
  }

  function ClientLiveFilter(id: string, today: Day): Reservation -> bool
  {
    (r: Reservation) => ClientLive(r, id, today)
  }

  /** The same rows without the `end_date >= today` condition. */
  function NotRejectedOf(id: string): Reservation -> bool
  {
    (r: Reservation) => r.spaceId == id && r.status != Rejected
  }

  /** The reservation list a booking page works on. */
  function ClientFeed(rows: seq<Reservation>, id: string, today: Day): seq<Reservation>
  {
    Filter(rows, ClientLiveFilter(id, today))
  }

  /** For a range that starts today or later, dropping the reservations that
      ended before today changes no availability. */
  lemma ClientFeedHarmlessForFutureRanges(cap: Tiers, rows: seq<Reservation>, id: string, today: Day, s: Day, e: Day)
    requires today <= s
    ensures ClientAvailability(cap, ClientFeed(rows, id, today), Some(s), Some(e))
         == ClientAvailability(cap, Filter(rows, NotRejectedOf(id)), Some(s), Some(e))
  {
    var live := Filter(rows, NotRejectedOf(id));
    var feed := ClientFeed(rows, id, today);
    FilterStronger(rows, ClientLiveFilter(id, today), NotRejectedOf(id));
    assert feed == Filter(live, ClientLiveFilter(id, today));
    if s <= e {
      var days := DaysFrom(s, e);
      DaysFromFacts(s, e);
      forall t, d | d in days
        ensures Usage(feed, d, t) == Usage(live, d, t)
      {
        forall r | r in live && !ClientLiveFilter(id, today)(r)
          ensures !Active(r, d)
        {
          FilterMembership(rows, NotRejectedOf(id), r);
        }
        FilterKeepsUsage(live, ClientLiveFilter(id, today), d, t);
      }
      forall t ensures PeakOf(feed, days, t) == PeakOf(live, days, t)
      {
        PeakDependsOnUsage(feed, live, days, t);
      }
    }
  }

  /** A rejected reservation never reaches the booking pages. */
  lemma RejectedNeverInClientFeed(rows: seq<Reservation>, id: string, today: Day, r: Reservation)
    requires r.status == Rejected
    ensures r !in ClientFeed(rows, id, today)
  {
    FilterMembership(rows, ClientLiveFilter(id, today), r);
  }
}
