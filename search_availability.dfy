/** The search endpoint (`POST /api/search-availability`): it rejects a
    request without both dates, fetches every space and the reservations
    that overlap the requested window, and keeps the spaces whose capacity
    minus the peak daily usage, left unclamped, meets the requested
    quantity on every tier. */
module SearchAvailability {
  import opened Basics
  import opened Domain
  import opened Engine

  /** The JSON body; a missing or empty date is `None`. */
  datatype Request = Request(
    startDate: Option<Day>,
    endDate: Option<Day>,
    reqSmall: Option<int>,
    reqMedium: Option<int>,
    reqLarge: Option<int>)

  /** `{ ok: false, error: "Missing dates" }` (status 400) or `{ ok: true, spaces }`. */
  datatype Response = MissingDates | Found(spaces: seq<Space>)

  /** The requested quantities, `req_* || 0`. */
  function Requested(req: Request): Tiers
  {
    Tiers(OrZero(req.reqSmall), OrZero(req.reqMedium), OrZero(req.reqLarge))
  }

  /** The SQL condition `start_date <= end AND end_date >= start`; the
      reservation's status is not looked at. */
  predicate OverlapsWindow(r: Reservation, s: Day, e: Day)
  {
    r.startDate <= e && r.endDate >= s
  }

  function OverlapFilter(s: Day, e: Day): Reservation -> bool
  {
    (r: Reservation) => OverlapsWindow(r, s, e)
  }

  /** The rows the overlap query returns. */
  function OverlapQuery(rows: seq<Reservation>, s: Day, e: Day): seq<Reservation>
  {
    Filter(rows, OverlapFilter(s, e))
  }

  function OfSpace(id: string): Reservation -> bool
  {
    (r: Reservation) => r.spaceId == id
  }

  /** `reservations.filter(r => r.space_id === space.id)`. */
  function ReservationsOf(rs: seq<Reservation>, id: string): seq<Reservation>
  {
    Filter(rs, OfSpace(id))
  }

  /** Capacity minus the peak usage of the space's own reservations over
      `days`, per tier, without clamping. */
  function Available(space: Space, rs: seq<Reservation>, days: seq<Day>): Tiers
  {
    Remaining(Capacity(space), Peak(ReservationsOf(rs, space.id), days))
  }

  predicate Fits(space: Space, rs: seq<Reservation>, days: seq<Day>, want: Tiers)
  {
    want.AtMost(Available(space, rs, days))
  }

  function FitsFor(rs: seq<Reservation>, days: seq<Day>, want: Tiers): Space -> bool
  {
    (space: Space) => Fits(space, rs, days, want)
  }

  /** What the endpoint answers for `req` when the database holds `spaces`
      and the reservation rows `rows`. */
  function Search(req: Request, spaces: seq<Space>, rows: seq<Reservation>): (resp: Response)
    ensures resp.MissingDates? <==> req.startDate.None? || req.endDate.None?
    ensures resp.Found? ==> |resp.spaces| <= |spaces|
  {
    if req.startDate.None? || req.endDate.None? then MissingDates
    else
      var s, e := req.startDate.value, req.endDate.value;
      Found(Filter(spaces, FitsFor(OverlapQuery(rows, s, e), DaysFrom(s, e), Requested(req))))
  }

  /** The body of the `spaces.filter` callback: the nested day/reservation
      loops and the comparison of the unclamped remainder with the request. */
  method SpaceFits(space: Space, reservations: seq<Reservation>, searchDates: seq<Day>, want: Tiers)
    returns (ok: bool)
    ensures ok <==> forall t :: want.Get(t) <= Capacity(space).Get(t) - PeakOf(ReservationsOf(reservations, space.id), searchDates, t)
  {
    var spaceRes := ReservationsOf(reservations, space.id);
    var used := PeakUsage(spaceRes, searchDates);
    var cap := Capacity(space);
    var availableSmall := cap.small - used.small;
    var availableMedium := cap.medium - used.medium;
    var availableLarge := cap.large - used.large;
    ok := availableSmall >= want.small && availableMedium >= want.medium && availableLarge >= want.large;
    if !ok {
      if availableSmall < want.small {
        assert want.Get(Small) > cap.Get(Small) - PeakOf(spaceRes, searchDates, Small);
      } else if availableMedium < want.medium {
        assert want.Get(Medium) > cap.Get(Medium) - PeakOf(spaceRes, searchDates, Medium);
      } else {
        assert want.Get(Large) > cap.Get(Large) - PeakOf(spaceRes, searchDates, Large);
      }
    }
  }

  /** The handler, with the two database queries given as their results. */
  method OnRequestPost(req: Request, spaces: seq<Space>, rows: seq<Reservation>) returns (resp: Response)
    ensures resp == Search(req, spaces, rows)
  {
    if req.startDate.None? || req.endDate.None? {
      return MissingDates;
    }
    var s, e := req.startDate.value, req.endDate.value;
    var reservations := OverlapQuery(rows, s, e);
    var searchDates := GetDates(s, e);
    var want := Requested(req);
    var availableSpaces: seq<Space> := [];
    for i := 0 to |spaces|
      invariant availableSpaces == Filter(spaces[..i], FitsFor(reservations, searchDates, want))
    {
      var ok := SpaceFits(spaces[i], reservations, searchDates, want);
      AtMostPerTier(want, Available(spaces[i], reservations, searchDates));
      if ok {
        availableSpaces := availableSpaces + [spaces[i]];
      }
      assert spaces[..i + 1][..i] == spaces[..i];
    }
    assert spaces[..|spaces|] == spaces;
    return Found(availableSpaces);
  }

  // ---------------------------------------------------------------------
  // Which spaces come back

  /** A space comes back iff it is listed and, on every tier, its capacity
      minus the busiest day's usage by its own reservations is at least the
      requested quantity (`req_* || 0`). */
  lemma {:induction false} SearchMembership(req: Request, spaces: seq<Space>, rows: seq<Reservation>, x: Space)
    requires req.startDate.Some? && req.endDate.Some?
    ensures var s, e := req.startDate.value, req.endDate.value;
            x in Search(req, spaces, rows).spaces <==>
              x in spaces &&
              forall t :: Requested(req).Get(t) <= Capacity(x).Get(t) - PeakOf(ReservationsOf(OverlapQuery(rows, s, e), x.id), DaysFrom(s, e), t)
  {
    var s, e := req.startDate.value, req.endDate.value;
    var rs, days, want := OverlapQuery(rows, s, e), DaysFrom(s, e), Requested(req);
    var avail := Available(x, rs, days);
    assert Search(req, spaces, rows).spaces == Filter(spaces, FitsFor(rs, days, want));
    FilterMembership(spaces, FitsFor(rs, days, want), x);
    assert FitsFor(rs, days, want)(x) == want.AtMost(avail);
    AtMostPerTier(want, avail);
    forall t ensures avail.Get(t) == Capacity(x).Get(t) - PeakOf(ReservationsOf(rs, x.id), days, t) {
    }
  }

  /** The result lists a subsequence of the spaces, in their order. */
  lemma SearchKeepsOrder(req: Request, spaces: seq<Space>, rows: seq<Reservation>)
    requires req.startDate.Some? && req.endDate.Some?
    ensures IsSubsequence(Search(req, spaces, rows).spaces, spaces)
  {
    var s, e := req.startDate.value, req.endDate.value;
    FilterIsSubsequence(spaces, FitsFor(OverlapQuery(rows, s, e), DaysFrom(s, e), Requested(req)));
  }

  /** Lowering any requested quantity (same dates) keeps every space that
      came back, in order: the result can only grow. */
  lemma SearchMonotone(req: Request, lower: Request, spaces: seq<Space>, rows: seq<Reservation>)
    requires req.startDate.Some? && req.endDate.Some?
    requires lower.startDate == req.startDate && lower.endDate == req.endDate
    requires Requested(lower).AtMost(Requested(req))
    ensures IsSubsequence(Search(req, spaces, rows).spaces, Search(lower, spaces, rows).spaces)
  {
    var s, e := req.startDate.value, req.endDate.value;
    var rs, days := OverlapQuery(rows, s, e), DaysFrom(s, e);
    var p, q := FitsFor(rs, days, Requested(req)), FitsFor(rs, days, Requested(lower));
    FilterStronger(spaces, p, q);
    FilterIsSubsequence(Filter(spaces, q), p);
  }

  /** The difference is not clamped: a space whose own reservations already
      exceed its capacity on some tier is left out even when nothing of that
      tier is requested. */
  lemma OverCommittedExcluded(req: Request, spaces: seq<Space>, rows: seq<Reservation>, x: Space, t: Tier)
    requires req.startDate.Some? && req.endDate.Some?
    requires Requested(req).NonNegative()
    requires PeakOf(ReservationsOf(OverlapQuery(rows, req.startDate.value, req.endDate.value), x.id),
                    DaysFrom(req.startDate.value, req.endDate.value), t) > Capacity(x).Get(t)
    ensures x !in Search(req, spaces, rows).spaces
  {
    SearchMembership(req, spaces, rows, x);
  }

  /** An inverted range enumerates no day, so the peak is 0 and a space
      comes back iff its raw capacity covers the request on every tier. */
  lemma InvertedRangeUsesRawCapacity(req: Request, spaces: seq<Space>, rows: seq<Reservation>, x: Space)
    requires req.startDate.Some? && req.endDate.Some? && req.startDate.value > req.endDate.value
    ensures x in Search(req, spaces, rows).spaces <==> x in spaces && Requested(req).AtMost(Capacity(x))
  {
    SearchMembership(req, spaces, rows, x);
    var rs := ReservationsOf(OverlapQuery(rows, req.startDate.value, req.endDate.value), x.id);
    assert DaysFrom(req.startDate.value, req.endDate.value) == [];
    AtMostPerTier(Requested(req), Capacity(x));
  }

  // ---------------------------------------------------------------------
  // Which reservations count

  /** The overlap query drops no reservation that is active on a day of
      the window. */
  lemma OverlapQueryKeepsUsage(rows: seq<Reservation>, s: Day, e: Day, d: Day, t: Tier)
    requires s <= d <= e
    ensures Usage(OverlapQuery(rows, s, e), d, t) == Usage(rows, d, t)
  {
    FilterKeepsUsage(rows, OverlapFilter(s, e), d, t);
  }

  /** So the prefilter is only an optimisation: the endpoint answers as if
      every reservation row of each space were checked. Nor does it look at
      the status, so rejected reservations still consume capacity. */
  lemma SearchSeesAllRows(req: Request, spaces: seq<Space>, rows: seq<Reservation>)
    requires req.startDate.Some? && req.endDate.Some?
    ensures var s, e := req.startDate.value, req.endDate.value;
            Search(req, spaces, rows).spaces == Filter(spaces, FitsFor(rows, DaysFrom(s, e), Requested(req)))
  {
    var s, e := req.startDate.value, req.endDate.value;
    var days := DaysFrom(s, e);
    var pre := OverlapQuery(rows, s, e);
    DaysFromFacts(s, e);
    forall i | 0 <= i < |spaces|
      ensures FitsFor(pre, days, Requested(req))(spaces[i]) == FitsFor(rows, days, Requested(req))(spaces[i])
    {
      var id := spaces[i].id;
      FilterCommute(rows, OverlapFilter(s, e), OfSpace(id));
      forall t ensures PeakOf(ReservationsOf(pre, id), days, t) == PeakOf(ReservationsOf(rows, id), days, t)
      {
        forall d | d in days
          ensures Usage(ReservationsOf(pre, id), d, t) == Usage(ReservationsOf(rows, id), d, t)
        {
          FilterKeepsUsage(ReservationsOf(rows, id), OverlapFilter(s, e), d, t);
        }
        PeakDependsOnUsage(ReservationsOf(pre, id), ReservationsOf(rows, id), days, t);
      }
    }
    FilterCongruence(spaces, FitsFor(pre, days, Requested(req)), FitsFor(rows, days, Requested(req)));
  }

  /** Reservations of other spaces never count toward a space's usage. */
  lemma {:induction false} OtherSpacesIgnored(rs: seq<Reservation>, others: seq<Reservation>, id: string)
    requires forall i :: 0 <= i < |others| ==> others[i].spaceId != id
    ensures ReservationsOf(rs + others, id) == ReservationsOf(rs, id)
  {
    FilterAppend(rs, others, OfSpace(id));
    FilterNone(others, OfSpace(id));
    assert ReservationsOf(rs + others, id) == ReservationsOf(rs, id) + [];
  }

  /** How the server relates to the booking pages on a valid range with the
      same reservations and a non-negative request: it keeps a space iff the
      request is within the pages' clamped availability AND the space is not
      already over-committed; the pages clamp an over-committed tier to 0,
      which a request of 0 still meets. */
  lemma ServerVersusClientOnValidRange(space: Space, rs: seq<Reservation>, s: Day, e: Day, want: Tiers)
    requires s <= e && want.NonNegative()
    ensures var mine := ReservationsOf(rs, space.id);
            (Fits(space, rs, DaysFrom(s, e), want)
             <==> want.AtMost(ClientAvailability(Capacity(space), mine, Some(s), Some(e)))
                  && Peak(mine, DaysFrom(s, e)).AtMost(Capacity(space)))
  {
  }

  /** Where they disagree: on an inverted range the pages offer nothing,
      while the server offers the whole capacity. */
  lemma InvertedRangeDisagreement(space: Space, rs: seq<Reservation>, s: Day, e: Day)
    requires s > e
    ensures ClientAvailability(Capacity(space), rs, Some(s), Some(e)) == Zero
    ensures Available(space, rs, DaysFrom(s, e)) == Capacity(space)
  {
    assert DaysFrom(s, e) == [];
  }

  // ---------------------------------------------------------------------
  // Which statuses count

  /** The status is never looked at: a space's only reservation, rejected
      by the owner, still hides the space when on some day of the window it
      leaves less of a tier than the request asks for. */
  lemma RejectedReservationStillBlocks(req: Request, spaces: seq<Space>, r: Reservation, others: seq<Reservation>,
                                       x: Space, d: Day, t: Tier)
    requires req.startDate.Some? && req.endDate.Some?
    requires req.startDate.value <= d <= req.endDate.value && Active(r, d)
    requires r.status == Rejected && r.spaceId == x.id
    requires forall i :: 0 <= i < |others| ==> others[i].spaceId != x.id
    requires Capacity(x).Get(t) - Quantities(r).Get(t) < Requested(req).Get(t)
    ensures x !in Search(req, spaces, [r] + others).spaces
  {
    var s, e := req.startDate.value, req.endDate.value;
    var rows := [r] + others;
    var days := DaysFrom(s, e);
    var want := Requested(req);
    assert ReservationsOf(rows, x.id) == [r] by {
      OtherSpacesIgnored([r], others, x.id);
      assert [r][..0] == [];
    }
    assert PeakOf([r], days, t) >= Quantities(r).Get(t) by {
      assert Usage([r], d, t) == Quantities(r).Get(t) by { assert [r][..0] == []; }
      DaysFromFacts(s, e);
      PeakDominatesEveryDay([r], days, d, t);
    }
    assert !Fits(x, rows, days, want) by {
      assert Available(x, rows, days).Get(t) < want.Get(t);
      AtMostPerTier(want, Available(x, rows, days));
    }
    SearchSeesAllRows(req, spaces, rows);
    FilterMembership(spaces, FitsFor(rows, days, want), x);
  }

}
