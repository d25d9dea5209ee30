/** The renter's search page: a free-text query is classified into
    per-tier quantities, the search endpoint filters the spaces for the
    chosen dates, and each listed space shows an estimated price. When the
    endpoint fails, the page falls back to a capacity-only filter. */
module UserSearchPage {
  import opened Basics
  import opened Domain
  import opened Engine
  import opened Pricing
  import SearchAvailability

  /** The code points `String.prototype.trim` removes: ECMAScript's
      WhiteSpace and LineTerminator characters. */
  predicate IsTrimmed(c: char)
  {
    c == '\t' || c == '\n' || c == '\U{000B}' || c == '\U{000C}' || c == '\r' || c == ' '
    || c == '\U{00A0}' || c == '\U{1680}' || ('\U{2000}' <= c <= '\U{200A}')
    || c == '\U{2028}' || c == '\U{2029}' || c == '\U{202F}' || c == '\U{205F}'
    || c == '\U{3000}' || c == '\U{FEFF}'
  }

  /** `!query.trim()`. */
  predicate IsBlank(s: string)
  {
    forall i :: 0 <= i < |s| ==> IsTrimmed(s[i])
  }

  /** `(capacity || 0) >= requirement`: a comparison with `undefined`
      (`NaN`) is false, and `null` compares as 0. */
  predicate Covers(capacity: int, requirement: Count)
  {
    match requirement
    case Undefined => false
    case Null => capacity >= 0
    case Num(n) => capacity >= n
  }

  predicate FallbackFits(space: Space, reqs: Requirements)
  {
    var cap := Capacity(space);
    Covers(cap.small, reqs.small) && Covers(cap.medium, reqs.medium) && Covers(cap.large, reqs.large)
  }

  function FallbackFor(reqs: Requirements): Space -> bool
  {
    (space: Space) => FallbackFits(space, reqs)
  }

  /** The local filter used when the endpoint answers with an error: capacity
      only, reservations ignored. */
  function Fallback(all: seq<Space>, reqs: Requirements): seq<Space>
  {
    Filter(all, FallbackFor(reqs))
  }

  /** The body sent to the endpoint: both dates and `reqs.* || 0`. */
  function ServerRequest(s: Day, e: Day, reqs: Requirements): (r: SearchAvailability.Request)
    ensures r.startDate == Some(s) && r.endDate == Some(e)
    ensures SearchAvailability.Requested(r) == Tiers(CountOrZero(reqs.small), CountOrZero(reqs.medium), CountOrZero(reqs.large))
  {
    SearchAvailability.Request(Some(s), Some(e), Some(CountOrZero(reqs.small)), Some(CountOrZero(reqs.medium)),
                               Some(CountOrZero(reqs.large)))
  }

  /** What the availability request yields: a JSON answer with `ok`, a JSON
      answer without it, or an exception (the fetch fails or the body is not
      JSON). */
  datatype AvailabilityAnswer = Listed(spaces: seq<Space>) | NotOk | Threw

  datatype SearchOutcome = ShowAll | DatesMissing | DatesInverted | NotClassified | ServerResults | FallbackResults | SearchFailed

  class UserSearch {
    var query: string
    var allSpaces: seq<Space>
    var filteredSpaces: seq<Space>
    var requirements: Option<Requirements>
    var startDate: Option<Day>
    var endDate: Option<Day>

    constructor (allSpaces: seq<Space>)
      ensures query == "" && this.allSpaces == allSpaces && filteredSpaces == allSpaces
      ensures requirements.None? && startDate.None? && endDate.None?
    {
      query := "";
      this.allSpaces := allSpaces;
      filteredSpaces := allSpaces;
      requirements := None;
      startDate := None;
      endDate := None;
    }

    /** `handleSearch`, with the classifier's answer (`None` when it is
        falsy or its request throws) and the availability request's outcome
        as parameters. It also returns the body it sent to the endpoint. */
    method HandleSearch(classified: Option<Requirements>, answer: AvailabilityAnswer)
      returns (outcome: SearchOutcome, sent: Option<SearchAvailability.Request>)
      modifies this`filteredSpaces, this`requirements
      ensures IsBlank(query) ==> outcome == ShowAll && filteredSpaces == allSpaces && requirements.None?
      ensures !IsBlank(query) && (startDate.None? || endDate.None?) ==> outcome == DatesMissing
      ensures !IsBlank(query) && startDate.Some? && endDate.Some? && startDate.value > endDate.value ==> outcome == DatesInverted
      ensures !IsBlank(query) && startDate.Some? && endDate.Some? && startDate.value <= endDate.value && classified.None? ==>
                outcome == NotClassified
      ensures outcome in {DatesMissing, DatesInverted, NotClassified} ==>
                filteredSpaces == old(filteredSpaces) && requirements == old(requirements)
      ensures sent.Some? <==> outcome in {ServerResults, FallbackResults, SearchFailed}
      ensures sent.Some? ==>
                !IsBlank(query) && startDate.Some? && endDate.Some? && startDate.value <= endDate.value && classified.Some?
                && sent.value == ServerRequest(startDate.value, endDate.value, classified.value)
                && requirements == classified
      ensures outcome == ServerResults <==> sent.Some? && answer.Listed?
      ensures outcome == FallbackResults <==> sent.Some? && answer.NotOk?
      ensures outcome == SearchFailed <==> sent.Some? && answer.Threw?
      ensures outcome == ServerResults ==> filteredSpaces == answer.spaces
      ensures outcome == FallbackResults ==> filteredSpaces == Fallback(allSpaces, classified.value)
      ensures outcome == SearchFailed ==> filteredSpaces == old(filteredSpaces)
    {
      sent := None;
      if forall i :: 0 <= i < |query| ==> IsTrimmed(query[i]) {
        filteredSpaces := allSpaces;
        requirements := None;
        return ShowAll, sent;
      }
      if startDate.None? || endDate.None? {
        return DatesMissing, sent;
      }
      if startDate.value > endDate.value {
        return DatesInverted, sent;
      }
      if classified.None? {
        return NotClassified, sent;
      }
      var reqs := classified.value;
      requirements := classified;
      sent := Some(SearchAvailability.Request(startDate, endDate, Some(CountOrZero(reqs.small)),
                                              Some(CountOrZero(reqs.medium)), Some(CountOrZero(reqs.large))));
      match answer
      case Listed(spaces) =>
        filteredSpaces := spaces;
        outcome := ServerResults;
      case NotOk =>
        filteredSpaces := Fallback(allSpaces, reqs);
        outcome := FallbackResults;
      case Threw =>
        outcome := SearchFailed;
    }

    /** Whether the estimated total is shown: requirements and both dates. */
    predicate EstimateShown()
      reads this
    {
      requirements.Some? && startDate.Some? && endDate.Some?
    }

    /** The estimated total shown under a listed space. */
    function Estimate(space: Space): Option<real>
      reads this
      requires EstimateShown()
    {
      EstimatedTotal(requirements.value, UnitPrices(space), startDate.value, endDate.value)
    }
  }

  /** The fallback keeps exactly the listed spaces whose capacity covers a
      fully stated requirement on all three tiers, in their order. */
  lemma FallbackMembership(all: seq<Space>, reqs: Requirements, x: Space)
    ensures x in Fallback(all, reqs) <==>
              x in all && !reqs.small.Undefined? && !reqs.medium.Undefined? && !reqs.large.Undefined?
              && Tiers(CountOrZero(reqs.small), CountOrZero(reqs.medium), CountOrZero(reqs.large)).AtMost(Capacity(x))
    ensures IsSubsequence(Fallback(all, reqs), all)
  {
    FilterMembership(all, FallbackFor(reqs), x);
    FilterIsSubsequence(all, FallbackFor(reqs));
  }

  /** `null` is not `undefined`: a classifier answer of `null` on every
      tier keeps every listed space whose capacity is non-negative, while
      one tier left out keeps none. */
  lemma NullVersusUndefined(all: seq<Space>, m: Count, l: Count, x: Space)
    ensures x in all && Capacity(x).NonNegative() ==> x in Fallback(all, Requirements(Null, Null, Null))
    ensures x !in Fallback(all, Requirements(Undefined, m, l))
  {
    FallbackMembership(all, Requirements(Null, Null, Null), x);
    FallbackMembership(all, Requirements(Undefined, m, l), x);
  }

  /** The fallback is never more generous than the endpoint would be with
      no reservation at all: a space it keeps has the capacity the endpoint
      asks for on an empty reservation list. */
  lemma FallbackIsCapacityOnly(all: seq<Space>, reqs: Requirements, s: Day, e: Day, x: Space)
    requires x in Fallback(all, reqs)
    ensures x in SearchAvailability.Search(ServerRequest(s, e, reqs), all, []).spaces
  {
    FallbackMembership(all, reqs, x);
    var req := ServerRequest(s, e, reqs);
    SearchAvailability.SearchMembership(req, all, [], x);
    forall t ensures PeakOf(SearchAvailability.ReservationsOf(SearchAvailability.OverlapQuery([], s, e), x.id), DaysFrom(s, e), t) == 0
    {
      assert SearchAvailability.OverlapQuery([], s, e) == [];
      assert SearchAvailability.ReservationsOf([], x.id) == [];
      PeakWithoutReservations(DaysFrom(s, e), t);
    }
    AtMostPerTier(SearchAvailability.Requested(req), Capacity(x));
  }

  /** Every body the page sends has both dates in order, so the endpoint's
      missing-date and inverted-range branches are never reached from here. */
  lemma SentRequestIsWellFormed(s: Day, e: Day, reqs: Requirements, spaces: seq<Space>, rows: seq<Reservation>)
    requires s <= e
    ensures SearchAvailability.Search(ServerRequest(s, e, reqs), spaces, rows).Found?
    ensures SearchAvailability.Requested(ServerRequest(s, e, reqs)).NonNegative() <==>
              CountOrZero(reqs.small) >= 0 && CountOrZero(reqs.medium) >= 0 && CountOrZero(reqs.large) >= 0
  {
  }
}
