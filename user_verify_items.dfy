/** The verification page reached from the book-space page: it builds one
    photo slot per requested unit from the navigation state and posts the
    reservation once every slot has a photo. */
module UserVerifyItemsPage {
  import opened Basics
  import opened Domain
  import opened ItemSlots

  /** The navigation state handed over by the book-space page. */
  datatype VerificationState = VerificationState(
    userId: string,
    spaceId: string,
    spaceName: string,
    startDate: Day,
    endDate: Day,
    qty: Tiers)

  /** The body `handleSubmit` posts: ids, dates and quantities copied from the
      state, one photo per slot in slot order, status `pending`, no payment. */
  function SubmissionBody(s: VerificationState, items: seq<Slot>): (r: ReservationRequest)
    ensures r.userId == s.userId && r.spaceId == s.spaceId
    ensures r.startDate == Some(s.startDate) && r.endDate == Some(s.endDate) && r.qty == s.qty
    ensures |r.itemPhotos| == |items| && forall i :: 0 <= i < |items| ==> r.itemPhotos[i] == items[i].preview
    ensures r.status == Pending && r.payment.None?
  {
    ReservationRequest(s.userId, s.spaceId, Some(s.startDate), Some(s.endDate), s.qty, Photos(items), Pending, None)
  }

  class UserVerifyItems {
    const state: Option<VerificationState>
    var items: seq<Slot>
    /** Whether the page has navigated back to the user area. */
    var redirected: bool

    constructor (state: Option<VerificationState>)
      ensures this.state == state && items == [] && !redirected
    {
      this.state := state;
      items := [];
      redirected := false;
    }

    /** The mount effect: without a state, leave; otherwise one empty slot
        per unit, small then medium then large. */
    method Init()
      modifies this`items, this`redirected
      ensures state.None? ==> redirected && items == old(items)
      ensures state.Some? ==> items == Slots(state.value.qty) && redirected == old(redirected)
    {
      if state.None? {
        redirected := true;
        return;
      }
      items := Expand(state.value.qty);
    }

    /** `handleFileChange(index, file)`, once the reader has produced `dataUrl`. */
    method FileChange(index: int, file: Option<File>, dataUrl: string)
      requires 0 <= index < |items|
      modifies this`items
      ensures items == WithFile(old(items), index, file, dataUrl)
    {
      items := WithFile(items, index, file, dataUrl);
    }

    /** `handleSubmit`: refused while any slot has no file, else the body to post. */
    method HandleSubmit() returns (body: Option<ReservationRequest>)
      requires state.Some?
      ensures body.None? <==> exists i :: 0 <= i < |items| && items[i].file.None?
      ensures body.Some? ==> body.value == SubmissionBody(state.value, items)
    {
      if exists i :: 0 <= i < |items| && items[i].file.None? {
        return None;
      }
      var itemPhotos := Photos(items);
      var s := state.value;
      body := Some(ReservationRequest(s.userId, s.spaceId, Some(s.startDate), Some(s.endDate), s.qty, itemPhotos, Pending, None));
    }
  }

  /** Choosing files never changes how many slots there are, so a body built
      after the mount effect carries one photo per requested unit. */
  lemma {:induction false} PhotoPerUnit(s: VerificationState, items: seq<Slot>, index: int, file: Option<File>, dataUrl: string)
    requires s.qty.NonNegative()
    requires |items| == |Slots(s.qty)| && 0 <= index < |items|
    ensures |SubmissionBody(s, WithFile(items, index, file, dataUrl)).itemPhotos| == s.qty.small + s.qty.medium + s.qty.large
  {
    SlotsShape(s.qty);
  }

  /** A fresh expansion of a non-empty selection cannot be submitted: every
      slot still waits for its photo. */
  lemma FreshSlotsBlockSubmission(q: Tiers)
    requires q.NonNegative() && !q.IsZero()
    ensures !AllFilled(Slots(q))
  {
    SlotsShape(q);
    var items := Slots(q);
    if q.small > 0 {
      assert items[0].file.None?;
    } else if q.medium > 0 {
      assert items[q.small].file.None?;
    } else {
      assert items[q.small + q.medium].file.None?;
    }
  }
}
