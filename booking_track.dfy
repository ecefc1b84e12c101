/**
 * The booking tracking page: searching the bookings by phone, cancelling one, the rules for which
 * actions a booking shows (cancel while pending, rate once approved and not yet reviewed), the set of
 * reviewed bookings, and the service names shown.
 */
module BookingTrack {
  import opened Wrappers
  import opened JsText
  import opened BookingRecords
  import opened Rows
  import BookingForm

  datatype ServiceName = ServiceName(id: string, name: string)

  /** The page's own list of service names. */
  const Services: seq<ServiceName> := [
    ServiceName("massage", "مساج استرخائي"),
    ServiceName("skincare", "عناية بالبشرة"),
    ServiceName("hammam", "حمام مغربي"),
    ServiceName("facial", "تنظيف البشرة")
  ]

  /** `services.find(s => s.id === serviceId)` from position `i` on. */
  function FindService(services: seq<ServiceName>, serviceId: string, i: nat): (r: Option<nat>)
    requires i <= |services|
    ensures r.Some? ==>
      i <= r.value < |services| && services[r.value].id == serviceId &&
      forall j :: i <= j < r.value ==> services[j].id != serviceId
    ensures r.None? ==> forall j :: i <= j < |services| ==> services[j].id != serviceId
    decreases |services| - i
  {
    if i == |services| then None
    else if services[i].id == serviceId then Some(i)
    else FindService(services, serviceId, i + 1)
  }

  /** `getServiceName`: the listed name of the first entry with the id, or the id itself. */
  function GetServiceName(serviceId: string): (name: string)
    ensures (forall j :: 0 <= j < |Services| ==> Services[j].id != serviceId) ==> name == serviceId
    ensures forall k :: 0 <= k < |Services| && Services[k].id == serviceId ==> name == Services[k].name
  {
    var found := FindService(Services, serviceId, 0);
    if found.Some? && Services[found.value].name != [] then Services[found.value].name else serviceId
  }

  /** Each of the four listed services is shown by its Arabic name. */
  lemma ListedServiceNames()
    ensures GetServiceName("massage") == "مساج استرخائي" && GetServiceName("skincare") == "عناية بالبشرة"
    ensures GetServiceName("hammam") == "حمام مغربي" && GetServiceName("facial") == "تنظيف البشرة"
  {
    assert Services[0].id == "massage" && Services[1].id == "skincare";
    assert Services[2].id == "hammam" && Services[3].id == "facial";
  }

  /** `.like('phone_number', `%${phoneNumber}%`)`: the stored phone contains the typed text. */
  function PhoneContains(query: string): Booking -> bool {
    (b: Booking) => Contains(b.phoneNumber, query)
  }

  /** Cancel is offered only while a booking is pending. */
  predicate CancelOffered(b: Booking) {
    b.status == Pending
  }

  /** The rating form: an approved booking that has no review yet. */
  predicate RatingShown(b: Booking, reviewed: set<string>) {
    b.status == Approved && b.id !in reviewed
  }

  /** The thank-you note instead of the form: an approved booking that was reviewed. */
  predicate ThanksShown(b: Booking, reviewed: set<string>) {
    b.status == Approved && b.id in reviewed
  }

  /** A booking shows at most one of cancel, the rating form and the thank-you note. */
  lemma ActionsExclusive(b: Booking, reviewed: set<string>)
    ensures !(CancelOffered(b) && RatingShown(b, reviewed))
    ensures !(CancelOffered(b) && ThanksShown(b, reviewed))
    ensures !(RatingShown(b, reviewed) && ThanksShown(b, reviewed))
    ensures b.status == Approved ==> RatingShown(b, reviewed) != ThanksShown(b, reviewed)
  {
  }

  /** Rating a booking hides its form for good and leaves every other booking's form as it was. */
  lemma RatingHidesForm(b: Booking, reviewed: set<string>, other: Booking)
    ensures !RatingShown(b, reviewed + {b.id})
    ensures b.status == Approved ==> ThanksShown(b, reviewed + {b.id})
    ensures other.id != b.id ==> RatingShown(other, reviewed + {b.id}) == RatingShown(other, reviewed)
  {
  }

  /** Cancelling touches the one booking with the id, which then offers neither cancel nor rating. */
  lemma CancelOnlyTarget(bookings: seq<Booking>, k: nat, reviewed: set<string>)
    requires UniqueIds(bookings) && k < |bookings|
    ensures var after := WithStatus(bookings, bookings[k].id, Canceled);
      after == bookings[k := bookings[k].(status := Canceled)] &&
      !CancelOffered(after[k]) && !RatingShown(after[k], reviewed) && !ThanksShown(after[k], reviewed)
  {
    WithStatusOne(bookings, k, Canceled);
  }

  /** A booking saved by the booking form is found by searching for the local digits the customer typed. */
  lemma SavedBookingFound(b: Booking, countryCode: string, phone: string)
    requires b.phoneNumber == BookingForm.SavedPhone(countryCode, phone)
    ensures PhoneContains(BookingForm.LocalDigits(phone))(b)
  {
    ContainsSuffix(countryCode, BookingForm.LocalDigits(phone));
  }

  /** Some shown booking has the id. */
  predicate Listed(bookings: seq<Booking>, id: string) {
    exists j :: 0 <= j < |bookings| && bookings[j].id == id
  }

  datatype SearchOutcome = EmptyPhone | NoneFound | Found | SearchFailed

  class TrackPage {
    var phoneNumber: string
    var bookings: seq<Booking>
    var searched: bool
    /** Ids of the shown bookings that have a review. */
    var reviewed: set<string>

    constructor()
      ensures phoneNumber == [] && bookings == [] && !searched && reviewed == {}
    {
      phoneNumber, bookings, searched, reviewed := [], [], false, {};
    }

    /**
     * `handleSearch`: an empty phone is refused before any query; otherwise the page lists the bookings
     * whose phone contains the typed text, or keeps its list when the query fails.
     */
    method HandleSearch(table: seq<Booking>, queryOk: bool) returns (outcome: SearchOutcome)
      modifies this`bookings, this`searched
      ensures phoneNumber == [] ==> outcome == EmptyPhone && bookings == old(bookings) && searched == old(searched)
      ensures phoneNumber != [] ==> searched
      ensures phoneNumber != [] && queryOk ==>
        bookings == Where(table, PhoneContains(phoneNumber)) && (outcome == NoneFound <==> bookings == []) &&
        (outcome == Found <==> bookings != [])
      ensures phoneNumber != [] && !queryOk ==> outcome == SearchFailed && bookings == old(bookings)
    {
      if phoneNumber == [] {
        return EmptyPhone;
      }
      searched := true;
      if !queryOk {
        return SearchFailed;
      }
      bookings := Where(table, PhoneContains(phoneNumber));
      outcome := if bookings == [] then NoneFound else Found;
    }

    /** `handleCancelBooking`: once the update succeeds, the booking with the id shows `canceled`. */
    method HandleCancelBooking(bookingId: string, updateOk: bool)
      modifies this`bookings
      ensures updateOk ==> bookings == WithStatus(old(bookings), bookingId, Canceled)
      ensures !updateOk ==> bookings == old(bookings)
    {
      if updateOk {
        bookings := WithStatus(bookings, bookingId, Canceled);
      }
    }

    /** `checkReviewedBookings`: the reviewed set becomes the listed bookings that appear in the reviews. */
    method CheckReviewedBookings(reviewBookingIds: seq<string>, queryOk: bool)
      modifies this`reviewed
      ensures queryOk ==> forall id :: id in reviewed <==> id in reviewBookingIds && Listed(bookings, id)
      ensures !queryOk ==> reviewed == old(reviewed)
    {
      if queryOk {
        reviewed := set id | id in reviewBookingIds && Listed(bookings, id);
      }
    }

    /** The rating form's `onSuccess`: the booking joins the reviewed set. */
    method OnRatingSuccess(bookingId: string)
      modifies this`reviewed
      ensures reviewed == old(reviewed) + {bookingId}
    {
      reviewed := reviewed + {bookingId};
    }
  }
}
