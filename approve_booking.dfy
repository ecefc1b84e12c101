/**
 * The approve-booking function: only a pending booking can be approved, the approval writes `approved`
 * to that booking alone, and the confirmation message goes to `+` and the stored phone's digits. The
 * booking stays approved whatever the WhatsApp call does, but a call that throws turns the answer into
 * an error.
 */
module ApproveBooking {
  import opened Wrappers
  import opened JsText
  import opened BookingRecords
  import opened Rows

  const MissingIdMessage: string := "معرف الحجز مطلوب"
  const LoadFailedMessage: string := "فشل في تحميل بيانات الحجز"
  const NotPendingMessage: string := "لا يمكن تأكيد حجز تم تأكيده أو إلغاؤه مسبقاً"
  const UpdateFailedMessage: string := "فشل في تحديث حالة الحجز"
  const DefaultServiceName: string := "خدمة"
  /** The answer's text for a thrown error that carries no message of its own. */
  const GenericErrorMessage: string := "حدث خطأ أثناء تأكيد الحجز"

  /** A row of the `services` table, as far as the lookup reads it. */
  datatype ServiceRow = ServiceRow(id: string, name: string)

  /** The rows of `services` with the given id. */
  function ServicesWithId(services: seq<ServiceRow>, id: string): (r: seq<ServiceRow>)
    ensures |r| <= |services|
    ensures forall s :: s in r <==> s in services && s.id == id
  {
    if services == [] then []
    else (if services[0].id == id then [services[0]] else []) + ServicesWithId(services[1..], id)
  }

  /**
   * `service?.name || 'خدمة'`, where `single()` yields a row only when exactly one matches: the
   * service's name when there is exactly one row for the id and its name is not empty, else `خدمة`.
   */
  function ServiceName(services: seq<ServiceRow>, serviceId: string): (name: string)
    ensures name != []
    ensures name != DefaultServiceName ==> exists s :: s in services && s.id == serviceId && s.name == name
  {
    var found := ServicesWithId(services, serviceId);
    if |found| == 1 && found[0].name != [] then found[0].name else DefaultServiceName
  }

  /** With a single, named row for the id, that name is used. */
  lemma ServiceNameFound(services: seq<ServiceRow>, k: nat)
    requires k < |services| && services[k].name != []
    requires forall i :: 0 <= i < |services| && i != k ==> services[i].id != services[k].id
    ensures ServiceName(services, services[k].id) == services[k].name
  {
    var found := ServicesWithId(services, services[k].id);
    assert services[k] in found;
    AtMostOneServiceWithId(services, services[k].id);
  }

  /** When no two rows share the id, at most one row is found for it. */
  lemma {:induction false} AtMostOneServiceWithId(services: seq<ServiceRow>, id: string)
    requires forall i, j :: 0 <= i < j < |services| && services[i].id == id ==> services[j].id != id
    ensures |ServicesWithId(services, id)| <= 1
  {
    if services != [] {
      AtMostOneServiceWithId(services[1..], id);
      if services[0].id == id {
        NoServiceWithId(services[1..], id);
      }
    }
  }

  lemma {:induction false} NoServiceWithId(services: seq<ServiceRow>, id: string)
    requires forall j :: 0 <= j < |services| ==> services[j].id != id
    ensures ServicesWithId(services, id) == []
  {
    if services != [] {
      NoServiceWithId(services[1..], id);
    }
  }

  /** The confirmation sent over WhatsApp; the formatted date and the greeting text are not modelled. */
  datatype Confirmation = Confirmation(
    to: string, customerName: string, serviceName: string, bookingTime: string, bookingDuration: string, price: int)

  /**
   * How the WhatsApp call ended: a JSON reply, whatever its HTTP status, whose `success` field the answer
   * passes on; or a throw, when `fetch` is rejected or the reply's body is not JSON.
   */
  datatype WhatsAppOutcome = Replied(success: bool) | Threw(message: string)

  datatype ApproveResponse = ApprovedOk(whatsappSuccess: bool) | ApproveError(message: string)

  datatype Approval = Approval(response: ApproveResponse, sent: Option<Confirmation>, rows: seq<Booking>)

  /** `booking.phone_number.replace(/\D/g, '')` with `+` in front. */
  function WhatsAppRecipient(phoneNumber: string): (to: string)
    ensures |to| >= 1 && to[0] == '+' && AllDigits(to[1..])
  {
    "+" + DigitsOnly(phoneNumber)
  }

  /**
   * What one request answers, sends and leaves in the table. `single()` fails unless exactly one row has
   * the id, which is reported as a load failure.
   */
  function Approving(rows: seq<Booking>, services: seq<ServiceRow>, bookingId: string, updateOk: bool,
                     whatsapp: WhatsAppOutcome): Approval
  {
    if bookingId == [] then Approval(ApproveError(MissingIdMessage), None, rows)
    else
      var found := Where(rows, HasId(bookingId));
      if |found| != 1 then Approval(ApproveError(LoadFailedMessage), None, rows)
      else
        var booking := found[0];
        if booking.status != Pending then Approval(ApproveError(NotPendingMessage), None, rows)
        else if !updateOk then Approval(ApproveError(UpdateFailedMessage), None, rows)
        else
          var sent := Some(Confirmation(WhatsAppRecipient(booking.phoneNumber), booking.customerName,
                                        ServiceName(services, booking.service), booking.bookingTime,
                                        booking.bookingDuration, booking.price));
          Approval(NotifiedResponse(whatsapp), sent, WithStatus(rows, bookingId, Approved))
  }

  /** The answer once the booking is approved and the message handed to WhatsApp. */
  function NotifiedResponse(whatsapp: WhatsAppOutcome): (response: ApproveResponse)
    ensures response.ApprovedOk? <==> whatsapp.Replied?
    ensures whatsapp.Threw? ==>
      response.message != [] && (response.message == whatsapp.message || response.message == GenericErrorMessage)
  {
    match whatsapp
    case Replied(success) => ApprovedOk(success)
    case Threw(message) => ApproveError(OrElse(message, GenericErrorMessage))
  }

  /** One request, against the bookings table. */
  method HandleApproveBooking(table: BookingTable, services: seq<ServiceRow>, bookingId: string, updateOk: bool,
                              whatsapp: WhatsAppOutcome) returns (response: ApproveResponse, sent: Option<Confirmation>)
    requires table.Valid()
    modifies table
    ensures table.Valid()
    ensures Approval(response, sent, table.rows) == Approving(old(table.rows), services, bookingId, updateOk, whatsapp)
  {
    if bookingId == [] {
      return ApproveError(MissingIdMessage), None;
    }
    var found := Where(table.rows, HasId(bookingId));
    if |found| != 1 {
      return ApproveError(LoadFailedMessage), None;
    }
    var booking := found[0];
    if booking.status != Pending {
      return ApproveError(NotPendingMessage), None;
    }
    var serviceName := ServiceName(services, booking.service);
    if !updateOk {
      return ApproveError(UpdateFailedMessage), None;
    }
    table.SetStatus(bookingId, Approved);
    sent := Some(Confirmation(WhatsAppRecipient(booking.phoneNumber), booking.customerName, serviceName,
                              booking.bookingTime, booking.bookingDuration, booking.price));
    match whatsapp {
      case Replied(success) =>
        response := ApprovedOk(success);
      case Threw(message) =>
        response := ApproveError(OrElse(message, GenericErrorMessage));
    }
  }

  // ---------------------------------------------------------------- properties

  /** The one row with the id is what the lookup returns. */
  lemma {:induction false} FoundRow(rows: seq<Booking>, k: nat)
    requires UniqueIds(rows) && k < |rows|
    ensures Where(rows, HasId(rows[k].id)) == [rows[k]]
  {
    if k == 0 {
      NoRowWithId(rows[1..], rows[0].id);
    } else {
      FoundRow(rows[1..], k - 1);
    }
  }

  lemma {:induction false} NoRowWithId(rows: seq<Booking>, id: string)
    requires forall j :: 0 <= j < |rows| ==> rows[j].id != id
    ensures Where(rows, HasId(id)) == []
  {
    if rows != [] {
      NoRowWithId(rows[1..], id);
    }
  }

  /**
   * A pending booking is approved when the update goes through: it alone turns `approved`, the
   * confirmation goes to `+` and its phone's digits, and the answer is a success exactly when WhatsApp
   * replied.
   */
  lemma PendingIsApproved(rows: seq<Booking>, services: seq<ServiceRow>, k: nat, whatsapp: WhatsAppOutcome)
    requires UniqueIds(rows) && k < |rows| && rows[k].id != [] && rows[k].status == Pending
    ensures var a := Approving(rows, services, rows[k].id, true, whatsapp);
      a.rows == rows[k := rows[k].(status := Approved)] &&
      a.sent.Some? && a.sent.value.to == "+" + DigitsOnly(rows[k].phoneNumber) &&
      (whatsapp.Replied? ==> a.response == ApprovedOk(whatsapp.success)) &&
      (whatsapp.Threw? ==> a.response.ApproveError?)
  {
    FoundRow(rows, k);
    WithStatusOne(rows, k, Approved);
  }

  /** A booking that is not pending is refused and nothing changes. */
  lemma NotPendingRefused(rows: seq<Booking>, services: seq<ServiceRow>, k: nat, updateOk: bool, whatsapp: WhatsAppOutcome)
    requires UniqueIds(rows) && k < |rows| && rows[k].id != [] && rows[k].status != Pending
    ensures Approving(rows, services, rows[k].id, updateOk, whatsapp) ==
      Approval(ApproveError(NotPendingMessage), None, rows)
  {
    FoundRow(rows, k);
  }

  /** An id no booking carries is refused and nothing changes. */
  lemma UnknownRefused(rows: seq<Booking>, services: seq<ServiceRow>, bookingId: string, updateOk: bool, whatsapp: WhatsAppOutcome)
    requires forall j :: 0 <= j < |rows| ==> rows[j].id != bookingId
    ensures Approving(rows, services, bookingId, updateOk, whatsapp).response.ApproveError?
    ensures Approving(rows, services, bookingId, updateOk, whatsapp).rows == rows
  {
    NoRowWithId(rows, bookingId);
  }

  /**
   * The table changes only by approving a booking that was pending, and then only that booking's
   * status; a success answer always comes with that change.
   */
  lemma ApprovalOnlyFromPending(rows: seq<Booking>, services: seq<ServiceRow>, bookingId: string, updateOk: bool, whatsapp: WhatsAppOutcome)
    requires UniqueIds(rows)
    requires Approving(rows, services, bookingId, updateOk, whatsapp).response.ApprovedOk? ||
      Approving(rows, services, bookingId, updateOk, whatsapp).rows != rows
    ensures exists k :: (0 <= k < |rows| && rows[k].id == bookingId && rows[k].status == Pending &&
      Approving(rows, services, bookingId, updateOk, whatsapp).rows == rows[k := rows[k].(status := Approved)])
  {
    var found := Where(rows, HasId(bookingId));
    WhereMembers(rows, HasId(bookingId));
    assert found[0] in found;
    var k :| 0 <= k < |rows| && rows[k] == found[0];
    WithStatusOne(rows, k, Approved);
  }

  /**
   * Once the update has gone through, the booking is approved whatever WhatsApp does: the table and the
   * message are the same for every outcome of the call, and any two replies agree on success.
   */
  lemma WhatsAppDoesNotUndo(rows: seq<Booking>, services: seq<ServiceRow>, bookingId: string, updateOk: bool,
                            w1: WhatsAppOutcome, w2: WhatsAppOutcome)
    ensures Approving(rows, services, bookingId, updateOk, w1).rows == Approving(rows, services, bookingId, updateOk, w2).rows
    ensures Approving(rows, services, bookingId, updateOk, w1).sent == Approving(rows, services, bookingId, updateOk, w2).sent
    ensures w1.Replied? && w2.Replied? ==>
      (Approving(rows, services, bookingId, updateOk, w1).response.ApprovedOk? <==>
       Approving(rows, services, bookingId, updateOk, w2).response.ApprovedOk?)
  {
  }

  /** Approving the same booking twice: the second request is refused and the booking stays approved. */
  lemma SecondApprovalRefused(rows: seq<Booking>, services: seq<ServiceRow>, k: nat, w1: WhatsAppOutcome, updateOk: bool,
                              w2: WhatsAppOutcome)
    requires UniqueIds(rows) && k < |rows| && rows[k].id != [] && rows[k].status == Pending
    ensures var once := Approving(rows, services, rows[k].id, true, w1).rows;
      Approving(once, services, rows[k].id, updateOk, w2) == Approval(ApproveError(NotPendingMessage), None, once)
  {
    PendingIsApproved(rows, services, k, w1);
    var once := rows[k := rows[k].(status := Approved)];
    assert UniqueIds(once);
    NotPendingRefused(once, services, k, updateOk, w2);
  }

  // ---------------------------------------------------------------- a WhatsApp call that throws

  /**
   * As written, a WhatsApp call that throws after the update makes the function answer with an error
   * although the booking is already approved: the error answer and the changed table come together.
   */
  lemma ThrownCallReportsFailureAfterApproval(rows: seq<Booking>, services: seq<ServiceRow>, k: nat, message: string)
    requires UniqueIds(rows) && k < |rows| && rows[k].id != [] && rows[k].status == Pending
    ensures var a := Approving(rows, services, rows[k].id, true, Threw(message));
      a.response.ApproveError? && a.rows != rows && a.rows[k].status == Approved
  {
    PendingIsApproved(rows, services, k, Threw(message));
    assert Approving(rows, services, rows[k].id, true, Threw(message)).rows[k].status != rows[k].status;
  }

  /**
   * The approval as its own comment means it ("don't fail the approval if WhatsApp fails"): a call that
   * throws counts as an undelivered message, like a refused one.
   */
  function ApprovingNotifyTolerant(rows: seq<Booking>, services: seq<ServiceRow>, bookingId: string, updateOk: bool,
                                   whatsapp: WhatsAppOutcome): (a: Approval)
    ensures a.rows == Approving(rows, services, bookingId, updateOk, whatsapp).rows
    ensures a.sent == Approving(rows, services, bookingId, updateOk, whatsapp).sent
  {
    var a := Approving(rows, services, bookingId, updateOk, whatsapp);
    if whatsapp.Threw? && a.sent.Some? then a.(response := ApprovedOk(false)) else a
  }

  /**
   * With the corrected approval, the answer is a success exactly when the table changed, which happens
   * only by approving that pending booking.
   */
  lemma TolerantSuccessIffApproved(rows: seq<Booking>, services: seq<ServiceRow>, bookingId: string, updateOk: bool,
                                   whatsapp: WhatsAppOutcome)
    requires UniqueIds(rows)
    ensures var a := ApprovingNotifyTolerant(rows, services, bookingId, updateOk, whatsapp);
      a.response.ApprovedOk? <==> a.rows != rows
  {
    var a := Approving(rows, services, bookingId, updateOk, whatsapp);
    if a.sent.Some? {
      ApprovalOnlyFromPending(rows, services, bookingId, updateOk, Replied(true));
      var k :| 0 <= k < |rows| && rows[k].id == bookingId && rows[k].status == Pending &&
        a.rows == rows[k := rows[k].(status := Approved)];
      assert a.rows[k].status != rows[k].status;
    }
  }
}
