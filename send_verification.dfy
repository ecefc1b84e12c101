/**
 * The send-verification function: the phone check, the six-digit code it draws, the rate check on the
 * phone's codes of the last hour, replacing the phone's unused codes by the new one, and the WhatsApp
 * message. Because that replacement deletes the very rows the rate check counts, a phone that never
 * verifies is never refused; a corrected request that counts a log of issued codes is modelled beside it.
 */
module SendVerification {
  import opened Wrappers
  import opened JsText
  import opened VerificationStore
  import opened Rows
  import VerifyCode

  const StoreFailedMessage: string := "فشل في تخزين رمز التحقق"
  const WhatsAppFailedMessage: string := "فشل في إرسال رسالة WhatsApp"
  /** The answer's text for a thrown error that carries no message of its own. */
  const GenericErrorMessage: string := "حدث خطأ أثناء إرسال رمز التحقق"

  /** One hour in milliseconds, the window of the rate limit. */
  const HourMs: int := 3600000
  const MaxCodesPerHour: int := 3

  /** If `a < d * c` then `a / d < c`. */
  lemma DivBelow(a: nat, d: nat, c: nat)
    requires d > 0 && a < d * c
    ensures a / d < c
  {
    var q := a / d;
    assert q * d <= a;
  }

  /**
   * `Math.floor(100000 + Math.random() * 900000)`, the random number in [0, 1) written as the fraction
   * `num / den`: always a number from 100000 to 999999.
   */
  function GeneratedCode(num: nat, den: nat): (code: int)
    requires num < den
    ensures 100000 <= code <= 999999
  {
    DivBelow(num * 900000, den, 900000);
    100000 + (num * 900000) / den
  }

  /** A number with `k + 1` decimal digits is written with `k + 1` characters. */
  lemma {:induction false} NatToStringLength(n: nat, k: nat)
    requires Pow10(k) <= n < 10 * Pow10(k)
    ensures |NatToString(n)| == k + 1
  {
    if k > 0 {
      assert Pow10(k) == 10 * Pow10(k - 1);
      NatToStringLength(n / 10, k - 1);
    }
  }

  /** The code's text is exactly what verify-code's format check accepts: six ASCII digits. */
  lemma GeneratedCodeIsSixDigits(num: nat, den: nat)
    requires num < den
    ensures VerifyCode.SixDigitCode(NatToString(GeneratedCode(num, den)))
  {
    assert Pow10(5) == 100000 by {
      assert Pow10(1) == 10;
    }
    NatToStringLength(GeneratedCode(num, den), 5);
  }

  /** `.gte('created_at', oneHourAgo)` for the phone. */
  function CreatedSince(phone: string, since: int): CodeRecord -> bool {
    (r: CodeRecord) => r.phoneNumber == phone && r.createdAt >= since
  }

  /** What the WhatsApp call came to. */
  datatype WhatsAppReply =
    | Delivered                 // ok and not `success: false`
    | Unsuccessful              // ok, but `success: false`
    | Connecting                // not ok, with `status: 'connecting'`
    | HttpFailure               // not ok otherwise
    | Threw(message: string)    // `fetch` rejected, or the reply's body is not JSON

  datatype SendResponse = CodeSent | CodeSavedConnecting | RateLimited | SendError(message: string)

  datatype WhatsAppMessage = WhatsAppMessage(to: string, text: string)

  function MessageText(code: string): string {
    "رمز التحقق الخاص بك هو: " + code + "\n\nهذا الرمز صالح لمدة 10 دقائق."
  }

  /**
   * The answer once the code is stored: only a delivered message or a connecting service count as
   * success; a refused message reports the WhatsApp failure and a throw reports its own text.
   */
  function ReplyResponse(reply: WhatsAppReply): (response: SendResponse)
    ensures response.SendError? <==> reply == Unsuccessful || reply == HttpFailure || reply.Threw?
    ensures response.SendError? && !reply.Threw? ==> response.message == WhatsAppFailedMessage
    ensures reply.Threw? && reply.message != [] ==> response == SendError(reply.message)
    ensures reply.Threw? && reply.message == [] ==> response == SendError(GenericErrorMessage)
  {
    match reply
    case Delivered => CodeSent
    case Connecting => CodeSavedConnecting
    case Unsuccessful => SendError(WhatsAppFailedMessage)
    case HttpFailure => SendError(WhatsAppFailedMessage)
    case Threw(message) => SendError(OrElse(message, GenericErrorMessage))
  }

  datatype SendStep = SendStep(response: SendResponse, sent: Option<WhatsAppMessage>, rows: seq<CodeRecord>)

  /**
   * What one request answers, sends and leaves in the table, given the drawn code's text, the new row's
   * id and expiry, whether the rate-limit query and the insert succeed, and the WhatsApp reply.
   */
  function Sending(rows: seq<CodeRecord>, newId: nat, rawPhone: string, code: string, now: int, expiresAt: int,
                   rateQueryOk: bool, insertOk: bool, reply: WhatsAppReply): SendStep
  {
    var phone := DigitsOnly(rawPhone);
    if !PhoneDigitsOk(phone) then SendStep(SendError(BadPhoneMessage), None, rows)
    else if rateQueryOk && |Where(rows, CreatedSince(phone, now - HourMs))| >= MaxCodesPerHour then
      SendStep(RateLimited, None, rows)
    else
      var kept := Where(rows, NotUnverified(phone));
      if !insertOk then SendStep(SendError(StoreFailedMessage), None, kept)
      else SendStep(ReplyResponse(reply), Some(WhatsAppMessage(Recipient(phone), MessageText(code))),
                    kept + [CodeRecord(newId, phone, code, false, None, now, expiresAt)])
  }

  /**
   * One request. The random number is `randomNum / randomDen`; `expiresAt` is the expiry the table's
   * default gives the new row.
   */
  method HandleSendVerification(table: CodeTable, rawPhone: string, randomNum: nat, randomDen: nat, now: int,
                                expiresAt: int, rateQueryOk: bool, insertOk: bool, reply: WhatsAppReply)
    returns (response: SendResponse, sent: Option<WhatsAppMessage>)
    requires table.Valid() && randomNum < randomDen
    modifies table
    ensures table.Valid()
    ensures SendStep(response, sent, table.rows) == Sending(old(table.rows), old(table.nextId), rawPhone,
      NatToString(GeneratedCode(randomNum, randomDen)), now, expiresAt, rateQueryOk, insertOk, reply)
  {
    var phone := DigitsOnly(rawPhone);
    if !PhoneDigitsOk(phone) {
      return SendError(BadPhoneMessage), None;
    }
    var whatsappPhoneNumber := Recipient(phone);
    var code := NatToString(GeneratedCode(randomNum, randomDen));
    var oneHourAgo := now - HourMs;
    if rateQueryOk {
      var recentCodes := Where(table.rows, CreatedSince(phone, oneHourAgo));
      if |recentCodes| >= MaxCodesPerHour {
        return RateLimited, None;
      }
    }
    table.Delete(NotUnverified(phone));
    if !insertOk {
      return SendError(StoreFailedMessage), None;
    }
    var id := table.Insert(phone, code, now, expiresAt);
    sent := Some(WhatsAppMessage(whatsappPhoneNumber, MessageText(code)));
    response := ReplyResponse(reply);
  }

  // ---------------------------------------------------------------- properties

  /** A refused phone or a rate-limited request changes nothing and sends nothing. */
  lemma RefusedLeavesTable(rows: seq<CodeRecord>, newId: nat, rawPhone: string, code: string, now: int, expiresAt: int,
                           rateQueryOk: bool, insertOk: bool, reply: WhatsAppReply)
    ensures var step := Sending(rows, newId, rawPhone, code, now, expiresAt, rateQueryOk, insertOk, reply);
      step.response == RateLimited ==> step.rows == rows && step.sent.None?
    ensures !PhoneDigitsOk(DigitsOnly(rawPhone)) ==>
      Sending(rows, newId, rawPhone, code, now, expiresAt, rateQueryOk, insertOk, reply) == SendStep(SendError(BadPhoneMessage), None, rows)
  {
  }

  /**
   * After a stored code, the phone has exactly one unused code, the new one, at the end; every verified
   * row and every other phone's row is kept.
   */
  lemma StoredCodeReplacesUnused(rows: seq<CodeRecord>, newId: nat, rawPhone: string, code: string, now: int,
                                 expiresAt: int, rateQueryOk: bool, reply: WhatsAppReply)
    requires Sending(rows, newId, rawPhone, code, now, expiresAt, rateQueryOk, true, reply).sent.Some?
    ensures var after := Sending(rows, newId, rawPhone, code, now, expiresAt, rateQueryOk, true, reply).rows;
      var phone := DigitsOnly(rawPhone);
      |after| >= 1 && after[|after| - 1] == CodeRecord(newId, phone, code, false, None, now, expiresAt) &&
      (forall i :: 0 <= i < |after| - 1 ==> !Unverified(after[i], phone)) &&
      (forall x :: x in rows && !Unverified(x, phone) ==> x in after)
  {
    var phone := DigitsOnly(rawPhone);
    WhereMembers(rows, NotUnverified(phone));
    var kept := Where(rows, NotUnverified(phone));
    forall i | 0 <= i < |kept|
      ensures !Unverified(kept[i], phone)
    {
      assert kept[i] in kept;
    }
  }

  /** Whatever WhatsApp answers, the stored code stays stored and the message went to `+` and the digits. */
  lemma StoredWhateverWhatsAppSays(rows: seq<CodeRecord>, newId: nat, rawPhone: string, code: string, now: int,
                                   expiresAt: int, rateQueryOk: bool, r1: WhatsAppReply, r2: WhatsAppReply)
    requires Sending(rows, newId, rawPhone, code, now, expiresAt, rateQueryOk, true, r1).sent.Some?
    ensures Sending(rows, newId, rawPhone, code, now, expiresAt, rateQueryOk, true, r1).rows ==
      Sending(rows, newId, rawPhone, code, now, expiresAt, rateQueryOk, true, r2).rows
    ensures Sending(rows, newId, rawPhone, code, now, expiresAt, rateQueryOk, true, r1).sent.value.to == "+" + DigitsOnly(rawPhone)
  {
  }

  /** Filtering first never adds rows to a later filter. */
  lemma {:induction false} WhereOfWhere(rows: seq<CodeRecord>, first: CodeRecord -> bool, second: CodeRecord -> bool)
    ensures |Where(Where(rows, first), second)| <= |Where(rows, second)|
  {
    if rows != [] {
      WhereOfWhere(rows[1..], first, second);
      var head := if first(rows[0]) then [rows[0]] else [];
      WhereAppend(head, Where(rows[1..], first), second);
    }
  }

  /**
   * While the rate-limit query works, the table never holds more than three of a phone's codes created
   * in the hour before a successful store. This bounds the rows held, not the codes sent: see
   * `NeverVerifiedPhoneNeverLimited`.
   */
  lemma AtMostThreeHeldPerHour(rows: seq<CodeRecord>, newId: nat, rawPhone: string, code: string, now: int,
                               expiresAt: int, reply: WhatsAppReply)
    requires Sending(rows, newId, rawPhone, code, now, expiresAt, true, true, reply).sent.Some?
    ensures var phone := DigitsOnly(rawPhone);
      |Where(Sending(rows, newId, rawPhone, code, now, expiresAt, true, true, reply).rows, CreatedSince(phone, now - HourMs))|
        <= MaxCodesPerHour
  {
    var phone := DigitsOnly(rawPhone);
    var kept := Where(rows, NotUnverified(phone));
    var newRow := CodeRecord(newId, phone, code, false, None, now, expiresAt);
    WhereAppend(kept, [newRow], CreatedSince(phone, now - HourMs));
    WhereOfWhere(rows, NotUnverified(phone), CreatedSince(phone, now - HourMs));
  }

  // ---------------------------------------------------------------- the rate limit as written

  /** `.eq('phone_number', phone)`. */
  function OfPhone(phone: string): CodeRecord -> bool {
    (r: CodeRecord) => r.phoneNumber == phone
  }

  /** None of the phone's rows is verified. */
  predicate NoVerifiedRow(rows: seq<CodeRecord>, phone: string) {
    forall i :: 0 <= i < |rows| && rows[i].phoneNumber == phone ==> !rows[i].verified
  }

  /** A phone that has never verified holds at most one row: the code it was last sent. */
  predicate HoldsOneUnverified(rows: seq<CodeRecord>, phone: string) {
    NoVerifiedRow(rows, phone) && |Where(rows, OfPhone(phone))| <= 1
  }

  /**
   * For a phone without a verified code, every request that gets past the rate check leaves it holding
   * at most one row, unverified: the deletion removes all the codes the rate check would count.
   */
  lemma SendLeavesOneUnverified(rows: seq<CodeRecord>, newId: nat, rawPhone: string, code: string, now: int,
                                expiresAt: int, rateQueryOk: bool, insertOk: bool, reply: WhatsAppReply)
    requires PhoneDigitsOk(DigitsOnly(rawPhone)) && NoVerifiedRow(rows, DigitsOnly(rawPhone))
    ensures var step := Sending(rows, newId, rawPhone, code, now, expiresAt, rateQueryOk, insertOk, reply);
      step.response != RateLimited ==> HoldsOneUnverified(step.rows, DigitsOnly(rawPhone))
  {
    var phone := DigitsOnly(rawPhone);
    var step := Sending(rows, newId, rawPhone, code, now, expiresAt, rateQueryOk, insertOk, reply);
    if step.response != RateLimited {
      var kept := Where(rows, NotUnverified(phone));
      WhereMembers(rows, NotUnverified(phone));
      forall i | 0 <= i < |kept|
        ensures kept[i].phoneNumber != phone
      {
        assert kept[i] in kept;
        var k :| 0 <= k < |rows| && rows[k] == kept[i];
      }
      WhereNone(kept, OfPhone(phone));
      var newRow := CodeRecord(newId, phone, code, false, None, now, expiresAt);
      WhereAppend(kept, [newRow], OfPhone(phone));
    }
  }

  /**
   * As written, a phone that never verifies is never refused: from a table where it holds at most one
   * unverified row, every request passes the rate check and leaves it so, however many requests come
   * and however close together.
   */
  lemma NeverVerifiedPhoneNeverLimited(rows: seq<CodeRecord>, newId: nat, rawPhone: string, code: string, now: int,
                                       expiresAt: int, rateQueryOk: bool, insertOk: bool, reply: WhatsAppReply)
    requires PhoneDigitsOk(DigitsOnly(rawPhone)) && HoldsOneUnverified(rows, DigitsOnly(rawPhone))
    ensures var step := Sending(rows, newId, rawPhone, code, now, expiresAt, rateQueryOk, insertOk, reply);
      step.response != RateLimited && HoldsOneUnverified(step.rows, DigitsOnly(rawPhone))
  {
    var phone := DigitsOnly(rawPhone);
    WhereShrinks(rows, CreatedSince(phone, now - HourMs), OfPhone(phone));
    SendLeavesOneUnverified(rows, newId, rawPhone, code, now, expiresAt, rateQueryOk, insertOk, reply);
  }

  // ---------------------------------------------------------------- the rate limit as intended

  /** `created_at` within the hour ending at `t`, both ends included, for the phone. */
  function InHour(phone: string, t: int): CodeRecord -> bool {
    (r: CodeRecord) => r.phoneNumber == phone && t - HourMs <= r.createdAt <= t
  }

  /** "3 per hour": no hour-long window holds more than three of a phone's issued codes. */
  ghost predicate ThreePerHour(issued: seq<CodeRecord>) {
    forall phone: string, t: int :: |Where(issued, InHour(phone, t))| <= MaxCodesPerHour
  }

  datatype LoggedStep = LoggedStep(step: SendStep, issued: seq<CodeRecord>)

  /**
   * The request with the rate check counting `issued`, a log of every code stored, which the deletion of
   * unused codes does not touch; otherwise as written. The code just stored joins the log.
   */
  function SendingWithLog(rows: seq<CodeRecord>, issued: seq<CodeRecord>, newId: nat, rawPhone: string, code: string,
                          now: int, expiresAt: int, rateQueryOk: bool, insertOk: bool, reply: WhatsAppReply): (r: LoggedStep)
    ensures r.step.sent.Some? ==> r.issued == issued + [CodeRecord(newId, DigitsOnly(rawPhone), code, false, None, now, expiresAt)]
    ensures r.step.sent.None? ==> r.issued == issued
  {
    var phone := DigitsOnly(rawPhone);
    if PhoneDigitsOk(phone) && rateQueryOk && |Where(issued, CreatedSince(phone, now - HourMs))| >= MaxCodesPerHour then
      LoggedStep(SendStep(RateLimited, None, rows), issued)
    else
      var step := Sending(rows, newId, rawPhone, code, now, expiresAt, false, insertOk, reply);
      LoggedStep(step, if step.sent.Some? then issued + [CodeRecord(newId, phone, code, false, None, now, expiresAt)] else issued)
  }

  /**
   * With the log, the promised limit holds: while the rate-limit query works, no request ever lets a
   * phone's issued codes exceed three in any hour-long window.
   */
  lemma LoggedSendKeepsThreePerHour(rows: seq<CodeRecord>, issued: seq<CodeRecord>, newId: nat, rawPhone: string,
                                    code: string, now: int, expiresAt: int, insertOk: bool, reply: WhatsAppReply)
    requires ThreePerHour(issued)
    ensures ThreePerHour(SendingWithLog(rows, issued, newId, rawPhone, code, now, expiresAt, true, insertOk, reply).issued)
  {
    var phone := DigitsOnly(rawPhone);
    var r := SendingWithLog(rows, issued, newId, rawPhone, code, now, expiresAt, true, insertOk, reply);
    if r.step.sent.Some? {
      var e := CodeRecord(newId, phone, code, false, None, now, expiresAt);
      assert |Where(issued, CreatedSince(phone, now - HourMs))| < MaxCodesPerHour;
      forall p: string, t: int
        ensures |Where(issued + [e], InHour(p, t))| <= MaxCodesPerHour
      {
        WhereAppend(issued, [e], InHour(p, t));
        if InHour(p, t)(e) {
          WhereShrinks(issued, InHour(p, t), CreatedSince(phone, now - HourMs));
        }
      }
    }
  }

  /** The corrected request refuses a fourth code within the hour, where the request as written does not. */
  lemma LoggedSendRefusesFourth(rows: seq<CodeRecord>, issued: seq<CodeRecord>, newId: nat, rawPhone: string,
                                code: string, now: int, expiresAt: int, insertOk: bool, reply: WhatsAppReply)
    requires PhoneDigitsOk(DigitsOnly(rawPhone))
    requires |Where(issued, InHour(DigitsOnly(rawPhone), now))| >= MaxCodesPerHour
    ensures SendingWithLog(rows, issued, newId, rawPhone, code, now, expiresAt, true, insertOk, reply).step ==
      SendStep(RateLimited, None, rows)
  {
    WhereShrinks(issued, InHour(DigitsOnly(rawPhone), now), CreatedSince(DigitsOnly(rawPhone), now - HourMs));
  }

  /**
   * The code just stored is accepted by verify-code for the same phone at any time before it expires,
   * provided the table's ids were below the new row's id.
   */
  lemma SentCodeVerifies(rows: seq<CodeRecord>, newId: nat, rawPhone: string, num: nat, den: nat, now: int,
                         expiresAt: int, rateQueryOk: bool, reply: WhatsAppReply, later: int)
    requires num < den && UniqueIds(rows) && (forall i :: 0 <= i < |rows| ==> rows[i].id < newId)
    requires Sending(rows, newId, rawPhone, NatToString(GeneratedCode(num, den)), now, expiresAt, rateQueryOk, true, reply).sent.Some?
    requires later < expiresAt
    ensures var code := NatToString(GeneratedCode(num, den));
      var after := Sending(rows, newId, rawPhone, code, now, expiresAt, rateQueryOk, true, reply).rows;
      VerifyCode.Verification(after, rawPhone, code, later, true).response == VerifyCode.Verified
  {
    var code := NatToString(GeneratedCode(num, den));
    var phone := DigitsOnly(rawPhone);
    var kept := Where(rows, NotUnverified(phone));
    var newRow := CodeRecord(newId, phone, code, false, None, now, expiresAt);
    var after := kept + [newRow];
    GeneratedCodeIsSixDigits(num, den);
    WhereMembers(rows, NotUnverified(phone));
    WhereUnique(rows, NotUnverified(phone));
    forall i | 0 <= i < |kept|
      ensures !Unverified(kept[i], phone) && kept[i].id < newId
    {
      assert kept[i] in kept;
    }
    assert UniqueIds(after);
    VerifyCode.VerifiedWhenSingleLiveCode(after, rawPhone, code, later, true, |kept|);
  }
}
