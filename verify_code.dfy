/**
 * The verify-code function: the checks on the request, the lookup of the one live code for the phone,
 * the lockout after five failed attempts, the attempt counter every wrong code increments, and marking a
 * code as used.
 */
module VerifyCode {
  import opened Wrappers
  import opened JsText
  import opened VerificationStore
  import opened Rows

  const MissingMessage: string := "رقم الهاتف أو رمز التحقق مفقود"
  const BadCodeMessage: string := "رمز التحقق غير صحيح"
  const LookupMessage: string := "خطأ في التحقق من الرمز"
  const UpdateFailedMessage: string := "خطأ في تحديث حالة التحقق"

  /** A code whose counter has reached this is refused and deleted, even when it is right. */
  const MaxAttempts: int := 5

  /** `/^[0-9]{6}$/`: exactly six ASCII digits. */
  predicate SixDigitCode(code: string) {
    |code| == 6 && AllDigits(code)
  }

  /** The lookup's filter: same phone and code, not yet used, and expiring strictly after `now`. */
  predicate Matches(r: CodeRecord, phone: string, code: string, now: int) {
    r.phoneNumber == phone && r.code == code && !r.verified && r.expiresAt > now
  }

  function Matching(phone: string, code: string, now: int): CodeRecord -> bool {
    (r: CodeRecord) => Matches(r, phone, code, now)
  }

  function UnverifiedFor(phone: string): CodeRecord -> bool {
    (r: CodeRecord) => Unverified(r, phone)
  }

  /** The answers: 200 with success, 429, 400, or 500 with the error's message. */
  datatype VerifyResponse = Verified | TooManyAttempts | WrongOrExpired | VerifyError(message: string)

  datatype VerifyStep = VerifyStep(response: VerifyResponse, rows: seq<CodeRecord>)

  /**
   * What one request answers and leaves in the table. `maybeSingle` fails when more than one row
   * matches, which is reported as a lookup error; `updateOk` says whether marking the code as used succeeds.
   */
  function Verification(rows: seq<CodeRecord>, rawPhone: string, code: string, now: int, updateOk: bool): VerifyStep {
    if rawPhone == [] || code == [] then VerifyStep(VerifyError(MissingMessage), rows)
    else if !SixDigitCode(code) then VerifyStep(VerifyError(BadCodeMessage), rows)
    else match ValidatePhoneNumber(rawPhone)
      case PhoneRejected(message) => VerifyStep(VerifyError(message), rows)
      case PhoneOk(phone) =>
        var data := Where(rows, Matching(phone, code, now));
        if |data| > 1 then VerifyStep(VerifyError(LookupMessage), rows)
        else if |data| == 0 then VerifyStep(WrongOrExpired, AfterFailedAttempt(rows, phone))
        else if AttemptsOf(data[0]) >= MaxAttempts then VerifyStep(TooManyAttempts, Where(rows, OtherThan(data[0].id)))
        else if !updateOk then VerifyStep(VerifyError(UpdateFailedMessage), rows)
        else VerifyStep(Verified, MarkedVerified(rows, data[0].id))
  }

  // ---------------------------------------------------------------- the handler

  /**
   * The loop over the phone's unverified codes: each one's counter is written back as its old value
   * plus one, a null counter counting as zero.
   */
  method RecordFailedAttempt(table: CodeTable, phone: string)
    requires table.Valid()
    modifies table`rows
    ensures table.Valid()
    ensures table.rows == AfterFailedAttempt(old(table.rows), phone)
  {
    var existingCodes := Where(table.rows, UnverifiedFor(phone));
    WhereMembers(table.rows, UnverifiedFor(phone));
    WhereUnique(table.rows, UnverifiedFor(phone));
    ghost var before := table.rows;
    ghost var done: set<nat> := {};
    for i := 0 to |existingCodes|
      invariant table.Valid() && |table.rows| == |before|
      invariant done == set k | 0 <= k < i :: existingCodes[k].id
      invariant forall j :: 0 <= j < |before| ==>
        table.rows[j] == if before[j].id in done then Bumped(before[j]) else before[j]
    {
      var record := existingCodes[i];
      assert record.id !in done;
      forall j | 0 <= j < |before| && before[j].id == record.id
        ensures before[j] == record
      {
        RowOfId(before, record, j);
      }
      table.SetAttempts(record.id, AttemptsOf(record) + 1);
      done := done + {record.id};
    }
    forall j | 0 <= j < |before|
      ensures table.rows[j] == AfterFailedAttempt(before, phone)[j]
    {
      if Unverified(before[j], phone) {
        assert before[j] in existingCodes;
        var k :| 0 <= k < |existingCodes| && existingCodes[k] == before[j];
        assert before[j].id in done;
      } else if before[j].id in done {
        var k :| 0 <= k < |existingCodes| && existingCodes[k].id == before[j].id;
        RowOfId(before, existingCodes[k], j);
      }
    }
  }

  /** One request to the function, against the table. */
  method HandleVerifyCode(table: CodeTable, rawPhone: string, code: string, now: int, updateOk: bool)
    returns (response: VerifyResponse)
    requires table.Valid()
    modifies table`rows
    ensures table.Valid()
    ensures VerifyStep(response, table.rows) == Verification(old(table.rows), rawPhone, code, now, updateOk)
  {
    if rawPhone == [] || code == [] {
      return VerifyError(MissingMessage);
    }
    if !SixDigitCode(code) {
      return VerifyError(BadCodeMessage);
    }
    var checked := ValidatePhoneNumber(rawPhone);
    if checked.PhoneRejected? {
      return VerifyError(checked.message);
    }
    var phone := checked.digits;
    var data := Where(table.rows, Matching(phone, code, now));
    if |data| > 1 {
      return VerifyError(LookupMessage);
    }
    if |data| == 1 && AttemptsOf(data[0]) >= MaxAttempts {
      table.Delete(OtherThan(data[0].id));
      return TooManyAttempts;
    }
    if |data| == 0 {
      RecordFailedAttempt(table, phone);
      return WrongOrExpired;
    }
    if !updateOk {
      return VerifyError(UpdateFailedMessage);
    }
    table.MarkVerified(data[0].id);
    return Verified;
  }

  // ---------------------------------------------------------------- properties

  /** A filter that keeps exactly one row keeps that row alone. */
  lemma {:induction false} WhereOnly(rows: seq<CodeRecord>, keep: CodeRecord -> bool, k: nat)
    requires k < |rows| && keep(rows[k])
    requires forall i :: 0 <= i < |rows| && i != k ==> !keep(rows[i])
    ensures Where(rows, keep) == [rows[k]]
  {
    if k == 0 {
      WhereNone(rows[1..], keep);
    } else {
      WhereOnly(rows[1..], keep, k - 1);
    }
  }

  /** A refused request (500) leaves the table as it was. */
  lemma ErrorsLeaveTable(rows: seq<CodeRecord>, rawPhone: string, code: string, now: int, updateOk: bool)
    ensures Verification(rows, rawPhone, code, now, updateOk).response.VerifyError? ==>
      Verification(rows, rawPhone, code, now, updateOk).rows == rows
  {
  }

  /** A missing field, a code that is not six digits, or a phone outside 10 to 15 digits is refused. */
  lemma MalformedRequestsRefused(rows: seq<CodeRecord>, rawPhone: string, code: string, now: int, updateOk: bool)
    requires rawPhone == [] || !SixDigitCode(code) || !PhoneDigitsOk(DigitsOnly(rawPhone))
    ensures Verification(rows, rawPhone, code, now, updateOk) == VerifyStep(
      VerifyError(if rawPhone == [] || code == [] then MissingMessage
                  else if !SixDigitCode(code) then BadCodeMessage else BadPhoneMessage), rows)
  {
  }

  /**
   * The request succeeds exactly when the one live row for the phone and code has fewer than five
   * failed attempts and the update goes through; that row alone is marked as used.
   */
  lemma VerifiedWhenSingleLiveCode(rows: seq<CodeRecord>, rawPhone: string, code: string, now: int, updateOk: bool, k: nat)
    requires UniqueIds(rows) && SixDigitCode(code) && rawPhone != [] && PhoneDigitsOk(DigitsOnly(rawPhone))
    requires k < |rows| && Matches(rows[k], DigitsOnly(rawPhone), code, now)
    requires forall i :: 0 <= i < |rows| && i != k ==> !Matches(rows[i], DigitsOnly(rawPhone), code, now)
    ensures AttemptsOf(rows[k]) < MaxAttempts && updateOk ==>
      Verification(rows, rawPhone, code, now, updateOk) == VerifyStep(Verified, rows[k := rows[k].(verified := true)])
    ensures AttemptsOf(rows[k]) < MaxAttempts && !updateOk ==>
      Verification(rows, rawPhone, code, now, updateOk) == VerifyStep(VerifyError(UpdateFailedMessage), rows)
    ensures AttemptsOf(rows[k]) >= MaxAttempts ==>
      Verification(rows, rawPhone, code, now, updateOk) == VerifyStep(TooManyAttempts, rows[..k] + rows[k + 1..])
  {
    var phone := DigitsOnly(rawPhone);
    WhereOnly(rows, Matching(phone, code, now), k);
    MarkedVerifiedOne(rows, k);
    WithoutOne(rows, k);
  }

  /** Without a live row for the phone and code, the answer is 400 and every unverified row of the phone counts one more attempt. */
  lemma WrongCodeCounted(rows: seq<CodeRecord>, rawPhone: string, code: string, now: int, updateOk: bool)
    requires SixDigitCode(code) && rawPhone != [] && PhoneDigitsOk(DigitsOnly(rawPhone))
    requires forall i :: 0 <= i < |rows| ==> !Matches(rows[i], DigitsOnly(rawPhone), code, now)
    ensures Verification(rows, rawPhone, code, now, updateOk) == VerifyStep(WrongOrExpired, AfterFailedAttempt(rows, DigitsOnly(rawPhone)))
  {
    WhereNone(rows, Matching(DigitsOnly(rawPhone), code, now));
  }

  /** Any success comes from a live row with fewer than five attempts, and marks exactly that row. */
  lemma VerifiedOnlyFromLiveCode(rows: seq<CodeRecord>, rawPhone: string, code: string, now: int, updateOk: bool)
    requires UniqueIds(rows)
    requires Verification(rows, rawPhone, code, now, updateOk).response == Verified
    ensures updateOk && SixDigitCode(code) && ValidatePhoneNumber(rawPhone).PhoneOk?
    ensures exists k :: (0 <= k < |rows| && Matches(rows[k], DigitsOnly(rawPhone), code, now) &&
      AttemptsOf(rows[k]) < MaxAttempts &&
      Verification(rows, rawPhone, code, now, updateOk).rows == rows[k := rows[k].(verified := true)])
  {
    var phone := DigitsOnly(rawPhone);
    var data := Where(rows, Matching(phone, code, now));
    WhereMembers(rows, Matching(phone, code, now));
    assert data[0] in data;
    var k :| 0 <= k < |rows| && rows[k] == data[0];
    MarkedVerifiedOne(rows, k);
  }

  /** A code that was just accepted is not accepted again, now or later. */
  lemma NoReplay(rows: seq<CodeRecord>, rawPhone: string, code: string, now: int, updateOk: bool, later: int,
                  laterUpdateOk: bool)
    requires UniqueIds(rows) && now <= later
    requires Verification(rows, rawPhone, code, now, updateOk).response == Verified
    ensures Verification(Verification(rows, rawPhone, code, now, updateOk).rows, rawPhone, code, later, laterUpdateOk).response
      == WrongOrExpired
  {
    VerifiedOnlyFromLiveCode(rows, rawPhone, code, now, updateOk);
    var phone := DigitsOnly(rawPhone);
    var k :| 0 <= k < |rows| && Matches(rows[k], phone, code, now) && AttemptsOf(rows[k]) < MaxAttempts &&
      Verification(rows, rawPhone, code, now, updateOk).rows == rows[k := rows[k].(verified := true)];
    var after := rows[k := rows[k].(verified := true)];
    var data := Where(rows, Matching(phone, code, now));
    WhereMembers(rows, Matching(phone, code, now));
    forall i | 0 <= i < |after|
      ensures !Matches(after[i], phone, code, later)
    {
      if i != k {
        var r := rows[i];
        assert Matches(r, phone, code, later) ==> r in data;
      }
    }
    WrongCodeCounted(after, rawPhone, code, later, laterUpdateOk);
  }

  /** `n` wrong codes in a row. */
  function FailedAttempts(rows: seq<CodeRecord>, phone: string, n: nat): (r: seq<CodeRecord>)
    ensures |r| == |rows|
  {
    if n == 0 then rows else AfterFailedAttempt(FailedAttempts(rows, phone, n - 1), phone)
  }

  /** Wrong codes only count attempts: a live row stays live, and its counter grows by one per wrong code. */
  lemma {:induction false} FailedAttemptsCount(rows: seq<CodeRecord>, phone: string, n: nat, k: nat)
    requires k < |rows|
    ensures FailedAttempts(rows, phone, n)[k] == rows[k].(attempts := FailedAttempts(rows, phone, n)[k].attempts)
    ensures Unverified(rows[k], phone) ==> AttemptsOf(FailedAttempts(rows, phone, n)[k]) == AttemptsOf(rows[k]) + n
    ensures !Unverified(rows[k], phone) ==> FailedAttempts(rows, phone, n)[k] == rows[k]
  {
    if n > 0 {
      FailedAttemptsCount(rows, phone, n - 1, k);
    }
  }

  /** A fresh code after five wrong codes is locked: the right code is refused and the code is deleted. */
  lemma LockedAfterFiveWrongCodes(rows: seq<CodeRecord>, rawPhone: string, code: string, now: int, updateOk: bool, k: nat)
    requires UniqueIds(rows) && SixDigitCode(code) && rawPhone != [] && PhoneDigitsOk(DigitsOnly(rawPhone))
    requires k < |rows| && Matches(rows[k], DigitsOnly(rawPhone), code, now) && rows[k].attempts.None?
    requires forall i :: 0 <= i < |rows| && i != k ==> !Matches(rows[i], DigitsOnly(rawPhone), code, now)
    ensures Verification(FailedAttempts(rows, DigitsOnly(rawPhone), MaxAttempts), rawPhone, code, now, updateOk).response
      == TooManyAttempts
  {
    var phone := DigitsOnly(rawPhone);
    var after := FailedAttempts(rows, phone, MaxAttempts);
    forall i | 0 <= i < |after|
      ensures Matches(after[i], phone, code, now) <==> Matches(rows[i], phone, code, now)
    {
      FailedAttemptsCount(rows, phone, MaxAttempts, i);
    }
    FailedAttemptsCount(rows, phone, MaxAttempts, k);
    WhereOnly(after, Matching(phone, code, now), k);
  }
}
