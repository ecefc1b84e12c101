/**
 * The `verification_codes` table shared by the send-verification and verify-code functions: its rows,
 * the phone check both functions apply, the filters and updates they run against the table, and the
 * table itself as an object whose row list those statements change.
 */
module VerificationStore {
  import opened Wrappers
  import opened JsText
  import opened Rows

  /**
   * A row of `verification_codes`. Times are integer milliseconds; `attempts` is nullable. Row ids are
   * numbers here (the table's are generated uuids; only their uniqueness matters).
   */
  datatype CodeRecord = CodeRecord(
    id: nat, phoneNumber: string, code: string, verified: bool, attempts: Option<int>,
    createdAt: int, expiresAt: int)

  /** `record.attempts || 0`: a null counter counts as zero. */
  function AttemptsOf(r: CodeRecord): int {
    if r.attempts.None? then 0 else r.attempts.value
  }

  /** `.eq('phone_number', phone).eq('verified', false)`. */
  predicate Unverified(r: CodeRecord, phone: string) {
    r.phoneNumber == phone && !r.verified
  }

  predicate UniqueIds(rows: seq<CodeRecord>) {
    forall i, j :: 0 <= i < j < |rows| ==> rows[i].id != rows[j].id
  }

  // ---------------------------------------------------------------- phone numbers

  /** Both functions accept between 10 and 15 digits. */
  predicate PhoneDigitsOk(digits: string) {
    10 <= |digits| <= 15
  }

  datatype PhoneCheck = PhoneOk(digits: string) | PhoneRejected(message: string)

  const PhoneRequiredMessage: string := "رقم الهاتف مطلوب"
  const BadPhoneMessage: string := "رقم الهاتف غير صحيح"

  /** `validatePhoneNumber`: required, then reduced to its digits, which must number 10 to 15. */
  function ValidatePhoneNumber(phone: string): (r: PhoneCheck)
    ensures r.PhoneOk? <==> phone != [] && PhoneDigitsOk(DigitsOnly(phone))
    ensures r.PhoneOk? ==> r.digits == DigitsOnly(phone) && AllDigits(r.digits)
  {
    if phone == [] then PhoneRejected(PhoneRequiredMessage)
    else if !PhoneDigitsOk(DigitsOnly(phone)) then PhoneRejected(BadPhoneMessage)
    else PhoneOk(DigitsOnly(phone))
  }

  /** A number that is already 10 to 15 digits passes unchanged. */
  lemma ValidPhoneUnchanged(digits: string)
    requires AllDigits(digits) && PhoneDigitsOk(digits)
    ensures ValidatePhoneNumber(digits) == PhoneOk(digits)
  {
    DigitsOnlyOfDigits(digits);
  }

  /** The WhatsApp recipient: `+` followed by the digits. */
  function Recipient(digits: string): (r: string)
    ensures |r| == |digits| + 1 && r[0] == '+' && r[1..] == digits
  {
    "+" + digits
  }

  // ---------------------------------------------------------------- filters

  /** The rows that do not carry `id`: what `.delete().eq('id', id)` keeps. */
  function OtherThan(id: nat): CodeRecord -> bool {
    (r: CodeRecord) => r.id != id
  }

  /** The rows `.delete().eq('phone_number', phone).eq('verified', false)` keeps. */
  function NotUnverified(phone: string): CodeRecord -> bool {
    (r: CodeRecord) => !Unverified(r, phone)
  }

  /** A filter of a table with unique ids has unique ids. */
  lemma {:induction false} WhereUnique(rows: seq<CodeRecord>, keep: CodeRecord -> bool)
    requires UniqueIds(rows)
    ensures UniqueIds(Where(rows, keep))
  {
    if rows != [] {
      WhereUnique(rows[1..], keep);
      WhereMembers(rows[1..], keep);
      var rest := Where(rows[1..], keep);
      forall x | x in rest
        ensures x.id != rows[0].id
      {
        var k :| 0 <= k < |rows[1..]| && rows[1..][k] == x;
        assert rows[k + 1] == x;
      }
    }
  }

  /** With unique ids, the row of a given id is the only one carrying it. */
  lemma RowOfId(rows: seq<CodeRecord>, x: CodeRecord, j: nat)
    requires UniqueIds(rows) && x in rows && j < |rows| && rows[j].id == x.id
    ensures rows[j] == x
  {
    var k :| 0 <= k < |rows| && rows[k] == x;
    assert k == j;
  }

  // ---------------------------------------------------------------- updates

  /** `.update({ verified: true }).eq('id', id)`. */
  function MarkedVerified(rows: seq<CodeRecord>, id: nat): (r: seq<CodeRecord>)
    ensures |r| == |rows|
  {
    seq(|rows|, j requires 0 <= j < |rows| => if rows[j].id == id then rows[j].(verified := true) else rows[j])
  }

  /** `.update({ attempts: n }).eq('id', id)`. */
  function WithAttempts(rows: seq<CodeRecord>, id: nat, n: int): (r: seq<CodeRecord>)
    ensures |r| == |rows|
  {
    seq(|rows|, j requires 0 <= j < |rows| => if rows[j].id == id then rows[j].(attempts := Some(n)) else rows[j])
  }

  /** One more failed attempt on a row. */
  function Bumped(r: CodeRecord): CodeRecord {
    r.(attempts := Some(AttemptsOf(r) + 1))
  }

  /**
   * The table after a wrong code: every unverified row for the phone counts one more attempt, and every
   * other row is as it was.
   */
  function AfterFailedAttempt(rows: seq<CodeRecord>, phone: string): (r: seq<CodeRecord>)
    ensures |r| == |rows|
    ensures forall j :: 0 <= j < |rows| ==>
      r[j].id == rows[j].id && r[j].phoneNumber == rows[j].phoneNumber && r[j].code == rows[j].code &&
      r[j].verified == rows[j].verified && r[j].expiresAt == rows[j].expiresAt && r[j].createdAt == rows[j].createdAt
    ensures forall j :: 0 <= j < |rows| ==>
      AttemptsOf(r[j]) == if Unverified(rows[j], phone) then AttemptsOf(rows[j]) + 1 else AttemptsOf(rows[j])
  {
    seq(|rows|, j requires 0 <= j < |rows| => if Unverified(rows[j], phone) then Bumped(rows[j]) else rows[j])
  }

  /** With unique ids, marking one id verified changes exactly the row with that id. */
  lemma MarkedVerifiedOne(rows: seq<CodeRecord>, k: nat)
    requires UniqueIds(rows) && k < |rows|
    ensures MarkedVerified(rows, rows[k].id) == rows[k := rows[k].(verified := true)]
  {
  }

  /** With unique ids, deleting an id removes exactly the row with that id. */
  lemma {:induction false} WithoutOne(rows: seq<CodeRecord>, k: nat)
    requires UniqueIds(rows) && k < |rows|
    ensures Where(rows, OtherThan(rows[k].id)) == rows[..k] + rows[k + 1..]
  {
    var id := rows[k].id;
    if k == 0 {
      WhereAll(rows[1..], OtherThan(id));
      assert rows[..0] + rows[1..] == rows[1..];
    } else {
      WithoutOne(rows[1..], k - 1);
      assert rows[1..][k - 1].id == id;
      assert rows[1..][..k - 1] + rows[1..][k..] == rows[1..k] + rows[k + 1..];
      assert rows[..k] + rows[k + 1..] == [rows[0]] + (rows[1..k] + rows[k + 1..]);
    }
  }

  // ---------------------------------------------------------------- the table

  class CodeTable {
    var rows: seq<CodeRecord>
    /** The id the next inserted row receives. */
    var nextId: nat

    /** Ids are unique and all below `nextId`. */
    predicate Valid()
      reads this
    {
      UniqueIds(rows) && forall i :: 0 <= i < |rows| ==> rows[i].id < nextId
    }

    constructor()
      ensures Valid() && rows == []
    {
      rows, nextId := [], 0;
    }

    /** `delete()` with a filter: the rows `keep` accepts stay, in order, and the others go. */
    method Delete(keep: CodeRecord -> bool)
      requires Valid()
      modifies this`rows
      ensures Valid()
      ensures rows == Where(old(rows), keep)
    {
      WhereUnique(rows, keep);
      WhereMembers(rows, keep);
      var kept := Where(rows, keep);
      forall i | 0 <= i < |kept|
        ensures kept[i].id < nextId
      {
        assert kept[i] in rows;
      }
      rows := kept;
    }

    /** `insert(...)` of a new code: unverified, counter null, created now; it receives a fresh id. */
    method Insert(phone: string, code: string, now: int, expiresAt: int) returns (id: nat)
      requires Valid()
      modifies this
      ensures Valid()
      ensures id == old(nextId) && nextId == old(nextId) + 1
      ensures rows == old(rows) + [CodeRecord(id, phone, code, false, None, now, expiresAt)]
    {
      id := nextId;
      rows := rows + [CodeRecord(id, phone, code, false, None, now, expiresAt)];
      nextId := nextId + 1;
    }

    method MarkVerified(id: nat)
      requires Valid()
      modifies this`rows
      ensures Valid()
      ensures rows == MarkedVerified(old(rows), id)
    {
      rows := MarkedVerified(rows, id);
    }

    method SetAttempts(id: nat, n: int)
      requires Valid()
      modifies this`rows
      ensures Valid()
      ensures rows == WithAttempts(old(rows), id, n)
    {
      rows := WithAttempts(rows, id, n);
    }
  }
}
