/**
 * The clients screen of the admin panel: a client's bookings and the unassigned ones, assigning and
 * unassigning a booking, the row written for a new client, and appending a progress note to a client.
 */
module ClientsManagement {
  import opened Wrappers
  import opened JsText
  import opened BookingRecords
  import opened Rows

  datatype ProgressEntry = ProgressEntry(note: string, timestamp: string)

  /**
   * The stored `progress` column: a JSON array of entries, a single truthy value, or a falsy value
   * (null, missing, `false`, `0`, `""`).
   */
  datatype Progress = ProgressArray(entries: seq<ProgressEntry>) | ProgressSingle(entry: ProgressEntry) | ProgressFalsy

  datatype Client = Client(
    id: string, name: string, age: Option<int>, phoneNumber: string, gender: Option<string>,
    address: Option<string>, progress: Progress)

  // ---------------------------------------------------------------- progress notes

  /** `currentProgress`: an array as it is, a single value as a one-entry list, a falsy value as none. */
  function CurrentProgress(p: Progress): seq<ProgressEntry> {
    match p
    case ProgressArray(entries) => entries
    case ProgressSingle(entry) => [entry]
    case ProgressFalsy => []
  }

  /** `updatedProgress`: the current entries, then the new note. */
  function UpdatedProgress(p: Progress, entry: ProgressEntry): (r: seq<ProgressEntry>)
    ensures |r| == |CurrentProgress(p)| + 1 && r[|r| - 1] == entry
    ensures forall i :: 0 <= i < |CurrentProgress(p)| ==> r[i] == CurrentProgress(p)[i]
  {
    CurrentProgress(p) + [entry]
  }

  /** `!newProgress.trim()`: an empty or white-space-only note. */
  predicate Blank(note: string) {
    Trim(note) == []
  }

  /**
   * The note list the clients table holds after adding `notes` one by one while the dialog stays open,
   * each write computed from the dialog's client snapshot as the screen holds it. `refresh` says whether
   * the snapshot is replaced by the written row after each write.
   */
  function ProgressAfterNotes(snapshot: Progress, stored: Progress, notes: seq<ProgressEntry>, refresh: bool): Progress
    decreases |notes|
  {
    if notes == [] then stored
    else
      var written := ProgressArray(UpdatedProgress(snapshot, notes[0]));
      ProgressAfterNotes(if refresh then written else snapshot, written, notes[1..], refresh)
  }

  /** As written: every write starts again from the snapshot, so only the last note is added. */
  lemma {:induction false} StaleSnapshotKeepsLastNoteOnly(p: Progress, stored: Progress, notes: seq<ProgressEntry>)
    requires |notes| >= 1
    ensures CurrentProgress(ProgressAfterNotes(p, stored, notes, false)) == CurrentProgress(p) + [notes[|notes| - 1]]
    decreases |notes|
  {
    if |notes| > 1 {
      StaleSnapshotKeepsLastNoteOnly(p, ProgressArray(UpdatedProgress(p, notes[0])), notes[1..]);
    }
  }

  /** Two notes on a client without notes: the table ends with the second note alone. */
  lemma SecondNoteOverwritesFirst(a: ProgressEntry, b: ProgressEntry)
    ensures CurrentProgress(ProgressAfterNotes(ProgressFalsy, ProgressFalsy, [a, b], false)) == [b]
  {
    StaleSnapshotKeepsLastNoteOnly(ProgressFalsy, ProgressFalsy, [a, b]);
  }

  /** Refreshing the snapshot after each write keeps every note, in order, after the existing ones. */
  lemma {:induction false} RefreshedSnapshotKeepsAllNotes(p: Progress, stored: Progress, notes: seq<ProgressEntry>)
    requires |notes| >= 1
    ensures CurrentProgress(ProgressAfterNotes(p, stored, notes, true)) == CurrentProgress(p) + notes
    decreases |notes|
  {
    var written := ProgressArray(UpdatedProgress(p, notes[0]));
    if |notes| > 1 {
      RefreshedSnapshotKeepsAllNotes(written, written, notes[1..]);
      assert CurrentProgress(written) + notes[1..] == CurrentProgress(p) + notes;
    }
  }

  // ---------------------------------------------------------------- bookings of a client

  /** `getClientBookings`: the bookings whose `client_id` is the client's. */
  function ClientBookings(bookings: seq<Booking>, clientId: string): seq<Booking> {
    Where(bookings, (b: Booking) => b.clientId == Some(clientId))
  }

  /** `!booking.client_id`: no client, or the empty text. */
  predicate Unassigned(b: Booking) {
    b.clientId.None? || b.clientId == Some("")
  }

  /** `getAvailableBookings`: the bookings without a client. */
  function AvailableBookings(bookings: seq<Booking>): seq<Booking> {
    Where(bookings, Unassigned)
  }

  /**
   * A booking is listed under a (non-empty) client id exactly when it carries it, as available exactly
   * when it carries none, and never in both lists.
   */
  lemma Partition(bookings: seq<Booking>, clientId: string)
    requires clientId != []
    ensures forall b :: b in ClientBookings(bookings, clientId) <==> b in bookings && b.clientId == Some(clientId)
    ensures forall b :: b in AvailableBookings(bookings) <==> b in bookings && Unassigned(b)
    ensures forall b :: !(b in ClientBookings(bookings, clientId) && b in AvailableBookings(bookings))
  {
    WhereMembers(bookings, (b: Booking) => b.clientId == Some(clientId));
    WhereMembers(bookings, Unassigned);
  }

  /** After assigning, the booking is the client's and no longer available; after unassigning, it is available. */
  lemma AssignMovesBooking(bookings: seq<Booking>, k: nat, clientId: string)
    requires UniqueIds(bookings) && k < |bookings| && clientId != []
    ensures var after := WithClient(bookings, bookings[k].id, Some(clientId));
      after[k] in ClientBookings(after, clientId) && after[k] !in AvailableBookings(after) &&
      after == bookings[k := bookings[k].(clientId := Some(clientId))]
    ensures var after := WithClient(bookings, bookings[k].id, None);
      after[k] in AvailableBookings(after) && after[k] !in ClientBookings(after, clientId) &&
      after == bookings[k := bookings[k].(clientId := None)]
  {
    var toClient := WithClient(bookings, bookings[k].id, Some(clientId));
    var toNone := WithClient(bookings, bookings[k].id, None);
    Partition(toClient, clientId);
    Partition(toNone, clientId);
  }

  // ---------------------------------------------------------------- new clients

  datatype NewClientForm = NewClientForm(name: string, age: string, phoneNumber: string, gender: string, address: string)

  datatype ClientInsert = ClientInsert(
    name: string, age: Option<int>, phoneNumber: string, gender: Option<string>, address: Option<string>)

  /**
   * The row `handleAddClient` inserts: the age is parsed only when given (a NaN is written as null, as
   * JSON has no NaN), an empty gender or address is null.
   */
  function NewClientRow(form: NewClientForm): (row: ClientInsert)
    ensures row.name == form.name && row.phoneNumber == form.phoneNumber
    ensures row.age.Some? <==> form.age != [] && ParseInt(form.age).Finite?
    ensures row.gender.None? <==> form.gender == []
    ensures row.address.None? <==> form.address == []
    ensures row.gender.Some? ==> row.gender.value == form.gender
    ensures row.address.Some? ==> row.address.value == form.address
  {
    ClientInsert(
      form.name,
      if form.age == [] then None else (match ParseInt(form.age) case Finite(n) => Some(n) case NaN => None),
      form.phoneNumber,
      if form.gender == [] then None else Some(form.gender),
      if form.address == [] then None else Some(form.address))
  }

  /** An age typed as plain digits is stored as their value. */
  lemma AgeOfDigits(form: NewClientForm)
    requires |form.age| > 0 && AllDigits(form.age)
    ensures NewClientRow(form).age == Some(DigitsValue(form.age))
  {
    assert form.age + [] == form.age;
    ParseIntOfNumeral(form.age, []);
  }

  const EmptyForm: NewClientForm := NewClientForm([], [], [], [], [])

  /** `.update({ progress }).eq('id', id)`. */
  function WithProgress(clients: seq<Client>, id: string, progress: Progress): (r: seq<Client>)
    ensures |r| == |clients|
  {
    seq(|clients|, j requires 0 <= j < |clients| => if clients[j].id == id then clients[j].(progress := progress) else clients[j])
  }

  /** The clients left after `.delete().eq('id', id)`. */
  function WithoutClient(clients: seq<Client>, id: string): (r: seq<Client>)
    ensures |r| <= |clients|
    ensures forall c :: c in r <==> c in clients && c.id != id
  {
    if clients == [] then []
    else (if clients[0].id != id then [clients[0]] else []) + WithoutClient(clients[1..], id)
  }

  /**
   * The screen. `clients` and `bookings` are the tables as the screen last fetched them; every successful
   * write is followed by a fetch, so they are updated with the write.
   */
  class ClientsScreen {
    var clients: seq<Client>
    var bookings: seq<Booking>
    /** The client whose notes dialog was opened, as it was when opened. */
    var selectedClient: Option<Client>
    var newProgress: string
    var newClient: NewClientForm

    constructor(clients: seq<Client>, bookings: seq<Booking>)
      ensures this.clients == clients && this.bookings == bookings
      ensures selectedClient.None? && newProgress == [] && newClient == EmptyForm
    {
      this.clients, this.bookings := clients, bookings;
      selectedClient, newProgress, newClient := None, [], EmptyForm;
    }

    /** Opening a client's notes dialog. */
    method SelectClient(client: Client)
      modifies this`selectedClient
      ensures selectedClient == Some(client)
    {
      selectedClient := Some(client);
    }

    /**
     * `handleAddProgress`: nothing for a blank note or without a client; otherwise the snapshot's notes
     * plus the new one are written to that client, and on success the note field is cleared. The snapshot
     * itself is not refreshed.
     */
    method HandleAddProgress(timestamp: string, updateOk: bool) returns (written: Option<seq<ProgressEntry>>)
      modifies this`clients, this`newProgress
      ensures Blank(old(newProgress)) || selectedClient.None? ==>
        written.None? && clients == old(clients) && newProgress == old(newProgress)
      ensures !Blank(old(newProgress)) && selectedClient.Some? ==>
        written == Some(UpdatedProgress(selectedClient.value.progress, ProgressEntry(old(newProgress), timestamp)))
      ensures written.Some? && updateOk ==>
        clients == WithProgress(old(clients), selectedClient.value.id, ProgressArray(written.value)) && newProgress == []
      ensures written.Some? && !updateOk ==> clients == old(clients) && newProgress == old(newProgress)
    {
      if Blank(newProgress) || selectedClient.None? {
        return None;
      }
      var client := selectedClient.value;
      var updated := UpdatedProgress(client.progress, ProgressEntry(newProgress, timestamp));
      written := Some(updated);
      if updateOk {
        clients := WithProgress(clients, client.id, ProgressArray(updated));
        newProgress := [];
      }
    }

    /** The same, with the snapshot replaced by the written row after a successful write. */
    method HandleAddProgressRefreshed(timestamp: string, updateOk: bool) returns (written: Option<seq<ProgressEntry>>)
      modifies this`clients, this`newProgress, this`selectedClient
      ensures Blank(old(newProgress)) || old(selectedClient).None? ==>
        written.None? && clients == old(clients) && newProgress == old(newProgress) && selectedClient == old(selectedClient)
      ensures !Blank(old(newProgress)) && old(selectedClient).Some? ==>
        written == Some(UpdatedProgress(old(selectedClient).value.progress, ProgressEntry(old(newProgress), timestamp)))
      ensures written.Some? && updateOk ==>
        clients == WithProgress(old(clients), old(selectedClient).value.id, ProgressArray(written.value)) &&
        newProgress == [] && selectedClient == Some(old(selectedClient).value.(progress := ProgressArray(written.value)))
      ensures written.Some? && !updateOk ==>
        clients == old(clients) && newProgress == old(newProgress) && selectedClient == old(selectedClient)
    {
      if Blank(newProgress) || selectedClient.None? {
        return None;
      }
      var client := selectedClient.value;
      var updated := UpdatedProgress(client.progress, ProgressEntry(newProgress, timestamp));
      written := Some(updated);
      if updateOk {
        clients := WithProgress(clients, client.id, ProgressArray(updated));
        selectedClient := Some(client.(progress := ProgressArray(updated)));
        newProgress := [];
      }
    }

    /** `handleAssignBooking`: the booking's `client_id` becomes the client's. */
    method HandleAssignBooking(bookingId: string, clientId: string, updateOk: bool)
      modifies this`bookings
      ensures bookings == if updateOk then WithClient(old(bookings), bookingId, Some(clientId)) else old(bookings)
    {
      if updateOk {
        bookings := WithClient(bookings, bookingId, Some(clientId));
      }
    }

    /** `handleUnassignBooking`: the booking's `client_id` becomes null. */
    method HandleUnassignBooking(bookingId: string, updateOk: bool)
      modifies this`bookings
      ensures bookings == if updateOk then WithClient(old(bookings), bookingId, None) else old(bookings)
    {
      if updateOk {
        bookings := WithClient(bookings, bookingId, None);
      }
    }

    /**
     * `handleAddClient`: the form's row is inserted; on success the form is cleared and the refetched list,
     * newest first, starts with the new client (with the id the table gave it and no notes).
     */
    method HandleAddClient(newId: string, insertOk: bool) returns (row: ClientInsert)
      modifies this`clients, this`newClient
      ensures row == NewClientRow(old(newClient))
      ensures insertOk ==> newClient == EmptyForm
      ensures insertOk ==>
        clients == [Client(newId, row.name, row.age, row.phoneNumber, row.gender, row.address, ProgressFalsy)] + old(clients)
      ensures !insertOk ==> newClient == old(newClient) && clients == old(clients)
    {
      row := NewClientRow(newClient);
      if insertOk {
        clients := [Client(newId, row.name, row.age, row.phoneNumber, row.gender, row.address, ProgressFalsy)] + clients;
        newClient := EmptyForm;
      }
    }

    /** `handleDeleteClient`: the client with the id is gone, the others stay. */
    method HandleDeleteClient(clientId: string, deleteOk: bool)
      modifies this`clients
      ensures clients == if deleteOk then WithoutClient(old(clients), clientId) else old(clients)
    {
      if deleteOk {
        clients := WithoutClient(clients, clientId);
      }
    }
  }
}
