/**
 * The `bookings` table as the approval function, the tracking page and the clients screen see it: its
 * rows, the status values, and the update-by-id statements they run on it.
 */
module BookingRecords {
  import opened Wrappers
  import opened Rows

  datatype Booking = Booking(
    id: string, service: string, bookingDate: string, bookingTime: string, bookingDuration: string,
    price: int, customerName: string, phoneNumber: string, notes: Option<string>, status: string,
    clientId: Option<string>)

  const Pending: string := "pending"
  const Approved: string := "approved"
  const Canceled: string := "canceled"

  /** Booking ids are the table's primary key. */
  predicate UniqueIds(bookings: seq<Booking>) {
    forall i, j :: 0 <= i < j < |bookings| ==> bookings[i].id != bookings[j].id
  }

  function HasId(id: string): Booking -> bool {
    (b: Booking) => b.id == id
  }

  /**
   * `.update({ status }).eq('id', id)` on the table, and `bookings.map(b => b.id === id ? { ...b, status } : b)`
   * on a page's copy: the rows with that id take the status, the others stay.
   */
  function WithStatus(bookings: seq<Booking>, id: string, status: string): (r: seq<Booking>)
    ensures |r| == |bookings|
  {
    seq(|bookings|, j requires 0 <= j < |bookings| => if bookings[j].id == id then bookings[j].(status := status) else bookings[j])
  }

  /** `.update({ client_id }).eq('id', id)`. */
  function WithClient(bookings: seq<Booking>, id: string, clientId: Option<string>): (r: seq<Booking>)
    ensures |r| == |bookings|
  {
    seq(|bookings|, j requires 0 <= j < |bookings| => if bookings[j].id == id then bookings[j].(clientId := clientId) else bookings[j])
  }

  /** With unique ids, a status update by id changes exactly the one row carrying that id. */
  lemma WithStatusOne(bookings: seq<Booking>, k: nat, status: string)
    requires UniqueIds(bookings) && k < |bookings|
    ensures WithStatus(bookings, bookings[k].id, status) == bookings[k := bookings[k].(status := status)]
  {
  }

  /** An update for an id no row carries changes nothing. */
  lemma WithStatusUnknown(bookings: seq<Booking>, id: string, status: string)
    requires forall j :: 0 <= j < |bookings| ==> bookings[j].id != id
    ensures WithStatus(bookings, id, status) == bookings
  {
  }

  /** Updates by id keep the ids, so they keep them unique. */
  lemma UpdatesKeepIds(bookings: seq<Booking>, id: string, status: string, clientId: Option<string>)
    ensures forall j :: 0 <= j < |bookings| ==>
      WithStatus(bookings, id, status)[j].id == bookings[j].id && WithClient(bookings, id, clientId)[j].id == bookings[j].id
    ensures UniqueIds(bookings) ==> UniqueIds(WithStatus(bookings, id, status)) && UniqueIds(WithClient(bookings, id, clientId))
  {
  }

  /** The bookings table. */
  class BookingTable {
    var rows: seq<Booking>

    predicate Valid()
      reads this
    {
      UniqueIds(rows)
    }

    constructor(rows: seq<Booking>)
      requires UniqueIds(rows)
      ensures Valid() && this.rows == rows
    {
      this.rows := rows;
    }

    method SetStatus(id: string, status: string)
      requires Valid()
      modifies this
      ensures Valid()
      ensures rows == WithStatus(old(rows), id, status)
    {
      UpdatesKeepIds(rows, id, status, None);
      rows := WithStatus(rows, id, status);
    }

    method SetClient(id: string, clientId: Option<string>)
      requires Valid()
      modifies this
      ensures Valid()
      ensures rows == WithClient(old(rows), id, clientId)
    {
      UpdatesKeepIds(rows, id, Pending, clientId);
      rows := WithClient(rows, id, clientId);
    }
  }
}
