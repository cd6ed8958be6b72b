/** The rows of the database: events, bookings, lottery_draws and
    lottery_draw_seals, with the constraints of 001_init.sql.

    Bookings, draw rows and seals reference an event and no runtime role may
    delete events, so the tables are kept partitioned by event. */
module Tables {
  import opened Prelude
  import opened Text

  type EventId = int
  type UserId = int

  datatype Status = Open | Closed | Drawn | Cancelled

  /** `drawAt` is an instant of the database clock. */
  datatype EventRow = EventRow(title: string, description: string, capacity: int, winnerCount: int, drawAt: int,
                               creator: UserId, status: Status)

  /** The CHECK constraints of table events. */
  ghost predicate EventChecks(row: EventRow) {
    row.capacity > 0 && row.winnerCount > 0 && row.winnerCount <= row.capacity
  }

  datatype Booking = Booking(user: UserId, bookedAt: int)

  datatype DrawRow = DrawRow(id: int, event: EventId, user: UserId, rank: int, source: string, total: int,
                             drawnAt: Timestamp)

  /** SHA-256 in hexadecimal, of which only the hashed text is kept: two
      digests are equal exactly when the hashed texts are. */
  datatype Digest = Sha256(text: string)

  datatype SealRow = SealRow(digest: Digest, algorithm: string, sealedAt: Timestamp)

  /** One event with everything that references it. */
  datatype EventData = EventData(row: EventRow, bookings: seq<Booking>, draws: seq<DrawRow>, seal: Option<SealRow>)

  function Users(bookings: seq<Booking>): (us: seq<UserId>)
    ensures |us| == |bookings|
    ensures forall i :: 0 <= i < |us| ==> us[i] == bookings[i].user
  {
    seq(|bookings|, i requires 0 <= i < |bookings| => bookings[i].user)
  }

  function DrawnUsers(rows: seq<DrawRow>): (us: seq<UserId>)
    ensures |us| == |rows|
    ensures forall i :: 0 <= i < |us| ==> us[i] == rows[i].user
  {
    seq(|rows|, i requires 0 <= i < |rows| => rows[i].user)
  }
}
