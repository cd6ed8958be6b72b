/** The database as a transition system: committed tables, open transactions
    with their private writes, and one row lock per event.

    Each statement reads the current committed state (PostgreSQL documentation,
    section 13.2.1, Read Committed) and a row locked FOR UPDATE stays locked to
    the end of the transaction (section 13.3.2, Row-Level Locks). Any number of
    transactions of any kind may be open at once and any of them may take the
    next step, so this system already contains every interleaving of requests
    on any number of replicas, whether or not they pass the gate and Redis. */
module Database {
  import opened Prelude
  import opened Tables
  import opened Transactions

  type TxId = nat

  datatype Tx = Tx(req: Request, at: Point)

  /** A finished transaction and what its caller was told. */
  datatype Outcome = Outcome(req: Request, reply: Reply)

  datatype Db = Db(users: set<UserId>, events: map<EventId, EventData>, locks: map<EventId, TxId>,
                   txs: map<TxId, Tx>, log: map<TxId, Outcome>)

  const EMPTY_DB := Db({}, map[], map[], map[], map[])

  /** Commit(t, false) is a commit whose reply does not reach the caller. Abort
      stands for every other failure: a lost connection, a cancelled context, a
      crash of the replica, a statement error. */
  datatype Step =
    | AddUser(user: UserId)
    | CreateEvent(event: EventId, row: EventRow)
    | Begin(tx: TxId, req: Request)
    | Statement(tx: TxId, input: Input)
    | Commit(tx: TxId, replied: bool)
    | Abort(tx: TxId)

  predicate Enabled(db: Db, step: Step) {
    match step
    case AddUser(_) => true
    case CreateEvent(e, row) =>
      && e !in db.events && row.status == Open
      && row.capacity > 0 && row.winnerCount > 0 && row.winnerCount <= row.capacity
    case Begin(t, _) => t !in db.txs && t !in db.log
    case Statement(t, input) => t in db.txs && MayExecute(db, t, input)
    case Commit(t, _) => t in db.txs && Committable(db.txs[t].at) && db.txs[t].req.event in db.events
    case Abort(t) => t in db.txs
  }

  /** SELECT ... FOR UPDATE waits for the row lock; there is nothing to wait
      for when the event does not exist. Later statements hold the lock. */
  predicate MayExecute(db: Db, t: TxId, input: Input)
    requires t in db.txs
  {
    var tx := db.txs[t];
    var e := tx.req.event;
    if e in db.events then
      (tx.at == Begun ==> e !in db.locks) && Next(tx.req, tx.at, db.events[e], db.users, input).Some?
    else tx.at == Begun
  }

  /** The transaction ends: its lock is released and its writes are gone. */
  function Finished(db: Db, t: TxId, reply: Reply): Db
    requires t in db.txs
  {
    var req := db.txs[t].req;
    var locks := if req.event in db.locks && db.locks[req.event] == t then db.locks - {req.event} else db.locks;
    db.(locks := locks, txs := db.txs - {t}, log := db.log[t := Outcome(req, reply)])
  }

  function Executed(db: Db, t: TxId, input: Input): Db
    requires t in db.txs && MayExecute(db, t, input)
  {
    var tx := db.txs[t];
    var e := tx.req.event;
    if e !in db.events then Finished(db, t, NotFound)
    else match Next(tx.req, tx.at, db.events[e], db.users, input).value
      case Continue(at) => db.(locks := db.locks[e := t], txs := db.txs[t := Tx(tx.req, at)])
      case Finish(reply) => Finished(db, t, reply)
  }

  function Committed(db: Db, t: TxId, replied: bool): Db
    requires t in db.txs && Committable(db.txs[t].at) && db.txs[t].req.event in db.events
  {
    var tx := db.txs[t];
    var e := tx.req.event;
    Finished(db.(events := db.events[e := Written(tx.at, db.events[e])]), t,
             if replied then CommitReply(tx.req, tx.at) else Failed(true))
  }

  function Apply(db: Db, step: Step): Db
    requires Enabled(db, step)
  {
    match step
    case AddUser(u) => db.(users := db.users + {u})
    case CreateEvent(e, row) => db.(events := db.events[e := EventData(row, [], [], None)])
    case Begin(t, req) => db.(txs := db.txs[t := Tx(req, Begun)])
    case Statement(t, input) => Executed(db, t, input)
    case Commit(t, replied) => Committed(db, t, replied)
    case Abort(t) => Finished(db, t, Failed(false))
  }

  /** `steps` can be taken from `db`, one after the other. */
  predicate Runs(db: Db, steps: seq<Step>)
    decreases |steps|
  {
    steps == [] || (Enabled(db, steps[0]) && Runs(Apply(db, steps[0]), steps[1..]))
  }

  function Final(db: Db, steps: seq<Step>): Db
    requires Runs(db, steps)
    decreases |steps|
  {
    if steps == [] then db else Final(Apply(db, steps[0]), steps[1..])
  }

  lemma {:induction false} RunsAppend(db: Db, a: seq<Step>, b: seq<Step>)
    requires Runs(db, a) && Runs(Final(db, a), b)
    ensures Runs(db, a + b) && Final(db, a + b) == Final(Final(db, a), b)
    decreases |a|
  {
    if a == [] {
      assert a + b == b;
    } else {
      assert (a + b)[0] == a[0] && (a + b)[1..] == a[1..] + b;
      RunsAppend(Apply(db, a[0]), a[1..], b);
    }
  }

  lemma {:induction false} RunsSplit(db: Db, a: seq<Step>, c: seq<Step>)
    requires Runs(db, c) && a <= c
    ensures Runs(db, a) && Runs(Final(db, a), c[|a|..]) && Final(db, c) == Final(Final(db, a), c[|a|..])
    decreases |a|
  {
    if a == [] {
      assert c[0..] == c;
    } else {
      assert c[1..][|a[1..]|..] == c[|a|..];
      RunsSplit(Apply(db, a[0]), a[1..], c[1..]);
    }
  }

  /* ---- The invariant ---- */

  /** A transaction past its first statement owns its event's row lock, and what
      it has read is still what is committed. */
  ghost predicate TxOk(db: Db, t: TxId)
    requires t in db.txs
  {
    var tx := db.txs[t];
    tx.at != Begun ==>
      && tx.req.event in db.events
      && tx.req.event in db.locks && db.locks[tx.req.event] == t
      && Current(tx.req, tx.at, db.events[tx.req.event])
  }

  ghost predicate LockOk(db: Db, e: EventId)
    requires e in db.locks
  {
    db.locks[e] in db.txs && db.txs[db.locks[e]].req.event == e && db.txs[db.locks[e]].at != Begun
  }

  /** Transactions that put a booking of `e` into the table. */
  ghost predicate TookSeat(db: Db, e: EventId, t: TxId) {
    t in db.log && db.log[t].req.Book? && db.log[t].req.event == e
    && (db.log[t].reply == Booked || db.log[t].reply == Failed(true))
  }

  /** Transactions that drew `e`. */
  ghost predicate Drew(db: Db, e: EventId, t: TxId) {
    t in db.log && db.log[t].req == RunDraw(e) && (db.log[t].reply.DrawDone? || db.log[t].reply == Failed(true))
  }

  ghost predicate LogOk(db: Db, t: TxId)
    requires t in db.log
  {
    var o := db.log[t];
    if o.req.event in db.events then ReplyOk(o.req, o.reply, db.events[o.req.event])
    else o.reply == NotFound || o.reply == Failed(false)
  }

  /** Every booking was made by a logged transaction, every draw as well, and no
      two of them made the same one. */
  ghost predicate Accounted(db: Db, e: EventId)
    requires e in db.events
  {
    && (forall u :: u in Users(db.events[e].bookings) ==> exists t :: TookSeat(db, e, t) && db.log[t].req.user == u)
    && (forall t, t' :: TookSeat(db, e, t) && TookSeat(db, e, t') && db.log[t].req.user == db.log[t'].req.user ==> t == t')
    && (db.events[e].row.status == Drawn ==> exists t :: Drew(db, e, t))
    && (forall t, t' :: Drew(db, e, t) && Drew(db, e, t') ==> t == t')
  }

  ghost predicate Core(db: Db) {
    && db.txs.Keys !! db.log.Keys
    && (forall t :: t in db.txs ==> TxOk(db, t))
    && (forall e :: e in db.locks ==> LockOk(db, e))
    && (forall e :: e in db.events ==> DataOk(e, db.events[e]))
    && (forall t :: t in db.log ==> LogOk(db, t))
  }

  /** The foreign key of bookings: whoever is booked, or about to be by an open
      transaction, has an account. */
  ghost predicate UsersKnown(db: Db) {
    && (forall e, u :: e in db.events && u in Users(db.events[e].bookings) ==> u in db.users)
    && (forall t :: t in db.txs && db.txs[t].at.BookInserted? ==> db.txs[t].at.booking.user in db.users)
  }

  ghost predicate Inv(db: Db) {
    Core(db) && UsersKnown(db) && forall e :: e in db.events ==> Accounted(db, e)
  }

  /* ---- Preservation, step by step ---- */

  lemma CreateKeepsCore(db: Db, e: EventId, row: EventRow)
    requires Core(db) && Enabled(db, CreateEvent(e, row))
    ensures Core(Apply(db, CreateEvent(e, row)))
  {
    var db' := Apply(db, CreateEvent(e, row));
    forall t | t in db'.txs
      ensures TxOk(db', t)
    {
      assert TxOk(db, t);
    }
    forall f | f in db'.locks
      ensures LockOk(db', f)
    {
      assert LockOk(db, f);
    }
    forall t | t in db'.log
      ensures LogOk(db', t)
    {
      assert LogOk(db, t);
    }
  }

  lemma BeginKeepsCore(db: Db, t: TxId, req: Request)
    requires Core(db) && Enabled(db, Begin(t, req))
    ensures Core(Apply(db, Begin(t, req)))
  {
    var db' := Apply(db, Begin(t, req));
    forall t' | t' in db'.txs
      ensures TxOk(db', t')
    {
      assert t' != t ==> TxOk(db, t');
    }
    forall e | e in db'.locks
      ensures LockOk(db', e)
    {
      assert LockOk(db, e);
    }
    forall t' | t' in db'.log
      ensures LogOk(db', t')
    {
      assert LogOk(db, t');
    }
  }

  /** Ending a transaction with a reply that is true of the tables. */
  lemma FinishKeepsCore(db: Db, t: TxId, reply: Reply)
    requires Core(db) && t in db.txs
    requires var req := db.txs[t].req;
             if req.event in db.events then ReplyOk(req, reply, db.events[req.event])
             else reply == NotFound || reply == Failed(false)
    ensures Core(Finished(db, t, reply))
  {
    var db' := Finished(db, t, reply);
    forall t' | t' in db'.txs
      ensures TxOk(db', t')
    {
      assert TxOk(db, t');
    }
    forall e | e in db'.locks
      ensures LockOk(db', e)
    {
      assert LockOk(db, e);
    }
    forall t' | t' in db'.log
      ensures LogOk(db', t')
    {
      assert t' != t ==> LogOk(db, t');
    }
  }

  lemma ContinueKeepsCore(db: Db, t: TxId, at: Point)
    requires Core(db) && t in db.txs && at != Begun
    requires var tx := db.txs[t];
             && tx.req.event in db.events
             && (tx.at == Begun ==> tx.req.event !in db.locks)
             && Current(tx.req, at, db.events[tx.req.event])
    ensures var tx := db.txs[t];
            Core(db.(locks := db.locks[tx.req.event := t], txs := db.txs[t := Tx(tx.req, at)]))
  {
    var tx := db.txs[t];
    var e := tx.req.event;
    var db' := db.(locks := db.locks[e := t], txs := db.txs[t := Tx(tx.req, at)]);
    assert TxOk(db, t);
    forall t' | t' in db'.txs
      ensures TxOk(db', t')
    {
      assert TxOk(db, t');
    }
    forall f | f in db'.locks
      ensures LockOk(db', f)
    {
      assert f != e ==> LockOk(db, f);
    }
    forall t' | t' in db'.log
      ensures LogOk(db', t')
    {
      assert LogOk(db, t');
    }
  }

  lemma StatementKeepsCore(db: Db, t: TxId, input: Input)
    requires Core(db) && Enabled(db, Statement(t, input))
    ensures Core(Apply(db, Statement(t, input)))
  {
    var tx := db.txs[t];
    var e := tx.req.event;
    assert TxOk(db, t);
    if e !in db.events {
      FinishKeepsCore(db, t, NotFound);
    } else {
      NextIsCurrent(tx.req, tx.at, db.events[e], db.users, input);
      NextReplyOk(tx.req, tx.at, db.events[e], db.users, input);
      match Next(tx.req, tx.at, db.events[e], db.users, input).value
      case Continue(at) => ContinueKeepsCore(db, t, at);
      case Finish(reply) => FinishKeepsCore(db, t, reply);
    }
  }

  lemma CommitKeepsCore(db: Db, t: TxId, replied: bool)
    requires Core(db) && Enabled(db, Commit(t, replied))
    ensures Core(Apply(db, Commit(t, replied)))
  {
    var tx := db.txs[t];
    var e := tx.req.event;
    var d := db.events[e];
    var db' := Apply(db, Commit(t, replied));
    assert TxOk(db, t) && DataOk(e, d);
    CommitOk(tx.req, tx.at, d);
    CommitEvolves(tx.req, tx.at, d);
    forall t' | t' in db'.txs
      ensures TxOk(db', t')
    {
      assert TxOk(db, t');
    }
    forall f | f in db'.locks
      ensures LockOk(db', f)
    {
      assert LockOk(db, f);
    }
    forall t' | t' in db'.log
      ensures LogOk(db', t')
    {
      if t' != t {
        assert LogOk(db, t');
        if db.log[t'].req.event == e {
          ReplyStaysOk(db.log[t'].req, db.log[t'].reply, d, db'.events[e]);
        }
      }
    }
  }

  lemma StepKeepsCore(db: Db, step: Step)
    requires Core(db) && Enabled(db, step)
    ensures Core(Apply(db, step))
  {
    match step
    case AddUser(u) => AddUserKeepsCore(db, u);
    case CreateEvent(e, row) => CreateKeepsCore(db, e, row);
    case Begin(t, req) => BeginKeepsCore(db, t, req);
    case Statement(t, input) => StatementKeepsCore(db, t, input);
    case Commit(t, replied) => CommitKeepsCore(db, t, replied);
    case Abort(t) =>
      FinishKeepsCore(db, t, Failed(false));
  }

  lemma AddUserKeepsCore(db: Db, u: UserId)
    requires Core(db)
    ensures Core(db.(users := db.users + {u}))
  {
    var db' := db.(users := db.users + {u});
    forall t | t in db'.txs
      ensures TxOk(db', t)
    {
      assert TxOk(db, t);
    }
    forall e | e in db'.locks
      ensures LockOk(db', e)
    {
      assert LockOk(db, e);
    }
    forall t | t in db'.log
      ensures LogOk(db', t)
    {
      assert LogOk(db, t);
    }
  }

  /* ---- Accounting: every booking and every draw has its transaction ---- */

  /** The tables are the same and nothing that was logged in between committed. */
  ghost predicate Quiet(db: Db, db': Db) {
    && db'.events == db.events
    && (forall t :: t in db.log ==> t in db'.log && db'.log[t] == db.log[t])
    && (forall t :: t in db'.log && t !in db.log ==> !Committing(db'.log[t].reply))
  }

  lemma QuietKeepsAccounted(db: Db, db': Db, e: EventId)
    requires e in db.events && Quiet(db, db') && Accounted(db, e)
    ensures Accounted(db', e)
  {
    forall x
      ensures TookSeat(db', e, x) <==> TookSeat(db, e, x)
      ensures Drew(db', e, x) <==> Drew(db, e, x)
    {
    }
    forall u | u in Users(db'.events[e].bookings)
      ensures exists x :: TookSeat(db', e, x) && db'.log[x].req.user == u
    {
      var x :| TookSeat(db, e, x) && db.log[x].req.user == u;
      assert TookSeat(db', e, x);
    }
    if db'.events[e].row.status == Drawn {
      var x :| Drew(db, e, x);
      assert Drew(db', e, x);
    }
  }

  lemma CreateKeepsAccounted(db: Db, e: EventId, row: EventRow, f: EventId)
    requires Inv(db) && Enabled(db, CreateEvent(e, row)) && (f in db.events || f == e)
    ensures Accounted(Apply(db, CreateEvent(e, row)), f)
  {
    var db' := Apply(db, CreateEvent(e, row));
    forall x
      ensures TookSeat(db', f, x) <==> TookSeat(db, f, x)
      ensures Drew(db', f, x) <==> Drew(db, f, x)
      ensures f == e ==> !TookSeat(db, f, x) && !Drew(db, f, x)
    {
      if x in db.log {
        assert LogOk(db, x);
      }
    }
    if f == e {
      assert Users(db'.events[f].bookings) == [];
    } else {
      assert Accounted(db, f);
      forall u | u in Users(db'.events[f].bookings)
        ensures exists x :: TookSeat(db', f, x) && db'.log[x].req.user == u
      {
        var x :| TookSeat(db, f, x) && db.log[x].req.user == u;
        assert TookSeat(db', f, x);
      }
      if db'.events[f].row.status == Drawn {
        var x :| Drew(db, f, x);
        assert Drew(db', f, x);
      }
    }
  }

  /** The seats of `f` after a commit by `t`: the old ones, and `t` if it booked `f`. */
  lemma SeatsAfterCommit(db: Db, t: TxId, replied: bool, f: EventId, x: TxId)
    requires Core(db) && Enabled(db, Commit(t, replied))
    ensures var db' := Apply(db, Commit(t, replied));
            var req := db.txs[t].req;
            && (TookSeat(db', f, x) <==> TookSeat(db, f, x) || (x == t && req.Book? && req.event == f))
            && (Drew(db', f, x) <==> Drew(db, f, x) || (x == t && req == RunDraw(f)))
            && (x in db.log ==> x != t && db'.log[x] == db.log[x])
            && t in db'.log && db'.log[t].req == req
  {
    assert TxOk(db, t);
    CommitEvolves(db.txs[t].req, db.txs[t].at, db.events[db.txs[t].req.event]);
  }

  lemma CommitKeepsSeats(db: Db, t: TxId, replied: bool, f: EventId)
    requires Inv(db) && Enabled(db, Commit(t, replied)) && f in db.events
    ensures var db' := Apply(db, Commit(t, replied));
            && (forall u :: u in Users(db'.events[f].bookings) ==> exists x :: TookSeat(db', f, x) && db'.log[x].req.user == u)
            && (forall x, y :: TookSeat(db', f, x) && TookSeat(db', f, y) && db'.log[x].req.user == db'.log[y].req.user
                               ==> x == y)
  {
    var db' := Apply(db, Commit(t, replied));
    var tx := db.txs[t];
    assert TxOk(db, t) && Accounted(db, f);
    CommitEvolves(tx.req, tx.at, db.events[tx.req.event]);
    SeatsAfterCommit(db, t, replied, f, t);
    forall u | u in Users(db'.events[f].bookings)
      ensures exists x :: TookSeat(db', f, x) && db'.log[x].req.user == u
    {
      if u in Users(db.events[f].bookings) {
        var x :| TookSeat(db, f, x) && db.log[x].req.user == u;
        SeatsAfterCommit(db, t, replied, f, x);
        assert TookSeat(db', f, x);
      } else {
        assert TookSeat(db', f, t) && db'.log[t].req.user == u;
      }
    }
    forall x, y | TookSeat(db', f, x) && TookSeat(db', f, y) && db'.log[x].req.user == db'.log[y].req.user
      ensures x == y
    {
      SeatsAfterCommit(db, t, replied, f, x);
      SeatsAfterCommit(db, t, replied, f, y);
      SeatIsNew(db, t, replied, f, x);
      SeatIsNew(db, t, replied, f, y);
    }
  }

  /** Whoever commits now booked for somebody without a seat, or drew an event
      nobody had drawn. */
  lemma SeatIsNew(db: Db, t: TxId, replied: bool, f: EventId, z: TxId)
    requires Core(db) && Enabled(db, Commit(t, replied))
    ensures var req := db.txs[t].req;
            && (TookSeat(db, f, z) && req.Book? && req.event == f ==> db.log[z].req.user != req.user)
            && (Drew(db, f, z) ==> req != RunDraw(f))
  {
    var tx := db.txs[t];
    assert TxOk(db, t);
    CommitEvolves(tx.req, tx.at, db.events[tx.req.event]);
    if z in db.log {
      assert LogOk(db, z);
    }
  }

  lemma CommitKeepsDraws(db: Db, t: TxId, replied: bool, f: EventId)
    requires Inv(db) && Enabled(db, Commit(t, replied)) && f in db.events
    ensures var db' := Apply(db, Commit(t, replied));
            && (db'.events[f].row.status == Drawn ==> exists x :: Drew(db', f, x))
            && (forall x, y :: Drew(db', f, x) && Drew(db', f, y) ==> x == y)
  {
    var db' := Apply(db, Commit(t, replied));
    var tx := db.txs[t];
    assert TxOk(db, t) && Accounted(db, f);
    CommitEvolves(tx.req, tx.at, db.events[tx.req.event]);
    SeatsAfterCommit(db, t, replied, f, t);
    if db'.events[f].row.status == Drawn {
      if db.events[f].row.status == Drawn {
        var x :| Drew(db, f, x);
        SeatsAfterCommit(db, t, replied, f, x);
        assert Drew(db', f, x);
      } else {
        assert Drew(db', f, t);
      }
    }
    forall x, y | Drew(db', f, x) && Drew(db', f, y)
      ensures x == y
    {
      SeatsAfterCommit(db, t, replied, f, x);
      SeatsAfterCommit(db, t, replied, f, y);
      SeatIsNew(db, t, replied, f, x);
      SeatIsNew(db, t, replied, f, y);
    }
  }

  /** Only commits and new events change the tables; every other reply means
      that the transaction left nothing behind. */
  lemma StepIsQuiet(db: Db, step: Step)
    requires Core(db) && Enabled(db, step) && !step.CreateEvent? && !step.Commit?
    ensures Quiet(db, Apply(db, step))
  {
    if step.Statement? {
      var tx := db.txs[step.tx];
      assert TxOk(db, step.tx);
      if tx.req.event in db.events {
        NextReplyOk(tx.req, tx.at, db.events[tx.req.event], db.users, step.input);
      }
    }
  }

  lemma StepKeepsUsersKnown(db: Db, step: Step)
    requires Core(db) && UsersKnown(db) && Enabled(db, step)
    ensures UsersKnown(Apply(db, step))
  {
    match step
    case Commit(t, replied) => CommitKeepsUsersKnown(db, t, replied);
    case CreateEvent(_, _) =>
    case Statement(t, input) => StatementKeepsUsersKnown(db, t, input);
    case _ =>
  }

  lemma StatementKeepsUsersKnown(db: Db, t: TxId, input: Input)
    requires Core(db) && UsersKnown(db) && Enabled(db, Statement(t, input))
    ensures UsersKnown(Apply(db, Statement(t, input)))
  {
  }

  lemma CommitKeepsUsersKnown(db: Db, t: TxId, replied: bool)
    requires Core(db) && UsersKnown(db) && Enabled(db, Commit(t, replied))
    ensures UsersKnown(Apply(db, Commit(t, replied)))
  {
    var tx := db.txs[t];
    var d := db.events[tx.req.event];
    assert TxOk(db, t);
    CommitEvolves(tx.req, tx.at, d);
  }

  /** Every step keeps the invariant. */
  lemma StepKeepsInv(db: Db, step: Step)
    requires Inv(db) && Enabled(db, step)
    ensures Inv(Apply(db, step))
  {
    var db' := Apply(db, step);
    StepKeepsCore(db, step);
    StepKeepsUsersKnown(db, step);
    forall e | e in db'.events
      ensures Accounted(db', e)
    {
      match step
      case CreateEvent(f, row) => CreateKeepsAccounted(db, f, row, e);
      case Commit(t, replied) =>
        CommitKeepsSeats(db, t, replied, e);
        CommitKeepsDraws(db, t, replied, e);
      case _ =>
        StepIsQuiet(db, step);
        QuietKeepsAccounted(db, db', e);
    }
  }

  /* ---- Whole runs ---- */

  lemma EmptyIsOk()
    ensures Inv(EMPTY_DB)
  {
  }

  lemma {:induction false} RunKeepsInv(db: Db, steps: seq<Step>)
    requires Inv(db) && Runs(db, steps)
    ensures Inv(Final(db, steps))
    decreases |steps|
  {
    if steps != [] {
      StepKeepsInv(db, steps[0]);
      RunKeepsInv(Apply(db, steps[0]), steps[1..]);
    }
  }

  /** Committed data only evolves along the status machine, and finished
      transactions stay on record. */
  ghost predicate Later(db: Db, db': Db) {
    && (forall e :: e in db.events ==> e in db'.events && Evolves(db.events[e], db'.events[e]))
    && (forall t :: t in db.log ==> t in db'.log && db'.log[t] == db.log[t])
  }

  lemma StepIsLater(db: Db, step: Step)
    requires Inv(db) && Enabled(db, step)
    ensures Later(db, Apply(db, step))
  {
    match step
    case Commit(t, replied) =>
      assert TxOk(db, t);
      CommitEvolves(db.txs[t].req, db.txs[t].at, db.events[db.txs[t].req.event]);
    case CreateEvent(_, _) =>
    case _ => StepIsQuiet(db, step);
  }

  lemma LaterTransitive(a: Db, b: Db, c: Db)
    requires Later(a, b) && Later(b, c)
    ensures Later(a, c)
  {
    forall e | e in a.events
      ensures e in c.events && Evolves(a.events[e], c.events[e])
    {
      EvolvesTransitive(a.events[e], b.events[e], c.events[e]);
    }
  }

  lemma {:induction false} RunIsLater(db: Db, steps: seq<Step>)
    requires Inv(db) && Runs(db, steps)
    ensures Later(db, Final(db, steps))
    decreases |steps|
  {
    if steps != [] {
      var next := Apply(db, steps[0]);
      StepIsLater(db, steps[0]);
      StepKeepsInv(db, steps[0]);
      RunIsLater(next, steps[1..]);
      LaterTransitive(db, next, Final(db, steps));
    }
  }
}
