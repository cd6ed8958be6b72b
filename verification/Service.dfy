/** The services' methods as sequential code against a shared database: between
    any two statements other sessions do whatever they like, and any statement
    may fail. Each method is proved to be a run of the transition system of
    module Database, so the guarantees over runs apply to it. */
module Service {
  import opened Prelude
  import opened Text
  import opened Tables
  import opened Transactions
  import opened Database

  /** A step of a session other than `me`. */
  predicate Foreign(step: Step, me: TxId) {
    match step
    case AddUser(_) => true
    case CreateEvent(_, _) => true
    case Begin(t, _) => t != me
    case Statement(t, _) => t != me
    case Commit(t, _) => t != me
    case Abort(t) => t != me
  }

  /** What other sessions cannot change for `me`: its transaction, and the data
      of its event once it holds the row lock. */
  ghost predicate Isolated(db: Db, db': Db, me: TxId) {
    && (me in db'.txs <==> me in db.txs) && (me in db'.log <==> me in db.log)
    && (me in db.log ==> db'.log[me] == db.log[me])
    && (me in db.txs ==> db'.txs[me] == db.txs[me])
    && (me in db.txs && db.txs[me].at != Begun ==>
          var e := db.txs[me].req.event;
          e in db.events && e in db'.events && db'.events[e] == db.events[e])
  }

  /** The row lock isolates its owner. */
  lemma ForeignStepIsIsolated(db: Db, step: Step, me: TxId)
    requires Inv(db) && Enabled(db, step) && Foreign(step, me)
    ensures Isolated(db, Apply(db, step), me)
  {
    if me in db.txs {
      assert TxOk(db, me);
    }
    if step.Commit? {
      assert TxOk(db, step.tx);
      CommitEvolves(db.txs[step.tx].req, db.txs[step.tx].at, db.events[db.txs[step.tx].req.event]);
    } else if !step.CreateEvent? {
      StepIsQuiet(db, step);
    }
  }

  lemma IsolatedTransitive(a: Db, b: Db, c: Db, me: TxId)
    requires Isolated(a, b, me) && Isolated(b, c, me)
    ensures Isolated(a, c, me)
  {
  }

  /** What happens around one request: the steps other sessions take before its
      k-th statement, whether that statement fails, the database clock, and
      whether the reply to COMMIT arrives. */
  datatype Surroundings = Surroundings(others: nat -> seq<Step>, fault: nat -> bool, now: int, replied: bool)

  function Try(db: Db, step: Step): Db {
    if Enabled(db, step) then Apply(db, step) else db
  }

  /** Other sessions take those of `steps` that are theirs and that they can take. */
  function Ran(db: Db, steps: seq<Step>, me: TxId): Db {
    if steps == [] then db
    else
      var before, last := Ran(db, steps[..|steps| - 1], me), steps[|steps| - 1];
      if Foreign(last, me) then Try(before, last) else before
  }

  /** If they are all theirs and can all be taken, that is the run. */
  lemma {:induction false} RanIsTheRun(db: Db, steps: seq<Step>, me: TxId)
    requires Runs(db, steps) && forall i :: 0 <= i < |steps| ==> Foreign(steps[i], me)
    ensures Ran(db, steps, me) == Final(db, steps)
    decreases |steps|
  {
    if steps != [] {
      var front, last := steps[..|steps| - 1], steps[|steps| - 1];
      RunsSplit(db, front, steps);
      assert steps[|front|..] == [last] && [last][1..] == [];
      RanIsTheRun(db, front, me);
    }
  }

  lemma {:induction false} RanIsLater(db: Db, steps: seq<Step>, me: TxId)
    requires Inv(db)
    ensures Inv(Ran(db, steps, me)) && Later(db, Ran(db, steps, me))
    decreases |steps|
  {
    if steps != [] {
      var before, last := Ran(db, steps[..|steps| - 1], me), steps[|steps| - 1];
      RanIsLater(db, steps[..|steps| - 1], me);
      if Foreign(last, me) && Enabled(before, last) {
        StepIsLater(before, last);
        StepKeepsInv(before, last);
        LaterTransitive(db, before, Apply(before, last));
      }
    }
  }

  /** The database when a transaction's wait for its row lock is over. */
  function AtLock(db: Db, me: TxId, req: Request, env: Surroundings): Db
    requires me !in db.txs && me !in db.log
  {
    Ran(Apply(db, Begin(me, req)), env.others(0), me)
  }

  ghost predicate FromEnv(step: Step, env: Surroundings) {
    exists k :: step in env.others(k)
  }

  /** Since `before` only `me` and the sessions around it have taken steps. */
  ghost predicate Grew(before: seq<Step>, history: seq<Step>, me: TxId, env: Surroundings) {
    before <= history
    && forall i :: |before| <= i < |history| ==> !Foreign(history[i], me) || FromEnv(history[i], env)
  }

  /** The call that is being served: since when, for whom, and what others do. */
  datatype Call = Call(from: nat, me: TxId, env: Surroundings)

  class Postgres {
    var db: Db
    ghost var start: Db
    ghost var history: seq<Step>
    ghost var call: Call

    /** The database has got from `start` to `db` by the steps in `history`, and
        since the call began only the caller and its surroundings took part. */
    ghost predicate Valid()
      reads this
    {
      && Inv(start) && Runs(start, history) && db == Final(start, history)
      && call.from <= |history| && Grew(history[..call.from], history, call.me, call.env)
    }

    ghost predicate Serving(me: TxId, env: Surroundings)
      reads this
    {
      Valid() && call.me == me && call.env == env
    }

    /** The same call goes on. */
    ghost predicate Continues(start': Db, history': seq<Step>, call': Call)
      reads this
    {
      Valid() && start == start' && history' <= history && call == call'
    }

    constructor (initial: Db, initialCall: Call)
      requires Inv(initial) && initialCall.from == 0
      ensures Valid() && db == initial && start == initial
    {
      db, start, history, call := initial, initial, [], initialCall;
    }

    /** A new call begins. */
    ghost method Answer(me: TxId, env: Surroundings)
      requires Valid()
      modifies this
      ensures Serving(me, env) && call.from == |history|
      ensures db == old(db) && start == old(start) && history == old(history)
    {
      call := Call(|history|, me, env);
    }

    method Take(step: Step)
      requires Valid() && Enabled(db, step) && (!Foreign(step, call.me) || FromEnv(step, call.env))
      modifies this
      ensures Continues(old(start), old(history), old(call)) && db == Apply(old(db), step)
    {
      assert Runs(Apply(db, step), []);
      assert [step][1..] == [];
      RunsAppend(start, history, [step]);
      assert (history + [step])[..call.from] == history[..call.from];
      history := history + [step];
      db := Apply(db, step);
    }

    /** INSERT INTO events, a statement of its own. */
    method Insert(e: EventId, row: EventRow)
      requires Valid() && Enabled(db, CreateEvent(e, row))
      modifies this
      ensures Valid() && start == old(start) && history == old(history) + [CreateEvent(e, row)]
      ensures db == Apply(old(db), CreateEvent(e, row))
    {
      var step := CreateEvent(e, row);
      assert Runs(Apply(db, step), []);
      assert [step][1..] == [];
      RunsAppend(start, history, [step]);
      history := history + [step];
      call := call.(from := |history|);
      db := Apply(db, step);
    }

    lemma Sound()
      requires Valid()
      ensures Inv(db)
    {
      RunKeepsInv(start, history);
    }

    lemma BookedAreKnown(e: EventId, u: UserId)
      requires Valid() && e in db.events && u in Users(db.events[e].bookings)
      ensures u in db.users
    {
      Sound();
    }

    /** Other sessions do what they do before the caller's k-th statement. */
    method Others(me: TxId, env: Surroundings, k: nat)
      requires Serving(me, env)
      modifies this
      ensures Continues(old(start), old(history), old(call))
      ensures db == Ran(old(db), env.others(k), me) && Isolated(old(db), db, me)
    {
      assert Isolated(db, db, me) by {
        Sound();
        assert me in db.txs ==> TxOk(db, me);
      }
      var steps := env.others(k);
      for i := 0 to |steps|
        invariant Continues(old(start), old(history), old(call))
        invariant db == Ran(old(db), steps[..i], me) && Isolated(old(db), db, me)
      {
        assert steps[..i + 1][..i] == steps[..i];
        assert FromEnv(steps[i], env);
        ghost var before := db;
        Admit(me, steps[i]);
        IsolatedTransitive(old(db), before, db, me);
      }
      assert steps[..|steps|] == steps;
    }

    method Admit(me: TxId, step: Step)
      requires Valid() && call.me == me && FromEnv(step, call.env)
      modifies this
      ensures Continues(old(start), old(history), old(call))
      ensures db == (if Foreign(step, me) then Try(old(db), step) else old(db)) && Isolated(old(db), db, me)
    {
      Sound();
      assert me in db.txs ==> TxOk(db, me);
      if Foreign(step, me) && Enabled(db, step) {
        ForeignStepIsIsolated(db, step, me);
        Take(step);
      }
    }

    /* -- One session's statements, seen from that session -- */

    /** `me` holds the row lock of its event, whose committed data is `d`. */
    ghost predicate Holding(me: TxId, req: Request, at: Point, d: EventData)
      reads this
    {
      && me in db.txs && db.txs[me] == Tx(req, at) && at != Begun
      && req.event in db.events && db.events[req.event] == d
      && DataOk(req.event, d) && Current(req, at, d)
    }

    /** `me` has ended and its caller was told `reply`. */
    ghost predicate Ended(me: TxId, req: Request, reply: Reply)
      reads this
    {
      me in db.log && db.log[me] == Outcome(req, reply)
    }

    /** The transaction that found `d` under its row lock has ended with `reply`
        and left what that reply says: it fails exactly if something is faulty,
        and then changes nothing; otherwise it acts as one indivisible operation
        on `d`, and its success is not reported exactly if the reply to the
        commit is lost. */
    ghost predicate Settled(req: Request, d: EventData, reply: Reply, faulty: bool, replied: bool)
      reads this
    {
      && req.event in db.events
      && (reply == Failed(false) <==> faulty)
      && (Committing(reply) ==> (reply == Failed(true) <==> !replied))
      && Effected(req, db.users, d, reply, db.events[req.event])
    }

    /** The same from the call on, where `seen` is the database at the end of the
        wait for the row lock: no lock, no answer. */
    ghost predicate Answered(req: Request, seen: Db, reply: Reply, cut: bool, faulty: bool, replied: bool)
      reads this
    {
      if cut || req.event in seen.locks then reply == Failed(false)
      else if req.event !in seen.events then reply == NotFound
      else Settled(req, seen.events[req.event], reply, faulty, replied)
    }

    /** BEGIN, and the wait for the row lock. When the wait ends without the
        lock, or the connection is lost, the transaction fails. */
    method Open(me: TxId, req: Request, env: Surroundings) returns (ok: bool)
      requires Serving(me, env) && me !in db.txs && me !in db.log
      modifies this
      ensures Continues(old(start), old(history), old(call))
      ensures ok <==> !env.fault(0) && req.event !in AtLock(old(db), me, req, env).locks
      ensures ok ==> db == AtLock(old(db), me, req, env) && me in db.txs && db.txs[me] == Tx(req, Begun)
      ensures !ok ==> Ended(me, req, Failed(false))
    {
      Take(Begin(me, req));
      Others(me, env, 0);
      ok := !env.fault(0) && req.event !in db.locks;
      if !ok {
        Fail(me, req);
      }
    }

    method Fail(me: TxId, ghost req: Request)
      requires Valid() && call.me == me && me in db.txs && db.txs[me].req == req
      modifies this
      ensures Continues(old(start), old(history), old(call))
      ensures Ended(me, req, Failed(false)) && db.events == old(db.events) && db.users == old(db.users)
    {
      Take(Abort(me));
    }

    /** The first statement, on a free row lock. */
    method Lock(me: TxId, input: Input, ghost req: Request, ghost next: Point)
      requires Valid() && call.me == me && me in db.txs && db.txs[me] == Tx(req, Begun)
      requires req.event in db.events && req.event !in db.locks
      requires Next(req, Begun, db.events[req.event], db.users, input) == Some(Continue(next))
      modifies this
      ensures Continues(old(start), old(history), old(call))
      ensures Holding(me, req, next, old(db).events[req.event])
    {
      Sound();
      NextIsCurrent(req, Begun, db.events[req.event], db.users, input);
      Take(Statement(me, input));
    }

    /** A statement after which the transaction ends with `reply`. */
    method Conclude(me: TxId, input: Input, ghost req: Request, ghost at: Point, ghost reply: Reply)
      requires Valid() && call.me == me && me in db.txs && db.txs[me] == Tx(req, at)
      requires at == Begun ==> req.event !in db.locks
      requires if req.event in db.events then Next(req, at, db.events[req.event], db.users, input) == Some(Finish(reply))
               else at == Begun && reply == NotFound
      modifies this
      ensures Continues(old(start), old(history), old(call)) && db.users == old(db).users
      ensures Ended(me, req, reply)
      ensures !reply.Failed? && req.event in old(db).events ==>
                Settled(req, old(db).events[req.event], reply, false, true)
                && Settled(req, old(db).events[req.event], reply, false, false)
    {
      assert req.event in db.events ==> DataOk(req.event, db.events[req.event]) && Current(req, at, db.events[req.event]) by {
        Sound();
        assert TxOk(db, me);
      }
      if !reply.Failed? && req.event in db.events {
        FinishIsAtomic(req, at, db.events[req.event], db.users, input);
        NextReplyOk(req, at, db.events[req.event], db.users, input);
      }
      Take(Statement(me, input));
    }

    /** A statement after which the transaction goes on. */
    method Advance(me: TxId, input: Input, ghost req: Request, ghost at: Point, ghost d: EventData, ghost next: Point)
      requires Valid() && call.me == me && Holding(me, req, at, d)
      requires Next(req, at, d, db.users, input) == Some(Continue(next))
      modifies this
      ensures Continues(old(start), old(history), old(call))
      ensures Holding(me, req, next, d) && db.users == old(db).users
    {
      NextIsCurrent(req, at, d, db.users, input);
      Take(Statement(me, input));
    }

    /** Other sessions run before the k-th statement, which may then fail. */
    method Pause(me: TxId, env: Surroundings, k: nat, fault: bool, ghost req: Request, ghost at: Point, ghost d: EventData)
      requires Serving(me, env) && Holding(me, req, at, d)
      modifies this
      ensures Continues(old(start), old(history), old(call)) && old(db).users <= db.users
      ensures if fault then Ended(me, req, Failed(false)) && Settled(req, d, Failed(false), true, env.replied)
              else Holding(me, req, at, d)
    {
      Others(me, env, k);
      RanKeepsUsers(old(db), env.others(k), me);
      if fault {
        Fail(me, req);
      }
    }

    method CommitTx(me: TxId, replied: bool, ghost req: Request, ghost at: Point, ghost d: EventData)
      requires Valid() && call.me == me && Holding(me, req, at, d) && Committable(at)
      modifies this
      ensures Continues(old(start), old(history), old(call)) && db.users == old(db).users
      ensures Ended(me, req, if replied then CommitReply(req, at) else Failed(true))
      ensures req.event in db.events && db.events[req.event] == Written(at, d)
      ensures Effected(req, db.users, d, if replied then CommitReply(req, at) else Failed(true), Written(at, d))
    {
      assert at.BookInserted? ==> req.user in db.users by {
        Sound();
      }
      CommitIsEffected(req, at, d, db.users, replied);
      Take(Commit(me, replied));
    }

    /** COMMIT as a method's last statement, the k-th: `success` if its reply
        arrives. */
    method Complete(me: TxId, env: Surroundings, k: nat, success: Reply, ghost req: Request, ghost at: Point, ghost d: EventData)
      returns (reply: Reply)
      requires Serving(me, env) && Holding(me, req, at, d) && Committable(at) && success == CommitReply(req, at)
      modifies this
      ensures Continues(old(start), old(history), old(call)) && old(db).users <= db.users
      ensures Ended(me, req, reply) && Settled(req, d, reply, env.fault(k), env.replied)
      ensures reply == if env.fault(k) then Failed(false) else if env.replied then success else Failed(true)
      ensures !env.fault(k) ==> db.events[req.event] == Written(at, d)
    {
      assert Committing(success);
      Pause(me, env, k, env.fault(k), req, at, d);
      if env.fault(k) {
        return Failed(false);
      }
      CommitTx(me, env.replied, req, at, d);
      reply := if env.replied then success else Failed(true);
    }
  }

  /** Accounts are never removed. */
  lemma {:induction false} RanKeepsUsers(db: Db, steps: seq<Step>, me: TxId)
    ensures db.users <= Ran(db, steps, me).users
    decreases |steps|
  {
    if steps != [] {
      RanKeepsUsers(db, steps[..|steps| - 1], me);
    }
  }

  /* ---- internal/booking/service.go ---- */

  /** Which failures stop a booking that finds `d` under the row lock: of the
      duplicate check, of the count if that comes to it, of the INSERT if there
      is room, and of the COMMIT if the user has an account. */
  ghost predicate BookFaults(env: Surroundings, d: EventData, u: UserId, users: set<UserId>) {
    env.fault(1) || (u !in Users(d.bookings) && d.row.status == Open && CountFaults(env, d, u, users))
  }

  ghost predicate CountFaults(env: Surroundings, d: EventData, u: UserId, users: set<UserId>) {
    env.fault(2) || (|d.bookings| < d.row.capacity && InsertFaults(env, u, users))
  }

  ghost predicate InsertFaults(env: Surroundings, u: UserId, users: set<UserId>) {
    env.fault(3) || (u in users && env.fault(4))
  }

  ghost predicate MayFailBooking(env: Surroundings, seen: Db, e: EventId, u: UserId, users: set<UserId>) {
    e in seen.events && BookFaults(env, seen.events[e], u, users)
  }

  /** The new row is the last one. */
  ghost predicate Seated(d: EventData, u: UserId, now: int) {
    d.bookings != [] && d.bookings[|d.bookings| - 1] == Booking(u, now)
  }

  /** Every statement a booking has come through has not failed. */
  lemma NoFaultOnTheWay(env: Surroundings, d: EventData, e: EventId, u: UserId, users: set<UserId>, reply: Reply, d': EventData)
    requires DataOk(e, d) && Effected(Book(e, u), users, d, reply, d') && !BookFaults(env, d, u, users)
    ensures reply == AlreadyBooked || reply.NotOpen? ==> !env.fault(1)
    ensures reply == Full ==> !env.fault(1) && !env.fault(2)
    ensures Committing(reply) ==> !env.fault(1) && !env.fault(2) && !env.fault(3) && !env.fault(4)
  {
  }

  lemma BookingWasClean(db: Db, me: TxId, env: Surroundings, e: EventId, u: UserId, users: set<UserId>, reply: Reply, d': EventData)
    requires Inv(db) && me !in db.txs && me !in db.log && e in AtLock(db, me, Book(e, u), env).events
    requires var d := AtLock(db, me, Book(e, u), env).events[e];
             Effected(Book(e, u), users, d, reply, d') && !BookFaults(env, d, u, users)
    ensures reply == AlreadyBooked || reply.NotOpen? ==> !env.fault(1)
    ensures reply == Full ==> !env.fault(1) && !env.fault(2)
    ensures Committing(reply) ==> !env.fault(1) && !env.fault(2) && !env.fault(3) && !env.fault(4)
  {
    var begun := Apply(db, Begin(me, Book(e, u)));
    StepKeepsInv(db, Begin(me, Book(e, u)));
    RanIsLater(begun, env.others(0), me);
    NoFaultOnTheWay(env, AtLock(db, me, Book(e, u), env).events[e], e, u, users, reply, d');
  }

  /** createBooking. Its reply is on record and stays true of the tables. Without
      the row lock at the end of its wait it fails. With it, it fails exactly by
      a fault it meets, and otherwise acts as one indivisible operation on what
      is committed under the lock. */
  method CreateBooking(pg: Postgres, me: TxId, e: EventId, u: UserId, env: Surroundings) returns (reply: Reply)
    requires pg.Valid() && me !in pg.db.txs && me !in pg.db.log
    modifies pg
    ensures pg.Valid() && pg.start == old(pg.start) && Grew(old(pg.history), pg.history, me, env)
    ensures pg.Ended(me, Book(e, u), reply)
    ensures var seen := AtLock(old(pg.db), me, Book(e, u), env);
            pg.Answered(Book(e, u), seen, reply, env.fault(0), MayFailBooking(env, seen, e, u, pg.db.users), env.replied)
    ensures Committing(reply) ==> e in pg.db.events && Seated(pg.db.events[e], u, env.now)
    ensures reply == AlreadyBooked || reply.NotOpen? ==> !env.fault(1)
    ensures reply == Full ==> !env.fault(1) && !env.fault(2)
    ensures Committing(reply) ==> !env.fault(1) && !env.fault(2) && !env.fault(3) && !env.fault(4)
    ensures e in pg.db.events ==> ReplyOk(Book(e, u), reply, pg.db.events[e])
    ensures e !in pg.db.events ==> reply == NotFound || reply == Failed(false)
  {
    pg.Answer(me, env);
    pg.Sound();
    reply := BookStatements(pg, me, e, u, env);
    assert pg.history[..|old(pg.history)|] == old(pg.history);
    if reply != Failed(false) && e in AtLock(old(pg.db), me, Book(e, u), env).events {
      BookingWasClean(old(pg.db), me, env, e, u, pg.db.users, reply, pg.db.events[e]);
    }
    pg.Sound();
    assert LogOk(pg.db, me);
  }

  method BookStatements(pg: Postgres, me: TxId, e: EventId, u: UserId, env: Surroundings) returns (reply: Reply)
    requires pg.Serving(me, env) && me !in pg.db.txs && me !in pg.db.log
    modifies pg
    ensures pg.Continues(old(pg.start), old(pg.history), old(pg.call))
    ensures pg.Ended(me, Book(e, u), reply)
    ensures var seen := AtLock(old(pg.db), me, Book(e, u), env);
            pg.Answered(Book(e, u), seen, reply, env.fault(0), MayFailBooking(env, seen, e, u, pg.db.users), env.replied)
    ensures Committing(reply) ==> e in pg.db.events && Seated(pg.db.events[e], u, env.now)
  {
    var req := Book(e, u);
    var ok := pg.Open(me, req, env);
    if !ok {
      return Failed(false);
    }
    // SELECT status, capacity ... FOR UPDATE
    if e !in pg.db.events {
      pg.Conclude(me, Plain, req, Begun, NotFound);
      return NotFound;
    }
    ghost var d := pg.db.events[e];
    reply := BookUnderLock(pg, me, e, u, env, d);
  }

  /** createBooking from the row lock on: the duplicate and the status. */
  method BookUnderLock(pg: Postgres, me: TxId, e: EventId, u: UserId, env: Surroundings, ghost d: EventData)
    returns (reply: Reply)
    requires pg.Serving(me, env) && me in pg.db.txs && pg.db.txs[me] == Tx(Book(e, u), Begun)
    requires e in pg.db.events && e !in pg.db.locks && d == pg.db.events[e]
    modifies pg
    ensures pg.Continues(old(pg.start), old(pg.history), old(pg.call)) && pg.Ended(me, Book(e, u), reply)
    ensures pg.Settled(Book(e, u), d, reply, BookFaults(env, d, u, pg.db.users), env.replied)
    ensures Committing(reply) ==> Seated(pg.db.events[e], u, env.now)
  {
    ghost var req := Book(e, u);
    var status, capacity := pg.db.events[e].row.status, pg.db.events[e].row.capacity;
    pg.Lock(me, Plain, req, BookLocked(status, capacity));
    // SELECT EXISTS
    pg.Pause(me, env, 1, env.fault(1), req, BookLocked(status, capacity), d);
    if env.fault(1) {
      return Failed(false);
    }
    reply := CheckBooking(pg, me, e, u, status, capacity, env, d);
  }

  /** The result of the duplicate check, and the status. */
  method CheckBooking(pg: Postgres, me: TxId, e: EventId, u: UserId, status: Status, capacity: int, env: Surroundings,
                      ghost d: EventData) returns (reply: Reply)
    requires pg.Serving(me, env) && pg.Holding(me, Book(e, u), BookLocked(status, capacity), d)
    modifies pg
    ensures pg.Continues(old(pg.start), old(pg.history), old(pg.call)) && pg.Ended(me, Book(e, u), reply)
    ensures pg.Settled(Book(e, u), d, reply,
                       u !in Users(d.bookings) && d.row.status == Open && CountFaults(env, d, u, pg.db.users), env.replied)
    ensures Committing(reply) ==> Seated(pg.db.events[e], u, env.now)
  {
    ghost var req := Book(e, u);
    var already := u in Users(pg.db.events[e].bookings);
    if already {
      pg.Conclude(me, Plain, req, BookLocked(status, capacity), AlreadyBooked);
      return AlreadyBooked;
    }
    if status != Open {
      pg.Conclude(me, Plain, req, BookLocked(status, capacity), NotOpen(status));
      return NotOpen(status);
    }
    pg.Advance(me, Plain, req, BookLocked(status, capacity), d, BookNew(capacity));
    reply := BookFreeSeat(pg, me, e, u, capacity, env, d);
  }

  /** The count. */
  method BookFreeSeat(pg: Postgres, me: TxId, e: EventId, u: UserId, capacity: int, env: Surroundings, ghost d: EventData)
    returns (reply: Reply)
    requires pg.Serving(me, env) && pg.Holding(me, Book(e, u), BookNew(capacity), d)
    modifies pg
    ensures pg.Continues(old(pg.start), old(pg.history), old(pg.call)) && pg.Ended(me, Book(e, u), reply)
    ensures pg.Settled(Book(e, u), d, reply, CountFaults(env, d, u, pg.db.users), env.replied)
    ensures Committing(reply) ==> Seated(pg.db.events[e], u, env.now)
  {
    ghost var req := Book(e, u);
    // SELECT COUNT(*)
    pg.Pause(me, env, 2, env.fault(2), req, BookNew(capacity), d);
    if env.fault(2) {
      return Failed(false);
    }
    var booked := |pg.db.events[e].bookings|;
    if booked >= capacity {
      pg.Conclude(me, Plain, req, BookNew(capacity), Full);
      return Full;
    }
    pg.Advance(me, Plain, req, BookNew(capacity), d, BookRoom);
    reply := InsertBooking(pg, me, e, u, env, d);
  }

  /** The INSERT and the commit. */
  method InsertBooking(pg: Postgres, me: TxId, e: EventId, u: UserId, env: Surroundings, ghost d: EventData)
    returns (reply: Reply)
    requires pg.Serving(me, env) && pg.Holding(me, Book(e, u), BookRoom, d)
    modifies pg
    ensures pg.Continues(old(pg.start), old(pg.history), old(pg.call)) && pg.Ended(me, Book(e, u), reply)
    ensures pg.Settled(Book(e, u), d, reply, InsertFaults(env, u, pg.db.users), env.replied)
    ensures Committing(reply) ==> Seated(pg.db.events[e], u, env.now)
  {
    ghost var req := Book(e, u);
    pg.Pause(me, env, 3, env.fault(3), req, BookRoom, d);
    if env.fault(3) {
      return Failed(false);
    }
    if u !in pg.db.users {
      pg.Conclude(me, Clock(env.now), req, BookRoom, NotFound);
      return NotFound;
    }
    reply := WriteBooking(pg, me, e, u, env, d);
  }

  method WriteBooking(pg: Postgres, me: TxId, e: EventId, u: UserId, env: Surroundings, ghost d: EventData)
    returns (reply: Reply)
    requires pg.Serving(me, env) && pg.Holding(me, Book(e, u), BookRoom, d) && u in pg.db.users
    modifies pg
    ensures pg.Continues(old(pg.start), old(pg.history), old(pg.call)) && pg.Ended(me, Book(e, u), reply)
    ensures u in pg.db.users && pg.Settled(Book(e, u), d, reply, env.fault(4), env.replied)
    ensures Committing(reply) ==> Seated(pg.db.events[e], u, env.now)
  {
    ghost var req := Book(e, u);
    var booking := Booking(u, env.now);
    pg.Advance(me, Clock(env.now), req, BookRoom, d, BookInserted(booking));
    reply := CommitBooking(pg, me, e, u, booking, env, d);
  }

  method CommitBooking(pg: Postgres, me: TxId, e: EventId, u: UserId, booking: Booking, env: Surroundings, ghost d: EventData)
    returns (reply: Reply)
    requires pg.Serving(me, env) && pg.Holding(me, Book(e, u), BookInserted(booking), d)
    modifies pg
    ensures pg.Continues(old(pg.start), old(pg.history), old(pg.call)) && pg.Ended(me, Book(e, u), reply)
    ensures old(pg.db).users <= pg.db.users
    ensures pg.Settled(Book(e, u), d, reply, env.fault(4), env.replied)
    ensures Committing(reply) ==> pg.db.events[e].bookings == d.bookings + [booking]
  {
    reply := pg.Complete(me, env, 4, Booked, Book(e, u), BookInserted(booking), d);
  }

  /* ---- internal/event/service.go ---- */

  const MAX_TITLE_LENGTH := 200
  const MAX_DESCRIPTION_LENGTH := 4000
  const MAX_INT32 := 0x7fff_ffff

  datatype NewEvent = NewEvent(title: string, description: string, capacity: int, winnerCount: int, drawAt: Option<int>)

  datatype CreateError = InvalidInput | InsertFailed

  /** The request as Create understands it: a missing winner count means one. */
  function Defaulted(winnerCount: int): int {
    if winnerCount < 1 then 1 else winnerCount
  }

  /** The input Create accepts. */
  ghost predicate Acceptable(req: NewEvent, now: int, maxWinners: int) {
    && TrimSpace(req.title) != [] && ByteLength(TrimSpace(req.title)) <= MAX_TITLE_LENGTH
    && ByteLength(TrimSpace(req.description)) <= MAX_DESCRIPTION_LENGTH
    && req.drawAt.Some? && req.drawAt.value >= now
    && 1 <= req.capacity && Defaulted(req.winnerCount) <= req.capacity
    && (maxWinners > 0 ==> Defaulted(req.winnerCount) <= maxWinners)
  }

  /** A PostgreSQL text value has no zero byte. */
  predicate IsText(s: string) {
    '\0' !in s
  }

  /** What the INSERT needs besides: values its columns can hold, and a creator
      with an account. */
  predicate Insertable(req: NewEvent, creator: UserId, users: set<UserId>) {
    req.capacity <= MAX_INT32 && creator in users && IsText(TrimSpace(req.title)) && IsText(TrimSpace(req.description))
  }

  /** The checks of Create, and the row it is going to insert. */
  method Validate(req: NewEvent, creator: UserId, now: int, maxWinners: int) returns (row: Option<EventRow>)
    ensures row.Some? <==> Acceptable(req, now, maxWinners)
    ensures row.Some? ==>
              && row.value == EventRow(TrimSpace(req.title), TrimSpace(req.description), req.capacity,
                                       Defaulted(req.winnerCount), req.drawAt.value, creator, Open)
              && 1 <= row.value.winnerCount <= row.value.capacity
              && (maxWinners > 0 ==> row.value.winnerCount <= maxWinners)
  {
    var title, description := TrimSpace(req.title), TrimSpace(req.description);
    if title == "" || ByteLength(title) > MAX_TITLE_LENGTH || ByteLength(description) > MAX_DESCRIPTION_LENGTH {
      return None;
    }
    if req.drawAt.None? || req.drawAt.value < now {
      return None;
    }
    if req.capacity < 1 {
      return None;
    }
    var winnerCount := req.winnerCount;
    if winnerCount < 1 {
      winnerCount := 1;
    }
    if winnerCount > req.capacity || (maxWinners > 0 && winnerCount > maxWinners) {
      return None;
    }
    row := Some(EventRow(title, description, req.capacity, winnerCount, req.drawAt.value, creator, Open));
  }

  /** Create. `e` is the id the sequence hands out, `fault` a failure of the
      INSERT. An event it inserts is open, empty and satisfies the CHECK
      constraints; nothing changes otherwise. A winner count below one counts as
      missing and means one; any other is stored as it is or refused. */
  method Create(pg: Postgres, e: EventId, req: NewEvent, creator: UserId, now: int, maxWinners: int, fault: bool)
    returns (r: Result<EventRow, CreateError>)
    requires pg.Valid() && e !in pg.db.events
    modifies pg
    ensures pg.Valid() && pg.start == old(pg.start)
    ensures pg.history == old(pg.history) + if r.Ok? then [CreateEvent(e, r.value)] else []
    ensures r == Err(InvalidInput) <==>
              || TrimSpace(req.title) == "" || ByteLength(TrimSpace(req.title)) > 200
              || ByteLength(TrimSpace(req.description)) > 4000
              || req.drawAt.None? || req.drawAt.value < now
              || req.capacity < 1 || req.winnerCount > req.capacity
              || (maxWinners > 0 && req.winnerCount > maxWinners)
    ensures r == Err(InsertFailed) <==>
              && r != Err(InvalidInput)
              && (fault || req.capacity > 0x7fff_ffff || creator !in old(pg.db).users
                  || '\0' in TrimSpace(req.title) || '\0' in TrimSpace(req.description))
    ensures r.Err? ==> pg.db == old(pg.db)
    ensures r.Ok? ==>
              && r.value.title == TrimSpace(req.title) && r.value.description == TrimSpace(req.description)
              && r.value.capacity == req.capacity && r.value.drawAt == req.drawAt.value && r.value.creator == creator
              && r.value.winnerCount == (if req.winnerCount >= 1 then req.winnerCount else 1) && r.value.status == Open
              && 1 <= r.value.winnerCount <= r.value.capacity
              && pg.db == old(pg.db).(events := old(pg.db).events[e := EventData(r.value, [], [], None)])
  {
    var row := Validate(req, creator, now, maxWinners);
    if row.None? {
      return Err(InvalidInput);
    }
    if fault || !Insertable(req, creator, pg.db.users) {
      return Err(InsertFailed);
    }
    pg.Insert(e, row.value);
    r := Ok(row.value);
  }

  /** Which failures stop a change: of the UPDATE, if the status has to change,
      and of the COMMIT, if the change is permitted. */
  ghost predicate CloseFaults(env: Surroundings, status: Status) {
    (status == Open && env.fault(1)) || ((status == Open || status == Closed) && env.fault(2))
  }

  ghost predicate CancelFaults(env: Surroundings, status: Status) {
    ((status == Open || status == Closed) && env.fault(1)) || (status != Drawn && env.fault(2))
  }

  ghost predicate MayFailClose(env: Surroundings, seen: Db, e: EventId) {
    e in seen.events && CloseFaults(env, seen.events[e].row.status)
  }

  /** Close. */
  method CloseEvent(pg: Postgres, me: TxId, e: EventId, env: Surroundings) returns (reply: Reply)
    requires pg.Valid() && me !in pg.db.txs && me !in pg.db.log
    modifies pg
    ensures pg.Valid() && pg.start == old(pg.start) && Grew(old(pg.history), pg.history, me, env)
    ensures pg.Ended(me, Close(e), reply)
    ensures var seen := AtLock(old(pg.db), me, Close(e), env);
            && pg.Answered(Close(e), seen, reply, env.fault(0), MayFailClose(env, seen, e), env.replied)
            && (Committing(reply) ==> e in seen.events && !env.fault(2) && (seen.events[e].row.status == Open ==> !env.fault(1)))
    ensures e in pg.db.events ==> ReplyOk(Close(e), reply, pg.db.events[e])
    ensures e !in pg.db.events ==> reply == NotFound || reply == Failed(false)
  {
    pg.Answer(me, env);
    reply := CloseStatements(pg, me, e, env);
    assert pg.history[..|old(pg.history)|] == old(pg.history);
    pg.Sound();
    assert LogOk(pg.db, me);
  }

  method CloseStatements(pg: Postgres, me: TxId, e: EventId, env: Surroundings) returns (reply: Reply)
    requires pg.Serving(me, env) && me !in pg.db.txs && me !in pg.db.log
    modifies pg
    ensures pg.Continues(old(pg.start), old(pg.history), old(pg.call)) && pg.Ended(me, Close(e), reply)
    ensures var seen := AtLock(old(pg.db), me, Close(e), env);
            pg.Answered(Close(e), seen, reply, env.fault(0), MayFailClose(env, seen, e), env.replied)
  {
    var req := Close(e);
    var ok := pg.Open(me, req, env);
    if !ok {
      return Failed(false);
    }
    if e !in pg.db.events {
      pg.Conclude(me, Plain, req, Begun, NotFound);
      return NotFound;
    }
    var current := pg.db.events[e].row.status;
    reply := ChangeStatus(pg, me, req, current, current == Open || current == Closed, Closed, env);
  }

  ghost predicate MayFailCancel(env: Surroundings, seen: Db, e: EventId) {
    e in seen.events && CancelFaults(env, seen.events[e].row.status)
  }

  /** Cancel. */
  method CancelEvent(pg: Postgres, me: TxId, e: EventId, env: Surroundings) returns (reply: Reply)
    requires pg.Valid() && me !in pg.db.txs && me !in pg.db.log
    modifies pg
    ensures pg.Valid() && pg.start == old(pg.start) && Grew(old(pg.history), pg.history, me, env)
    ensures pg.Ended(me, Cancel(e), reply)
    ensures var seen := AtLock(old(pg.db), me, Cancel(e), env);
            && pg.Answered(Cancel(e), seen, reply, env.fault(0), MayFailCancel(env, seen, e), env.replied)
            && (Committing(reply) ==>
                  && e in seen.events && !env.fault(2)
                  && (seen.events[e].row.status == Open || seen.events[e].row.status == Closed ==> !env.fault(1)))
    ensures e in pg.db.events ==> ReplyOk(Cancel(e), reply, pg.db.events[e])
    ensures e !in pg.db.events ==> reply == NotFound || reply == Failed(false)
  {
    pg.Answer(me, env);
    reply := CancelStatements(pg, me, e, env);
    assert pg.history[..|old(pg.history)|] == old(pg.history);
    pg.Sound();
    assert LogOk(pg.db, me);
  }

  method CancelStatements(pg: Postgres, me: TxId, e: EventId, env: Surroundings) returns (reply: Reply)
    requires pg.Serving(me, env) && me !in pg.db.txs && me !in pg.db.log
    modifies pg
    ensures pg.Continues(old(pg.start), old(pg.history), old(pg.call)) && pg.Ended(me, Cancel(e), reply)
    ensures var seen := AtLock(old(pg.db), me, Cancel(e), env);
            pg.Answered(Cancel(e), seen, reply, env.fault(0), MayFailCancel(env, seen, e), env.replied)
  {
    var req := Cancel(e);
    var ok := pg.Open(me, req, env);
    if !ok {
      return Failed(false);
    }
    if e !in pg.db.events {
      pg.Conclude(me, Plain, req, Begun, NotFound);
      return NotFound;
    }
    var current := pg.db.events[e].row.status;
    reply := ChangeStatus(pg, me, req, current, current != Drawn, Cancelled, env);
  }

  ghost predicate ChangeFaults(env: Surroundings, current: Status, permitted: bool, target: Status) {
    permitted && ((current != target && env.fault(1)) || env.fault(2))
  }

  /** What Close and Cancel share once they may lock the row. A refusal executes
      no further statement. */
  method ChangeStatus(pg: Postgres, me: TxId, ghost req: Request, current: Status, permitted: bool, target: Status,
                      env: Surroundings) returns (reply: Reply)
    requires pg.Serving(me, env) && me in pg.db.txs && pg.db.txs[me] == Tx(req, Begun) && (req.Close? || req.Cancel?)
    requires req.event in pg.db.events && req.event !in pg.db.locks && current == pg.db.events[req.event].row.status
    requires Target(req, current) == if permitted then Some(target) else None
    modifies pg
    ensures pg.Continues(old(pg.start), old(pg.history), old(pg.call)) && pg.Ended(me, req, reply)
    ensures pg.Settled(req, old(pg.db).events[req.event], reply, ChangeFaults(env, current, permitted, target), env.replied)
  {
    ghost var d := pg.db.events[req.event];
    pg.Lock(me, Plain, req, ChangeLocked(current));
    if permitted {
      reply := UpdateStatus(pg, me, req, current, target, d, env);
    } else {
      pg.Conclude(me, Plain, req, ChangeLocked(current), InvalidTransition);
      reply := InvalidTransition;
    }
  }

  /** The UPDATE, unless the status is already the wanted one, and the commit. */
  method UpdateStatus(pg: Postgres, me: TxId, ghost req: Request, current: Status, target: Status,
                      ghost d: EventData, env: Surroundings) returns (reply: Reply)
    requires pg.Serving(me, env) && pg.Holding(me, req, ChangeLocked(current), d) && (req.Close? || req.Cancel?)
    requires Target(req, current) == Some(target)
    modifies pg
    ensures pg.Continues(old(pg.start), old(pg.history), old(pg.call)) && pg.Ended(me, req, reply)
    ensures pg.Settled(req, d, reply, ChangeFaults(env, current, true, target), env.replied)
  {
    if current != target {
      pg.Pause(me, env, 1, env.fault(1), req, ChangeLocked(current), d);
      if env.fault(1) {
        return Failed(false);
      }
    }
    pg.Advance(me, Plain, req, ChangeLocked(current), d, ChangeReady(target));
    reply := pg.Complete(me, env, 2, Changed, req, ChangeReady(target), d);
  }
}
