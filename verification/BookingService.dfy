/** BookWithLock (internal/booking/service.go) as sequential code with its
    deferred calls, in the middle of everything else that happens in a cluster.
    The method is proved to be a run of the transition system of module Cluster;
    unless its replica crashes it always gets to the end of its deferred calls,
    and when it does not come to an answer of the transaction's own, something
    in its surroundings was the cause. */
module BookingService {
  import opened Prelude
  import opened Tables
  import opened Transactions
  import opened Cluster
  import opened RequestView
  import D = Database
  import G = Gates
  import R = RedisLock
  import CG = ClusterGuarantees

  /** The call that is being served: since when, for whom, and what others do. */
  datatype Call = Call(from: nat, me: ReqId, env: Surroundings)

  class Deployment {
    var state: State
    ghost var start: State
    ghost var history: seq<Step>
    ghost var call: Call

    /** The cluster has got from `start` to `state` by the steps in `history`, and
        since the call began only the caller and its surroundings took part. */
    ghost predicate Valid()
      reads this
    {
      && Inv(start) && Runs(start, history) && state == Final(start, history)
      && call.from <= |history| && Grew(history[..call.from], history, call.me, call.env)
    }

    ghost predicate Serving(me: ReqId, env: Surroundings)
      reads this
    {
      Valid() && call.me == me && call.env == env
    }

    /** The same call goes on. */
    ghost predicate Continues(start': State, history': seq<Step>, call': Call)
      reads this
    {
      Valid() && start == start' && history' <= history && call == call'
    }

    constructor (initial: State, initialCall: Call)
      requires Inv(initial) && initialCall.from == 0
      ensures Valid() && state == initial && start == initial
    {
      state, start, history, call := initial, initial, [], initialCall;
    }

    /** A new call begins. */
    ghost method Answer(me: ReqId, env: Surroundings)
      requires Valid()
      modifies this
      ensures Serving(me, env) && call.from == |history|
      ensures state == old(state) && start == old(start) && history == old(history)
    {
      call := Call(|history|, me, env);
    }

    /** The components agree about the request. */
    lemma Sound(me: ReqId)
      requires Valid() && me in state.reqs
      ensures Linked(state, me) && ReplicaOk(state, state.reqs[me].replica) && D.Inv(state.db)
    {
      RunKeepsInv(start, history);
    }

    /** The request is still the one it was earlier in the history; if it has
        crashed since, its replica has. */
    lemma SameRequest(me: ReqId, earlier: seq<Step>)
      requires Valid() && earlier <= history && Runs(start, earlier) && me in Final(start, earlier).reqs
      requires Final(start, earlier).reqs[me].stage != Crashed
      ensures me in state.reqs
      ensures state.reqs[me] == Final(start, earlier).reqs[me].(stage := state.reqs[me].stage)
      ensures state.reqs[me].stage == Crashed ==> Crash(state.reqs[me].replica) in history[|earlier|..]
    {
      RunsSplit(start, earlier, history);
      RequestsKeepTheirIdentity(Final(start, earlier), history[|earlier|..], me);
      if state.reqs[me].stage == Crashed {
        CrashedByACrash(Final(start, earlier), history[|earlier|..], me);
      }
    }

    ghost predicate At(me: ReqId, stage: Stage)
      reads this
    {
      me in state.reqs && state.reqs[me].stage == stage
    }

    method Take(step: Step)
      requires Valid() && Enabled(state, step) && Fits(step, call.me, call.env)
      modifies this
      ensures Continues(old(start), old(history), old(call)) && state == Apply(old(state), step)
    {
      assert Runs(Apply(state, step), []);
      assert [step][1..] == [];
      RunsAppend(start, history, [step]);
      assert (history + [step])[..call.from] == history[..call.from];
      history := history + [step];
      state := Apply(state, step);
    }

    /** A step of request `me` itself. */
    method Own(me: ReqId, step: Step)
      requires Valid() && call.me == me && me in state.reqs && Enabled(state, step)
      requires ByRequest(step) && !step.Arrive? && step.r == me && Allowed(step, call.env)
      modifies this
      ensures Continues(old(start), old(history), old(call))
      ensures At(me, NextStage(old(state), step, state.redis, state.db))
    {
      Take(step);
    }

    /** The steps are in the surroundings of the call. */
    ghost predicate Invited(steps: seq<Step>)
      reads this
    {
      forall step :: step in steps ==> FromEnv(step, call.env)
    }

    /** Others take those of `steps` that they can; false if the replica crashed. */
    method Others(me: ReqId, steps: seq<Step>) returns (alive: bool)
      requires Valid() && call.me == me && Invited(steps) && me in state.reqs && state.reqs[me].stage != Crashed
      requires state.reqs[me].stage == AtGate ==> Place(state, me).Some?
      modifies this
      ensures Continues(old(start), old(history), old(call))
      ensures state == Interleaved(old(state), steps, me)
      ensures Undisturbed(old(state), state, me) && (!alive <==> At(me, Crashed))
    {
      for i := 0 to |steps|
        invariant Continues(old(start), old(history), old(call))
        invariant state == Interleaved(old(state), steps[..i], me)
        invariant Undisturbed(old(state), state, me)
      {
        assert steps[..i + 1][..i] == steps[..i];
        TakeForeign(me, steps[i]);
      }
      assert steps[..|steps|] == steps;
      alive := state.reqs[me].stage != Crashed;
    }

    method TakeForeign(me: ReqId, step: Step)
      requires Valid() && call.me == me && me in state.reqs && FromEnv(step, call.env)
      modifies this
      ensures Continues(old(start), old(history), old(call))
      ensures state == if Foreign(step, me) then Try(old(state), step) else old(state)
      ensures state == old(state) || Undisturbed(old(state), state, me)
    {
      if Foreign(step, me) && Enabled(state, step) {
        Sound(me);
        ForeignStepIsUndisturbing(state, step, me);
        Take(step);
      }
    }

    /** The same away from the gate, where only a crash can be noticed. */
    method Pause(me: ReqId, steps: seq<Step>) returns (alive: bool)
      requires Valid() && call.me == me && Invited(steps)
      requires me in state.reqs && state.reqs[me].stage != AtGate && state.reqs[me].stage != Crashed
      modifies this
      ensures Continues(old(start), old(history), old(call))
      ensures state == Interleaved(old(state), steps, me)
      ensures At(me, if alive then old(state).reqs[me].stage else Crashed)
    {
      alive := Others(me, steps);
    }

    /* -- Layer one -- */

    /** The send of enter and the wait for the slot. */
    method WaitAtGate(me: ReqId, env: Surroundings) returns (owns: bool, ghost k: nat)
      requires Serving(me, env) && At(me, AtGate) && Place(state, me) == Some(G.Arrived)
      modifies this
      ensures Continues(old(start), old(history), old(call)) && Enabled(old(state), Send(me))
      ensures var sent := Apply(old(state), Send(me));
              && (owns ==> At(me, AtGate) && Place(state, me) == Some(G.Owner) && OwnsFirst(sent, me, env, k)
                           && state == Looked(sent, me, env, k))
              && (!owns ==> At(me, Crashed) || (At(me, Exiting(Busy)) && StillWaiting(sent, me, env)))
    {
      SendAtGate(me);
      owns, k := Look(me, env);
    }

    lemma MaySend(me: ReqId)
      requires Valid() && At(me, AtGate) && Place(state, me) == Some(G.Arrived)
      ensures Enabled(state, Send(me))
      ensures var s' := Apply(state, Send(me));
              me in s'.reqs && s'.reqs[me].stage == AtGate
              && (Place(s', me) == Some(G.Waiting) || Place(s', me) == Some(G.Owner))
    {
      Sound(me);
      GateStepsNeverBlock(state, me);
      GateSend(state, me);
    }

    method SendAtGate(me: ReqId)
      requires Valid() && call.me == me && At(me, AtGate) && Place(state, me) == Some(G.Arrived)
      modifies this
      ensures Continues(old(start), old(history), old(call))
      ensures Enabled(old(state), Send(me)) && state == Apply(old(state), Send(me))
      ensures At(me, AtGate) && (Place(state, me) == Some(G.Waiting) || Place(state, me) == Some(G.Owner))
    {
      MaySend(me);
      Take(Send(me));
    }

    /** The wait, with a look at the channel now and then. */
    method Look(me: ReqId, env: Surroundings) returns (owns: bool, ghost k: nat)
      requires Serving(me, env) && At(me, AtGate) && (Place(state, me) == Some(G.Waiting) || Place(state, me) == Some(G.Owner))
      modifies this
      ensures Continues(old(start), old(history), old(call))
      ensures owns ==> At(me, AtGate) && Place(state, me) == Some(G.Owner)
                       && OwnsFirst(old(state), me, env, k) && state == Looked(old(state), me, env, k)
      ensures !owns ==> At(me, Crashed) || (At(me, Exiting(Busy)) && StillWaiting(old(state), me, env))
    {
      for i := 0 to env.looks
        invariant Continues(old(start), old(history), old(call))
        invariant state == Looked(old(state), me, env, i)
        invariant NotYet(old(state), me, env, i)
        invariant At(me, AtGate) && (Place(state, me) == Some(G.Waiting) || Place(state, me) == Some(G.Owner))
      {
        if Place(state, me) == Some(G.Owner) {
          return true, i;
        }
        var alive := Others(me, env.atGate(i));
        if !alive {
          return false, i;
        }
      }
      k := env.looks;
      owns := Place(state, me) == Some(G.Owner);
      if !owns {
        TimeOutAtGate(me);
      }
    }

    method TimeOutAtGate(me: ReqId)
      requires Valid() && call.me == me && At(me, AtGate) && Place(state, me) == Some(G.Waiting)
      modifies this
      ensures Continues(old(start), old(history), old(call))
      ensures At(me, Exiting(Busy))
    {
      Sound(me);
      GateStepsNeverBlock(state, me);
      Own(me, GateTimeout(me));
    }

    /* -- Layer two -- */

    /** newToken; false if the random source fails. */
    method GetToken(me: ReqId, env: Surroundings) returns (ok: bool, token: R.Token)
      requires Serving(me, env) && At(me, AtGate) && Place(state, me) == Some(G.Owner)
      modifies this
      ensures Continues(old(start), old(history), old(call)) && ok == !env.tokenFails
      ensures if ok then At(me, AtRedis) else At(me, Leaving(TokenFailed))
      ensures ok ==> Enabled(old(state), NewToken(me, token)) && state == Apply(old(state), NewToken(me, token))
    {
      assert Above(state.redis.used) !in state.redis.used;
      token :| token !in state.redis.used;
      ok := !env.tokenFails;
      assert Enabled(state, NoToken(me)) && Enabled(state, NewToken(me, token)) by {
        Sound(me);
        GateStepsNeverBlock(state, me);
      }
      if ok {
        NewTokenEffect(state, me, token);
        Take(NewToken(me, token));
      } else {
        Own(me, NoToken(me));
      }
    }

    /** The polling loop of acquireRedisLock. */
    method Poll(me: ReqId, env: Surroundings) returns (locked: bool, ghost k: nat)
      requires Serving(me, env) && At(me, AtRedis)
      modifies this
      ensures Continues(old(start), old(history), old(call))
      ensures locked ==> At(me, Locked) && PollEnds(old(state), me, env, k) && env.replied(k)
                         && state == AfterPoll(old(state), me, env, k)
      ensures !locked ==>
                || At(me, Crashed)
                || (At(me, Leaving(LockFailed)) && PollEnds(old(state), me, env, k) && !env.replied(k))
                || (At(me, Leaving(Busy)) && StillPolling(old(state), me, env))
    {
      for i := 0 to env.polls
        invariant Continues(old(start), old(history), old(call))
        invariant state == Polled(old(state), me, env, i)
        invariant At(me, AtRedis)
      {
        SetNxOnce(me, env, i);
        if state.reqs[me].stage != AtRedis {
          return state.reqs[me].stage == Locked, i;
        }
        var alive := Pause(me, env.atRedis(i));
        if !alive {
          return false, i;
        }
      }
      GiveUpLock(me);
      locked, k := false, 0;
    }

    method SetNxOnce(me: ReqId, env: Surroundings, k: nat)
      requires Serving(me, env) && At(me, AtRedis) && k < env.polls
      modifies this
      ensures Continues(old(start), old(history), old(call))
      ensures state == Try(old(state), SetNx(me, env.replied(k)))
      ensures At(me, AtRedis) || At(me, if env.replied(k) then Locked else Leaving(LockFailed))
    {
      assert Enabled(state, SetNx(me, env.replied(k))) by {
        Sound(me);
        LockStepsNeverBlock(state, me, env.replied(k));
      }
      SetNxEffect(state, me, env.replied(k));
      Take(SetNx(me, env.replied(k)));
    }

    method GiveUpLock(me: ReqId)
      requires Valid() && call.me == me && At(me, AtRedis)
      modifies this
      ensures Continues(old(start), old(history), old(call))
      ensures At(me, Leaving(Busy))
    {
      Sound(me);
      LockStepsNeverBlock(state, me, true);
      Own(me, LockTimeout(me));
    }

    /* -- Layer three -- */

    /** The request is in its transaction, past `k` statements. */
    ghost predicate Working(me: ReqId, k: nat)
      reads this
    {
      && At(me, InTx) && me in state.db.txs && me !in state.db.log
      && state.db.txs[me].req == Book(state.reqs[me].event, state.reqs[me].user) && Reached(state.db.txs[me].at, k)
    }

    /** It holds the row lock, under which the committed data is `d`. */
    ghost predicate Under(me: ReqId, d: EventData)
      reads this
    {
      me in state.reqs && state.reqs[me].event in state.db.events && state.db.events[state.reqs[me].event] == d
    }

    /** The transaction that found `d` under its row lock is over. */
    ghost predicate Settled(me: ReqId, req: Req, d: EventData, env: Surroundings)
      reads this
    {
      me in state.reqs && state.reqs[me].stage.Releasing? && state.reqs[me].stage.answer.FromTx?
      && TxSettled(state.reqs[me].stage.answer.reply, d, req.event, req.user, state.db.users, env)
    }

    /** Begin a transaction; false if that fails. */
    method Begin(me: ReqId, env: Surroundings) returns (ok: bool)
      requires Serving(me, env) && At(me, Locked)
      modifies this
      ensures Continues(old(start), old(history), old(call)) && ok == !env.beginFails
      ensures ok ==> Working(me, 0) && Enabled(old(state), BeginTx(me)) && state == Apply(old(state), BeginTx(me))
                     && state.reqs[me] == old(state).reqs[me].(stage := InTx)
      ensures !ok ==> At(me, Releasing(BeginFailed))
    {
      assert Enabled(state, NoTx(me)) && Enabled(state, BeginTx(me)) && me !in state.db.log by {
        Sound(me);
        LockStepsNeverBlock(state, me, true);
      }
      ok := !env.beginFails;
      if ok {
        BeginEffect(state, me);
        Take(BeginTx(me));
      } else {
        Own(me, NoTx(me));
      }
    }

    /** The deferred rollback. */
    method Rollback(me: ReqId)
      requires Valid() && call.me == me && At(me, InTx)
      modifies this
      ensures Continues(old(start), old(history), old(call)) && state.db.users == old(state).db.users
      ensures At(me, Releasing(FromTx(Failed(false))))
    {
      assert Enabled(state, TxStep(me, D.Abort(me))) by {
        Sound(me);
        LockStepsNeverBlock(state, me, true);
      }
      TxStepEffect(state, me, D.Abort(me));
      Take(TxStep(me, D.Abort(me)));
    }

    /** Others run before the next statement, or during the wait for the row lock. */
    method PauseTx(me: ReqId, steps: seq<Step>, ghost k: nat) returns (alive: bool)
      requires Valid() && call.me == me && Invited(steps) && Working(me, k)
      modifies this
      ensures Continues(old(start), old(history), old(call)) && state == Interleaved(old(state), steps, me)
      ensures if alive then Working(me, k) && state.reqs[me] == old(state).reqs[me] else At(me, Crashed)
      ensures alive ==> old(state).db.users <= state.db.users
      ensures alive && k >= 1 && old(state).reqs[me].event in old(state).db.events ==>
                Under(me, old(state).db.events[old(state).reqs[me].event])
    {
      alive := Others(me, steps);
    }

    /** One statement, on a free row lock or under it. */
    method Execute(me: ReqId, k: nat, env: Surroundings) returns (going: bool)
      requires Serving(me, env) && Working(me, k) && k < 4
      requires k == 0 ==> state.reqs[me].event !in state.db.locks
      modifies this
      ensures Continues(old(start), old(history), old(call))
      ensures state.db.events == old(state).db.events && state.db.users == old(state).db.users
      ensures going ==> Working(me, k + 1) && state.reqs[me] == old(state).reqs[me]
                        && state.reqs[me].event in state.db.events
      ensures !going ==> me in state.reqs && state.reqs[me].stage.Releasing? && state.reqs[me].stage.answer.FromTx?
                         && StatementAnswers(old(state).db, me, k, state.reqs[me].stage.answer.reply)
    {
      var step := D.Statement(me, InputAt(k, env.now));
      MayExecute(me, k, env);
      Take(TxStep(me, step));
      going := state.reqs[me].stage == InTx;
    }

    lemma MayExecute(me: ReqId, k: nat, env: Surroundings)
      requires Valid() && Working(me, k) && k < 4
      requires k == 0 ==> state.reqs[me].event !in state.db.locks
      ensures var step := TxStep(me, D.Statement(me, InputAt(k, env.now)));
              && Enabled(state, step)
              && var s' := Apply(state, step);
                 && s'.db.events == state.db.events && s'.db.users == state.db.users && me in s'.reqs
                 && if me in s'.db.log then
                      s'.reqs[me].stage == Releasing(FromTx(s'.db.log[me].reply))
                      && StatementAnswers(state.db, me, k, s'.db.log[me].reply)
                    else
                      && s'.reqs[me] == state.reqs[me] && state.reqs[me].event in state.db.events
                      && me in s'.db.txs && s'.db.txs[me].req == state.db.txs[me].req && Reached(s'.db.txs[me].at, k + 1)
    {
      Sound(me);
      BookStatement(state.db, me, k, env.now);
      TxStepEffect(state, me, D.Statement(me, InputAt(k, env.now)));
    }

    /** The wait for the row lock, and the first statement. */
    method LockRow(me: ReqId, env: Surroundings) returns (going: bool, ghost seen: D.Db)
      requires Serving(me, env) && Working(me, 0)
      modifies this
      ensures Continues(old(start), old(history), old(call)) && seen == Interleaved(old(state), env.inTx(0), me).db
      ensures going ==>
                && Working(me, 1) && state.reqs[me] == old(state).reqs[me] && state.db.users == seen.users
                && state.reqs[me].event in seen.events && Under(me, seen.events[state.reqs[me].event])
                && !env.fault(0) && state.reqs[me].event !in seen.locks
      ensures !going ==>
                At(me, Crashed) || RowAnswered(me, env.fault(0) || old(state).reqs[me].event in seen.locks,
                                               old(state).reqs[me].event in seen.events, seen.users)
    {
      going := PauseTx(me, env.inTx(0), 0);
      seen := state.db;
      if going {
        if env.fault(0) || state.reqs[me].event in state.db.locks {
          Rollback(me);
          return false, seen;
        }
        going := Execute(me, 0, env);
      }
    }

    /** The transaction is over without having held the row lock. */
    ghost predicate RowAnswered(me: ReqId, failed: bool, exists_: bool, users: set<UserId>)
      reads this
    {
      && state.db.users == users
      && if failed then At(me, Releasing(FromTx(Failed(false)))) else !exists_ && At(me, Releasing(FromTx(NotFound)))
    }

    /** Others, and then statement `k`, unless it fails. */
    method Statement(me: ReqId, k: nat, env: Surroundings, ghost req: Req, ghost d: EventData) returns (going: bool)
      requires Serving(me, env) && Working(me, k) && 1 <= k < 4 && Under(me, d) && req == state.reqs[me]
      requires Clear(env, k - 1)
      modifies this
      ensures Continues(old(start), old(history), old(call))
      ensures !At(me, Crashed) ==> old(state).db.users <= state.db.users
      ensures going ==> Working(me, k + 1) && Under(me, d) && state.reqs[me] == req && Clear(env, k)
      ensures !going ==> At(me, Crashed) || Settled(me, req, d, env)
    {
      going := PauseTx(me, env.inTx(k), k);
      if going {
        if env.fault(k) {
          FailTx(me, k, env, d);
          return false;
        }
        going := AskUnder(me, k, env, req, d);
      }
    }

    /** Statement `k` under the row lock. */
    method AskUnder(me: ReqId, k: nat, env: Surroundings, ghost req: Req, ghost d: EventData) returns (going: bool)
      requires Serving(me, env) && Working(me, k) && 1 <= k < 4 && Under(me, d) && req == state.reqs[me] && Clear(env, k)
      modifies this
      ensures Continues(old(start), old(history), old(call)) && state.db.users == old(state).db.users
      ensures going ==> Working(me, k + 1) && Under(me, d) && state.reqs[me] == req
      ensures !going ==> Settled(me, req, d, env)
    {
      going := Execute(me, k, env);
      if !going {
        AnswerSettles(k, d, req.event, req.user, state.db.users, env, state.reqs[me].stage.answer.reply);
      }
    }

    /** Statement `k` fails. */
    method FailTx(me: ReqId, ghost k: nat, env: Surroundings, ghost d: EventData)
      requires Serving(me, env) && Working(me, k) && 1 <= k <= 4 && Under(me, d) && env.fault(k)
      modifies this
      ensures Continues(old(start), old(history), old(call)) && state.db.users == old(state).db.users
      ensures Settled(me, old(state).reqs[me], d, env)
    {
      FaultSettles(me, k, env, d);
      Rollback(me);
    }

    lemma FaultSettles(me: ReqId, k: nat, env: Surroundings, d: EventData)
      requires Valid() && Working(me, k) && 1 <= k <= 4 && Under(me, d) && env.fault(k)
      ensures TxSettled(Failed(false), d, state.reqs[me].event, state.reqs[me].user, state.db.users, env)
    {
      Sound(me);
      FaultStopsTx(state.db, me, k, d, state.reqs[me].event, state.reqs[me].user, env);
    }

    /** COMMIT. */
    method CommitTx(me: ReqId, env: Surroundings, ghost req: Req, ghost d: EventData)
      requires Serving(me, env) && Working(me, 4) && Under(me, d) && req == state.reqs[me]
      requires Clear(env, 3)
      modifies this
      ensures Continues(old(start), old(history), old(call))
      ensures !At(me, Crashed) ==> old(state).db.users <= state.db.users
      ensures At(me, Crashed) || Settled(me, req, d, env)
    {
      var alive := PauseTx(me, env.inTx(4), 4);
      if alive {
        if env.fault(4) {
          FailTx(me, 4, env, d);
        } else {
          FinishTx(me, env, d);
        }
      }
    }

    method FinishTx(me: ReqId, env: Surroundings, ghost d: EventData)
      requires Serving(me, env) && Working(me, 4) && Under(me, d) && Clear(env, 4)
      modifies this
      ensures Continues(old(start), old(history), old(call)) && state.db.users == old(state).db.users
      ensures Settled(me, old(state).reqs[me], d, env)
    {
      ghost var req := state.reqs[me];
      assert D.Inv(state.db) by {
        Sound(me);
      }
      BookCommit(state.db, me, env.committed);
      TxStepEffect(state, me, D.Commit(me, env.committed));
      Take(TxStep(me, D.Commit(me, env.committed)));
      CommitSettles(d, state.db.events[req.event], req.event, req.user, state.db.users, env);
    }

    /** createBooking: four statements and the commit. */
    method CreateBooking(me: ReqId, env: Surroundings)
      requires Serving(me, env) && At(me, Locked)
      modifies this
      ensures Continues(old(start), old(history), old(call))
      ensures At(me, Crashed) || (me in state.reqs && state.reqs[me].stage.Releasing?
                                  && ExplainedByTx(state.reqs[me].stage.answer, old(state), me, env))
    {
      var going := Begin(me, env);
      if going {
        ghost var seen := Interleaved(state, env.inTx(0), me).db;
        BookSeat(me, env);
        if state.reqs[me].stage != Crashed {
          RowDecides(state.reqs[me].stage.answer, old(state), me, env, seen, state.db.users);
        }
      }
    }

    /** The open transaction has got its answer. */
    ghost predicate Answered(me: ReqId, req: Req, seen: D.Db, env: Surroundings)
      reads this
    {
      me in state.reqs && state.reqs[me].stage.Releasing? && state.reqs[me].stage.answer.FromTx?
      && TxAnswered(state.reqs[me].stage.answer.reply, seen, req.event, req.user, state.db.users, env)
    }

    /** From the wait for the row lock to the end of the transaction. */
    method BookSeat(me: ReqId, env: Surroundings)
      requires Serving(me, env) && Working(me, 0)
      modifies this
      ensures Continues(old(start), old(history), old(call))
      ensures At(me, Crashed) || Answered(me, old(state).reqs[me], Interleaved(old(state), env.inTx(0), me).db, env)
    {
      ghost var req := state.reqs[me];
      var going;
      ghost var seen;
      going, seen := LockRow(me, env);
      if going {
        RunStatements(me, env, req, seen.events[req.event]);
      }
    }

    /** The statements under the row lock, and the commit. */
    method RunStatements(me: ReqId, env: Surroundings, ghost req: Req, ghost d: EventData)
      requires Serving(me, env) && Working(me, 1) && Under(me, d) && req == state.reqs[me]
      modifies this
      ensures Continues(old(start), old(history), old(call))
      ensures !At(me, Crashed) ==> old(state).db.users <= state.db.users
      ensures At(me, Crashed) || Settled(me, req, d, env)
    {
      for k := 1 to 4
        invariant Continues(old(start), old(history), old(call))
        invariant Working(me, k) && Under(me, d) && state.reqs[me] == req && old(state).db.users <= state.db.users
        invariant Clear(env, k - 1)
      {
        var going := Statement(me, k, env, req, d);
        if !going {
          return;
        }
      }
      CommitTx(me, env, req, d);
    }

    /* -- The deferred calls -- */

    lemma MayUnlock(me: ReqId, end: R.ReleaseEnd)
      requires Valid() && me in state.reqs && state.reqs[me].stage.Releasing?
      ensures Enabled(state, Unlock(me, end))
    {
      Sound(me);
      UnlockNeverBlocks(state, me, end);
    }

    lemma MayLeave(me: ReqId)
      requires Valid() && me in state.reqs
      ensures state.reqs[me].stage.Leaving? ==> Enabled(state, LeaveGate(me))
      ensures state.reqs[me].stage.Exiting? ==> Enabled(state, DropGate(me))
    {
      Sound(me);
      LeavingNeverBlocks(state, me);
    }

    /** The deferred release of the Redis lock. */
    method Release(me: ReqId, env: Surroundings) returns (alive: bool)
      requires Serving(me, env) && me in state.reqs && state.reqs[me].stage.Releasing?
      modifies this
      ensures Continues(old(start), old(history), old(call))
      ensures At(me, if alive then Leaving(old(state).reqs[me].stage.answer) else Crashed)
    {
      alive := Pause(me, env.leaving(0));
      if alive {
        ReleaseLock(me, env);
      }
    }

    /** The deferred leave: receive from the channel. */
    method Receive(me: ReqId, env: Surroundings) returns (alive: bool)
      requires Serving(me, env) && me in state.reqs && state.reqs[me].stage.Leaving?
      modifies this
      ensures Continues(old(start), old(history), old(call))
      ensures At(me, if alive then Exiting(old(state).reqs[me].stage.answer) else Crashed)
    {
      alive := Pause(me, env.leaving(1));
      if alive {
        LeaveSlot(me);
      }
    }

    /** The deferred leave: release the reference. */
    method Drop(me: ReqId, env: Surroundings) returns (alive: bool)
      requires Serving(me, env) && me in state.reqs && state.reqs[me].stage.Exiting?
      modifies this
      ensures Continues(old(start), old(history), old(call))
      ensures At(me, if alive then Done(old(state).reqs[me].stage.answer) else Crashed)
    {
      alive := Pause(me, env.leaving(2));
      if alive {
        DropReference(me);
      }
    }

    method ReleaseLock(me: ReqId, env: Surroundings)
      requires Serving(me, env) && me in state.reqs && state.reqs[me].stage.Releasing?
      modifies this
      ensures Continues(old(start), old(history), old(call))
      ensures At(me, Leaving(old(state).reqs[me].stage.answer))
    {
      MayUnlock(me, env.unlock);
      Own(me, Unlock(me, env.unlock));
    }

    method LeaveSlot(me: ReqId)
      requires Valid() && call.me == me && me in state.reqs && state.reqs[me].stage.Leaving?
      modifies this
      ensures Continues(old(start), old(history), old(call))
      ensures At(me, Exiting(old(state).reqs[me].stage.answer))
    {
      MayLeave(me);
      Own(me, LeaveGate(me));
    }

    method DropReference(me: ReqId)
      requires Valid() && call.me == me && me in state.reqs && state.reqs[me].stage.Exiting?
      modifies this
      ensures Continues(old(start), old(history), old(call))
      ensures At(me, Done(old(state).reqs[me].stage.answer))
    {
      MayLeave(me);
      Own(me, DropGate(me));
    }

    /* -- BookWithLock -- */

    /** The checks of the arguments, and the first part of enter. */
    method ArriveAt(me: ReqId, p: ReplicaId, e: EventId, u: UserId) returns (gate: G.Addr)
      requires Valid() && call.me == me && me !in state.reqs && me !in state.db.txs && me !in state.db.log
      requires me !in GatesOf(state, p).seen
      modifies this
      ensures Continues(old(start), old(history), old(call))
      ensures me in state.reqs && state.reqs[me] == Req(p, e, u, if e <= 0 || u <= 0 then Done(InvalidInput) else AtGate)
      ensures Enabled(old(state), Arrive(me, p, e, u, gate)) && state == Apply(old(state), Arrive(me, p, e, u, gate))
      ensures e > 0 && u > 0 ==> Place(state, me) == Some(G.Arrived)
    {
      assert Above(GatesOf(state, p).table.heap.Keys) !in GatesOf(state, p).table.heap;
      gate :| gate !in GatesOf(state, p).table.heap;
      RunKeepsInv(start, history);
      ArrivalNeverBlocks(state, me, p, e, u, gate);
      Take(Arrive(me, p, e, u, gate));
    }

    /** BookWithLock for a new request `me` on replica `p`. It ends with an answer
        that is true of the tables and explained by what happened, unless its
        surroundings crash its replica; and unless a SET NX reply is lost or the
        release does not get through, it leaves nothing of its own in Redis. */
    method BookWithLock(me: ReqId, p: ReplicaId, e: EventId, u: UserId, env: Surroundings) returns (answer: Option<Answer>)
      requires Valid() && me !in state.reqs && me !in state.db.txs && me !in state.db.log
      requires me !in GatesOf(state, p).seen
      modifies this
      ensures Valid() && start == old(start) && Grew(old(history), history, me, env)
      ensures me in state.reqs
      ensures state.reqs[me] == Req(p, e, u, if answer.Some? then Done(answer.value) else Crashed)
      ensures answer.Some? ==> CG.Truthful(state, me)
      ensures if e <= 0 || u <= 0 then answer == Some(InvalidInput)
              else answer.Some? ==> Explained(answer.value, old(state), me, p, e, u, env)
      ensures answer.None? ==> FromEnv(Crash(p), env)
      ensures answer.Some? ==> Gone(state, me)
      ensures answer.Some? && answer.value != LockFailed && env.unlock != R.NotApplied ==>
                LeavesNothing(history[|old(history)|..], me, state.redis)
    {
      Answer(me, env);
      answer := Serve(me, p, e, u, env);
      GrewSince(old(history));
      if answer.Some? {
        DoneIsGood(me);
        if answer.value != LockFailed && env.unlock != R.NotApplied {
          NothingLeft(me, old(history));
        }
      }
    }

    lemma GrewSince(before: seq<Step>)
      requires Valid() && call.from == |before| && before <= history
      ensures Grew(before, history, call.me, call.env)
    {
      assert history[..call.from] == before;
    }

    lemma DoneIsGood(me: ReqId)
      requires Valid() && me in state.reqs && state.reqs[me].stage.Done?
      ensures CG.Truthful(state, me) && Gone(state, me)
    {
      Sound(me);
      CG.DoneIsTruthful(state, me);
    }

    /** What the release has achieved. */
    lemma NothingLeft(me: ReqId, before: seq<Step>)
      requires Valid() && call.me == me && call.from == |before| && before <= history && call.env.unlock != R.NotApplied
      requires me in state.reqs && state.reqs[me].stage.Done? && state.reqs[me].stage.answer != LockFailed
      ensures LeavesNothing(history[|before|..], me, state.redis)
    {
      assert history[..call.from] == before;
      RunsSplit(start, before, history);
      RunKeepsInv(start, before);
      ReleaseFromEnv(before, history, me, call.env);
      var steps := history[|before|..];
      forall i | 0 <= i < |steps| && steps[i].NewToken? && steps[i].r == me
        ensures CG.Forgotten(state.redis, steps[i].token)
      {
        CG.DrawnTokenIsForgotten(Final(start, before), steps, i, me);
      }
    }

    /** The body of BookWithLock. */
    method Serve(me: ReqId, p: ReplicaId, e: EventId, u: UserId, env: Surroundings) returns (answer: Option<Answer>)
      requires Serving(me, env) && me !in state.reqs && me !in state.db.txs && me !in state.db.log
      requires me !in GatesOf(state, p).seen && call.from == |history|
      modifies this
      ensures Continues(old(start), old(history), old(call))
      ensures me in state.reqs
      ensures state.reqs[me] == Req(p, e, u, if answer.Some? then Done(answer.value) else Crashed)
      ensures if e <= 0 || u <= 0 then answer == Some(InvalidInput)
              else answer.Some? ==> Explained(answer.value, old(state), me, p, e, u, env)
      ensures answer.None? ==> FromEnv(Crash(p), env)
    {
      var gate := ArriveAt(me, p, e, u);
      if e <= 0 || u <= 0 {
        return Some(InvalidInput);
      }
      ghost var arrived := history;
      answer := PassGate(me, env);
      SameRequest(me, arrived);
      assert answer.Some? ==> ExplainedByGate(answer.value, Apply(old(state), Arrive(me, p, e, u, gate)), me, env);
      if answer.None? {
        CrashInvited(p, arrived);
      }
    }

    lemma CrashInvited(p: ReplicaId, arrived: seq<Step>)
      requires Valid() && call.from <= |arrived| && arrived <= history && Crash(p) in history[|arrived|..]
      ensures FromEnv(Crash(p), call.env)
    {
      var before := history[..call.from];
      Suffix(history, before, arrived, Crash(p));
      CrashFromEnv(before, history, call.me, call.env, p);
    }

    /** From the gate to the end. */
    method PassGate(me: ReqId, env: Surroundings) returns (answer: Option<Answer>)
      requires Serving(me, env) && At(me, AtGate) && Place(state, me) == Some(G.Arrived)
      modifies this
      ensures Continues(old(start), old(history), old(call))
      ensures At(me, if answer.Some? then Done(answer.value) else Crashed)
      ensures answer.Some? ==> ExplainedByGate(answer.value, old(state), me, env)
    {
      var alive := Enter(me, env);
      if !alive {
        return None;
      }
      answer := Some(state.reqs[me].stage.answer);
      alive := Drop(me, env);
      if !alive {
        return None;
      }
    }

    /** Everything but dropping the gate reference. */
    method Enter(me: ReqId, env: Surroundings) returns (alive: bool)
      requires Serving(me, env) && At(me, AtGate) && Place(state, me) == Some(G.Arrived)
      modifies this
      ensures Continues(old(start), old(history), old(call))
      ensures alive ==> me in state.reqs && state.reqs[me].stage.Exiting?
                        && ExplainedByGate(state.reqs[me].stage.answer, old(state), me, env)
      ensures !alive ==> At(me, Crashed)
    {
      var owns;
      ghost var k;
      owns, k := WaitAtGate(me, env);
      if !owns {
        alive := state.reqs[me].stage != Crashed;
        return;
      }
      ghost var owner := state;
      alive := HoldSlot(me, env);
      if !alive {
        return;
      }
      assert ExplainedByLock(state.reqs[me].stage.answer, owner, me, env);
      assert OwnsFirst(Apply(old(state), Send(me)), me, env, k) && owner == Looked(Apply(old(state), Send(me)), me, env, k);
      alive := Receive(me, env);
    }

    /** While owning the slot: draw a token, lock, book, unlock. */
    method HoldSlot(me: ReqId, env: Surroundings) returns (alive: bool)
      requires Serving(me, env) && At(me, AtGate) && Place(state, me) == Some(G.Owner)
      modifies this
      ensures Continues(old(start), old(history), old(call))
      ensures alive ==> me in state.reqs && state.reqs[me].stage.Leaving?
                        && ExplainedByLock(state.reqs[me].stage.answer, old(state), me, env)
      ensures !alive ==> At(me, Crashed)
    {
      var ready, token := GetToken(me, env);
      if !ready {
        return true;
      }
      alive := LockAndBook(me, env);
      assert alive ==> ExplainedByPolls(state.reqs[me].stage.answer, Apply(old(state), NewToken(me, token)), me, env);
    }

    /** acquireRedisLock, and what follows. */
    method LockAndBook(me: ReqId, env: Surroundings) returns (alive: bool)
      requires Serving(me, env) && At(me, AtRedis)
      modifies this
      ensures Continues(old(start), old(history), old(call))
      ensures alive ==> me in state.reqs && state.reqs[me].stage.Leaving?
                        && ExplainedByPolls(state.reqs[me].stage.answer, old(state), me, env)
      ensures !alive ==> At(me, Crashed)
    {
      var locked;
      ghost var k;
      locked, k := Poll(me, env);
      if !locked {
        alive := state.reqs[me].stage != Crashed;
        return;
      }
      ghost var holder := state;
      alive := HoldLock(me, env);
      assert alive ==> ExplainedByTx(state.reqs[me].stage.answer, holder, me, env) && PollEnds(old(state), me, env, k);
    }

    /** While holding the Redis lock: book, unlock. */
    method HoldLock(me: ReqId, env: Surroundings) returns (alive: bool)
      requires Serving(me, env) && At(me, Locked)
      modifies this
      ensures Continues(old(start), old(history), old(call))
      ensures alive ==> me in state.reqs && state.reqs[me].stage.Leaving?
                        && ExplainedByTx(state.reqs[me].stage.answer, old(state), me, env)
      ensures !alive ==> At(me, Crashed)
    {
      CreateBooking(me, env);
      alive := state.reqs[me].stage != Crashed;
      if alive {
        alive := Release(me, env);
      }
    }
  }

  /** No gate reference, Redis client or transaction of the request remains. */
  ghost predicate Gone(s: State, me: ReqId)
    requires me in s.reqs
  {
    me !in GatesOf(s, s.reqs[me].replica).clients && me !in s.redis.clients && me !in s.db.txs
  }

  /** No token drawn by the request in `steps` is in Redis or left to expire. */
  ghost predicate LeavesNothing(steps: seq<Step>, me: ReqId, redis: R.State) {
    forall i :: 0 <= i < |steps| && steps[i].NewToken? && steps[i].r == me ==> CG.Forgotten(redis, steps[i].token)
  }

  lemma Suffix(history: seq<Step>, from: seq<Step>, later: seq<Step>, step: Step)
    requires from <= later <= history && step in history[|later|..]
    ensures step in history[|from|..]
  {
    var i :| 0 <= i < |history[|later|..]| && history[|later|..][i] == step;
    assert history[|from|..][|later| - |from| + i] == step;
  }
}
