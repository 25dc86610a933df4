// Which answers really occur: a call that runs alone gets exactly what the sequential ledger decides, and a race
// for one key can end in each of the answers that the error mapping provides for it.
module Outcomes {
  import opened Domain
  import opened Specification
  import opened Protocol
  import opened Invariant
  import opened Guarantees
  import opened Admission
  import opened Refusals
  import Contention
  import Necessity
  import Progress

  /** Steps of one call log nothing but its own commit. */
  lemma {:induction false} AloneLogsOwn(s: State, steps: seq<Step>, r: CallId, k: nat)
    requires Legal(FULL, s, steps) && Progress.TakenAlone(steps, r)
    requires |s.log| <= k < |Execute(FULL, s, steps).log|
    ensures s.log <= Execute(FULL, s, steps).log && CommitOf(Execute(FULL, s, steps).log[k], r)
    decreases |steps|
  {
    var s1 := Apply(FULL, s, steps[0]);
    if !s.calls[r].phase.CommitAll? {
      StepsAreLocal(FULL, s, r, steps[0].choice);
    }
    if |s1.log| <= k {
      AloneLogsOwn(s1, steps[1..], r, k);
    } else {
      AloneKeepsLog(s1, steps[1..], r);
    }
  }

  lemma {:induction false} AloneKeepsLog(s: State, steps: seq<Step>, r: CallId)
    requires Legal(FULL, s, steps) && Progress.TakenAlone(steps, r)
    ensures s.log <= Execute(FULL, s, steps).log
    decreases |steps|
  {
    if steps != [] {
      if !s.calls[r].phase.CommitAll? {
        StepsAreLocal(FULL, s, r, steps[0].choice);
      }
      AloneKeepsLog(Apply(FULL, s, steps[0]), steps[1..], r);
    }
  }

  /** The answer of call r is what the sequential ledger decides on db, and the database is what it makes of db. */
  ghost predicate AnsweredAlone(s: State, r: CallId, db: Db, q: Request) {
    && r in s.calls && s.calls[r].q == q && s.calls[r].phase.Done?
    && match Decide(db, q)
       case Reject(e) => s.calls[r].phase.outcome == Refused(e) && s.db == db
       case Accept =>
         && s.calls[r].phase.outcome.Committed?
         && s.calls[r].phase.outcome.header == HeaderFor(q, s.calls[r].phase.outcome.header.id)
         && !UsedId(db.headers, s.calls[r].phase.outcome.header.id)
         && s.db == AtomicTransfer(db, q, s.calls[r].phase.outcome.header.id)
  }

  lemma OwnCommitsOnly(s: State, r: CallId)
    requires Inv(s) && Progress.HasAnswer(s, r)
    requires forall k | 0 <= k < |s.log| :: CommitOf(s.log[k], r)
    ensures AnsweredAlone(s, r, s.hist[0], s.calls[r].q)
  {
    AnsweredAtPoint(s, r);
    assert CallOk(s, r, s.calls[r]);
    if |s.log| > 0 {
      assert CommitOf(s.log[0], r) && CommitOf(s.log[|s.log| - 1], r);
      assert |s.log| == 1 && FollowsAt(s, 0);
    }
  }

  /** A request that runs alone on a sound ledger is answered, in one attempt, with exactly what the sequential
      specification decides, and has exactly the effect that it specifies. */
  lemma AloneAnswersDecide(db: Db, q: Request) returns (steps: seq<Step>)
    requires Sound(db)
    ensures Run(db, steps) && AnsweredAlone(Final(db, steps), 0, db, q)
    ensures Final(db, steps).calls[0].attempts <= 1
  {
    OneMoreStep(db, [], Submit(0, q));
    steps := [] + [Submit(0, q)];
    var s := Final(db, steps);
    ReachableInv(db, steps);
    if Pending(s, 0) {
      assert Progress.Unobstructed(s, 0);
      var more := Progress.RunAlone(s, 0);
      ExecuteAppend(FULL, Start(db), steps, more);
      AnsweredInTheEnd(s, more, db, q);
      steps := steps + more;
    }
    OnlyOneCall(db, steps);
  }

  lemma AnsweredInTheEnd(s: State, more: seq<Step>, db: Db, q: Request)
    requires Inv(s) && Progress.AnswersAlone(s, 0, more)
    requires s.log == [] && s.hist[0] == db && 0 in s.calls && s.calls[0].q == q
    ensures AnsweredAlone(Execute(FULL, s, more), 0, db, q)
  {
    var s' := Execute(FULL, s, more);
    RunAdvances(s, more);
    assert Continues(s.calls[0], |s.log|, s'.calls[0], |s'.log|);
    forall k | 0 <= k < |s'.log|
      ensures CommitOf(s'.log[k], 0)
    {
      AloneLogsOwn(s, more, 0, k);
    }
    OwnCommitsOnly(s', 0);
  }

  /** Without another call there is nothing to be aborted by. */
  lemma OnlyOneCall(db: Db, steps: seq<Step>)
    requires Run(db, steps) && 0 in Final(db, steps).calls
    requires Final(db, steps).calls.Keys == {0}
    ensures Final(db, steps).calls[0].attempts <= 1
  {
    Contention.NoSharingNoRetry(db, steps, 0);
  }

  // ----- A race for one key -----

  /** Call 0 with request q has checked everything on version db, and is about to insert its header. Call 1 waits
      with request p. */
  ghost predicate AtHeader(s: State, db: Db, q: Request, p: Request) {
    && s.db == db && s.log == [] && s.calls.Keys == {0, 1}
    && Necessity.Reading(s, 0, WriteHeader) && s.calls[0].q == q && s.calls[0].attempts == 1
    && s.calls[1].q == p && s.calls[1].phase.Idle? && s.calls[1].staged == NOTHING
  }

  lemma ReachHeader(db: Db, q: Request, p: Request) returns (steps: seq<Step>)
    requires Sound(db) && Decide(db, q) == Accept && !IsUser(db.accounts, q.source) && p.source != p.destination
    ensures Run(db, steps) && AtHeader(Final(db, steps), db, q, p)
  {
    OneMoreStep(db, [], Submit(0, q));
    steps := [] + [Submit(0, q)];
    OneMoreStep(db, steps, Submit(1, p));
    steps := steps + [Submit(1, p)];
    Necessity.ReadKey(FULL, Final(db, steps), 0);
    OneMoreStep(db, steps, Act(0, GO));
    steps := steps + [Act(0, GO)];
    Necessity.PassKey(FULL, Final(db, steps), 0);
    OneMoreStep(db, steps, Act(0, GO));
    steps := steps + [Act(0, GO)];
    Necessity.PassLoad(FULL, Final(db, steps), 0);
    OneMoreStep(db, steps, Act(0, GO));
    steps := steps + [Act(0, GO)];
  }

  /** Call 1 has committed while call 0 was about to insert its header under the same key. */
  ghost predicate Raced(s: State, q: Request, p: Request) {
    && s.calls.Keys == {0, 1} && s.calls[0].q == q && s.calls[1].q == p
    && s.calls[0].phase.WriteHeader? && s.calls[0].attempts == 1 && s.calls[0].staged == NOTHING
    && Succeeded(s, 1) && s.calls[1].staged == NOTHING && UsedKey(s.db.headers, q.key)
  }

  lemma SecondUnobstructed(s: State, db: Db, q: Request, p: Request)
    requires AtHeader(s, db, q, p)
    ensures Pending(s, 1) && Progress.Unobstructed(s, 1)
  {
  }

  lemma RunSecond(s: State, db: Db, q: Request, p: Request) returns (more: seq<Step>)
    requires Inv(s) && AtHeader(s, db, q, p)
    ensures Progress.AnswersAlone(s, 1, more)
  {
    SecondUnobstructed(s, db, q, p);
    more := Progress.RunAlone(s, 1);
  }

  lemma AnsweredSecond(s: State, more: seq<Step>, db: Db, q: Request, p: Request)
    requires Inv(s) && s.hist[0] == db && AtHeader(s, db, q, p)
    requires Progress.AnswersAlone(s, 1, more)
    ensures var s' := Execute(FULL, s, more);
            Inv(s') && AnsweredAlone(s', 1, db, p) && s'.calls[1].staged == NOTHING
  {
    var s' := Execute(FULL, s, more);
    RunAdvances(s, more);
    assert Continues(s.calls[1], |s.log|, s'.calls[1], |s'.log|);
    forall k | 0 <= k < |s'.log|
      ensures CommitOf(s'.log[k], 1)
    {
      AloneLogsOwn(s, more, 1, k);
    }
    OwnCommitsOnly(s', 1);
    AbortDiscardsAll(s', 1);
  }

  lemma LoseTheRace(s: State, db: Db, q: Request, p: Request) returns (more: seq<Step>)
    requires Inv(s) && s.hist[0] == db && AtHeader(s, db, q, p) && Decide(db, p) == Accept && q.key == p.key
    ensures Legal(FULL, s, more) && Raced(Execute(FULL, s, more), q, p)
  {
    more := RunSecond(s, db, q, p);
    AnsweredSecond(s, more, db, q, p);
    assert Execute(FULL, s, more).db.headers[|db.headers|].key == q.key;
  }

  /** The answers of a lost race: the index answers DUPLICATE_SUBMISSION at once, or the insert is aborted as
      transient, and the call may give up with WRITE_CONFLICT. */
  lemma LoserAnswers(s: State, q: Request, p: Request, id: TransactionId)
    requires Raced(s, q, p) && WellFormed(q)
    ensures Perform(FULL, s, 0, Choice(id, false, true)).calls[0].phase == Done(Refused(DuplicateSubmission))
    ensures var s' := Perform(FULL, s, 0, Choice(id, false, false));
            && s'.calls[0].phase.Idle?
            && Perform(FULL, s', 0, Choice(id, true, false)).calls[0].phase == Done(Refused(WriteConflict))
  {
    assert !KeyStaged(s, 0, q.key);
  }

  /** Both calls were answered: call 1 with success, call 0, with request q, by this error. */
  ghost predicate RaceEnded(db: Db, steps: seq<Step>, q: Request, p: Request, error: Error) {
    && Run(db, steps)
    && var s := Final(db, steps);
       && 1 in s.calls && s.calls[1].q == p && Succeeded(s, 1)
       && 0 in s.calls && s.calls[0].q == q && s.calls[0].attempts == 1
       && s.calls[0].phase == Done(Refused(error))
  }

  lemma EndByIndex(db: Db, steps: seq<Step>, q: Request, p: Request) returns (ended: seq<Step>)
    requires Run(db, steps) && Raced(Final(db, steps), q, p) && WellFormed(q)
    ensures RaceEnded(db, ended, q, p, DuplicateSubmission)
  {
    var id := FreshId(Final(db, steps).issued);
    LoserAnswers(Final(db, steps), q, p, id);
    OneMoreStep(db, steps, Act(0, Choice(id, false, true)));
    ended := steps + [Act(0, Choice(id, false, true))];
  }

  lemma EndByGivingUp(db: Db, steps: seq<Step>, q: Request, p: Request) returns (ended: seq<Step>)
    requires Run(db, steps) && Raced(Final(db, steps), q, p) && WellFormed(q)
    ensures RaceEnded(db, ended, q, p, WriteConflict)
  {
    var id := FreshId(Final(db, steps).issued);
    LoserAnswers(Final(db, steps), q, p, id);
    OneMoreStep(db, steps, Act(0, Choice(id, false, false)));
    ended := steps + [Act(0, Choice(id, false, false))];
    OneMoreStep(db, ended, Act(0, Choice(id, true, false)));
    ended := ended + [Act(0, Choice(id, true, false))];
  }

  /** From every sound ledger, for every funding and every other acceptable request under the same key: there are
      two runs in which the funding passes the pre-check, and the other request is committed before its insert.
      In one the unique index answers DUPLICATE_SUBMISSION, in the other the call gives up with WRITE_CONFLICT. */
  lemma KeyRaceOutcomes(db: Db, q: Request, p: Request) returns (indexed: seq<Step>, exhausted: seq<Step>)
    requires Sound(db) && Decide(db, q) == Accept && !IsUser(db.accounts, q.source)
    requires Decide(db, p) == Accept && q.key == p.key
    ensures RaceEnded(db, indexed, q, p, DuplicateSubmission)
    ensures RaceEnded(db, exhausted, q, p, WriteConflict)
  {
    var first := ReachHeader(db, q, p);
    ReachableInv(db, first);
    StartInv(db);
    StartsFrom(Start(db), first);
    var more := LoseTheRace(Final(db, first), db, q, p);
    ExecuteAppend(FULL, Start(db), first, more);
    indexed := EndByIndex(db, first + more, q, p);
    exhausted := EndByGivingUp(db, first + more, q, p);
  }
}
