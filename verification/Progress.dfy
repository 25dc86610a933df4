// No deadlock: from every reachable state some schedule answers every pending call.
module Progress {
  import opened Domain
  import opened Specification
  import opened Protocol
  import opened Invariant
  import opened Guarantees

  /** The call holds neither the source document (of a USER account) nor the key of the request. */
  predicate NotHolding(s: State, c: Call, q: Request) {
    && (IsUser(s.db.accounts, q.source) ==> q.source !in c.staged.accounts)
    && !UsedKey(c.staged.headers, q.key)
  }

  /** No other call holds what call r needs. */
  ghost predicate Unobstructed(s: State, r: CallId)
    requires r in s.calls
  {
    forall o | o in s.calls && o != r :: NotHolding(s, s.calls[o], s.calls[r].q)
  }

  predicate Fresh(s: State, c: Call) {
    c.snap == |s.log|
  }

  /** How many more steps a call takes at most when it runs alone: a stale snapshot may cost it one more attempt. */
  function Measure(s: State, c: Call): nat {
    if c.phase.Done? then 0
    else if c.phase.Idle? then 8
    else if Fresh(s, c) then 8 - Rank(c.phase)
    else 16 - Rank(c.phase)
  }

  lemma NotBusyWhenFresh(s: State, r: CallId)
    requires Inv(s) && Pending(s, r) && s.calls[r].phase.LockSource?
    requires Unobstructed(s, r) && Fresh(s, s.calls[r])
    ensures !DocumentBusy(s, r, s.calls[r].q.source)
  {
    var c := s.calls[r];
    assert CallOk(s, r, c);
    assert IsUser(s.db.accounts, c.q.source);
    assert Settled(s, c.q.source, s.stamps[c.q.source]);
  }

  lemma KeyFreeWhenFresh(s: State, r: CallId)
    requires Inv(s) && Pending(s, r) && s.calls[r].phase.WriteHeader? && Fresh(s, s.calls[r])
    ensures !UsedKey(s.db.headers, s.calls[r].q.key)
  {
    assert CallOk(s, r, s.calls[r]);
  }

  predicate Closer(s: State, c: Call, c': Call) {
    Measure(s, c') < Measure(s, c) && c'.q == c.q && c'.phase != Done(Refused(WriteConflict))
  }

  lemma EarlyStepAlone(s: State, r: CallId, choice: Choice)
    requires Pending(s, r) && Rank(s.calls[r].phase) <= 2 && !choice.giveUp
    ensures Closer(s, s.calls[r], Perform(FULL, s, r, choice).calls[r])
  {
    var c := s.calls[r];
    match c.phase {
      case Idle =>
      case CheckKey =>
      case LoadAccounts =>
        assert Validate(Seen(c).accounts, c.q) != Some(WriteConflict);
    }
  }

  lemma LateStepAlone(s: State, r: CallId, choice: Choice)
    requires Pending(s, r) && 3 <= Rank(s.calls[r].phase) <= 6
    requires var c := s.calls[r];
             && (c.phase.LockSource? && Fresh(s, c) ==> !DocumentBusy(s, r, c.q.source))
             && (c.phase.WriteHeader? ==> !KeyStaged(s, r, c.q.key))
             && (c.phase.WriteHeader? && Fresh(s, c) ==> !UsedKey(s.db.headers, c.q.key))
             && (c.phase.WriteEntries? ==> !EntriesStaged(s, r, c.phase.header))
    requires !choice.duplicate
    ensures Closer(s, s.calls[r], Perform(FULL, s, r, choice).calls[r])
  {
    match s.calls[r].phase {
      case LockSource =>
      case CheckBalance =>
      case WriteHeader =>
      case WriteEntries(h) =>
    }
  }

  /** A step of a call that runs alone brings it closer to its answer. */
  lemma StepAlone(s: State, r: CallId, choice: Choice)
    requires Inv(s) && Pending(s, r) && Unobstructed(s, r) && !s.calls[r].phase.CommitAll?
    requires !choice.giveUp && !choice.duplicate
    ensures Closer(s, s.calls[r], Perform(FULL, s, r, choice).calls[r])
  {
    var c := s.calls[r];
    if Rank(c.phase) <= 2 {
      EarlyStepAlone(s, r, choice);
    } else {
      if c.phase.LockSource? && Fresh(s, c) {
        NotBusyWhenFresh(s, r);
      } else if c.phase.WriteHeader? && Fresh(s, c) {
        KeyFreeWhenFresh(s, r);
      } else if c.phase.WriteEntries? {
        EntryIndexNeverFires(s, r);
      }
      LateStepAlone(s, r, choice);
    }
  }

  lemma StillUnobstructed(s: State, r: CallId, s': State)
    requires r in s.calls && r in s'.calls && Unobstructed(s, r) && s'.calls[r].q == s.calls[r].q
    requires s' == s.(calls := s.calls[r := s'.calls[r]], issued := s'.issued)
    ensures Unobstructed(s', r)
  {
    forall o | o in s'.calls && o != r
      ensures NotHolding(s', s'.calls[o], s'.calls[r].q)
    {
      assert NotHolding(s, s.calls[o], s.calls[r].q);
    }
  }

  predicate OthersUntouched(s: State, r: CallId, s': State) {
    s'.calls.Keys == s.calls.Keys && forall o | o in s.calls && o != r :: s'.calls[o] == s.calls[o]
  }

  /** Call r has been answered without giving up. */
  predicate HasAnswer(s: State, r: CallId) {
    r in s.calls && s.calls[r].phase.Done? && s.calls[r].phase != Done(Refused(WriteConflict))
  }

  lemma CommitAnswers(s: State, r: CallId, h: Header)
    requires r in s.calls
    ensures OthersUntouched(s, r, Commit(s, r, h)) && HasAnswer(Commit(s, r, h), r)
  {
  }

  lemma OneStep(s: State, r: CallId, choice: Choice)
    requires Inv(s) && Pending(s, r) && Unobstructed(s, r)
    requires !choice.giveUp && !choice.duplicate
    ensures var s' := Perform(FULL, s, r, choice);
            && OthersUntouched(s, r, s')
            && (HasAnswer(s', r)
                || (Pending(s', r) && Unobstructed(s', r) && Measure(s', s'.calls[r]) < Measure(s, s.calls[r])))
  {
    if s.calls[r].phase.CommitAll? {
      CommitAnswers(s, r, s.calls[r].phase.header);
    } else {
      StepsAreLocal(FULL, s, r, choice);
      StepAlone(s, r, choice);
      StillUnobstructed(s, r, Perform(FULL, s, r, choice));
    }
  }

  lemma FirstStep(s: State, r: CallId) returns (choice: Choice)
    requires Inv(s) && Pending(s, r) && Unobstructed(s, r)
    ensures Enabled(s, Act(r, choice)) && Inv(Perform(FULL, s, r, choice))
    ensures var s' := Perform(FULL, s, r, choice);
            && OthersUntouched(s, r, s')
            && (HasAnswer(s', r)
                || (Pending(s', r) && Unobstructed(s', r) && Measure(s', s'.calls[r]) < Measure(s, s.calls[r])))
  {
    var id := FreshId(s.issued);
    choice := Choice(id, false, false);
    assert Enabled(s, Act(r, choice));
    StepKeepsInv(s, Act(r, choice));
    OneStep(s, r, choice);
  }

  /** All steps are taken by call r. */
  predicate TakenAlone(steps: seq<Step>, r: CallId) {
    forall i | 0 <= i < |steps| :: steps[i].Act? && steps[i].r == r
  }

  /** A schedule of call r alone that ends with its answer. */
  ghost predicate AnswersAlone(s: State, r: CallId, steps: seq<Step>) {
    && Legal(FULL, s, steps) && TakenAlone(steps, r)
    && HasAnswer(Execute(FULL, s, steps), r) && OthersUntouched(s, r, Execute(FULL, s, steps))
  }

  lemma PrependAlone(s: State, r: CallId, choice: Choice, rest: seq<Step>)
    requires Enabled(s, Act(r, choice)) && OthersUntouched(s, r, Perform(FULL, s, r, choice))
    requires AnswersAlone(Perform(FULL, s, r, choice), r, rest)
    ensures AnswersAlone(s, r, [Act(r, choice)] + rest)
  {
    assert ([Act(r, choice)] + rest)[1..] == rest;
  }

  /** Left to run alone, an unobstructed call is answered, without giving up, in no more steps than its
      measure, which is at most 15, and no other call changes. */
  lemma {:induction false} RunAlone(s: State, r: CallId) returns (steps: seq<Step>)
    requires Inv(s) && Pending(s, r) && Unobstructed(s, r)
    ensures AnswersAlone(s, r, steps) && |steps| <= Measure(s, s.calls[r]) <= 15
    decreases Measure(s, s.calls[r])
  {
    var choice := FirstStep(s, r);
    var rest := ContinueAlone(s, r, Perform(FULL, s, r, choice));
    PrependAlone(s, r, choice, rest);
    steps := [Act(r, choice)] + rest;
  }

  lemma {:induction false} ContinueAlone(s: State, r: CallId, s1: State) returns (rest: seq<Step>)
    requires Inv(s1) && Pending(s, r)
    requires HasAnswer(s1, r)
          || (Pending(s1, r) && Unobstructed(s1, r) && Measure(s1, s1.calls[r]) < Measure(s, s.calls[r]))
    ensures AnswersAlone(s1, r, rest) && |rest| < Measure(s, s.calls[r])
    decreases Measure(s, s.calls[r]), 0
  {
    if HasAnswer(s1, r) {
      rest := [];
    } else {
      rest := RunAlone(s1, r);
    }
  }

  /** A call that holds a key also holds its source, so nothing can stand in its way. */
  lemma KeyHolderUnobstructed(s: State, r: CallId)
    requires Inv(s) && r in s.calls && s.calls[r].staged.headers != []
    ensures Pending(s, r) && Unobstructed(s, r)
  {
    var c := s.calls[r];
    assert CallOk(s, r, c);
    ValidityPersists(s, c.snap, |s.log|, c.q);
    forall o | o in s.calls && o != r
      ensures NotHolding(s, s.calls[o], c.q)
    {
      assert Apart(c, s.calls[o]);
      assert CallOk(s, o, s.calls[o]);
      if IsUser(s.db.accounts, c.q.source) {
        assert c.q.source in c.staged.accounts.Keys;
      }
    }
  }

  lemma SourceHolderUnobstructed(s: State, r: CallId)
    requires Inv(s) && r in s.calls && s.calls[r].staged.accounts != map[]
    requires forall o | o in s.calls :: s.calls[o].staged.headers == []
    ensures Pending(s, r) && Unobstructed(s, r)
  {
    var c := s.calls[r];
    assert CallOk(s, r, c);
    forall o | o in s.calls && o != r
      ensures NotHolding(s, s.calls[o], c.q)
    {
      assert Apart(c, s.calls[o]);
      assert c.q.source in c.staged.accounts.Keys;
    }
  }

  /** As long as calls are pending, one of them is unobstructed: a source is always taken before a key, so a
      holder of a key waits for nobody, and when no key is held, a holder of a source waits for nobody. */
  lemma {:induction false} SomeoneUnobstructed(s: State, p: CallId) returns (r: CallId)
    requires Inv(s) && Pending(s, p)
    ensures Pending(s, r) && Unobstructed(s, r)
  {
    if o :| o in s.calls && s.calls[o].staged.headers != [] {
      r := o;
      KeyHolderUnobstructed(s, r);
    } else if o :| o in s.calls && s.calls[o].staged.accounts != map[] {
      r := o;
      SourceHolderUnobstructed(s, r);
    } else {
      r := p;
    }
  }

  function AllPending(s: State): set<CallId> {
    set r | r in s.calls && !s.calls[r].phase.Done?
  }

  lemma OneFewerPending(s: State, r: CallId, s1: State)
    requires Pending(s, r) && HasAnswer(s1, r) && OthersUntouched(s, r, s1)
    ensures AllPending(s1) == AllPending(s) - {r} && |AllPending(s1)| < |AllPending(s)|
  {
    assert AllPending(s1) == AllPending(s) - {r};
    assert r in AllPending(s);
  }

  /** Every pending call of s is answered in s' without giving up, and every earlier answer is unchanged. */
  ghost predicate Finishes(s: State, s': State) {
    && s'.calls.Keys == s.calls.Keys
    && (forall r | r in s.calls && s.calls[r].phase.Done? :: s'.calls[r] == s.calls[r])
    && (forall r | Pending(s, r) :: HasAnswer(s', r))
  }

  /** A schedule exists that answers every pending call without any of them giving up, and changes no answer. */
  lemma {:induction false} EveryoneCanFinish(s: State) returns (steps: seq<Step>)
    requires Inv(s)
    ensures Legal(FULL, s, steps) && Finishes(s, Execute(FULL, s, steps))
    decreases |AllPending(s)|
  {
    if AllPending(s) == {} {
      steps := [];
      assert forall r | Pending(s, r) :: r in AllPending(s);
    } else {
      var p :| p in AllPending(s);
      var r := SomeoneUnobstructed(s, p);
      var first := RunAlone(s, r);
      RunKeepsInv(s, first);
      var s1 := Execute(FULL, s, first);
      OneFewerPending(s, r, s1);
      var rest := EveryoneCanFinish(s1);
      ExecuteAppend(FULL, s, first, rest);
      steps := first + rest;
      FinishesAfter(s, r, s1, Execute(FULL, s1, rest));
    }
  }

  lemma FinishesAfter(s: State, r: CallId, s1: State, s': State)
    requires Pending(s, r) && HasAnswer(s1, r) && OthersUntouched(s, r, s1) && Finishes(s1, s')
    ensures Finishes(s, s')
  {
    forall o | Pending(s, o)
      ensures HasAnswer(s', o)
    {
      if o != r {
        assert Pending(s1, o);
      }
    }
  }

  /** No run of the protocol gets stuck: however it went so far, its pending calls can all be answered, none
      of them with WRITE_CONFLICT. */
  lemma NoDeadlock(db: Db, steps: seq<Step>) returns (more: seq<Step>)
    requires Run(db, steps)
    ensures Legal(FULL, Start(db), steps + more)
    ensures var s := Final(db, steps); var s' := Final(db, steps + more);
            && s'.calls.Keys == s.calls.Keys
            && (forall r | r in s'.calls :: s'.calls[r].phase.Done?)
            && (forall r | r in s.calls && !s.calls[r].phase.Done? :: s'.calls[r].phase != Done(Refused(WriteConflict)))
  {
    ReachableInv(db, steps);
    var s := Final(db, steps);
    more := EveryoneCanFinish(s);
    ExecuteAppend(FULL, Start(db), steps, more);
    var s' := Final(db, steps + more);
    forall r | r in s.calls
      ensures s'.calls[r].phase.Done?
      ensures !s.calls[r].phase.Done? ==> s'.calls[r].phase != Done(Refused(WriteConflict))
    {
      if !s.calls[r].phase.Done? {
        assert Pending(s, r);
      }
    }
  }
}
