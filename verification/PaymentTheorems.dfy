/**
 What the guard gives every run of every number of tabs.

 Operations are compared by lock key, which is what the code does; `LockKeyInjective` turns
 that into equal operations wherever addresses contain no colon.
 */
module PaymentTheorems {
  import opened Options
  import opened PaymentIntents
  import opened PaymentTabs

  // ---------------------------------------------------------------------------
  // One active intent per operation, and the lock names it
  // ---------------------------------------------------------------------------

  /** A scan of all records would pick this one for the operation. */
  predicate ActiveFor(store: Store, op: Operation, intent: Intent) {
    Holds(store, intent) && IsActive(intent.status) && LockKey(intent.op) == LockKey(op)
  }

  /** Reading the lock finds just what a scan of every stored record finds. */
  lemma FindActiveIsScan(actions: seq<Action>, op: Operation, intent: Intent)
    ensures var store := Run(START, actions).store;
            && (FindActive(store, op) == Some(intent) <==> ActiveFor(store, op, intent))
            && (LockKey(op) in store <==> FindActive(store, op).Some?)
  {
    ReachableInvariant(actions);
    ScanOfValidStore(Run(START, actions).store, op, intent);
  }

  lemma ScanOfValidStore(store: Store, op: Operation, intent: Intent)
    requires StoreValid(store)
    ensures FindActive(store, op) == Some(intent) <==> ActiveFor(store, op, intent)
    ensures LockKey(op) in store <==> FindActive(store, op).Some?
  {
    hide IntentKey, LockKey;
    if LockKey(op) in store {
      assert InPlace(store, LockKey(op));
      if store[LockKey(op)].IntentRecord? {
        KeysNeverCollide(store[LockKey(op)].intent.key, op);
      } else {
        var holder := IntentKey(store[LockKey(op)].intentKey);
        assert InPlace(store, holder);
        IntentKeyInjective(store[LockKey(op)].intentKey, store[holder].intent.key);
      }
    }
    if Holds(store, intent) {
      assert Locked(store, IntentKey(intent.key));
    }
  }

  lemma AtMostOneActive(actions: seq<Action>, op: Operation, i: Intent, j: Intent)
    requires ActiveFor(Run(START, actions).store, op, i) && ActiveFor(Run(START, actions).store, op, j)
    ensures i == j
  {
    FindActiveIsScan(actions, op, i);
    FindActiveIsScan(actions, op, j);
  }

  /** Without colons in addresses, an active intent is one of the very operation asked for. */
  lemma FoundIntentIsOfTheOperation(actions: seq<Action>, op: Operation)
    requires FindActive(Run(START, actions).store, op).Some?
    requires ':' !in op.address && ':' !in FindActive(Run(START, actions).store, op).value.op.address
    ensures FindActive(Run(START, actions).store, op).value.op == op
  {
    var found := FindActive(Run(START, actions).store, op).value;
    FindActiveIsScan(actions, op, found);
    LockKeyInjective(found.op, op);
  }

  /** A submission is granted exactly to an unconfirmed intent whose operation has none active. */
  lemma GrantedExactlyWhenFree(actions: seq<Action>, intent: Intent)
    requires LoadIntent(Run(START, actions).store, intent.key).Some?
    requires LoadIntent(Run(START, actions).store, intent.key).value.op == intent.op
    ensures var store := Run(START, actions).store;
            BeginGranted(store, intent) <==>
            && LoadIntent(store, intent.key).value.status != Confirmed
            && (forall other :: !ActiveFor(store, intent.op, other))
  {
    ReachableInvariant(actions);
    hide Run, IntentKey, LockKey, StoreValid, ActiveFor;
    var store := Run(START, actions).store;
    if BeginGranted(store, intent) {
      GrantedMeansFree(store, intent);
      forall other
        ensures !ActiveFor(store, intent.op, other)
      {
        ScanOfValidStore(store, intent.op, other);
      }
    } else if LoadIntent(store, intent.key).value.status != Confirmed {
      RefusedMeansTaken(store, intent);
    }
  }

  lemma RefusedMeansTaken(store: Store, intent: Intent)
    requires StoreValid(store)
    requires LoadIntent(store, intent.key).Some? && LoadIntent(store, intent.key).value.op == intent.op
    requires !BeginGranted(store, intent) && LoadIntent(store, intent.key).value.status != Confirmed
    ensures exists other :: ActiveFor(store, intent.op, other)
  {
    hide IntentKey, LockKey;
    var stored := LoadIntent(store, intent.key).value;
    assert InPlace(store, IntentKey(intent.key));
    IntentKeyInjective(intent.key, stored.key);
    if IsActive(stored.status) {
      assert ActiveFor(store, intent.op, stored);
    } else {
      assert InPlace(store, LockKey(intent.op));
      var holder := LoadIntent(store, LoadLock(store, intent.op).value).value;
      assert InPlace(store, IntentKey(LoadLock(store, intent.op).value));
      IntentKeyInjective(LoadLock(store, intent.op).value, holder.key);
      assert ActiveFor(store, intent.op, holder);
    }
  }

  /** Two attempts under way are never about the same operation, whatever the tabs do. */
  lemma AttemptsNeverOverlap(actions: seq<Action>, i: nat, j: nat)
    requires i in Run(START, actions).attempts && j in Run(START, actions).attempts
    requires LockKey(Run(START, actions).attempts[i].op) == LockKey(Run(START, actions).attempts[j].op)
    ensures i == j
  {
    var w := Run(START, actions);
    ReachableInvariant(actions);
    hide IntentKey, LockKey, Run;
    assert InStep(w.store, w.attempts[i]) && InStep(w.store, w.attempts[j]);
    AttemptMayWrite(w.store, w.attempts[i], ToStatus(Idle));
    AttemptMayWrite(w.store, w.attempts[j], ToStatus(Idle));
  }

  // ---------------------------------------------------------------------------
  // The life of an intent
  // ---------------------------------------------------------------------------

  function StatusOf(store: Store, key: string): Option<Status> {
    match LoadIntent(store, key)
    case None => None
    case Some(intent) => Some(intent.status)
  }

  /** One edge of the documented life cycle. */
  predicate Edge(a: Option<Status>, b: Option<Status>) {
    match a
    case None => b == Some(Idle)
    case Some(Idle) => b == Some(Building)
    case Some(Building) => b == Some(AwaitingSignature)
    case Some(AwaitingSignature) => b in {Some(Submitted), Some(Failed), Some(Expired)}
    case Some(Submitted) => b == Some(Pending)
    case Some(Pending) => b in {Some(Confirmed), Some(Failed), Some(Expired)}
    case Some(Confirmed) => false
    case Some(Failed) => b == Some(Building)
    case Some(Expired) => b == Some(Building)
  }

  /** The step begins or carries on an attempt at this intent. */
  predicate WorksOn(w: World, a: Action, key: string) {
    match a
    case Begin(_, held) => held.key == key && LoadIntent(w.store, key).Some? && BeginGranted(w.store, held)
    case Proceed(id, _) => id in w.attempts && w.attempts[id].key == key
    case _ => false
  }

  /** Only a step that works on an intent changes its record. */
  lemma StepKeepsRecord(w: World, a: Action, key: string)
    requires Invariant(w) && !WorksOn(w, a, key)
    ensures LoadIntent(w.store, key).Some? ==> LoadIntent(Step(w, a).store, key) == LoadIntent(w.store, key)
    ensures LoadIntent(w.store, key).None? ==> StatusOf(Step(w, a).store, key) in {None, Some(Idle)}
  {
    hide IntentKey, LockKey, BuildKey;
    match a
    case Close(_) =>
    case Create(op, asset, amount, nonce) =>
      IntentKeyInjective(key, NewIntent(op, asset, amount, nonce).key);
    case Begin(_, held) =>
      if Step(w, a) != w {
        BeginWrites(w.store, held);
        var begun := Current(w.store, held).(status := Building, error := None);
        assert InPlace(w.store, IntentKey(held.key));
        IntentKeyInjective(held.key, begun.key);
        hide Writes, Begun;
        WriteKeepsReads(w.store, Step(w, a).store, begun, key);
      }
    case Proceed(id, outcome) =>
      if id in w.attempts {
        AttemptStepWrites(w, id, outcome);
        WriteKeepsReads(w.store, Step(w, a).store, Written(w, id, outcome), key);
      }
  }

  /** What an attempt's next call writes over the record. */
  function NextPatch(p: Attempt, outcome: Awaited<string>): Patch {
    match p.at
    case Building => ToStatus(AwaitingSignature)
    case AwaitingSignature => if outcome.Value? then ToSubmitted(outcome.value) else EndPatch(outcome)
    case Submitted => ToStatus(Pending)
    case _ => EndPatch(outcome)
  }

  function Written(w: World, id: nat, outcome: Awaited<string>): Intent
    requires id in w.attempts
  {
    Marked(w.store, w.attempts[id], NextPatch(w.attempts[id], outcome))
  }

  lemma AttemptStepWrites(w: World, id: nat, outcome: Awaited<string>)
    requires Invariant(w) && id in w.attempts
    ensures var w', intent := Step(w, Proceed(id, outcome)), Written(w, id, outcome);
            && intent.key == w.attempts[id].key && intent.op == w.attempts[id].op
            && Writes(w.store, w'.store, intent)
            && w'.attempts == if IsActive(intent.status) then w.attempts[id := w.attempts[id].(at := intent.status)]
                              else w.attempts - {id}
  {
    hide IntentKey, LockKey, Writes, Transitioned, Ended, StoreValid, HashesStored, Marked, ProceedStep;
    var p := w.attempts[id];
    var patch := NextPatch(p, outcome);
    assert InStep(w.store, p);
    ProceedAppliesPatch(w, id, outcome);
    PatchedStatus(w.store, p, patch);
    AttemptMayWrite(w.store, p, patch);
    if IsActive(Marked(w.store, p, patch).status) {
      MarkWrites(w.store, p, patch);
    } else {
      EndWrites(w.store, p, patch);
    }
  }

  lemma ProceedAppliesPatch(w: World, id: nat, outcome: Awaited<string>)
    requires id in w.attempts && IsActive(w.attempts[id].at)
    ensures var p, w' := w.attempts[id], ProceedStep(w, Proceed(id, outcome));
            var patch := NextPatch(p, outcome);
            if patch.ToSubmitted? || IsActive(patch.status)
            then && w'.store == Transitioned(w.store, Copy(p), patch)
                 && w'.attempts == w.attempts[id := p.(at := if patch.ToSubmitted? then Submitted else patch.status)]
            else w'.store == Ended(w.store, Copy(p), patch) && w'.attempts == w.attempts - {id}
  {
    hide Transitioned, Ended, Copy;
  }

  lemma PatchedStatus(store: Store, p: Attempt, patch: Patch)
    ensures Marked(store, p, patch).status == if patch.ToSubmitted? then Submitted else patch.status
  {
  }

  lemma {:induction false} StepFollowsLifecycle(w: World, a: Action, key: string)
    requires Invariant(w)
    ensures var before, after := StatusOf(w.store, key), StatusOf(Step(w, a).store, key);
            before == after || Edge(before, after)
  {
    if !WorksOn(w, a, key) {
      StepKeepsRecord(w, a, key);
    } else if a.Begin? {
      if Step(w, a) != w {
        BeginFollowsLifecycle(w.store, a.held);
      }
    } else {
      AttemptFollowsLifecycle(w, a.id, a.outcome);
    }
  }

  lemma BeginFollowsLifecycle(store: Store, held: Intent)
    requires StoreValid(store) && BeginGranted(store, held)
    requires LoadIntent(store, held.key).Some? && LoadIntent(store, held.key).value.op == held.op
    ensures Edge(StatusOf(store, held.key), StatusOf(Begun(store, held), held.key))
  {
    hide IntentKey, LockKey;
    var begun := Current(store, held).(status := Building, error := None);
    BeginWrites(store, held);
    assert InPlace(store, IntentKey(held.key));
    IntentKeyInjective(held.key, begun.key);
    hide Begun, Writes;
    WriteKeepsReads(store, Begun(store, held), begun, held.key);
  }

  lemma AttemptFollowsLifecycle(w: World, id: nat, outcome: Awaited<string>)
    requires Invariant(w) && id in w.attempts
    ensures var key := w.attempts[id].key;
            Edge(StatusOf(w.store, key), StatusOf(Step(w, Proceed(id, outcome)).store, key))
  {
    hide IntentKey, LockKey, Writes, Step;
    var p := w.attempts[id];
    assert InStep(w.store, p);
    AttemptStepWrites(w, id, outcome);
    WriteKeepsReads(w.store, Step(w, Proceed(id, outcome)).store, Written(w, id, outcome), p.key);
  }

  lemma {:induction false} RunSnoc(w: World, actions: seq<Action>, a: Action)
    ensures Run(w, actions + [a]) == Step(Run(w, actions), a)
    decreases |actions|
  {
    if actions == [] {
      assert actions + [a] == [a];
      assert Run(Step(w, a), []) == Step(w, a);
    } else {
      assert (actions + [a])[1..] == actions[1..] + [a];
      RunSnoc(Step(w, actions[0]), actions[1..], a);
    }
  }

  /** At every point of every run, the next step moves an intent along one edge or not at all. */
  lemma StatusHistoryIsAPath(actions: seq<Action>, a: Action, key: string)
    ensures var before, after := StatusOf(Run(START, actions).store, key), StatusOf(Run(START, actions + [a]).store, key);
            before == after || Edge(before, after)
  {
    ReachableInvariant(actions);
    RunSnoc(START, actions, a);
    StepFollowsLifecycle(Run(START, actions), a, key);
  }

  /** Confirmed is final: no later step of any tab changes the record. */
  lemma {:induction false} ConfirmedIsFinal(w: World, actions: seq<Action>, key: string)
    requires Invariant(w) && StatusOf(w.store, key) == Some(Confirmed)
    ensures LoadIntent(Run(w, actions).store, key) == LoadIntent(w.store, key)
    decreases |actions|
  {
    if actions != [] {
      var a := actions[0];
      if a.Proceed? && a.id in w.attempts {
        assert InStep(w.store, w.attempts[a.id]);
      }
      StepKeepsRecord(w, a, key);
      InvariantStep(w, a);
      hide Step, Invariant, LoadIntent;
      ConfirmedIsFinal(Step(w, a), actions[1..], key);
    }
  }

  /** Submitted, pending and confirmed intents carry the hash their latest submission returned. */
  lemma SubmittedCarriesItsHash(actions: seq<Action>, key: string)
    requires StatusOf(Run(START, actions).store, key) in {Some(Submitted), Some(Pending), Some(Confirmed)}
    ensures var w := Run(START, actions);
            key in w.submits && LoadIntent(w.store, key).value.txHash == Some(w.submits[key])
  {
    ReachableInvariant(actions);
    hide IntentKey, LockKey, Run;
    var w := Run(START, actions);
    assert InPlace(w.store, IntentKey(key));
    IntentKeyInjective(key, LoadIntent(w.store, key).value.key);
  }

  // ---------------------------------------------------------------------------
  // Open tabs finish; a closed tab blocks its operation
  // ---------------------------------------------------------------------------

  /** Calls left before the attempt is over. */
  function Left(p: Attempt): nat {
    match p.at
    case Building => 4
    case AwaitingSignature => 3
    case Submitted => 2
    case _ => 1
  }

  function Turns(actions: seq<Action>, id: nat): nat {
    if actions == [] then 0 else (if actions[0].Proceed? && actions[0].id == id then 1 else 0) + Turns(actions[1..], id)
  }

  /** The attempt is over: its intent ended and its lock is free. */
  predicate Over(w: World, id: nat, key: string, op: Operation) {
    && id !in w.attempts
    && LoadIntent(w.store, key).Some?
    && IsTerminal(LoadIntent(w.store, key).value.status)
    && LockKey(op) !in w.store
  }

  lemma NextPatchAdvances(p: Attempt, outcome: Awaited<string>)
    requires IsActive(p.at)
    ensures var patch := NextPatch(p, outcome);
            var at := if patch.ToSubmitted? then Submitted else patch.status;
            if IsActive(at) then Left(p.(at := at)) < Left(p) else IsTerminal(at)
  {
  }

  lemma OwnStepAdvances(w: World, id: nat, outcome: Awaited<string>)
    requires Invariant(w) && id in w.attempts
    ensures var w', p := Step(w, Proceed(id, outcome)), w.attempts[id];
            if id in w'.attempts
            then w'.attempts[id].key == p.key && w'.attempts[id].op == p.op && Left(w'.attempts[id]) < Left(p)
            else Over(w', id, p.key, p.op)
  {
    assert InStep(w.store, w.attempts[id]);
    AttemptStepWrites(w, id, outcome);
    NextPatchAdvances(w.attempts[id], outcome);
    PatchedStatus(w.store, w.attempts[id], NextPatch(w.attempts[id], outcome));
    hide IntentKey, LockKey, Step, StoreValid, HashesStored, OnlyTouches, InStep, Left, NextPatch, Marked, IsActive, IsTerminal, EndPatch;
  }

  /** A step of anyone else leaves the attempt where it is. */
  lemma OtherStepKeepsAttempt(w: World, a: Action, id: nat)
    requires id in w.attempts && a != Close(id) && !(a.Proceed? && a.id == id)
    ensures id in Step(w, a).attempts && Step(w, a).attempts[id] == w.attempts[id]
  {
    hide Transitioned, Ended, Begun, SaveIntent, BeginGranted, BuildKey;
  }

  /** Any step brings the attempt to its end, or one turn nearer if the turn was its own. */
  lemma TurnAdvances(w: World, actions: seq<Action>, id: nat)
    requires Invariant(w) && id in w.attempts && actions != [] && actions[0] != Close(id)
    ensures var w', p := Step(w, actions[0]), w.attempts[id];
            if id in w'.attempts
            then && w'.attempts[id].key == p.key && w'.attempts[id].op == p.op
                 && Left(w'.attempts[id]) - Turns(actions[1..], id) <= Left(p) - Turns(actions, id)
            else Over(w', id, p.key, p.op)
  {
    var a := actions[0];
    if a.Proceed? && a.id == id {
      OwnStepAdvances(w, id, a.outcome);
    } else {
      OtherStepKeepsAttempt(w, a, id);
    }
    hide Step, Over, Left, Invariant;
  }

  /** Somewhere along the run the attempt is over. */
  ghost predicate Finishes(w: World, actions: seq<Action>, id: nat, key: string, op: Operation)
    decreases |actions|
  {
    Over(w, id, key, op) || (actions != [] && Finishes(Step(w, actions[0]), actions[1..], id, key, op))
  }

  /**
   However other tabs interleave and however its own calls end, an attempt whose tab stays open
   is over by its fourth turn, with a terminal status and the lock released.
   */
  lemma {:induction false} OpenTabsFinish(w: World, actions: seq<Action>, id: nat)
    requires Invariant(w) && id in w.attempts && Close(id) !in actions
    requires Turns(actions, id) >= Left(w.attempts[id])
    ensures Finishes(w, actions, id, w.attempts[id].key, w.attempts[id].op)
    decreases |actions|
  {
    assert actions != [];
    hide Step, Invariant, Over, Left, Turns;
    var w' := Step(w, actions[0]);
    TurnAdvances(w, actions, id);
    if id in w'.attempts {
      InvariantStep(w, actions[0]);
      OpenTabsFinish(w', actions[1..], id);
    } else {
      assert Finishes(w', actions[1..], id, w.attempts[id].key, w.attempts[id].op);
    }
  }

  /**
   Left to itself, an attempt that awaits its signature does to the store just what
   `RunPaymentSubmission` does: the steps and the method are one protocol.
   */
  lemma {:induction false} StepsFollowTheSubmission(w: World, id: nat, awaiting: Intent, signed: Awaited<()>, submitted: Awaited<string>, waited: Awaited<()>)
    requires Invariant(w) && id in w.attempts && w.attempts[id].at == AwaitingSignature
    requires LoadIntent(w.store, w.attempts[id].key) == Some(awaiting)
    ensures exists outcomes: seq<Awaited<string>> ::
              |outcomes| <= 3
              && Run(w, Turn(id, outcomes)).store == Attempted(w.store, awaiting, signed, submitted, waited)
  {
    hide IntentKey, LockKey, Step, Run, Transitioned, Ended;
    var p := w.attempts[id];
    assert InStep(w.store, p) && InPlace(w.store, IntentKey(p.key));
    IntentKeyInjective(p.key, awaiting.key);
    var first := if signed.Value? then submitted else Thrown(signed);
    if first.Value? {
      var last := if waited.Value? then Value("") else Thrown(waited);
      SubmittedAlone(w, id, awaiting, first.value, last);
      assert EndPatch(last) == EndPatch(waited);
      assert |[first, first, last]| == 3;
    } else {
      RefusedAlone(w, id, awaiting, first);
      assert |[first]| == 1;
    }
  }

  lemma RefusedAlone(w: World, id: nat, awaiting: Intent, first: Awaited<string>)
    requires id in w.attempts && w.attempts[id].at == AwaitingSignature && !first.Value?
    requires awaiting.key == w.attempts[id].key && awaiting.op == w.attempts[id].op
    requires LoadIntent(w.store, awaiting.key) == Some(awaiting)
    ensures Run(w, Turn(id, [first])).store == Ended(w.store, awaiting, EndPatch(first))
  {
    hide IntentKey, LockKey, Ended;
    assert Turn(id, [first]) == [Proceed(id, first)];
    RunOne(w, Proceed(id, first));
    MarkDependsOnName(w.store, Copy(w.attempts[id]), awaiting, EndPatch(first));
  }

  lemma SubmittedAlone(w: World, id: nat, awaiting: Intent, hash: string, last: Awaited<string>)
    requires id in w.attempts && w.attempts[id].at == AwaitingSignature
    requires awaiting.key == w.attempts[id].key && awaiting.op == w.attempts[id].op
    requires LoadIntent(w.store, awaiting.key) == Some(awaiting)
    ensures var handed := Transitioned(w.store, awaiting, ToSubmitted(hash));
            Run(w, Turn(id, [Value(hash), Value(hash), last])).store
            == Ended(Transitioned(handed, awaiting, ToStatus(Pending)), awaiting, EndPatch(last))
  {
    var next, end := Proceed(id, Value(hash)), Proceed(id, last);
    var w1 := Step(w, next);
    var w2 := Step(w1, next);
    hide IntentKey, LockKey, Transitioned, Ended, ProceedStep, LoadIntent;
    ProceedAppliesPatch(w, id, Value(hash));
    ProceedAppliesPatch(w1, id, Value(hash));
    ProceedAppliesPatch(w2, id, last);
    MarkDependsOnName(w.store, Copy(w.attempts[id]), awaiting, ToSubmitted(hash));
    MarkDependsOnName(w1.store, Copy(w1.attempts[id]), awaiting, ToStatus(Pending));
    MarkDependsOnName(w2.store, Copy(w2.attempts[id]), awaiting, EndPatch(last));
    assert Turn(id, [Value(hash), Value(hash), last]) == [next, next, end];
    RunThree(w, next, next, end);
  }

  /** Marks read the record from the store; of the caller's copy only key and operation count. */
  lemma MarkDependsOnName(store: Store, i: Intent, j: Intent, patch: Patch)
    requires i.key == j.key && i.op == j.op
    requires LoadIntent(store, j.key).Some? && LoadIntent(store, j.key).value.key == j.key
    ensures Transitioned(store, i, patch) == Transitioned(store, j, patch)
    ensures Ended(store, i, patch) == Ended(store, j, patch)
    ensures LoadIntent(Transitioned(store, j, patch), j.key) == Some(Patched(LoadIntent(store, j.key).value, patch))
  {
  }

  function Thrown(outcome: Awaited<()>): Awaited<string>
    requires !outcome.Value?
  {
    match outcome
    case TimedOut => TimedOut
    case Threw(message) => Threw(message)
  }

  function Turn(id: nat, outcomes: seq<Awaited<string>>): seq<Action> {
    seq(|outcomes|, i requires 0 <= i < |outcomes| => Proceed(id, outcomes[i]))
  }

  lemma RunThree(w: World, a: Action, b: Action, c: Action)
    ensures Run(w, [a, b, c]) == Step(Step(Step(w, a), b), c)
  {
    hide Step;
    assert [a, b, c][1..] == [b, c] && [b, c][1..] == [c];
    RunOne(Step(Step(w, a), b), c);
  }

  lemma RunOne(w: World, a: Action)
    ensures Run(w, [a]) == Step(w, a)
  {
    assert Run(w, [a]) == Run(Step(w, a), [a][1..]);
  }

  /** Nobody works on the intent any more, but its record says that somebody does. */
  ghost predicate Orphaned(w: World, key: string) {
    && LoadIntent(w.store, key).Some?
    && IsActive(LoadIntent(w.store, key).value.status)
    && (forall id :: id in w.attempts ==> w.attempts[id].key != key)
  }

  /** Closing a tab in the middle of an attempt orphans its intent. */
  lemma ClosingOrphans(w: World, id: nat)
    requires Invariant(w) && id in w.attempts
    ensures Orphaned(Step(w, Close(id)), w.attempts[id].key)
  {
    hide IntentKey, LockKey, StoreValid, HashesStored;
    assert InStep(w.store, w.attempts[id]);
  }

  lemma OrphanStep(w: World, a: Action, key: string)
    requires Invariant(w) && Orphaned(w, key)
    ensures Orphaned(Step(w, a), key) && LoadIntent(Step(w, a).store, key) == LoadIntent(w.store, key)
  {
    StepKeepsRecord(w, a, key);
    NewAttemptsBegin(w, a);
    hide Step, LoadIntent, StoreValid, HashesStored, InStep;
  }

  /** A step starts no attempt but the one it begins, and keeps what each attempt is about. */
  lemma NewAttemptsBegin(w: World, a: Action)
    ensures forall id :: id in Step(w, a).attempts ==>
              if id in w.attempts then Step(w, a).attempts[id].key == w.attempts[id].key
              else a.Begin? && id == a.id && Step(w, a).attempts[id].key == a.held.key
                   && LoadIntent(w.store, a.held.key).Some? && BeginGranted(w.store, a.held)
  {
    hide Transitioned, Ended, Begun, SaveIntent, LoadIntent, BeginGranted, BuildKey;
  }

  /**
   From then on, in every run, that intent stays as it is and no intent of the same operation
   can be submitted again: the page can show it, but nothing resumes it.
   */
  lemma {:induction false} OrphansBlockTheirOperation(w: World, actions: seq<Action>, key: string, other: Intent)
    requires Invariant(w) && Orphaned(w, key) && LockKey(other.op) == LockKey(LoadIntent(w.store, key).value.op)
    ensures LoadIntent(Run(w, actions).store, key) == LoadIntent(w.store, key)
    ensures !BeginGranted(Run(w, actions).store, other)
    decreases |actions|
  {
    hide IntentKey, LockKey, Step;
    if actions == [] {
      assert Locked(w.store, IntentKey(key)) && InPlace(w.store, IntentKey(key));
      IntentKeyInjective(key, LoadIntent(w.store, key).value.key);
    } else {
      hide BeginGranted, Invariant, Orphaned;
      OrphanStep(w, actions[0], key);
      InvariantStep(w, actions[0]);
      OrphansBlockTheirOperation(Step(w, actions[0]), actions[1..], key, other);
    }
  }

  /** Some continuation of the run ends the intent. */
  ghost predicate Ends(w: World, actions: seq<Action>, key: string) {
    StatusOf(Run(w, actions).store, key) in {Some(Confirmed), Some(Failed), Some(Expired)}
  }

  lemma {:induction false} FinishingEnds(w: World, actions: seq<Action>, id: nat, key: string, op: Operation) returns (prefix: seq<Action>)
    requires Finishes(w, actions, id, key, op)
    ensures Ends(w, prefix, key)
    decreases |actions|
  {
    hide Step;
    if Over(w, id, key, op) {
      prefix := [];
    } else {
      var rest := FinishingEnds(Step(w, actions[0]), actions[1..], id, key, op);
      prefix := [actions[0]] + rest;
      assert prefix[1..] == rest;
    }
  }

  /** An active intent can still end if and only if some open tab works on it. */
  lemma {:induction false} EndsExactlyIfWorkedOn(w: World, key: string)
    requires Invariant(w) && LoadIntent(w.store, key).Some? && IsActive(LoadIntent(w.store, key).value.status)
    ensures (exists actions :: Ends(w, actions, key)) <==> !Orphaned(w, key)
  {
    if Orphaned(w, key) {
      forall actions
        ensures !Ends(w, actions, key)
      {
        OrphansBlockTheirOperation(w, actions, key, LoadIntent(w.store, key).value);
      }
    } else {
      var id: nat :| id in w.attempts && w.attempts[id].key == key;
      hide Run, Step, Invariant, Ends;
      var actions := WorkedOnEnds(w, id);
    }
  }

  lemma WorkedOnEnds(w: World, id: nat) returns (actions: seq<Action>)
    requires Invariant(w) && id in w.attempts
    ensures Ends(w, actions, w.attempts[id].key)
  {
    var turn := Proceed(id, TimedOut);
    FourTurns(turn, id);
    hide Run, Ends, Step, Invariant, Turns;
    OpenTabsFinish(w, [turn, turn, turn, turn], id);
    actions := FinishingEnds(w, [turn, turn, turn, turn], id, w.attempts[id].key, w.attempts[id].op);
  }

  lemma FourTurns(turn: Action, id: nat)
    requires turn.Proceed? && turn.id == id
    ensures Turns([turn, turn, turn, turn], id) == 4
  {
    assert [turn][1..] == [] && [turn, turn][1..] == [turn];
    assert Turns([turn], id) == 1;
    assert Turns([turn, turn], id) == 2;
    assert [turn, turn, turn][1..] == [turn, turn];
    assert Turns([turn, turn, turn], id) == 3;
    assert [turn, turn, turn, turn][1..] == [turn, turn, turn];
  }

  // ---------------------------------------------------------------------------
  // What each step of a tab does
  // ---------------------------------------------------------------------------

  /**
   The next call of an attempt: what it awaited decides what is stored. Only a time-out
   expires the intent, only an error fails it, with its own message, and only a confirmation
   confirms it.
   */
  lemma ProceedAnswers(w: World, id: nat, outcome: Awaited<string>)
    requires Invariant(w) && id in w.attempts && LoadIntent(w.store, w.attempts[id].key).Some?
    ensures var p, was := w.attempts[id], LoadIntent(w.store, w.attempts[id].key).value;
            var w' := Step(w, Proceed(id, outcome));
            LoadIntent(w'.store, p.key) == Some(
              if p.at == Building then was.(status := AwaitingSignature)
              else if p.at == Submitted then was.(status := Pending)
              else if outcome.TimedOut? then was.(status := Expired, error := Some(TIMEOUT_MESSAGE))
              else if outcome.Threw? then was.(status := Failed, error := Some(outcome.message))
              else if p.at == AwaitingSignature then was.(status := Submitted, txHash := Some(outcome.value))
              else was.(status := Confirmed))
  {
    var p := w.attempts[id];
    assert InStep(w.store, p);
    AttemptStepWrites(w, id, outcome);
    WrittenAnswers(w, id, outcome);
    hide IntentKey, LockKey, Writes, Step, Written;
    WriteKeepsReads(w.store, Step(w, Proceed(id, outcome)).store, Written(w, id, outcome), p.key);
  }

  lemma WrittenAnswers(w: World, id: nat, outcome: Awaited<string>)
    requires id in w.attempts && LoadIntent(w.store, w.attempts[id].key).Some? && IsActive(w.attempts[id].at)
    ensures var p, was := w.attempts[id], LoadIntent(w.store, w.attempts[id].key).value;
            Written(w, id, outcome) ==
              if p.at == Building then was.(status := AwaitingSignature)
              else if p.at == Submitted then was.(status := Pending)
              else if outcome.TimedOut? then was.(status := Expired, error := Some(TIMEOUT_MESSAGE))
              else if outcome.Threw? then was.(status := Failed, error := Some(outcome.message))
              else if p.at == AwaitingSignature then was.(status := Submitted, txHash := Some(outcome.value))
              else was.(status := Confirmed)
  {
    hide IntentKey;
  }

  /** In any reachable state, creating an intent under a new key stores it and disturbs nobody. */
  lemma CreateStores(w: World, op: Operation, asset: string, amount: string, nonce: string, other: string)
    requires IntentKey(BuildKey(op, asset, amount, nonce)) !in w.store
    ensures var key, w' := BuildKey(op, asset, amount, nonce), Step(w, Create(op, asset, amount, nonce));
            && LoadIntent(w'.store, key) == Some(Intent(key, op, asset, amount, Idle, None, None))
            && (other != key ==> LoadIntent(w'.store, other) == LoadIntent(w.store, other))
            && w'.attempts == w.attempts && w'.submits == w.submits
  {
    IntentKeyInjective(other, BuildKey(op, asset, amount, nonce));
    hide IntentKey, BuildKey;
  }

  /**
   Pressing the button starts an attempt if and only if the tab is not in one already, the
   intent is not confirmed, and no intent of its operation is active; otherwise nothing changes.
   */
  lemma BeginAnswers(actions: seq<Action>, id: nat, held: Intent)
    requires LoadIntent(Run(START, actions).store, held.key).Some?
    requires LoadIntent(Run(START, actions).store, held.key).value.op == held.op
    ensures var w := Run(START, actions);
            var was, w' := LoadIntent(w.store, held.key).value, Step(w, Begin(id, held));
            var free := was.status != Confirmed && forall other :: !ActiveFor(w.store, held.op, other);
            if id !in w.attempts && free
            then && w'.attempts == w.attempts[id := Attempt(held.key, held.op, Building)]
                 && LoadIntent(w'.store, held.key) == Some(was.(status := Building, error := None))
                 && LoadLock(w'.store, held.op) == Some(held.key)
            else w' == w
  {
    GrantedExactlyWhenFree(actions, held);
    ReachableInvariant(actions);
    hide Run, IntentKey, LockKey, ActiveFor;
    var w := Run(START, actions);
    if id !in w.attempts && BeginGranted(w.store, held) {
      BegunReads(w.store, held);
    }
  }

  lemma BegunReads(store: Store, held: Intent)
    requires StoreValid(store) && LoadIntent(store, held.key).Some? && LoadIntent(store, held.key).value.op == held.op
    ensures LoadIntent(Begun(store, held), held.key) == Some(LoadIntent(store, held.key).value.(status := Building, error := None))
    ensures LoadLock(Begun(store, held), held.op) == Some(held.key)
  {
    hide IntentKey, LockKey;
    KeysNeverCollide(held.key, held.op);
    assert InPlace(store, IntentKey(held.key));
    IntentKeyInjective(held.key, LoadIntent(store, held.key).value.key);
  }
}
