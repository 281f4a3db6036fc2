/**
 Any number of browser tabs running payment attempts over the one shared store. A run is an
 arbitrary interleaving of storage calls, each of them one atomic step; a tab can be closed
 between any two.
 */
module PaymentTabs {
  import opened Options
  import opened PaymentIntents

  /** An attempt under way: the intent it works on and the status its last call wrote. */
  datatype Attempt = Attempt(key: string, op: Operation, at: Status)

  /** `submits` holds the hash that the latest submission of each intent returned. */
  datatype World = World(store: Store, attempts: map<nat, Attempt>, submits: map<string, string>)

  datatype Action =
    | Create(op: Operation, asset: string, amount: string, nonce: string)
    | Begin(id: nat, held: Intent)
    | Proceed(id: nat, outcome: Awaited<string>)
    | Close(id: nat)

  const START := World(map[], map[], map[])

  predicate Holds(store: Store, intent: Intent) {
    && IntentKey(intent.key) in store
    && store[IntentKey(intent.key)] == IntentRecord(intent)
  }

  // ---------------------------------------------------------------------------
  // Steps
  // ---------------------------------------------------------------------------

  /** A nonce is never drawn twice, so a key that is already stored cannot be created again. */
  function CreateStep(w: World, a: Action): World
    requires a.Create?
  {
    var intent := NewIntent(a.op, a.asset, a.amount, a.nonce);
    if IntentKey(intent.key) in w.store then w else w.(store := SaveIntent(w.store, intent))
  }

  /**
   A tab presses the button on its own, possibly stale, copy of an intent. It got that copy from
   the store, where the intent still is and still belongs to the same operation.
   */
  function BeginStep(w: World, a: Action): World
    requires a.Begin?
  {
    var stored := LoadIntent(w.store, a.held.key);
    if stored.None? || stored.value.op != a.held.op || a.id in w.attempts || !BeginGranted(w.store, a.held) then w
    else w.(store := Begun(w.store, a.held), attempts := w.attempts[a.id := Attempt(a.held.key, a.held.op, Building)])
  }

  /** The tab's copy of the intent; the storage calls use no more of it than key and operation. */
  function Copy(p: Attempt): Intent {
    Intent(p.key, p.op, "", "", p.at, None, None)
  }

  /** The next mark writes a new status, and the attempt goes on. */
  function MarkStep(w: World, id: nat, patch: Patch): World
    requires id in w.attempts && !patch.ToEnd?
  {
    var p := w.attempts[id];
    var at := if patch.ToStatus? then patch.status else Submitted;
    w.(store := Transitioned(w.store, Copy(p), patch), attempts := w.attempts[id := p.(at := at)])
  }

  /** The last mark ends the intent, releases the lock, and the attempt is over. */
  function EndStep(w: World, id: nat, patch: Patch): World
    requires id in w.attempts
  {
    w.(store := Ended(w.store, Copy(w.attempts[id]), patch), attempts := w.attempts - {id})
  }

  /**
   What the attempt does next, given how the call it awaits ends: signing and submitting while
   it awaits the signature, the confirmation poll once it is pending. The other two marks
   follow at once, whatever `outcome` says.
   */
  function ProceedStep(w: World, a: Action): World
    requires a.Proceed?
  {
    if a.id !in w.attempts then w
    else
      var p := w.attempts[a.id];
      match p.at
      case Building => MarkStep(w, a.id, ToStatus(AwaitingSignature))
      case AwaitingSignature =>
        if a.outcome.Value?
        then MarkStep(w, a.id, ToSubmitted(a.outcome.value)).(submits := w.submits[p.key := a.outcome.value])
        else EndStep(w, a.id, EndPatch(a.outcome))
      case Submitted => MarkStep(w, a.id, ToStatus(Pending))
      case Pending => EndStep(w, a.id, EndPatch(a.outcome))
      case _ => w
  }

  function CloseStep(w: World, a: Action): World
    requires a.Close?
  {
    w.(attempts := w.attempts - {a.id})
  }

  function Step(w: World, a: Action): World {
    match a
    case Create(_, _, _, _) => CreateStep(w, a)
    case Begin(_, _) => BeginStep(w, a)
    case Proceed(_, _) => ProceedStep(w, a)
    case Close(_) => CloseStep(w, a)
  }

  function Run(w: World, actions: seq<Action>): World
    decreases |actions|
  {
    if actions == [] then w else Run(Step(w, actions[0]), actions[1..])
  }

  // ---------------------------------------------------------------------------
  // What every step keeps
  // ---------------------------------------------------------------------------

  /** A record is under its own key; a lock is the one of the active intent it names. */
  predicate InPlace(store: Store, s: string)
    requires s in store
  {
    match store[s]
    case IntentRecord(intent) => s == IntentKey(intent.key)
    case LockRecord(key) =>
      && LoadIntent(store, key).Some?
      && IsActive(LoadIntent(store, key).value.status)
      && s == LockKey(LoadIntent(store, key).value.op)
  }

  /** An active intent holds the lock of its operation. */
  predicate Locked(store: Store, s: string)
    requires s in store
  {
    store[s].IntentRecord? && IsActive(store[s].intent.status) ==> LoadLock(store, store[s].intent.op) == Some(store[s].intent.key)
  }

  ghost predicate StoreValid(store: Store) {
    forall s :: s in store ==> InPlace(store, s) && Locked(store, s)
  }

  /** The stored status is what the attempt last wrote. */
  predicate InStep(store: Store, p: Attempt) {
    var stored := LoadIntent(store, p.key);
    stored.Some? && stored.value.op == p.op && stored.value.status == p.at && IsActive(p.at)
  }

  ghost predicate AttemptsInStep(w: World) {
    && (forall id :: id in w.attempts ==> InStep(w.store, w.attempts[id]))
    && (forall i, j :: i in w.attempts && j in w.attempts && i != j ==> w.attempts[i].key != w.attempts[j].key)
  }

  /** Once submitted, an intent carries the hash of its latest submission. */
  predicate CarriesHash(intent: Intent, submits: map<string, string>) {
    intent.status in {Submitted, Pending, Confirmed} ==>
      intent.key in submits && intent.txHash == Some(submits[intent.key])
  }

  ghost predicate HashesStored(w: World) {
    forall s :: s in w.store && w.store[s].IntentRecord? ==> CarriesHash(w.store[s].intent, w.submits)
  }

  ghost predicate Invariant(w: World) {
    && StoreValid(w.store)
    && AttemptsInStep(w)
    && HashesStored(w)
  }

  lemma KeysApart()
    ensures forall key: string, op: Operation :: IntentKey(key) != LockKey(op)
    ensures forall a: string, b: string :: IntentKey(a) == IntentKey(b) ==> a == b
  {
    forall key: string, op: Operation
      ensures IntentKey(key) != LockKey(op)
    {
      KeysNeverCollide(key, op);
    }
    forall a: string, b: string | IntentKey(a) == IntentKey(b)
      ensures a == b
    {
      IntentKeyInjective(a, b);
    }
  }

  // ---------------------------------------------------------------------------
  // Writing one intent
  // ---------------------------------------------------------------------------

  /** Nothing changes but the record of `intent` and the lock of its operation. */
  ghost predicate OnlyTouches(before: Store, after: Store, intent: Intent) {
    forall s :: s != IntentKey(intent.key) && s != LockKey(intent.op) ==>
      (s in after <==> s in before) && (s in before ==> after[s] == before[s])
  }

  /** The record now holds `intent`, and the lock names it exactly if it is active. */
  ghost predicate Writes(before: Store, after: Store, intent: Intent) {
    && OnlyTouches(before, after, intent)
    && Holds(after, intent)
    && (if IsActive(intent.status) then LockKey(intent.op) in after && after[LockKey(intent.op)] == LockRecord(intent.key)
        else LockKey(intent.op) !in after)
  }

  /** The lock is free or already names this intent. */
  predicate MayWrite(store: Store, intent: Intent) {
    && LoadIntent(store, intent.key).Some?
    && LoadIntent(store, intent.key).value.op == intent.op
    && (LockKey(intent.op) in store ==> store[LockKey(intent.op)] == LockRecord(intent.key))
  }

  lemma WriteKeepsOther(before: Store, after: Store, intent: Intent, s: string)
    requires StoreValid(before) && MayWrite(before, intent) && Writes(before, after, intent)
    requires s in after && s != IntentKey(intent.key) && s != LockKey(intent.op)
    ensures InPlace(after, s) && Locked(after, s)
  {
    hide IntentKey, LockKey;
    KeysApart();
    assert InPlace(before, s) && Locked(before, s);
  }

  lemma WriteKeepsStore(before: Store, after: Store, intent: Intent)
    requires StoreValid(before) && MayWrite(before, intent) && Writes(before, after, intent)
    ensures StoreValid(after)
  {
    forall s | s in after
      ensures InPlace(after, s) && Locked(after, s)
    {
      if s != IntentKey(intent.key) && s != LockKey(intent.op) {
        WriteKeepsOther(before, after, intent, s);
      } else {
        hide IntentKey, LockKey;
        KeysApart();
      }
    }
  }

  /** Other intents read as before. */
  lemma WriteKeepsReads(before: Store, after: Store, intent: Intent, key: string)
    requires Writes(before, after, intent)
    ensures LoadIntent(after, intent.key) == Some(intent)
    ensures key != intent.key ==> LoadIntent(after, key) == LoadIntent(before, key)
  {
    hide IntentKey, LockKey;
    KeysApart();
  }

  /** Hashes stay right if the new record carries its own and no other intent's hash changes. */
  lemma WriteKeepsHashes(w: World, w': World, intent: Intent)
    requires HashesStored(w) && Writes(w.store, w'.store, intent) && CarriesHash(intent, w'.submits)
    requires forall key :: key != intent.key ==>
               (key in w'.submits <==> key in w.submits) && (key in w.submits ==> w'.submits[key] == w.submits[key])
    requires StoreValid(w.store)
    ensures HashesStored(w')
  {
    hide IntentKey, LockKey;
    KeysApart();
    forall s | s in w'.store && w'.store[s].IntentRecord?
      ensures CarriesHash(w'.store[s].intent, w'.submits)
    {
      if s != IntentKey(intent.key) {
        assert s in w.store && w.store[s] == w'.store[s];
        assert InPlace(w.store, s);
      }
    }
  }

  // ---------------------------------------------------------------------------
  // The steps
  // ---------------------------------------------------------------------------

  lemma CreateKeepsEntry(store: Store, intent: Intent, s: string)
    requires IntentKey(intent.key) !in store && s in store && InPlace(store, s) && Locked(store, s)
    ensures InPlace(SaveIntent(store, intent), s) && Locked(SaveIntent(store, intent), s)
  {
    hide IntentKey, LockKey;
    if store[s].IntentRecord? {
      KeysNeverCollide(intent.key, store[s].intent.op);
    }
  }

  /** A new record is idle: it holds no lock and no hash, and touches no other entry. */
  lemma CreateKeeps(w: World, a: Action)
    requires a.Create? && Invariant(w)
    ensures Invariant(CreateStep(w, a))
  {
    hide IntentKey, LockKey, BuildKey;
    var intent := NewIntent(a.op, a.asset, a.amount, a.nonce);
    if IntentKey(intent.key) !in w.store {
      CreateKeepsStore(w.store, intent);
      hide InPlace, Locked, StoreValid, InStep;
      forall id | id in w.attempts
        ensures InStep(SaveIntent(w.store, intent), w.attempts[id])
      {
        CreateKeepsAttempt(w.store, intent, w.attempts[id]);
      }
    }
  }

  lemma CreateKeepsAttempt(store: Store, intent: Intent, p: Attempt)
    requires IntentKey(intent.key) !in store && InStep(store, p)
    ensures InStep(SaveIntent(store, intent), p)
  {
    hide IntentKey;
  }

  lemma CreateKeepsStore(store: Store, intent: Intent)
    requires StoreValid(store) && IntentKey(intent.key) !in store && intent.status == Idle
    ensures StoreValid(SaveIntent(store, intent))
  {
    hide IntentKey, LockKey;
    var after := SaveIntent(store, intent);
    forall s | s in after
      ensures InPlace(after, s) && Locked(after, s)
    {
      if s in store {
        assert InPlace(store, s) && Locked(store, s);
        CreateKeepsEntry(store, intent, s);
      }
    }
  }

  /** A submission is only granted when no intent of the operation is active. */
  lemma GrantedMeansFree(store: Store, intent: Intent)
    requires StoreValid(store)
    requires LoadIntent(store, intent.key).Some? && LoadIntent(store, intent.key).value.op == intent.op
    requires BeginGranted(store, intent)
    ensures LockKey(intent.op) !in store
  {
    hide IntentKey, LockKey;
    KeysApart();
    assert LockKey(intent.op) in store ==> InPlace(store, LockKey(intent.op));
  }

  lemma BeginWrites(store: Store, intent: Intent)
    requires StoreValid(store)
    requires LoadIntent(store, intent.key).Some? && LoadIntent(store, intent.key).value.op == intent.op
    ensures Writes(store, Begun(store, intent), Current(store, intent).(status := Building, error := None))
  {
    hide IntentKey, LockKey;
    KeysNeverCollide(intent.key, intent.op);
    assert InPlace(store, IntentKey(intent.key));
    IntentKeyInjective(intent.key, LoadIntent(store, intent.key).value.key);
  }

  lemma BeginKeeps(w: World, a: Action)
    requires a.Begin? && Invariant(w)
    ensures Invariant(BeginStep(w, a))
  {
    var w' := BeginStep(w, a);
    if w' != w {
      hide IntentKey, LockKey, Writes, Begun;
      var begun := Current(w.store, a.held).(status := Building, error := None);
      BeginMayWrite(w.store, a.held);
      BeginWrites(w.store, a.held);
      WriteKeepsStore(w.store, w'.store, begun);
      WriteKeepsHashes(w, w', begun);
      BeginKeepsAttempts(w, w', a.id, begun);
    }
  }

  lemma BeginMayWrite(store: Store, held: Intent)
    requires StoreValid(store) && BeginGranted(store, held)
    requires LoadIntent(store, held.key).Some? && LoadIntent(store, held.key).value.op == held.op
    ensures Current(store, held).key == held.key && Current(store, held).op == held.op
    ensures MayWrite(store, Current(store, held).(status := Building, error := None))
  {
    hide IntentKey, LockKey;
    GrantedMeansFree(store, held);
    assert InPlace(store, IntentKey(held.key));
    IntentKeyInjective(held.key, LoadIntent(store, held.key).value.key);
  }

  /** An attempt that begins is the only one at its intent, whose status was none an attempt can have. */
  lemma BeginKeepsAttempts(w: World, w': World, id: nat, begun: Intent)
    requires AttemptsInStep(w) && id !in w.attempts && Writes(w.store, w'.store, begun) && begun.status == Building
    requires LoadIntent(w.store, begun.key).Some? && MayBegin(LoadIntent(w.store, begun.key).value.status)
    requires w'.attempts == w.attempts[id := Attempt(begun.key, begun.op, Building)]
    ensures AttemptsInStep(w')
  {
    hide Writes;
    forall other | other in w'.attempts
      ensures InStep(w'.store, w'.attempts[other])
    {
      WriteKeepsReads(w.store, w'.store, begun, w'.attempts[other].key);
      assert other in w.attempts ==> InStep(w.store, w.attempts[other]);
    }
    assert forall other :: other in w.attempts ==> InStep(w.store, w.attempts[other]);
  }

  /** The record an attempt's mark writes. */
  function Marked(store: Store, p: Attempt, patch: Patch): Intent {
    Patched(Current(store, Copy(p)), patch)
  }

  /** What an attempt writes, it may write: the lock is its own. */
  lemma AttemptMayWrite(store: Store, p: Attempt, patch: Patch)
    requires StoreValid(store) && InStep(store, p)
    ensures var intent := Marked(store, p, patch);
            intent.key == p.key && intent.op == p.op && MayWrite(store, intent)
    ensures LoadLock(store, p.op) == Some(p.key)
  {
    hide IntentKey, LockKey;
    assert InPlace(store, IntentKey(p.key)) && Locked(store, IntentKey(p.key));
    IntentKeyInjective(p.key, LoadIntent(store, p.key).value.key);
  }

  lemma MarkWrites(store: Store, p: Attempt, patch: Patch)
    requires Marked(store, p, patch).key == p.key && Marked(store, p, patch).op == p.op
    requires LoadLock(store, p.op) == Some(p.key) && IsActive(Marked(store, p, patch).status)
    ensures Writes(store, Transitioned(store, Copy(p), patch), Marked(store, p, patch))
  {
    hide IntentKey, LockKey;
    KeysNeverCollide(p.key, p.op);
  }

  lemma EndWrites(store: Store, p: Attempt, patch: Patch)
    requires Marked(store, p, patch).key == p.key && Marked(store, p, patch).op == p.op
    requires !IsActive(Marked(store, p, patch).status)
    ensures Writes(store, Ended(store, Copy(p), patch), Marked(store, p, patch))
  {
    hide IntentKey, LockKey;
    KeysNeverCollide(p.key, p.op);
  }

  lemma AttemptsStayInStep(w: World, w': World, id: nat, intent: Intent)
    requires AttemptsInStep(w) && id in w.attempts && Writes(w.store, w'.store, intent)
    requires intent.key == w.attempts[id].key && intent.op == w.attempts[id].op
    requires w'.attempts == if IsActive(intent.status) then w.attempts[id := w.attempts[id].(at := intent.status)] else w.attempts - {id}
    ensures AttemptsInStep(w')
  {
    hide Writes;
    forall other | other in w'.attempts
      ensures InStep(w'.store, w'.attempts[other])
    {
      WriteKeepsReads(w.store, w'.store, intent, w'.attempts[other].key);
    }
  }

  lemma MarkKeeps(w: World, id: nat, patch: Patch, w': World)
    requires Invariant(w) && id in w.attempts
    requires patch == ToStatus(AwaitingSignature) || patch.ToSubmitted? || (patch == ToStatus(Pending) && w.attempts[id].at == Submitted)
    requires w' == if patch.ToSubmitted? then MarkStep(w, id, patch).(submits := w.submits[w.attempts[id].key := patch.txHash])
                   else MarkStep(w, id, patch)
    ensures Invariant(w')
  {
    hide IntentKey, LockKey, Writes, Transitioned;
    var p := w.attempts[id];
    var intent := Marked(w.store, p, patch);
    AttemptMayWrite(w.store, p, patch);
    MarkWrites(w.store, p, patch);
    WriteKeepsStore(w.store, w'.store, intent);
    WriteKeepsHashes(w, w', intent);
    AttemptsStayInStep(w, w', id, intent);
  }

  lemma EndKeeps(w: World, id: nat, patch: Patch)
    requires Invariant(w) && id in w.attempts && !patch.ToSubmitted?
    requires IsTerminal(patch.status)
    requires patch.status == Confirmed ==> w.attempts[id].at == Pending
    ensures Invariant(EndStep(w, id, patch))
  {
    hide IntentKey, LockKey, Writes, Ended;
    var w' := EndStep(w, id, patch);
    var p := w.attempts[id];
    var intent := Marked(w.store, p, patch);
    AttemptMayWrite(w.store, p, patch);
    EndWrites(w.store, p, patch);
    WriteKeepsStore(w.store, w'.store, intent);
    WriteKeepsHashes(w, w', intent);
    AttemptsStayInStep(w, w', id, intent);
  }

  lemma {:induction false} InvariantStep(w: World, a: Action)
    requires Invariant(w)
    ensures Invariant(Step(w, a))
  {
    match a
    case Create(_, _, _, _) => CreateKeeps(w, a);
    case Begin(_, _) => BeginKeeps(w, a);
    case Close(_) =>
    case Proceed(id, outcome) =>
      if id in w.attempts {
        hide MarkStep, EndStep, StoreValid, HashesStored, InStep;
        assert InStep(w.store, w.attempts[id]);
        match w.attempts[id].at
        case Building => MarkKeeps(w, id, ToStatus(AwaitingSignature), Step(w, a));
        case AwaitingSignature =>
          if outcome.Value? {
            MarkKeeps(w, id, ToSubmitted(outcome.value), Step(w, a));
          } else {
            EndKeeps(w, id, EndPatch(outcome));
          }
        case Submitted => MarkKeeps(w, id, ToStatus(Pending), Step(w, a));
        case Pending => EndKeeps(w, id, EndPatch(outcome));
        case _ =>
      }
  }

  lemma {:induction false} InvariantRun(w: World, actions: seq<Action>)
    requires Invariant(w)
    ensures Invariant(Run(w, actions))
    decreases |actions|
  {
    if actions != [] {
      InvariantStep(w, actions[0]);
      InvariantRun(Step(w, actions[0]), actions[1..]);
    }
  }

  lemma ReachableInvariant(actions: seq<Action>)
    ensures Invariant(Run(START, actions))
  {
    InvariantRun(START, actions);
  }
}
