/**
 The guard against submitting a payment twice. Every browser tab shares one string-keyed
 store; it holds a record for each payment intent and a lock for each operation.

 The functions say what each call does to the store; the methods are the calls.
 */
module PaymentIntents {
  import opened Options

  datatype Kind = Deposit | Withdraw | EarlyExit

  datatype Status = Idle | Building | AwaitingSignature | Submitted | Pending | Confirmed | Failed | Expired

  /** What a lock is about: the same kind of payment, by the same account, on the same tier. */
  datatype Operation = Operation(kind: Kind, address: string, tier: string)

  datatype Intent = Intent(
    key: string,
    op: Operation,
    asset: string,
    amount: string,
    status: Status,
    txHash: Option<string>,
    error: Option<string>)

  datatype Stored = IntentRecord(intent: Intent) | LockRecord(intentKey: string)

  type Store = map<string, Stored>

  predicate IsTerminal(s: Status) {
    s == Confirmed || s == Failed || s == Expired
  }

  predicate MayBegin(s: Status) {
    s == Idle || s == Failed || s == Expired
  }

  /** Submission has begun and not ended. */
  predicate IsActive(s: Status) {
    s != Idle && !IsTerminal(s)
  }

  // ---------------------------------------------------------------------------
  // Keys
  // ---------------------------------------------------------------------------

  const INTENT_PREFIX := "yl:intent:"
  const LOCK_PREFIX := "yl:intent-lock:"

  function KindName(kind: Kind): (name: string)
    ensures ':' !in name
  {
    match kind
    case Deposit => "deposit"
    case Withdraw => "withdraw"
    case EarlyExit => "earlyExit"
  }

  function IntentKey(key: string): string {
    INTENT_PREFIX + key
  }

  function LockKey(op: Operation): string {
    LOCK_PREFIX + KindName(op.kind) + ":" + op.address + ":" + op.tier
  }

  function BuildKey(op: Operation, asset: string, amount: string, nonce: string): string {
    KindName(op.kind) + ":" + (op.address + ":" + (op.tier + ":" + (asset + ":" + (amount + ":" + nonce))))
  }

  /** Intent records and locks never share a key: the prefixes differ in their tenth character. */
  lemma KeysNeverCollide(key: string, op: Operation)
    ensures IntentKey(key) != LockKey(op)
  {
    assert IntentKey(key)[9] == INTENT_PREFIX[9] == ':';
    assert LockKey(op)[9] == LOCK_PREFIX[9] == '-';
  }

  lemma IntentKeyInjective(a: string, b: string)
    ensures IntentKey(a) == IntentKey(b) ==> a == b
  {
    assert IntentKey(a)[|INTENT_PREFIX|..] == a;
    assert IntentKey(b)[|INTENT_PREFIX|..] == b;
  }

  /** Text up to its first colon determines what comes before and after. */
  lemma FirstColon(a: string, b: string, c: string, d: string)
    requires ':' !in a && ':' !in c
    requires a + ":" + b == c + ":" + d
    ensures a == c && b == d
  {
    var s := a + ":" + b;
    assert s[|a|] == ':' && s[|c|] == ':';
    assert forall i :: 0 <= i < |a| ==> s[i] == a[i] && a[i] in a;
    assert forall i :: 0 <= i < |c| ==> s[i] == c[i] && c[i] in c;
    assert |a| == |c|;
    assert a == s[..|a|] && c == s[..|c|];
    assert b == s[|a| + 1..] && d == s[|c| + 1..];
  }

  lemma KindNameInjective(k: Kind, l: Kind)
    requires KindName(k) == KindName(l)
    ensures k == l
  {
    assert |KindName(Deposit)| == 7 && |KindName(Withdraw)| == 8 && |KindName(EarlyExit)| == 9;
  }

  /** Two operations share a lock exactly when kind and the text "address:tier" agree. */
  lemma LockKeysAgree(p: Operation, q: Operation)
    ensures LockKey(p) == LockKey(q) <==> p.kind == q.kind && p.address + ":" + p.tier == q.address + ":" + q.tier
  {
    var x, y := p.address + ":" + p.tier, q.address + ":" + q.tier;
    assert LockKey(p) == LOCK_PREFIX + (KindName(p.kind) + ":" + x);
    assert LockKey(q) == LOCK_PREFIX + (KindName(q.kind) + ":" + y);
    if LockKey(p) == LockKey(q) {
      assert LockKey(p)[|LOCK_PREFIX|..] == KindName(p.kind) + ":" + x;
      assert LockKey(q)[|LOCK_PREFIX|..] == KindName(q.kind) + ":" + y;
      FirstColon(KindName(p.kind), x, KindName(q.kind), y);
      KindNameInjective(p.kind, q.kind);
    }
  }

  /** So with addresses free of colons, as account addresses are, each operation has a lock of its own. */
  lemma LockKeyInjective(p: Operation, q: Operation)
    requires ':' !in p.address && ':' !in q.address
    ensures LockKey(p) == LockKey(q) ==> p == q
  {
    LockKeysAgree(p, q);
    if LockKey(p) == LockKey(q) {
      FirstColon(p.address, p.tier, q.address, q.tier);
    }
  }

  /** With a colon in an address, two different operations can share one lock. */
  lemma ColonsCanCollide()
    ensures var p, q := Operation(Deposit, "a:b", "c"), Operation(Deposit, "a", "b:c");
            p != q && LockKey(p) == LockKey(q)
  {
    LockKeysAgree(Operation(Deposit, "a:b", "c"), Operation(Deposit, "a", "b:c"));
    assert "a:b" + ":" + "c" == "a" + ":" + "b:c";
  }

  // ---------------------------------------------------------------------------
  // What each call does
  // ---------------------------------------------------------------------------

  function LoadIntent(store: Store, key: string): Option<Intent> {
    if IntentKey(key) in store && store[IntentKey(key)].IntentRecord? then Some(store[IntentKey(key)].intent) else None
  }

  function LoadLock(store: Store, op: Operation): Option<string> {
    if LockKey(op) in store && store[LockKey(op)].LockRecord? then Some(store[LockKey(op)].intentKey) else None
  }

  function SaveIntent(store: Store, intent: Intent): Store {
    store[IntentKey(intent.key) := IntentRecord(intent)]
  }

  /** The stored intent, or the caller's own copy if none is stored. */
  function Current(store: Store, intent: Intent): Intent {
    match LoadIntent(store, intent.key)
    case Some(stored) => stored
    case None => intent
  }

  function NewIntent(op: Operation, asset: string, amount: string, nonce: string): Intent {
    Intent(BuildKey(op, asset, amount, nonce), op, asset, amount, Idle, None, None)
  }

  function FindActive(store: Store, op: Operation): Option<Intent> {
    match LoadLock(store, op)
    case None => None
    case Some(key) =>
      match LoadIntent(store, key)
      case None => None
      case Some(intent) => if IsTerminal(intent.status) then None else Some(intent)
  }

  /** Another intent of the same operation holds the lock and has not ended. */
  predicate HeldByAnother(store: Store, intent: Intent) {
    match LoadLock(store, intent.op)
    case None => false
    case Some(key) =>
      && key != intent.key
      && LoadIntent(store, key).Some?
      && !IsTerminal(LoadIntent(store, key).value.status)
  }

  predicate BeginGranted(store: Store, intent: Intent) {
    MayBegin(Current(store, intent).status) && !HeldByAnother(store, intent)
  }

  function Begun(store: Store, intent: Intent): Store {
    SaveIntent(store, Current(store, intent).(status := Building, error := None))
      [LockKey(intent.op) := LockRecord(intent.key)]
  }

  /** The changes a transition writes over the stored record. */
  datatype Patch =
    | ToStatus(status: Status)
    | ToSubmitted(txHash: string)
    | ToEnd(status: Status, message: string)

  function Patched(intent: Intent, patch: Patch): Intent {
    match patch
    case ToStatus(status) => intent.(status := status)
    case ToSubmitted(txHash) => intent.(status := Submitted, txHash := Some(txHash))
    case ToEnd(status, message) => intent.(status := status, error := Some(message))
  }

  function Transitioned(store: Store, intent: Intent, patch: Patch): Store {
    SaveIntent(store, Patched(Current(store, intent), patch))
  }

  /** A transition that ends a submission also releases the operation's lock. */
  function Ended(store: Store, intent: Intent, patch: Patch): Store {
    Transitioned(store, intent, patch) - {LockKey(intent.op)}
  }

  // ---------------------------------------------------------------------------
  // What a new intent is
  // ---------------------------------------------------------------------------

  lemma StatusesFallInThree(s: Status)
    ensures IsTerminal(s) <==> s in {Confirmed, Failed, Expired}
    ensures IsActive(s) <==> s in {Building, AwaitingSignature, Submitted, Pending}
    ensures MayBegin(s) <==> s in {Idle, Failed, Expired}
  {
  }

  /** A created intent is stored idle, for just the operation, asset and amount asked for, and alone. */
  lemma CreatedAsAsked(store: Store, op: Operation, asset: string, amount: string, nonce: string)
    ensures var intent := NewIntent(op, asset, amount, nonce);
            var after := SaveIntent(store, intent);
            && LoadIntent(after, intent.key) == Some(Intent(intent.key, op, asset, amount, Idle, None, None))
            && (forall s :: s != IntentKey(intent.key) ==> (s in after <==> s in store) && (s in store ==> after[s] == store[s]))
  {
    hide IntentKey, BuildKey;
  }

  /** Another nonce makes another key, even for the same operation, asset and amount. */
  lemma NoncesSeparate(op: Operation, asset: string, amount: string, n: string, m: string)
    ensures BuildKey(op, asset, amount, n) == BuildKey(op, asset, amount, m) <==> n == m
  {
    if BuildKey(op, asset, amount, n) == BuildKey(op, asset, amount, m) {
      var a4, b4 := amount + ":" + n, amount + ":" + m;
      var a3, b3 := asset + ":" + a4, asset + ":" + b4;
      var a2, b2 := op.tier + ":" + a3, op.tier + ":" + b3;
      SamePrefix(KindName(op.kind), op.address + ":" + a2, op.address + ":" + b2);
      SamePrefix(op.address, a2, b2);
      SamePrefix(op.tier, a3, b3);
      SamePrefix(asset, a4, b4);
      SamePrefix(amount, n, m);
    }
  }

  lemma SamePrefix(p: string, x: string, y: string)
    requires p + ":" + x == p + ":" + y
    ensures x == y
  {
    assert (p + ":" + x)[|p| + 1..] == x && (p + ":" + y)[|p| + 1..] == y;
  }

  predicate ColonFree(op: Operation, asset: string, amount: string) {
    ':' !in op.address && ':' !in op.tier && ':' !in asset && ':' !in amount
  }

  /** Where no part contains a colon, the key tells every part. */
  lemma KeysTellTheirParts(op: Operation, asset: string, amount: string, n: string,
                           op': Operation, asset': string, amount': string, n': string)
    requires ColonFree(op, asset, amount) && ColonFree(op', asset', amount')
    requires BuildKey(op, asset, amount, n) == BuildKey(op', asset', amount', n')
    ensures op == op' && asset == asset' && amount == amount' && n == n'
  {
    var a4, b4 := amount + ":" + n, amount' + ":" + n';
    var a3, b3 := asset + ":" + a4, asset' + ":" + b4;
    var a2, b2 := op.tier + ":" + a3, op'.tier + ":" + b3;
    var a1, b1 := op.address + ":" + a2, op'.address + ":" + b2;
    FirstColon(KindName(op.kind), a1, KindName(op'.kind), b1);
    KindNameInjective(op.kind, op'.kind);
    FirstColon(op.address, a2, op'.address, b2);
    FirstColon(op.tier, a3, op'.tier, b3);
    FirstColon(asset, a4, asset', b4);
    FirstColon(amount, n, amount', n');
  }

  // ---------------------------------------------------------------------------
  // The calls
  // ---------------------------------------------------------------------------

  class Storage {
    var items: Store

    constructor ()
      ensures items == map[]
    {
      items := map[];
    }
  }

  method CreateIntent(op: Operation, asset: string, amount: string, nonce: string, storage: Storage) returns (intent: Intent)
    modifies storage
    ensures intent == NewIntent(op, asset, amount, nonce)
    ensures storage.items == SaveIntent(old(storage.items), intent)
  {
    intent := NewIntent(op, asset, amount, nonce);
    storage.items := storage.items[IntentKey(intent.key) := IntentRecord(intent)];
  }

  method FindActiveIntent(op: Operation, storage: Storage) returns (found: Option<Intent>)
    ensures found == FindActive(storage.items, op)
  {
    var lock := LoadLock(storage.items, op);
    if lock.None? {
      return None;
    }
    var intent := LoadIntent(storage.items, lock.value);
    if intent.None? || IsTerminal(intent.value.status) {
      return None;
    }
    return intent;
  }

  method BeginSubmission(intent: Intent, storage: Storage) returns (started: Option<Intent>)
    modifies storage
    ensures started.Some? <==> BeginGranted(old(storage.items), intent)
    ensures storage.items == if started.Some? then Begun(old(storage.items), intent) else old(storage.items)
    ensures started.Some? ==> started.value == Current(old(storage.items), intent).(status := Building, error := None)
  {
    var current := Current(storage.items, intent);
    if current.status != Idle && current.status != Failed && current.status != Expired {
      return None;
    }
    var lock := LoadLock(storage.items, intent.op);
    if lock.Some? && lock.value != intent.key {
      var holder := LoadIntent(storage.items, lock.value);
      if holder.Some? && !IsTerminal(holder.value.status) {
        return None;
      }
    }
    var updated := current.(status := Building, error := None);
    storage.items := SaveIntent(storage.items, updated);
    storage.items := storage.items[LockKey(intent.op) := LockRecord(intent.key)];
    return Some(updated);
  }

  method Transition(intent: Intent, patch: Patch, storage: Storage) returns (updated: Intent)
    modifies storage
    ensures updated == Patched(Current(old(storage.items), intent), patch)
    ensures storage.items == Transitioned(old(storage.items), intent, patch)
  {
    updated := Patched(Current(storage.items, intent), patch);
    storage.items := SaveIntent(storage.items, updated);
  }

  /** `markConfirmed`, `markFailed` and `markExpired`. */
  method End(intent: Intent, patch: Patch, storage: Storage) returns (updated: Intent)
    modifies storage
    ensures updated == Patched(Current(old(storage.items), intent), patch)
    ensures storage.items == Ended(old(storage.items), intent, patch)
  {
    updated := Transition(intent, patch, storage);
    storage.items := storage.items - {LockKey(intent.op)};
  }

  // ---------------------------------------------------------------------------
  // One payment attempt
  // ---------------------------------------------------------------------------

  /** How an awaited call ends: with a value, with a timeout, or with any other error. */
  datatype Awaited<+T> = Value(value: T) | TimedOut | Threw(message: string)

  const TIMEOUT_MESSAGE := "Could not confirm this transaction in time. It may still complete — check back before retrying."

  function EndPatch<T>(outcome: Awaited<T>): Patch {
    match outcome
    case Value(_) => ToStatus(Confirmed)
    case TimedOut => ToEnd(Expired, TIMEOUT_MESSAGE)
    case Threw(message) => ToEnd(Failed, message)
  }

  /** The first awaited call that does not give a value decides how the attempt ends. */
  function AttemptEnd(signed: Awaited<()>, submitted: Awaited<string>, waited: Awaited<()>): Patch {
    if !signed.Value? then EndPatch(signed)
    else if !submitted.Value? then EndPatch(submitted)
    else EndPatch(waited)
  }

  /** What one attempt does to the store when nobody else uses it meanwhile. */
  function Attempted(store: Store, awaiting: Intent, signed: Awaited<()>, submitted: Awaited<string>, waited: Awaited<()>): Store {
    if signed.Value? && submitted.Value? then
      var handed := Transitioned(store, awaiting, ToSubmitted(submitted.value));
      Ended(Transitioned(handed, awaiting, ToStatus(Pending)), awaiting, EndPatch(waited))
    else Ended(store, awaiting, AttemptEnd(signed, submitted, waited))
  }

  /** `PaymentTabs` lets other tabs in between these calls. */
  method RunPaymentSubmission(awaiting: Intent, signed: Awaited<()>, submitted: Awaited<string>, waited: Awaited<()>,
                              storage: Storage)
    returns (result: Intent)
    requires LoadIntent(storage.items, awaiting.key) == Some(awaiting)
    modifies storage
    ensures storage.items == Attempted(old(storage.items), awaiting, signed, submitted, waited)
    ensures LoadIntent(storage.items, awaiting.key) == Some(result)
  {
    hide IntentKey, LockKey;
    KeysNeverCollide(awaiting.key, awaiting.op);
    if signed.Value? {
      if submitted.Value? {
        var handed := Transition(awaiting, ToSubmitted(submitted.value), storage);
        var pending := Transition(handed, ToStatus(Pending), storage);
        if waited.Value? {
          result := End(pending, ToStatus(Confirmed), storage);
        } else {
          result := End(awaiting, EndPatch(waited), storage);
        }
      } else {
        result := End(awaiting, EndPatch(submitted), storage);
      }
    } else {
      result := End(awaiting, EndPatch(signed), storage);
    }
  }

  /**
   Whichever call throws, an attempt ends terminal with the lock released and disturbs no other
   entry. It is confirmed only if nothing threw. Otherwise the first call that gives no value
   decides: expired if it timed out, failed with the very message it threw if it threw.
   The hash is kept if there was one.
   */
  lemma EveryBranchEnds(store: Store, awaiting: Intent, signed: Awaited<()>, submitted: Awaited<string>, waited: Awaited<()>)
    requires LoadIntent(store, awaiting.key) == Some(awaiting)
    ensures var after := Attempted(store, awaiting, signed, submitted, waited);
            && LoadLock(after, awaiting.op) == None
            && after - {IntentKey(awaiting.key), LockKey(awaiting.op)} == store - {IntentKey(awaiting.key), LockKey(awaiting.op)}
    ensures var stored := LoadIntent(Attempted(store, awaiting, signed, submitted, waited), awaiting.key);
            var timedOut := signed.TimedOut? || (signed.Value? && (submitted.TimedOut? || (submitted.Value? && waited.TimedOut?)));
            && stored.Some?
            && IsTerminal(stored.value.status)
            && stored.value == awaiting.(
                 status := stored.value.status, txHash := stored.value.txHash, error := stored.value.error)
            && (stored.value.status == Confirmed <==> signed.Value? && submitted.Value? && waited.Value?)
            && (stored.value.status == Expired <==> timedOut)
            && (stored.value.txHash == if signed.Value? && submitted.Value? then Some(submitted.value) else awaiting.txHash)
            && (signed.Threw? ==> stored.value.error == Some(signed.message))
            && (signed.Value? && submitted.Threw? ==> stored.value.error == Some(submitted.message))
            && (signed.Value? && submitted.Value? && waited.Threw? ==> stored.value.error == Some(waited.message))
            && (timedOut ==> stored.value.error == Some(TIMEOUT_MESSAGE))
            && (stored.value.status == Confirmed ==> stored.value.error == awaiting.error)
  {
    hide IntentKey, LockKey;
    KeysNeverCollide(awaiting.key, awaiting.op);
  }
}
