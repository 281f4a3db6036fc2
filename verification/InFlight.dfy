/**
 Sharing one submission among concurrent calls with the same idempotency key.

 A promise is named by the order in which `doInvoke` runs were started. Settling a promise and
 running its release handler are separate steps, and any other call may come between them.
 */
module InFlight {
  import opened Options

  /** How a submission ends: with a transaction hash or with an error. */
  datatype Ending = Hash(hash: string) | Error(message: string)

  /** `released` is set once the handler chained to the promise has run. */
  datatype Submission = Submission(key: string, request: string, result: Option<Ending>, released: bool)

  /** A call remembers what it asked for and whose promise it was given. */
  datatype Call = Call(key: string, request: string, promise: nat)

  datatype Pipeline = Pipeline(submissions: seq<Submission>, inFlight: map<string, nat>, calls: seq<Call>)

  datatype Action =
    | Invoke(key: string, request: string)
    | Settle(promise: nat, result: Ending)
    | Release(promise: nat)

  const START := Pipeline([], map[], [])

  /** A missing key and the empty string are both falsy: no sharing. */
  predicate Keyed(key: string) {
    key != ""
  }

  function InvokeStep(w: Pipeline, key: string, request: string): Pipeline {
    if Keyed(key) && key in w.inFlight then
      w.(calls := w.calls + [Call(key, request, w.inFlight[key])])
    else
      var id := |w.submissions|;
      Pipeline(
        w.submissions + [Submission(key, request, None, false)],
        if Keyed(key) then w.inFlight[key := id] else w.inFlight,
        w.calls + [Call(key, request, id)])
  }

  function SettleStep(w: Pipeline, id: nat, result: Ending): Pipeline {
    if id < |w.submissions| && w.submissions[id].result.None?
    then w.(submissions := w.submissions[id := w.submissions[id].(result := Some(result))])
    else w
  }

  /** The handler of a settled promise runs once; it removes the entry only if it is its own. */
  function ReleaseStep(w: Pipeline, id: nat): Pipeline {
    if id < |w.submissions| && w.submissions[id].result.Some? && Keyed(w.submissions[id].key) && !w.submissions[id].released then
      var key := w.submissions[id].key;
      w.(submissions := w.submissions[id := w.submissions[id].(released := true)],
         inFlight := if key in w.inFlight && w.inFlight[key] == id then w.inFlight - {key} else w.inFlight)
    else w
  }

  function Step(w: Pipeline, a: Action): Pipeline {
    match a
    case Invoke(key, request) => InvokeStep(w, key, request)
    case Settle(id, result) => SettleStep(w, id, result)
    case Release(id) => ReleaseStep(w, id)
  }

  function Run(w: Pipeline, actions: seq<Action>): Pipeline
    decreases |actions|
  {
    if actions == [] then w else Run(Step(w, actions[0]), actions[1..])
  }

  // ---------------------------------------------------------------------------
  // The pipeline object
  // ---------------------------------------------------------------------------

  class TransactionPipeline {
    var submissions: seq<Submission>
    var inFlight: map<string, nat>
    ghost var calls: seq<Call>

    ghost function State(): Pipeline
      reads this
    {
      Pipeline(submissions, inFlight, calls)
    }

    constructor ()
      ensures State() == START
    {
      submissions := [];
      inFlight := map[];
      calls := [];
    }

    method Invoke(key: string, request: string) returns (promise: nat)
      modifies this
      ensures State() == InvokeStep(old(State()), key, request)
      ensures calls == old(calls) + [Call(key, request, promise)]
    {
      if key != "" && key in inFlight {
        calls := calls + [Call(key, request, inFlight[key])];
        return inFlight[key];
      }
      promise := |submissions|;
      submissions := submissions + [Submission(key, request, None, false)];
      if key != "" {
        inFlight := inFlight[key := promise];
      }
      calls := calls + [Call(key, request, promise)];
    }

    /** The handler that `invoke` chains to the promise it stored. */
    method Release(promise: nat)
      requires promise < |submissions| && submissions[promise].result.Some?
      requires submissions[promise].key != "" && !submissions[promise].released
      modifies this
      ensures State() == ReleaseStep(old(State()), promise)
    {
      var key := submissions[promise].key;
      if key in inFlight && inFlight[key] == promise {
        inFlight := inFlight - {key};
      }
      submissions := submissions[promise := submissions[promise].(released := true)];
    }
  }

  // ---------------------------------------------------------------------------
  // What every step keeps
  // ---------------------------------------------------------------------------

  /** Between its start and its release, a keyed submission is shared with later calls. */
  predicate Shared(w: Pipeline, id: nat) {
    id < |w.submissions| && Keyed(w.submissions[id].key) && !w.submissions[id].released
  }

  /** The map holds just the shared submissions, each under its own key. */
  ghost predicate MapIsExact(w: Pipeline) {
    && (forall key :: key in w.inFlight ==> Shared(w, w.inFlight[key]) && w.submissions[w.inFlight[key]].key == key)
    && (forall id: nat :: Shared(w, id) ==> w.submissions[id].key in w.inFlight && w.inFlight[w.submissions[id].key] == id)
  }

  /** Only settled submissions are released, and each call was given one under its own key. */
  ghost predicate Sound(w: Pipeline) {
    && (forall id :: 0 <= id < |w.submissions| && w.submissions[id].released ==> w.submissions[id].result.Some?)
    && (forall i :: 0 <= i < |w.calls| ==>
         w.calls[i].promise < |w.submissions| && w.submissions[w.calls[i].promise].key == w.calls[i].key)
  }

  lemma InvokeKeeps(w: Pipeline, key: string, request: string)
    requires MapIsExact(w) && Sound(w)
    ensures MapIsExact(InvokeStep(w, key, request)) && Sound(InvokeStep(w, key, request))
  {
    var w' := InvokeStep(w, key, request);
    forall id: nat | Shared(w', id)
      ensures w'.submissions[id].key in w'.inFlight && w'.inFlight[w'.submissions[id].key] == id
    {
      assert id < |w.submissions| ==> Shared(w, id);
    }
  }

  lemma SettleKeeps(w: Pipeline, id: nat, result: Ending)
    requires MapIsExact(w) && Sound(w)
    ensures MapIsExact(SettleStep(w, id, result)) && Sound(SettleStep(w, id, result))
  {
    var w' := SettleStep(w, id, result);
    assert forall i: nat :: Shared(w', i) ==> Shared(w, i) && w'.submissions[i].key == w.submissions[i].key;
  }

  lemma ReleaseKeeps(w: Pipeline, id: nat)
    requires MapIsExact(w) && Sound(w)
    ensures MapIsExact(ReleaseStep(w, id)) && Sound(ReleaseStep(w, id))
  {
    var w' := ReleaseStep(w, id);
    assert forall i: nat :: Shared(w', i) ==> Shared(w, i) && (w' == w || i != id) && w'.submissions[i].key == w.submissions[i].key;
  }

  lemma InvariantStep(w: Pipeline, a: Action)
    requires MapIsExact(w) && Sound(w)
    ensures MapIsExact(Step(w, a)) && Sound(Step(w, a))
  {
    hide MapIsExact, Sound, InvokeStep, SettleStep, ReleaseStep;
    match a
    case Invoke(key, request) => InvokeKeeps(w, key, request);
    case Settle(id, result) => SettleKeeps(w, id, result);
    case Release(id) => ReleaseKeeps(w, id);
  }

  lemma {:induction false} InvariantRun(w: Pipeline, actions: seq<Action>)
    requires MapIsExact(w) && Sound(w)
    ensures MapIsExact(Run(w, actions)) && Sound(Run(w, actions))
    decreases |actions|
  {
    if actions != [] {
      InvariantStep(w, actions[0]);
      InvariantRun(Step(w, actions[0]), actions[1..]);
    }
  }

  lemma ReachableInvariant(actions: seq<Action>)
    ensures MapIsExact(Run(START, actions)) && Sound(Run(START, actions))
  {
    InvariantRun(START, actions);
  }

  // ---------------------------------------------------------------------------
  // What callers get
  // ---------------------------------------------------------------------------

  /** Two submissions under one key are never running at the same time. */
  lemma SubmissionsNeverOverlap(actions: seq<Action>, i: nat, j: nat)
    requires var w := Run(START, actions);
             && i < |w.submissions| && j < |w.submissions|
             && w.submissions[i].result.None? && w.submissions[j].result.None?
             && w.submissions[i].key == w.submissions[j].key && Keyed(w.submissions[i].key)
    ensures i == j
  {
    var w := Run(START, actions);
    ReachableInvariant(actions);
    assert Shared(w, i) && Shared(w, j);
  }

  /** A release removes its own entry and no other: the identity test never says no. */
  lemma ReleaseRemovesItsOwnEntry(actions: seq<Action>, id: nat)
    requires Shared(Run(START, actions), id) && Run(START, actions).submissions[id].result.Some?
    ensures var w := Run(START, actions);
            && w.submissions[id].key in w.inFlight && w.inFlight[w.submissions[id].key] == id
            && ReleaseStep(w, id).inFlight == w.inFlight - {w.submissions[id].key}
  {
    ReachableInvariant(actions);
  }

  /** A call joins a submission exactly if one with its key is still shared; otherwise it starts its own. */
  lemma {:induction false} CallsJoinExactlyWhileShared(actions: seq<Action>, key: string, request: string)
    ensures var w := Run(START, actions);
            var w' := InvokeStep(w, key, request);
            var given := w'.calls[|w.calls|].promise;
            if exists id: nat :: Shared(w, id) && w.submissions[id].key == key
            then Shared(w, given) && w.submissions[given].key == key && w'.submissions == w.submissions
            else given == |w.submissions| && w'.submissions == w.submissions + [Submission(key, request, None, false)]
  {
    ReachableInvariant(actions);
    var w := Run(START, actions);
    assert key in w.inFlight ==> Shared(w, w.inFlight[key]) && w.submissions[w.inFlight[key]].key == key;
    if id: nat :| Shared(w, id) && w.submissions[id].key == key {
      assert w.inFlight[key] == id;
    }
  }

  /** No step but its own release ends the sharing of a submission. */
  lemma {:induction false} SharedUntilReleased(w: Pipeline, actions: seq<Action>, id: nat)
    requires MapIsExact(w) && Sound(w) && Shared(w, id) && Release(id) !in actions
    ensures Shared(Run(w, actions), id) && Run(w, actions).submissions[id].key == w.submissions[id].key
    decreases |actions|
  {
    if actions != [] {
      InvariantStep(w, actions[0]);
      SharedUntilReleased(Step(w, actions[0]), actions[1..], id);
    }
  }

  /** So any two calls with one key get the same promise, unless that promise was released between them. */
  lemma CallsShareThePromise(w: Pipeline, first: string, between: seq<Action>, second: string, key: string)
    requires MapIsExact(w) && Sound(w) && Keyed(key)
    requires Release(InvokeStep(w, key, first).calls[|w.calls|].promise) !in between
    ensures var w1 := InvokeStep(w, key, first);
            var w2 := Run(w1, between);
            InvokeStep(w2, key, second).calls[|w2.calls|].promise == w1.calls[|w.calls|].promise
  {
    var w1 := InvokeStep(w, key, first);
    var id := w1.calls[|w.calls|].promise;
    InvariantStep(w, Invoke(key, first));
    assert w1 == Step(w, Invoke(key, first));
    assert Shared(w1, id) && w1.submissions[id].key == key;
    SharedUntilReleased(w1, between, id);
    InvariantRun(w1, between);
  }

  /** Once a promise is settled its result never changes, so all who share it see the same. */
  lemma {:induction false} ResultsAreFinal(w: Pipeline, actions: seq<Action>, id: nat)
    requires id < |w.submissions|
    ensures id < |Run(w, actions).submissions|
    ensures w.submissions[id].result.Some? ==> Run(w, actions).submissions[id].result == w.submissions[id].result
    ensures Run(w, actions).submissions[id].key == w.submissions[id].key
    ensures Run(w, actions).submissions[id].request == w.submissions[id].request
    decreases |actions|
  {
    if actions != [] {
      ResultsAreFinal(Step(w, actions[0]), actions[1..], id);
    }
  }

  /** After a release, the next call with the key starts afresh: nothing is remembered. */
  lemma ReleasedKeysStartAfresh(actions: seq<Action>, id: nat, request: string)
    requires Shared(Run(START, actions), id) && Run(START, actions).submissions[id].result.Some?
    ensures var w := ReleaseStep(Run(START, actions), id);
            var key := w.submissions[id].key;
            InvokeStep(w, key, request).calls[|w.calls|].promise == |w.submissions|
  {
    ReachableInvariant(actions);
  }

  /**
   A call gets the result of its own request if and only if no submission shared under its key
   is for another request.
   */
  lemma {:induction false} OwnRequestExactly(actions: seq<Action>, key: string, request: string)
    ensures var w := Run(START, actions);
            var w' := InvokeStep(w, key, request);
            var given := w'.calls[|w.calls|].promise;
            && given < |w'.submissions|
            && (w'.submissions[given].request == request
                <==> forall id: nat :: Shared(w, id) && w.submissions[id].key == key ==> w.submissions[id].request == request)
  {
    ReachableInvariant(actions);
    var w := Run(START, actions);
    assert key in w.inFlight ==> Shared(w, w.inFlight[key]) && w.submissions[w.inFlight[key]].key == key;
  }

  /** It happens: with the same key and another request, the second caller is given the first request's promise. */
  lemma SharedCallsDropTheirRequest(key: string, first: string, second: string)
    requires Keyed(key)
    ensures var w := Run(START, [Invoke(key, first), Invoke(key, second)]);
            && w.calls == [Call(key, first, 0), Call(key, second, 0)]
            && w.submissions == [Submission(key, first, None, false)]
  {
    var a, b := Invoke(key, first), Invoke(key, second);
    var w1 := Step(START, a);
    assert w1 == Pipeline([Submission(key, first, None, false)], map[key := 0], [Call(key, first, 0)]);
    assert [a, b][1..] == [b] && [b][1..] == [];
    assert Run(START, [a, b]) == Run(w1, [b]) == Run(Step(w1, b), []) == Step(w1, b);
  }

  /** Without a key every call starts a run of its own, and no later call joins it. */
  lemma UnkeyedCallsStandAlone(w: Pipeline, request: string)
    ensures var w' := InvokeStep(w, "", request);
            && w'.submissions == w.submissions + [Submission("", request, None, false)]
            && w'.calls == w.calls + [Call("", request, |w.submissions|)]
            && w'.inFlight == w.inFlight
  {
  }

  /** The first settling decides, a later one changes nothing, and settling touches nothing else. */
  lemma FirstSettlingDecides(w: Pipeline, id: nat, result: Ending)
    requires id < |w.submissions|
    ensures var w' := SettleStep(w, id, result);
            && |w'.submissions| == |w.submissions|
            && w'.submissions[id].result == (if w.submissions[id].result.Some? then w.submissions[id].result else Some(result))
            && (forall i :: 0 <= i < |w.submissions| && i != id ==> w'.submissions[i] == w.submissions[i])
            && w'.inFlight == w.inFlight && w'.calls == w.calls
  {
  }
}
