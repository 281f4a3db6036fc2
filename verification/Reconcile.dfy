/**
 The off-chain reconciliation: it folds the published events into balances and lists where they
 disagree with the chain.

 The script keeps its sums in JavaScript maps keyed by the string "tier|asset", iterates
 them in insertion order and takes the keys apart again by splitting at the bar. The
 specification sums events directly and knows no keys.
 */
module Reconcile {
  import opened Common
  import opened MapSums
  import opened VaultEvents

  datatype VaultTotals = VaultTotals(tier: Tier, totalBalance: int)

  datatype HarvestRecord = HarvestRecord(ledger: nat, harvested: int, bounty: int, remainder: int)

  datatype Mismatch =
    | NegativeAssetBalance(tierName: string, asset: string, actual: int)
    | AggregateBalance(tier: Tier, expected: int, actual: int)
    | HarvestSplit(record: HarvestRecord, expected: int, actual: int)

  // ---------------------------------------------------------------------------
  // String keys
  // ---------------------------------------------------------------------------

  function TierName(tier: Tier): (name: string)
    ensures '|' !in name
  {
    match tier
    case Flex => "Flex"
    case L3 => "L3"
    case L6 => "L6"
    case L12 => "L12"
  }

  function AssetKey(tier: Tier, asset: Address): string {
    TierName(tier) + "|" + asset
  }

  function EventKey(ev: VaultEvent): string {
    AssetKey(ev.tier, ev.asset)
  }

  /** JavaScript's `split('|')`. */
  function SplitBar(s: string): (parts: seq<string>)
    ensures 1 <= |parts|
  {
    if s == "" then [""]
    else
      var rest := SplitBar(s[1..]);
      if s[0] == '|' then [""] + rest else [[s[0]] + rest[0]] + rest[1..]
  }

  lemma {:induction false} SplitAtFirstBar(before: string, after: string)
    requires '|' !in before
    ensures SplitBar(before + "|" + after) == [before] + SplitBar(after)
  {
    var s := before + "|" + after;
    if before == "" {
      assert s[1..] == after;
    } else {
      SplitAtFirstBar(before[1..], after);
      assert s[1..] == before[1..] + "|" + after;
      assert [before[0]] + before[1..] == before;
    }
  }

  lemma {:induction false} SplitKeepsPlainText(s: string)
    ensures SplitBar(s)[0] == s <==> '|' !in s
    ensures |SplitBar(s)[0]| <= |s|
  {
    if s != "" {
      SplitKeepsPlainText(s[1..]);
      assert s == [s[0]] + s[1..];
      if s[0] != '|' {
        var first := SplitBar(s[1..])[0];
        assert SplitBar(s)[0] == [s[0]] + first;
        assert SplitBar(s)[0][1..] == first;
      }
    }
  }

  lemma TierNameInjective(t: Tier, u: Tier)
    requires TierName(t) == TierName(u)
    ensures t == u
  {
    assert |TierName(Flex)| == 4 && |TierName(L12)| == 3;
    assert TierName(L3)[1] == '3' && TierName(L6)[1] == '6';
  }

  /** Different (tier, asset) pairs never share a key, and the tier can be read back. */
  lemma AssetKeyInjective(t: Tier, a: Address, u: Tier, b: Address)
    ensures SplitBar(AssetKey(t, a)) == [TierName(t)] + SplitBar(a)
    ensures AssetKey(t, a) == AssetKey(u, b) ==> t == u && a == b
  {
    SplitAtFirstBar(TierName(t), a);
    SplitAtFirstBar(TierName(u), b);
    if AssetKey(t, a) == AssetKey(u, b) {
      TierNameInjective(t, u);
      assert a == AssetKey(t, a)[|TierName(t)| + 1..];
      assert b == AssetKey(u, b)[|TierName(u)| + 1..];
    }
  }

  /** The asset that a report names is the event's own asset exactly when it contains no bar. */
  lemma ReportedAssetIsExact(t: Tier, a: Address)
    ensures 2 <= |SplitBar(AssetKey(t, a))|
    ensures SplitBar(AssetKey(t, a))[0] == TierName(t)
    ensures SplitBar(AssetKey(t, a))[1] == a <==> '|' !in a
  {
    AssetKeyInjective(t, a, t, a);
    SplitKeepsPlainText(a);
  }

  // ---------------------------------------------------------------------------
  // Sums by key
  // ---------------------------------------------------------------------------

  /** The keys in order of first occurrence: the insertion order of the script's map. */
  function KeysOf(events: seq<VaultEvent>): seq<string> {
    if |events| == 0 then [] else
      var before, key := KeysOf(events[..|events| - 1]), EventKey(events[|events| - 1]);
      if key in before then before else before + [key]
  }

  function KeyFlow(events: seq<VaultEvent>, key: string): int {
    if |events| == 0 then 0 else
      var last := events[|events| - 1];
      KeyFlow(events[..|events| - 1], key) + if EventKey(last) == key then last.Delta() else 0
  }

  lemma {:induction false} KeysAreDistinct(events: seq<VaultEvent>)
    ensures Distinct(KeysOf(events))
  {
    if 0 < |events| {
      KeysAreDistinct(events[..|events| - 1]);
    }
  }

  lemma {:induction false} KeyHasEvent(events: seq<VaultEvent>, key: string) returns (i: nat)
    requires key in KeysOf(events)
    ensures i < |events| && EventKey(events[i]) == key
  {
    var n := |events| - 1;
    if EventKey(events[n]) == key {
      i := n;
    } else {
      i := KeyHasEvent(events[..n], key);
    }
  }

  /** Summing by key is summing by tier and asset. */
  lemma {:induction false} KeyFlowIsFlow(events: seq<VaultEvent>, t: Tier, a: Address)
    ensures KeyFlow(events, AssetKey(t, a)) == Flow(events, t, a)
  {
    if 0 < |events| {
      var last := events[|events| - 1];
      KeyFlowIsFlow(events[..|events| - 1], t, a);
      AssetKeyInjective(last.tier, last.asset, t, a);
    }
  }

  /** A key with no event has no flow. */
  lemma {:induction false} AbsentKeyFlow(events: seq<VaultEvent>, key: string)
    requires key !in KeysOf(events)
    ensures KeyFlow(events, key) == 0
  {
    if 0 < |events| {
      AbsentKeyFlow(events[..|events| - 1], key);
    }
  }

  /** The second grouping stage: the sums of those keys whose first part is the tier's name. */
  function GroupedFlow(events: seq<VaultEvent>, keys: seq<string>, name: string): int {
    if |keys| == 0 then 0 else
      var last := keys[|keys| - 1];
      GroupedFlow(events, keys[..|keys| - 1], name) + if SplitBar(last)[0] == name then KeyFlow(events, last) else 0
  }

  lemma {:induction false} GroupedFlowAbsent(events: seq<VaultEvent>, ev: VaultEvent, keys: seq<string>, name: string)
    requires EventKey(ev) !in keys
    ensures GroupedFlow(events + [ev], keys, name) == GroupedFlow(events, keys, name)
  {
    if 0 < |keys| {
      assert (events + [ev])[..|events|] == events;
      GroupedFlowAbsent(events, ev, keys[..|keys| - 1], name);
    }
  }

  lemma {:induction false} GroupedFlowPresent(events: seq<VaultEvent>, ev: VaultEvent, keys: seq<string>, name: string)
    requires Distinct(keys) && EventKey(ev) in keys
    ensures GroupedFlow(events + [ev], keys, name)
         == GroupedFlow(events, keys, name) + if SplitBar(EventKey(ev))[0] == name then ev.Delta() else 0
  {
    var before, last := keys[..|keys| - 1], keys[|keys| - 1];
    assert (events + [ev])[..|events|] == events;
    if last == EventKey(ev) {
      GroupedFlowAbsent(events, ev, before, name);
    } else {
      GroupedFlowPresent(events, ev, before, name);
    }
  }

  lemma GroupingStep(events: seq<VaultEvent>, ev: VaultEvent, name: string)
    ensures GroupedFlow(events + [ev], KeysOf(events + [ev]), name)
         == GroupedFlow(events, KeysOf(events), name) + if SplitBar(EventKey(ev))[0] == name then ev.Delta() else 0
  {
    var keys, key := KeysOf(events), EventKey(ev);
    assert (events + [ev])[..|events|] == events;
    if key in keys {
      KeysAreDistinct(events);
      GroupedFlowPresent(events, ev, keys, name);
    } else {
      AbsentKeyFlow(events, key);
      GroupedFlowAbsent(events, ev, keys, name);
      assert (keys + [key])[..|keys|] == keys;
    }
  }

  /** The two-stage grouping equals the direct signed sum of the tier's events. */
  lemma {:induction false} GroupingEqualsDirectSum(events: seq<VaultEvent>, t: Tier)
    ensures GroupedFlow(events, KeysOf(events), TierName(t)) == TierFlow(events, t)
  {
    if 0 < |events| {
      var before, ev := events[..|events| - 1], events[|events| - 1];
      FlowSnoc(events, t, "");
      GroupingEqualsDirectSum(before, t);
      hide *;
      assert events == before + [ev];
      GroupingStep(before, ev, TierName(t));
      KeyNamesTier(ev, t);
    }
  }

  lemma FlowSnoc(events: seq<VaultEvent>, t: Tier, a: Address)
    requires 0 < |events|
    ensures var before, last := events[..|events| - 1], events[|events| - 1];
            && Flow(events, t, a) == Flow(before, t, a) + (if last.tier == t && last.asset == a then last.Delta() else 0)
            && TierFlow(events, t) == TierFlow(before, t) + (if last.tier == t then last.Delta() else 0)
  {
  }

  lemma KeyNamesTier(ev: VaultEvent, t: Tier)
    ensures SplitBar(EventKey(ev))[0] == TierName(t) <==> ev.tier == t
  {
    AssetKeyInjective(ev.tier, ev.asset, ev.tier, ev.asset);
    if TierName(ev.tier) == TierName(t) {
      TierNameInjective(ev.tier, t);
    }
  }

  // ---------------------------------------------------------------------------
  // Order does not matter
  // ---------------------------------------------------------------------------

  lemma {:induction false} FlowWithout(events: seq<VaultEvent>, i: nat, t: Tier, a: Address)
    requires i < |events|
    ensures Flow(events, t, a)
         == Flow(events[..i] + events[i + 1..], t, a)
            + if events[i].tier == t && events[i].asset == a then events[i].Delta() else 0
    ensures TierFlow(events, t)
         == TierFlow(events[..i] + events[i + 1..], t) + if events[i].tier == t then events[i].Delta() else 0
  {
    var n := |events| - 1;
    if i == n {
      assert events[..i] + events[i + 1..] == events[..n];
    } else {
      var rest := events[..n][..i] + events[..n][i + 1..];
      FlowWithout(events[..n], i, t, a);
      FlowAppend(rest, events[n], t, a);
      FlowSnoc(events, t, a);
      hide *;
      assert events[..i] + events[i + 1..] == rest + [events[n]];
    }
  }

  /** Somewhere in a sequence with the same elements is the one wanted; without it they still agree. */
  lemma TakeOut(xs: seq<VaultEvent>, ys: seq<VaultEvent>) returns (i: nat)
    requires 0 < |xs| && multiset(xs) == multiset(ys)
    ensures i < |ys| && ys[i] == xs[|xs| - 1]
    ensures multiset(xs[..|xs| - 1]) == multiset(ys[..i] + ys[i + 1..])
  {
    var n := |xs| - 1;
    assert xs == xs[..n] + [xs[n]];
    assert xs[n] in multiset(ys);
    i :| i < |ys| && ys[i] == xs[n];
    MultisetWithout(ys, i);
    MultisetWithout(xs, n);
    assert xs[..n] + xs[n + 1..] == xs[..n];
    MultisetCancel(multiset(xs[..n]), multiset(ys[..i] + ys[i + 1..]), xs[n]);
  }

  lemma MultisetCancel<T>(a: multiset<T>, b: multiset<T>, x: T)
    requires a + multiset{x} == b + multiset{x}
    ensures a == b
  {
    assert a == a + multiset{x} - multiset{x};
    assert b == b + multiset{x} - multiset{x};
  }

  lemma MultisetWithout<T>(ys: seq<T>, i: nat)
    requires i < |ys|
    ensures multiset(ys) == multiset(ys[..i] + ys[i + 1..]) + multiset{ys[i]}
  {
    var left, right := ys[..i], ys[i + 1..];
    assert ys == left + [ys[i]] + right;
    assert multiset(ys) == multiset(left) + multiset{ys[i]} + multiset(right);
    assert multiset(left + right) == multiset(left) + multiset(right);
  }

  /** The sums depend only on which events occurred, not on their order. */
  lemma {:induction false} FlowIgnoresOrder(xs: seq<VaultEvent>, ys: seq<VaultEvent>, t: Tier, a: Address)
    requires multiset(xs) == multiset(ys)
    ensures Flow(xs, t, a) == Flow(ys, t, a)
    ensures TierFlow(xs, t) == TierFlow(ys, t)
  {
    if |xs| == 0 {
      assert |multiset(ys)| == 0;
    } else {
      var i := TakeOut(xs, ys);
      FlowIgnoresOrder(xs[..|xs| - 1], ys[..i] + ys[i + 1..], t, a);
      FlowWithout(ys, i, t, a);
    }
  }

  // ---------------------------------------------------------------------------
  // Picking in order
  // ---------------------------------------------------------------------------

  /** The places that are flagged. */
  function Picks(flags: seq<bool>): seq<nat> {
    if |flags| == 0 then [] else
      var n := |flags| - 1;
      Picks(flags[..n]) + if flags[n] then [n] else []
  }

  /** Each flagged place once, in order, and no other. */
  lemma {:induction false} PicksInOrder(flags: seq<bool>)
    ensures forall j, k :: 0 <= j < k < |Picks(flags)| ==> Picks(flags)[j] < Picks(flags)[k]
    ensures forall j :: 0 <= j < |Picks(flags)| ==> Picks(flags)[j] < |flags|
    ensures forall i: nat :: i < |flags| ==> (i in Picks(flags) <==> flags[i])
  {
    if 0 < |flags| {
      PicksInOrder(flags[..|flags| - 1]);
    }
  }

  // ---------------------------------------------------------------------------
  // The checks
  // ---------------------------------------------------------------------------

  method ComputeAssetBalances(events: seq<VaultEvent>) returns (balances: map<string, int>, order: seq<string>)
    ensures order == KeysOf(events)
    ensures balances.Keys == set key | key in order
    ensures forall t, a :: At(balances, AssetKey(t, a)) == Flow(events, t, a)
    ensures forall key :: key in order ==> balances[key] == KeyFlow(events, key)
  {
    balances, order := map[], [];
    for i := 0 to |events|
      invariant order == KeysOf(events[..i])
      invariant balances.Keys == set key | key in order
      invariant forall key :: key in order ==> balances[key] == KeyFlow(events[..i], key)
    {
      var ev := events[i];
      var key := EventKey(ev);
      assert events[..i + 1][..i] == events[..i];
      if key !in order {
        AbsentKeyFlow(events[..i], key);
        order := order + [key];
      }
      balances := balances[key := At(balances, key) + ev.Delta()];
    }
    assert events[..|events|] == events;
    forall t, a
      ensures At(balances, AssetKey(t, a)) == Flow(events, t, a)
    {
      KeyFlowIsFlow(events, t, a);
      if AssetKey(t, a) !in order {
        AbsentKeyFlow(events, AssetKey(t, a));
      }
    }
  }

  /** The report on one key, if its sum is negative. */
  function NegativeReport(events: seq<VaultEvent>, key: string): seq<Mismatch> {
    var parts := SplitBar(key);
    if KeyFlow(events, key) < 0 && 2 <= |parts|
    then [NegativeAssetBalance(parts[0], parts[1], KeyFlow(events, key))]
    else []
  }

  function NegativeReports(events: seq<VaultEvent>, keys: seq<string>): seq<Mismatch> {
    if |keys| == 0 then [] else
      NegativeReports(events, keys[..|keys| - 1]) + NegativeReport(events, keys[|keys| - 1])
  }

  method ReconcilePerAssetBalances(events: seq<VaultEvent>) returns (mismatches: seq<Mismatch>)
    ensures mismatches == NegativeReports(events, KeysOf(events))
    ensures mismatches == [] <==> forall t, a :: 0 <= Flow(events, t, a)
  {
    var balances, order := ComputeAssetBalances(events);
    mismatches := [];
    for i := 0 to |order|
      invariant mismatches == NegativeReports(events, order[..i])
    {
      var key := order[i];
      assert order[..i + 1][..i] == order[..i];
      KeyHasTwoParts(events, key);
      if balances[key] < 0 {
        var parts := SplitBar(key);
        mismatches := mismatches + [NegativeAssetBalance(parts[0], parts[1], balances[key])];
      }
    }
    assert order[..|order|] == order;
    NoReportsExactly(events);
  }

  lemma KeyHasTwoParts(events: seq<VaultEvent>, key: string)
    requires key in KeysOf(events)
    ensures 2 <= |SplitBar(key)|
  {
    var i := KeyHasEvent(events, key);
    ReportedAssetIsExact(events[i].tier, events[i].asset);
  }

  lemma {:induction false} ReportHasKey(events: seq<VaultEvent>, keys: seq<string>, m: Mismatch) returns (key: string)
    requires m in NegativeReports(events, keys)
    ensures key in keys && m in NegativeReport(events, key)
  {
    var n := |keys| - 1;
    if m in NegativeReport(events, keys[n]) {
      key := keys[n];
    } else {
      key := ReportHasKey(events, keys[..n], m);
    }
  }

  lemma {:induction false} KeyHasReport(events: seq<VaultEvent>, keys: seq<string>, key: string, m: Mismatch)
    requires key in keys && m in NegativeReport(events, key)
    ensures m in NegativeReports(events, keys)
  {
    var n := |keys| - 1;
    if keys[n] != key {
      KeyHasReport(events, keys[..n], key, m);
    }
  }

  lemma {:induction false} NoReportsExactly(events: seq<VaultEvent>)
    ensures NegativeReports(events, KeysOf(events)) == [] <==> forall t, a :: 0 <= Flow(events, t, a)
  {
    var reports := NegativeReports(events, KeysOf(events));
    if reports != [] {
      var key := ReportHasKey(events, KeysOf(events), reports[0]);
      var j := KeyHasEvent(events, key);
      KeyFlowIsFlow(events, events[j].tier, events[j].asset);
      assert Flow(events, events[j].tier, events[j].asset) < 0;
    }
    forall t, a | Flow(events, t, a) < 0
      ensures reports != []
    {
      NegativeIsReported(events, t, a);
    }
  }

  function Negatives(events: seq<VaultEvent>, keys: seq<string>): (flags: seq<bool>)
    ensures |flags| == |keys|
    ensures forall i :: 0 <= i < |flags| ==> (flags[i] <==> KeyFlow(events, keys[i]) < 0)
  {
    seq(|keys|, i requires 0 <= i < |keys| => KeyFlow(events, keys[i]) < 0)
  }

  /** One report for each negative key, in order of first occurrence. */
  lemma {:induction false} NegativeReportsInOrder(events: seq<VaultEvent>, keys: seq<string>)
    requires forall key :: key in keys ==> key in KeysOf(events)
    ensures var at := Picks(Negatives(events, keys));
            && |at| == |NegativeReports(events, keys)|
            && forall j :: 0 <= j < |at| ==>
                 at[j] < |keys| && NegativeReport(events, keys[at[j]]) == [NegativeReports(events, keys)[j]]
  {
    if 0 < |keys| {
      var n := |keys| - 1;
      NegativeReportsInOrder(events, keys[..n]);
      KeyHasTwoParts(events, keys[n]);
      OneReport(events, keys[n]);
      hide KeyFlow, KeysOf, SplitBar, NegativeReport;
      assert Negatives(events, keys)[..n] == Negatives(events, keys[..n]);
      PicksInOrder(Negatives(events, keys[..n]));
    }
  }

  lemma OneReport(events: seq<VaultEvent>, key: string)
    requires 2 <= |SplitBar(key)|
    ensures NegativeReport(events, key) == if KeyFlow(events, key) < 0
              then [NegativeAssetBalance(SplitBar(key)[0], SplitBar(key)[1], KeyFlow(events, key))] else []
  {
  }

  lemma NegativeIsReported(events: seq<VaultEvent>, t: Tier, a: Address)
    requires Flow(events, t, a) < 0
    ensures NegativeAssetBalance(TierName(t), SplitBar(a)[0], Flow(events, t, a)) in NegativeReports(events, KeysOf(events))
  {
    var key := AssetKey(t, a);
    KeyFlowIsFlow(events, t, a);
    AssetKeyInjective(t, a, t, a);
    if key !in KeysOf(events) {
      AbsentKeyFlow(events, key);
    }
    KeyHasReport(events, KeysOf(events), key, NegativeAssetBalance(TierName(t), SplitBar(a)[0], Flow(events, t, a)));
  }

  /** For assets without a bar in their name, a report is listed exactly for each pair that went negative. */
  lemma {:induction false} NegativeReportsAreExact(events: seq<VaultEvent>, t: Tier, a: Address, actual: int)
    requires '|' !in a && forall i :: 0 <= i < |events| ==> '|' !in events[i].asset
    ensures NegativeAssetBalance(TierName(t), a, actual) in NegativeReports(events, KeysOf(events))
       <==> actual == Flow(events, t, a) && actual < 0
  {
    var m := NegativeAssetBalance(TierName(t), a, actual);
    SplitKeepsPlainText(a);
    if m in NegativeReports(events, KeysOf(events)) {
      var key := ReportHasKey(events, KeysOf(events), m);
      var j := KeyHasEvent(events, key);
      ReportedAssetIsExact(events[j].tier, events[j].asset);
      TierNameInjective(events[j].tier, t);
      KeyFlowIsFlow(events, t, a);
    }
    if actual == Flow(events, t, a) && actual < 0 {
      NegativeIsReported(events, t, a);
    }
  }

  /** Exactly the vault totals that differ from the signed sum of their tier's events, in the order given. */
  function AggregateReports(events: seq<VaultEvent>, totals: seq<VaultTotals>): seq<Mismatch> {
    if |totals| == 0 then [] else
      var last := totals[|totals| - 1];
      AggregateReports(events, totals[..|totals| - 1])
      + if TierFlow(events, last.tier) != last.totalBalance
        then [AggregateBalance(last.tier, last.totalBalance, TierFlow(events, last.tier))]
        else []
  }

  /** The report on one total, if the events say otherwise. */
  predicate ReportOn(events: seq<VaultEvent>, total: VaultTotals, m: Mismatch) {
    && TierFlow(events, total.tier) != total.totalBalance
    && m == AggregateBalance(total.tier, total.totalBalance, TierFlow(events, total.tier))
  }

  /** A report is listed if and only if it is the report on one of the totals. */
  lemma {:induction false} AggregateReportsExactly(events: seq<VaultEvent>, totals: seq<VaultTotals>, m: Mismatch)
    ensures m in AggregateReports(events, totals) <==> exists i :: 0 <= i < |totals| && ReportOn(events, totals[i], m)
  {
    if 0 < |totals| {
      var n := |totals| - 1;
      AggregateReportsExactly(events, totals[..n], m);
      assert forall i :: 0 <= i < n ==> totals[..n][i] == totals[i];
    }
  }

  function Differ(events: seq<VaultEvent>, totals: seq<VaultTotals>): (flags: seq<bool>)
    ensures |flags| == |totals|
    ensures forall i :: 0 <= i < |flags| ==> (flags[i] <==> TierFlow(events, totals[i].tier) != totals[i].totalBalance)
  {
    seq(|totals|, i requires 0 <= i < |totals| => TierFlow(events, totals[i].tier) != totals[i].totalBalance)
  }

  /** One report for each total that differs, in the order given. */
  lemma {:induction false} AggregateReportsInOrder(events: seq<VaultEvent>, totals: seq<VaultTotals>)
    ensures var at := Picks(Differ(events, totals));
            && |at| == |AggregateReports(events, totals)|
            && forall j :: 0 <= j < |at| ==>
                 at[j] < |totals| && ReportOn(events, totals[at[j]], AggregateReports(events, totals)[j])
  {
    if 0 < |totals| {
      var n := |totals| - 1;
      AggregateReportsInOrder(events, totals[..n]);
      hide TierFlow;
      assert Differ(events, totals)[..n] == Differ(events, totals[..n]);
      PicksInOrder(Differ(events, totals[..n]));
    }
  }

  method ReconcileAggregateBalances(events: seq<VaultEvent>, vaultTotals: seq<VaultTotals>)
    returns (mismatches: seq<Mismatch>)
    ensures mismatches == AggregateReports(events, vaultTotals)
  {
    var perAsset, order := ComputeAssetBalances(events);
    var byTier: map<string, int> := map[];
    for i := 0 to |order|
      invariant forall name :: At(byTier, name) == GroupedFlow(events, order[..i], name)
    {
      var key := order[i];
      assert order[..i + 1][..i] == order[..i];
      var name := SplitBar(key)[0];
      byTier := byTier[name := At(byTier, name) + perAsset[key]];
    }
    assert order[..|order|] == order;
    mismatches := [];
    for i := 0 to |vaultTotals|
      invariant mismatches == AggregateReports(events, vaultTotals[..i])
    {
      var total := vaultTotals[i];
      assert vaultTotals[..i + 1][..i] == vaultTotals[..i];
      GroupingEqualsDirectSum(events, total.tier);
      var computed := At(byTier, TierName(total.tier));
      if computed != total.totalBalance {
        mismatches := mismatches + [AggregateBalance(total.tier, total.totalBalance, computed)];
      }
    }
    assert vaultTotals[..|vaultTotals|] == vaultTotals;
  }

  /** A harvest adds up when its two parts make the whole; with nothing harvested both parts must be zero. */
  predicate AddsUp(r: HarvestRecord) {
    if r.harvested == 0 then r.bounty == 0 && r.remainder == 0 else r.bounty + r.remainder == r.harvested
  }

  /** What that means for sums that cannot be negative, as the contract's cannot. */
  lemma AddsUpMeans(r: HarvestRecord)
    requires 0 <= r.bounty && 0 <= r.remainder
    ensures AddsUp(r) <==> r.bounty + r.remainder == r.harvested
  {
  }

  /** Parts that cancel out are still reported when nothing was harvested. */
  lemma ZeroHarvestPaysNothing(r: HarvestRecord)
    requires r.harvested == 0
    ensures AddsUp(r) <==> r.bounty == 0 && r.remainder == 0
  {
  }

  function HarvestReports(records: seq<HarvestRecord>): seq<Mismatch> {
    if |records| == 0 then [] else
      var last := records[|records| - 1];
      HarvestReports(records[..|records| - 1])
      + if AddsUp(last) then [] else [HarvestSplit(last, last.harvested, last.bounty + last.remainder)]
  }

  function Wrong(records: seq<HarvestRecord>): (flags: seq<bool>)
    ensures |flags| == |records|
    ensures forall i :: 0 <= i < |flags| ==> (flags[i] <==> !AddsUp(records[i]))
  {
    seq(|records|, i requires 0 <= i < |records| => !AddsUp(records[i]))
  }

  /** One report for each record that does not add up, in the order given. */
  lemma {:induction false} HarvestReportsInOrder(records: seq<HarvestRecord>)
    ensures var at := Picks(Wrong(records));
            && |at| == |HarvestReports(records)|
            && forall j :: 0 <= j < |at| ==>
                 && at[j] < |records|
                 && var r := records[at[j]]; HarvestReports(records)[j] == HarvestSplit(r, r.harvested, r.bounty + r.remainder)
  {
    if 0 < |records| {
      var n := |records| - 1;
      HarvestReportsInOrder(records[..n]);
      hide AddsUp;
      assert Wrong(records)[..n] == Wrong(records[..n]);
      PicksInOrder(Wrong(records[..n]));
    }
  }

  method ReconcileHarvestSplits(records: seq<HarvestRecord>) returns (mismatches: seq<Mismatch>)
    ensures mismatches == HarvestReports(records)
    ensures forall m :: m in mismatches <==>
              exists i :: 0 <= i < |records| && !AddsUp(records[i])
                          && m == HarvestSplit(records[i], records[i].harvested, records[i].bounty + records[i].remainder)
    ensures |mismatches| <= |records|
  {
    mismatches := [];
    for i := 0 to |records|
      invariant mismatches == HarvestReports(records[..i])
      invariant |mismatches| <= i
      invariant forall m :: m in mismatches <==>
                  exists j :: 0 <= j < i && !AddsUp(records[j])
                              && m == HarvestSplit(records[j], records[j].harvested, records[j].bounty + records[j].remainder)
    {
      var r := records[i];
      assert records[..i + 1][..i] == records[..i];
      if r.harvested == 0 {
        if r.bounty != 0 || r.remainder != 0 {
          mismatches := mismatches + [HarvestSplit(r, 0, r.bounty + r.remainder)];
        }
        continue;
      }
      if r.bounty + r.remainder != r.harvested {
        mismatches := mismatches + [HarvestSplit(r, r.harvested, r.bounty + r.remainder)];
      }
    }
    assert records[..|records|] == records;
  }
}
