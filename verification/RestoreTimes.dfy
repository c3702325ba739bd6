/**
 * When in a run a restore got its information: one point in the run for its metadata, for each of its lookups,
 * for the start of the fetch and for each vault, in this order. What it brings back is a matter of the state
 * at these points.
 */
module RestoreTimes {
  import opened Common
  import opened VaultKeys
  import opened VllmVault
  import opened Protocol
  import opened Restores

  /** Positions of steps in a run: `looked[p]` is that of the lookup for planned position `p`. */
  datatype Times = Times(meta: nat, looked: seq<nat>, start: nat, kv: nat, ssm: nat)

  /** Step `n` of the run is this one. */
  ghost predicate Took(c: Config, steps: seq<Step>, n: nat, step: Step) {
    n < |steps| && steps[n] == step && Execute(c, steps[..n]).Some?
  }

  /** The state in which step `n` was taken. */
  ghost function Before(c: Config, steps: seq<Step>, n: nat): State {
    if n <= |steps| && Execute(c, steps[..n]).Some? then Execute(c, steps[..n]).value else Init()
  }

  lemma TookGrows(c: Config, steps: seq<Step>, n: nat, step: Step)
    requires steps != [] && Took(c, steps[..|steps| - 1], n, step)
    ensures Took(c, steps, n, step) && Before(c, steps, n) == Before(c, steps[..|steps| - 1], n)
  {
    hide Execute;
    assert steps[..|steps| - 1][..n] == steps[..n];
  }

  /** The planning was over, and the plan's keys are what its records said when the metadata was built. */
  ghost predicate MetaTimed(c: Config, steps: seq<Step>, l: nat, plan: seq<RecId>, keys: seq<string>, t: Times) {
    var s := Before(c, steps, t.meta);
    Took(c, steps, t.meta, BuildMeta(l)) && l < |s.loads| && s.loads[l] == Planned(plan) && keys == KeysOf(s.recs, plan)
  }

  /** Lookup `i` came after the metadata and the lookups before it, and this is what the registry answered. */
  ghost predicate LookTimed(c: Config, steps: seq<Step>, l: nat, keys: seq<string>, found: seq<Option<RecId>>, t: Times, i: nat) {
    && i < |found| && i < |keys| && i < |t.looked|
    && Took(c, steps, t.looked[i], LookUpOne(l)) && t.meta < t.looked[i] && (i > 0 ==> t.looked[i - 1] < t.looked[i])
    && found[i] == Lookup(Before(c, steps, t.looked[i]), keys[i])
  }

  /** The fetched keys are what the records said when the fetch was prepared. */
  ghost predicate StartTimed(c: Config, steps: seq<Step>, l: nat, f: Fetch, t: Times) {
    && Took(c, steps, t.start, StartExecute(l)) && t.meta < t.start && (forall i :: 0 <= i < |t.looked| ==> t.looked[i] < t.start)
    && f.kvKeys == KeysOf(Before(c, steps, t.start).recs, f.kv)
    && f.ssmKeys == KeysOf(Before(c, steps, t.start).recs, f.ssm)
  }

  /** The vault held exactly this when it was asked. */
  ghost predicate SeenTimed(c: Config, steps: seq<Step>, l: nat, ssm: bool, seen: Option<map<string, Block>>, start: nat, n: nat) {
    seen.Some? ==>
      && Took(c, steps, n, if ssm then FetchSsm(l) else FetchKv(l)) && start < n
      && seen.value == VaultOf(c, Before(c, steps, n), ssm).store
  }

  ghost predicate FetchTimed(c: Config, steps: seq<Step>, l: nat, f: Fetch, t: Times) {
    StartTimed(c, steps, l, f, t) && SeenTimed(c, steps, l, false, f.kvSeen, t.start, t.kv)
    && SeenTimed(c, steps, l, true, f.ssmSeen, t.start, t.ssm)
  }

  ghost predicate AllLooked(c: Config, steps: seq<Step>, l: nat, keys: seq<string>, found: seq<Option<RecId>>, t: Times) {
    |t.looked| == |found| && forall i :: 0 <= i < |found| ==> LookTimed(c, steps, l, keys, found, t, i)
  }

  ghost predicate Timed(c: Config, steps: seq<Step>, l: nat, load: Load, t: Times) {
    load.Planning? || load.Planned? || (
      && MetaTimed(c, steps, l, load.plan, load.keys, t) && AllLooked(c, steps, l, load.keys, load.found, t)
      && (!load.LookingUp? ==> FetchTimed(c, steps, l, load.fetch, t)))
  }

  // ---- every load has its times ------------------------------------------------------------------

  lemma LooksGrow(c: Config, steps: seq<Step>, l: nat, keys: seq<string>, found: seq<Option<RecId>>, t: Times)
    requires steps != [] && AllLooked(c, steps[..|steps| - 1], l, keys, found, t)
    ensures AllLooked(c, steps, l, keys, found, t)
  {
    hide Took, Before, Lookup;
    var init := steps[..|steps| - 1];
    forall i | 0 <= i < |found| ensures LookTimed(c, steps, l, keys, found, t, i) {
      assert LookTimed(c, init, l, keys, found, t, i);
      TookGrows(c, steps, t.looked[i], LookUpOne(l));
    }
  }

  lemma FetchGrows(c: Config, steps: seq<Step>, l: nat, f: Fetch, t: Times)
    requires steps != [] && FetchTimed(c, steps[..|steps| - 1], l, f, t)
    ensures FetchTimed(c, steps, l, f, t)
  {
    hide Took, Before, KeysOf, VaultOf;
    TookGrows(c, steps, t.start, StartExecute(l));
    if f.kvSeen.Some? {
      TookGrows(c, steps, t.kv, FetchKv(l));
    }
    if f.ssmSeen.Some? {
      TookGrows(c, steps, t.ssm, FetchSsm(l));
    }
  }

  lemma TimedGrows(c: Config, steps: seq<Step>, l: nat, load: Load, t: Times)
    requires steps != [] && Timed(c, steps[..|steps| - 1], l, load, t)
    ensures Timed(c, steps, l, load, t)
  {
    hide Took, Before, KeysOf, AllLooked, FetchTimed;
    if !load.Planning? && !load.Planned? {
      TookGrows(c, steps, t.meta, BuildMeta(l));
      LooksGrow(c, steps, l, load.keys, load.found, t);
      if !load.LookingUp? {
        FetchGrows(c, steps, l, load.fetch, t);
      }
    }
  }

  /** The points of a lookup come before the last step of the run. */
  lemma LooksAreEarlier(c: Config, steps: seq<Step>, l: nat, keys: seq<string>, found: seq<Option<RecId>>, t: Times)
    requires steps != [] && AllLooked(c, steps[..|steps| - 1], l, keys, found, t)
    ensures forall i :: 0 <= i < |t.looked| ==> t.looked[i] < |steps| - 1
  {
    hide Execute, Before;
    forall i | 0 <= i < |t.looked| ensures t.looked[i] < |steps| - 1 {
      assert LookTimed(c, steps[..|steps| - 1], l, keys, found, t, i);
    }
  }

  lemma LookOneMore(c: Config, steps: seq<Step>, s: State, l: nat, keys: seq<string>, found: seq<Option<RecId>>, t: Times)
    requires steps != [] && Execute(c, steps[..|steps| - 1]) == Some(s) && steps[|steps| - 1] == LookUpOne(l)
    requires AllLooked(c, steps[..|steps| - 1], l, keys, found, t) && t.meta < |steps| - 1 && |found| < |keys|
    ensures AllLooked(c, steps, l, keys, found + [Lookup(s, keys[|found|])], t.(looked := t.looked + [|steps| - 1]))
  {
    hide Execute, Lookup;
    LooksGrow(c, steps, l, keys, found, t);
    LooksAreEarlier(c, steps, l, keys, found, t);
    var found', t' := found + [Lookup(s, keys[|found|])], t.(looked := t.looked + [|steps| - 1]);
    forall i | 0 <= i < |found'| ensures LookTimed(c, steps, l, keys, found', t', i) {
      if i < |found| {
        assert LookTimed(c, steps, l, keys, found, t, i);
      }
    }
  }

  /** What the last step of a run adds to a load's times. */
  lemma TimesStep(c: Config, steps: seq<Step>, s: State, l: nat, t: Times) returns (t': Times)
    requires steps != [] && Execute(c, steps[..|steps| - 1]) == Some(s) && l < |s.loads|
    requires Enabled(s, steps[|steps| - 1]) && Touches(steps[|steps| - 1], l)
    requires Timed(c, steps[..|steps| - 1], l, s.loads[l], t)
    ensures l < |Apply(c, s, steps[|steps| - 1]).loads| && Timed(c, steps, l, Apply(c, s, steps[|steps| - 1]).loads[l], t')
  {
    hide Execute, KeysOf, Lookup, AllEntries, AnyMismatch, OfKind, Present, AllLooked, StartTimed, SeenTimed;
    var n, load := |steps| - 1, s.loads[l];
    t' := t;
    TimedGrows(c, steps, l, load, t);
    match steps[n]
    case PlanOne(_) =>
    case BuildMeta(_) =>
      t' := Times(n, [], 0, 0, 0);
      NothingLooked(c, steps, l, KeysOf(s.recs, load.plan), t');
    case LookUpOne(_) =>
      t' := t.(looked := t.looked + [n]);
      LookOneMore(c, steps, s, l, load.keys, load.found, t);
    case StartExecute(_) =>
      t' := t.(start := n);
      FetchStarts(c, steps, s, l, load, t);
    case FetchKv(_) =>
      t' := t.(kv := n);
      FetchSees(c, steps, s, l, load, t, false);
    case FetchSsm(_) =>
      t' := t.(ssm := n);
      FetchSees(c, steps, s, l, load, t, true);
    case Decode(_) =>
  }

  lemma NothingLooked(c: Config, steps: seq<Step>, l: nat, keys: seq<string>, t: Times)
    requires t.looked == []
    ensures AllLooked(c, steps, l, keys, [], t)
  {
  }

  lemma SameLooks(c: Config, steps: seq<Step>, l: nat, keys: seq<string>, found: seq<Option<RecId>>, t: Times, t': Times)
    requires AllLooked(c, steps, l, keys, found, t) && t'.looked == t.looked && t'.meta == t.meta
    ensures AllLooked(c, steps, l, keys, found, t')
  {
    hide Took, Before, Lookup;
    forall i | 0 <= i < |found| ensures LookTimed(c, steps, l, keys, found, t', i) {
      assert LookTimed(c, steps, l, keys, found, t, i);
    }
  }

  lemma FetchStarts(c: Config, steps: seq<Step>, s: State, l: nat, load: Load, t: Times)
    requires steps != [] && Execute(c, steps[..|steps| - 1]) == Some(s) && load.LookingUp? && steps[|steps| - 1] == StartExecute(l)
    requires Timed(c, steps[..|steps| - 1], l, load, t)
    ensures Timed(c, steps, l, Started(s.recs, load), t.(start := |steps| - 1))
  {
    hide Execute, KeysOf, Lookup, OfKind, Present, AllLooked;
    var t' := t.(start := |steps| - 1);
    TimedGrows(c, steps, l, load, t);
    LooksAreEarlier(c, steps, l, load.keys, load.found, t);
    SameLooks(c, steps, l, load.keys, load.found, t, t');
    var f := Started(s.recs, load).fetch;
    assert StartTimed(c, steps, l, f, t');
    assert FetchTimed(c, steps, l, f, t');
  }

  lemma FetchSees(c: Config, steps: seq<Step>, s: State, l: nat, load: Load, t: Times, ssm: bool)
    requires steps != [] && Execute(c, steps[..|steps| - 1]) == Some(s) && load.Fetching?
    requires steps[|steps| - 1] == (if ssm then FetchSsm(l) else FetchKv(l))
    requires if ssm then load.fetch.ssmSeen.None? else load.fetch.kvSeen.None?
    requires Timed(c, steps[..|steps| - 1], l, load, t)
    ensures var store := VaultOf(c, s, ssm).store;
      if ssm then Timed(c, steps, l, WithFetch(load, load.fetch.(ssmSeen := Some(store))), t.(ssm := |steps| - 1))
      else Timed(c, steps, l, WithFetch(load, load.fetch.(kvSeen := Some(store))), t.(kv := |steps| - 1))
  {
    hide Execute, KeysOf, Lookup, OfKind, Present, AllLooked, VaultOf;
    var t' := if ssm then t.(ssm := |steps| - 1) else t.(kv := |steps| - 1);
    var f := load.fetch;
    var f' := if ssm then f.(ssmSeen := Some(VaultOf(c, s, ssm).store)) else f.(kvSeen := Some(VaultOf(c, s, ssm).store));
    TimedGrows(c, steps, l, load, t);
    SameLooks(c, steps, l, load.keys, load.found, t, t');
    assert t.start < |steps| - 1;
    assert StartTimed(c, steps, l, f', t');
    assert FetchTimed(c, steps, l, f', t');
  }

  /** In every run each load has its times, in order. */
  lemma {:induction false} TimesOf(c: Config, steps: seq<Step>, l: nat) returns (t: Times)
    requires Execute(c, steps).Some? && l < |Execute(c, steps).value.loads|
    ensures Timed(c, steps, l, Execute(c, steps).value.loads[l], t)
  {
    var n := |steps| - 1;
    assert steps != [];
    var s := Execute(c, steps[..n]).value;
    hide Timed, Apply, Enabled;
    if l < |s.loads| {
      t := TimesOf(c, steps[..n], l);
      if Touches(steps[n], l) {
        t := TimesStep(c, steps, s, l, t);
      } else {
        UntouchedLoad(c, s, steps[n], l);
        TimedGrows(c, steps, l, s.loads[l], t);
      }
    } else {
      t := Times(0, [], 0, 0, 0);
      NewLoadIsPlanning(c, s, steps[n], l);
      PlanningIsTimed(c, steps, l, Apply(c, s, steps[n]).loads[l], t);
    }
  }

  lemma NewLoadIsPlanning(c: Config, s: State, step: Step, l: nat)
    requires Enabled(s, step) && |s.loads| <= l < |Apply(c, s, step).loads|
    ensures Apply(c, s, step).loads[l].Planning?
  {
    if Touches(step, l) {
      assert false;
    } else {
      NewLoad(c, s, step, l);
    }
  }

  lemma PlanningIsTimed(c: Config, steps: seq<Step>, l: nat, load: Load, t: Times)
    requires load.Planning?
    ensures Timed(c, steps, l, load, t)
  {
  }

  // ---- what comes back, in terms of the run ------------------------------------------------------

  function KeyAt(s: State, id: RecId): string { if id < |s.recs| then s.recs[id].vaultKey else "" }

  /** The vault of this record's kind, when it was asked, held a payload under the key the record had when the fetch was prepared. */
  ghost predicate HeldAt(c: Config, steps: seq<Step>, t: Times, recs: seq<Rec>, id: RecId) {
    var ssm := id < |recs| && recs[id].ssm;
    var store := VaultOf(c, Before(c, steps, if ssm then t.ssm else t.kv), ssm).store;
    var key := KeyAt(Before(c, steps, t.start), id);
    key in store && store[key].payload != []
  }

  lemma HeldInIs(recs: seq<Rec>, ids: seq<RecId>, store: map<string, Block>, id: RecId)
    requires id in ids
    ensures var key := if id < |recs| then recs[id].vaultKey else "";
      HeldIn(ids, KeysOf(recs, ids), store, id) <==> key in store && store[key].payload != []
  {
    var i :| 0 <= i < |ids| && ids[i] == id;
    assert KeysOf(recs, ids)[i] == if id < |recs| then recs[id].vaultKey else "";
  }

  lemma HeldForIsHeldAt(c: Config, steps: seq<Step>, l: nat, recs: seq<Rec>, f: Fetch, t: Times, id: RecId)
    requires FetchTimed(c, steps, l, f, t) && Complete(f) && id < |recs|
    requires id in if recs[id].ssm then f.ssm else f.kv
    ensures HeldFor(recs, f, id) <==> HeldAt(c, steps, t, recs, id)
  {
    hide Took, Before, HeldIn, KeysOf, VaultOf;
    var s := Before(c, steps, t.start);
    if recs[id].ssm {
      HeldInIs(s.recs, f.ssm, f.ssmSeen.value, id);
    } else {
      HeldInIs(s.recs, f.kv, f.kvSeen.value, id);
    }
  }

  /** What the registry answered for planned position `p`: by the key its record had when the metadata was built. */
  ghost function FoundAt(c: Config, steps: seq<Step>, t: Times, plan: seq<RecId>, p: nat): Option<RecId>
    requires p < |t.looked| && p < |plan|
  {
    Lookup(Before(c, steps, t.looked[p]), KeyAt(Before(c, steps, t.meta), plan[p]))
  }

  /** The planned record is still the registered one of its block, and has a key. */
  predicate StillRegistered(s: State, id: RecId) {
    && id < |s.recs| && s.recs[id].hash != [] && s.recs[id].vaultKey != ""
    && s.recs[id].hash in s.registry && s.registry[s.recs[id].hash] == id
  }

  /**
   * For every run, every finished restore and every planned position: it comes back exactly if its key was known at
   * its own lookup and the record so found was held at the fetch; all of it at points of the run in this order.
   */
  lemma ComesBackIff(c: Config, steps: seq<Step>, s: State, l: nat, p: nat) returns (t: Times)
    requires Execute(c, steps) == Some(s) && l < |s.loads| && s.loads[l].Finished? && p < |s.loads[l].plan|
    ensures Timed(c, steps, l, s.loads[l], t) && Complete(s.loads[l].fetch)
    ensures p < |t.looked| && t.meta < t.looked[p] < t.start < t.kv && t.start < t.ssm
    ensures ComesBack(s.recs, s.loads[l], p) <==>
      var found := FoundAt(c, steps, t, s.loads[l].plan, p); found.Some? && HeldAt(c, steps, t, s.recs, found.value)
  {
    hide *;
    var load := s.loads[l];
    t := TimesOf(c, steps, l);
    FinishedParts(c, steps, s, l);
    FinishedTimes(c, steps, l, load, t, p);
    if load.found[p].Some? {
      var id := load.found[p].value;
      FoundIsFetched(s.recs, s.log, load, id);
      HeldForIsHeldAt(c, steps, l, s.recs, load.fetch, t, id);
    }
    ComesBackMeans(s.recs, load, p);
  }

  lemma ComesBackMeans(recs: seq<Rec>, load: Load, p: nat)
    requires load.Finished? && Complete(load.fetch)
    ensures ComesBack(recs, load, p) <==> p < |load.found| && load.found[p].Some? && HeldFor(recs, load.fetch, load.found[p].value)
  {
  }

  lemma FinishedTimes(c: Config, steps: seq<Step>, l: nat, load: Load, t: Times, p: nat)
    requires Timed(c, steps, l, load, t) && load.Finished? && Complete(load.fetch) && p < |load.found| == |load.keys| == |load.plan|
    ensures Complete(load.fetch) && FetchTimed(c, steps, l, load.fetch, t)
    ensures p < |t.looked| && t.meta < t.looked[p] < t.start < t.kv && t.start < t.ssm
    ensures load.found[p] == FoundAt(c, steps, t, load.plan, p)
  {
    hide Took, Before, Lookup;
    assert LookTimed(c, steps, l, load.keys, load.found, t, p);
  }

  lemma FoundIsFetched(recs: seq<Rec>, log: seq<(Hash, Block)>, load: Load, id: RecId)
    requires load.Finished? && FoundOk(recs, load.plan, load.keys, load.found) && FetchOk(recs, log, load.found, load.fetch)
    requires Some(id) in load.found
    ensures id < |recs| && id in if recs[id].ssm then load.fetch.ssm else load.fetch.kv
  {
    PresentInRange(recs, load.plan, load.keys, load.found);
    PresentFacts(load.found);
    hide FoundOk, HalfOk, OfKind, Present;
    assert id in Present(load.found);
    SplitKeepsAll(recs, Present(load.found));
  }

  /**
   * So a planned position comes back unless its record had been replaced, removed or never given a key when the
   * metadata was built; or some step between the metadata and its own lookup made its key unknown; or the record
   * found was not held at the fetch.
   */
  lemma ComesBackUnless(c: Config, steps: seq<Step>, s: State, l: nat, p: nat) returns (t: Times)
    requires Execute(c, steps) == Some(s) && l < |s.loads| && s.loads[l].Finished? && p < |s.loads[l].plan|
    ensures Timed(c, steps, l, s.loads[l], t) && Complete(s.loads[l].fetch)
    ensures p < |t.looked| && t.meta < t.looked[p] < t.start < t.kv && t.start < t.ssm
    ensures
      var id := s.loads[l].plan[p];
      var found := FoundAt(c, steps, t, s.loads[l].plan, p);
      || ComesBack(s.recs, s.loads[l], p)
      || !StillRegistered(Before(c, steps, t.meta), id)
      || (exists n :: t.meta <= n < t.looked[p] && ForgottenAt(c, steps, n, KeyAt(Before(c, steps, t.meta), id)))
      || (found.Some? && !HeldAt(c, steps, t, s.recs, found.value))
  {
    t := ComesBackIff(c, steps, s, l, p);
    assert LookTimed(c, steps, l, s.loads[l].keys, s.loads[l].found, t, p) && MetaTimed(c, steps, l, s.loads[l].plan, s.loads[l].keys, t);
    hide Timed, LookTimed, MetaTimed, HeldAt, ComesBack, ForgottenAt, Lookup;
    var id, at := s.loads[l].plan[p], Before(c, steps, t.meta);
    if StillRegistered(at, id) {
      hide Execute;
      FoundUnlessRekeyedOrRemoved(c, steps, t.meta, t.looked[p], at.recs[id].hash, at.recs[id].vaultKey);
    }
  }

  // ---- the tokens that were reported as matched --------------------------------------------------

  function TokensAt(recs: seq<Rec>, id: RecId): nat { if id < |recs| then recs[id].numTokens else 0 }

  /** The tokens of a plan, position by position. */
  function PlannedTokens(recs: seq<Rec>, plan: seq<RecId>): nat {
    if plan == [] then 0 else PlannedTokens(recs, plan[..|plan| - 1]) + TokensAt(recs, plan[|plan| - 1])
  }

  /** The tokens of the first `n` positions that come back, and of those that do not. */
  ghost function BackTokens(recs: seq<Rec>, load: Load, n: nat): nat
    requires load.Finished? && Complete(load.fetch) && n <= |load.found|
  {
    if n == 0 then 0 else
      BackTokens(recs, load, n - 1) + if ComesBack(recs, load, n - 1) then TokensAt(recs, load.found[n - 1].value) else 0
  }

  ghost function LostTokens(recs: seq<Rec>, load: Load, n: nat): nat
    requires load.Finished? && Complete(load.fetch) && n <= |load.plan|
  {
    if n == 0 then 0 else
      LostTokens(recs, load, n - 1) + if ComesBack(recs, load, n - 1) then 0 else TokensAt(recs, load.plan[n - 1])
  }

  function EntryTokens(entries: seq<Entry>): nat {
    if entries == [] then 0 else entries[0].numTokens + EntryTokens(entries[1..])
  }

  /** The tokens of those records that were held. */
  ghost function HeldTokens(recs: seq<Rec>, ids: seq<RecId>, held: set<RecId>): nat {
    if ids == [] then 0 else (if ids[0] in held then TokensAt(recs, ids[0]) else 0) + HeldTokens(recs, ids[1..], held)
  }

  lemma {:induction false} EntryTokensConcat(a: seq<Entry>, b: seq<Entry>)
    ensures EntryTokens(a + b) == EntryTokens(a) + EntryTokens(b)
  {
    if a == [] {
      assert a + b == b;
    } else {
      assert (a + b)[1..] == a[1..] + b;
      EntryTokensConcat(a[1..], b);
    }
  }

  lemma {:induction false} HeldTokensConcat(recs: seq<Rec>, a: seq<RecId>, b: seq<RecId>, held: set<RecId>)
    ensures HeldTokens(recs, a + b, held) == HeldTokens(recs, a, held) + HeldTokens(recs, b, held)
  {
    if a == [] {
      assert a + b == b;
    } else {
      assert (a + b)[1..] == a[1..] + b;
      HeldTokensConcat(recs, a[1..], b, held);
    }
  }

  /** Splitting by layer kind loses no tokens. */
  lemma {:induction false} SplitKeepsTokens(recs: seq<Rec>, ids: seq<RecId>, held: set<RecId>)
    requires forall i :: 0 <= i < |ids| ==> ids[i] < |recs|
    ensures HeldTokens(recs, OfKind(recs, ids, false), held) + HeldTokens(recs, OfKind(recs, ids, true), held) == HeldTokens(recs, ids, held)
  {
    if ids != [] {
      SplitKeepsTokens(recs, ids[1..], held);
      var one, kind := [ids[0]], recs[ids[0]].ssm;
      HeldTokensConcat(recs, one, OfKind(recs, ids[1..], kind), held);
      assert HeldTokens(recs, one, held) == if ids[0] in held then TokensAt(recs, ids[0]) else 0 by {
        assert one[1..] == [];
      }
      assert OfKind(recs, ids, !kind) == OfKind(recs, ids[1..], !kind);
    }
  }

  /** The entries of one half carry the tokens of its held records. */
  lemma {:induction false} EntriesCarryHalf(c: Config, recs: seq<Rec>, ids: seq<RecId>, keys: seq<string>, store: map<string, Block>, held: set<RecId>)
    requires |keys| == |ids| && forall i :: 0 <= i < |ids| ==> ids[i] < |recs|
    requires forall i :: 0 <= i < |ids| ==> (ids[i] in held <==> keys[i] in store && store[keys[i]].payload != [])
    ensures EntryTokens(RestoredEntries(c, recs, ids, Answers(store, keys))) == HeldTokens(recs, ids, held)
  {
    if ids != [] {
      EntriesCarryHalf(c, recs, ids[1..], keys[1..], store, held);
      var blocks, rest := Answers(store, keys), RestoredEntries(c, recs, ids[1..], Answers(store, keys[1..]));
      assert blocks[1..] == Answers(store, keys[1..]);
      if ids[0] in held {
        var e := Entry(recs[ids[0]].hash, c.decode(blocks[0].payload, blocks[0].quantized), recs[ids[0]].numTokens);
        assert ([e] + rest)[1..] == rest;
        assert RestoredEntries(c, recs, ids, blocks) == [e] + rest;
      } else {
        assert [] + rest == rest;
        assert RestoredEntries(c, recs, ids, blocks) == rest;
      }
    }
  }

  lemma {:induction false} BackIsHeld(recs: seq<Rec>, load: Load, n: nat, held: set<RecId>)
    requires load.Finished? && Complete(load.fetch) && n <= |load.found|
    requires forall id :: Some(id) in load.found ==> (id in held <==> HeldFor(recs, load.fetch, id))
    ensures BackTokens(recs, load, n) == HeldTokens(recs, Present(load.found[..n]), held)
  {
    hide HeldFor;
    if n > 0 {
      BackIsHeld(recs, load, n - 1, held);
      var front, last := load.found[..n - 1], load.found[n - 1];
      assert load.found[..n][..n - 1] == front;
      if last.Some? {
        assert Some(last.value) in load.found;
        var one := [last.value];
        HeldTokensConcat(recs, Present(front), one, held);
        assert one[1..] == [];
        assert HeldTokens(recs, one, held) == if last.value in held then TokensAt(recs, last.value) else 0;
      } else {
        assert Present(front) + [] == Present(front);
        assert Present(load.found[..n]) == Present(front);
      }
    }
  }

  /** The entries of a finished restore carry exactly the tokens of the positions that came back. */
  lemma EntriesCarry(c: Config, steps: seq<Step>, s: State, l: nat)
    requires Execute(c, steps) == Some(s) && l < |s.loads| && s.loads[l].Finished?
    ensures Complete(s.loads[l].fetch) && |s.loads[l].found| == |s.loads[l].plan|
    ensures EntryTokens(s.loads[l].entries) == BackTokens(s.recs, s.loads[l], |s.loads[l].found|)
  {
    var load := s.loads[l];
    var t := TimesOf(c, steps, l);
    FinishedParts(c, steps, s, l);
    PresentInRange(s.recs, load.plan, load.keys, load.found);
    PresentFacts(load.found);
    SplitKeepsAll(s.recs, Present(load.found));
    assert FetchTimed(c, steps, l, load.fetch, t) by {
      hide Execute, FetchTimed;
    }
    EntriesAreHeld(c, steps, l, s.recs, s.log, load, t);
  }

  lemma EntriesAreHeld(c: Config, steps: seq<Step>, l: nat, recs: seq<Rec>, log: seq<(Hash, Block)>, load: Load, t: Times)
    requires load.Finished? && FetchOk(recs, log, load.found, load.fetch) && Complete(load.fetch)
    requires load.entries == AllEntries(c, recs, load.fetch) && FetchTimed(c, steps, l, load.fetch, t)
    requires forall i :: 0 <= i < |Present(load.found)| ==> Present(load.found)[i] < |recs|
    requires forall id :: id in Present(load.found) <==> Some(id) in load.found
    ensures EntryTokens(load.entries) == BackTokens(recs, load, |load.found|)
  {
    hide Took, Before, HeldIn, KeysOf, VaultOf, OfKind, Present, RestoredEntries, Answers, HeldTokens, EntryTokens, BackTokens, TokensAt;
    var f, ids := load.fetch, Present(load.found);
    var held := set id | id in ids && HeldFor(recs, f, id);
    HalfHeld(c, steps, l, recs, f, t, held, ids);
    EntriesCarryHalf(c, recs, f.kv, f.kvKeys, f.kvSeen.value, held);
    EntriesCarryHalf(c, recs, f.ssm, f.ssmKeys, f.ssmSeen.value, held);
    SplitKeepsTokens(recs, ids, held);
    BackIsHeld(recs, load, |load.found|, held);
    assert load.found[..|load.found|] == load.found;
    EntryTokensConcat(RestoredEntries(c, recs, f.kv, Answers(f.kvSeen.value, f.kvKeys)), RestoredEntries(c, recs, f.ssm, Answers(f.ssmSeen.value, f.ssmKeys)));
  }

  /** Which records of a half were held can be read off its own keys. */
  lemma HalfHeld(c: Config, steps: seq<Step>, l: nat, recs: seq<Rec>, f: Fetch, t: Times, held: set<RecId>, ids: seq<RecId>)
    requires Complete(f) && FetchTimed(c, steps, l, f, t) && held == set id | id in ids && HeldFor(recs, f, id)
    requires f.kv == OfKind(recs, ids, false) && f.ssm == OfKind(recs, ids, true) && forall i :: 0 <= i < |ids| ==> ids[i] < |recs|
    ensures |f.kvKeys| == |f.kv| && |f.ssmKeys| == |f.ssm|
    ensures forall i :: 0 <= i < |f.kv| ==> f.kv[i] < |recs| && (f.kv[i] in held <==> f.kvKeys[i] in f.kvSeen.value && f.kvSeen.value[f.kvKeys[i]].payload != [])
    ensures forall i :: 0 <= i < |f.ssm| ==> f.ssm[i] < |recs| && (f.ssm[i] in held <==> f.ssmKeys[i] in f.ssmSeen.value && f.ssmSeen.value[f.ssmKeys[i]].payload != [])
  {
    hide Took, Before, HeldIn, VaultOf;
    SplitKeepsAll(recs, ids);
    var s := Before(c, steps, t.start);
    forall i | 0 <= i < |f.kv|
      ensures f.kv[i] < |recs| && (f.kv[i] in held <==> f.kvKeys[i] in f.kvSeen.value && f.kvSeen.value[f.kvKeys[i]].payload != [])
    {
      assert f.kv[i] in f.kv && f.kv[i] in ids;
      HeldInIs(s.recs, f.kv, f.kvSeen.value, f.kv[i]);
    }
    forall i | 0 <= i < |f.ssm|
      ensures f.ssm[i] < |recs| && (f.ssm[i] in held <==> f.ssmKeys[i] in f.ssmSeen.value && f.ssmSeen.value[f.ssmKeys[i]].payload != [])
    {
      assert f.ssm[i] in f.ssm && f.ssm[i] in ids;
      HeldInIs(s.recs, f.ssm, f.ssmSeen.value, f.ssm[i]);
    }
  }

  /** The record that a position comes back with has as many tokens as the planned one. */
  ghost predicate SameTokens(recs: seq<Rec>, load: Load)
    requires load.Finished? && Complete(load.fetch)
  {
    forall p: nat :: p < |load.plan| && ComesBack(recs, load, p) ==> TokensAt(recs, load.found[p].value) == TokensAt(recs, load.plan[p])
  }

  lemma {:induction false} PlannedIsBackOrLost(recs: seq<Rec>, load: Load, n: nat)
    requires load.Finished? && Complete(load.fetch) && n <= |load.plan| == |load.found| && SameTokens(recs, load)
    ensures PlannedTokens(recs, load.plan[..n]) == BackTokens(recs, load, n) + LostTokens(recs, load, n)
    ensures LostTokens(recs, load, n) == 0 <==> forall p: nat :: p < n && TokensAt(recs, load.plan[p]) > 0 ==> ComesBack(recs, load, p)
  {
    hide ComesBack;
    if n > 0 {
      PlannedIsBackOrLost(recs, load, n - 1);
      assert load.plan[..n][..n - 1] == load.plan[..n - 1];
    }
  }

  /** Records never change their tokens, so what was reported when the plan was made is what it says at the end. */
  lemma {:induction false} RecordsOnlyGrow(c: Config, steps: seq<Step>, n: nat)
    requires n <= |steps| && Execute(c, steps[..n]).Some? && Execute(c, steps).Some?
    ensures Extends(Execute(c, steps[..n]).value.recs, Execute(c, steps).value.recs)
    decreases |steps|
  {
    if n == |steps| {
      assert steps[..n] == steps;
    } else {
      var k := |steps| - 1;
      assert steps[..k][..n] == steps[..n];
      hide Apply, Enabled, Extends;
      RecordsOnlyGrow(c, steps[..k], n);
      var s := Execute(c, steps[..k]).value;
      RecordsExtend(c, s, steps[k]);
      ExtendsOn(Execute(c, steps[..n]).value.recs, s.recs, Apply(c, s, steps[k]).recs);
    }
  }

  lemma ExtendsOn(a: seq<Rec>, b: seq<Rec>, d: seq<Rec>)
    requires Extends(a, b) && Extends(b, d)
    ensures Extends(a, d)
  {
  }

  lemma {:induction false} TokensStay(a: seq<Rec>, b: seq<Rec>, plan: seq<RecId>)
    requires Extends(a, b) && PlanOk(a, plan)
    ensures PlannedTokens(a, plan) == PlannedTokens(b, plan)
  {
    if plan != [] {
      TokensStay(a, b, plan[..|plan| - 1]);
    }
  }

  /**
   * For every run and every finished restore: the tokens reported for the plan are those of the entries and those of the
   * positions that do not come back. So the entries carry all of them exactly if every planned block with tokens comes back.
   */
  lemma ReportedTokensBalance(c: Config, steps: seq<Step>, s: State, l: nat) returns (t: Times)
    requires Execute(c, steps) == Some(s) && l < |s.loads| && s.loads[l].Finished? && Complete(s.loads[l].fetch)
    requires SameTokens(s.recs, s.loads[l])
    ensures Timed(c, steps, l, s.loads[l], t) && |s.loads[l].found| == |s.loads[l].plan|
    ensures var load := s.loads[l];
      var reported := PlannedTokens(Before(c, steps, t.meta).recs, load.plan);
      && reported == EntryTokens(load.entries) + LostTokens(s.recs, load, |load.plan|)
      && (EntryTokens(load.entries) == reported <==>
            forall p: nat :: p < |load.plan| && TokensAt(s.recs, load.plan[p]) > 0 ==> ComesBack(s.recs, load, p))
  {
    var load := s.loads[l];
    t := TimesOf(c, steps, l);
    EntriesCarry(c, steps, s, l);
    hide ComesBack, BackTokens, LostTokens, EntryTokens, TokensAt, SameTokens;
    PlannedIsBackOrLost(s.recs, load, |load.plan|);
    assert load.plan[..|load.plan|] == load.plan;
    MetaIsEarlier(c, steps, s, l, load, t);
  }

  lemma MetaIsEarlier(c: Config, steps: seq<Step>, s: State, l: nat, load: Load, t: Times)
    requires Execute(c, steps) == Some(s) && Timed(c, steps, l, load, t) && load.Finished?
    ensures PlannedTokens(Before(c, steps, t.meta).recs, load.plan) == PlannedTokens(s.recs, load.plan)
  {
    hide Execute, PlannedTokens;
    var at := Before(c, steps, t.meta);
    assert MetaTimed(c, steps, l, load.plan, load.keys, t);
    RunsKeepInv(c, steps[..t.meta]);
    PlannedIsOk(c, at, l);
    RecordsOnlyGrow(c, steps, t.meta);
    TokensStay(at.recs, s.recs, load.plan);
  }

  lemma PlannedIsOk(c: Config, s: State, l: nat)
    requires Inv(c, s) && l < |s.loads| && s.loads[l].Planned?
    ensures PlanOk(s.recs, s.loads[l].plan)
  {
    assert LoadOk(c, s.recs, s.log, s.loads[l]);
    hide RecsOk, RegistryOk, IndexOk, TasksOk, StoreOk, PlanOk;
  }
}
