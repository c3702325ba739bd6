/**
 * What restores return, in every interleaving of the protocol: nothing but what was stored under the
 * block's own hash, and exactly the planned blocks that were still known and still held.
 */
module Restores {
  import opened Common
  import opened VaultKeys
  import opened VllmVault
  import opened Protocol

  // ---- what a restore returns ----------------------------------------------------------------

  /** A block found under a key made for `h` was stored under `h`. */
  lemma KeyLeadsHome(log: seq<(Hash, Block)>, h: Hash, k: string, b: Block)
    requires KeyFor(h, k) && Backed(log, k, b)
    ensures (h, b) in log
  {
    var h', n' :| (h', b) in log && k == VaultKey(Hex(h'), n');
    assert k[0] == 'v';
    var n: nat :| k == VaultKey(Hex(h), n);
    VaultKeyInjective(Hex(h), n, Hex(h'), n');
    HexInjective(h, h');
  }

  /** Exactly the positions whose key was found with a payload have an entry, and it is that payload's decoding. */
  lemma {:induction false} EntriesExactly(c: Config, recs: seq<Rec>, ids: seq<RecId>, blocks: seq<Block>)
    requires |ids| == |blocks| && forall i :: 0 <= i < |ids| ==> ids[i] < |recs|
    ensures forall i :: 0 <= i < |ids| && blocks[i].payload != [] ==>
      EntryOf(c, recs[ids[i]], blocks[i]) in RestoredEntries(c, recs, ids, blocks)
    ensures forall e :: e in RestoredEntries(c, recs, ids, blocks) ==>
      exists i :: 0 <= i < |ids| && blocks[i].payload != [] && e == EntryOf(c, recs[ids[i]], blocks[i])
  {
    if ids != [] {
      EntriesExactly(c, recs, ids[1..], blocks[1..]);
      var rest := RestoredEntries(c, recs, ids[1..], blocks[1..]);
      forall i | 0 <= i < |ids| && blocks[i].payload != []
        ensures EntryOf(c, recs[ids[i]], blocks[i]) in RestoredEntries(c, recs, ids, blocks)
      {
        if i > 0 {
          assert ids[1..][i - 1] == ids[i] && blocks[1..][i - 1] == blocks[i];
        }
      }
      forall e | e in RestoredEntries(c, recs, ids, blocks)
        ensures exists i :: 0 <= i < |ids| && blocks[i].payload != [] && e == EntryOf(c, recs[ids[i]], blocks[i])
      {
        if e in rest {
          var j :| 0 <= j < |ids[1..]| && blocks[1..][j].payload != [] && e == EntryOf(c, recs[ids[1..][j]], blocks[1..][j]);
          assert ids[j + 1] == ids[1..][j] && blocks[j + 1] == blocks[1..][j];
        } else {
          assert blocks[0].payload != [] && e == EntryOf(c, recs[ids[0]], blocks[0]);
        }
      }
    }
  }

  function EntryOf(c: Config, r: Rec, b: Block): Entry {
    Entry(r.hash, c.decode(b.payload, b.quantized), r.numTokens)
  }

  /** The entry is the decoding of a payload that was stored under the entry's own hash. */
  ghost predicate Genuine(c: Config, log: seq<(Hash, Block)>, e: Entry) {
    exists b: Block :: (e.hash, b) in log && b.payload != [] && e.tensor == c.decode(b.payload, b.quantized)
  }

  lemma HalfIsGenuine(c: Config, recs: seq<Rec>, log: seq<(Hash, Block)>, ids: seq<RecId>, keys: seq<string>, store: map<string, Block>, e: Entry)
    requires HalfOk(recs, log, ids, keys, Some(store))
    requires e in RestoredEntries(c, recs, ids, Answers(store, keys))
    ensures Genuine(c, log, e)
  {
    var blocks := Answers(store, keys);
    EntriesExactly(c, recs, ids, blocks);
    var i :| 0 <= i < |ids| && blocks[i].payload != [] && e == EntryOf(c, recs[ids[i]], blocks[i]);
    KeyLeadsHome(log, recs[ids[i]].hash, keys[i], blocks[i]);
  }

  /**
   * In every interleaving: whatever `execute` returns for a hash is the decoding of a payload that was
   * once stored under that very hash.
   */
  lemma RestoredIsGenuine(c: Config, steps: seq<Step>, s: State, l: nat, e: Entry)
    requires Execute(c, steps) == Some(s) && l < |s.loads| && s.loads[l].Finished? && e in s.loads[l].entries
    ensures Genuine(c, s.log, e)
  {
    RunsKeepInv(c, steps);
    var f := s.loads[l].fetch;
    assert LoadOk(c, s.recs, s.log, s.loads[l]);
    hide RestoredEntries;
    if e in RestoredEntries(c, s.recs, f.kv, Answers(f.kvSeen.value, f.kvKeys)) {
      HalfIsGenuine(c, s.recs, s.log, f.kv, f.kvKeys, f.kvSeen.value, e);
    } else {
      HalfIsGenuine(c, s.recs, s.log, f.ssm, f.ssmKeys, f.ssmSeen.value, e);
    }
  }

  // ---- which planned blocks come back ----------------------------------------------------------------

  /** The vault held a payload for this record's key when it was asked. */
  ghost predicate HeldIn(ids: seq<RecId>, keys: seq<string>, store: map<string, Block>, id: RecId) {
    exists i :: 0 <= i < |ids| && i < |keys| && ids[i] == id && keys[i] in store && store[keys[i]].payload != []
  }

  ghost predicate HeldFor(recs: seq<Rec>, f: Fetch, id: RecId)
    requires Complete(f)
  {
    if id < |recs| && recs[id].ssm then HeldIn(f.ssm, f.ssmKeys, f.ssmSeen.value, id)
    else HeldIn(f.kv, f.kvKeys, f.kvSeen.value, id)
  }

  /**
   * Planned position `p` comes back: the registry still knew its key when it was looked up, and the vault
   * held a payload under the key its record had when the fetch was prepared.
   */
  ghost predicate ComesBack(recs: seq<Rec>, load: Load, p: nat)
    requires load.Finished? && Complete(load.fetch)
  {
    p < |load.found| && load.found[p].Some? && HeldFor(recs, load.fetch, load.found[p].value)
  }

  ghost predicate PlannedFor(recs: seq<Rec>, plan: seq<RecId>, p: nat, h: Hash) {
    p < |plan| && plan[p] < |recs| && recs[plan[p]].hash == h
  }

  ghost predicate IsRestored(entries: seq<Entry>, h: Hash) {
    exists e :: e in entries && e.hash == h
  }

  lemma OfKindStep(recs: seq<Rec>, ids: seq<RecId>, ssm: bool)
    requires ids != [] && ids[0] < |recs|
    ensures OfKind(recs, ids, ssm) == if recs[ids[0]].ssm == ssm then [ids[0]] + OfKind(recs, ids[1..], ssm) else OfKind(recs, ids[1..], ssm)
  {
    assert [] + OfKind(recs, ids[1..], ssm) == OfKind(recs, ids[1..], ssm);
  }

  lemma MultisetCons(x: RecId, rest: seq<RecId>)
    ensures multiset([x] + rest) == multiset{x} + multiset(rest)
  {
  }

  lemma {:induction false} OfKindMembers(recs: seq<Rec>, ids: seq<RecId>, ssm: bool)
    requires forall i :: 0 <= i < |ids| ==> ids[i] < |recs|
    ensures forall id :: id in OfKind(recs, ids, ssm) <==> id in ids && recs[id].ssm == ssm
  {
    if ids != [] {
      OfKindMembers(recs, ids[1..], ssm);
      OfKindStep(recs, ids, ssm);
      hide OfKind;
      assert forall id :: id in ids <==> id == ids[0] || id in ids[1..];
    }
  }

  lemma {:induction false} SplitKeepsCounts(recs: seq<Rec>, ids: seq<RecId>)
    requires forall i :: 0 <= i < |ids| ==> ids[i] < |recs|
    ensures multiset(OfKind(recs, ids, false)) + multiset(OfKind(recs, ids, true)) == multiset(ids)
  {
    if ids != [] {
      var rest := ids[1..];
      SplitKeepsCounts(recs, rest);
      OfKindStep(recs, ids, false);
      OfKindStep(recs, ids, true);
      MultisetCons(ids[0], OfKind(recs, rest, recs[ids[0]].ssm));
      MultisetCons(ids[0], rest);
      assert ids == [ids[0]] + rest;
      hide OfKind;
    }
  }

  /** Splitting by layer kind keeps every occurrence of every record in exactly one of the halves. */
  lemma SplitKeepsAll(recs: seq<Rec>, ids: seq<RecId>)
    requires forall i :: 0 <= i < |ids| ==> ids[i] < |recs|
    ensures multiset(OfKind(recs, ids, false)) + multiset(OfKind(recs, ids, true)) == multiset(ids)
    ensures forall id :: id in OfKind(recs, ids, true) <==> id in ids && recs[id].ssm
    ensures forall id :: id in OfKind(recs, ids, false) <==> id in ids && !recs[id].ssm
  {
    SplitKeepsCounts(recs, ids);
    OfKindMembers(recs, ids, true);
    OfKindMembers(recs, ids, false);
    hide OfKind;
  }

  /** Records in front stay in front. */
  lemma {:induction false} SplitKeepsOrder(recs: seq<Rec>, a: seq<RecId>, b: seq<RecId>, ssm: bool)
    ensures OfKind(recs, a + b, ssm) == OfKind(recs, a, ssm) + OfKind(recs, b, ssm)
  {
    if a == [] {
      assert a + b == b;
    } else {
      assert (a + b)[1..] == a[1..] + b;
      SplitKeepsOrder(recs, a[1..], b, ssm);
    }
  }

  lemma HalfRestores(c: Config, recs: seq<Rec>, log: seq<(Hash, Block)>, ids: seq<RecId>, keys: seq<string>, store: map<string, Block>)
    requires HalfOk(recs, log, ids, keys, Some(store))
    ensures forall id: RecId :: HeldIn(ids, keys, store, id) ==>
      id in ids && id < |recs| && IsRestored(RestoredEntries(c, recs, ids, Answers(store, keys)), recs[id].hash)
    ensures forall e :: e in RestoredEntries(c, recs, ids, Answers(store, keys)) ==>
      exists id :: id in ids && id < |recs| && HeldIn(ids, keys, store, id) && recs[id].hash == e.hash
  {
    var blocks := Answers(store, keys);
    EntriesExactly(c, recs, ids, blocks);
    hide RestoredEntries, KeyFor, StoreOk;
    var entries := RestoredEntries(c, recs, ids, blocks);
    forall id: RecId | HeldIn(ids, keys, store, id) ensures id in ids && id < |recs| && IsRestored(entries, recs[id].hash) {
      var i :| 0 <= i < |ids| && i < |keys| && ids[i] == id && keys[i] in store && store[keys[i]].payload != [];
      assert EntryOf(c, recs[ids[i]], blocks[i]) in entries;
    }
    forall e | e in entries ensures exists id :: id in ids && id < |recs| && HeldIn(ids, keys, store, id) && recs[id].hash == e.hash {
      var i :| 0 <= i < |ids| && blocks[i].payload != [] && e == EntryOf(c, recs[ids[i]], blocks[i]);
      assert ids[i] in ids && HeldIn(ids, keys, store, ids[i]);
    }
  }

  /** The parts of what is known about a finished restore. */
  lemma FinishedParts(c: Config, steps: seq<Step>, s: State, l: nat)
    requires Execute(c, steps) == Some(s) && l < |s.loads| && s.loads[l].Finished?
    ensures var load := s.loads[l];
      && FoundOk(s.recs, load.plan, load.keys, load.found) && |load.found| == |load.keys| == |load.plan|
      && FetchOk(s.recs, s.log, load.found, load.fetch) && Complete(load.fetch)
      && load.entries == AllEntries(c, s.recs, load.fetch)
  {
    RunsKeepInv(c, steps);
    assert LoadOk(c, s.recs, s.log, s.loads[l]);
    hide KeyFor, FetchOk, AllEntries, RecsOk, RegistryOk, IndexOk, TasksOk, StoreOk;
  }

  /** An entry is there for exactly the records that were found, and held under their keys. */
  lemma EntriesForFound(c: Config, recs: seq<Rec>, log: seq<(Hash, Block)>, found: seq<Option<RecId>>, f: Fetch, h: Hash)
    requires FetchOk(recs, log, found, f) && Complete(f)
    requires forall i :: 0 <= i < |Present(found)| ==> Present(found)[i] < |recs|
    ensures IsRestored(AllEntries(c, recs, f), h) <==>
      exists id :: id in Present(found) && id < |recs| && recs[id].hash == h && HeldFor(recs, f, id)
  {
    HalfRestores(c, recs, log, f.kv, f.kvKeys, f.kvSeen.value);
    HalfRestores(c, recs, log, f.ssm, f.ssmKeys, f.ssmSeen.value);
    SplitKeepsAll(recs, Present(found));
    var kv := RestoredEntries(c, recs, f.kv, Answers(f.kvSeen.value, f.kvKeys));
    var ssm := RestoredEntries(c, recs, f.ssm, Answers(f.ssmSeen.value, f.ssmKeys));
    hide RestoredEntries, HalfOk, HeldIn, Present, OfKind, Answers;
    if IsRestored(AllEntries(c, recs, f), h) {
      var e :| e in AllEntries(c, recs, f) && e.hash == h;
      assert e in kv || e in ssm;
    }
    if id :| id in Present(found) && id < |recs| && recs[id].hash == h && HeldFor(recs, f, id) {
      var half := if recs[id].ssm then ssm else kv;
      assert IsRestored(half, h);
      var e :| e in half && e.hash == h;
      assert e in AllEntries(c, recs, f);
    }
  }

  /**
   * In every interleaving, for every restore that finished: a hash has an entry if and only if some planned
   * position for it comes back. A planned block is missing exactly when its key was no longer known at the
   * lookup, or its record's key not held with a payload at the fetch.
   */
  lemma RestoredExactly(c: Config, steps: seq<Step>, s: State, l: nat, h: Hash)
    requires Execute(c, steps) == Some(s) && l < |s.loads| && s.loads[l].Finished?
    ensures Complete(s.loads[l].fetch)
    ensures IsRestored(s.loads[l].entries, h) <==>
      exists p :: PlannedFor(s.recs, s.loads[l].plan, p, h) && ComesBack(s.recs, s.loads[l], p)
  {
    var load := s.loads[l];
    FinishedParts(c, steps, s, l);
    PresentInRange(s.recs, load.plan, load.keys, load.found);
    PresentFacts(load.found);
    EntriesForFound(c, s.recs, s.log, load.found, load.fetch, h);
    hide Execute, FetchOk, AllEntries, HeldFor, KeyFor, Present, IsRestored;
    if id :| id in Present(load.found) && id < |s.recs| && s.recs[id].hash == h && HeldFor(s.recs, load.fetch, id) {
      var p: nat :| p < |load.found| && load.found[p] == Some(id);
      assert PlannedFor(s.recs, load.plan, p, h) && ComesBack(s.recs, load, p);
    }
    if p: nat :| PlannedFor(s.recs, load.plan, p, h) && ComesBack(s.recs, load, p) {
      var id := load.found[p].value;
      assert Some(id) in load.found;
      assert id in Present(load.found) && s.recs[id].hash == h && HeldFor(s.recs, load.fetch, id);
    }
  }

  ghost predicate DistinctHashes(recs: seq<Rec>, plan: seq<RecId>) {
    forall p, q, h :: PlannedFor(recs, plan, p, h) && PlannedFor(recs, plan, q, h) ==> p == q
  }

  /** For a request without repeated blocks: position by position. */
  lemma PlannedExactly(c: Config, steps: seq<Step>, s: State, l: nat, p: nat)
    requires Execute(c, steps) == Some(s) && l < |s.loads| && s.loads[l].Finished?
    requires DistinctHashes(s.recs, s.loads[l].plan) && p < |s.loads[l].plan|
    ensures s.loads[l].plan[p] < |s.recs| && Complete(s.loads[l].fetch)
    ensures IsRestored(s.loads[l].entries, s.recs[s.loads[l].plan[p]].hash) <==> ComesBack(s.recs, s.loads[l], p)
  {
    FinishedParts(c, steps, s, l);
    hide Execute, FetchOk, KeyFor, ComesBack, IsRestored, AllEntries;
    var h := s.recs[s.loads[l].plan[p]].hash;
    RestoredExactly(c, steps, s, l, h);
    assert PlannedFor(s.recs, s.loads[l].plan, p, h);
  }

  // ---- what that leaves on the GPU ---------------------------------------------------------------------

  /** The physical blocks the worker writes: those paired with a hash that has an entry. */
  function Written(entries: seq<Entry>, ids: map<Hash, (nat, nat)>): set<(nat, nat)> {
    set e | e in entries && e.hash in ids :: ids[e.hash]
  }

  /** A planned block's physical block stays unwritten exactly when the position does not come back. */
  lemma UnwrittenBlocks(c: Config, steps: seq<Step>, s: State, l: nat, ids: map<Hash, (nat, nat)>, p: nat)
    requires Execute(c, steps) == Some(s) && l < |s.loads| && s.loads[l].Finished?
    requires DistinctHashes(s.recs, s.loads[l].plan) && p < |s.loads[l].plan| && s.loads[l].plan[p] < |s.recs|
    requires forall g, h :: g in ids && h in ids && ids[g] == ids[h] ==> g == h
    requires s.recs[s.loads[l].plan[p]].hash in ids
    ensures Complete(s.loads[l].fetch)
    ensures ids[s.recs[s.loads[l].plan[p]].hash] !in Written(s.loads[l].entries, ids) <==> !ComesBack(s.recs, s.loads[l], p)
  {
    PlannedExactly(c, steps, s, l, p);
    hide Execute, ComesBack, DistinctHashes;
    var h := s.recs[s.loads[l].plan[p]].hash;
    if IsRestored(s.loads[l].entries, h) {
      var e :| e in s.loads[l].entries && e.hash == h;
      assert e.hash in ids;
    }
  }

  // ---- when a planned key is forgotten ------------------------------------------------------------------

  /** A step after which the registry no longer knows key `k`: its record is removed, or given another key. */
  ghost predicate Forgets(s: State, step: Step, k: string)
    requires Lookup(s, k).Some?
  {
    || step == Remove(s.index[k])
    || (step.UpdateKey? && step.t < |s.tasks| && s.tasks[step.t].phase.Shipped?
        && s.tasks[step.t].hash == s.index[k] && s.tasks[step.t].phase.key != k
        && Lookup(s, k).value < |s.recs| && s.recs[Lookup(s, k).value].vaultKey == k)
  }

  lemma ForgottenIff(c: Config, s: State, step: Step, k: string)
    requires Inv(c, s) && Enabled(s, step) && Lookup(s, k).Some?
    ensures Lookup(Apply(c, s, step), k).None? <==> Forgets(s, step, k)
  {
    IndexParts(c, s);
    hide Inv;
    match step
    case UpdateKey(t) => UpdateForgets(c, s, t, k);
    case Remove(h) => RemoveForgets(c, s, h, k);
    case _ =>
      IndexStays(c, s, step);
      hide Apply, Enabled, RecsOk, RegistryOk, IndexOk, TasksOk, KeyFor;
  }

  lemma IndexParts(c: Config, s: State)
    requires Inv(c, s)
    ensures RecsOk(s.recs) && RegistryOk(s.recs, s.registry) && IndexOk(s.index) && TasksOk(s.tasks)
  {
    hide RecsOk, RegistryOk, IndexOk, TasksOk, StoreOk, LoadOk;
  }

  lemma IndexStays(c: Config, s: State, step: Step)
    requires Enabled(s, step) && !step.UpdateKey? && !step.Remove?
    ensures Apply(c, s, step).index == s.index && forall h :: h in s.registry ==> h in Apply(c, s, step).registry
  {
    hide KeyFor, VaultOf, AllEntries, VaultKey, Hex, PlannedOne, KeysOf, Lookup, Started, Decoded, Complete, IsStored;
  }

  lemma UpdateForgets(c: Config, s: State, t: nat, k: string)
    requires RecsOk(s.recs) && RegistryOk(s.recs, s.registry) && IndexOk(s.index) && TasksOk(s.tasks)
    requires Enabled(s, UpdateKey(t)) && Lookup(s, k).Some?
    ensures Lookup(KeyUpdated(c, s, t), k).None? <==> Forgets(s, UpdateKey(t), k)
  {
    assert KeyFor(s.tasks[t].hash, s.tasks[t].phase.key);
    hide KeyFor, Rekeyed, HashNoted, SetPhase, VaultKey, Hex;
    NotedKeeps(c, s, t);
    RekeyForgets(SetPhase(HashNoted(c, s, t), t, Keyed), s.tasks[t].hash, s.tasks[t].phase.key, k);
  }

  /** Noting a payload hash changes no record's hash or key. */
  lemma NotedKeeps(c: Config, s: State, t: nat)
    requires t < |s.tasks|
    ensures var s' := HashNoted(c, s, t);
      && |s'.tasks| == |s.tasks| && |SetPhase(s', t, Keyed).recs| == |s.recs|
      && SetPhase(s', t, Keyed).registry == s.registry && SetPhase(s', t, Keyed).index == s.index
      && forall i :: 0 <= i < |s.recs| ==>
        SetPhase(s', t, Keyed).recs[i].hash == s.recs[i].hash && SetPhase(s', t, Keyed).recs[i].vaultKey == s.recs[i].vaultKey
  {
  }

  lemma RekeyForgets(s: State, h: Hash, key: string, k: string)
    requires RecsOk(s.recs) && RegistryOk(s.recs, s.registry) && IndexOk(s.index)
    requires Lookup(s, k).Some? && KeyFor(h, key)
    ensures Lookup(Rekeyed(s, h, key), k).None? <==>
      h == s.index[k] && key != k && s.recs[Lookup(s, k).value].vaultKey == k
  {
    if h in s.registry {
      if s.recs[s.registry[h]].vaultKey == k {
        SameHash(h, s.index[k], k);
      }
      if key == k {
        SameHash(h, s.index[k], k);
      }
    }
    hide KeyFor;
  }

  lemma RemoveForgets(c: Config, s: State, h: Hash, k: string)
    requires RecsOk(s.recs) && RegistryOk(s.recs, s.registry) && IndexOk(s.index) && Lookup(s, k).Some?
    ensures Lookup(Apply(c, s, Remove(h)), k).None? <==> Forgets(s, Remove(h), k)
  {
    if h in s.registry && s.recs[s.registry[h]].vaultKey == k {
      SameHash(h, s.index[k], k);
    }
    hide KeyFor;
  }

  /** The key is forgotten by step `n` of this run. */
  ghost predicate ForgottenAt(c: Config, steps: seq<Step>, n: nat, k: string) {
    n < |steps| && match Execute(c, steps[..n]) case None => false case Some(s) => Lookup(s, k).Some? && Forgets(s, steps[n], k)
  }

  /** Between two moments of a run a known key stays known unless some step forgets it. */
  lemma {:induction false} KeySurvives(c: Config, steps: seq<Step>, a: nat, b: nat, k: string)
    requires a <= b <= |steps| && Execute(c, steps[..a]).Some? && Execute(c, steps[..b]).Some?
    requires Lookup(Execute(c, steps[..a]).value, k).Some?
    requires forall n :: a <= n < b ==> !ForgottenAt(c, steps, n, k)
    ensures Lookup(Execute(c, steps[..b]).value, k).Some?
    decreases b
  {
    hide Apply, Enabled, Lookup, Forgets, Inv;
    if a < b {
      assert steps[..b][..b - 1] == steps[..b - 1] && steps[..b][b - 1] == steps[b - 1];
      KeySurvives(c, steps, a, b - 1, k);
      var s := Execute(c, steps[..b - 1]).value;
      RunsKeepInv(c, steps[..b - 1]);
      assert !ForgottenAt(c, steps, b - 1, k);
      ForgottenIff(c, s, steps[b - 1], k);
    }
  }

  /** Every key of a registered record is in the index. */
  ghost predicate Indexed(s: State) {
    forall h :: h in s.registry && s.registry[h] < |s.recs| && s.recs[s.registry[h]].vaultKey != "" ==>
      s.recs[s.registry[h]].vaultKey in s.index && s.index[s.recs[s.registry[h]].vaultKey] == h
  }

  lemma RegisterKeepsIndexed(c: Config, s: State, step: Step)
    requires RegistryOk(s.recs, s.registry) && Indexed(s) && Enabled(s, step) && step.Register?
    ensures Indexed(Apply(c, s, step))
  {
    hide Enabled;
  }

  lemma StepKeepsIndexed(c: Config, s: State, step: Step)
    requires Inv(c, s) && Indexed(s) && Enabled(s, step)
    ensures Indexed(Apply(c, s, step))
  {
    IndexParts(c, s);
    hide Inv, VaultKey, Hex, KeyFor, VaultOf;
    match step
    case UpdateKey(t) => UpdateKeepsIndexed(c, s, t);
    case Remove(h) => RemoveKeepsIndexed(c, s, h);
    case Register(_, _, _, _) => RegisterKeepsIndexed(c, s, step);
    case _ =>
      IndexStays(c, s, step);
      RegistryStays(c, s, step);
      KeysStay(c, s, step);
      hide Apply, Enabled, RecsOk, RegistryOk, IndexOk, TasksOk, KeyFor;
  }

  lemma KeysStay(c: Config, s: State, step: Step)
    requires Enabled(s, step) && !step.UpdateKey? && !step.Remove? && !step.Register?
    ensures |Apply(c, s, step).recs| == |s.recs|
    ensures forall i :: 0 <= i < |s.recs| ==> Apply(c, s, step).recs[i].vaultKey == s.recs[i].vaultKey
  {
    hide KeyFor, VaultOf, AllEntries, VaultKey, Hex, PlannedOne, KeysOf, Lookup, Started, Decoded, Complete, IsStored;
  }

  lemma UpdateKeepsIndexed(c: Config, s: State, t: nat)
    requires RecsOk(s.recs) && RegistryOk(s.recs, s.registry) && TasksOk(s.tasks) && Indexed(s) && Enabled(s, UpdateKey(t))
    ensures Indexed(KeyUpdated(c, s, t))
  {
    var s' := SetPhase(HashNoted(c, s, t), t, Keyed);
    SameKeys(s, s');
    RekeyKeepsIndexed(s', s.tasks[t].hash, s.tasks[t].phase.key);
    hide KeyFor, Indexed, Rekeyed;
  }

  lemma SameKeys(s: State, s': State)
    requires Indexed(s) && RecsOk(s.recs) && RegistryOk(s.recs, s.registry)
    requires s'.registry == s.registry && s'.index == s.index && |s'.recs| == |s.recs|
    requires forall i :: 0 <= i < |s.recs| ==> s'.recs[i].vaultKey == s.recs[i].vaultKey && s'.recs[i].hash == s.recs[i].hash
    ensures Indexed(s') && RecsOk(s'.recs) && RegistryOk(s'.recs, s'.registry)
  {
    hide KeyFor;
  }

  /** The keys of two registered records differ, since each embeds its own hash. */
  lemma KeysDiffer(s: State, g: Hash, h: Hash, k: string)
    requires RecsOk(s.recs) && RegistryOk(s.recs, s.registry) && g in s.registry && g != h && k != "" && KeyFor(h, k)
    ensures s.recs[s.registry[g]].vaultKey != k
  {
    if s.recs[s.registry[g]].vaultKey == k {
      SameHash(g, h, k);
    }
  }

  lemma RekeyKeepsIndexed(s: State, h: Hash, k: string)
    requires RecsOk(s.recs) && RegistryOk(s.recs, s.registry) && Indexed(s) && k != "" && KeyFor(h, k)
    ensures Indexed(Rekeyed(s, h, k))
  {
    if h in s.registry {
      var former := s.recs[s.registry[h]].vaultKey;
      forall g | g in s.registry && g != h
        ensures s.recs[s.registry[g]].vaultKey != k && (former != "" ==> s.recs[s.registry[g]].vaultKey != former)
      {
        KeysDiffer(s, g, h, k);
        if former != "" {
          KeysDiffer(s, g, h, former);
        }
      }
    }
    hide KeyFor;
  }

  lemma RemoveKeepsIndexed(c: Config, s: State, h: Hash)
    requires RecsOk(s.recs) && RegistryOk(s.recs, s.registry) && Indexed(s)
    ensures Indexed(Apply(c, s, Remove(h)))
  {
    if h in s.registry && s.recs[s.registry[h]].vaultKey != "" {
      forall g | g in s.registry && g != h ensures s.recs[s.registry[g]].vaultKey != s.recs[s.registry[h]].vaultKey {
        KeysDiffer(s, g, h, s.recs[s.registry[h]].vaultKey);
      }
    }
    hide KeyFor;
  }

  lemma {:induction false} RunsKeepIndexed(c: Config, steps: seq<Step>)
    ensures match Execute(c, steps) case None => true case Some(s) => Indexed(s)
  {
    if steps != [] {
      var n := |steps| - 1;
      RunsKeepIndexed(c, steps[..n]);
      RunsKeepInv(c, steps[..n]);
      hide Inv, Indexed, Apply, Enabled;
      match Execute(c, steps[..n])
      case None =>
      case Some(s) =>
        if Enabled(s, steps[n]) {
          StepKeepsIndexed(c, s, steps[n]);
        }
    }
  }

  /**
   * If a block's registered record has key `k` at one moment, its key is known at a later one unless it was
   * removed or stored again in between; and then it leads to a record of that block.
   */
  lemma FoundUnlessRekeyedOrRemoved(c: Config, steps: seq<Step>, a: nat, b: nat, h: Hash, k: string)
    requires a <= b <= |steps| && Execute(c, steps[..a]).Some? && Execute(c, steps[..b]).Some?
    requires var s := Execute(c, steps[..a]).value;
      h in s.registry && s.registry[h] < |s.recs| && s.recs[s.registry[h]].vaultKey == k && k != "" && h != []
    ensures var s := Execute(c, steps[..b]).value;
      || (exists n :: a <= n < b && ForgottenAt(c, steps, n, k))
      || (Lookup(s, k).Some? && Lookup(s, k).value < |s.recs| && s.recs[Lookup(s, k).value].hash == h)
  {
    var s, s' := Execute(c, steps[..a]).value, Execute(c, steps[..b]).value;
    RunsKeepIndexed(c, steps[..a]);
    RunsKeepInv(c, steps[..a]);
    RunsKeepInv(c, steps[..b]);
    IndexParts(c, s);
    IndexParts(c, s');
    assert KeyFor(h, k);
    assert Lookup(s, k).Some?;
    hide Execute, Inv, KeyFor, Lookup, RecsOk, IndexOk, TasksOk, RegistryOk;
    if forall n :: a <= n < b ==> !ForgottenAt(c, steps, n, k) {
      KeySurvives(c, steps, a, b, k);
      LookupLeadsHome(s', h, k);
    }
  }

  /** A key shipped for a block leads `lookup_by_vault_key` back to that block or nowhere. */
  lemma ShippedKeyFindsItsBlock(c: Config, steps: seq<Step>, s: State, h: Hash, k: string)
    requires Execute(c, steps) == Some(s) && KeyFor(h, k) && k in s.index
    ensures s.index[k] == h
    ensures h in s.registry ==> s.registry[h] < |s.recs| && s.recs[s.registry[h]].hash == h
  {
    RunsKeepInv(c, steps);
    var n: nat :| k == VaultKey(Hex(h), n);
    var n': nat :| k == VaultKey(Hex(s.index[k]), n');
    VaultKeyInjective(Hex(h), n, Hex(s.index[k]), n');
    HexInjective(h, s.index[k]);
  }

  // ---- a stored block that does not come back ------------------------------------------------------------

  lemma Extend(c: Config, steps: seq<Step>, s: State, step: Step, s': State) returns (longer: seq<Step>)
    requires Execute(c, steps) == Some(s) && Enabled(s, step) && Apply(c, s, step) == s'
    ensures longer == steps + [step] && Execute(c, longer) == Some(s')
  {
    hide Apply, Enabled;
    longer := steps + [step];
    assert longer[..|steps|] == steps;
  }

  /** One block, registered, stored once under `key0`, and being stored a second time under `key1`. */
  function Restoring(h: Hash, n: nat, p: seq<byte>, keyed: nat, second: TaskPhase, loads: seq<Load>): State
    requires keyed < 2
  {
    var key0, key1 := VaultKey(Hex(h), 0), VaultKey(Hex(h), 1);
    var block := Block(Hex(h), p, false);
    State([Rec(h, false, n, 0, if keyed == 0 then key0 else key1, Stored, [])], map[h := 0],
          if keyed == 0 then map[key0 := h] else map[key1 := h],
          Vault(map[key0 := block, key1 := block], 2), Vault(map[], 0),
          [Task(h, false, None, p, false, Over), Task(h, false, None, p, false, second)],
          loads, [(h, block), (h, block)])
  }

  lemma KeysOfCounterDiffer(h: Hash)
    ensures VaultKey(Hex(h), 0) != VaultKey(Hex(h), 1) && VaultKey(Hex(h), 0) != "" && VaultKey(Hex(h), 1) != ""
  {
    if VaultKey(Hex(h), 0) == VaultKey(Hex(h), 1) {
      VaultKeyInjective(Hex(h), 0, Hex(h), 1);
    }
    assert VaultKey(Hex(h), 0)[0] == 'v' && VaultKey(Hex(h), 1)[0] == 'v';
  }

  /** The block is stored, and its second copy has arrived at the vault but is not in the registry yet. */
  lemma StoredTwice(c: Config, h: Hash, n: nat, p: seq<byte>) returns (steps: seq<Step>)
    requires h != []
    ensures Execute(c, steps) == Some(Restoring(h, n, p, 0, Shipped(VaultKey(Hex(h), 1)), []))
  {
    KeysOfCounterDiffer(h);
    hide Execute, VaultKey, Hex;
    var key0 := VaultKey(Hex(h), 0);
    var block := Block(Hex(h), p, false);
    var rec := Rec(h, false, n, 0, "", Pending, []);
    var task := Task(h, false, None, p, false, Ready);
    var none := Vault(map[], 0);
    var one := Vault(map[key0 := block], 1);
    var s1 := State([rec], map[h := 0], map[], none, none, [], [], []);
    var s3 := s1.(tasks := [task, task]);
    var s4 := State([rec], map[h := 0], map[], one, none, [task.(phase := Shipped(key0)), task], [], [(h, block)]);
    var s5 := State([rec.(vaultKey := key0)], map[h := 0], map[key0 := h], one, none,
                    [task.(phase := Keyed), task], [], [(h, block)]);
    var s6 := State([rec.(vaultKey := key0, status := Stored)], map[h := 0], map[key0 := h], one, none,
                    [task.(phase := Over), task], [], [(h, block)]);
    NothingExecuted(c);
    steps := Extend(c, [], Init(), Register(h, false, n, 0), s1);
    steps := Extend(c, steps, s1, Submit(h, false, None, p, false), s1.(tasks := [task]));
    steps := Extend(c, steps, s1.(tasks := [task]), Submit(h, false, None, p, false), s3);
    steps := Extend(c, steps, s3, ShipStore(0), s4);
    steps := Extend(c, steps, s4, UpdateKey(0), s5);
    steps := Extend(c, steps, s5, MarkStored(0), s6);
    steps := Extend(c, steps, s6, ShipStore(1), Restoring(h, n, p, 0, Shipped(VaultKey(Hex(h), 1)), []));
  }

  lemma NothingExecuted(c: Config)
    ensures Execute(c, []) == Some(Init())
  {
  }

  /**
   * A planned block that is stored, registered and held by the vault under both its keys, and is missing all
   * the same: a second store gave it another key after the metadata was built and before it was looked up.
   */
  lemma RekeyedBlockIsMissing(c: Config, h: Hash, n: nat, p: seq<byte>) returns (steps: seq<Step>, s: State)
    requires h != [] && p != []
    ensures Execute(c, steps) == Some(s) && |s.loads| == 1 && s.loads[0].Finished? && s.loads[0].entries == []
    ensures s.loads[0].plan == [0] && |s.recs| == 1 && s.recs[0].hash == h && s.recs[0].status == Stored
    ensures s.registry == map[h := 0] && s.loads[0].keys == [VaultKey(Hex(h), 0)] && s.recs[0].vaultKey == VaultKey(Hex(h), 1)
    ensures forall k :: k == VaultKey(Hex(h), 0) || k == VaultKey(Hex(h), 1) ==>
      k in s.kvVault.store && s.kvVault.store[k].payload == p
  {
    steps := StoredTwice(c, h, n, p);
    hide Execute, VaultKey, Hex, Apply, Enabled, Restoring, Decimal;
    var key0, key1 := VaultKey(Hex(h), 0), VaultKey(Hex(h), 1);
    var second := Shipped(key1);
    var l1, l2, l3 := Planning([h], []), Planning([h], [0]), Planned([0]);
    var l4, l5 := LookingUp([0], [key0], []), LookingUp([0], [key0], [None]);
    PlanSteps(c, h, n, p);
    steps := Extend(c, steps, Restoring(h, n, p, 0, second, []), StartPlan([h]), Restoring(h, n, p, 0, second, [l1]));
    steps := Extend(c, steps, Restoring(h, n, p, 0, second, [l1]), PlanOne(0), Restoring(h, n, p, 0, second, [l2]));
    steps := Extend(c, steps, Restoring(h, n, p, 0, second, [l2]), PlanOne(0), Restoring(h, n, p, 0, second, [l3]));
    MetaStep(c, h, n, p);
    steps := Extend(c, steps, Restoring(h, n, p, 0, second, [l3]), BuildMeta(0), Restoring(h, n, p, 0, second, [l4]));
    RekeyStep(c, h, n, p, l4);
    steps := Extend(c, steps, Restoring(h, n, p, 0, second, [l4]), UpdateKey(1), Restoring(h, n, p, 1, Keyed, [l4]));
    LookUpStep(c, h, n, p);
    steps := Extend(c, steps, Restoring(h, n, p, 1, Keyed, [l4]), LookUpOne(0), Restoring(h, n, p, 1, Keyed, [l5]));
    LoadsOfRestoring(h, n, p, [l5]);
    steps, s := FinishEmpty(c, steps, Restoring(h, n, p, 1, Keyed, [l5]), [0], [key0]);
  }

  lemma LoadsOfRestoring(h: Hash, n: nat, p: seq<byte>, loads: seq<Load>)
    ensures var s := Restoring(h, n, p, 1, Keyed, loads);
      && s.loads == loads && |s.recs| == 1 && s.recs[0].hash == h && s.recs[0].status == Stored
      && s.recs[0].vaultKey == VaultKey(Hex(h), 1) && s.registry == map[h := 0]
      && forall k :: k == VaultKey(Hex(h), 0) || k == VaultKey(Hex(h), 1) ==>
        k in s.kvVault.store && s.kvVault.store[k].payload == p
  {
    KeysOfCounterDiffer(h);
    hide VaultKey, Hex;
  }

  lemma PlanSteps(c: Config, h: Hash, n: nat, p: seq<byte>)
    ensures Enabled(Restoring(h, n, p, 0, Shipped(VaultKey(Hex(h), 1)), []), StartPlan([h]))
    ensures Apply(c, Restoring(h, n, p, 0, Shipped(VaultKey(Hex(h), 1)), []), StartPlan([h]))
      == Restoring(h, n, p, 0, Shipped(VaultKey(Hex(h), 1)), [Planning([h], [])])
    ensures Enabled(Restoring(h, n, p, 0, Shipped(VaultKey(Hex(h), 1)), [Planning([h], [])]), PlanOne(0))
    ensures Apply(c, Restoring(h, n, p, 0, Shipped(VaultKey(Hex(h), 1)), [Planning([h], [])]), PlanOne(0))
      == Restoring(h, n, p, 0, Shipped(VaultKey(Hex(h), 1)), [Planning([h], [0])])
    ensures Enabled(Restoring(h, n, p, 0, Shipped(VaultKey(Hex(h), 1)), [Planning([h], [0])]), PlanOne(0))
    ensures Apply(c, Restoring(h, n, p, 0, Shipped(VaultKey(Hex(h), 1)), [Planning([h], [0])]), PlanOne(0))
      == Restoring(h, n, p, 0, Shipped(VaultKey(Hex(h), 1)), [Planned([0])])
  {
    KeysOfCounterDiffer(h);
    hide VaultKey, Hex;
    var second := Shipped(VaultKey(Hex(h), 1));
    var s1, s2 := Restoring(h, n, p, 0, second, [Planning([h], [])]), Restoring(h, n, p, 0, second, [Planning([h], [0])]);
    OneLoad(s1, Planning([h], [0]));
    OneLoad(s2, Planned([0]));
    assert [] + [Planning([h], [])] == [Planning([h], [])];
    assert PlannedOne(s1, Planning([h], [])) == Planning([h], [0]);
  }

  lemma OneLoad(s: State, load: Load)
    requires |s.loads| == 1
    ensures SetLoad(s, 0, load) == s.(loads := [load])
  {
  }

  lemma MetaStep(c: Config, h: Hash, n: nat, p: seq<byte>)
    ensures Enabled(Restoring(h, n, p, 0, Shipped(VaultKey(Hex(h), 1)), [Planned([0])]), BuildMeta(0))
    ensures Apply(c, Restoring(h, n, p, 0, Shipped(VaultKey(Hex(h), 1)), [Planned([0])]), BuildMeta(0))
      == Restoring(h, n, p, 0, Shipped(VaultKey(Hex(h), 1)), [LookingUp([0], [VaultKey(Hex(h), 0)], [])])
  {
    hide VaultKey, Hex;
    assert KeysOf(Restoring(h, n, p, 0, Shipped(VaultKey(Hex(h), 1)), [Planned([0])]).recs, [0]) == [VaultKey(Hex(h), 0)];
  }

  lemma RekeyStep(c: Config, h: Hash, n: nat, p: seq<byte>, load: Load)
    ensures Enabled(Restoring(h, n, p, 0, Shipped(VaultKey(Hex(h), 1)), [load]), UpdateKey(1))
    ensures Apply(c, Restoring(h, n, p, 0, Shipped(VaultKey(Hex(h), 1)), [load]), UpdateKey(1)) == Restoring(h, n, p, 1, Keyed, [load])
  {
    KeysOfCounterDiffer(h);
    hide VaultKey, Hex;
  }

  lemma LookUpStep(c: Config, h: Hash, n: nat, p: seq<byte>)
    ensures Enabled(Restoring(h, n, p, 1, Keyed, [LookingUp([0], [VaultKey(Hex(h), 0)], [])]), LookUpOne(0))
    ensures Apply(c, Restoring(h, n, p, 1, Keyed, [LookingUp([0], [VaultKey(Hex(h), 0)], [])]), LookUpOne(0))
      == Restoring(h, n, p, 1, Keyed, [LookingUp([0], [VaultKey(Hex(h), 0)], [None])])
  {
    KeysOfCounterDiffer(h);
    hide VaultKey, Hex;
    OneLoad(Restoring(h, n, p, 1, Keyed, [LookingUp([0], [VaultKey(Hex(h), 0)], [])]), LookingUp([0], [VaultKey(Hex(h), 0)], [None]));
    var nothing: seq<Option<RecId>> := [];
    assert nothing + [None] == [None];
  }

  /** A restore for which nothing was found ends without entries. */
  lemma FinishEmpty(c: Config, steps: seq<Step>, s: State, plan: seq<RecId>, keys: seq<string>)
    returns (longer: seq<Step>, s': State)
    requires Execute(c, steps) == Some(s) && s.loads == [LookingUp(plan, keys, [None])] && |keys| == 1
    ensures Execute(c, longer) == Some(s') && |s'.loads| == 1 && s'.loads[0].Finished? && s'.loads[0].entries == []
    ensures s'.loads[0].plan == plan && s'.loads[0].keys == keys && s' == s.(loads := s'.loads)
  {
    var f := Fetch([], [], [], [], None, None);
    EmptySteps(c, s, plan, keys);
    hide Execute, VaultOf, Apply, Enabled;
    var s1 := s.(loads := [Fetching(plan, keys, [None], f)]);
    longer := Extend(c, steps, s, StartExecute(0), s1);
    SeenSteps(c, s1, s1.loads[0]);
    var s2 := s.(loads := [WithFetch(s1.loads[0], f.(kvSeen := Some(VaultOf(c, s1, false).store)))]);
    longer := Extend(c, longer, s1, FetchKv(0), s2);
    SeenSteps(c, s2, s2.loads[0]);
    var s3 := s.(loads := [WithFetch(s2.loads[0], s2.loads[0].fetch.(ssmSeen := Some(VaultOf(c, s2, true).store)))]);
    longer := Extend(c, longer, s2, FetchSsm(0), s3);
    EmptyDecodes(c, s3, s3.loads[0]);
    s' := s.(loads := [Finished(plan, keys, [None], s3.loads[0].fetch, [])]);
    longer := Extend(c, longer, s3, Decode(0), s');
  }

  lemma EmptySteps(c: Config, s: State, plan: seq<RecId>, keys: seq<string>)
    requires s.loads == [LookingUp(plan, keys, [None])] && |keys| == 1
    ensures Enabled(s, StartExecute(0))
    ensures Apply(c, s, StartExecute(0)) == s.(loads := [Fetching(plan, keys, [None], Fetch([], [], [], [], None, None))])
  {
    StartedEmpty(s.recs, plan, keys);
    OneLoad(s, Fetching(plan, keys, [None], Fetch([], [], [], [], None, None)));
    hide Started, VaultKey, Hex;
  }

  lemma SeenSteps(c: Config, s: State, load: Load)
    requires s.loads == [load] && load.Fetching?
    ensures load.fetch.kvSeen.None? ==>
      && Enabled(s, FetchKv(0))
      && Apply(c, s, FetchKv(0)) == s.(loads := [WithFetch(load, load.fetch.(kvSeen := Some(VaultOf(c, s, false).store)))])
    ensures load.fetch.ssmSeen.None? ==>
      && Enabled(s, FetchSsm(0))
      && Apply(c, s, FetchSsm(0)) == s.(loads := [WithFetch(load, load.fetch.(ssmSeen := Some(VaultOf(c, s, true).store)))])
  {
    OneLoad(s, WithFetch(load, load.fetch.(kvSeen := Some(VaultOf(c, s, false).store))));
    OneLoad(s, WithFetch(load, load.fetch.(ssmSeen := Some(VaultOf(c, s, true).store))));
    hide VaultOf, VaultKey, Hex;
  }

  lemma EmptyDecodes(c: Config, s: State, load: Load)
    requires s.loads == [load] && load.Fetching? && Complete(load.fetch) && load.fetch.kv == [] && load.fetch.ssm == []
    ensures Enabled(s, Decode(0))
    ensures Apply(c, s, Decode(0)) == s.(loads := [Finished(load.plan, load.keys, load.found, load.fetch, [])])
  {
    OneLoad(s, Finished(load.plan, load.keys, load.found, load.fetch, []));
    hide VaultKey, Hex, Mismatch;
    assert AllEntries(c, s.recs, load.fetch) == [];
  }

  lemma StartedEmpty(recs: seq<Rec>, plan: seq<RecId>, keys: seq<string>)
    ensures Started(recs, LookingUp(plan, keys, [None])) == Fetching(plan, keys, [None], Fetch([], [], [], [], None, None))
  {
    assert Present([None]) == [];
    assert KeysOf(recs, []) == [];
  }

  // ---- the vault behind the RPCs -------------------------------------------------------------

  /** What a task's store appends to its vault's history. */
  function StoreOf(task: Task, counter: nat): StoredBlock {
    StoredBlock(counter, Block(Hex(task.hash), task.payload, task.quantized))
  }

  /** Whatever `VllmColdVault.StoreBlock` does to its store is a store step followed by one eviction step. */
  lemma VaultStoreIsShipThenEvict(c: Config, s: State, t: nat, order: seq<QueueEntry>, bytes: int, history: seq<StoredBlock>, max: nat,
                                  store': map<string, Block>, order': seq<QueueEntry>, bytes': int)
    requires Enabled(s, ShipStore(t))
    requires var (task, v) := (s.tasks[t], VaultOf(c, s, s.tasks[t].ssm));
      && Agrees(v.store, order, bytes, Retain(history, max))
      && Distinct(history) && (forall y :: y in history ==> y.seqNo < v.counter)
      && Agrees(store', order', bytes', Retain(history + [StoreOf(task, v.counter)], max))
    ensures var (task, v) := (s.tasks[t], VaultOf(c, s, s.tasks[t].ssm));
      var dropped := v.store.Keys + {StoreOf(task, v.counter).Key()} - store'.Keys;
      VaultOf(c, Apply(c, Apply(c, s, ShipStore(t)), Evict(task.ssm, dropped)), task.ssm) == Vault(store', v.counter + 1)
  {
    hide Agrees, Retain, Distinct, VaultKey, Hex;
    var task, v := s.tasks[t], VaultOf(c, s, s.tasks[t].ssm);
    StoreIsAddThenDrop(v.store, order, bytes, history, StoreOf(task, v.counter), max, store', order', bytes');
  }

  // ---- the hash check ------------------------------------------------------------------------

  /** Stores whose records were rebuilt by the worker leave every registered record without a payload hash. */
  lemma {:induction false} RebuiltRecordsCarryNoHash(c: Config, steps: seq<Step>)
    requires forall x :: x in steps && x.Submit? ==> x.direct == None
    ensures match Execute(c, steps) case None => true case Some(s) => NoHashes(s)
  {
    if steps != [] {
      var n := |steps| - 1;
      var last := steps[n];
      assert last in steps;
      RebuiltRecordsCarryNoHash(c, steps[..n]);
      hide NoHashes, Apply, Enabled;
      match Execute(c, steps[..n])
      case None =>
      case Some(s) =>
        if Enabled(s, last) {
          StepAddsNoHash(c, s, last);
        }
    }
  }

  ghost predicate NoHashes(s: State) {
    && (forall i :: 0 <= i < |s.recs| ==> s.recs[i].tensorHash == [])
    && (forall t :: 0 <= t < |s.tasks| ==> s.tasks[t].direct == None)
    && (forall l :: 0 <= l < |s.loads| ==> !s.loads[l].RaisedMismatch?)
  }

  lemma StepAddsNoHash(c: Config, s: State, step: Step)
    requires NoHashes(s) && Enabled(s, step) && (step.Submit? ==> step.direct == None)
    ensures NoHashes(Apply(c, s, step))
  {
    RecordsStayWithoutHash(c, s, step);
    TasksStayRebuilt(c, s, step);
    NoMismatchRaised(c, s, step);
    hide Apply, Enabled;
  }

  lemma RecordsStayWithoutHash(c: Config, s: State, step: Step)
    requires NoHashes(s) && Enabled(s, step)
    ensures forall i :: 0 <= i < |Apply(c, s, step).recs| ==> Apply(c, s, step).recs[i].tensorHash == []
  {
    hide VaultOf, AllEntries, VaultKey, Hex, PlannedOne, KeysOf, Lookup, Started, Decoded, Complete, IsStored;
  }

  lemma TasksStayRebuilt(c: Config, s: State, step: Step)
    requires NoHashes(s) && Enabled(s, step) && (step.Submit? ==> step.direct == None)
    ensures forall t :: 0 <= t < |Apply(c, s, step).tasks| ==> Apply(c, s, step).tasks[t].direct == None
  {
    hide VaultOf, AllEntries, VaultKey, Hex, PlannedOne, KeysOf, Lookup, Started, Decoded, Complete, IsStored;
  }

  lemma NoMismatchRaised(c: Config, s: State, step: Step)
    requires NoHashes(s) && Enabled(s, step)
    ensures forall l :: 0 <= l < |Apply(c, s, step).loads| ==> !Apply(c, s, step).loads[l].RaisedMismatch?
  {
    if step.Decode? {
      NoHashNoMismatch(c, s.recs, s.loads[step.l]);
    }
    hide VaultOf, AllEntries, VaultKey, Hex, KeysOf, Lookup, Decoded, Complete, IsStored, OfKind, Present;
  }

  lemma NoHashNoMismatch(c: Config, recs: seq<Rec>, load: Load)
    requires forall i :: 0 <= i < |recs| ==> recs[i].tensorHash == []
    ensures load.Fetching? && Complete(load.fetch) ==> Decoded(c, recs, load).Finished?
  {
    hide Answers, AllEntries;
  }
}
