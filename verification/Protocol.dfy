/**
 * Storing and restoring end to end. Records are objects shared by registry, plans and tasks, so they
 * live in `recs` and everything else refers to them by position. Every lock region and every RPC is one
 * step; between two steps anything else may happen: expiry, removal, re-registration, vault eviction.
 */
module Protocol {
  import opened Common
  import opened VaultKeys
  import opened VllmVault

  type RecId = nat

  datatype Rec = Rec(
    hash: Hash, ssm: bool, numTokens: nat, evictedAt: int,
    vaultKey: string, status: Status, tensorHash: seq<byte>)

  /** One cold vault, seen through its RPCs; it may evict anything at any time. */
  datatype Vault = Vault(store: map<string, Block>, counter: nat)

  /** How far the store of one block has come. `direct` names the record it was handed, if it was not rebuilt. */
  datatype TaskPhase = Ready | Shipped(key: string) | Keyed | Over
  datatype Task = Task(hash: Hash, ssm: bool, direct: Option<RecId>, payload: seq<byte>, quantized: bool, phase: TaskPhase)

  /** The fetches of one `execute`: records and keys by vault, and the vault's contents when it was asked. */
  datatype Fetch = Fetch(
    kv: seq<RecId>, ssm: seq<RecId>, kvKeys: seq<string>, ssmKeys: seq<string>,
    kvSeen: Option<map<string, Block>>, ssmSeen: Option<map<string, Block>>)

  /**
   * How far one restore has come: the planned records, their keys as shipped to the worker, what the
   * registry answered for each key, and the fetches.
   */
  datatype Load =
    | Planning(hashes: seq<Hash>, plan: seq<RecId>)
    | Planned(plan: seq<RecId>)
    | LookingUp(plan: seq<RecId>, keys: seq<string>, found: seq<Option<RecId>>)
    | Fetching(plan: seq<RecId>, keys: seq<string>, found: seq<Option<RecId>>, fetch: Fetch)
    | Finished(plan: seq<RecId>, keys: seq<string>, found: seq<Option<RecId>>, fetch: Fetch, entries: seq<Entry>)
    | RaisedMismatch(plan: seq<RecId>, keys: seq<string>, found: seq<Option<RecId>>, fetch: Fetch)

  /** One entry `execute` returns. */
  datatype Entry = Entry(hash: Hash, tensor: seq<byte>, numTokens: nat)

  /** The hash function, the decoder of a payload, and whether both layer kinds share one vault. */
  datatype Config = Config(sha: seq<byte> -> seq<byte>, decode: (seq<byte>, bool) -> seq<byte>, shared: bool)

  datatype State = State(
    recs: seq<Rec>,
    registry: map<Hash, RecId>,
    index: map<string, Hash>,
    kvVault: Vault,
    ssmVault: Vault,
    tasks: seq<Task>,
    loads: seq<Load>,
    /** Every block any vault was ever asked to store, with the hash it was stored under. */
    log: seq<(Hash, Block)>)

  // ---- steps ---------------------------------------------------------------------------------

  datatype Step =
    | Register(hash: Hash, ssm: bool, numTokens: nat, now: int)
    | Submit(hash: Hash, ssm: bool, direct: Option<RecId>, payload: seq<byte>, quantized: bool)
    | ShipStore(t: nat)
    | StoreFails(t: nat)
    | UpdateKey(t: nat)
    | MarkStored(t: nat)
    | MarkFailed(hash: Hash)
    | Expire(cutoff: int)
    | Remove(hash: Hash)
    | Evict(ssm: bool, keys: set<string>)
    | StartPlan(hashes: seq<Hash>)
    | PlanOne(l: nat)
    | BuildMeta(l: nat)
    | LookUpOne(l: nat)
    | StartExecute(l: nat)
    | FetchKv(l: nat)
    | FetchSsm(l: nat)
    | Decode(l: nat)

  function Init(): State { State([], map[], map[], Vault(map[], 0), Vault(map[], 0), [], [], []) }

  /** Which vault a layer kind is kept in. */
  function UsesSsm(c: Config, ssm: bool): bool { ssm && !c.shared }

  function VaultOf(c: Config, s: State, ssm: bool): Vault {
    if UsesSsm(c, ssm) then s.ssmVault else s.kvVault
  }

  function WithVault(c: Config, s: State, ssm: bool, v: Vault): State {
    if UsesSsm(c, ssm) then s.(ssmVault := v) else s.(kvVault := v)
  }

  predicate IsStored(s: State, h: Hash) {
    h in s.registry && s.registry[h] < |s.recs| && s.recs[s.registry[h]].status == Stored
  }

  predicate Complete(f: Fetch) { f.kvSeen.Some? && f.ssmSeen.Some? }

  predicate Enabled(s: State, step: Step) {
    match step
    case Register(hash, _, _, _) => !IsStored(s, hash)
    case Submit(hash, _, direct, _, _) => direct.Some? ==> direct.value < |s.recs| && s.recs[direct.value].hash == hash
    case ShipStore(t) => t < |s.tasks| && s.tasks[t].phase.Ready?
    case StoreFails(t) => t < |s.tasks| && (s.tasks[t].phase.Ready? || s.tasks[t].phase.Shipped?)
    case UpdateKey(t) => t < |s.tasks| && s.tasks[t].phase.Shipped?
    case MarkStored(t) => t < |s.tasks| && s.tasks[t].phase.Keyed?
    case PlanOne(l) => l < |s.loads| && s.loads[l].Planning?
    case BuildMeta(l) => l < |s.loads| && s.loads[l].Planned?
    case LookUpOne(l) => l < |s.loads| && s.loads[l].LookingUp? && |s.loads[l].found| < |s.loads[l].keys|
    case StartExecute(l) => l < |s.loads| && s.loads[l].LookingUp? && |s.loads[l].found| == |s.loads[l].keys|
    case FetchKv(l) => l < |s.loads| && s.loads[l].Fetching? && s.loads[l].fetch.kvSeen.None?
    case FetchSsm(l) => l < |s.loads| && s.loads[l].Fetching? && s.loads[l].fetch.ssmSeen.None?
    case Decode(l) => l < |s.loads| && s.loads[l].Fetching? && Complete(s.loads[l].fetch)
    case _ => true
  }

  function SetRec(s: State, id: RecId, r: Rec): State {
    if id < |s.recs| then s.(recs := s.recs[id := r]) else s
  }

  function SetStatus(s: State, h: Hash, status: Status): State {
    if h in s.registry && s.registry[h] < |s.recs| then
      SetRec(s, s.registry[h], s.recs[s.registry[h]].(status := status))
    else s
  }

  function SetPhase(s: State, t: nat, p: TaskPhase): State
    requires t < |s.tasks|
  {
    s.(tasks := s.tasks[t := s.tasks[t].(phase := p)])
  }

  function SetLoad(s: State, l: nat, load: Load): State
    requires l < |s.loads|
  {
    s.(loads := s.loads[l := load])
  }

  /** `store_block`: the block goes under a key made of its hash and the counter. */
  function ShippedStore(c: Config, s: State, t: nat): State
    requires t < |s.tasks|
  {
    var task := s.tasks[t];
    var v := VaultOf(c, s, task.ssm);
    var key := VaultKey(Hex(task.hash), v.counter);
    var block := Block(Hex(task.hash), task.payload, task.quantized);
    WithVault(c, SetPhase(s, t, Shipped(key)), task.ssm, Vault(v.store[key := block], v.counter + 1))
      .(log := s.log + [(task.hash, block)])
  }

  /** `record.tensor_hash = ...` on the record the task was handed, if it was handed one of the registry's. */
  function HashNoted(c: Config, s: State, t: nat): State
    requires t < |s.tasks|
  {
    match s.tasks[t].direct
    case None => s
    case Some(id) => if id < |s.recs| then SetRec(s, id, s.recs[id].(tensorHash := c.sha(s.tasks[t].payload))) else s
  }

  /** `update_vault_key` on whatever record the registry has by now. */
  function Rekeyed(s: State, h: Hash, k: string): State {
    if h in s.registry && s.registry[h] < |s.recs| then
      var id := s.registry[h];
      var rec := s.recs[id];
      var cleared := if rec.vaultKey != "" then s.index - {rec.vaultKey} else s.index;
      SetRec(s, id, rec.(vaultKey := k)).(index := cleared[k := h])
    else s
  }

  function KeyUpdated(c: Config, s: State, t: nat): State
    requires t < |s.tasks| && s.tasks[t].phase.Shipped?
  {
    Rekeyed(SetPhase(HashNoted(c, s, t), t, Keyed), s.tasks[t].hash, s.tasks[t].phase.key)
  }

  /** One step of the walk over a request's hashes: it ends at the first one that is not stored. */
  function PlannedOne(s: State, load: Load): Load
    requires load.Planning?
  {
    var n := |load.plan|;
    if n < |load.hashes| && IsStored(s, load.hashes[n]) then Planning(load.hashes, load.plan + [s.registry[load.hashes[n]]])
    else Planned(load.plan)
  }

  function KeysOf(recs: seq<Rec>, ids: seq<RecId>): seq<string> {
    seq(|ids|, i requires 0 <= i < |ids| => if ids[i] < |recs| then recs[ids[i]].vaultKey else "")
  }

  /** `lookup_by_vault_key`: the position of a record, or nothing. */
  function Lookup(s: State, k: string): Option<RecId> {
    if k in s.index && s.index[k] != [] && s.index[k] in s.registry then Some(s.registry[s.index[k]]) else None
  }

  /** The records that were found, in order. */
  function Present(found: seq<Option<RecId>>): seq<RecId> {
    if found == [] then [] else
      Present(found[..|found| - 1]) + match found[|found| - 1] case None => [] case Some(id) => [id]
  }

  function OfKind(recs: seq<Rec>, ids: seq<RecId>, ssm: bool): seq<RecId> {
    if ids == [] then [] else
      (if ids[0] < |recs| && recs[ids[0]].ssm == ssm then [ids[0]] else []) + OfKind(recs, ids[1..], ssm)
  }

  /** `batch_promote`: one answer for each key, in order. */
  function Answers(store: map<string, Block>, keys: seq<string>): seq<Block> {
    seq(|keys|, i requires 0 <= i < |keys| => if keys[i] in store then store[keys[i]] else MISSING)
  }

  predicate Mismatch(c: Config, r: Rec, b: Block) {
    b.payload != [] && r.tensorHash != [] && c.sha(b.payload) != r.tensorHash
  }

  /** Answers are paired with records by position; empty ones are passed over. */
  function RestoredEntries(c: Config, recs: seq<Rec>, ids: seq<RecId>, blocks: seq<Block>): seq<Entry> {
    if ids == [] || blocks == [] then [] else
      (if ids[0] < |recs| && blocks[0].payload != [] then
         [Entry(recs[ids[0]].hash, c.decode(blocks[0].payload, blocks[0].quantized), recs[ids[0]].numTokens)]
       else [])
      + RestoredEntries(c, recs, ids[1..], blocks[1..])
  }

  function AllEntries(c: Config, recs: seq<Rec>, f: Fetch): seq<Entry>
    requires Complete(f)
  {
    RestoredEntries(c, recs, f.kv, Answers(f.kvSeen.value, f.kvKeys)) + RestoredEntries(c, recs, f.ssm, Answers(f.ssmSeen.value, f.ssmKeys))
  }

  predicate AnyMismatch(c: Config, recs: seq<Rec>, ids: seq<RecId>, blocks: seq<Block>) {
    exists i :: 0 <= i < |ids| && i < |blocks| && ids[i] < |recs| && Mismatch(c, recs[ids[i]], blocks[i])
  }

  function Decoded(c: Config, recs: seq<Rec>, load: Load): Load
    requires load.Fetching? && Complete(load.fetch)
  {
    var f := load.fetch;
    if AnyMismatch(c, recs, f.kv, Answers(f.kvSeen.value, f.kvKeys))
      || AnyMismatch(c, recs, f.ssm, Answers(f.ssmSeen.value, f.ssmKeys))
    then RaisedMismatch(load.plan, load.keys, load.found, f)
    else Finished(load.plan, load.keys, load.found, f, AllEntries(c, recs, f))
  }

  function WithFetch(load: Load, fetch: Fetch): Load
    requires load.Fetching?
  {
    Fetching(load.plan, load.keys, load.found, fetch)
  }

  /** The fetches of `execute` are prepared: records split by layer kind, and their keys as they are now. */
  function Started(recs: seq<Rec>, load: Load): Load
    requires load.LookingUp?
  {
    var kv, ssm := OfKind(recs, Present(load.found), false), OfKind(recs, Present(load.found), true);
    Fetching(load.plan, load.keys, load.found, Fetch(kv, ssm, KeysOf(recs, kv), KeysOf(recs, ssm), None, None))
  }

  /** The registry's overdue pending records have failed. */
  function Expired(recs: seq<Rec>, registry: map<Hash, RecId>, cutoff: int): seq<Rec> {
    seq(|recs|, i requires 0 <= i < |recs| =>
      var r := recs[i];
      if r.status == Pending && r.evictedAt < cutoff && r.hash in registry && registry[r.hash] == i
      then r.(status := Failed) else r)
  }

  function Apply(c: Config, s: State, step: Step): State
    requires Enabled(s, step)
  {
    match step
    case Register(hash, ssm, numTokens, now) =>
      s.(recs := s.recs + [Rec(hash, ssm, numTokens, now, "", Pending, [])], registry := s.registry[hash := |s.recs|])
    case Submit(hash, ssm, direct, payload, quantized) =>
      s.(tasks := s.tasks + [Task(hash, ssm, direct, payload, quantized, Ready)])
    case ShipStore(t) => ShippedStore(c, s, t)
    case StoreFails(t) => SetPhase(SetStatus(s, s.tasks[t].hash, Failed), t, Over)
    case UpdateKey(t) => KeyUpdated(c, s, t)
    case MarkStored(t) => SetPhase(SetStatus(s, s.tasks[t].hash, Stored), t, Over)
    case MarkFailed(hash) => SetStatus(s, hash, Failed)
    case Expire(cutoff) => s.(recs := Expired(s.recs, s.registry, cutoff))
    case Remove(hash) =>
      if hash in s.registry && s.registry[hash] < |s.recs| then
        var k := s.recs[s.registry[hash]].vaultKey;
        s.(registry := s.registry - {hash}, index := if k != "" then s.index - {k} else s.index)
      else s
    case Evict(ssm, keys) =>
      var v := VaultOf(c, s, ssm);
      WithVault(c, s, ssm, v.(store := v.store - keys))
    case StartPlan(hashes) => s.(loads := s.loads + [Planning(hashes, [])])
    case PlanOne(l) => SetLoad(s, l, PlannedOne(s, s.loads[l]))
    case BuildMeta(l) => SetLoad(s, l, LookingUp(s.loads[l].plan, KeysOf(s.recs, s.loads[l].plan), []))
    case LookUpOne(l) =>
      var load := s.loads[l];
      SetLoad(s, l, LookingUp(load.plan, load.keys, load.found + [Lookup(s, load.keys[|load.found|])]))
    case StartExecute(l) => SetLoad(s, l, Started(s.recs, s.loads[l]))
    case FetchKv(l) =>
      SetLoad(s, l, WithFetch(s.loads[l], s.loads[l].fetch.(kvSeen := Some(VaultOf(c, s, false).store))))
    case FetchSsm(l) =>
      SetLoad(s, l, WithFetch(s.loads[l], s.loads[l].fetch.(ssmSeen := Some(VaultOf(c, s, true).store))))
    case Decode(l) => SetLoad(s, l, Decoded(c, s.recs, s.loads[l]))
  }

  function Execute(c: Config, steps: seq<Step>): Option<State> {
    if steps == [] then Some(Init()) else
      match Execute(c, steps[..|steps| - 1])
      case None => None
      case Some(s) => if Enabled(s, steps[|steps| - 1]) then Some(Apply(c, s, steps[|steps| - 1])) else None
  }

  // ---- the invariant -------------------------------------------------------------------------

  /** A key is either not set yet or embeds the hash it was made for. */
  ghost predicate KeyFor(h: Hash, k: string) {
    k == "" || exists n: nat :: k == VaultKey(Hex(h), n)
  }

  /** The block was stored under the hash its key embeds. */
  ghost predicate Backed(log: seq<(Hash, Block)>, k: string, b: Block) {
    exists h: Hash, n: nat :: (h, b) in log && k == VaultKey(Hex(h), n)
  }

  ghost predicate StoreOk(store: map<string, Block>, log: seq<(Hash, Block)>) {
    forall k :: k in store ==> Backed(log, k, store[k])
  }

  ghost predicate RecsOk(recs: seq<Rec>) {
    forall i :: 0 <= i < |recs| ==> KeyFor(recs[i].hash, recs[i].vaultKey)
  }

  ghost predicate RegistryOk(recs: seq<Rec>, registry: map<Hash, RecId>) {
    forall h :: h in registry ==> registry[h] < |recs| && recs[registry[h]].hash == h
  }

  ghost predicate IndexOk(index: map<string, Hash>) {
    forall k :: k in index ==> k != "" && KeyFor(index[k], k)
  }

  ghost predicate TasksOk(tasks: seq<Task>) {
    forall t :: 0 <= t < |tasks| && tasks[t].phase.Shipped? ==>
      tasks[t].phase.key != "" && KeyFor(tasks[t].hash, tasks[t].phase.key)
  }

  ghost predicate HalfOk(recs: seq<Rec>, log: seq<(Hash, Block)>, ids: seq<RecId>, keys: seq<string>, seen: Option<map<string, Block>>) {
    && |keys| == |ids|
    && (forall i :: 0 <= i < |ids| ==> ids[i] < |recs| && KeyFor(recs[ids[i]].hash, keys[i]))
    && (seen.Some? ==> StoreOk(seen.value, log))
  }

  ghost predicate FetchOk(recs: seq<Rec>, log: seq<(Hash, Block)>, found: seq<Option<RecId>>, f: Fetch) {
    && HalfOk(recs, log, f.kv, f.kvKeys, f.kvSeen) && HalfOk(recs, log, f.ssm, f.ssmKeys, f.ssmSeen)
    && f.kv == OfKind(recs, Present(found), false) && f.ssm == OfKind(recs, Present(found), true)
  }

  ghost predicate PlanOk(recs: seq<Rec>, plan: seq<RecId>) {
    forall i :: 0 <= i < |plan| ==> plan[i] < |recs|
  }

  /** Each shipped key was made for its planned record's hash, and what was found for it is a record of that hash. */
  ghost predicate FoundOk(recs: seq<Rec>, plan: seq<RecId>, keys: seq<string>, found: seq<Option<RecId>>) {
    && |found| <= |keys| == |plan|
    && PlanOk(recs, plan)
    && (forall i :: 0 <= i < |plan| ==> KeyFor(recs[plan[i]].hash, keys[i]))
    && (forall i :: 0 <= i < |found| && found[i].Some? ==>
          found[i].value < |recs| && recs[found[i].value].hash == recs[plan[i]].hash)
  }

  ghost predicate LoadOk(c: Config, recs: seq<Rec>, log: seq<(Hash, Block)>, load: Load) {
    match load
    case Planning(_, plan) => PlanOk(recs, plan)
    case Planned(plan) => PlanOk(recs, plan)
    case LookingUp(plan, keys, found) => FoundOk(recs, plan, keys, found)
    case Fetching(plan, keys, found, f) =>
      FoundOk(recs, plan, keys, found) && |found| == |keys| && FetchOk(recs, log, found, f)
    case Finished(plan, keys, found, f, entries) =>
      && FoundOk(recs, plan, keys, found) && |found| == |keys| && FetchOk(recs, log, found, f)
      && Complete(f) && entries == AllEntries(c, recs, f)
    case RaisedMismatch(plan, keys, found, f) => FoundOk(recs, plan, keys, found) && |found| == |keys|
  }

  ghost predicate Inv(c: Config, s: State) {
    && RecsOk(s.recs) && RegistryOk(s.recs, s.registry) && IndexOk(s.index) && TasksOk(s.tasks)
    && StoreOk(s.kvVault.store, s.log) && StoreOk(s.ssmVault.store, s.log)
    && forall l :: 0 <= l < |s.loads| ==> LoadOk(c, s.recs, s.log, s.loads[l])
  }

  /** Records are only ever added, and keep their hash, kind and token count. */
  ghost predicate Extends(a: seq<Rec>, b: seq<Rec>) {
    |a| <= |b| && forall i :: 0 <= i < |a| ==>
      b[i].hash == a[i].hash && b[i].ssm == a[i].ssm && b[i].numTokens == a[i].numTokens
  }

  lemma StoreOkGrows(store: map<string, Block>, log: seq<(Hash, Block)>, more: seq<(Hash, Block)>)
    requires StoreOk(store, log)
    ensures StoreOk(store, log + more)
  {
    forall k | k in store ensures Backed(log + more, k, store[k]) {
      var h: Hash, n: nat :| (h, store[k]) in log && k == VaultKey(Hex(h), n);
      assert (h, store[k]) in log + more;
    }
  }

  lemma {:induction false} EntriesStay(c: Config, a: seq<Rec>, b: seq<Rec>, ids: seq<RecId>, blocks: seq<Block>)
    requires Extends(a, b) && forall i :: 0 <= i < |ids| ==> ids[i] < |a|
    ensures RestoredEntries(c, b, ids, blocks) == RestoredEntries(c, a, ids, blocks)
  {
    if ids != [] && blocks != [] {
      EntriesStay(c, a, b, ids[1..], blocks[1..]);
    }
  }

  lemma HalfOkGrows(a: seq<Rec>, b: seq<Rec>, log: seq<(Hash, Block)>, more: seq<(Hash, Block)>,
                    ids: seq<RecId>, keys: seq<string>, seen: Option<map<string, Block>>)
    requires Extends(a, b) && HalfOk(a, log, ids, keys, seen)
    ensures HalfOk(b, log + more, ids, keys, seen)
  {
    hide KeyFor, StoreOk;
    if seen.Some? {
      StoreOkGrows(seen.value, log, more);
    }
  }

  lemma {:induction false} OfKindStays(a: seq<Rec>, b: seq<Rec>, ids: seq<RecId>, ssm: bool)
    requires Extends(a, b) && forall i :: 0 <= i < |ids| ==> ids[i] < |a|
    ensures OfKind(b, ids, ssm) == OfKind(a, ids, ssm)
  {
    if ids != [] {
      OfKindStays(a, b, ids[1..], ssm);
    }
  }

  /** What was found is exactly what is present, and `Present` keeps every occurrence. */
  lemma {:induction false} PresentFacts(found: seq<Option<RecId>>)
    ensures forall id :: id in Present(found) <==> Some(id) in found
  {
    if found != [] {
      PresentFacts(found[..|found| - 1]);
      assert found == found[..|found| - 1] + [found[|found| - 1]];
    }
  }

  lemma PresentInRange(recs: seq<Rec>, plan: seq<RecId>, keys: seq<string>, found: seq<Option<RecId>>)
    requires FoundOk(recs, plan, keys, found)
    ensures forall i :: 0 <= i < |Present(found)| ==> Present(found)[i] < |recs|
  {
    PresentFacts(found);
    hide KeyFor;
    forall i | 0 <= i < |Present(found)| ensures Present(found)[i] < |recs| {
      assert Present(found)[i] in Present(found);
    }
  }

  lemma FoundOkGrows(a: seq<Rec>, b: seq<Rec>, plan: seq<RecId>, keys: seq<string>, found: seq<Option<RecId>>)
    requires Extends(a, b) && FoundOk(a, plan, keys, found)
    ensures FoundOk(b, plan, keys, found)
  {
    hide KeyFor;
  }

  lemma FetchOkGrows(a: seq<Rec>, b: seq<Rec>, log: seq<(Hash, Block)>, more: seq<(Hash, Block)>,
                     found: seq<Option<RecId>>, f: Fetch)
    requires Extends(a, b) && FetchOk(a, log, found, f) && forall i :: 0 <= i < |Present(found)| ==> Present(found)[i] < |a|
    ensures FetchOk(b, log + more, found, f)
  {
    HalfOkGrows(a, b, log, more, f.kv, f.kvKeys, f.kvSeen);
    HalfOkGrows(a, b, log, more, f.ssm, f.ssmKeys, f.ssmSeen);
    OfKindStays(a, b, Present(found), false);
    OfKindStays(a, b, Present(found), true);
    hide HalfOk, OfKind, Present;
  }

  lemma EntriesGrow(c: Config, a: seq<Rec>, b: seq<Rec>, f: Fetch)
    requires Extends(a, b) && Complete(f)
    requires (forall i :: 0 <= i < |f.kv| ==> f.kv[i] < |a|) && (forall i :: 0 <= i < |f.ssm| ==> f.ssm[i] < |a|)
    ensures AllEntries(c, b, f) == AllEntries(c, a, f)
  {
    EntriesStay(c, a, b, f.kv, Answers(f.kvSeen.value, f.kvKeys));
    EntriesStay(c, a, b, f.ssm, Answers(f.ssmSeen.value, f.ssmKeys));
  }

  lemma LoadOkGrows(c: Config, a: seq<Rec>, b: seq<Rec>, log: seq<(Hash, Block)>, more: seq<(Hash, Block)>, load: Load)
    requires Extends(a, b) && LoadOk(c, a, log, load)
    ensures LoadOk(c, b, log + more, load)
  {
    if load.Fetching? || load.Finished? {
      HalfInRange(a, log, load.fetch, load.found);
      PresentInRange(a, load.plan, load.keys, load.found);
    }
    hide FetchOk, FoundOk, AllEntries, Present;
    if load.Planning? || load.Planned? {
      hide KeyFor;
    } else {
      FoundOkGrows(a, b, load.plan, load.keys, load.found);
      if load.Fetching? || load.Finished? {
        FetchOkGrows(a, b, log, more, load.found, load.fetch);
      }
      if load.Finished? {
        EntriesGrow(c, a, b, load.fetch);
      }
    }
  }

  lemma HalfInRange(recs: seq<Rec>, log: seq<(Hash, Block)>, f: Fetch, found: seq<Option<RecId>>)
    requires FetchOk(recs, log, found, f)
    ensures (forall i :: 0 <= i < |f.kv| ==> f.kv[i] < |recs|) && (forall i :: 0 <= i < |f.ssm| ==> f.ssm[i] < |recs|)
  {
    hide KeyFor, StoreOk, OfKind, Present;
  }

  lemma {:induction false} OfKindInRange(recs: seq<Rec>, ids: seq<RecId>, ssm: bool)
    ensures forall i :: 0 <= i < |OfKind(recs, ids, ssm)| ==> OfKind(recs, ids, ssm)[i] < |recs|
  {
    if ids != [] {
      OfKindInRange(recs, ids[1..], ssm);
    }
  }

  lemma StartOk(recs: seq<Rec>, log: seq<(Hash, Block)>, ids: seq<RecId>, ssm: bool)
    requires RecsOk(recs)
    ensures HalfOk(recs, log, OfKind(recs, ids, ssm), KeysOf(recs, OfKind(recs, ids, ssm)), None)
  {
    OfKindInRange(recs, ids, ssm);
  }

  lemma PlannedOneOk(c: Config, s: State, load: Load)
    requires RegistryOk(s.recs, s.registry) && load.Planning? && PlanOk(s.recs, load.plan)
    ensures LoadOk(c, s.recs, s.log, PlannedOne(s, load))
  {
  }

  lemma KeysReadOk(s: State, plan: seq<RecId>)
    requires RecsOk(s.recs) && PlanOk(s.recs, plan)
    ensures FoundOk(s.recs, plan, KeysOf(s.recs, plan), [])
  {
    hide KeyFor;
  }

  /** A key made for a hash, if the registry knows it, leads to a record of that hash. */
  lemma LookupLeadsHome(s: State, h: Hash, k: string)
    requires RegistryOk(s.recs, s.registry) && IndexOk(s.index) && KeyFor(h, k)
    ensures Lookup(s, k).Some? ==> s.index[k] == h && Lookup(s, k).value < |s.recs| && s.recs[Lookup(s, k).value].hash == h
  {
    if Lookup(s, k).Some? {
      SameHash(h, s.index[k], k);
    }
  }

  lemma SameHash(h: Hash, g: Hash, k: string)
    requires KeyFor(h, k) && KeyFor(g, k) && k != ""
    ensures h == g
  {
    var n: nat :| k == VaultKey(Hex(h), n);
    var m: nat :| k == VaultKey(Hex(g), m);
    VaultKeyInjective(Hex(h), n, Hex(g), m);
    HexInjective(h, g);
  }

  lemma FoundOneOk(s: State, plan: seq<RecId>, keys: seq<string>, found: seq<Option<RecId>>)
    requires RegistryOk(s.recs, s.registry) && IndexOk(s.index)
    requires FoundOk(s.recs, plan, keys, found) && |found| < |keys|
    ensures FoundOk(s.recs, plan, keys, found + [Lookup(s, keys[|found|])])
  {
    var i := |found|;
    LookupLeadsHome(s, s.recs[plan[i]].hash, keys[i]);
    hide KeyFor, Lookup, RegistryOk, IndexOk;
  }

  lemma StartedOk(c: Config, s: State, load: Load)
    requires RecsOk(s.recs) && load.LookingUp? && |load.found| == |load.keys| && FoundOk(s.recs, load.plan, load.keys, load.found)
    ensures LoadOk(c, s.recs, s.log, Started(s.recs, load))
  {
    StartOk(s.recs, s.log, Present(load.found), false);
    StartOk(s.recs, s.log, Present(load.found), true);
    hide HalfOk, FoundOk, OfKind, Present, RecsOk;
  }

  lemma SeenOk(c: Config, s: State, load: Load, store: map<string, Block>, ssm: bool)
    requires load.Fetching? && LoadOk(c, s.recs, s.log, load) && StoreOk(store, s.log)
    ensures LoadOk(c, s.recs, s.log,
      WithFetch(load, if ssm then load.fetch.(ssmSeen := Some(store)) else load.fetch.(kvSeen := Some(store))))
  {
    hide FoundOk, OfKind, Present, KeyFor, StoreOk;
  }

  lemma DecodedOk(c: Config, s: State, load: Load)
    requires load.Fetching? && LoadOk(c, s.recs, s.log, load) && Complete(load.fetch)
    ensures LoadOk(c, s.recs, s.log, Decoded(c, s.recs, load))
  {
    hide FoundOk, FetchOk, AllEntries, AnyMismatch;
  }

  /** Steps on loads change only the one load. */
  lemma LoadStepKeepsLoad(c: Config, s: State, step: Step, l: nat)
    requires Inv(c, s) && Enabled(s, step) && l < |s.loads| && Touches(step, l)
    ensures var s' := Apply(c, s, step);
      l < |s'.loads| && LoadOk(c, s'.recs, s'.log, s'.loads[l])
  {
    LoadParts(c, s, l);
    hide Inv, LoadOk, RecsOk, RegistryOk, IndexOk, TasksOk, StoreOk, FoundOk, PlanOk, PlannedOne, Started, Decoded, KeysOf, Lookup;
    var load := s.loads[l];
    match step
    case PlanOne(_) => PlannedOneOk(c, s, load);
    case BuildMeta(_) =>
      KeysReadOk(s, load.plan);
      LookingUpOk(c, s, load.plan, KeysOf(s.recs, load.plan), []);
    case LookUpOne(_) =>
      FoundOneOk(s, load.plan, load.keys, load.found);
      LookingUpOk(c, s, load.plan, load.keys, load.found + [Lookup(s, load.keys[|load.found|])]);
    case StartExecute(_) => StartedOk(c, s, load);
    case FetchKv(_) => SeenOk(c, s, load, VaultOf(c, s, false).store, false);
    case FetchSsm(_) => SeenOk(c, s, load, VaultOf(c, s, true).store, true);
    case Decode(_) => DecodedOk(c, s, load);
  }

  lemma LoadParts(c: Config, s: State, l: nat)
    requires Inv(c, s) && l < |s.loads|
    ensures LoadOk(c, s.recs, s.log, s.loads[l])
    ensures RecsOk(s.recs) && RegistryOk(s.recs, s.registry) && IndexOk(s.index)
    ensures StoreOk(s.kvVault.store, s.log) && StoreOk(s.ssmVault.store, s.log)
    ensures s.loads[l].Planning? || s.loads[l].Planned? ==> PlanOk(s.recs, s.loads[l].plan)
    ensures s.loads[l].LookingUp? ==> FoundOk(s.recs, s.loads[l].plan, s.loads[l].keys, s.loads[l].found)
  {
    assert LoadOk(c, s.recs, s.log, s.loads[l]);
    hide RecsOk, RegistryOk, IndexOk, TasksOk, StoreOk, FoundOk, PlanOk, FetchOk;
  }

  lemma LookingUpOk(c: Config, s: State, plan: seq<RecId>, keys: seq<string>, found: seq<Option<RecId>>)
    requires FoundOk(s.recs, plan, keys, found)
    ensures LoadOk(c, s.recs, s.log, LookingUp(plan, keys, found))
  {
    hide FoundOk;
  }

  lemma StepExtends(c: Config, s: State, step: Step)
    requires Enabled(s, step)
    ensures var s' := Apply(c, s, step); Extends(s.recs, s'.recs) && s.log <= s'.log
  {
    RecordsExtend(c, s, step);
    LogGrows(c, s, step);
  }

  lemma LogGrows(c: Config, s: State, step: Step)
    requires Enabled(s, step)
    ensures s.log <= Apply(c, s, step).log
  {
    hide VaultKey, Hex, PlannedOne, KeysOf, Lookup, Started, Decoded, Complete, IsStored;
  }

  lemma StatusExtends(s: State, h: Hash, status: Status)
    ensures Extends(s.recs, SetStatus(s, h, status).recs)
  {
  }

  lemma KeyUpdateExtends(c: Config, s: State, t: nat)
    requires t < |s.tasks| && s.tasks[t].phase.Shipped?
    ensures Extends(s.recs, KeyUpdated(c, s, t).recs)
  {
  }

  lemma RecordsExtend(c: Config, s: State, step: Step)
    requires Enabled(s, step)
    ensures Extends(s.recs, Apply(c, s, step).recs)
  {
    match step
    case UpdateKey(t) =>
      KeyUpdateExtends(c, s, t);
    case StoreFails(t) =>
      hide Extends;
      StatusExtends(s, s.tasks[t].hash, Failed);
    case MarkStored(t) =>
      hide Extends;
      StatusExtends(s, s.tasks[t].hash, Stored);
    case MarkFailed(hash) =>
      StatusExtends(s, hash, Failed);
    case _ =>
      hide SetStatus, KeyUpdated, VaultKey, Hex, PlannedOne, KeysOf, Lookup, Started, Decoded, Complete, IsStored;
  }

  lemma KeyForMade(h: Hash, n: nat)
    ensures VaultKey(Hex(h), n) != "" && KeyFor(h, VaultKey(Hex(h), n))
  {
    assert VaultKey(Hex(h), n)[0] == 'v';
  }

  lemma StepKeepsRecs(c: Config, s: State, step: Step)
    requires RecsOk(s.recs) && RegistryOk(s.recs, s.registry) && TasksOk(s.tasks) && Enabled(s, step)
    ensures RecsOk(Apply(c, s, step).recs)
  {
    hide KeyFor, VaultKey, Hex;
    assert forall h :: KeyFor(h, "") by { EmptyKey(); }
    if step.UpdateKey? {
      var task := s.tasks[step.t];
      assert KeyFor(task.hash, task.phase.key);
    }
  }

  lemma EmptyKey()
    ensures forall h :: KeyFor(h, "")
  {
  }

  lemma StepKeepsRegistry(c: Config, s: State, step: Step)
    requires RegistryOk(s.recs, s.registry) && Enabled(s, step)
    ensures RegistryOk(Apply(c, s, step).recs, Apply(c, s, step).registry)
  {
    RecordsExtend(c, s, step);
    RegistryOkGrows(s.recs, Apply(c, s, step).recs, s.registry);
    if step.Register? || step.Remove? {
      hide VaultKey, Hex, Extends;
    } else {
      RegistryStays(c, s, step);
      hide RegistryOk, Apply, Enabled;
    }
  }

  lemma RegistryOkGrows(a: seq<Rec>, b: seq<Rec>, registry: map<Hash, RecId>)
    requires RegistryOk(a, registry) && Extends(a, b)
    ensures RegistryOk(b, registry)
  {
  }

  lemma RegistryStays(c: Config, s: State, step: Step)
    requires Enabled(s, step) && !step.Register? && !step.Remove?
    ensures Apply(c, s, step).registry == s.registry
  {
    hide KeyFor, VaultOf, AllEntries, VaultKey, Hex, PlannedOne, KeysOf, Lookup, Started, Decoded, Complete, IsStored, Expired;
    if step.UpdateKey? {
      KeyUpdateKeepsRegistry(c, s, step.t);
    }
    hide KeyUpdated;
  }

  lemma KeyUpdateKeepsRegistry(c: Config, s: State, t: nat)
    requires t < |s.tasks| && s.tasks[t].phase.Shipped?
    ensures KeyUpdated(c, s, t).registry == s.registry
  {
  }

  lemma StepKeepsIndex(c: Config, s: State, step: Step)
    requires IndexOk(s.index) && TasksOk(s.tasks) && Enabled(s, step)
    ensures IndexOk(Apply(c, s, step).index)
  {
    hide KeyFor, VaultKey, Hex;
  }

  lemma StepKeepsTasks(c: Config, s: State, step: Step)
    requires TasksOk(s.tasks) && Enabled(s, step)
    ensures TasksOk(Apply(c, s, step).tasks)
  {
    hide KeyFor, VaultKey, Hex, TasksOk, RegistryOk, PlannedOne, KeysOf, Lookup, Started, Decoded, Complete, IsStored;
    match step
    case Submit(hash, ssm, direct, payload, quantized) =>
      NewTaskOk(s.tasks, Task(hash, ssm, direct, payload, quantized, Ready));
    case ShipStore(t) =>
      KeyForMade(s.tasks[t].hash, VaultOf(c, s, s.tasks[t].ssm).counter);
      TaskStepOk(s.tasks, t, Shipped(VaultKey(Hex(s.tasks[t].hash), VaultOf(c, s, s.tasks[t].ssm).counter)));
    case StoreFails(t) => TaskStepOk(s.tasks, t, Over);
    case UpdateKey(t) => TaskStepOk(s.tasks, t, Keyed);
    case MarkStored(t) => TaskStepOk(s.tasks, t, Over);
    case _ =>
  }

  lemma NewTaskOk(tasks: seq<Task>, task: Task)
    requires TasksOk(tasks) && task.phase.Ready?
    ensures TasksOk(tasks + [task])
  {
    hide KeyFor;
  }

  lemma TaskStepOk(tasks: seq<Task>, t: nat, p: TaskPhase)
    requires TasksOk(tasks) && t < |tasks| && (p.Shipped? ==> p.key != "" && KeyFor(tasks[t].hash, p.key))
    ensures TasksOk(tasks[t := tasks[t].(phase := p)])
  {
    hide KeyFor;
  }

  lemma ShipKeepsStore(v: Vault, log: seq<(Hash, Block)>, h: Hash, b: Block)
    requires StoreOk(v.store, log)
    ensures StoreOk(v.store[VaultKey(Hex(h), v.counter) := b], log + [(h, b)])
  {
    StoreOkGrows(v.store, log, [(h, b)]);
    assert (h, b) in log + [(h, b)];
    assert Backed(log + [(h, b)], VaultKey(Hex(h), v.counter), b);
  }

  lemma StepKeepsStores(c: Config, s: State, step: Step)
    requires StoreOk(s.kvVault.store, s.log) && StoreOk(s.ssmVault.store, s.log) && Enabled(s, step)
    ensures var s' := Apply(c, s, step); StoreOk(s'.kvVault.store, s'.log) && StoreOk(s'.ssmVault.store, s'.log)
  {
    match step
    case ShipStore(t) => ShipKeepsStores(c, s, t);
    case Evict(ssm, keys) => EvictKeepsStores(c, s, ssm, keys);
    case _ =>
      StoresStay(c, s, step);
      hide StoreOk, Apply, Enabled;
  }

  lemma ShipKeepsStores(c: Config, s: State, t: nat)
    requires StoreOk(s.kvVault.store, s.log) && StoreOk(s.ssmVault.store, s.log) && t < |s.tasks|
    ensures var s' := ShippedStore(c, s, t); StoreOk(s'.kvVault.store, s'.log) && StoreOk(s'.ssmVault.store, s'.log)
  {
    hide StoreOk, VaultKey, Hex;
    var task := s.tasks[t];
    var block := Block(Hex(task.hash), task.payload, task.quantized);
    ShipKeepsStore(VaultOf(c, s, task.ssm), s.log, task.hash, block);
    StoreOkGrows(s.kvVault.store, s.log, [(task.hash, block)]);
    StoreOkGrows(s.ssmVault.store, s.log, [(task.hash, block)]);
  }

  lemma EvictKeepsStores(c: Config, s: State, ssm: bool, keys: set<string>)
    requires StoreOk(s.kvVault.store, s.log) && StoreOk(s.ssmVault.store, s.log)
    ensures var s' := Apply(c, s, Evict(ssm, keys)); StoreOk(s'.kvVault.store, s'.log) && StoreOk(s'.ssmVault.store, s'.log)
  {
    hide Backed;
  }

  lemma StoresStay(c: Config, s: State, step: Step)
    requires Enabled(s, step) && !step.ShipStore? && !step.Evict?
    ensures var s' := Apply(c, s, step); s'.kvVault == s.kvVault && s'.ssmVault == s.ssmVault && s'.log == s.log
  {
    hide VaultOf, AllEntries, VaultKey, Hex, PlannedOne, KeysOf, Lookup, Started, Decoded, Complete, IsStored;
  }

  lemma StepKeepsLoads(c: Config, s: State, step: Step)
    requires Inv(c, s) && Enabled(s, step)
    ensures var s' := Apply(c, s, step);
      forall l :: 0 <= l < |s'.loads| ==> LoadOk(c, s'.recs, s'.log, s'.loads[l])
  {
    var s' := Apply(c, s, step);
    StepExtends(c, s, step);
    forall l | 0 <= l < |s'.loads| ensures LoadOk(c, s'.recs, s'.log, s'.loads[l]) {
      if Touches(step, l) {
        LoadStepKeepsLoad(c, s, step, l);
      } else if l < |s.loads| {
        UntouchedLoad(c, s, step, l);
        assert s'.log == s.log + s'.log[|s.log|..];
        assert LoadOk(c, s.recs, s.log, s.loads[l]);
        LoadOkGrows(c, s.recs, s'.recs, s.log, s'.log[|s.log|..], s.loads[l]);
      } else {
        NewLoad(c, s, step, l);
      }
    }
  }

  predicate Touches(step: Step, l: nat) {
    || step == PlanOne(l) || step == BuildMeta(l) || step == LookUpOne(l) || step == StartExecute(l)
    || step == FetchKv(l) || step == FetchSsm(l) || step == Decode(l)
  }

  lemma UntouchedLoad(c: Config, s: State, step: Step, l: nat)
    requires Enabled(s, step) && !Touches(step, l) && l < |s.loads|
    ensures l < |Apply(c, s, step).loads| && Apply(c, s, step).loads[l] == s.loads[l]
  {
    hide VaultKey, Hex;
  }

  lemma NewLoad(c: Config, s: State, step: Step, l: nat)
    requires Enabled(s, step) && !Touches(step, l) && |s.loads| <= l < |Apply(c, s, step).loads|
    ensures Apply(c, s, step).loads[l].Planning? && Apply(c, s, step).loads[l].plan == []
  {
    hide VaultKey, Hex;
  }

  lemma StepKeepsInv(c: Config, s: State, step: Step)
    requires Inv(c, s) && Enabled(s, step)
    ensures Inv(c, Apply(c, s, step))
  {
    StepKeepsLoads(c, s, step);
    hide RecsOk, RegistryOk, IndexOk, TasksOk, StoreOk, LoadOk, Enabled, VaultKey, Hex;
    StepKeepsRecs(c, s, step);
    StepKeepsRegistry(c, s, step);
    StepKeepsIndex(c, s, step);
    StepKeepsTasks(c, s, step);
    StepKeepsStores(c, s, step);
  }

  lemma {:induction false} RunsKeepInv(c: Config, steps: seq<Step>)
    ensures match Execute(c, steps) case None => true case Some(s) => Inv(c, s)
  {
    if steps == [] {
      InitInv(c);
    } else {
      var n := |steps| - 1;
      RunsKeepInv(c, steps[..n]);
      hide Inv, Apply, Enabled;
      match Execute(c, steps[..n])
      case None =>
      case Some(s) =>
        if Enabled(s, steps[n]) {
          StepKeepsInv(c, s, steps[n]);
        }
    }
  }

  lemma InitInv(c: Config)
    ensures Inv(c, Init())
  {
  }
}
