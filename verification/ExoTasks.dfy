/**
 * The EXO cold vault with its stores and promotions interleaved. A store inserts under the store lock,
 * and only then, under the order lock, queues, counts and evicts. A promotion may come in between.
 */
module ExoTasks {
  import opened Common
  import opened ExoVault

  /** How far a store call has come; `total` is what its `fetch_add` made of the counter. */
  datatype Phase = Ready | Inserted | Counted(total: word) | Done

  datatype Task<T> = Task(kv: Tensor<T>, phase: Phase)

  datatype State<T> = State(vault: Vault<T>, orderLock: Option<nat>, tasks: seq<Task<T>>)

  datatype Step<T> =
    | Spawn(kv: Tensor<T>)
    | Insert(t: nat)
    | Count(t: nat)
    | Trim(t: nat)
    | PromoteKey(key: Key)
    | PromoteBatch(token: nat, layers: seq<nat>)

  function Init<T>(max: nat): State<T> { State(Empty(max), None, []) }

  /** Callers only store a key that is not held, and everything together fits the counter. */
  ghost predicate Enabled<T>(s: State<T>, step: Step<T>) {
    match step
    case Insert(t) =>
      && t < |s.tasks| && s.tasks[t].phase.Ready?
      && s.tasks[t].kv.key !in s.vault.store && HeldBytes(s.vault.store) + |s.tasks[t].kv.data| < WORD
    case Count(t) => t < |s.tasks| && s.tasks[t].phase.Inserted? && s.orderLock == None
    case Trim(t) => t < |s.tasks| && s.tasks[t].phase.Counted?
    case _ => true
  }

  function At<T>(s: State<T>, t: nat, p: Phase): State<T>
    requires t < |s.tasks|
  {
    s.(tasks := s.tasks[t := s.tasks[t].(phase := p)])
  }

  function Inserting<T>(v: Vault<T>, kv: Tensor<T>): Vault<T> { v.(store := v.store[kv.key := kv]) }

  function Counting<T>(v: Vault<T>, kv: Tensor<T>): Vault<T> {
    v.(order := v.order + [Entry(kv.key, |kv.data|)], current := Wrap(v.current + |kv.data|))
  }

  function Trimming<T>(v: Vault<T>, total: word): Vault<T> { if v.max > 0 && total > v.max then Evict(v) else v }

  function Apply<T>(s: State<T>, step: Step<T>): State<T>
    requires Enabled(s, step)
  {
    match step
    case Spawn(kv) => s.(tasks := s.tasks + [Task(kv, Ready)])
    case Insert(t) => At(s, t, Inserted).(vault := Inserting(s.vault, s.tasks[t].kv))
    case Count(t) =>
      var v := Counting(s.vault, s.tasks[t].kv);
      At(s, t, Counted(v.current)).(vault := v, orderLock := Some(t))
    case Trim(t) => At(s, t, Done).(vault := Trimming(s.vault, s.tasks[t].phase.total), orderLock := None)
    case PromoteKey(key) => s.(vault := Promote(s.vault, key).1)
    case PromoteBatch(token, layers) => s.(vault := BatchPromote(s.vault, token, layers).1)
  }

  /** The state after these steps, or `None` if one of them was not possible when it was taken. */
  ghost function After<T>(s: State<T>, steps: seq<Step<T>>): Option<State<T>>
    decreases |steps|
  {
    if steps == [] then Some(s)
    else if Enabled(s, steps[0]) then After(Apply(s, steps[0]), steps[1..])
    else None
  }

  /** With nothing in between, the three steps are the sequential store. */
  lemma StepsMakeStore<T>(v: Vault<T>, kv: Tensor<T>)
    ensures var w := Counting(Inserting(v, kv), kv); Store(v, kv) == Trimming(w, w.current)
  {
  }

  // ---- the invariant -------------------------------------------------------------------------

  /** The bytes inserted by calls that have not counted them yet. */
  function InFlight<T>(tasks: seq<Task<T>>): nat {
    if tasks == [] then 0 else
      InFlight(tasks[1..]) + if tasks[0].phase.Inserted? then |tasks[0].kv.data| else 0
  }

  lemma {:induction false} InFlightUpdate<T>(tasks: seq<Task<T>>, t: nat, task: Task<T>)
    requires t < |tasks|
    ensures InFlight(tasks[t := task]) == InFlight(tasks)
      - (if tasks[t].phase.Inserted? then |tasks[t].kv.data| else 0)
      + (if task.phase.Inserted? then |task.kv.data| else 0)
  {
    if t > 0 {
      InFlightUpdate(tasks[1..], t - 1, task);
      assert tasks[t := task][1..] == tasks[1..][t - 1 := task];
    }
  }

  lemma {:induction false} InFlightAppend<T>(tasks: seq<Task<T>>, kv: Tensor<T>)
    ensures InFlight(tasks + [Task(kv, Ready)]) == InFlight(tasks)
  {
    if tasks == [] {
      assert [] + [Task(kv, Ready)] == [Task(kv, Ready)];
    } else {
      InFlightAppend(tasks[1..], kv);
      assert (tasks + [Task(kv, Ready)])[1..] == tasks[1..] + [Task(kv, Ready)];
    }
  }

  /** Each key always has the same number of bytes. */
  ghost predicate SizesAre<T>(s: State<T>, size: Key -> nat) {
    && (forall i :: 0 <= i < |s.vault.order| ==> s.vault.order[i].size == size(s.vault.order[i].key))
    && (forall k :: k in s.vault.store ==> |s.vault.store[k].data| == size(k))
    && (forall t :: 0 <= t < |s.tasks| ==> |s.tasks[t].kv.data| == size(s.tasks[t].kv.key))
  }

  ghost predicate InsertedBy<T>(tasks: seq<Task<T>>, k: Key) {
    exists t :: 0 <= t < |tasks| && tasks[t].phase.Inserted? && tasks[t].kv.key == k
  }

  /** A held key has a queue entry, or the call that inserted it is still on its way. */
  ghost predicate HeldIsKnown<T>(s: State<T>) {
    forall k :: k in s.vault.store ==> Queued(s.vault.order, k) || InsertedBy(s.tasks, k)
  }

  ghost predicate LockOk<T>(s: State<T>) {
    && (s.orderLock.Some? ==> s.orderLock.value < |s.tasks|)
    && forall t :: 0 <= t < |s.tasks| ==> (s.tasks[t].phase.Counted? <==> s.orderLock == Some(t))
  }

  /** What the counter stands for, without the wrap-around: negative while a block is promoted before it was counted. */
  ghost function Net<T>(s: State<T>): int { HeldBytes(s.vault.store) - InFlight(s.tasks) }

  /** Over the limit only while the call that went over it holds the order lock. */
  ghost predicate LimitOk<T>(s: State<T>) {
    s.vault.max == 0 || Net(s) <= s.vault.max
    || (s.orderLock.Some? && s.orderLock.value < |s.tasks|
        && s.tasks[s.orderLock.value].phase.Counted? && s.tasks[s.orderLock.value].phase.total > s.vault.max)
  }

  ghost predicate Inv<T>(s: State<T>, size: Key -> nat) {
    && SizesAre(s, size) && HeldIsKnown(s) && LockOk(s) && LimitOk(s)
    && HeldBytes(s.vault.store) < WORD
    && OffBy(s.vault, -(InFlight(s.tasks) as int))
  }

  lemma InvParts<T>(s: State<T>, size: Key -> nat)
    requires Inv(s, size)
    ensures SizesAre(s, size) && HeldIsKnown(s) && LockOk(s) && LimitOk(s)
    ensures HeldBytes(s.vault.store) < WORD && OffBy(s.vault, -(InFlight(s.tasks) as int))
  {
    hide SizesAre, HeldIsKnown, LockOk, LimitOk, HeldBytes, OffBy, InFlight;
  }

  lemma PartsInv<T>(s: State<T>, size: Key -> nat)
    requires SizesAre(s, size) && HeldIsKnown(s) && LockOk(s) && LimitOk(s)
    requires HeldBytes(s.vault.store) < WORD && OffBy(s.vault, -(InFlight(s.tasks) as int))
    ensures Inv(s, size)
  {
    hide SizesAre, HeldIsKnown, LockOk, LimitOk, HeldBytes, OffBy, InFlight;
  }

  // ---- every step keeps it -------------------------------------------------------------------

  lemma InsertKeepsInv<T>(s: State<T>, t: nat, size: Key -> nat)
    requires Inv(s, size) && Enabled(s, Insert(t))
    ensures Inv(Apply(s, Insert(t)), size)
  {
    var s', kv := Apply(s, Insert(t)), s.tasks[t].kv;
    HeldInsert(s.vault.store, kv);
    InFlightUpdate(s.tasks, t, s'.tasks[t]);
    hide HeldBytes, InFlight, Wrap;
    InsertedStays(s, s', t);
  }

  lemma InsertedStays<T>(s: State<T>, s': State<T>, t: nat)
    requires HeldIsKnown(s) && t < |s.tasks| && s'.vault.order == s.vault.order
    requires s'.tasks == s.tasks[t := s.tasks[t].(phase := Inserted)] && !s.tasks[t].phase.Inserted?
    requires s'.vault.store.Keys == s.vault.store.Keys + {s.tasks[t].kv.key}
    ensures HeldIsKnown(s')
  {
    assert s'.tasks[t].phase.Inserted?;
    forall k | k in s'.vault.store ensures Queued(s'.vault.order, k) || InsertedBy(s'.tasks, k) {
      if k != s.tasks[t].kv.key && !Queued(s.vault.order, k) {
        var u :| 0 <= u < |s.tasks| && s.tasks[u].phase.Inserted? && s.tasks[u].kv.key == k;
        assert s'.tasks[u] == s.tasks[u];
      }
    }
  }

  lemma CountKeepsInv<T>(s: State<T>, t: nat, size: Key -> nat)
    requires Inv(s, size) && Enabled(s, Count(t))
    ensures Inv(Apply(s, Count(t)), size)
  {
    hide *;
    InvParts(s, size);
    CountTakesLock(s, t);
    CountSizes(s, t, size);
    CountOffset(s, t);
    CountedIsQueued(s, Apply(s, Count(t)), t);
    CountedLimit(Apply(s, Count(t)), t);
    PartsInv(Apply(s, Count(t)), size);
  }

  lemma CountedLimit<T>(s: State<T>, t: nat)
    requires t < |s.tasks| && s.orderLock == Some(t) && s.tasks[t].phase == Counted(s.vault.current) && Net(s) <= s.vault.current
    ensures LimitOk(s)
  {
    hide Net;
  }

  lemma CountTakesLock<T>(s: State<T>, t: nat)
    requires Enabled(s, Count(t))
    ensures var s' := Apply(s, Count(t));
      && t < |s.tasks| == |s'.tasks| && s'.orderLock == Some(t) && s'.tasks[t].phase == Counted(s'.vault.current)
      && s'.vault.order != [] && s'.vault.max == s.vault.max && s'.vault.store == s.vault.store
      && s'.vault.order == s.vault.order + [Entry(s.tasks[t].kv.key, |s.tasks[t].kv.data|)]
      && forall u :: 0 <= u < |s.tasks| && u != t ==> s'.tasks[u] == s.tasks[u]
  {
  }

  lemma CountSizes<T>(s: State<T>, t: nat, size: Key -> nat)
    requires SizesAre(s, size) && LockOk(s) && Enabled(s, Count(t))
    ensures SizesAre(Apply(s, Count(t)), size) && LockOk(Apply(s, Count(t)))
  {
  }

  lemma CountOffset<T>(s: State<T>, t: nat)
    requires OffBy(s.vault, -(InFlight(s.tasks) as int)) && HeldBytes(s.vault.store) < WORD && Enabled(s, Count(t))
    ensures var s' := Apply(s, Count(t));
      && s'.vault.store == s.vault.store && OffBy(s'.vault, -(InFlight(s'.tasks) as int)) && Net(s') <= s'.vault.current
  {
    var s', kv := Apply(s, Count(t)), s.tasks[t].kv;
    InFlightUpdate(s.tasks, t, s'.tasks[t]);
    WrapFacts(Net(s), |kv.data|);
    WrapBelow(Net(s'));
    hide HeldBytes, InFlight, Wrap;
  }

  lemma WrapBelow(a: int)
    requires a < WORD
    ensures a <= Wrap(a)
  {
  }

  lemma CountedIsQueued<T>(s: State<T>, s': State<T>, t: nat)
    requires HeldIsKnown(s) && t < |s.tasks| && s'.vault.store == s.vault.store
    requires s'.vault.order == s.vault.order + [Entry(s.tasks[t].kv.key, |s.tasks[t].kv.data|)]
    requires |s'.tasks| == |s.tasks| && forall u :: 0 <= u < |s.tasks| && u != t ==> s'.tasks[u] == s.tasks[u]
    ensures HeldIsKnown(s')
  {
    forall k | k in s'.vault.store ensures Queued(s'.vault.order, k) || InsertedBy(s'.tasks, k) {
      if Queued(s.vault.order, k) {
        var i :| 0 <= i < |s.vault.order| && s.vault.order[i].key == k;
        assert s'.vault.order[i].key == k;
      } else {
        var u :| 0 <= u < |s.tasks| && s.tasks[u].phase.Inserted? && s.tasks[u].kv.key == k;
        if u == t {
          assert s'.vault.order[|s.vault.order|].key == k;
        } else {
          assert s'.tasks[u].phase.Inserted?;
        }
      }
    }
  }

  /** Eviction keeps sizes, what is known about held keys, and the meaning of the counter, and ends within the limit or with an empty queue. */
  lemma {:induction false} EvictFacts<T>(s: State<T>, size: Key -> nat, d: int)
    requires SizesAre(s, size) && HeldIsKnown(s) && OffBy(s.vault, d)
    ensures var s' := s.(vault := Evict(s.vault));
      && SizesAre(s', size) && HeldIsKnown(s') && OffBy(s'.vault, d)
      && HeldBytes(s'.vault.store) <= HeldBytes(s.vault.store)
      && (s'.vault.current <= s'.vault.max || s'.vault.order == [])
    decreases |s.vault.order|
  {
    if s.vault.current > s.vault.max && s.vault.order != [] {
      var p := s.(vault := Pop(s.vault));
      PopKeepsOffset(s.vault, d);
      HeldSubmap(p.vault.store, s.vault.store);
      PopKeepsKnown(s);
      hide OffBy, HeldBytes, HeldIsKnown;
      EvictFacts(p, size, d);
    }
  }

  lemma PopKeepsKnown<T>(s: State<T>)
    requires HeldIsKnown(s) && s.vault.order != []
    ensures HeldIsKnown(s.(vault := Pop(s.vault)))
  {
    var v, w := s.vault, Pop(s.vault);
    forall k | k in w.store ensures Queued(w.order, k) || InsertedBy(s.tasks, k) {
      if Queued(v.order, k) {
        var i :| 0 <= i < |v.order| && v.order[i].key == k;
        assert w.order[i - 1].key == k;
      }
    }
  }

  /** With an empty queue everything held is still uncounted. */
  lemma {:induction false} HeldAreInFlight<T>(m: map<Key, Tensor<T>>, tasks: seq<Task<T>>, size: Key -> nat)
    requires forall k :: k in m ==> InsertedBy(tasks, k) && |m[k].data| == size(k)
    requires forall t :: 0 <= t < |tasks| ==> |tasks[t].kv.data| == size(tasks[t].kv.key)
    ensures HeldBytes(m) <= InFlight(tasks)
  {
    if tasks == [] {
      assert m == map[];
    } else {
      var k, rest := tasks[0].kv.key, tasks[1..];
      var m' := if tasks[0].phase.Inserted? then m - {k} else m;
      forall q | q in m' ensures InsertedBy(rest, q) {
        var t :| 0 <= t < |tasks| && tasks[t].phase.Inserted? && tasks[t].kv.key == q;
        assert rest[t - 1] == tasks[t];
      }
      HeldAreInFlight(m', rest, size);
      if tasks[0].phase.Inserted? {
        if k in m {
          HeldRemove(m, k);
        } else {
          assert m' == m;
        }
      }
    }
  }

  lemma TrimKeepsInv<T>(s: State<T>, t: nat, size: Key -> nat)
    requires Inv(s, size) && Enabled(s, Trim(t))
    ensures Inv(Apply(s, Trim(t)), size)
  {
    TrimTasks(s, t);
    TrimVault(s, t, size);
    var s' := Apply(s, Trim(t));
    var evicted := s.(vault := s'.vault);
    assert SizesAre(s', size) by {
      assert SizesAre(evicted, size);
      hide HeldBytes, InFlight, Wrap, Evict, InsertedBy, OffBy;
    }
    hide HeldBytes, InFlight, Wrap, Evict, InsertedBy, OffBy, SizesAre, Queued;
  }

  /** Trimming changes nothing that is known about the calls, and gives the lock back. */
  lemma TrimTasks<T>(s: State<T>, t: nat)
    requires LockOk(s) && Enabled(s, Trim(t))
    ensures var s' := Apply(s, Trim(t));
      && LockOk(s') && s'.orderLock == None && InFlight(s'.tasks) == InFlight(s.tasks)
      && (forall k :: InsertedBy(s'.tasks, k) <==> InsertedBy(s.tasks, k))
      && |s'.tasks| == |s.tasks| && forall u :: 0 <= u < |s.tasks| ==> s'.tasks[u].kv == s.tasks[u].kv
  {
    var s' := Apply(s, Trim(t));
    InFlightUpdate(s.tasks, t, s'.tasks[t]);
    SameInserted(s.tasks, t, s'.tasks[t]);
    hide InFlight, InsertedBy, Evict;
  }

  lemma TrimVault<T>(s: State<T>, t: nat, size: Key -> nat)
    requires Inv(s, size) && Enabled(s, Trim(t))
    ensures var e := s.(vault := Apply(s, Trim(t)).vault);
      && SizesAre(e, size) && HeldIsKnown(e) && OffBy(e.vault, -(InFlight(s.tasks) as int))
      && HeldBytes(e.vault.store) < WORD && e.vault.max == s.vault.max && (e.vault.max > 0 ==> Net(e) <= e.vault.max)
  {
    hide *;
    InvParts(s, size);
    TrimIs(s, t);
    if s.vault.max > 0 && s.tasks[t].phase.total > s.vault.max {
      EvictFacts(s, size, -(InFlight(s.tasks) as int));
      EvictKeepsMax(s.vault);
      TrimmedIsBelow(s.(vault := Evict(s.vault)), size);
    } else {
      assert s.(vault := s.vault) == s;
      WithinLimit(s, t);
    }
  }

  lemma WithinLimit<T>(s: State<T>, t: nat)
    requires LimitOk(s) && LockOk(s) && t < |s.tasks| && s.tasks[t].phase.Counted?
    requires s.vault.max > 0 ==> s.tasks[t].phase.total <= s.vault.max
    ensures s.vault.max > 0 ==> Net(s) <= s.vault.max
  {
    hide Net;
  }

  /** A task that was not in the inserted phase and does not enter it changes nothing for anybody. */
  lemma SameInserted<T>(tasks: seq<Task<T>>, t: nat, task: Task<T>)
    requires t < |tasks| && !tasks[t].phase.Inserted? && !task.phase.Inserted?
    ensures forall k :: InsertedBy(tasks[t := task], k) <==> InsertedBy(tasks, k)
  {
    var tasks' := tasks[t := task];
    forall k ensures InsertedBy(tasks', k) <==> InsertedBy(tasks, k) {
      if u :| 0 <= u < |tasks| && tasks[u].phase.Inserted? && tasks[u].kv.key == k {
        assert tasks'[u] == tasks[u];
      }
      if u :| 0 <= u < |tasks'| && tasks'[u].phase.Inserted? && tasks'[u].kv.key == k {
        assert tasks'[u] == tasks[u];
      }
    }
  }

  lemma TrimmedIsBelow<T>(s: State<T>, size: Key -> nat)
    requires SizesAre(s, size) && HeldIsKnown(s) && OffBy(s.vault, -(InFlight(s.tasks) as int)) && HeldBytes(s.vault.store) < WORD
    requires s.vault.current <= s.vault.max || s.vault.order == []
    ensures Net(s) <= s.vault.max
  {
    WrapBelow(Net(s));
    if s.vault.order == [] {
      assert forall k :: !Queued([], k);
      HeldAreInFlight(s.vault.store, s.tasks, size);
    }
  }

  lemma PromoteKeepsInv<T>(s: State<T>, key: Key, size: Key -> nat)
    requires Inv(s, size)
    ensures Inv(s.(vault := Promote(s.vault, key).1), size)
  {
    hide *;
    InvParts(s, size);
    PromoteOffset(s, key);
    PromoteKnown(s, key, size);
    PartsInv(s.(vault := Promote(s.vault, key).1), size);
  }

  lemma PromoteOffset<T>(s: State<T>, key: Key)
    requires OffBy(s.vault, -(InFlight(s.tasks) as int)) && HeldBytes(s.vault.store) < WORD && LimitOk(s)
    ensures var s' := s.(vault := Promote(s.vault, key).1);
      OffBy(s'.vault, -(InFlight(s.tasks) as int)) && HeldBytes(s'.vault.store) < WORD && LimitOk(s')
  {
    if key in s.vault.store {
      HeldRemove(s.vault.store, key);
      WrapFacts(Net(s), |s.vault.store[key].data|);
      hide HeldBytes, InFlight, Wrap;
    }
  }

  lemma PromoteKnown<T>(s: State<T>, key: Key, size: Key -> nat)
    requires SizesAre(s, size) && HeldIsKnown(s) && LockOk(s)
    ensures var s' := s.(vault := Promote(s.vault, key).1); SizesAre(s', size) && HeldIsKnown(s') && LockOk(s')
  {
    hide Queued, InsertedBy;
  }

  lemma {:induction false} PromoteBatchKeepsInv<T>(s: State<T>, token: nat, layers: seq<nat>, size: Key -> nat)
    requires Inv(s, size)
    ensures Inv(s.(vault := BatchPromote(s.vault, token, layers).1), size)
    decreases |layers|
  {
    hide Inv;
    if layers == [] {
      assert s.(vault := s.vault) == s;
    } else {
      var key := Key(token, layers[0]);
      PromoteKeepsInv(s, key, size);
      PromoteBatchKeepsInv(s.(vault := Promote(s.vault, key).1), token, layers[1..], size);
    }
  }

  lemma SpawnKeepsInv<T>(s: State<T>, kv: Tensor<T>, size: Key -> nat)
    requires Inv(s, size) && |kv.data| == size(kv.key)
    ensures Inv(Apply(s, Spawn(kv)), size)
  {
    var s' := Apply(s, Spawn(kv));
    InFlightAppend(s.tasks, kv);
    hide HeldBytes, InFlight, OffBy;
    forall k | InsertedBy(s.tasks, k) ensures InsertedBy(s'.tasks, k) {
      var t :| 0 <= t < |s.tasks| && s.tasks[t].phase.Inserted? && s.tasks[t].kv.key == k;
      assert s'.tasks[t] == s.tasks[t];
    }
  }

  lemma StepKeepsInv<T>(s: State<T>, step: Step<T>, size: Key -> nat)
    requires Inv(s, size) && Enabled(s, step)
    requires step.Spawn? ==> |step.kv.data| == size(step.kv.key)
    ensures Inv(Apply(s, step), size)
  {
    hide Inv;
    match step
    case Spawn(kv) => SpawnKeepsInv(s, kv, size);
    case Insert(t) => InsertKeepsInv(s, t, size);
    case Count(t) => CountKeepsInv(s, t, size);
    case Trim(t) => TrimKeepsInv(s, t, size);
    case PromoteKey(key) => PromoteKeepsInv(s, key, size);
    case PromoteBatch(token, layers) => PromoteBatchKeepsInv(s, token, layers, size);
  }

  /** Stores and promotions in any interleaving, each key always at one size. */
  ghost predicate OneSize<T>(steps: seq<Step<T>>, size: Key -> nat) {
    forall i :: 0 <= i < |steps| && steps[i].Spawn? ==> |steps[i].kv.data| == size(steps[i].kv.key)
  }

  lemma {:induction false} RunsKeepInv<T>(s: State<T>, steps: seq<Step<T>>, size: Key -> nat)
    requires Inv(s, size) && OneSize(steps, size)
    ensures match After(s, steps) case None => true case Some(s') => Inv(s', size) && s'.vault.max == s.vault.max
    decreases |steps|
  {
    hide Inv;
    if steps != [] && Enabled(s, steps[0]) {
      StepKeepsInv(s, steps[0], size);
      StepKeepsMax(s, steps[0]);
      RunsKeepInv(Apply(s, steps[0]), steps[1..], size);
    }
  }

  lemma StepKeepsMax<T>(s: State<T>, step: Step<T>)
    requires Enabled(s, step)
    ensures Apply(s, step).vault.max == s.vault.max
  {
    EvictKeepsMax(s.vault);
    if step.PromoteBatch? {
      BatchKeepsMax(s.vault, step.token, step.layers);
    }
  }

  ghost predicate Quiescent<T>(s: State<T>) {
    forall t :: 0 <= t < |s.tasks| ==> s.tasks[t].phase.Ready? || s.tasks[t].phase.Done?
  }

  lemma {:induction false} NothingInFlight<T>(tasks: seq<Task<T>>)
    requires forall t :: 0 <= t < |tasks| ==> !tasks[t].phase.Inserted?
    ensures InFlight(tasks) == 0
  {
    if tasks != [] {
      NothingInFlight(tasks[1..]);
    }
  }

  lemma InitInv<T>(max: nat, size: Key -> nat)
    ensures Inv(Init<T>(max), size)
  {
  }

  /**
   * In every interleaving of stores and destructive promotions: whenever no store is in progress, the
   * counter is exactly the bytes held and within the limit.
   */
  lemma QuiescentIsExact<T>(max: nat, steps: seq<Step<T>>, size: Key -> nat, s: State<T>)
    requires OneSize(steps, size) && After(Init(max), steps) == Some(s) && Quiescent(s)
    ensures Exact(s.vault) && (max > 0 ==> s.vault.current <= max)
  {
    InitInv<T>(max, size);
    RunsKeepInv(Init(max), steps, size);
    NothingInFlight(s.tasks);
    WrapFacts(HeldBytes(s.vault.store), 0);
    hide HeldBytes, InFlight, Wrap;
  }

  /** In every state of a run the counter is right exactly when no bytes are inserted and not yet counted. */
  lemma ExactIffNothingInFlight<T>(s: State<T>, size: Key -> nat)
    requires Inv(s, size) && InFlight(s.tasks) < WORD
    ensures Exact(s.vault) <==> InFlight(s.tasks) == 0
  {
    OffsetDecides(s.vault, -(InFlight(s.tasks) as int));
  }

  // ---- when a store evicts -------------------------------------------------------------------------

  /** The counter, read as a word, is over the limit: too much is counted, or less than nothing. */
  ghost predicate LooksOver<T>(s: State<T>) { Net(s) < 0 || Net(s) > s.vault.max }

  /** Room for the limit next to the bytes in flight. */
  ghost predicate FitsWord<T>(s: State<T>) { InFlight(s.tasks) + s.vault.max < WORD }

  lemma LooksOverIff<T>(s: State<T>, size: Key -> nat)
    requires Inv(s, size) && FitsWord(s)
    ensures s.vault.current > s.vault.max <==> LooksOver(s)
  {
    WrapAround(Net(s), s.vault.max);
    hide HeldBytes, InFlight, Wrap;
  }

  /** While a call holds the order lock, the others insert and promote: the queue stays, and the count can only fall. */
  lemma {:induction false} WhileLocked<T>(s: State<T>, steps: seq<Step<T>>, t: nat, size: Key -> nat)
    requires Inv(s, size) && OneSize(steps, size) && t < |s.tasks| && s.orderLock == Some(t) && Trim(t) !in steps
    requires After(s, steps).Some?
    ensures var s' := After(s, steps).value;
      && Inv(s', size) && s'.orderLock == Some(t) && t < |s'.tasks| && s'.tasks[t] == s.tasks[t]
      && s'.vault.order == s.vault.order && s'.vault.max == s.vault.max && Net(s') <= Net(s)
    decreases |steps|
  {
    hide Inv, Net, Apply, Enabled;
    if steps != [] {
      StepKeepsInv(s, steps[0], size);
      StepWhileLocked(s, steps[0], t, size);
      WhileLocked(Apply(s, steps[0]), steps[1..], t, size);
    }
  }

  lemma StepWhileLocked<T>(s: State<T>, step: Step<T>, t: nat, size: Key -> nat)
    requires Inv(s, size) && Enabled(s, step) && t < |s.tasks| && s.orderLock == Some(t) && step != Trim(t)
    requires step.Spawn? ==> |step.kv.data| == size(step.kv.key)
    ensures var s' := Apply(s, step);
      && s'.orderLock == Some(t) && t < |s'.tasks| && s'.tasks[t] == s.tasks[t]
      && s'.vault.order == s.vault.order && s'.vault.max == s.vault.max && Net(s') <= Net(s)
  {
    var s' := Apply(s, step);
    match step
    case Spawn(kv) =>
      InFlightAppend(s.tasks, kv);
      hide InFlight, HeldBytes;
    case Insert(u) =>
      HeldInsert(s.vault.store, s.tasks[u].kv);
      InFlightUpdate(s.tasks, u, s'.tasks[u]);
      hide InFlight, HeldBytes;
    case Count(u) =>
    case Trim(u) =>
    case PromoteKey(key) =>
      HeldSubmap(s'.vault.store, s.vault.store);
    case PromoteBatch(token, layers) =>
      BatchKeepsMax(s.vault, token, layers);
      BatchHoldsLess(s.vault, token, layers);
      HeldSubmap(s'.vault.store, s.vault.store);
  }

  lemma {:induction false} BatchHoldsLess<T>(v: Vault<T>, token: nat, layers: seq<nat>)
    ensures var w := BatchPromote(v, token, layers).1; forall k :: k in w.store ==> k in v.store && w.store[k] == v.store[k]
    decreases |layers|
  {
    if layers != [] {
      BatchHoldsLess(Promote(v, Key(token, layers[0])).1, token, layers[1..]);
    }
  }

  /** What a trim that evicts leaves: the queue from the first point on at which the count fits and is not below zero. */
  lemma TrimStops<T>(s: State<T>, t: nat, size: Key -> nat) returns (n: nat)
    requires Inv(s, size) && Enabled(s, Trim(t)) && FitsWord(s) && s.vault.max > 0 && s.tasks[t].phase.total > s.vault.max
    ensures var d := -(InFlight(s.tasks) as int);
      && Dropped(s.vault, Apply(s, Trim(t)).vault, n)
      && (n < |s.vault.order| ==> 0 <= LeftAfter(s.vault, d, n) <= s.vault.max)
      && forall m: nat :: m < n ==> LeftAfter(s.vault, d, m) < 0 || LeftAfter(s.vault, d, m) > s.vault.max
  {
    hide *;
    InvParts(s, size);
    SizesMeanHeldSizes(s, size);
    TrimIs(s, t);
    RoomForCount(s);
    n := EvictStops(s.vault, -(InFlight(s.tasks) as int));
  }

  lemma RoomForCount<T>(s: State<T>)
    requires FitsWord(s)
    ensures s.vault.max - WORD < -(InFlight(s.tasks) as int)
  {
  }

  lemma TrimIs<T>(s: State<T>, t: nat)
    requires Enabled(s, Trim(t))
    ensures t < |s.tasks| && s.tasks[t].phase.Counted?
    ensures Apply(s, Trim(t)).vault == if s.vault.max > 0 && s.tasks[t].phase.total > s.vault.max then Evict(s.vault) else s.vault
  {
    hide Evict;
  }

  lemma SizesMeanHeldSizes<T>(s: State<T>, size: Key -> nat)
    requires SizesAre(s, size)
    ensures HeldSizes(s.vault.store, s.vault.order)
  {
  }

  /** A trim changes the vault exactly if the counter looked over the limit when it was added to and still does. */
  lemma TrimEvictsIff<T>(s: State<T>, t: nat, size: Key -> nat)
    requires Inv(s, size) && Enabled(s, Trim(t)) && FitsWord(s) && s.vault.max > 0 && s.vault.order != []
    ensures Apply(s, Trim(t)).vault != s.vault <==> s.tasks[t].phase.total > s.vault.max && LooksOver(s)
  {
    LooksOverIff(s, size);
    hide HeldBytes, InFlight, Wrap, Inv, LooksOver;
    if s.vault.current > s.vault.max {
      EvictShrinks(s.vault);
    }
  }

  lemma {:induction false} EvictShrinks<T>(v: Vault<T>)
    ensures |Evict(v).order| <= |v.order|
    ensures v.current > v.max && v.order != [] ==> |Evict(v).order| < |v.order|
    decreases |v.order|
  {
    if v.current > v.max && v.order != [] {
      EvictShrinks(Pop(v));
    }
  }

  /** The blocks that are held and have no queue entry, which are all still to be counted by the call that inserted them. */
  ghost predicate OnlyUnqueuedLeft<T>(s: State<T>, s': State<T>) {
    && s'.vault.order == []
    && s'.vault.store == (map k | k in s.vault.store && !Queued(s.vault.order, k) :: s.vault.store[k])
    && forall k :: k in s'.vault.store ==> InsertedBy(s'.tasks, k)
  }

  /** Below zero a trim that evicts empties the queue. */
  lemma TrimBelowZero<T>(s: State<T>, t: nat, size: Key -> nat)
    requires Inv(s, size) && Enabled(s, Trim(t)) && FitsWord(s) && s.vault.max > 0 && s.tasks[t].phase.total > s.vault.max
    requires Net(s) < 0
    ensures OnlyUnqueuedLeft(s, Apply(s, Trim(t)))
  {
    hide *;
    var n := TrimStops(s, t, size);
    InvParts(s, size);
    NetMeans(s);
    NeverAgainFits(s.vault, Apply(s, Trim(t)).vault, -(InFlight(s.tasks) as int), n);
    TrimTasks(s, t);
    QueueGone(s, Apply(s, Trim(t)));
  }

  lemma NetMeans<T>(s: State<T>)
    ensures Net(s) == HeldBytes(s.vault.store) - InFlight(s.tasks)
  {
  }

  lemma QueueGone<T>(s: State<T>, s': State<T>)
    requires HeldIsKnown(s) && Dropped(s.vault, s'.vault, |s.vault.order|)
    requires forall k :: InsertedBy(s.tasks, k) ==> InsertedBy(s'.tasks, k)
    ensures OnlyUnqueuedLeft(s, s')
  {
    assert s.vault.order[..|s.vault.order|] == s.vault.order;
    hide InsertedBy;
  }

  lemma NeverAgainFits<T>(v: Vault<T>, w: Vault<T>, d: int, n: nat)
    requires HeldBytes(v.store) + d < 0 && Dropped(v, w, n) && (n < |v.order| ==> 0 <= LeftAfter(v, d, n))
    ensures n == |v.order|
  {
    hide HeldBytes, Freed;
  }

  /**
   * A store that counts in state `s`, whatever else happens until it trims. It evicts exactly if the counter looks over the
   * limit both times. So when what it counted fits the limit, it evicts exactly if the bytes held were fewer than the bytes in
   * flight, and then everything in the queue goes.
   */
  lemma StoreEvictsIff<T>(s: State<T>, t: nat, steps: seq<Step<T>>, size: Key -> nat)
    requires Inv(s, size) && s.vault.max > 0 && Enabled(s, Count(t)) && OneSize(steps, size) && Trim(t) !in steps
    requires var s1 := Apply(s, Count(t)); FitsWord(s1) && After(s1, steps).Some? && FitsWord(After(s1, steps).value)
    ensures var s1 := Apply(s, Count(t));
      var s2 := After(s1, steps).value;
      && Inv(s2, size) && Enabled(s2, Trim(t))
      && var s3 := Apply(s2, Trim(t));
      && (s3.vault != s2.vault <==> LooksOver(s1) && LooksOver(s2))
      && (Net(s1) <= s.vault.max ==> (s3.vault != s2.vault <==> HeldBytes(s1.vault.store) < InFlight(s1.tasks)))
      && (s3.vault != s2.vault && Net(s2) < 0 ==> OnlyUnqueuedLeft(s2, s3))
  {
    var s1 := Apply(s, Count(t));
    CountKeepsInv(s, t, size);
    CountTakesLock(s, t);
    hide Inv, Net, Apply, Enabled, HeldBytes, InFlight, FitsWord, OneSize, After;
    LooksOverIff(s1, size);
    WhileLocked(s1, steps, t, size);
    var s2 := After(s1, steps).value;
    TrimIsEnabled(s2, t);
    TrimEvictsIff(s2, t, size);
    if LooksOver(s1) && Net(s2) < 0 {
      TrimBelowZero(s2, t, size);
    }
    NetMeans(s1);
  }

  lemma TrimIsEnabled<T>(s: State<T>, t: nat)
    requires t < |s.tasks| && s.tasks[t].phase.Counted?
    ensures Enabled(s, Trim(t))
  {
  }

  /** The same in every run: the steps before the count are any that are possible from an empty vault. */
  lemma RunsEvictIff<T>(max: nat, before: seq<Step<T>>, t: nat, steps: seq<Step<T>>, size: Key -> nat)
    requires max > 0 && OneSize(before, size) && OneSize(steps, size) && Trim(t) !in steps
    requires After(Init(max), before).Some? && Enabled(After(Init(max), before).value, Count(t))
    requires var s1 := Apply(After(Init(max), before).value, Count(t));
      FitsWord(s1) && After(s1, steps).Some? && FitsWord(After(s1, steps).value)
    ensures var s1 := Apply(After(Init(max), before).value, Count(t));
      var s2 := After(s1, steps).value;
      && Enabled(s2, Trim(t)) && s2.vault.max == max
      && var s3 := Apply(s2, Trim(t));
      && (s3.vault != s2.vault <==> LooksOver(s1) && LooksOver(s2))
      && (Net(s1) <= max ==> (s3.vault != s2.vault <==> HeldBytes(s1.vault.store) < InFlight(s1.tasks)))
      && (s3.vault != s2.vault && Net(s2) < 0 ==> OnlyUnqueuedLeft(s2, s3))
  {
    InitInv<T>(max, size);
    RunsKeepInv(Init(max), before, size);
    var s := After(Init(max), before).value;
    CountKeepsInv(s, t, size);
    CountTakesLock(s, t);
    hide Inv, Apply, Enabled, FitsWord, OneSize, After, Net, LooksOver, OnlyUnqueuedLeft;
    WhileLocked(Apply(s, Count(t)), steps, t, size);
    StoreEvictsIff(s, t, steps, size);
  }

  // ---- what may happen in between ----------------------------------------------------------------

  /** While the counter stands below zero, eviction never finds it within the limit before the queue is empty. */
  lemma {:induction false} EvictsAll<T>(v: Vault<T>, n: nat)
    requires HeldSizes(v.store, v.order) && OffBy(v, -(n as int)) && HeldBytes(v.store) < n < WORD - v.max
    requires forall k :: k in v.store ==> Queued(v.order, k)
    ensures Evict(v).store == map[] && Evict(v).order == [] && OffBy(Evict(v), -(n as int))
    decreases |v.order|
  {
    BelowZero(HeldBytes(v.store) - n);
    if v.order == [] {
      assert forall k :: !Queued([], k);
    } else {
      var w := Pop(v);
      PopKeepsOffset(v, -(n as int));
      HeldSubmap(w.store, v.store);
      PopKeepsKnown(State(v, None, []));
      assert forall k :: !InsertedBy<T>([], k);
      hide HeldBytes, OffBy, Wrap;
      EvictsAll(w, n);
    }
  }

  lemma BelowZero(a: int)
    requires -WORD < a < 0
    ensures Wrap(a) == WORD + a
  {
  }

  /**
   * If a block is promoted after its store inserted it and before that store counted it, and it is larger
   * than everything else together, the counter wraps around; the next store then evicts the whole vault,
   * itself included, although everything would have fitted.
   */
  lemma EarlyPromotionEmptiesVault<T>(v: Vault<T>, kv: Tensor<T>, x: Tensor<T>)
    requires Sound(v) && v.max > 0 && kv.key != x.key
    requires kv.key !in v.store && x.key !in v.store && !Queued(v.order, x.key)
    requires HeldBytes(v.store) + |x.data| < |kv.data| && HeldBytes(v.store) + |x.data| <= v.max
    requires HeldBytes(v.store) + |x.data| + |kv.data| + v.max < WORD
    ensures var s := State(v, None, [Task(kv, Ready), Task(x, Ready)]);
      var steps := [Insert(0), PromoteKey(kv.key), Insert(1), Count(1), Trim(1)];
      && After(s, steps).Some?
      && After(s, steps).value.vault.store == map[] && After(s, steps).value.vault.order == []
  {
    var n := |kv.data|;
    var steps := [Insert(0), PromoteKey(kv.key), Insert(1), Count(1), Trim(1)];
    var s := State(v, None, [Task(kv, Ready), Task(x, Ready)]);
    var p := v.(current := Wrap(v.current - n));
    PromotedEarly(v, kv);
    var s2 := State(p, None, [Task(kv, Inserted), Task(x, Ready)]);
    AfterTwo(s, steps);
    FirstTwo(s, s2, kv, x);
    var w := Counting(Inserting(p, x), x);
    CountedWhileBelow(v, x, n);
    EvictsAll(w, n);
    AfterThree(s2, steps[2..]);
    hide Evict, HeldBytes, Wrap, OffBy, Sound, HeldSizes, After, BatchPromote;
  }

  lemma PromotedEarly<T>(v: Vault<T>, kv: Tensor<T>)
    requires kv.key !in v.store
    ensures Promote(Inserting(v, kv), kv.key).1 == v.(current := Wrap(v.current - |kv.data|))
  {
    assert Inserting(v, kv).store - {kv.key} == v.store;
  }

  lemma FirstTwo<T>(s: State<T>, s2: State<T>, kv: Tensor<T>, x: Tensor<T>)
    requires s.tasks == [Task(kv, Ready), Task(x, Ready)] && kv.key !in s.vault.store
    requires s2 == State(s.vault.(current := Wrap(s.vault.current - |kv.data|)), s.orderLock, [Task(kv, Inserted), Task(x, Ready)])
    requires Enabled(s, Insert(0))
    ensures Apply(Apply(s, Insert(0)), PromoteKey(kv.key)) == s2
  {
    PromotedEarly(s.vault, kv);
    hide Wrap, HeldBytes, Promote;
    assert Apply(s, Insert(0)).tasks == [Task(kv, Inserted), Task(x, Ready)];
  }

  lemma AfterTwo<T>(s: State<T>, steps: seq<Step<T>>)
    requires |steps| >= 2 && Enabled(s, steps[0]) && Enabled(Apply(s, steps[0]), steps[1])
    ensures After(s, steps) == After(Apply(Apply(s, steps[0]), steps[1]), steps[2..])
  {
    assert steps[1..][1..] == steps[2..];
    hide Enabled, Apply;
  }

  lemma AfterThree<T>(s: State<T>, steps: seq<Step<T>>)
    requires |steps| == 3 && Enabled(s, steps[0]) && Enabled(Apply(s, steps[0]), steps[1])
    requires Enabled(Apply(Apply(s, steps[0]), steps[1]), steps[2])
    ensures After(s, steps) == Some(Apply(Apply(Apply(s, steps[0]), steps[1]), steps[2]))
  {
    AfterTwo(s, steps);
    hide Enabled, Apply;
    assert steps[2..][0] == steps[2] && steps[2..][1..] == [];
  }

  lemma CountedWhileBelow<T>(v: Vault<T>, x: Tensor<T>, n: nat)
    requires Sound(v) && x.key !in v.store && !Queued(v.order, x.key)
    requires HeldBytes(v.store) + |x.data| < n && HeldBytes(v.store) + |x.data| + n + v.max < WORD
    ensures var w := Counting(Inserting(v.(current := Wrap(v.current - n)), x), x);
      && HeldSizes(w.store, w.order) && OffBy(w, -(n as int)) && HeldBytes(w.store) < n < WORD - w.max
      && (forall k :: k in w.store ==> Queued(w.order, k))
      && w.current > w.max
  {
    HeldInsert(v.store, x);
    WrapFacts(v.current - n, |x.data|);
    BelowZero(v.current - n + |x.data|);
    hide HeldBytes, Wrap;
    var w := Counting(Inserting(v.(current := Wrap(v.current - n)), x), x);
    assert w.order[|v.order|].key == x.key;
    forall k | k in v.store ensures Queued(w.order, k) {
      var i :| 0 <= i < |v.order| && v.order[i].key == k;
      assert w.order[i].key == k;
    }
    forall i | 0 <= i < |v.order| ensures v.order[i].key != x.key {
      assert Queued(v.order, v.order[i].key);
    }
  }
}
