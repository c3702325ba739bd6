/**
 * The vLLM vault under concurrency. Any number of stores are in progress at once; each one takes
 * its counter value, inserts under the store lock, and only then queues, counts and evicts under
 * the order lock. Every scheduler choice is one `Step`.
 */
module VaultTasks {
  import opened Common
  import opened VaultKeys
  import opened VllmVault

  /** How far one store has come; from `Locked` on it owns the order lock, from `Checking` on the store lock too. */
  datatype Phase =
    | Ready | Allocated | Inserted
    | Locked | Queued | Counted(total: int)
    | Checking | Popping | Popped(entry: QueueEntry) | Removed(entry: QueueEntry)
    | Done
  {
    predicate OwnsOrder() { !Ready? && !Allocated? && !Inserted? && !Done? }
    predicate OwnsStore() { Checking? || Popping? || Popped? || Removed? }
    /** Holds a counter value that is not in the history yet. */
    predicate Unpushed() { Allocated? || Inserted? || Locked? }
    /** Its key is in the store but not in the queue. */
    predicate InStoreOnly() { Inserted? || Locked? }
  }

  datatype Task = Task(item: StoredBlock, phase: Phase)

  datatype State = State(
    max: nat,
    store: map<string, Block>,
    order: seq<QueueEntry>,
    bytes: int,
    counter: nat,
    orderLock: Option<nat>,
    storeLock: Option<nat>,
    tasks: seq<Task>,
    history: seq<StoredBlock>)

  datatype Step =
    | Spawn(block: Block)
    | Advance(t: nat)
    | Promote(keys: seq<string>)
    | Flush

  function Init(max: nat): State { State(max, map[], [], 0, 0, None, None, [], []) }

  predicate Quiescent(s: State) {
    forall t :: 0 <= t < |s.tasks| ==> s.tasks[t].phase == Ready || s.tasks[t].phase == Done
  }

  /** Whether the next action of a task in this phase has the lock it needs. */
  predicate CanAdvance(s: State, p: Phase) {
    match p
    case Done => false
    case Allocated => s.storeLock == None
    case Inserted => s.orderLock == None
    case Counted(total) => s.max > 0 && total > s.max ==> s.storeLock == None
    case _ => true
  }

  predicate Enabled(s: State, step: Step) {
    match step
    case Spawn(_) => true
    case Advance(t) => t < |s.tasks| && CanAdvance(s, s.tasks[t].phase)
    case Promote(_) => s.storeLock == None
    case Flush => Quiescent(s) && s.storeLock == None && s.orderLock == None
  }

  function At(s: State, t: nat, p: Phase): State
    requires t < |s.tasks|
  {
    s.(tasks := s.tasks[t := s.tasks[t].(phase := p)])
  }

  function Released(s: State, t: nat): State
    requires t < |s.tasks|
  {
    At(s, t, Done).(orderLock := None, storeLock := None)
  }

  function Advanced(s: State, t: nat): State
    requires t < |s.tasks| && CanAdvance(s, s.tasks[t].phase)
  {
    var item := s.tasks[t].item;
    match s.tasks[t].phase
    case Ready =>
      s.(counter := s.counter + 1, tasks := s.tasks[t := Task(item.(seqNo := s.counter), Allocated)])
    case Allocated => At(s, t, Inserted).(store := s.store[item.Key() := item.block])
    case Inserted => At(s, t, Locked).(orderLock := Some(t))
    case Locked => At(s, t, Queued).(order := s.order + [item.Entry()], history := s.history + [item])
    case Queued => At(s, t, Counted(s.bytes + item.Size())).(bytes := s.bytes + item.Size())
    case Counted(total) =>
      if s.max > 0 && total > s.max then At(s, t, Checking).(storeLock := Some(t))
      else At(s, t, Done).(orderLock := None)
    case Checking => if s.bytes > s.max then At(s, t, Popping) else Released(s, t)
    case Popping =>
      if s.order == [] then Released(s, t)
      else At(s, t, Popped(s.order[0])).(order := s.order[1..])
    case Popped(e) =>
      if e.key in s.store then At(s, t, Removed(e)).(store := s.store - {e.key}) else At(s, t, Checking)
    case Removed(e) => At(s, t, Checking).(bytes := s.bytes - e.size)
  }

  function Apply(s: State, step: Step): State
    requires Enabled(s, step)
  {
    match step
    case Spawn(b) => s.(tasks := s.tasks + [Task(StoredBlock(0, b), Ready)])
    case Advance(t) => Advanced(s, t)
    case Promote(_) => s
    case Flush => s.(store := map[], order := [], bytes := 0, history := [])
  }

  /** What `Promote(keys)` answers in a state where the store's read lock can be had. */
  function Answers(s: State, keys: seq<string>): seq<Block> {
    seq(|keys|, i requires 0 <= i < |keys| => if keys[i] in s.store then s.store[keys[i]] else MISSING)
  }

  /** The state after a whole run, or `None` if some step was not possible when it was taken. */
  function Execute(max: nat, steps: seq<Step>): Option<State> {
    if steps == [] then Some(Init(max)) else
      var last := |steps| - 1;
      match Execute(max, steps[..last])
      case None => None
      case Some(s) => if Enabled(s, steps[last]) then Some(Apply(s, steps[last])) else None
  }

  // ---- the invariant -------------------------------------------------------------------------

  /** The phase of whoever holds the order lock; `Done` if nobody does. */
  function Owner(s: State): Phase {
    if s.orderLock.Some? && s.orderLock.value < |s.tasks| then s.tasks[s.orderLock.value].phase else Done
  }

  function OwnerItem(s: State): StoredBlock {
    if s.orderLock.Some? && s.orderLock.value < |s.tasks| then s.tasks[s.orderLock.value].item
    else StoredBlock(0, MISSING)
  }

  /** The last `n` stores of the history: what a queue of that length still lists. */
  function Last(h: seq<StoredBlock>, n: nat): seq<StoredBlock> {
    if n <= |h| then h[|h| - n..] else h
  }

  /** How much of the history the store still holds: one more while an entry is popped but not removed. */
  function HeldCount(queued: nat, owner: Phase): nat { if owner.Popped? then queued + 1 else queued }

  ghost function StoreOnlyKeys(tasks: seq<Task>): set<string> {
    set t | 0 <= t < |tasks| && tasks[t].phase.InStoreOnly() :: tasks[t].item.Key()
  }

  ghost predicate LocksOk(tasks: seq<Task>, orderLock: Option<nat>, storeLock: Option<nat>) {
    && (orderLock.Some? ==> orderLock.value < |tasks|)
    && (storeLock.Some? ==> storeLock.value < |tasks|)
    && (forall t :: 0 <= t < |tasks| ==> (tasks[t].phase.OwnsOrder() <==> orderLock == Some(t)))
    && (forall t :: 0 <= t < |tasks| ==> (tasks[t].phase.OwnsStore() <==> storeLock == Some(t)))
  }

  /** Counter values are never drawn twice. */
  ghost predicate NumbersOk(tasks: seq<Task>, history: seq<StoredBlock>, counter: nat) {
    && Distinct(history)
    && (forall x :: x in history ==> x.seqNo < counter)
    && (forall t :: 0 <= t < |tasks| && tasks[t].phase.Unpushed() ==> NumberOk(tasks[t].item.seqNo, history, counter))
    && (forall t, u :: 0 <= t < u < |tasks| && tasks[t].phase.Unpushed() && tasks[u].phase.Unpushed() ==>
        tasks[t].item.seqNo != tasks[u].item.seqNo)
  }

  ghost predicate NumberOk(n: nat, history: seq<StoredBlock>, counter: nat) {
    n < counter && forall x :: x in history ==> x.seqNo != n
  }

  /** The byte counter lags behind the queue only inside the order lock, by exactly the entry being handled. */
  ghost predicate AccountsOk(order: seq<QueueEntry>, history: seq<StoredBlock>, max: nat, bytes: int,
                             owner: Phase, item: StoredBlock)
  {
    && |order| <= |history|
    && var live := Last(history, |order|);
    && order == Entries(live)
    && Retain(live, max) == Retain(history, max)
    && match owner
       case Queued => history != [] && history[|history| - 1] == item && bytes + item.Size() == Bytes(live)
       case Counted(total) => total == bytes == Bytes(live)
       case Checking => max > 0 && bytes == Bytes(live)
       case Popping => max > 0 && bytes == Bytes(live) && bytes > max
       case Popped(e) => max > 0 && PoppedOk(|order|, history, bytes, e)
       case Removed(e) => max > 0 && PoppedOk(|order|, history, bytes, e)
       case _ => bytes == Bytes(live) && live == Retain(history, max) && (max > 0 ==> bytes <= max)
  }

  ghost predicate PoppedOk(queued: nat, history: seq<StoredBlock>, bytes: int, e: QueueEntry) {
    && queued < |history|
    && e == history[|history| - queued - 1].Entry()
    && bytes == Bytes(Last(history, queued)) + e.size
  }

  /** The store holds the queued blocks, plus those of tasks between inserting and queueing; nothing else. */
  ghost predicate StoreOk(store: map<string, Block>, held: seq<StoredBlock>, tasks: seq<Task>) {
    && store.Keys == Keys(held) + StoreOnlyKeys(tasks)
    && (forall x :: x in held ==> x.Key() in store && store[x.Key()] == x.block)
    && (forall t :: 0 <= t < |tasks| && tasks[t].phase.InStoreOnly() ==>
        tasks[t].item.Key() in store && store[tasks[t].item.Key()] == tasks[t].item.block)
  }

  function Held(s: State): seq<StoredBlock> { Last(s.history, HeldCount(|s.order|, Owner(s))) }

  ghost predicate Inv(s: State) {
    && LocksOk(s.tasks, s.orderLock, s.storeLock)
    && NumbersOk(s.tasks, s.history, s.counter)
    && AccountsOk(s.order, s.history, s.max, s.bytes, Owner(s), OwnerItem(s))
    && StoreOk(s.store, Held(s), s.tasks)
  }

  // ---- every step keeps it -------------------------------------------------------------------

  /** A lock that changes hands goes from nobody to task `t` or back. */
  predicate Handed(from: Option<nat>, to: Option<nat>, t: nat) {
    from == to || ((from == None || from == Some(t)) && (to == None || to == Some(t)))
  }

  lemma LocksUpdate(tasks: seq<Task>, order: Option<nat>, store: Option<nat>,
                    t: nat, task: Task, order': Option<nat>, store': Option<nat>)
    requires LocksOk(tasks, order, store) && t < |tasks|
    requires Handed(order, order', t) && Handed(store, store', t)
    requires task.phase.OwnsOrder() <==> order' == Some(t)
    requires task.phase.OwnsStore() <==> store' == Some(t)
    ensures LocksOk(tasks[t := task], order', store')
  {
  }

  lemma AdvanceKeepsLocks(s: State, t: nat)
    requires LocksOk(s.tasks, s.orderLock, s.storeLock) && Enabled(s, Advance(t))
    ensures var s' := Apply(s, Advance(t)); LocksOk(s'.tasks, s'.orderLock, s'.storeLock)
  {
    var s' := Apply(s, Advance(t));
    var p, p' := s.tasks[t].phase, s'.tasks[t].phase;
    assert p.OwnsOrder() <==> s.orderLock == Some(t);
    assert p.OwnsStore() <==> s.storeLock == Some(t);
    assert s'.tasks == s.tasks[t := s'.tasks[t]];
    hide LocksOk, VaultKey, Entries;
    LocksUpdate(s.tasks, s.orderLock, s.storeLock, t, s'.tasks[t], s'.orderLock, s'.storeLock);
  }

  lemma NumbersFewer(tasks: seq<Task>, t: nat, task: Task, history: seq<StoredBlock>, counter: nat)
    requires NumbersOk(tasks, history, counter) && t < |tasks|
    requires task.phase.Unpushed() ==> tasks[t].phase.Unpushed() && task.item.seqNo == tasks[t].item.seqNo
    ensures NumbersOk(tasks[t := task], history, counter)
  {
  }

  lemma NumbersDraw(tasks: seq<Task>, t: nat, task: Task, history: seq<StoredBlock>, counter: nat)
    requires NumbersOk(tasks, history, counter) && t < |tasks|
    requires task.item.seqNo == counter
    ensures NumbersOk(tasks[t := task], history, counter + 1)
  {
  }

  lemma NumbersPush(tasks: seq<Task>, t: nat, task: Task, history: seq<StoredBlock>, counter: nat)
    requires NumbersOk(tasks, history, counter) && t < |tasks|
    requires tasks[t].phase.Unpushed() && !task.phase.Unpushed()
    ensures NumbersOk(tasks[t := task], history + [tasks[t].item], counter)
  {
  }

  lemma AdvanceKeepsNumbers(s: State, t: nat)
    requires NumbersOk(s.tasks, s.history, s.counter) && Enabled(s, Advance(t))
    ensures var s' := Apply(s, Advance(t)); NumbersOk(s'.tasks, s'.history, s'.counter)
  {
    hide NumbersOk, VaultKey, Entries;
    var s' := Apply(s, Advance(t));
    var p := s.tasks[t].phase;
    if p == Ready {
      NumbersDraw(s.tasks, t, s'.tasks[t], s.history, s.counter);
    } else if p == Locked {
      NumbersPush(s.tasks, t, s'.tasks[t], s.history, s.counter);
    } else {
      NumbersFewer(s.tasks, t, s'.tasks[t], s.history, s.counter);
    }
  }

  lemma AccountsPush(order: seq<QueueEntry>, history: seq<StoredBlock>, max: nat, bytes: int, item: StoredBlock)
    requires AccountsOk(order, history, max, bytes, Locked, item)
    ensures AccountsOk(order + [item.Entry()], history + [item], max, bytes, Queued, item)
  {
    var live := Last(history, |order|);
    assert Last(history + [item], |order| + 1) == live + [item];
    BytesAppend(live, item);
    RetainIncremental(history, item, max);
  }

  lemma AccountsFree(order: seq<QueueEntry>, history: seq<StoredBlock>, max: nat, bytes: int, owner: Phase, item: StoredBlock, item': StoredBlock)
    requires AccountsOk(order, history, max, bytes, owner, item)
    requires (owner.Checking? && bytes <= max) || (owner.Counted? && (max == 0 || owner.total <= max))
    ensures AccountsOk(order, history, max, bytes, Done, item')
  {
  }

  /** The queue cannot be empty while the count is over the limit. */
  lemma AccountsPop(order: seq<QueueEntry>, history: seq<StoredBlock>, max: nat, bytes: int, item: StoredBlock)
    requires AccountsOk(order, history, max, bytes, Popping, item)
    ensures order != [] && AccountsOk(order[1..], history, max, bytes, Popped(order[0]), item)
  {
    var live := Last(history, |order|);
    assert live != [];
    assert live[0] == history[|history| - |order|];
    assert Last(history, |order| - 1) == live[1..];
    assert order[0] == live[0].Entry();
  }

  lemma AdvanceKeepsAccounts(s: State, t: nat)
    requires LocksOk(s.tasks, s.orderLock, s.storeLock) && Enabled(s, Advance(t))
    requires AccountsOk(s.order, s.history, s.max, s.bytes, Owner(s), OwnerItem(s))
    requires s.tasks[t].phase.Popped? ==> s.tasks[t].phase.entry.key in s.store
    ensures var s' := Apply(s, Advance(t));
      AccountsOk(s'.order, s'.history, s'.max, s'.bytes, Owner(s'), OwnerItem(s'))
  {
    hide Entries, Retain, Bytes, Last, VaultKey;
    var s' := Apply(s, Advance(t));
    match s.tasks[t].phase
    case Ready | Allocated | Inserted =>
    case Locked => AccountsPush(s.order, s.history, s.max, s.bytes, s.tasks[t].item);
    case Queued =>
    case Counted(total) =>
      if s.max == 0 || total <= s.max {
        AccountsFree(s.order, s.history, s.max, s.bytes, Owner(s), OwnerItem(s), OwnerItem(s'));
      }
    case Checking =>
      if s.bytes <= s.max {
        AccountsFree(s.order, s.history, s.max, s.bytes, Owner(s), OwnerItem(s), OwnerItem(s'));
      }
    case Popping => AccountsPop(s.order, s.history, s.max, s.bytes, s.tasks[t].item);
    case Popped(_) =>
    case Removed(_) =>
  }

  lemma StoreOnlyUpdate(tasks: seq<Task>, t: nat, task: Task)
    requires t < |tasks|
    ensures var before, after := StoreOnlyKeys(tasks), StoreOnlyKeys(tasks[t := task]);
      && before <= after + {tasks[t].item.Key()}
      && after <= before + {task.item.Key()}
      && (task.phase.InStoreOnly() ==> task.item.Key() in after)
      && (!task.phase.InStoreOnly() ==> after <= before)
      && (!tasks[t].phase.InStoreOnly() ==> before <= after)
  {
    var tasks' := tasks[t := task];
    forall u | 0 <= u < |tasks| && u != t && tasks[u].phase.InStoreOnly()
      ensures tasks[u].item.Key() in StoreOnlyKeys(tasks') && tasks[u].item.Key() in StoreOnlyKeys(tasks)
    {
      assert tasks'[u] == tasks[u];
    }
    if task.phase.InStoreOnly() {
      assert tasks'[t].item.Key() in StoreOnlyKeys(tasks');
    }
  }

  /** A key drawn with a number that occurs nowhere in the history is no key of the history. */
  lemma KeyNotIn(x: StoredBlock, h: seq<StoredBlock>)
    requires forall y :: y in h ==> y.seqNo != x.seqNo
    ensures x.Key() !in Keys(h) && forall y :: y in h ==> y.Key() != x.Key()
  {
    forall y | y in h ensures y.Key() != x.Key() {
      if y.Key() == x.Key() {
        VaultKeyInjective(x.block.hashHex, x.seqNo, y.block.hashHex, y.seqNo);
      }
    }
  }

  /** Two tasks still on their way to the queue never have the same key. */
  lemma TaskKeysDiffer(tasks: seq<Task>, history: seq<StoredBlock>, counter: nat, t: nat)
    requires NumbersOk(tasks, history, counter) && t < |tasks| && tasks[t].phase.Unpushed()
    ensures forall u :: 0 <= u < |tasks| && u != t && tasks[u].phase.InStoreOnly() ==>
      tasks[u].item.Key() != tasks[t].item.Key()
  {
    forall u | 0 <= u < |tasks| && u != t && tasks[u].phase.InStoreOnly()
      ensures tasks[u].item.Key() != tasks[t].item.Key()
    {
      var x, y := tasks[u].item, tasks[t].item;
      assert x.seqNo != y.seqNo;
      if x.Key() == y.Key() {
        VaultKeyInjective(x.block.hashHex, x.seqNo, y.block.hashHex, y.seqNo);
      }
    }
  }

  lemma StoreInsert(store: map<string, Block>, held: seq<StoredBlock>, tasks: seq<Task>, t: nat, task: Task)
    requires StoreOk(store, held, tasks) && t < |tasks|
    requires !tasks[t].phase.InStoreOnly() && task.phase.InStoreOnly() && task.item == tasks[t].item
    requires forall x :: x in held ==> x.Key() != task.item.Key()
    requires forall u :: 0 <= u < |tasks| && u != t && tasks[u].phase.InStoreOnly() ==> tasks[u].item.Key() != task.item.Key()
    ensures task.item.Key() !in store
    ensures StoreOk(store[task.item.Key() := task.item.block], held, tasks[t := task])
  {
    StoreOnlyUpdate(tasks, t, task);
    hide VaultKey;
    assert task.item.Key() !in StoreOnlyKeys(tasks);
  }

  lemma StorePush(store: map<string, Block>, held: seq<StoredBlock>, tasks: seq<Task>, t: nat, task: Task)
    requires StoreOk(store, held, tasks) && t < |tasks|
    requires tasks[t].phase.InStoreOnly() && !task.phase.InStoreOnly() && task.item == tasks[t].item
    ensures StoreOk(store, held + [task.item], tasks[t := task])
  {
    StoreOnlyUpdate(tasks, t, task);
    hide VaultKey;
    var x := task.item;
    assert Keys(held + [x]) == Keys(held) + {x.Key()} by {
      assert x in held + [x];
      forall y | y in held ensures y in held + [x] && y.Key() in Keys(held + [x]) {}
    }
    assert x.Key() in StoreOnlyKeys(tasks);
  }

  lemma StoreSame(store: map<string, Block>, held: seq<StoredBlock>, tasks: seq<Task>, t: nat, task: Task)
    requires StoreOk(store, held, tasks) && t < |tasks|
    requires tasks[t].phase.InStoreOnly() <==> task.phase.InStoreOnly()
    requires task.phase.InStoreOnly() ==> task.item == tasks[t].item
    ensures StoreOk(store, held, tasks[t := task])
  {
    StoreOnlyUpdate(tasks, t, task);
    hide VaultKey;
    if tasks[t].phase.InStoreOnly() {
      assert tasks[t].item.Key() in StoreOnlyKeys(tasks[t := task]);
    }
  }

  lemma StoreRemove(store: map<string, Block>, held: seq<StoredBlock>, tasks: seq<Task>)
    requires StoreOk(store, held, tasks) && held != [] && Distinct(held)
    requires forall u :: 0 <= u < |tasks| && tasks[u].phase.InStoreOnly() ==> tasks[u].item.Key() != held[0].Key()
    ensures StoreOk(store - {held[0].Key()}, held[1..], tasks)
  {
    KeysDropFirst(held);
    assert held[0].Key() !in StoreOnlyKeys(tasks);
    forall y | y in held[1..] ensures y in held && y.Key() != held[0].Key() {
      assert y.Key() in Keys(held[1..]);
    }
  }

  lemma LastFacts(h: seq<StoredBlock>, n: nat, x: StoredBlock)
    requires n <= |h|
    ensures Last(h + [x], n + 1) == Last(h, n) + [x]
    ensures forall y :: y in Last(h, n) ==> y in h
    ensures n < |h| ==> Last(h, n + 1)[1..] == Last(h, n) && Last(h, n + 1)[0] == h[|h| - n - 1]
    ensures Distinct(h) ==> Distinct(Last(h, n))
  {
  }

  lemma InvParts(s: State)
    requires Inv(s)
    ensures LocksOk(s.tasks, s.orderLock, s.storeLock) && NumbersOk(s.tasks, s.history, s.counter)
    ensures AccountsOk(s.order, s.history, s.max, s.bytes, Owner(s), OwnerItem(s))
    ensures StoreOk(s.store, Held(s), s.tasks)
  {
    hide LocksOk, NumbersOk, AccountsOk, StoreOk;
  }

  lemma OwnerIs(s: State, t: nat)
    requires LocksOk(s.tasks, s.orderLock, s.storeLock) && t < |s.tasks|
    ensures s.tasks[t].phase.OwnsOrder() ==> Owner(s) == s.tasks[t].phase && OwnerItem(s) == s.tasks[t].item
  {
  }

  lemma PoppedIsHeld(s: State, t: nat)
    requires Inv(s) && t < |s.tasks| && s.tasks[t].phase.Popped?
    ensures Owner(s) == s.tasks[t].phase && |s.order| < |s.history|
    ensures Held(s)[0] in s.history && Held(s)[0].Key() == s.tasks[t].phase.entry.key
    ensures s.tasks[t].phase.entry.key in s.store
    ensures Held(s)[1..] == Last(s.history, |s.order|) && Distinct(Held(s))
  {
    hide Inv, LocksOk, NumbersOk, AccountsOk, StoreOk, PoppedOk, Last, VaultKey;
    InvParts(s);
    OwnerIs(s, t);
    PoppedIsFirst(s.order, s.history, s.max, s.bytes, s.tasks[t].phase.entry, s.tasks[t].item, s.tasks, s.counter);
    HeldInStore(s.store, Held(s), s.tasks);
  }

  lemma HeldInStore(store: map<string, Block>, held: seq<StoredBlock>, tasks: seq<Task>)
    requires StoreOk(store, held, tasks)
    ensures held != [] ==> held[0].Key() in store
  {
    assert held != [] ==> held[0] in held;
  }

  lemma PoppedIsFirst(order: seq<QueueEntry>, history: seq<StoredBlock>, max: nat, bytes: int, e: QueueEntry, item: StoredBlock,
                      tasks: seq<Task>, counter: nat)
    requires AccountsOk(order, history, max, bytes, Popped(e), item) && NumbersOk(tasks, history, counter)
    ensures |order| < |history|
    ensures var held := Last(history, |order| + 1);
      && held != [] && held[0] in history && held[0].Key() == e.key
      && held[1..] == Last(history, |order|) && Distinct(held)
  {
    hide Retain, Bytes, Entries, VaultKey;
    assert PoppedOk(|order|, history, bytes, e) && Distinct(history);
    hide AccountsOk, NumbersOk, Distinct, Last;
    LastOneMore(history, |order|);
  }

  lemma LastOneMore(history: seq<StoredBlock>, n: nat)
    requires n < |history| && Distinct(history)
    ensures var held := Last(history, n + 1);
      held != [] && held[0] == history[|history| - n - 1] && held[1..] == Last(history, n) && Distinct(held)
  {
  }

  lemma HeldAfterPush(s: State, t: nat)
    requires Inv(s) && Enabled(s, Advance(t)) && s.tasks[t].phase.Locked?
    ensures Held(Apply(s, Advance(t))) == Held(s) + [s.tasks[t].item]
  {
    hide Inv, LocksOk, NumbersOk, StoreOk, AccountsOk, Last, Entries, VaultKey;
    InvParts(s);
    OwnerIs(s, t);
    QueueFits(s);
    AdvanceKeepsLocks(s, t);
    OwnerIs(Apply(s, Advance(t)), t);
    LastFacts(s.history, |s.order|, s.tasks[t].item);
  }

  lemma QueueFits(s: State)
    requires AccountsOk(s.order, s.history, s.max, s.bytes, Owner(s), OwnerItem(s))
    ensures |s.order| <= |s.history|
  {
    hide Entries, Retain, Bytes, Last;
  }

  lemma HeldUnchanged(s: State, t: nat)
    requires Inv(s) && Enabled(s, Advance(t)) && !s.tasks[t].phase.Locked? && !s.tasks[t].phase.Popped?
    ensures Held(Apply(s, Advance(t))) == Held(s)
  {
    hide Inv, LocksOk, NumbersOk, StoreOk, AccountsOk, Last, VaultKey;
    InvParts(s);
    OwnerIs(s, t);
    AdvanceKeepsLocks(s, t);
    OwnerIs(Apply(s, Advance(t)), t);
    if s.tasks[t].phase.Popping? && s.order != [] {
      assert Owner(s) == s.tasks[t].phase;
    }
  }

  lemma AdvanceKeepsStore(s: State, t: nat)
    requires Inv(s) && Enabled(s, Advance(t))
    ensures var s' := Apply(s, Advance(t)); StoreOk(s'.store, Held(s'), s'.tasks)
  {
    hide Inv, StoreOk, Held, NumbersOk, AccountsOk, LocksOk, VaultKey;
    InvParts(s);
    var s' := Apply(s, Advance(t));
    var task, task' := s.tasks[t], s'.tasks[t];
    assert s'.tasks == s.tasks[t := task'];
    if task.phase.Popped? {
      RemoveKeepsStore(s, t);
    } else if task.phase.Locked? {
      HeldAfterPush(s, t);
      StorePush(s.store, Held(s), s.tasks, t, task');
    } else if task.phase.Allocated? {
      HeldUnchanged(s, t);
      AllocatedKeyIsNew(s, t);
      StoreInsert(s.store, Held(s), s.tasks, t, task');
    } else {
      HeldUnchanged(s, t);
      StoreSame(s.store, Held(s), s.tasks, t, task');
    }
  }

  lemma RemoveKeepsStore(s: State, t: nat)
    requires Inv(s) && Enabled(s, Advance(t)) && s.tasks[t].phase.Popped?
    ensures var s' := Apply(s, Advance(t)); StoreOk(s'.store, Held(s'), s'.tasks)
  {
    var s' := Apply(s, Advance(t));
    PoppedIsHeld(s, t);
    AdvanceKeepsLocks(s, t);
    OwnerIs(s', t);
    assert Held(s') == Held(s)[1..];
    HeldKeyIsNotPending(s);
    assert s'.tasks == s.tasks[t := s'.tasks[t]];
    hide StoreOk, Held, LocksOk, NumbersOk, AccountsOk, VaultKey;
    StoreRemove(s.store, Held(s), s.tasks);
    StoreSame(s'.store, Held(s'), s.tasks, t, s'.tasks[t]);
  }

  lemma AllocatedKeyIsNew(s: State, t: nat)
    requires Inv(s) && t < |s.tasks| && s.tasks[t].phase.Allocated?
    ensures forall x :: x in Held(s) ==> x.Key() != s.tasks[t].item.Key()
    ensures forall u :: 0 <= u < |s.tasks| && u != t && s.tasks[u].phase.InStoreOnly() ==>
      s.tasks[u].item.Key() != s.tasks[t].item.Key()
  {
    hide VaultKey, Entries, Retain, Bytes, StoreOk, LocksOk;
    TaskKeysDiffer(s.tasks, s.history, s.counter, t);
    assert NumberOk(s.tasks[t].item.seqNo, s.history, s.counter);
    assert forall x :: x in Held(s) ==> x in s.history;
    KeyNotIn(s.tasks[t].item, Held(s));
  }

  lemma HeldKeyIsNotPending(s: State)
    requires Inv(s) && Held(s) != []
    ensures forall u :: 0 <= u < |s.tasks| && s.tasks[u].phase.InStoreOnly() ==> s.tasks[u].item.Key() != Held(s)[0].Key()
  {
    hide VaultKey, Entries, Retain, Bytes, StoreOk, LocksOk, AccountsOk;
    assert Held(s)[0] in s.history;
    forall u | 0 <= u < |s.tasks| && s.tasks[u].phase.InStoreOnly()
      ensures s.tasks[u].item.Key() != Held(s)[0].Key()
    {
      assert NumberOk(s.tasks[u].item.seqNo, s.history, s.counter);
      KeyNotIn(s.tasks[u].item, s.history);
    }
  }

  lemma SpawnKeepsInv(s: State, b: Block)
    requires Inv(s)
    ensures Inv(Apply(s, Spawn(b)))
  {
    hide LocksOk, NumbersOk, AccountsOk, StoreOk, Last;
    InvParts(s);
    SpawnKeepsLocks(s.tasks, s.orderLock, s.storeLock, b);
    SpawnKeepsOwner(s, b);
    SpawnKeepsNumbers(s.tasks, s.history, s.counter, b);
    SpawnKeepsStore(s.store, Held(s), s.tasks, b);
  }

  lemma SpawnKeepsLocks(tasks: seq<Task>, order: Option<nat>, store: Option<nat>, b: Block)
    requires LocksOk(tasks, order, store)
    ensures LocksOk(tasks + [Task(StoredBlock(0, b), Ready)], order, store)
  {
  }

  lemma SpawnKeepsOwner(s: State, b: Block)
    requires LocksOk(s.tasks, s.orderLock, s.storeLock)
    ensures Owner(Apply(s, Spawn(b))) == Owner(s) && OwnerItem(Apply(s, Spawn(b))) == OwnerItem(s)
  {
  }

  lemma SpawnKeepsNumbers(tasks: seq<Task>, history: seq<StoredBlock>, counter: nat, b: Block)
    requires NumbersOk(tasks, history, counter)
    ensures NumbersOk(tasks + [Task(StoredBlock(0, b), Ready)], history, counter)
  {
  }

  lemma SpawnKeepsStore(store: map<string, Block>, held: seq<StoredBlock>, tasks: seq<Task>, b: Block)
    requires StoreOk(store, held, tasks)
    ensures StoreOk(store, held, tasks + [Task(StoredBlock(0, b), Ready)])
  {
    hide VaultKey;
    var tasks' := tasks + [Task(StoredBlock(0, b), Ready)];
    forall u | 0 <= u < |tasks| && tasks[u].phase.InStoreOnly()
      ensures tasks[u].item.Key() in StoreOnlyKeys(tasks')
    {
      assert tasks'[u] == tasks[u];
    }
    assert StoreOnlyKeys(tasks') == StoreOnlyKeys(tasks);
  }

  lemma StepKeepsInv(s: State, step: Step)
    requires Inv(s) && Enabled(s, step)
    ensures Inv(Apply(s, step))
  {
    match step
    case Spawn(b) => SpawnKeepsInv(s, b);
    case Advance(t) =>
      AdvanceKeepsLocks(s, t);
      AdvanceKeepsNumbers(s, t);
      if s.tasks[t].phase.Popped? {
        PoppedIsHeld(s, t);
      }
      AdvanceKeepsStore(s, t);
      hide LocksOk, NumbersOk, StoreOk, AccountsOk, Held;
      AdvanceKeepsAccounts(s, t);
    case Promote(_) =>
    case Flush =>
      FlushKeepsInv(s);
  }

  lemma EmptyVaultOk(max: nat, tasks: seq<Task>, item: StoredBlock)
    requires forall t :: 0 <= t < |tasks| ==> tasks[t].phase == Ready || tasks[t].phase == Done
    ensures AccountsOk([], [], max, 0, Done, item) && StoreOk(map[], [], tasks)
  {
    assert Entries([]) == [];
  }

  lemma FlushKeepsInv(s: State)
    requires Inv(s) && Enabled(s, Flush)
    ensures Inv(Apply(s, Flush))
  {
    var s' := Apply(s, Flush);
    InvParts(s);
    hide LocksOk, NumbersOk, AccountsOk, StoreOk, Entries, Inv;
    EmptyVaultOk(s.max, s.tasks, OwnerItem(s'));
    EmptyHistory(s.tasks, s.history, s.counter);
    NothingHeld(s');
    InvWhole(s');
  }

  lemma EmptyHistory(tasks: seq<Task>, history: seq<StoredBlock>, counter: nat)
    requires NumbersOk(tasks, history, counter)
    ensures NumbersOk(tasks, [], counter)
  {
  }

  lemma NothingHeld(s: State)
    requires s.history == [] && s.order == [] && s.orderLock == None
    ensures Held(s) == [] && Owner(s) == Done
  {
  }

  lemma InvWhole(s: State)
    requires LocksOk(s.tasks, s.orderLock, s.storeLock) && NumbersOk(s.tasks, s.history, s.counter)
    requires AccountsOk(s.order, s.history, s.max, s.bytes, Owner(s), OwnerItem(s)) && StoreOk(s.store, Held(s), s.tasks)
    ensures Inv(s)
  {
    hide LocksOk, NumbersOk, AccountsOk, StoreOk;
  }

  lemma InitInv(max: nat)
    ensures Inv(Init(max))
  {
    EmptyVaultOk(max, [], OwnerItem(Init(max)));
    assert Held(Init(max)) == [];
    hide AccountsOk, StoreOk, Entries;
  }

  lemma {:induction false} RunsKeepInv(max: nat, steps: seq<Step>)
    ensures match Execute(max, steps) case None => true case Some(s) => Inv(s) && s.max == max
  {
    hide Inv, Entries, VaultKey;
    if steps == [] {
      InitInv(max);
    } else {
      var last := |steps| - 1;
      RunsKeepInv(max, steps[..last]);
      match Execute(max, steps[..last])
      case None =>
      case Some(s) =>
        if Enabled(s, steps[last]) {
          StepKeepsInv(s, steps[last]);
        }
    }
  }

  // ---- what that means for callers -----------------------------------------------------------

  /**
   * Whenever nobody holds the order lock: the counter is the queued total and within the limit, the
   * queue is the longest suffix of the history that fits, and the store has the queued keys and those
   * of tasks that have inserted but not yet queued, each with its own block.
   */
  lemma SafeWheneverOrderLockIsFree(max: nat, steps: seq<Step>, s: State)
    requires Execute(max, steps) == Some(s) && s.orderLock == None
    ensures s.order == Entries(Retain(s.history, max))
    ensures s.bytes == Bytes(Retain(s.history, max)) && (max > 0 ==> s.bytes <= max)
    ensures s.store.Keys == Keys(Retain(s.history, max)) + StoreOnlyKeys(s.tasks)
    ensures forall x :: x in Retain(s.history, max) ==> x.Key() in s.store && s.store[x.Key()] == x.block
  {
    hide *;
    RunsKeepInv(max, steps);
    InvParts(s);
    NobodyOwns(s);
    UnlockedIsSettled(s.order, s.history, s.max, s.bytes, OwnerItem(s), s.store, s.tasks);
  }

  lemma NobodyOwns(s: State)
    requires s.orderLock == None
    ensures Owner(s) == Done && Held(s) == Last(s.history, |s.order|)
  {
  }

  lemma UnlockedIsSettled(order: seq<QueueEntry>, history: seq<StoredBlock>, max: nat, bytes: int, item: StoredBlock,
                          store: map<string, Block>, tasks: seq<Task>)
    requires AccountsOk(order, history, max, bytes, Done, item) && StoreOk(store, Last(history, |order|), tasks)
    ensures order == Entries(Retain(history, max))
    ensures bytes == Bytes(Retain(history, max)) && (max > 0 ==> bytes <= max)
    ensures store.Keys == Keys(Retain(history, max)) + StoreOnlyKeys(tasks)
    ensures forall x :: x in Retain(history, max) ==> x.Key() in store && store[x.Key()] == x.block
  {
    hide Entries, Retain, Bytes, VaultKey, Last;
  }

  /** With no store in progress the interleaved vault is in a state the sequential class can be in. */
  lemma QuiescentAgreesWithSequential(max: nat, steps: seq<Step>, s: State)
    requires Execute(max, steps) == Some(s) && Quiescent(s)
    ensures Agrees(s.store, s.order, s.bytes, Retain(s.history, max)) && Distinct(s.history)
    ensures forall x :: x in s.history ==> x.seqNo < s.counter
    ensures s.orderLock == None && s.storeLock == None
  {
    hide *;
    RunsKeepInv(max, steps);
    InvParts(s);
    QuiescentIsUnlocked(s);
    SafeWheneverOrderLockIsFree(max, steps, s);
    NumbersDistinct(s);
    SettledAgrees(s.store, s.order, s.bytes, Retain(s.history, max));
  }

  lemma NumbersDistinct(s: State)
    requires NumbersOk(s.tasks, s.history, s.counter)
    ensures Distinct(s.history) && forall x :: x in s.history ==> x.seqNo < s.counter
  {
  }

  lemma SettledAgrees(store: map<string, Block>, order: seq<QueueEntry>, bytes: int, held: seq<StoredBlock>)
    requires order == Entries(held) && bytes == Bytes(held) && store.Keys == Keys(held)
    requires forall x :: x in held ==> x.Key() in store && store[x.Key()] == x.block
    ensures Agrees(store, order, bytes, held)
  {
    hide Entries, Bytes, VaultKey;
  }

  lemma QuiescentIsUnlocked(s: State)
    requires LocksOk(s.tasks, s.orderLock, s.storeLock) && Quiescent(s)
    ensures s.orderLock == None && s.storeLock == None && StoreOnlyKeys(s.tasks) == {}
  {
    assert s.orderLock.Some? ==> s.tasks[s.orderLock.value].phase.OwnsOrder();
    assert s.storeLock.Some? ==> s.tasks[s.storeLock.value].phase.OwnsStore();
  }

  /** The `None => break` exit is never taken, no entry popped is already gone, and the count never underflows. */
  lemma EvictionNeverRunsDry(max: nat, steps: seq<Step>, s: State, t: nat)
    requires Execute(max, steps) == Some(s) && t < |s.tasks|
    ensures s.tasks[t].phase.Popping? ==> s.order != []
    ensures s.tasks[t].phase.Popped? ==> s.tasks[t].phase.entry.key in s.store
    ensures s.tasks[t].phase.Removed? ==> s.tasks[t].phase.entry.size <= s.bytes
  {
    RunsKeepInv(max, steps);
    if s.tasks[t].phase.Popping? {
      AccountsPop(s.order, s.history, s.max, s.bytes, s.tasks[t].item);
    } else if s.tasks[t].phase.Popped? {
      PoppedIsHeld(s, t);
    }
  }

  /** Locks are always taken in the same order, so an unfinished store can always be helped along. */
  lemma NoDeadlock(max: nat, steps: seq<Step>, s: State, t: nat)
    requires Execute(max, steps) == Some(s) && t < |s.tasks| && s.tasks[t].phase != Done
    ensures exists u :: 0 <= u < |s.tasks| && Enabled(s, Advance(u))
  {
    RunsKeepInv(max, steps);
    hide NumbersOk, StoreOk, AccountsOk;
    if s.storeLock.Some? {
      assert s.tasks[s.storeLock.value].phase.OwnsStore();
      assert Enabled(s, Advance(s.storeLock.value));
    } else if s.orderLock.Some? {
      assert s.tasks[s.orderLock.value].phase.OwnsOrder();
      assert Enabled(s, Advance(s.orderLock.value));
    } else {
      assert Enabled(s, Advance(t));
    }
  }

  /** A store that some task has made since the last flush, evicted or not, or is about to queue. */
  ghost predicate WasStored(s: State, x: StoredBlock) {
    x in s.history || exists t :: 0 <= t < |s.tasks| && s.tasks[t].phase.InStoreOnly() && s.tasks[t].item == x
  }

  /** A concurrent promotion answers each key with nothing, or with the very block some task stored under that key. */
  lemma PromoteAnswersStoredBlocks(max: nat, steps: seq<Step>, s: State, keys: seq<string>, i: nat)
    requires Execute(max, steps) == Some(s) && Enabled(s, Promote(keys)) && i < |keys|
    ensures |Answers(s, keys)| == |keys|
    ensures keys[i] !in s.store ==> Answers(s, keys)[i] == MISSING
    ensures keys[i] in s.store ==>
      exists x: StoredBlock :: WasStored(s, x) && x.Key() == keys[i] && x.block == Answers(s, keys)[i] && x.seqNo < s.counter
  {
    RunsKeepInv(max, steps);
    hide Entries, Retain, Bytes, VaultKey, AccountsOk, LocksOk;
    if keys[i] in s.store {
      if keys[i] in Keys(Held(s)) {
        var x :| x in Held(s) && x.Key() == keys[i];
        assert x in s.history;
        assert WasStored(s, x);
      } else {
        var t :| 0 <= t < |s.tasks| && s.tasks[t].phase.InStoreOnly() && s.tasks[t].item.Key() == keys[i];
        assert NumberOk(s.tasks[t].item.seqNo, s.history, s.counter);
        assert WasStored(s, s.tasks[t].item);
      }
    }
  }
}
