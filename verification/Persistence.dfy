/**
 * The registry with write-behind persistence as a whole: records in memory, the queue, the writer and the
 * table. The queue carries the records themselves, so the writer sees them as they are when it gets to them.
 */
module Persistence {
  import opened Common
  import opened WriteBehind

  /** A record object: all the rows it has been, the last of them now. */
  datatype MemRec = MemRec(hash: Hash, versions: seq<Row>, status: Status)

  /** A queued record, with the version it had when it was queued, or a queued removal. */
  datatype QItem = Up(id: nat, at: nat) | Del(hash: Hash)

  /** The record a row was read from, and which version it was then. */
  datatype Origin = Origin(id: nat, version: nat)

  datatype State = State(
    recs: seq<MemRec>,
    registry: map<Hash, nat>,
    /** Everything ever put on the queue; the writer has taken the first `taken`. */
    log: seq<QItem>,
    taken: nat,
    table: Table,
    /** Where the rows come from that were loaded or written by this process. */
    written: map<Hash, Origin>,
    /** The table and the age limit this process started with. */
    base: Table,
    cutoff: int)

  datatype Step =
    | Register(hash: Hash, row: Row)
    | MarkStored(hash: Hash)
    | LogStored(hash: Hash)
    | MarkFailed(hash: Hash)
    | Change(id: nat, row: Row)
    | Forget(hash: Hash)
    | LogRemoved(hash: Hash)
    | Write(n: nat)

  /** The rows a process loads when it starts. */
  function Found(table: Table, cutoff: int): Table { map h | h in table && table[h].evictedAt > cutoff :: table[h] }

  /** A process right after it started: a stored record for each row it has found, and nothing queued. */
  ghost predicate Starts(s: State) {
    && s.log == [] && s.taken == 0 && s.table == s.base && RecsOk(s.recs, s.registry)
    && s.registry.Keys == Found(s.base, s.cutoff).Keys
    && (forall h :: h in s.registry ==> s.recs[s.registry[h]].versions == [s.base[h]] && s.recs[s.registry[h]].status == Stored)
    && s.written == map h | h in s.registry :: Origin(s.registry[h], 0)
  }

  function Fresh(cutoff: int): State { State([], map[], [], 0, map[], map[], map[], cutoff) }

  predicate Registered(s: State, h: Hash) { h in s.registry && s.registry[h] < |s.recs| }

  predicate Enabled(s: State, step: Step) {
    match step
    case Change(id, _) => id < |s.recs|
    case Write(n) => 1 <= n <= BATCH_SIZE && s.taken + n <= |s.log|
    case _ => true
  }

  function Current(r: MemRec): Row { if r.versions == [] then EMPTY_ROW else r.versions[|r.versions| - 1] }

  function Newest(r: MemRec): nat { if r.versions == [] then 0 else |r.versions| - 1 }

  const EMPTY_ROW := Row("", "", "", 0, 0, 0, [], None, None)

  function WithStatus(s: State, h: Hash, status: Status): State {
    if Registered(s, h) then s.(recs := s.recs[s.registry[h] := s.recs[s.registry[h]].(status := status)]) else s
  }

  function ItemHash(recs: seq<MemRec>, item: QItem): Hash {
    match item
    case Up(id, _) => if id < |recs| then recs[id].hash else []
    case Del(h) => h
  }

  /** What the writer makes of an item now. */
  function OpOf(recs: seq<MemRec>, item: QItem): Op {
    match item
    case Up(id, _) => if id < |recs| then Upsert(recs[id].hash, Current(recs[id])) else Delete([])
    case Del(h) => Delete(h)
  }

  function OpsOf(recs: seq<MemRec>, items: seq<QItem>): seq<Op> {
    seq(|items|, i requires 0 <= i < |items| => OpOf(recs, items[i]))
  }

  function Apply(s: State, step: Step): State
    requires Enabled(s, step)
  {
    match step
    case Register(h, row) => s.(recs := s.recs + [MemRec(h, [row], Pending)], registry := s.registry[h := |s.recs|])
    case MarkStored(h) => WithStatus(s, h, Stored)
    case LogStored(h) =>
      if Registered(s, h) then s.(log := s.log + [Up(s.registry[h], Newest(s.recs[s.registry[h]]))]) else s
    case MarkFailed(h) => WithStatus(s, h, Failed)
    case Change(id, row) => s.(recs := s.recs[id := s.recs[id].(versions := s.recs[id].versions + [row])])
    case Forget(h) => s.(registry := s.registry - {h})
    case LogRemoved(h) => s.(log := s.log + [Del(h)])
    case Write(n) =>
      var items := s.log[s.taken..s.taken + n];
      var table := Commit(s.table, OpsOf(s.recs, items));
      s.(table := table, taken := s.taken + n, written := Written(s.recs, items, s.written, table))
  }

  /** The record of the last upsert of `h` in a batch. */
  function LastUp(recs: seq<MemRec>, items: seq<QItem>, h: Hash): (id: Option<nat>)
    ensures id.Some? ==> id.value < |recs| && recs[id.value].hash == h
  {
    if items == [] then None else
      match items[|items| - 1]
      case Up(id, _) =>
        if id < |recs| && recs[id].hash == h then Some(id) else LastUp(recs, items[..|items| - 1], h)
      case Del(_) => LastUp(recs, items[..|items| - 1], h)
  }

  /** Where the rows of the table come from once a batch has been committed. */
  function Written(recs: seq<MemRec>, items: seq<QItem>, before: map<Hash, Origin>, table: Table): map<Hash, Origin> {
    map h | h in table && (LastUp(recs, items, h).Some? || h in before) ::
      match LastUp(recs, items, h) case Some(id) => Origin(id, Newest(recs[id])) case None => before[h]
  }

  function Execute(start: State, steps: seq<Step>): Option<State> {
    if steps == [] then Some(start) else
      match Execute(start, steps[..|steps| - 1])
      case None => None
      case Some(s) => if Enabled(s, steps[|steps| - 1]) then Some(Apply(s, steps[|steps| - 1])) else None
  }

  // ---- the invariant -------------------------------------------------------------------------

  predicate RecsOk(recs: seq<MemRec>, registry: map<Hash, nat>) {
    && (forall i :: 0 <= i < |recs| ==> recs[i].versions != [])
    && (forall h :: h in registry ==> registry[h] < |recs| && recs[registry[h]].hash == h)
  }

  predicate ItemOk(recs: seq<MemRec>, item: QItem) {
    item.Up? ==> item.id < |recs| && item.at < |recs[item.id].versions|
  }

  predicate LogOk(recs: seq<MemRec>, log: seq<QItem>) {
    forall i :: 0 <= i < |log| ==> ItemOk(recs, log[i])
  }

  predicate IsLastItem(recs: seq<MemRec>, log: seq<QItem>, n: nat, h: Hash, i: nat) {
    i < n <= |log| && ItemHash(recs, log[i]) == h && forall j :: i < j < n ==> ItemHash(recs, log[j]) != h
  }

  /** The row is a version the queued record has had since it was queued. */
  ghost predicate IsVersion(recs: seq<MemRec>, item: QItem, row: Row) {
    item.Up? && item.id < |recs| && exists v :: item.at <= v < |recs[item.id].versions| && recs[item.id].versions[v] == row
  }

  /** Nothing about `h` is among the first `n` things queued. */
  predicate NoItem(recs: seq<MemRec>, log: seq<QItem>, n: nat, h: Hash) {
    n <= |log| && forall j :: 0 <= j < n ==> ItemHash(recs, log[j]) != h
  }

  /** The row of `h` comes from the last thing queued about `h`, which is a record marked stored; or it was there from the start. */
  ghost predicate RowOk(recs: seq<MemRec>, log: seq<QItem>, n: nat, base: Table, h: Hash, row: Row) {
    || (exists i: nat :: i < |log| && IsLastItem(recs, log, n, h, i) && IsVersion(recs, log[i], row))
    || (NoItem(recs, log, n, h) && h in base && base[h] == row)
  }

  ghost predicate TableOk(recs: seq<MemRec>, log: seq<QItem>, n: nat, base: Table, table: Table) {
    forall h :: h in table ==> RowOk(recs, log, n, base, h, table[h])
  }

  /** The row is this version of a record of `h`. */
  predicate OriginOk(recs: seq<MemRec>, o: Origin, h: Hash, row: Row) {
    o.id < |recs| && recs[o.id].hash == h && o.version < |recs[o.id].versions| && recs[o.id].versions[o.version] == row
  }

  /** Each row is the version it was read from, except for rows that were too old to be loaded and have stayed. */
  predicate WrittenOk(s: State) {
    && s.written.Keys <= s.table.Keys
    && (forall h :: h in s.written ==> OriginOk(s.recs, s.written[h], h, s.table[h]))
    && (forall h :: h in s.table && h !in s.written ==> h in s.base && s.table[h] == s.base[h] && s.base[h].evictedAt <= s.cutoff)
  }

  ghost predicate Inv(s: State) {
    && RecsOk(s.recs, s.registry) && LogOk(s.recs, s.log) && s.taken <= |s.log|
    && TableOk(s.recs, s.log, s.taken, s.base, s.table) && WrittenOk(s)
  }

  /** Records are only added to: they keep their hash and every version they had. */
  ghost predicate Extends(a: seq<MemRec>, b: seq<MemRec>) {
    |a| <= |b| && forall i :: 0 <= i < |a| ==> b[i].hash == a[i].hash && a[i].versions <= b[i].versions
  }

  lemma RowOkGrows(a: seq<MemRec>, b: seq<MemRec>, log: seq<QItem>, more: seq<QItem>, n: nat, base: Table, h: Hash, row: Row)
    requires Extends(a, b) && LogOk(a, log) && n <= |log| && RowOk(a, log, n, base, h, row)
    ensures RowOk(b, log + more, n, base, h, row)
  {
    var all := log + more;
    forall j | 0 <= j < |log| ensures all[j] == log[j] && ItemHash(b, all[j]) == ItemHash(a, log[j]) {
      assert ItemOk(a, log[j]);
    }
    if i: nat :| i < |log| && IsLastItem(a, log, n, h, i) && IsVersion(a, log[i], row) {
      var v :| log[i].at <= v < |a[log[i].id].versions| && a[log[i].id].versions[v] == row;
      assert b[log[i].id].versions[v] == row;
      assert IsLastItem(b, all, n, h, i) && IsVersion(b, all[i], row);
    }
  }

  /** After a batch, a row is either the writer's reading of the last queued item, or was there before. */
  lemma WrittenRowOk(recs: seq<MemRec>, log: seq<QItem>, taken: nat, n: nat, base: Table, table: Table, h: Hash)
    requires LogOk(recs, log) && TableOk(recs, log, taken, base, table) && taken + n <= |log|
    requires forall i :: 0 <= i < |recs| ==> recs[i].versions != []
    requires h in Commit(table, OpsOf(recs, log[taken..taken + n]))
    ensures RowOk(recs, log, taken + n, base, h, Commit(table, OpsOf(recs, log[taken..taken + n]))[h])
  {
    hide Commit, OpsOf, LastOn, LastUpsert, RowOk, TableOk, IsLastItem, IsLastOn, Upserts, Deletes;
    var ops := OpsOf(recs, log[taken..taken + n]);
    OpsFacts(recs, log, taken, n);
    CommitAt(table, ops, h);
    LastOnUpsert(ops, h);
    LastOnMeaning(ops, h);
    LastOnInside(ops, h);
    if LastOn(ops, h).None? {
      TableRowOk(recs, log, taken, base, table, h);
      forall k | taken <= k < taken + n ensures ItemHash(recs, log[k]) != h {
        assert ops[k - taken].hash != h;
      }
      OlderRowStays(recs, log, taken, n, base, h, table[h]);
    } else {
      var j: nat :| j < |ops| && IsLastOn(ops, h, j) && ops[j] == LastOn(ops, h).value;
      NewestItemDecides(recs, log, taken, n, h, j, ops);
      ReadIsVersion(recs, log[taken + j]);
      RowFromItem(recs, log, taken + n, base, h, taken + j, LastOn(ops, h).value.row);
    }
  }

  lemma OpsFacts(recs: seq<MemRec>, log: seq<QItem>, taken: nat, n: nat)
    requires LogOk(recs, log) && taken + n <= |log|
    ensures var ops := OpsOf(recs, log[taken..taken + n]);
      |ops| == n && forall k :: 0 <= k < n ==> ops[k] == OpOf(recs, log[taken + k]) && ops[k].hash == ItemHash(recs, log[taken + k])
  {
    var items := log[taken..taken + n];
    forall k | 0 <= k < n ensures items[k] == log[taken + k] && ItemOk(recs, items[k]) {}
  }

  lemma LastOnInside(ops: seq<Op>, h: Hash)
    ensures forall j: nat :: IsLastOn(ops, h, j) ==> j < |ops|
  {
  }

  lemma TableRowOk(recs: seq<MemRec>, log: seq<QItem>, n: nat, base: Table, table: Table, h: Hash)
    requires TableOk(recs, log, n, base, table) && h in table
    ensures RowOk(recs, log, n, base, h, table[h])
  {
    hide RowOk;
  }

  lemma ReadIsVersion(recs: seq<MemRec>, item: QItem)
    requires ItemOk(recs, item) && OpOf(recs, item).Upsert?
    ensures IsVersion(recs, item, OpOf(recs, item).row)
  {
    assert recs[item.id].versions[Newest(recs[item.id])] == Current(recs[item.id]);
  }

  lemma RowFromItem(recs: seq<MemRec>, log: seq<QItem>, n: nat, base: Table, h: Hash, i: nat, row: Row)
    requires IsLastItem(recs, log, n, h, i) && IsVersion(recs, log[i], row)
    ensures RowOk(recs, log, n, base, h, row)
  {
    hide IsVersion;
  }

  lemma OlderRowStays(recs: seq<MemRec>, log: seq<QItem>, taken: nat, n: nat, base: Table, h: Hash, row: Row)
    requires taken + n <= |log| && RowOk(recs, log, taken, base, h, row)
    requires forall k :: taken <= k < taken + n ==> ItemHash(recs, log[k]) != h
    ensures RowOk(recs, log, taken + n, base, h, row)
  {
    hide IsVersion, ItemHash;
    if i: nat :| i < |log| && IsLastItem(recs, log, taken, h, i) && IsVersion(recs, log[i], row) {
      assert IsLastItem(recs, log, taken + n, h, i);
    } else {
      assert NoItem(recs, log, taken + n, h);
    }
  }

  lemma NewestItemDecides(recs: seq<MemRec>, log: seq<QItem>, taken: nat, n: nat, h: Hash, j: nat, ops: seq<Op>)
    requires taken + n <= |log| && |ops| == n && IsLastOn(ops, h, j)
    requires forall k :: 0 <= k < n ==> ops[k].hash == ItemHash(recs, log[taken + k])
    ensures IsLastItem(recs, log, taken + n, h, taken + j)
  {
    hide ItemHash;
    forall k | taken + j < k < taken + n ensures ItemHash(recs, log[k]) != h {
      assert ops[k - taken].hash == ItemHash(recs, log[taken + (k - taken)]);
    }
  }

  lemma StepExtends(s: State, step: Step)
    requires Enabled(s, step)
    ensures var s' := Apply(s, step);
      Extends(s.recs, s'.recs) && s.log <= s'.log && s'.base == s.base && s'.cutoff == s.cutoff
    ensures !step.Write? ==> var s' := Apply(s, step); s'.table == s.table && s'.written == s.written && s'.taken == s.taken
  {
    hide Commit, OpsOf, Written;
  }

  lemma StepKeepsRecs(s: State, step: Step)
    requires RecsOk(s.recs, s.registry) && LogOk(s.recs, s.log) && s.taken <= |s.log| && Enabled(s, step)
    ensures var s' := Apply(s, step); RecsOk(s'.recs, s'.registry) && LogOk(s'.recs, s'.log) && s'.taken <= |s'.log|
  {
    hide Commit, OpsOf, Written;
  }

  lemma StepKeepsTable(s: State, step: Step)
    requires Inv(s) && Enabled(s, step)
    ensures var s' := Apply(s, step); TableOk(s'.recs, s'.log, s'.taken, s'.base, s'.table)
  {
    var s' := Apply(s, step);
    hide Commit, OpsOf, Written, RowOk, WrittenOk;
    if step.Write? {
      forall h | h in s'.table ensures RowOk(s'.recs, s'.log, s'.taken, s'.base, h, s'.table[h]) {
        WrittenRowOk(s.recs, s.log, s.taken, step.n, s.base, s.table, h);
      }
    } else {
      StepExtends(s, step);
      var more := s'.log[|s.log|..];
      assert s'.log == s.log + more;
      forall h | h in s'.table ensures RowOk(s'.recs, s'.log, s'.taken, s'.base, h, s'.table[h]) {
        RowOkGrows(s.recs, s'.recs, s.log, more, s.taken, s.base, h, s.table[h]);
      }
    }
  }

  /** What the writer makes of a batch for one hash, in terms of records. */
  lemma {:induction false} LastUpIs(recs: seq<MemRec>, items: seq<QItem>, h: Hash)
    ensures LastUpsert(OpsOf(recs, items), h) ==
      match LastUp(recs, items, h) case None => None case Some(id) => Some(Current(recs[id]))
  {
    if items != [] {
      var ops, n := OpsOf(recs, items), |items| - 1;
      LastUpIs(recs, items[..n], h);
      assert ops[..n] == OpsOf(recs, items[..n]);
      hide Current;
    }
  }

  lemma WriteKeepsWritten(s: State, n: nat)
    requires Inv(s) && Enabled(s, Write(n))
    ensures WrittenOk(Apply(s, Write(n)))
  {
    hide TableOk, LogOk, RecsOk, Commit, OpsOf, LastUpsert, LastUp, OriginOk;
    var s', items := Apply(s, Write(n)), s.log[s.taken..s.taken + n];
    var ops := OpsOf(s.recs, items);
    forall h | h in s'.table
      ensures h in s'.written ==> OriginOk(s.recs, s'.written[h], h, s'.table[h])
      ensures h !in s'.written ==> h in s.table && h !in s.written && s'.table[h] == s.table[h]
    {
      CommitAt(s.table, ops, h);
      LastUpIs(s.recs, items, h);
      if LastUp(s.recs, items, h).Some? {
        NewestIsCurrent(s, LastUp(s.recs, items, h).value);
      }
    }
  }

  lemma NewestIsCurrent(s: State, id: nat)
    requires RecsOk(s.recs, s.registry) && id < |s.recs|
    ensures OriginOk(s.recs, Origin(id, Newest(s.recs[id])), s.recs[id].hash, Current(s.recs[id]))
  {
  }

  lemma StepKeepsWritten(s: State, step: Step)
    requires Inv(s) && Enabled(s, step)
    ensures WrittenOk(Apply(s, step))
  {
    hide RecsOk, LogOk, TableOk, Apply, Enabled;
    StepExtends(s, step);
    if step.Write? {
      WriteKeepsWritten(s, step.n);
    } else {
      var s' := Apply(s, step);
      forall h | h in s.written ensures OriginOk(s'.recs, s.written[h], h, s.table[h]) {
        assert OriginOk(s.recs, s.written[h], h, s.table[h]);
      }
    }
  }

  lemma StartsInv(s: State)
    requires Starts(s)
    ensures Inv(s)
  {
    forall h | h in s.table ensures RowOk(s.recs, s.log, s.taken, s.base, h, s.table[h]) {
      assert NoItem(s.recs, s.log, s.taken, h);
    }
  }

  lemma {:induction false} RunsKeepInv(start: State, steps: seq<Step>)
    requires Starts(start)
    ensures match Execute(start, steps) case None => true case Some(s) => Inv(s) && s.base == start.base && s.cutoff == start.cutoff
  {
    hide Inv;
    if steps == [] {
      StartsInv(start);
    } else {
      var n := |steps| - 1;
      RunsKeepInv(start, steps[..n]);
      hide Apply, Enabled, Starts;
      match Execute(start, steps[..n])
      case None =>
      case Some(s) =>
        if Enabled(s, steps[n]) {
          StepKeepsInv(s, steps[n]);
          StepExtends(s, steps[n]);
        }
    }
  }

  lemma StepKeepsInv(s: State, step: Step)
    requires Inv(s) && Enabled(s, step)
    ensures Inv(Apply(s, step))
  {
    StepKeepsRecs(s, step);
    StepKeepsTable(s, step);
    StepKeepsWritten(s, step);
    hide Apply, Enabled, RecsOk, LogOk, TableOk, WrittenOk;
  }

  /** There is such a start for every table and every age limit. */
  lemma {:induction false} StartExists(base: Table, cutoff: int, left: set<Hash>) returns (s: State)
    requires left <= Found(base, cutoff).Keys
    ensures s.base == base && s.cutoff == cutoff
    ensures s.log == [] && s.taken == 0 && s.table == base && RecsOk(s.recs, s.registry) && s.registry.Keys == left
    ensures forall h :: h in s.registry ==> s.recs[s.registry[h]].versions == [base[h]] && s.recs[s.registry[h]].status == Stored
    ensures s.written == map h | h in s.registry :: Origin(s.registry[h], 0)
    ensures left == Found(base, cutoff).Keys ==> Starts(s)
    decreases |left|
  {
    if left == {} {
      s := State([], map[], [], 0, base, map[], base, cutoff);
    } else {
      var h :| h in left;
      var t := StartExists(base, cutoff, left - {h});
      var registry := t.registry[h := |t.recs|];
      s := State(t.recs + [MemRec(h, [base[h]], Stored)], registry, [], 0, base,
                 map g | g in registry :: Origin(registry[g], 0), base, cutoff);
    }
  }

  // ---- after a clean shutdown -------------------------------------------------------------------

  /**
   * Once the queue is drained: a row is a version of the record that was last queued for its block, no older
   * than the one that was queued, and no removal has been queued since; or nothing was ever queued for its
   * block and it is the row from the start.
   */
  lemma RowsAreLastStored(start: State, steps: seq<Step>, s: State, h: Hash)
    requires Starts(start) && Execute(start, steps) == Some(s) && s.taken == |s.log| && h in s.table
    ensures
      || (exists i: nat :: i < |s.log| && IsLastItem(s.recs, s.log, |s.log|, h, i) && IsVersion(s.recs, s.log[i], s.table[h]))
      || (NoItem(s.recs, s.log, |s.log|, h) && h in start.base && s.table[h] == start.base[h])
  {
    RunsKeepInv(start, steps);
    assert RowOk(s.recs, s.log, s.taken, s.base, h, s.table[h]);
    hide Starts, Execute, WrittenOk, RecsOk, LogOk;
  }

  /** What the registry has stored, as rows. */
  function StoredRows(s: State): Table {
    map h | h in s.registry && s.registry[h] < |s.recs| && s.recs[s.registry[h]].status == Stored :: Current(s.recs[s.registry[h]])
  }

  /** The record the row was read from is the registered one, is stored, and has not been changed since it was read. */
  predicate UpToDate(s: State, h: Hash) {
    && h in s.written && h in s.registry && s.registry[h] == s.written[h].id && s.written[h].id < |s.recs|
    && s.recs[s.written[h].id].status == Stored
    && s.written[h].version == Newest(s.recs[s.written[h].id])
  }

  /** No two versions of the records of one block are the same row, and none is a row that was too old to be loaded. */
  ghost predicate VersionsDiffer(s: State) {
    && (forall i: nat, j: nat, u: nat, v: nat :: SameRow(s.recs, i, u, j, v) ==> i == j && u == v)
    && (forall i: nat, u: nat :: IsVersionOf(s.recs, i, u) ==> !IsOldRow(s, s.recs[i].hash, s.recs[i].versions[u]))
  }

  predicate SameRow(recs: seq<MemRec>, i: nat, u: nat, j: nat, v: nat) {
    IsVersionOf(recs, i, u) && IsVersionOf(recs, j, v) && recs[i].hash == recs[j].hash && recs[i].versions[u] == recs[j].versions[v]
  }

  predicate IsOldRow(s: State, h: Hash, row: Row) { h in s.base && s.base[h].evictedAt <= s.cutoff && s.base[h] == row }

  predicate IsVersionOf(recs: seq<MemRec>, i: nat, u: nat) { i < |recs| && u < |recs[i].versions| }

  /**
   * For every run from every start, drained or not, and every age limit of the next process: the rows that it finds are rows
   * of stored records exactly if each of them is up to date.
   */
  lemma RestartIsSubmapOfStoredIff(start: State, steps: seq<Step>, s: State, later: int)
    requires Starts(start) && Execute(start, steps) == Some(s) && VersionsDiffer(s)
    ensures Submap(Found(s.table, later), StoredRows(s)) <==> forall h :: h in Found(s.table, later) ==> UpToDate(s, h)
  {
    RunsKeepInv(start, steps);
    hide Starts, Execute, TableOk, LogOk;
    forall h | h in Found(s.table, later)
      ensures (h in StoredRows(s) && s.table[h] == StoredRows(s)[h]) <==> UpToDate(s, h)
    {
      StoredIffUpToDate(s, h);
    }
  }

  lemma StoredIffUpToDate(s: State, h: Hash)
    requires WrittenOk(s) && RecsOk(s.recs, s.registry) && VersionsDiffer(s) && h in s.table
    ensures (h in StoredRows(s) && s.table[h] == StoredRows(s)[h]) <==> UpToDate(s, h)
  {
    if h in StoredRows(s) {
      var id := s.registry[h];
      assert IsVersionOf(s.recs, id, Newest(s.recs[id]));
      if h in s.written && s.table[h] == Current(s.recs[id]) {
        assert SameRow(s.recs, s.written[h].id, s.written[h].version, id, Newest(s.recs[id]));
      }
    }
  }

  /** The row of `h` is read anew by this step. */
  predicate Reads(s: State, step: Step, h: Hash) {
    step.Write? && Enabled(s, step) && LastUp(s.recs, s.log[s.taken..s.taken + step.n], h).Some?
  }

  lemma ReadIsNewest(s: State, step: Step, h: Hash)
    requires Enabled(s, step) && h in Apply(s, step).written
    ensures var s' := Apply(s, step);
      if Reads(s, step, h) then s'.written[h].id < |s'.recs| && s'.written[h].version == Newest(s'.recs[s'.written[h].id])
      else h in s.written && s'.written[h] == s.written[h]
  {
    hide Commit, OpsOf, LastUp;
  }

  /** When the row of `h` was read: at a batch, or when the process started. */
  lemma {:induction false} ReadAt(start: State, steps: seq<Step>, s: State, h: Hash) returns (b: nat)
    requires Starts(start) && Execute(start, steps) == Some(s) && h in s.written
    ensures b <= |steps| && (b == 0 || steps[b - 1].Write?) && Execute(start, steps[..b]).Some?
    ensures var read := Execute(start, steps[..b]).value;
      && h in read.written && read.written[h] == s.written[h]
      && s.written[h].id < |read.recs| && s.written[h].version == Newest(read.recs[s.written[h].id])
  {
    assert steps[..|steps|] == steps;
    if steps == [] {
      b := 0;
    } else {
      hide Starts, Apply, Enabled, Reads;
      var n := |steps| - 1;
      var t := Execute(start, steps[..n]).value;
      ReadIsNewest(t, steps[n], h);
      if Reads(t, steps[n], h) {
        b := n + 1;
        assert steps[n].Write? by { ReadsIsWrite(t, steps[n], h); }
      } else {
        b := ReadAt(start, steps[..n], t, h);
        assert steps[..n][..b] == steps[..b];
      }
    }
  }

  lemma ReadsIsWrite(s: State, step: Step, h: Hash)
    requires Reads(s, step, h)
    ensures step.Write?
  {
  }

  predicate Changes(step: Step, id: nat) { step.Change? && step.id == id }

  /** No step from position `b` on changes this record. */
  predicate LeftAlone(steps: seq<Step>, b: nat, id: nat) { forall k :: b <= k < |steps| ==> !Changes(steps[k], id) }

  lemma LeftAloneOneMore(steps: seq<Step>, b: nat, id: nat)
    requires b < |steps|
    ensures LeftAlone(steps, b, id) <==> LeftAlone(steps[..|steps| - 1], b, id) && !Changes(steps[|steps| - 1], id)
  {
    hide Changes;
    var init := steps[..|steps| - 1];
    assert forall k :: 0 <= k < |init| ==> init[k] == steps[k];
  }

  /** A record is the version it was before exactly if no step since has changed it. */
  lemma {:induction false} NewestStaysIff(start: State, steps: seq<Step>, b: nat, id: nat)
    requires Starts(start) && b <= |steps| && Execute(start, steps).Some? && Execute(start, steps[..b]).Some?
    requires id < |Execute(start, steps[..b]).value.recs|
    ensures var before, now := Execute(start, steps[..b]).value, Execute(start, steps).value;
      && id < |now.recs| && Newest(now.recs[id]) >= Newest(before.recs[id])
      && (Newest(now.recs[id]) == Newest(before.recs[id]) <==> LeftAlone(steps, b, id))
    decreases |steps|
  {
    if b == |steps| {
      assert steps[..b] == steps;
    } else {
      var n := |steps| - 1;
      assert steps[..n][..b] == steps[..b];
      NewestStaysIff(start, steps[..n], b, id);
      hide Starts, Apply, Enabled, Inv, Newest, Changes, LeftAlone;
      RunsKeepInv(start, steps[..n]);
      var t := Execute(start, steps[..n]).value;
      InvRecs(t);
      LeftAloneOneMore(steps, b, id);
      OneChange(t, steps[n], id);
    }
  }

  lemma InvRecs(s: State)
    requires Inv(s)
    ensures RecsOk(s.recs, s.registry)
  {
  }

  lemma OneChange(s: State, step: Step, id: nat)
    requires RecsOk(s.recs, s.registry) && Enabled(s, step) && id < |s.recs|
    ensures id < |Apply(s, step).recs|
    ensures Newest(Apply(s, step).recs[id]) == Newest(s.recs[id]) + if Changes(step, id) then 1 else 0
  {
    hide Commit, OpsOf, Written;
  }

  /** So a row is up to date exactly if its record is registered, stored, and no step since the row was read has changed it. */
  lemma UpToDateIff(start: State, steps: seq<Step>, s: State, h: Hash) returns (b: nat)
    requires Starts(start) && Execute(start, steps) == Some(s) && h in s.written
    ensures b <= |steps| && (b == 0 || steps[b - 1].Write?)
    ensures UpToDate(s, h) <==>
      && h in s.registry && s.registry[h] == s.written[h].id && s.registry[h] < |s.recs| && s.recs[s.registry[h]].status == Stored
      && LeftAlone(steps, b, s.written[h].id)
  {
    b := ReadAt(start, steps, s, h);
    NewestStaysIff(start, steps, b, s.written[h].id);
    hide Starts, Execute, Newest, LeftAlone;
  }

  /** It is not always so: a block that is marked failed after it was stored is stored again after a restart. */
  lemma FailedBlockComesBackStored(h: Hash, row: Row, cutoff: int)
    ensures Starts(Fresh(cutoff))
    ensures var steps := [Register(h, row), MarkStored(h), LogStored(h), MarkFailed(h), Write(1)];
      && Execute(Fresh(cutoff), steps).Some?
      && var s := Execute(Fresh(cutoff), steps).value;
      && s.taken == |s.log| && s.table == map[h := row] && StoredRows(s) == map[]
  {
    var rec := MemRec(h, [row], Pending);
    var s1 := Fresh(cutoff).(recs := [rec], registry := map[h := 0]);
    var s2 := s1.(recs := [rec.(status := Stored)]);
    var s3 := s2.(log := [Up(0, 0)]);
    var s4 := s3.(recs := [rec.(status := Failed)]);
    var s5 := s4.(taken := 1, table := map[h := row], written := map[h := Origin(0, 0)]);
    OneWrite(s4, h, row);
    var a, b, c, d, e := Register(h, row), MarkStored(h), LogStored(h), MarkFailed(h), Write(1);
    FiveSteps(Fresh(cutoff), a, b, c, d, e, s1, s2, s3, s4, s5);
  }

  lemma OneWrite(s: State, h: Hash, row: Row)
    requires s.log == [Up(0, 0)] && s.taken == 0 && s.table == map[] && s.written == map[] && |s.recs| == 1
    requires s.recs[0].hash == h && s.recs[0].versions == [row]
    ensures Enabled(s, Write(1))
    ensures Apply(s, Write(1)) == s.(taken := 1, table := map[h := row], written := map[h := Origin(0, 0)])
  {
    var u := Upsert(h, row);
    assert s.log[0..1] == s.log;
    assert OpsOf(s.recs, s.log) == [u];
    assert [u][..0] == [] && Upserts([u]) == [] + [u] && Deletes([u]) == [];
    assert Replay(map[], [u]) == map[h := row];
    assert LastUp(s.recs, s.log, h) == Some(0);
  }

  lemma FiveSteps(start: State, a: Step, b: Step, c: Step, d: Step, e: Step, s1: State, s2: State, s3: State, s4: State, s5: State)
    requires Enabled(start, a) && Apply(start, a) == s1 && Enabled(s1, b) && Apply(s1, b) == s2
    requires Enabled(s2, c) && Apply(s2, c) == s3 && Enabled(s3, d) && Apply(s3, d) == s4
    requires Enabled(s4, e) && Apply(s4, e) == s5
    ensures Execute(start, [a, b, c, d, e]) == Some(s5)
  {
    hide Apply, Enabled;
    assert [a][..0] == [] && Execute(start, [a]) == Some(s1);
    assert [a, b][..1] == [a] && Execute(start, [a, b]) == Some(s2);
    assert [a, b, c][..2] == [a, b] && Execute(start, [a, b, c]) == Some(s3);
    assert [a, b, c, d][..3] == [a, b, c] && Execute(start, [a, b, c, d]) == Some(s4);
    assert [a, b, c, d, e][..4] == [a, b, c, d];
  }
}
