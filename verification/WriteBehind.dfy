/**
 * Write-behind persistence of the block registry. Every `mark_stored` and `remove` is logged on a
 * queue; a writer drains it in batches and commits each batch as all upserts, then all deletes.
 * The SQLite table is a map from block hash to row.
 */
module WriteBehind {
  import opened Common

  /** The persisted columns of a record, apart from its hash. */
  datatype Row = Row(
    vaultKey: string, vaultNode: string, layerType: string, numTokens: nat, sizeBytes: nat,
    evictedAt: int, tensorHash: seq<byte>, contextId: Option<string>, position: Option<nat>)

  type Table = map<Hash, Row>

  datatype Op = Upsert(hash: Hash, row: Row) | Delete(hash: Hash)

  /** What the queue carries: operations, and finally the stop sentinel. */
  datatype Item = Do(op: Op) | Stop

  const BATCH_SIZE := 64

  // ---- the two ways of applying a log --------------------------------------------------------

  function ApplyOp(t: Table, op: Op): Table {
    match op
    case Upsert(h, row) => t[h := row]
    case Delete(h) => t - {h}
  }

  /** Sequential replay. */
  function Replay(t: Table, log: seq<Op>): Table {
    if log == [] then t else ApplyOp(Replay(t, log[..|log| - 1]), log[|log| - 1])
  }

  function Upserts(batch: seq<Op>): seq<Op> {
    if batch == [] then [] else
      var last := batch[|batch| - 1];
      Upserts(batch[..|batch| - 1]) + if last.Upsert? then [last] else []
  }

  function Deletes(batch: seq<Op>): seq<Op> {
    if batch == [] then [] else
      var last := batch[|batch| - 1];
      Deletes(batch[..|batch| - 1]) + if last.Delete? then [last] else []
  }

  /** What the writer commits for one batch. */
  function Commit(t: Table, batch: seq<Op>): Table {
    Replay(Replay(t, Upserts(batch)), Deletes(batch))
  }

  function CommitAll(t: Table, batches: seq<seq<Op>>): Table {
    if batches == [] then t else Commit(CommitAll(t, batches[..|batches| - 1]), batches[|batches| - 1])
  }

  function Flatten(batches: seq<seq<Op>>): seq<Op> {
    if batches == [] then [] else Flatten(batches[..|batches| - 1]) + batches[|batches| - 1]
  }

  // ---- one hash at a time --------------------------------------------------------------------

  function At(t: Table, h: Hash): Option<Row> { if h in t then Some(t[h]) else None }

  /** The last operation of the log on `h`, if there is one. */
  function LastOn(log: seq<Op>, h: Hash): Option<Op> {
    if log == [] then None
    else if log[|log| - 1].hash == h then Some(log[|log| - 1])
    else LastOn(log[..|log| - 1], h)
  }

  predicate HasDelete(log: seq<Op>, h: Hash) {
    exists i :: 0 <= i < |log| && log[i] == Delete(h)
  }

  function LastUpsert(log: seq<Op>, h: Hash): Option<Row> {
    if log == [] then None
    else if log[|log| - 1].Upsert? && log[|log| - 1].hash == h then Some(log[|log| - 1].row)
    else LastUpsert(log[..|log| - 1], h)
  }

  /** Replay gives a hash what the last operation on it says, or leaves it alone. */
  lemma {:induction false} ReplayAt(t: Table, log: seq<Op>, h: Hash)
    ensures At(Replay(t, log), h) ==
      match LastOn(log, h)
      case None => At(t, h)
      case Some(Upsert(_, row)) => Some(row)
      case Some(Delete(_)) => None
  {
    if log != [] {
      ReplayAt(t, log[..|log| - 1], h);
    }
  }

  predicate IsLastOn(log: seq<Op>, h: Hash, i: nat) {
    i < |log| && log[i].hash == h && forall j :: i < j < |log| ==> log[j].hash != h
  }

  /** The last operation on a hash is the one with nothing on that hash behind it. */
  lemma {:induction false} LastOnMeaning(log: seq<Op>, h: Hash)
    ensures match LastOn(log, h)
      case None => forall i :: 0 <= i < |log| ==> log[i].hash != h
      case Some(op) => op.hash == h && exists i: nat :: IsLastOn(log, h, i) && log[i] == op
  {
    if log != [] {
      var n := |log| - 1;
      LastOnMeaning(log[..n], h);
      if log[n].hash == h {
        assert IsLastOn(log, h, n);
      } else if LastOn(log[..n], h).Some? {
        var op := LastOn(log[..n], h).value;
        var i: nat :| IsLastOn(log[..n], h, i) && log[..n][i] == op;
        forall j | i < j < |log| ensures log[j].hash != h {
          if j < n {
            assert log[..n][j] == log[j];
          }
        }
        assert IsLastOn(log, h, i);
      }
    }
  }

  lemma {:induction false} UpsertsAt(batch: seq<Op>, h: Hash)
    ensures LastOn(Upserts(batch), h) ==
      match LastUpsert(batch, h) case None => None case Some(row) => Some(Upsert(h, row))
  {
    if batch != [] {
      var n := |batch| - 1;
      UpsertsAt(batch[..n], h);
      if batch[n].Upsert? {
        var u := Upserts(batch[..n]);
        assert (u + [batch[n]])[..|u|] == u;
      } else {
        assert Upserts(batch) == Upserts(batch[..n]);
      }
    }
  }

  lemma {:induction false} DeletesAt(batch: seq<Op>, h: Hash)
    ensures LastOn(Deletes(batch), h) == if HasDelete(batch, h) then Some(Delete(h)) else None
  {
    if batch != [] {
      var n := |batch| - 1;
      DeletesAt(batch[..n], h);
      HasDeleteSplit(batch, h);
      if batch[n].Delete? {
        var d := Deletes(batch[..n]);
        assert (d + [batch[n]])[..|d|] == d;
      } else {
        assert Deletes(batch) == Deletes(batch[..n]);
      }
    }
  }

  lemma HasDeleteSplit(log: seq<Op>, h: Hash)
    requires log != []
    ensures HasDelete(log, h) <==> HasDelete(log[..|log| - 1], h) || log[|log| - 1] == Delete(h)
  {
    var init := log[..|log| - 1];
    if HasDelete(init, h) {
      var i :| 0 <= i < |init| && init[i] == Delete(h);
      assert log[i] == Delete(h);
    }
    if HasDelete(log, h) && log[|log| - 1] != Delete(h) {
      var i :| 0 <= i < |log| && log[i] == Delete(h);
      assert init[i] == Delete(h);
    }
  }

  /** A committed batch: deleted if the batch deletes the hash anywhere, else what its last upsert says. */
  lemma CommitAt(t: Table, batch: seq<Op>, h: Hash)
    ensures At(Commit(t, batch), h) ==
      if HasDelete(batch, h) then None
      else match LastUpsert(batch, h) case Some(row) => Some(row) case None => At(t, h)
  {
    ReplayAt(t, Upserts(batch), h);
    ReplayAt(Replay(t, Upserts(batch)), Deletes(batch), h);
    UpsertsAt(batch, h);
    DeletesAt(batch, h);
  }

  // ---- the comparison ------------------------------------------------------------------------

  /** The batch deletes the hash and then stores it again: the writer loses that last upsert. */
  predicate Loses(batch: seq<Op>, h: Hash) {
    HasDelete(batch, h) && LastOn(batch, h).Some? && LastOn(batch, h).value.Upsert?
  }

  /** The last batch that touches `h` loses its upsert. */
  predicate Lost(batches: seq<seq<Op>>, h: Hash) {
    batches != [] &&
    var last := batches[|batches| - 1];
    if LastOn(last, h).Some? then Loses(last, h) else Lost(batches[..|batches| - 1], h)
  }

  lemma {:induction false} LastOnUpsert(log: seq<Op>, h: Hash)
    ensures LastOn(log, h) == None ==> LastUpsert(log, h) == None && !HasDelete(log, h)
    ensures LastOn(log, h).Some? && LastOn(log, h).value.Upsert? ==> LastUpsert(log, h) == Some(LastOn(log, h).value.row)
    ensures LastOn(log, h).Some? && LastOn(log, h).value.Delete? ==> HasDelete(log, h)
  {
    if log != [] {
      LastOnUpsert(log[..|log| - 1], h);
      HasDeleteSplit(log, h);
    }
  }

  lemma {:induction false} LastOnConcat(a: seq<Op>, b: seq<Op>, h: Hash)
    ensures LastOn(a + b, h) == if LastOn(b, h).Some? then LastOn(b, h) else LastOn(a, h)
  {
    if b == [] {
      assert a + b == a;
    } else {
      assert (a + b)[..|a + b| - 1] == a + b[..|b| - 1];
      LastOnConcat(a, b[..|b| - 1], h);
    }
  }

  lemma {:induction false} ReplayConcat(t: Table, a: seq<Op>, b: seq<Op>)
    ensures Replay(t, a + b) == Replay(Replay(t, a), b)
  {
    if b == [] {
      assert a + b == a;
    } else {
      assert (a + b)[..|a + b| - 1] == a + b[..|b| - 1];
      ReplayConcat(t, a, b[..|b| - 1]);
    }
  }

  /** For one hash: the table lacks exactly the upserts a batch deletes ahead of, and agrees otherwise. */
  lemma {:induction false} DrainedAt(t: Table, batches: seq<seq<Op>>, h: Hash)
    ensures At(CommitAll(t, batches), h) ==
      if Lost(batches, h) then None else At(Replay(t, Flatten(batches)), h)
    ensures Lost(batches, h) ==> At(Replay(t, Flatten(batches)), h).Some?
  {
    if batches != [] {
      var n := |batches| - 1;
      var init, last := batches[..n], batches[n];
      DrainedAt(t, init, h);
      CommitAt(CommitAll(t, init), last, h);
      LastOnUpsert(last, h);
      ReplayConcat(t, Flatten(init), last);
      ReplayAt(Replay(t, Flatten(init)), last, h);
    }
  }

  predicate Submap(a: Table, b: Table) {
    forall h :: h in a ==> h in b && a[h] == b[h]
  }

  /** However the log is cut: never a resurrected hash and never a stale row. */
  lemma DrainIsSubmapOfReplay(t: Table, batches: seq<seq<Op>>)
    ensures Submap(CommitAll(t, batches), Replay(t, Flatten(batches)))
  {
    forall h | h in CommitAll(t, batches)
      ensures At(CommitAll(t, batches), h) == At(Replay(t, Flatten(batches)), h)
    {
      DrainedAt(t, batches, h);
    }
  }

  /** Exactly when nothing is missing: no hash is deleted and then stored again within the last batch that touches it. */
  lemma DrainEqualsReplayIff(t: Table, batches: seq<seq<Op>>)
    ensures CommitAll(t, batches) == Replay(t, Flatten(batches)) <==> forall h :: !Lost(batches, h)
  {
    var a, b := CommitAll(t, batches), Replay(t, Flatten(batches));
    if forall h :: !Lost(batches, h) {
      forall h ensures At(a, h) == At(b, h) {
        DrainedAt(t, batches, h);
      }
      assert a.Keys == b.Keys by {
        forall h ensures h in a <==> h in b {
          assert At(a, h) == At(b, h);
        }
      }
      assert forall h :: h in a ==> At(a, h) == At(b, h);
    } else {
      var h :| Lost(batches, h);
      DrainedAt(t, batches, h);
      assert At(a, h) != At(b, h);
    }
  }

  /** In particular, batches in which no delete of a hash comes before an upsert of it lose nothing. */
  lemma DrainEqualsReplayWithoutRestores(t: Table, batches: seq<seq<Op>>)
    requires forall k :: 0 <= k < |batches| ==> NoRestore(batches[k])
    ensures CommitAll(t, batches) == Replay(t, Flatten(batches))
  {
    forall h ensures !Lost(batches, h) {
      NoRestoreNothingLost(batches, h);
    }
    DrainEqualsReplayIff(t, batches);
  }

  predicate NoRestore(batch: seq<Op>) {
    forall i, j :: 0 <= i < j < |batch| && batch[i].Delete? && batch[j].Upsert? ==> batch[i].hash != batch[j].hash
  }

  lemma {:induction false} NoRestoreNothingLost(batches: seq<seq<Op>>, h: Hash)
    requires forall k :: 0 <= k < |batches| ==> NoRestore(batches[k])
    ensures !Lost(batches, h)
  {
    if batches != [] {
      var last := batches[|batches| - 1];
      NoRestoreNothingLost(batches[..|batches| - 1], h);
      assert NoRestore(last);
      if Loses(last, h) {
        LosesIsRestore(last, h);
      }
    }
  }

  lemma LosesIsRestore(batch: seq<Op>, h: Hash)
    requires Loses(batch, h)
    ensures !NoRestore(batch)
  {
    var i :| 0 <= i < |batch| && batch[i] == Delete(h);
    LastOnMeaning(batch, h);
    var j: nat :| IsLastOn(batch, h, j) && batch[j] == LastOn(batch, h).value;
    assert i < j;
  }

  // ---- over all ways of cutting the log ----------------------------------------------------------

  predicate WellCut(batches: seq<seq<Op>>) {
    forall k :: 0 <= k < |batches| ==> 1 <= |batches[k]| <= BATCH_SIZE
  }

  /** The last operation on the hash is an upsert, and a delete of it comes so shortly before that both fit one batch. */
  ghost predicate Endangered(log: seq<Op>, h: Hash) {
    exists i, j: nat :: 0 <= i < j < i + BATCH_SIZE && j < |log| && log[i] == Delete(h) && IsLastOn(log, h, j) && log[j].Upsert?
  }

  lemma LosesIsEndangered(log: seq<Op>, h: Hash)
    requires Loses(log, h) && |log| <= BATCH_SIZE
    ensures Endangered(log, h)
  {
    var i :| 0 <= i < |log| && log[i] == Delete(h);
    LastOnMeaning(log, h);
    var j: nat :| IsLastOn(log, h, j) && log[j] == LastOn(log, h).value;
    assert i < j;
  }

  lemma EndangeredBehind(front: seq<Op>, log: seq<Op>, h: Hash)
    requires Endangered(log, h)
    ensures Endangered(front + log, h)
  {
    var i, j: nat :| 0 <= i < j < i + BATCH_SIZE && j < |log| && log[i] == Delete(h) && IsLastOn(log, h, j) && log[j].Upsert?;
    var all := front + log;
    assert all[|front| + i] == Delete(h) && IsLastOn(all, h, |front| + j);
  }

  lemma EndangeredBefore(log: seq<Op>, back: seq<Op>, h: Hash)
    requires Endangered(log, h) && forall k :: 0 <= k < |back| ==> back[k].hash != h
    ensures Endangered(log + back, h)
  {
    var i, j: nat :| 0 <= i < j < i + BATCH_SIZE && j < |log| && log[i] == Delete(h) && IsLastOn(log, h, j) && log[j].Upsert?;
    var all := log + back;
    assert all[i] == Delete(h) && IsLastOn(all, h, j);
  }

  lemma {:induction false} LostIsEndangered(batches: seq<seq<Op>>, h: Hash)
    requires WellCut(batches) && Lost(batches, h)
    ensures Endangered(Flatten(batches), h)
  {
    var n := |batches| - 1;
    var init, last := batches[..n], batches[n];
    hide Endangered;
    if LastOn(last, h).Some? {
      LosesIsEndangered(last, h);
      EndangeredBehind(Flatten(init), last, h);
    } else {
      LastOnMeaning(last, h);
      LostIsEndangered(init, h);
      EndangeredBefore(Flatten(init), last, h);
    }
  }

  /** Every operation a batch of its own. */
  function Singles(log: seq<Op>): seq<seq<Op>> { seq(|log|, k requires 0 <= k < |log| => [log[k]]) }

  lemma {:induction false} FlattenConcat(a: seq<seq<Op>>, b: seq<seq<Op>>)
    ensures Flatten(a + b) == Flatten(a) + Flatten(b)
  {
    if b == [] {
      assert a + b == a;
    } else {
      assert (a + b)[..|a + b| - 1] == a + b[..|b| - 1];
      FlattenConcat(a, b[..|b| - 1]);
    }
  }

  lemma {:induction false} FlattenSingles(log: seq<Op>)
    ensures Flatten(Singles(log)) == log
  {
    if log != [] {
      var n := |log| - 1;
      FlattenSingles(log[..n]);
      assert Singles(log)[..n] == Singles(log[..n]);
      assert log == log[..n] + [log[n]];
    }
  }

  lemma {:induction false} LostBefore(batches: seq<seq<Op>>, back: seq<seq<Op>>, h: Hash)
    requires Lost(batches, h) && forall k :: 0 <= k < |back| ==> LastOn(back[k], h).None?
    ensures Lost(batches + back, h)
  {
    if back == [] {
      assert batches + back == batches;
    } else {
      var n := |back| - 1;
      LostBefore(batches, back[..n], h);
      assert (batches + back)[..|batches + back| - 1] == batches + back[..n];
    }
  }

  /** A cut with operations `i` to `j` in one batch. */
  function CutAround(log: seq<Op>, i: nat, j: nat): seq<seq<Op>>
    requires i <= j < |log|
  {
    Singles(log[..i]) + [log[i..j + 1]] + Singles(log[j + 1..])
  }

  lemma CutAroundIsCut(log: seq<Op>, i: nat, j: nat)
    requires i <= j < |log| && j < i + BATCH_SIZE
    ensures WellCut(CutAround(log, i, j)) && Flatten(CutAround(log, i, j)) == log
  {
    var a, b, d := Singles(log[..i]), [log[i..j + 1]], Singles(log[j + 1..]);
    FlattenConcat(a + b, d);
    FlattenConcat(a, b);
    FlattenSingles(log[..i]);
    FlattenSingles(log[j + 1..]);
    assert b[..0] == [] && Flatten(b) == [] + log[i..j + 1];
    assert log == log[..i] + log[i..j + 1] + log[j + 1..];
  }

  lemma CutAroundLoses(log: seq<Op>, h: Hash, i: nat, j: nat)
    requires i < j < |log| && log[i] == Delete(h) && IsLastOn(log, h, j) && log[j].Upsert?
    ensures Lost(CutAround(log, i, j), h)
  {
    var batch, back := log[i..j + 1], Singles(log[j + 1..]);
    assert batch[0] == Delete(h) && batch[|batch| - 1] == log[j];
    forall k | 0 <= k < |back| ensures LastOn(back[k], h).None? {
      assert back[k] == [log[j + 1 + k]] && back[k][..0] == [];
    }
    var front := Singles(log[..i]) + [batch];
    assert front[..|front| - 1] == Singles(log[..i]);
    LostBefore(front, back, h);
  }

  /**
   * Whatever the writer's timing: every cut into batches of 1 to 64 gives what replay gives, if and only if
   * no delete stands fewer than 64 places before an upsert that is the last operation on its hash.
   */
  lemma EveryCutEqualsReplayIff(t: Table, log: seq<Op>)
    ensures (forall batches :: WellCut(batches) && Flatten(batches) == log ==> CommitAll(t, batches) == Replay(t, log))
      <==> forall h :: !Endangered(log, h)
  {
    hide *;
    if h :| Endangered(log, h) {
      var batches := SomeCutLoses(t, log, h);
    } else {
      forall batches | WellCut(batches) && Flatten(batches) == log ensures CommitAll(t, batches) == Replay(t, log) {
        SafeCutLosesNothing(t, log, batches);
      }
    }
  }

  lemma SomeCutLoses(t: Table, log: seq<Op>, h: Hash) returns (batches: seq<seq<Op>>)
    requires Endangered(log, h)
    ensures WellCut(batches) && Flatten(batches) == log && CommitAll(t, batches) != Replay(t, log)
  {
    var i, j: nat :| 0 <= i < j < i + BATCH_SIZE && j < |log| && log[i] == Delete(h) && IsLastOn(log, h, j) && log[j].Upsert?;
    batches := CutAround(log, i, j);
    CutAroundIsCut(log, i, j);
    CutAroundLoses(log, h, i, j);
    LostIsDifferent(t, batches, h);
    hide *;
  }

  lemma LostIsDifferent(t: Table, batches: seq<seq<Op>>, h: Hash)
    requires Lost(batches, h)
    ensures CommitAll(t, batches) != Replay(t, Flatten(batches))
  {
    DrainedAt(t, batches, h);
    hide Lost, CommitAll, Replay, Flatten;
  }

  lemma SafeCutLosesNothing(t: Table, log: seq<Op>, batches: seq<seq<Op>>)
    requires WellCut(batches) && Flatten(batches) == log && forall h :: !Endangered(log, h)
    ensures CommitAll(t, batches) == Replay(t, log)
  {
    hide *;
    forall h ensures !Lost(batches, h) {
      if Lost(batches, h) {
        LostIsEndangered(batches, h);
      }
    }
    DrainEqualsReplayIff(t, batches);
  }

  /** Removing a block and storing it again within one batch loses it, though replay would keep it. */
  lemma RestoreInOneBatchIsLost(h: Hash, row: Row)
    ensures CommitAll(map[], [[Delete(h), Upsert(h, row)]]) == map[]
    ensures Replay(map[], Flatten([[Delete(h), Upsert(h, row)]])) == map[h := row]
  {
    var d, u := Delete(h), Upsert(h, row);
    var one := [[d, u]];
    assert one[..0] == [] && [] + [d, u] == [d, u];
    assert Flatten(one) == [d, u];
    ReplayTwo(h, row);
    assert [d, u][0] == d && LastOn([d, u], h) == Some(u);
    assert Lost(one, h);
    hide Replay, Commit, CommitAll, Flatten, Lost;
    DrainIsSubmapOfReplay(map[], one);
    DrainedAt(map[], one, h);
    assert CommitAll(map[], one).Keys == {};
  }

  lemma ReplayTwo(h: Hash, row: Row)
    ensures Replay(map[], [Delete(h), Upsert(h, row)]) == map[h := row]
  {
    var d, u := Delete(h), Upsert(h, row);
    assert [d, u][..1] == [d] && [d][..0] == [];
    assert Replay(map[], [d]) == map[];
  }

  // ---- the writer thread ---------------------------------------------------------------------

  function Ops(items: seq<Item>): seq<Op>
    requires forall i :: 0 <= i < |items| ==> items[i].Do?
  {
    seq(|items|, i requires 0 <= i < |items| => items[i].op)
  }

  /** The first stop sentinel of the queue. */
  predicate StopsAt(queue: seq<Item>, n: nat) {
    n < |queue| && queue[n].Stop? && forall i :: 0 <= i < n ==> queue[i].Do?
  }

  method ExecuteMany(t: Table, ops: seq<Op>) returns (r: Table)
    ensures r == Replay(t, ops)
  {
    r := t;
    for i := 0 to |ops|
      invariant r == Replay(t, ops[..i])
    {
      assert ops[..i + 1][..i] == ops[..i];
      r := ApplyOp(r, ops[i]);
    }
    assert ops[..|ops|] == ops;
  }

  /** Takes one batch off the queue; when the queue looks empty is up to the producers. */
  method Drain(queue: seq<Item>, from: nat, ghost stop: nat) returns (batch: seq<Item>, pos: nat)
    requires StopsAt(queue, stop) && from < stop
    ensures from < pos <= |queue| && batch == queue[from..pos] && |batch| <= BATCH_SIZE
    ensures pos <= stop + 1
  {
    batch, pos := [queue[from]], from + 1;
    while |batch| < BATCH_SIZE
      invariant from < pos <= stop && batch == queue[from..pos] && |batch| <= BATCH_SIZE
      decreases |queue| - pos
    {
      if * {
        break;
      }
      var next := queue[pos];
      pos := pos + 1;
      batch := batch + [next];
      if next.Stop? {
        break;
      }
    }
  }

  /** Sorts a batch into upserts and deletes, up to the sentinel if it holds one. */
  method Sort(batch: seq<Item>, ghost n: nat) returns (upserts: seq<Op>, deletes: seq<Op>, stop: bool)
    requires n == |batch| || StopsAt(batch, n)
    requires forall i :: 0 <= i < n ==> batch[i].Do?
    ensures upserts == Upserts(Ops(batch[..n])) && deletes == Deletes(Ops(batch[..n]))
    ensures stop <==> n < |batch|
  {
    upserts, deletes, stop := [], [], false;
    for i := 0 to |batch|
      invariant i <= n
      invariant upserts == Upserts(Ops(batch[..i])) && deletes == Deletes(Ops(batch[..i]))
    {
      if batch[i].Stop? {
        stop := true;
        return;
      }
      var op := batch[i].op;
      SortStep(batch, i);
      if op.Upsert? {
        upserts := upserts + [op];
      } else {
        deletes := deletes + [op];
      }
    }
  }

  lemma SortStep(batch: seq<Item>, i: nat)
    requires i < |batch| && forall j :: 0 <= j <= i ==> batch[j].Do?
    ensures Upserts(Ops(batch[..i + 1])) == Upserts(Ops(batch[..i])) + if batch[i].op.Upsert? then [batch[i].op] else []
    ensures Deletes(Ops(batch[..i + 1])) == Deletes(Ops(batch[..i])) + if batch[i].op.Delete? then [batch[i].op] else []
  {
    assert Ops(batch[..i + 1])[..i] == Ops(batch[..i]);
  }

  /**
   * Everything before the stop sentinel is committed, in order, each item once, in batches of 1 to 64;
   * nothing behind it is. However the batches fall, no row is stale and no deleted one comes back.
   */
  method WriteLoop(queue: seq<Item>, initial: Table, ghost stopAt: nat) returns (table: Table, ghost batches: seq<seq<Op>>)
    requires StopsAt(queue, stopAt)
    ensures WellCut(batches) && Flatten(batches) == Ops(queue[..stopAt])
    ensures table == CommitAll(initial, batches)
    ensures Submap(table, Replay(initial, Ops(queue[..stopAt])))
  {
    hide Committed, WellCut, Flatten, CommitAll, Replay, Upserts, Deletes, Ops;
    table, batches := initial, [];
    NothingCommitted(queue, stopAt, initial);
    var pos, stop := 0, false;
    ghost var end := 0;
    while !stop
      invariant end == (if stop then stopAt else pos) && pos <= (if stop then stopAt + 1 else stopAt)
      invariant Committed(queue, stopAt, end, batches, initial, table)
      decreases |queue| - pos, !stop
    {
      if queue[pos].Stop? {
        break;
      }
      var batch, next := Drain(queue, pos, stopAt);
      ghost var n := if next > stopAt then stopAt - pos else |batch|;
      BatchPart(queue, pos, next, n, stopAt);
      var upserts, deletes, stopping := Sort(batch, n);
      var t := ExecuteMany(table, upserts);
      ghost var before := table;
      table := ExecuteMany(t, deletes);
      CutStep(queue, stopAt, pos, pos + n, batch[..n], batches, initial, before);
      batches := batches + [Ops(batch[..n])];
      pos, stop, end := next, stopping, pos + n;
    }
    AllCommitted(queue, stopAt, batches, initial, table);
    DrainIsSubmapOfReplay(initial, batches);
  }

  lemma NothingCommitted(queue: seq<Item>, stopAt: nat, initial: Table)
    requires StopsAt(queue, stopAt)
    ensures Committed(queue, stopAt, 0, [], initial, initial)
  {
  }

  lemma AllCommitted(queue: seq<Item>, stopAt: nat, batches: seq<seq<Op>>, initial: Table, table: Table)
    requires Committed(queue, stopAt, stopAt, batches, initial, table)
    ensures WellCut(batches) && Flatten(batches) == Ops(queue[..stopAt]) && table == CommitAll(initial, batches)
  {
  }

  /** The table is what the batches make of it, and the batches are the queue up to `end`. */
  ghost predicate Committed(queue: seq<Item>, stopAt: nat, end: nat, batches: seq<seq<Op>>, initial: Table, table: Table) {
    && StopsAt(queue, stopAt) && end <= stopAt
    && WellCut(batches) && Flatten(batches) == Ops(queue[..end])
    && table == CommitAll(initial, batches)
  }

  /** The part of a batch in front of the sentinel. */
  lemma BatchPart(queue: seq<Item>, pos: nat, next: nat, n: nat, stopAt: nat)
    requires StopsAt(queue, stopAt) && pos < stopAt && pos < next <= stopAt + 1
    requires n == if next > stopAt then stopAt - pos else next - pos
    ensures var batch := queue[pos..next];
      && 1 <= n <= |batch| && (n == |batch| || StopsAt(batch, n))
      && batch[..n] == queue[pos..pos + n] && forall i :: 0 <= i < n ==> batch[i].Do?
  {
    var batch := queue[pos..next];
    assert forall i :: 0 <= i < |batch| ==> batch[i] == queue[pos + i];
  }

  lemma CutStep(queue: seq<Item>, stopAt: nat, pos: nat, end: nat, part: seq<Item>, batches: seq<seq<Op>>, initial: Table, table: Table)
    requires Committed(queue, stopAt, pos, batches, initial, table)
    requires pos < end <= stopAt && end - pos <= BATCH_SIZE && part == queue[pos..end] && forall i :: 0 <= i < |part| ==> part[i].Do?
    ensures Committed(queue, stopAt, end, batches + [Ops(part)], initial, Commit(table, Ops(part)))
  {
    assert (batches + [Ops(part)])[..|batches|] == batches;
    assert Ops(queue[..end]) == Ops(queue[..pos]) + Ops(part);
    hide Commit;
  }

  // ---- restart -------------------------------------------------------------------------------

  /** What the registry finds on disk at startup: rows younger than the cutoff. */
  method LoadFromDb(rows: seq<(Hash, Row)>, cutoff: int) returns (records: Table, index: map<string, Hash>)
    requires forall i, j :: 0 <= i < j < |rows| ==> rows[i].0 != rows[j].0
    ensures forall i :: 0 <= i < |rows| && rows[i].1.evictedAt > cutoff ==>
      rows[i].0 in records && records[rows[i].0] == rows[i].1
    ensures forall h :: h in records ==> exists i :: 0 <= i < |rows| && rows[i].0 == h && rows[i].1.evictedAt > cutoff
    ensures forall k :: k in index ==> k != "" && index[k] in records && records[index[k]].vaultKey == k
    ensures forall h :: h in records && records[h].vaultKey != "" ==> records[h].vaultKey in index
  {
    records, index := map[], map[];
    for n := 0 to |rows|
      invariant forall i :: 0 <= i < n && rows[i].1.evictedAt > cutoff ==>
        rows[i].0 in records && records[rows[i].0] == rows[i].1
      invariant forall h :: h in records ==> exists i :: 0 <= i < n && rows[i].0 == h && rows[i].1.evictedAt > cutoff
      invariant forall k :: k in index ==> k != "" && index[k] in records && records[index[k]].vaultKey == k
      invariant forall h :: h in records && records[h].vaultKey != "" ==> records[h].vaultKey in index
    {
      var (hash, row) := rows[n];
      if row.evictedAt > cutoff {
        assert hash !in records;
        records := records[hash := row];
        if row.vaultKey != "" {
          index := index[row.vaultKey := hash];
        }
      }
    }
  }

  /**
   * A row found after a clean shutdown was put there by a `mark_stored` with no later `mark_stored` or
   * `remove` of that block, and is the record as it was then.
   */
  lemma RowsAreLastStored(batches: seq<seq<Op>>, h: Hash)
    requires h in CommitAll(map[], batches)
    ensures exists i: nat :: IsLastOn(Flatten(batches), h, i) && Flatten(batches)[i] == Upsert(h, CommitAll(map[], batches)[h])
  {
    DrainIsSubmapOfReplay(map[], batches);
    ReplayAt(map[], Flatten(batches), h);
    LastOnMeaning(Flatten(batches), h);
    var t, log := CommitAll(map[], batches), Flatten(batches);
    assert At(Replay(map[], log), h) == Some(t[h]);
    var op := LastOn(log, h).value;
    assert op == Upsert(h, t[h]);
    var i: nat :| IsLastOn(log, h, i) && log[i] == op;
    assert IsLastOn(log, h, i) && log[i] == Upsert(h, t[h]);
  }
}
