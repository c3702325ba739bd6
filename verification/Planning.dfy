/**
 * The scheduler's arithmetic: how many tokens each stored block stands for, how many physical blocks
 * a restored prefix needs, and which plan entry is paired with which physical block.
 */
module Planning {
  import opened Common

  function Sum(s: seq<nat>): nat {
    if s == [] then 0 else Sum(s[..|s| - 1]) + s[|s| - 1]
  }

  function TokensOf(total: nat, blockSize: nat, i: nat): nat {
    Min(blockSize, Max(0, total - i * blockSize))
  }

  /** Tokens in each of `n` blocks of a request with `total` tokens. */
  function TokensPerBlock(total: nat, blockSize: nat, n: nat): (s: seq<nat>)
    ensures |s| == n
  {
    seq(n, i requires 0 <= i < n => TokensOf(total, blockSize, i))
  }

  lemma MulStep(i: nat, b: nat)
    ensures (i + 1) * b == i * b + b
  {
  }

  /** The blocks account for every token they have room for, once. */
  lemma {:induction false} TokensSum(total: nat, blockSize: nat, n: nat)
    ensures Sum(TokensPerBlock(total, blockSize, n)) == Min(total, n * blockSize)
  {
    if n > 0 {
      var s := TokensPerBlock(total, blockSize, n);
      assert s[..n - 1] == TokensPerBlock(total, blockSize, n - 1);
      TokensSum(total, blockSize, n - 1);
      MulStep(n - 1, blockSize);
    }
  }

  /** `math.ceil(a / b)`. */
  function CeilDiv(a: nat, b: nat): nat
    requires b > 0
  {
    (a + b - 1) / b
  }

  lemma QuotientIs(a: nat, b: nat, m: nat)
    requires b > 0 && m > 0 && (m - 1) * b < a <= m * b
    ensures CeilDiv(a, b) == m
  {
    var q, r := (a + b - 1) / b, (a + b - 1) % b;
    assert q * b + r == a + b - 1;
    MulStep(m - 1, b);
    if q < m {
      MulMono(q + 1, m, b);
      MulStep(q, b);
    } else if q > m {
      MulMono(m + 1, q, b);
      MulStep(m, b);
    }
  }

  /**
   * A restored prefix of `m` blocks of one request, with nothing computed yet and tokens in its last
   * block, needs exactly `m` physical blocks: plan entry `i` belongs to physical block `i`.
   */
  lemma PlanNeedsItsLength(total: nat, blockSize: nat, n: nat, m: nat)
    requires blockSize > 0 && 0 < m <= n
    requires TokensPerBlock(total, blockSize, n)[m - 1] > 0
    ensures CeilDiv(Sum(TokensPerBlock(total, blockSize, n)[..m]), blockSize) == m
  {
    var s := TokensPerBlock(total, blockSize, n);
    assert s[..m] == TokensPerBlock(total, blockSize, m);
    TokensSum(total, blockSize, m);
    assert s[m - 1] == TokensOf(total, blockSize, m - 1);
    MulStep(m - 1, blockSize);
    QuotientIs(Min(total, m * blockSize), blockSize, m);
  }

  /** When the last block has no tokens, fewer physical blocks are counted than the plan has entries. */
  lemma EmptyLastBlockNeedsFewer(total: nat, blockSize: nat, n: nat, m: nat)
    requires blockSize > 0 && 0 < m <= n
    requires TokensPerBlock(total, blockSize, n)[m - 1] == 0
    ensures CeilDiv(Sum(TokensPerBlock(total, blockSize, n)[..m]), blockSize) < m
  {
    var s := TokensPerBlock(total, blockSize, n);
    assert s[..m] == TokensPerBlock(total, blockSize, m);
    TokensSum(total, blockSize, m);
    assert s[m - 1] == TokensOf(total, blockSize, m - 1);
    MulStep(m - 1, blockSize);
    CeilAtMost(Min(total, m * blockSize), blockSize, m - 1);
  }

  lemma CeilAtMost(a: nat, b: nat, m: nat)
    requires b > 0 && a <= m * b
    ensures CeilDiv(a, b) <= m
  {
    var q, r := (a + b - 1) / b, (a + b - 1) % b;
    assert q * b + r == a + b - 1;
    if q > m {
      MulMono(m + 1, q, b);
      MulStep(m, b);
    }
  }

  // ---- which group is which ------------------------------------------------------------------

  /** Non-zero ids among the first `n` of a group; a missing id is modelled as zero. */
  function NonZero(g: seq<nat>, n: nat): nat {
    if g == [] || n == 0 then 0 else (if g[0] != 0 then 1 else 0) + NonZero(g[1..], n - 1)
  }

  /** The first of the groups with the most non-zero ids. */
  ghost predicate IsFirstLargest(groups: seq<seq<nat>>, p: nat, n: nat) {
    && p < |groups|
    && (forall i :: 0 <= i < |groups| ==> NonZero(groups[i], n) <= NonZero(groups[p], n))
    && (forall i :: 0 <= i < p ==> NonZero(groups[i], n) < NonZero(groups[p], n))
  }

  /** Where a stable descending sort takes its head from. */
  method FirstLargest(groups: seq<seq<nat>>, n: nat) returns (p: nat)
    requires groups != []
    ensures IsFirstLargest(groups, p, n)
  {
    p := 0;
    for k := 1 to |groups|
      invariant p < |groups| && p < k
      invariant forall i :: 0 <= i < k ==> NonZero(groups[i], n) <= NonZero(groups[p], n)
      invariant forall i :: 0 <= i < p ==> NonZero(groups[i], n) < NonZero(groups[p], n)
    {
      if NonZero(groups[k], n) > NonZero(groups[p], n) {
        p := k;
      }
    }
  }

  /** The second of a stable descending sort: the first of the largest when the head is taken out. */
  ghost predicate IsSecond(groups: seq<seq<nat>>, p: nat, secondary: seq<nat>, n: nat)
    requires p < |groups|
  {
    var others := groups[..p] + groups[p + 1..];
    exists q: nat :: IsFirstLargest(others, q, n) && others[q] == secondary
  }

  ghost predicate IsSplit(groups: seq<seq<nat>>, p: nat, primary: seq<nat>, secondary: seq<nat>, n: nat) {
    && IsFirstLargest(groups, p, n) && groups[p] == primary
    && if |groups| == 1 then secondary == primary else IsSecond(groups, p, secondary, n)
  }

  /** Primary group first; the next one is secondary, or the same again when there is only one. */
  method SplitGroups(groups: seq<seq<nat>>, n: nat) returns (primary: seq<nat>, secondary: seq<nat>)
    ensures groups == [] ==> primary == secondary == []
    ensures groups != [] ==> exists p: nat :: IsSplit(groups, p, primary, secondary, n)
  {
    if groups == [] {
      return [], [];
    }
    var p := FirstLargest(groups, n);
    primary, secondary := groups[p], groups[p];
    if |groups| > 1 {
      var others := groups[..p] + groups[p + 1..];
      var q := FirstLargest(others, n);
      secondary := others[q];
    }
    assert IsSplit(groups, p, primary, secondary, n);
  }

  /** The ids the worker gets for a restored hash. */
  function PairOf(primary: seq<nat>, secondary: seq<nat>, i: nat): (nat, nat) {
    var pid := if i < |primary| then primary[i] else 0;
    var sid := if i < |secondary| then secondary[i] else pid;
    (pid, if sid != 0 then sid else pid)
  }

  /** Entry `i` is for this hash and has ids to give it. */
  ghost predicate GivesIds(plan: seq<Hash>, external: nat, primary: seq<nat>, secondary: seq<nat>, h: Hash, i: nat) {
    i < |plan| && i < external && plan[i] == h && PairOf(primary, secondary, i).0 != 0
  }

  /** A hash gets the ids of the last entry that has some for it. */
  ghost predicate IdsFor(ids: map<Hash, (nat, nat)>, plan: seq<Hash>, external: nat, primary: seq<nat>, secondary: seq<nat>, h: Hash) {
    if h in ids then
      exists i: nat :: GivesIds(plan, external, primary, secondary, h, i) && ids[h] == PairOf(primary, secondary, i)
        && forall j: nat :: i < j ==> !GivesIds(plan, external, primary, secondary, h, j)
    else
      forall i: nat :: !GivesIds(plan, external, primary, secondary, h, i)
  }

  /** `update_state_after_alloc`: entry `i` of the plan takes the ids at position `i` of the two groups. */
  method PairPlan(plan: seq<Hash>, tokens: nat, blockSize: nat, primary: seq<nat>, secondary: seq<nat>)
    returns (ids: map<Hash, (nat, nat)>)
    requires blockSize > 0
    ensures forall h :: IdsFor(ids, plan, CeilDiv(tokens, blockSize), primary, secondary, h)
  {
    var external := CeilDiv(tokens, blockSize);
    var n := Min(|plan|, external);
    ids := map[];
    for i := 0 to n
      invariant forall h :: IdsFor(ids, plan[..i], external, primary, secondary, h)
    {
      var pid := if i < |primary| then primary[i] else 0;
      var sid := if i < |secondary| then secondary[i] else pid;
      ghost var before := ids;
      if pid != 0 {
        ids := ids[plan[i] := (pid, if sid != 0 then sid else pid)];
      }
      ghost var front := plan[..i + 1];
      forall h ensures IdsFor(ids, front, external, primary, secondary, h) {
        OneMoreEntry(before, ids, plan, external, primary, secondary, h, i);
      }
    }
    forall h ensures IdsFor(ids, plan, external, primary, secondary, h) {
      EntriesBehind(ids, plan, external, primary, secondary, h, n);
    }
  }

  lemma OneMoreEntry(before: map<Hash, (nat, nat)>, after: map<Hash, (nat, nat)>, plan: seq<Hash>, external: nat,
                     primary: seq<nat>, secondary: seq<nat>, h: Hash, i: nat)
    requires i < |plan| && i < external && IdsFor(before, plan[..i], external, primary, secondary, h)
    requires after == if PairOf(primary, secondary, i).0 != 0 then before[plan[i] := PairOf(primary, secondary, i)] else before
    ensures IdsFor(after, plan[..i + 1], external, primary, secondary, h)
  {
    var front, last := plan[..i + 1], plan[i] == h && PairOf(primary, secondary, i).0 != 0;
    forall j: nat ensures GivesIds(front, external, primary, secondary, h, j) <==>
      GivesIds(plan[..i], external, primary, secondary, h, j) || (j == i && last)
    {
      if j < i {
        assert front[j] == plan[..i][j];
      }
    }
    if last {
      assert GivesIds(front, external, primary, secondary, h, i) && after[h] == PairOf(primary, secondary, i);
    } else {
      assert h in after <==> h in before;
      assert h in after ==> after[h] == before[h];
    }
  }

  lemma EntriesBehind(ids: map<Hash, (nat, nat)>, plan: seq<Hash>, external: nat, primary: seq<nat>, secondary: seq<nat>, h: Hash, n: nat)
    requires n == Min(|plan|, external) && IdsFor(ids, plan[..n], external, primary, secondary, h)
    ensures IdsFor(ids, plan, external, primary, secondary, h)
  {
    forall j: nat ensures GivesIds(plan[..n], external, primary, secondary, h, j) <==> GivesIds(plan, external, primary, secondary, h, j) {}
  }

  /** A hash that occurs once has the ids at its own position, if the primary one is not zero, and otherwise none. */
  lemma OwnPosition(ids: map<Hash, (nat, nat)>, plan: seq<Hash>, external: nat, primary: seq<nat>, secondary: seq<nat>, i: nat)
    requires i < |plan| && i < external && IdsFor(ids, plan, external, primary, secondary, plan[i])
    requires forall j :: 0 <= j < |plan| && plan[j] == plan[i] ==> j == i
    ensures plan[i] in ids <==> PairOf(primary, secondary, i).0 != 0
    ensures plan[i] in ids ==> ids[plan[i]] == PairOf(primary, secondary, i)
  {
    assert GivesIds(plan, external, primary, secondary, plan[i], i) <==> PairOf(primary, secondary, i).0 != 0;
  }

  /**
   * Put together: for the first `m` blocks of one request, none computed yet, no entry of the plan is cut
   * off: each takes the ids of the physical block at its own position.
   */
  method PairWholePlan(hashes: seq<Hash>, total: nat, blockSize: nat, m: nat, primary: seq<nat>, secondary: seq<nat>)
    returns (ids: map<Hash, (nat, nat)>)
    requires blockSize > 0 && 0 < m <= |hashes| && TokensPerBlock(total, blockSize, |hashes|)[m - 1] > 0
    ensures forall h :: IdsFor(ids, hashes[..m], m, primary, secondary, h)
  {
    PlanNeedsItsLength(total, blockSize, |hashes|, m);
    var counts := TokensPerBlock(total, blockSize, |hashes|);
    ids := PairPlan(hashes[..m], Sum(counts[..m]), blockSize, primary, secondary);
  }
}
