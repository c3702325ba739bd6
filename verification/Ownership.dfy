/**
 * Who may free GPU blocks. A request whose `request_finished` is answered True hands its blocks to
 * tierkv until its id comes back from `get_finished`. In between it travels through store plans,
 * metadata objects, worker tasks and the finished set.
 */
module Ownership {
  import opened Common

  type ReqId = nat

  /** A worker task: gathering block after block, then storing what was gathered. */
  datatype Work =
    | Gathering(plan: seq<Hash>, next: nat, tensors: set<Hash>)
    | Storing(plan: seq<Hash>, records: seq<Hash>, next: nat)

  /** A call of `mark_stored` or `mark_failed` on behalf of a request. */
  datatype Mark = Mark(req: ReqId, hash: Hash, stored: bool)

  type StorePlans = map<ReqId, seq<Hash>>

  datatype State = State(
    cachesRegistered: bool,
    storePlans: StorePlans,
    metas: seq<StorePlans>,
    working: map<ReqId, Work>,
    finishedSending: set<ReqId>,
    reports: seq<set<ReqId>>,
    answeredTrue: map<ReqId, seq<Hash>>,
    marks: seq<Mark>)

  datatype Step =
    | RequestFinished(req: ReqId, pending: seq<Hash>)
    | BuildMeta
    | StartLoad(i: nat)
    | Gather(req: ReqId, ok: bool)
    | GiveUp(req: ReqId)
    | BeginStore(req: ReqId)
    | StoreOne(req: ReqId, ok: bool)
    | Free(req: ReqId)
    | GetFinished

  function Init(cachesRegistered: bool): State { State(cachesRegistered, map[], [], map[], {}, [], map[], []) }

  /** The records rebuilt for the store: the plan's blocks that were gathered. */
  function Records(plan: seq<Hash>, tensors: set<Hash>): seq<Hash> {
    if plan == [] then [] else
      Records(plan[..|plan| - 1], tensors) + if plan[|plan| - 1] in tensors then [plan[|plan| - 1]] else []
  }

  predicate Enabled(s: State, step: Step) {
    match step
    case RequestFinished(req, pending) => req !in s.answeredTrue && pending != []
    case BuildMeta => true
    case StartLoad(i) => i < |s.metas|
    case Gather(req, _) =>
      s.cachesRegistered && req in s.working && s.working[req].Gathering? && s.working[req].next < |s.working[req].plan|
    case GiveUp(req) =>
      !s.cachesRegistered && req in s.working && s.working[req].Gathering? && s.working[req].next == 0
    case BeginStore(req) =>
      s.cachesRegistered && req in s.working && s.working[req].Gathering? && s.working[req].next == |s.working[req].plan|
    case StoreOne(req, _) => req in s.working && s.working[req].Storing? && s.working[req].next < |s.working[req].records|
    case Free(req) => req in s.working && s.working[req].Storing? && s.working[req].next == |s.working[req].records|
    case GetFinished => s.finishedSending != {}
  }

  function FailAll(req: ReqId, plan: seq<Hash>): seq<Mark> {
    seq(|plan|, i requires 0 <= i < |plan| => Mark(req, plan[i], false))
  }

  function Apply(s: State, step: Step): State
    requires Enabled(s, step)
  {
    match step
    case RequestFinished(req, pending) =>
      s.(storePlans := s.storePlans[req := pending], answeredTrue := s.answeredTrue[req := pending])
    case BuildMeta => s.(metas := s.metas + [s.storePlans], storePlans := map[])
    case StartLoad(i) =>
      s.(metas := s.metas[..i] + s.metas[i + 1..],
         working := s.working + map r | r in s.metas[i] :: Gathering(s.metas[i][r], 0, {}))
    case Gather(req, ok) =>
      var w := s.working[req];
      var h := w.plan[w.next];
      s.(working := s.working[req := Gathering(w.plan, w.next + 1, if ok then w.tensors + {h} else w.tensors)],
         marks := if ok then s.marks else s.marks + [Mark(req, h, false)])
    case GiveUp(req) =>
      s.(working := s.working - {req}, marks := s.marks + FailAll(req, s.working[req].plan))
    case BeginStore(req) =>
      var w := s.working[req];
      s.(working := s.working[req := Storing(w.plan, Records(w.plan, w.tensors), 0)])
    case StoreOne(req, ok) =>
      var w := s.working[req];
      s.(working := s.working[req := w.(next := w.next + 1)], marks := s.marks + [Mark(req, w.records[w.next], ok)])
    case Free(req) => s.(working := s.working - {req}, finishedSending := s.finishedSending + {req})
    case GetFinished => s.(reports := s.reports + [s.finishedSending], finishedSending := {})
  }

  function Execute(cachesRegistered: bool, steps: seq<Step>): Option<State> {
    if steps == [] then Some(Init(cachesRegistered)) else
      match Execute(cachesRegistered, steps[..|steps| - 1])
      case None => None
      case Some(s) => if Enabled(s, steps[|steps| - 1]) then Some(Apply(s, steps[|steps| - 1])) else None
  }

  // ---- where a request is --------------------------------------------------------------------

  function One(b: bool): nat { if b then 1 else 0 }

  function InMetas(metas: seq<StorePlans>, r: ReqId): nat {
    if metas == [] then 0 else One(r in metas[0]) + InMetas(metas[1..], r)
  }

  function InReports(reports: seq<set<ReqId>>, r: ReqId): nat {
    if reports == [] then 0 else One(r in reports[0]) + InReports(reports[1..], r)
  }

  /** In how many places the request is, counting every metadata object and every report separately. */
  function Places(s: State, r: ReqId): nat {
    One(r in s.storePlans) + InMetas(s.metas, r) + One(r in s.working) + One(r in s.finishedSending) + InReports(s.reports, r)
  }

  lemma {:induction false} InMetasConcat(a: seq<StorePlans>, b: seq<StorePlans>, r: ReqId)
    ensures InMetas(a + b, r) == InMetas(a, r) + InMetas(b, r)
  {
    if a == [] {
      assert a + b == b;
    } else {
      assert (a + b)[1..] == a[1..] + b;
      InMetasConcat(a[1..], b, r);
    }
  }

  lemma InMetasRemove(metas: seq<StorePlans>, i: nat, r: ReqId)
    requires i < |metas|
    ensures InMetas(metas, r) == InMetas(metas[..i] + metas[i + 1..], r) + One(r in metas[i])
  {
    assert metas == metas[..i] + ([metas[i]] + metas[i + 1..]);
    InMetasConcat(metas[..i], [metas[i]] + metas[i + 1..], r);
    InMetasConcat([metas[i]], metas[i + 1..], r);
    InMetasConcat(metas[..i], metas[i + 1..], r);
    var single: seq<StorePlans> := [metas[i]];
    assert |single[1..]| == 0;
  }

  lemma {:induction false} InReportsAppend(reports: seq<set<ReqId>>, x: set<ReqId>, r: ReqId)
    ensures InReports(reports + [x], r) == InReports(reports, r) + One(r in x)
  {
    if reports == [] {
      var single: seq<set<ReqId>> := [x];
      assert reports + [x] == single && |single[1..]| == 0;
    } else {
      assert (reports + [x])[1..] == reports[1..] + [x];
      InReportsAppend(reports[1..], x, r);
    }
  }

  /** Each answered request is in exactly one place, every other one in none. */
  ghost predicate Placed(s: State, r: ReqId) { Places(s, r) == One(r in s.answeredTrue) }

  // ---- what has been marked ------------------------------------------------------------------

  ghost predicate Marked(marks: seq<Mark>, r: ReqId, h: Hash) {
    Mark(r, h, true) in marks || Mark(r, h, false) in marks
  }

  ghost predicate AllMarked(marks: seq<Mark>, r: ReqId, plan: seq<Hash>) {
    forall i :: 0 <= i < |plan| ==> Marked(marks, r, plan[i])
  }

  /** A task has marked, or still holds, every block it has passed. */
  ghost predicate WorkOk(marks: seq<Mark>, r: ReqId, w: Work) {
    match w
    case Gathering(plan, next, tensors) =>
      next <= |plan| && forall i :: 0 <= i < next ==> plan[i] in tensors || Marked(marks, r, plan[i])
    case Storing(plan, records, next) =>
      && next <= |records|
      && (forall i :: 0 <= i < |plan| ==> plan[i] in records || Marked(marks, r, plan[i]))
      && (forall j :: 0 <= j < next ==> Marked(marks, r, records[j]))
  }

  /** The plan a request was answered with is the plan it carries everywhere. */
  ghost predicate PlansOk(s: State) {
    && (forall r :: r in s.storePlans && r in s.answeredTrue ==> s.storePlans[r] == s.answeredTrue[r])
    && (forall i, r :: 0 <= i < |s.metas| && r in s.metas[i] && r in s.answeredTrue ==> s.metas[i][r] == s.answeredTrue[r])
    && (forall r :: r in s.working && r in s.answeredTrue ==> s.working[r].plan == s.answeredTrue[r])
  }

  ghost predicate MarksOk(s: State) {
    && (forall r :: r in s.working ==> WorkOk(s.marks, r, s.working[r]))
    && (forall r :: r in s.finishedSending && r in s.answeredTrue ==> AllMarked(s.marks, r, s.answeredTrue[r]))
    && (forall i, r :: 0 <= i < |s.reports| && r in s.reports[i] && r in s.answeredTrue ==>
        AllMarked(s.marks, r, s.answeredTrue[r]))
  }

  ghost predicate Inv(s: State) {
    (forall r :: Placed(s, r)) && PlansOk(s) && MarksOk(s)
  }

  // ---- every step keeps it -------------------------------------------------------------------

  lemma StepKeepsPlace(s: State, step: Step, r: ReqId)
    requires s.cachesRegistered && Enabled(s, step) && Placed(s, r)
    ensures Placed(Apply(s, step), r)
  {
    match step
    case BuildMeta =>
      InMetasConcat(s.metas, [s.storePlans], r);
      var single: seq<StorePlans> := [s.storePlans];
      assert |single[1..]| == 0;
    case StartLoad(i) => InMetasRemove(s.metas, i, r);
    case GetFinished => InReportsAppend(s.reports, s.finishedSending, r);
    case _ =>
  }

  lemma {:induction false} RecordsFacts(plan: seq<Hash>, tensors: set<Hash>)
    ensures forall i :: 0 <= i < |plan| && plan[i] in tensors ==> plan[i] in Records(plan, tensors)
    ensures forall h :: h in Records(plan, tensors) ==> h in plan && h in tensors
  {
    if plan != [] {
      RecordsFacts(plan[..|plan| - 1], tensors);
      forall i | 0 <= i < |plan| && plan[i] in tensors ensures plan[i] in Records(plan, tensors) {
        if i < |plan| - 1 {
          assert plan[..|plan| - 1][i] == plan[i];
        }
      }
    }
  }

  lemma MarksGrow(marks: seq<Mark>, more: seq<Mark>, r: ReqId, w: Work)
    requires WorkOk(marks, r, w)
    ensures WorkOk(marks + more, r, w)
  {
    forall h | Marked(marks, r, h) ensures Marked(marks + more, r, h) {}
  }

  /** What the task of one request does to its own bookkeeping. */
  lemma TaskKeepsWork(s: State, step: Step, req: ReqId)
    requires Enabled(s, step) && req in s.working && WorkOk(s.marks, req, s.working[req])
    requires step == Gather(req, true) || step == Gather(req, false) || step == BeginStore(req)
      || step == StoreOne(req, true) || step == StoreOne(req, false)
    ensures var s' := Apply(s, step); req in s'.working && WorkOk(s'.marks, req, s'.working[req])
  {
    var s' := Apply(s, step);
    var w := s.working[req];
    match step
    case Gather(_, ok) =>
      MarksGrow(s.marks, s'.marks[|s.marks|..], req, w);
      assert s'.marks == s.marks + s'.marks[|s.marks|..];
      if !ok {
        assert Mark(req, w.plan[w.next], false) in s'.marks;
      }
    case BeginStore(_) => RecordsFacts(w.plan, w.tensors);
    case StoreOne(_, ok) =>
      MarksGrow(s.marks, [Mark(req, w.records[w.next], ok)], req, w);
      assert Mark(req, w.records[w.next], ok) in s'.marks;
  }

  lemma StepGrowsMarks(s: State, step: Step)
    requires Enabled(s, step)
    ensures forall m :: m in s.marks ==> m in Apply(s, step).marks
  {
  }

  lemma GrownMarks(before: seq<Mark>, after: seq<Mark>, r: ReqId)
    requires forall m :: m in before ==> m in after
    ensures forall h :: Marked(before, r, h) ==> Marked(after, r, h)
    ensures forall w :: WorkOk(before, r, w) ==> WorkOk(after, r, w)
    ensures forall plan :: AllMarked(before, r, plan) ==> AllMarked(after, r, plan)
  {
    forall h | Marked(before, r, h) ensures Marked(after, r, h) {}
    forall plan | AllMarked(before, r, plan) ensures AllMarked(after, r, plan) {
      forall i | 0 <= i < |plan| ensures Marked(after, r, plan[i]) {
        assert Marked(before, r, plan[i]);
      }
    }
  }

  /** A request that is freed has had every block marked. */
  lemma FreedIsMarked(marks: seq<Mark>, r: ReqId, w: Work)
    requires WorkOk(marks, r, w) && w.Storing? && w.next == |w.records|
    ensures AllMarked(marks, r, w.plan)
  {
    forall i | 0 <= i < |w.plan| ensures Marked(marks, r, w.plan[i]) {
      if w.plan[i] in w.records {
        var j :| 0 <= j < |w.records| && w.records[j] == w.plan[i];
      }
    }
  }

  lemma {:induction false} SomewhereInMetas(metas: seq<StorePlans>, i: nat, r: ReqId)
    requires i < |metas| && r in metas[i]
    ensures InMetas(metas, r) > 0
  {
    if i > 0 {
      assert metas[1..][i - 1] == metas[i];
      SomewhereInMetas(metas[1..], i - 1, r);
    }
  }

  lemma {:induction false} SomewhereInReports(reports: seq<set<ReqId>>, i: nat, r: ReqId)
    requires i < |reports| && r in reports[i]
    ensures InReports(reports, r) > 0
  {
    if i > 0 {
      assert reports[1..][i - 1] == reports[i];
      SomewhereInReports(reports[1..], i - 1, r);
    }
  }

  /** Nobody has heard of a request that was not answered yet. */
  lemma UnansweredIsNowhere(s: State, r: ReqId)
    requires Placed(s, r) && r !in s.answeredTrue
    ensures r !in s.storePlans && r !in s.working && r !in s.finishedSending
    ensures forall i :: 0 <= i < |s.metas| ==> r !in s.metas[i]
    ensures forall i :: 0 <= i < |s.reports| ==> r !in s.reports[i]
  {
    forall i | 0 <= i < |s.metas| ensures r !in s.metas[i] {
      if r in s.metas[i] {
        SomewhereInMetas(s.metas, i, r);
      }
    }
    forall i | 0 <= i < |s.reports| ensures r !in s.reports[i] {
      if r in s.reports[i] {
        SomewhereInReports(s.reports, i, r);
      }
    }
  }

  lemma StepKeepsPlans(s: State, step: Step)
    requires PlansOk(s) && Enabled(s, step)
    requires step.RequestFinished? ==> Placed(s, step.req)
    ensures PlansOk(Apply(s, step))
  {
    if step.RequestFinished? {
      UnansweredIsNowhere(s, step.req);
    }
  }

  lemma StepKeepsMarks(s: State, step: Step)
    requires s.cachesRegistered && MarksOk(s) && PlansOk(s) && Enabled(s, step)
    requires forall r :: Placed(s, r)
    ensures MarksOk(Apply(s, step))
  {
    var s' := Apply(s, step);
    StepGrowsMarks(s, step);
    forall r | r in s'.working ensures WorkOk(s'.marks, r, s'.working[r]) {
      GrownMarks(s.marks, s'.marks, r);
      WorkOfOne(s, step, r);
    }
    forall r ensures ReportedOk(s', r) {
      GrownMarks(s.marks, s'.marks, r);
      FinishedOfOne(s, step, r);
    }
    assert forall r :: ReportedOk(s', r);
    hide AllMarked, WorkOk;
    forall i, r | 0 <= i < |s'.reports| && r in s'.reports[i] && r in s'.answeredTrue
      ensures AllMarked(s'.marks, r, s'.answeredTrue[r])
    {
      assert ReportedOk(s', r);
    }
    forall r | r in s'.finishedSending && r in s'.answeredTrue
      ensures AllMarked(s'.marks, r, s'.answeredTrue[r])
    {
      assert ReportedOk(s', r);
    }
  }

  ghost predicate ReportedOk(s: State, r: ReqId) {
    r in s.answeredTrue && (r in s.finishedSending || exists i :: 0 <= i < |s.reports| && r in s.reports[i]) ==>
      AllMarked(s.marks, r, s.answeredTrue[r])
  }

  lemma WorkOfOne(s: State, step: Step, r: ReqId)
    requires s.cachesRegistered && MarksOk(s) && Enabled(s, step) && r in Apply(s, step).working
    requires forall w :: WorkOk(s.marks, r, w) ==> WorkOk(Apply(s, step).marks, r, w)
    ensures WorkOk(Apply(s, step).marks, r, Apply(s, step).working[r])
  {
    match step
    case Gather(req, ok) => if r == req { TaskKeepsWork(s, step, r); }
    case BeginStore(req) => if r == req { TaskKeepsWork(s, step, r); }
    case StoreOne(req, ok) => if r == req { TaskKeepsWork(s, step, r); }
    case _ =>
  }

  lemma FinishedOfOne(s: State, step: Step, r: ReqId)
    requires s.cachesRegistered && MarksOk(s) && PlansOk(s) && Enabled(s, step) && Placed(s, r)
    requires forall plan :: AllMarked(s.marks, r, plan) ==> AllMarked(Apply(s, step).marks, r, plan)
    ensures ReportedOk(Apply(s, step), r)
  {
    hide AllMarked, WorkOk;
    var s' := Apply(s, step);
    match step
    case RequestFinished(req, pending) =>
      if r == req {
        UnansweredIsNowhere(s, r);
      }
    case Free(req) =>
      if r == req {
        FreedIsMarked(s.marks, r, s.working[r]);
      }
    case _ =>
  }

  lemma {:induction false} RunsKeepInv(steps: seq<Step>)
    ensures match Execute(true, steps) case None => true case Some(s) => Inv(s) && s.cachesRegistered
  {
    hide Inv;
    if steps == [] {
      InitInv();
    } else {
      var n := |steps| - 1;
      RunsKeepInv(steps[..n]);
      match Execute(true, steps[..n])
      case None =>
      case Some(s) =>
        if Enabled(s, steps[n]) {
          StepKeepsInv(s, steps[n]);
        }
    }
  }

  lemma InitInv()
    ensures Inv(Init(true))
  {
  }

  lemma StepKeepsInv(s: State, step: Step)
    requires Inv(s) && s.cachesRegistered && Enabled(s, step)
    ensures Inv(Apply(s, step)) && Apply(s, step).cachesRegistered
  {
    hide Placed, PlansOk, MarksOk;
    forall r ensures Placed(Apply(s, step), r) {
      StepKeepsPlace(s, step, r);
    }
    StepKeepsPlans(s, step);
    StepKeepsMarks(s, step);
  }

  // ---- what vLLM relies on -------------------------------------------------------------------

  /** An answered request is, at every step, in exactly one place. */
  lemma ExactlyOnePlace(steps: seq<Step>, s: State, r: ReqId)
    requires Execute(true, steps) == Some(s)
    ensures Places(s, r) == if r in s.answeredTrue then 1 else 0
  {
    RunsKeepInv(steps);
    assert Placed(s, r);
  }

  lemma {:induction false} TwoReportsCountTwice(reports: seq<set<ReqId>>, i: nat, j: nat, r: ReqId)
    requires i < j < |reports| && r in reports[i] && r in reports[j]
    ensures InReports(reports, r) >= 2
  {
    if i == 0 {
      assert reports[1..][j - 1] == reports[j];
      SomewhereInReports(reports[1..], j - 1, r);
    } else {
      assert reports[1..][i - 1] == reports[i] && reports[1..][j - 1] == reports[j];
      TwoReportsCountTwice(reports[1..], i - 1, j - 1, r);
    }
  }

  /**
   * A request is reported at most once, only if it was answered True, and only after each of its blocks
   * has been marked stored or failed, whatever gathers and stores failed.
   */
  lemma ReportedOnceAndOnlyWhenMarked(steps: seq<Step>, s: State, r: ReqId, i: nat)
    requires Execute(true, steps) == Some(s) && i < |s.reports| && r in s.reports[i]
    ensures forall j :: 0 <= j < |s.reports| && j != i ==> r !in s.reports[j]
    ensures r in s.answeredTrue && AllMarked(s.marks, r, s.answeredTrue[r])
    ensures r !in s.storePlans && r !in s.working && r !in s.finishedSending
  {
    RunsKeepInv(steps);
    assert Placed(s, r);
    SomewhereInReports(s.reports, i, r);
    forall j | 0 <= j < |s.reports| && j != i ensures r !in s.reports[j] {
      if r in s.reports[j] {
        if i < j {
          TwoReportsCountTwice(s.reports, i, j, r);
        } else {
          TwoReportsCountTwice(s.reports, j, i, r);
        }
      }
    }
  }

  ghost predicate NothingFinished(s: State) {
    && !s.cachesRegistered && s.finishedSending == {} && s.reports == []
    && forall r :: r in s.working ==> s.working[r].Gathering?
  }

  /** Without registered caches a task ends before its free callback: no request is ever reported. */
  lemma {:induction false} NeverReportedWithoutCaches(steps: seq<Step>)
    ensures match Execute(false, steps)
      case None => true
      case Some(s) => NothingFinished(s)
  {
    if steps != [] {
      NeverReportedWithoutCaches(steps[..|steps| - 1]);
    }
  }

  // ---- progress ------------------------------------------------------------------------------

  ghost predicate InSomeMeta(s: State, r: ReqId) { exists i :: 0 <= i < |s.metas| && r in s.metas[i] }

  /** The step that brings request `r` on; `ok` says how its next gather or store turns out. */
  ghost function NextFor(s: State, r: ReqId, ok: bool): Step {
    if r in s.storePlans then BuildMeta
    else if InSomeMeta(s, r) then (var i :| 0 <= i < |s.metas| && r in s.metas[i]; StartLoad(i))
    else if r in s.working then
      match s.working[r]
      case Gathering(plan, next, _) => if next < |plan| then Gather(r, ok) else BeginStore(r)
      case Storing(_, records, next) => if next < |records| then StoreOne(r, ok) else Free(r)
    else GetFinished
  }

  /** How many of those steps are still ahead, at most. */
  ghost function Distance(s: State, r: ReqId): nat
    requires r in s.answeredTrue
  {
    var n := |s.answeredTrue[r]|;
    if r in s.storePlans then 5 + 2 * n
    else if InSomeMeta(s, r) then 4 + 2 * n
    else if r in s.working then
      match s.working[r]
      case Gathering(plan, next, _) => 3 + |plan| + Max(0, |plan| - next)
      case Storing(_, records, next) => 2 + Max(0, |records| - next)
    else if r in s.finishedSending then 1
    else 0
  }

  lemma {:induction false} RecordsLength(plan: seq<Hash>, tensors: set<Hash>)
    ensures |Records(plan, tensors)| <= |plan|
  {
    if plan != [] {
      RecordsLength(plan[..|plan| - 1], tensors);
    }
  }

  lemma {:induction false} NowhereInMetas(metas: seq<StorePlans>, r: ReqId)
    requires InMetas(metas, r) == 0
    ensures forall i :: 0 <= i < |metas| ==> r !in metas[i]
  {
    forall i | 0 <= i < |metas| ensures r !in metas[i] {
      if r in metas[i] {
        SomewhereInMetas(metas, i, r);
      }
    }
  }

  lemma {:induction false} FoundInMetas(metas: seq<StorePlans>, r: ReqId)
    requires InMetas(metas, r) > 0
    ensures exists i :: 0 <= i < |metas| && r in metas[i]
  {
    if r !in metas[0] {
      FoundInMetas(metas[1..], r);
      var i :| 0 <= i < |metas[1..]| && r in metas[1..][i];
      assert r in metas[i + 1];
    }
  }

  /** While in a meta, or having just left it, a request is in no other meta. */
  lemma OnlyInOneMeta(s: State, r: ReqId, i: nat)
    requires s.cachesRegistered && Placed(s, r) && r in s.answeredTrue && i < |s.metas| && r in s.metas[i]
    ensures r !in s.storePlans && r !in s.working && r !in s.finishedSending
    ensures !InSomeMeta(Apply(s, StartLoad(i)), r)
  {
    SomewhereInMetas(s.metas, i, r);
    InMetasRemove(s.metas, i, r);
    NowhereInMetas(s.metas[..i] + s.metas[i + 1..], r);
  }

  /**
   * An answered request that has not been reported can always be brought one step closer, however its
   * gathers and stores turn out: its blocks cannot stay with tierkv for want of a possible step.
   */
  lemma AlwaysOneStepCloser(steps: seq<Step>, s: State, r: ReqId, ok: bool)
    requires Execute(true, steps) == Some(s)
    requires r in s.answeredTrue && forall i :: 0 <= i < |s.reports| ==> r !in s.reports[i]
    ensures Enabled(s, NextFor(s, r, ok)) && r in Apply(s, NextFor(s, r, ok)).answeredTrue
    ensures Distance(Apply(s, NextFor(s, r, ok)), r) < Distance(s, r)
  {
    RunsKeepInv(steps);
    assert Placed(s, r);
    NotReported(s.reports, r);
    if r in s.storePlans {
      NowhereInMetas(s.metas, r);
      assert s.storePlans[r] == s.answeredTrue[r];
      assert Apply(s, BuildMeta).metas[|s.metas|] == s.storePlans;
    } else if InSomeMeta(s, r) {
      var i: nat :| NextFor(s, r, ok) == StartLoad(i) && 0 <= i < |s.metas| && r in s.metas[i];
      OnlyInOneMeta(s, r, i);
    } else if r in s.working {
      WorkingCloser(s, r, ok);
    } else {
      assert InMetas(s.metas, r) == 0 by {
        if InMetas(s.metas, r) > 0 {
          FoundInMetas(s.metas, r);
        }
      }
    }
  }

  lemma {:induction false} NotReported(reports: seq<set<ReqId>>, r: ReqId)
    requires forall i :: 0 <= i < |reports| ==> r !in reports[i]
    ensures InReports(reports, r) == 0
  {
    if reports != [] {
      assert forall i :: 0 <= i < |reports[1..]| ==> reports[1..][i] == reports[i + 1];
      NotReported(reports[1..], r);
    }
  }

  lemma WorkingCloser(s: State, r: ReqId, ok: bool)
    requires s.cachesRegistered && r in s.working && r in s.answeredTrue && WorkOk(s.marks, r, s.working[r])
    requires r !in s.storePlans && !InSomeMeta(s, r)
    ensures Enabled(s, NextFor(s, r, ok))
    ensures r in Apply(s, NextFor(s, r, ok)).answeredTrue
    ensures Distance(Apply(s, NextFor(s, r, ok)), r) < Distance(s, r)
  {
    var w := s.working[r];
    if w.Gathering? {
      RecordsLength(w.plan, w.tensors);
    }
  }
}
