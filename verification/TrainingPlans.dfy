/** Training plans: the accumulator loops that check them, and what they guarantee across all plans. */
module TrainingPlans {
  import opened Prelude

  /** A raw optional timestamp: left empty, unreadable, or an instant. */
  datatype Stamp = Blank | Malformed | At(instant: int)

  datatype Item = Item(
    id: string, kind: string, targetId: string, title: string, detail: string, reason: string,
    minutes: int, baseline: int, status: string, startedAt: Stamp, completedAt: Stamp)

  /** One plan. The date is as parsed, None when it is not a real date. */
  datatype Plan = Plan(
    id: string, date: Option<int>, createdAt: Stamp, updatedAt: Stamp, minutesBudget: int, intensity: string,
    status: string, readiness: int, dueQuestions: int, weakBranch: string, items: seq<Item>, completedAt: Stamp)

  const MINUTES := { 30, 60, 90, 120 }

  const INTENSITIES := { "focused", "balanced", "pressure" }

  const TYPES := {
    "repair", "review", "module", "checkpoint", "guide", "drill", "adaptive", "incident", "triage", "coach", "shift" }

  const ITEM_STATUSES := { "pending", "active", "complete", "skipped" }

  const PLAN_STATUSES := { "active", "complete", "archived" }

  // ---------------------------------------------------------------- what is accepted

  predicate Within(s: Stamp, from: int, to: int) {
    s.Blank? || (s.At? && from <= s.instant <= to)
  }

  predicate ItemFields(i: Item) {
    && 1 <= |i.id| <= 100 && i.kind in TYPES && 1 <= |i.targetId| <= 100
    && 1 <= |i.title| <= 100 && 1 <= |i.detail| <= 180 && 1 <= |i.reason| <= 220
    && 5 <= i.minutes <= 60 && 0 <= i.baseline <= 1_000_000 && i.status in ITEM_STATUSES
  }

  predicate ItemTimes(i: Item, created: int, updated: int) {
    && Within(i.startedAt, created, updated) && Within(i.completedAt, created, updated)
    && (i.startedAt.At? && i.completedAt.At? ==> i.startedAt.instant <= i.completedAt.instant)
    && (i.status == "active" ==> i.startedAt.At?)
    && (i.status == "complete" || i.status == "skipped" ==> i.completedAt.At?)
  }

  predicate ItemOk(i: Item, created: int, updated: int) {
    ItemFields(i) && ItemTimes(i, created, updated)
  }

  function TotalMinutes(items: seq<Item>): int {
    if items == [] then 0 else TotalMinutes(items[..|items| - 1]) + items[|items| - 1].minutes
  }

  predicate PlanFields(p: Plan) {
    && 1 <= |p.id| <= 100 && p.date.Some?
    && p.createdAt.At? && p.updatedAt.At? && p.createdAt.instant <= p.updatedAt.instant
    && p.minutesBudget in MINUTES && p.intensity in INTENSITIES && p.status in PLAN_STATUSES
    && 0 <= p.readiness <= 100 && 0 <= p.dueQuestions <= 1000 && |p.weakBranch| <= 40
    && 1 <= |p.items| <= 8
  }

  ghost predicate DistinctItems(items: seq<Item>) {
    forall i, j :: 0 <= i < j < |items| ==> items[i].id != items[j].id
  }

  ghost predicate OneActiveItem(items: seq<Item>) {
    forall i, j :: 0 <= i < j < |items| ==> items[i].status != "active" || items[j].status != "active"
  }

  predicate AllComplete(items: seq<Item>) {
    forall i :: 0 <= i < |items| ==> items[i].status == "complete"
  }

  predicate NoneActive(items: seq<Item>) {
    forall i :: 0 <= i < |items| ==> items[i].status != "active"
  }

  predicate AllDoneBy(items: seq<Item>, instant: int) {
    forall i :: 0 <= i < |items| && items[i].completedAt.At? ==> items[i].completedAt.instant <= instant
  }

  /** A complete plan closes after all its blocks; no other plan carries a closing time. */
  predicate Closed(p: Plan)
    requires PlanFields(p)
  {
    if p.status == "complete" then
      && p.completedAt.At? && p.createdAt.instant <= p.completedAt.instant <= p.updatedAt.instant
      && AllDoneBy(p.items, p.completedAt.instant)
    else
      p.completedAt.Blank?
  }

  ghost predicate PlanOk(p: Plan) {
    && PlanFields(p)
    && (forall i :: 0 <= i < |p.items| ==> ItemOk(p.items[i], p.createdAt.instant, p.updatedAt.instant))
    && DistinctItems(p.items) && TotalMinutes(p.items) <= p.minutesBudget && OneActiveItem(p.items)
    && (p.status != "active" ==> NoneActive(p.items))
    && (p.status == "complete" ==> AllComplete(p.items))
    && (p.status == "active" ==> !AllComplete(p.items))
    && Closed(p)
  }

  ghost predicate DistinctPlans(plans: seq<Plan>) {
    forall i, j :: 0 <= i < j < |plans| ==> plans[i].id != plans[j].id
  }

  ghost predicate OneActivePlan(plans: seq<Plan>) {
    forall i, j :: 0 <= i < j < |plans| ==> plans[i].status != "active" || plans[j].status != "active"
  }

  /** The named id is the active plan's, or empty when no plan is active. */
  ghost predicate NamesTheActive(plans: seq<Plan>, activeId: string) {
    && (forall i :: 0 <= i < |plans| && plans[i].status == "active" ==> plans[i].id == activeId)
    && (activeId == "" || exists i :: 0 <= i < |plans| && plans[i].status == "active" && plans[i].id == activeId)
  }

  ghost predicate ValidPlans(plans: seq<Plan>, activeId: string) {
    && |plans| <= 30
    && (forall i :: 0 <= i < |plans| ==> PlanOk(plans[i]))
    && DistinctPlans(plans) && OneActivePlan(plans) && NamesTheActive(plans, activeId)
  }

  // ---------------------------------------------------------------- the accumulators

  function ActiveCount(items: seq<Item>): (n: nat)
    ensures n <= |items|
  {
    if items == [] then 0
    else ActiveCount(items[..|items| - 1]) + if items[|items| - 1].status == "active" then 1 else 0
  }

  lemma {:induction false} CountersMeanWhatTheySay(items: seq<Item>)
    ensures ActiveCount(items) <= 1 <==> OneActiveItem(items)
    ensures ActiveCount(items) == 0 <==> NoneActive(items)
  {
    if items != [] {
      var n := |items| - 1;
      CountersMeanWhatTheySay(items[..n]);
      assert items == items[..n] + [items[n]];
      hide ActiveCount;
      assert NoneActive(items) <==> NoneActive(items[..n]) && items[n].status != "active";
      assert OneActiveItem(items) <==> OneActiveItem(items[..n]) && (items[n].status != "active" || NoneActive(items[..n])) by {
        if OneActiveItem(items) && items[n].status == "active" {
          forall i | 0 <= i < n ensures items[..n][i].status != "active" { assert items[i] == items[..n][i]; }
        }
      }
    }
  }

  /** The latest completion seen, if any block has completed. */
  ghost predicate IsLatest(items: seq<Item>, latest: Option<int>) {
    && (latest.None? ==> forall i :: 0 <= i < |items| ==> !items[i].completedAt.At?)
    && (latest.Some? ==>
         AllDoneBy(items, latest.value) && exists i :: 0 <= i < |items| && items[i].completedAt == At(latest.value))
  }

  /** The loop's accumulators over the blocks seen so far. */
  datatype Tally = Tally(ids: set<string>, active: nat, minutes: int, allComplete: bool, latest: Option<int>)

  function Ids(items: seq<Item>): set<string> {
    if items == [] then {} else Ids(items[..|items| - 1]) + {items[|items| - 1].id}
  }

  ghost predicate Tallies(t: Tally, items: seq<Item>) {
    && t.ids == Ids(items) && t.active == ActiveCount(items) && t.minutes == TotalMinutes(items)
    && t.allComplete == AllComplete(items) && IsLatest(items, t.latest) && DistinctItems(items)
  }

  lemma {:induction false} IdsAreExact(items: seq<Item>)
    ensures forall id :: id in Ids(items) <==> exists i :: 0 <= i < |items| && items[i].id == id
  {
    if items != [] {
      var n := |items| - 1;
      IdsAreExact(items[..n]);
      assert items == items[..n] + [items[n]];
      forall i | 0 <= i < |items| ensures items[i].id in Ids(items) {
        if i < n { assert items[..n][i].id in Ids(items[..n]); }
      }
      forall id | id in Ids(items[..n]) ensures exists i :: 0 <= i < |items| && items[i].id == id {
        var i :| 0 <= i < n && items[..n][i].id == id;
        assert items[i].id == id;
      }
    }
  }

  lemma ItemRepeats(items: seq<Item>, x: Item)
    requires DistinctItems(items)
    ensures DistinctItems(items + [x]) <==> x.id !in Ids(items)
  {
    IdsAreExact(items);
    var all := items + [x];
    if x.id in Ids(items) {
      var i :| 0 <= i < |items| && items[i].id == x.id;
      assert all[i].id == all[|items|].id;
    }
  }

  function Later(latest: Option<int>, s: Stamp): Option<int> {
    if s.At? && (latest.None? || s.instant > latest.value) then Some(s.instant) else latest
  }

  lemma LatestStep(items: seq<Item>, x: Item, latest: Option<int>)
    requires IsLatest(items, latest)
    ensures IsLatest(items + [x], Later(latest, x.completedAt))
  {
    var all, next := items + [x], Later(latest, x.completedAt);
    assert all[|items|] == x;
    if next.Some? && next == latest {
      var i :| 0 <= i < |items| && items[i].completedAt == At(latest.value);
      assert all[i].completedAt == At(next.value);
    }
    forall i | 0 <= i < |all| && all[i].completedAt.At? ensures next.Some? && all[i].completedAt.instant <= next.value {
      if i < |items| { assert items[i].completedAt.At?; }
    }
  }

  lemma CompleteStep(items: seq<Item>, x: Item)
    ensures AllComplete(items + [x]) <==> AllComplete(items) && x.status == "complete"
  {
    var all := items + [x];
    if AllComplete(all) {
      forall i | 0 <= i < |items| ensures items[i].status == "complete" { assert all[i] == items[i]; }
      assert all[|items|] == x;
    }
  }

  lemma TallyStep(t: Tally, items: seq<Item>, x: Item)
    requires Tallies(t, items) && x.id !in t.ids
    ensures Tallies(
              Tally(t.ids + {x.id}, t.active + (if x.status == "active" then 1 else 0), t.minutes + x.minutes,
                    t.allComplete && x.status == "complete", Later(t.latest, x.completedAt)),
              items + [x])
  {
    assert (items + [x])[..|items|] == items;
    ItemRepeats(items, x);
    LatestStep(items, x, t.latest);
    CompleteStep(items, x);
    hide DistinctItems, AllComplete, IsLatest, Later;
  }

  lemma DistinctItemsPrefix(items: seq<Item>, n: nat)
    requires n <= |items| && !DistinctItems(items[..n])
    ensures !DistinctItems(items)
  {
    var i, j :| 0 <= i < j < n && items[..n][i].id == items[..n][j].id;
    assert items[i].id == items[j].id;
  }

  /** One block's checks, in the source's order. */
  method ValidateItem(i: Item, created: int, updated: int) returns (ok: bool)
    ensures ok <==> ItemOk(i, created, updated)
  {
    if !(1 <= |i.id| <= 100) || i.kind !in TYPES || !(1 <= |i.targetId| <= 100) { return false; }
    if !(1 <= |i.title| <= 100) || !(1 <= |i.detail| <= 180) || !(1 <= |i.reason| <= 220) { return false; }
    if !(5 <= i.minutes <= 60) || !(0 <= i.baseline <= 1_000_000) || i.status !in ITEM_STATUSES { return false; }
    var started := if i.startedAt.At? then Some(i.startedAt.instant) else None;
    var completed := if i.completedAt.At? then Some(i.completedAt.instant) else None;
    if !i.startedAt.Blank? && (started.None? || started.value < created) { return false; }
    if !i.completedAt.Blank? &&
       (completed.None? || completed.value < created || (started.Some? && completed.value < started.value)) {
      return false;
    }
    if started.Some? && started.value > updated { return false; }
    if completed.Some? && completed.value > updated { return false; }
    if i.status == "active" && started.None? { return false; }
    if (i.status == "complete" || i.status == "skipped") && completed.None? { return false; }
    return true;
  }

  /** The loop over a plan's blocks. */
  method TallyItems(items: seq<Item>, created: int, updated: int) returns (ok: bool, tally: Tally)
    ensures ok <==> (forall i :: 0 <= i < |items| ==> ItemOk(items[i], created, updated)) && DistinctItems(items)
    ensures ok ==> Tallies(tally, items)
  {
    hide ItemOk, Ids, ActiveCount, TotalMinutes, AllComplete, IsLatest, Later, DistinctItems, Tallies;
    tally := Tally({}, 0, 0, true, None);
    assert Tallies(tally, items[..0]) by { NothingTallied(items[..0]); }
    for n := 0 to |items|
      invariant forall i :: 0 <= i < n ==> ItemOk(items[i], created, updated)
      invariant Tallies(tally, items[..n])
    {
      var item := items[n];
      assert items[..n + 1] == items[..n] + [item];
      if item.id in tally.ids {
        RepeatedItem(tally, items, n);
        return false, tally;
      }
      TallyStep(tally, items[..n], item);
      var fine := ValidateItem(item, created, updated);
      if !fine { return false, tally; }
      var active := if item.status == "active" then tally.active + 1 else tally.active;
      tally := Tally(tally.ids + {item.id}, active, tally.minutes + item.minutes,
                     tally.allComplete && item.status == "complete", Later(tally.latest, item.completedAt));
    }
    assert items[..|items|] == items;
    TalliedAreDistinct(tally, items);
    ok := true;
  }

  lemma NothingTallied(items: seq<Item>)
    requires items == []
    ensures Tallies(Tally({}, 0, 0, true, None), items)
  {
  }

  lemma TalliedAreDistinct(t: Tally, items: seq<Item>)
    requires Tallies(t, items)
    ensures DistinctItems(items)
  {
  }

  lemma RepeatedItem(t: Tally, items: seq<Item>, n: nat)
    requires n < |items| && Tallies(t, items[..n]) && items[n].id in t.ids
    ensures !DistinctItems(items)
  {
    ItemRepeats(items[..n], items[n]);
    assert items[..n + 1] == items[..n] + [items[n]];
    DistinctItemsPrefix(items, n + 1);
  }

  /** What the checks after the loop decide from the accumulators. */
  lemma TallyDecides(p: Plan, t: Tally)
    requires PlanFields(p) && Tallies(t, p.items)
    ensures t.active <= 1 <==> OneActiveItem(p.items)
    ensures t.active == 0 <==> NoneActive(p.items)
    ensures p.completedAt.At? ==>
              (AllDoneBy(p.items, p.completedAt.instant) <==> t.latest.None? || t.latest.value <= p.completedAt.instant)
  {
    CountersMeanWhatTheySay(p.items);
    hide ActiveCount, Ids, TotalMinutes, OneActiveItem, NoneActive, AllComplete, DistinctItems;
  }

  /** A plan's own fields, before its blocks. */
  method CheckFields(p: Plan) returns (ok: bool)
    ensures ok <==> PlanFields(p)
  {
    if p.id == "" || |p.id| > 100 || p.date.None? { return false; }
    if !p.createdAt.At? || !p.updatedAt.At? || p.updatedAt.instant < p.createdAt.instant { return false; }
    if p.minutesBudget !in {30, 60, 90, 120} || p.intensity !in {"focused", "balanced", "pressure"} { return false; }
    if p.status !in {"active", "complete", "archived"} { return false; }
    if p.readiness < 0 || p.readiness > 100 || p.dueQuestions < 0 || p.dueQuestions > 1000 { return false; }
    return |p.weakBranch| <= 40 && p.items != [] && |p.items| <= 8;
  }

  method ValidatePlan(p: Plan) returns (ok: bool)
    ensures ok <==> PlanOk(p)
  {
    ok := CheckFields(p);
    if !ok { return; }
    hide ItemOk, OneActiveItem, NoneActive, AllComplete, AllDoneBy, DistinctItems, IsLatest, ActiveCount, TotalMinutes, Ids;
    var fine, tally := TallyItems(p.items, p.createdAt.instant, p.updatedAt.instant);
    if !fine { return false; }
    TallyDecides(p, tally);
    if tally.minutes > p.minutesBudget { return false; }
    if tally.active > 1 { return false; }
    if p.status != "active" && tally.active > 0 { return false; }
    if p.status == "complete" && !tally.allComplete { return false; }
    if p.status == "active" && tally.allComplete { return false; }
    var completed := if p.completedAt.At? then Some(p.completedAt.instant) else None;
    if p.status == "complete" {
      if completed.None? || completed.value < p.createdAt.instant || completed.value > p.updatedAt.instant
         || (tally.latest.Some? && completed.value < tally.latest.value) {
        return false;
      }
    } else if !p.completedAt.Blank? {
      return false;
    }
    return true;
  }

  // ---------------------------------------------------------------- all plans

  /** The ids of the active plans, in order: the outer loop's list. */
  function ActiveIds(plans: seq<Plan>): seq<string> {
    if plans == [] then []
    else ActiveIds(plans[..|plans| - 1]) + if plans[|plans| - 1].status == "active" then [plans[|plans| - 1].id] else []
  }

  function PlanIds(plans: seq<Plan>): set<string> {
    if plans == [] then {} else PlanIds(plans[..|plans| - 1]) + {plans[|plans| - 1].id}
  }

  lemma {:induction false} PlanIdsAreExact(plans: seq<Plan>)
    ensures forall id :: id in PlanIds(plans) <==> exists i :: 0 <= i < |plans| && plans[i].id == id
  {
    if plans != [] {
      var n := |plans| - 1;
      PlanIdsAreExact(plans[..n]);
      forall i | 0 <= i < |plans| ensures plans[i].id in PlanIds(plans) {
        if i < n { assert plans[..n][i].id in PlanIds(plans[..n]); }
      }
      forall id | id in PlanIds(plans[..n]) ensures exists i :: 0 <= i < |plans| && plans[i].id == id {
        var i :| 0 <= i < n && plans[..n][i].id == id;
        assert plans[i].id == id;
      }
    }
  }

  lemma PlanRepeats(plans: seq<Plan>, n: nat)
    requires n < |plans| && DistinctPlans(plans[..n])
    ensures DistinctPlans(plans[..n + 1]) <==> plans[n].id !in PlanIds(plans[..n])
    ensures plans[n].id in PlanIds(plans[..n]) ==> !DistinctPlans(plans)
    ensures PlanIds(plans[..n + 1]) == PlanIds(plans[..n]) + {plans[n].id}
    ensures ActiveIds(plans[..n + 1]) == ActiveIds(plans[..n]) + if plans[n].status == "active" then [plans[n].id] else []
  {
    var before, after := plans[..n], plans[..n + 1];
    PlanIdsAreExact(before);
    assert after[..n] == before;
    if plans[n].id in PlanIds(before) {
      var i :| 0 <= i < n && before[i].id == plans[n].id;
      assert after[i].id == after[n].id;
      assert plans[i].id == plans[n].id;
    } else {
      forall i, j | 0 <= i < j < |after| ensures after[i].id != after[j].id {
        assert before[i] == after[i];
        if j < n { assert before[j] == after[j]; }
      }
    }
  }

  ghost predicate HasActive(plans: seq<Plan>, id: string) {
    exists i :: 0 <= i < |plans| && plans[i].status == "active" && plans[i].id == id
  }

  ghost predicate Idle(plans: seq<Plan>) {
    forall i :: 0 <= i < |plans| ==> plans[i].status != "active"
  }

  /** The list holds the active plans' ids: none, one, or several as the plans do. */
  lemma {:induction false} ActiveIdsAreExact(plans: seq<Plan>)
    ensures forall id :: id in ActiveIds(plans) <==> HasActive(plans, id)
    ensures |ActiveIds(plans)| <= 1 <==> OneActivePlan(plans)
    ensures ActiveIds(plans) == [] <==> Idle(plans)
  {
    if plans != [] {
      var n := |plans| - 1;
      var init, x := plans[..n], plans[n];
      assert plans == init + [x];
      ActiveIdsAreExact(init);
      ActiveStep(init, x);
      hide HasActive, Idle, OneActivePlan;
      forall id ensures id in ActiveIds(plans) <==> HasActive(plans, id) { HasActiveStep(init, x, id); }
    }
  }

  lemma HasActiveStep(init: seq<Plan>, x: Plan, id: string)
    ensures HasActive(init + [x], id) <==> HasActive(init, id) || (x.status == "active" && x.id == id)
  {
    var plans := init + [x];
    assert plans[|init|] == x;
    if HasActive(init, id) {
      var i :| 0 <= i < |init| && init[i].status == "active" && init[i].id == id;
      assert plans[i].id == id;
    }
  }

  lemma ActiveStep(init: seq<Plan>, x: Plan)
    ensures Idle(init + [x]) <==> Idle(init) && x.status != "active"
    ensures OneActivePlan(init + [x]) <==> OneActivePlan(init) && (x.status != "active" || Idle(init))
  {
    var plans := init + [x];
    assert plans[|init|] == x;
    if Idle(plans) || OneActivePlan(plans) {
      forall i | 0 <= i < |init| ensures init[i] == plans[i] {
      }
    }
    if !OneActivePlan(init) {
      var i, j :| 0 <= i < j < |init| && init[i].status == "active" && init[j].status == "active";
      assert plans[i].status == "active" && plans[j].status == "active";
    }
  }

  lemma ActiveNameDecides(plans: seq<Plan>, activeId: string)
    requires OneActivePlan(plans) && forall i :: 0 <= i < |plans| ==> |plans[i].id| >= 1
    ensures NamesTheActive(plans, activeId) <==> activeId == if ActiveIds(plans) == [] then "" else ActiveIds(plans)[0]
  {
    ActiveIdsAreExact(plans);
    hide ActiveIds;
    var active := ActiveIds(plans);
    if active != [] {
      assert active[0] in active;
      var i :| 0 <= i < |plans| && plans[i].status == "active" && plans[i].id == active[0];
      assert forall id :: id in active ==> id == active[0];
    }
  }

  /** The loop over plans: each checked, its id entered, and the active ones listed. */
  method CollectPlans(plans: seq<Plan>) returns (ok: bool, activeIds: seq<string>)
    ensures ok <==> (forall i :: 0 <= i < |plans| ==> PlanOk(plans[i])) && DistinctPlans(plans)
    ensures ok ==> activeIds == ActiveIds(plans)
  {
    hide PlanOk, PlanIds, ActiveIds, DistinctPlans;
    ok, activeIds := false, [];
    var planIds: set<string> := {};
    NoPlans(plans[..0]);
    for n := 0 to |plans|
      invariant planIds == PlanIds(plans[..n]) && activeIds == ActiveIds(plans[..n])
      invariant DistinctPlans(plans[..n])
      invariant forall i :: 0 <= i < n ==> PlanOk(plans[i])
    {
      var plan := plans[n];
      PlanRepeats(plans, n);
      if plan.id in planIds { return; }
      planIds := planIds + {plan.id};
      if plan.status == "active" {
        activeIds := activeIds + [plan.id];
      } else {
        assert activeIds + [] == activeIds;
      }
      var fine := ValidatePlan(plan);
      if !fine { return; }
    }
    assert plans[..|plans|] == plans;
    ok := true;
  }

  method ValidateTrainingPlans(plans: seq<Plan>, activeId: string) returns (ok: bool)
    ensures ok <==> ValidPlans(plans, activeId)
  {
    if |plans| > 30 { return false; }
    var fine, activeIds := CollectPlans(plans);
    if !fine { return false; }
    forall i | 0 <= i < |plans| ensures |plans[i].id| >= 1 { OkHasId(plans[i]); }
    hide PlanOk, ActiveIds, DistinctPlans, OneActivePlan, NamesTheActive;
    ActiveIdsAreExact(plans);
    if |activeIds| > 1 { return false; }
    ActiveNameDecides(plans, activeId);
    ok := activeId == if activeIds != [] then activeIds[0] else "";
  }

  lemma NoPlans(plans: seq<Plan>)
    requires plans == []
    ensures PlanIds(plans) == {} && ActiveIds(plans) == [] && DistinctPlans(plans)
  {
  }

  lemma OkHasId(p: Plan)
    requires PlanOk(p)
    ensures |p.id| >= 1
  {
  }

  // ---------------------------------------------------------------- what follows

  function Minutes(items: seq<Item>, from: nat): int
    requires from <= |items|
    decreases |items| - from
  {
    if from == |items| then 0 else items[from].minutes + Minutes(items, from + 1)
  }

  lemma {:induction false} MinutesAdd(items: seq<Item>, from: nat)
    requires from <= |items|
    ensures TotalMinutes(items[..from]) + Minutes(items, from) == TotalMinutes(items)
    decreases |items| - from
  {
    if from < |items| {
      assert items[..from + 1][..from] == items[..from];
      MinutesAdd(items, from + 1);
    } else {
      assert items[..from] == items;
    }
  }

  /** A plan may fill its budget to the minute and not exceed it, and the budget is one of four. */
  lemma BudgetIsInclusive(p: Plan, budget: int)
    requires PlanOk(p)
    ensures PlanOk(p.(minutesBudget := budget)) <==>
              (budget == 30 || budget == 60 || budget == 90 || budget == 120) && Minutes(p.items, 0) <= budget
  {
    hide ItemOk, OneActiveItem, NoneActive, AllComplete, AllDoneBy, DistinctItems, TotalMinutes;
    assert p.items[..0] == [];
    assert TotalMinutes([]) == 0 by { NoMinutes(); }
    MinutesAdd(p.items, 0);
  }

  lemma NoMinutes()
    ensures TotalMinutes([]) == 0
  {
  }

  /** At most one block is active across all plans, and it lies in the one active plan, the one named. */
  lemma OneActiveBlock(plans: seq<Plan>, activeId: string, p: nat, i: nat, q: nat, j: nat)
    requires ValidPlans(plans, activeId)
    requires p < |plans| && i < |plans[p].items| && plans[p].items[i].status == "active"
    requires q < |plans| && j < |plans[q].items| && plans[q].items[j].status == "active"
    ensures p == q && i == j && plans[p].status == "active" && plans[p].id == activeId != ""
  {
    hide ItemOk, TotalMinutes, AllDoneBy;
    assert PlanOk(plans[p]) && PlanOk(plans[q]);
  }

  /** Every time recorded for a block lies in order between its plan's creation, closing and last update. */
  lemma TimesAreOrdered(plans: seq<Plan>, activeId: string, p: nat, i: nat)
    requires ValidPlans(plans, activeId) && p < |plans| && i < |plans[p].items|
    ensures var plan, item := plans[p], plans[p].items[i];
            var started, completed, closed := item.startedAt, item.completedAt, plan.completedAt;
            && !started.Malformed? && !completed.Malformed? && !closed.Malformed?
            && (started.At? ==> plan.createdAt.instant <= started.instant <= plan.updatedAt.instant)
            && (completed.At? ==> plan.createdAt.instant <= completed.instant <= plan.updatedAt.instant)
            && (started.At? && completed.At? ==> started.instant <= completed.instant)
            && (closed.At? ==> plan.status == "complete" && item.status == "complete" && completed.At?
                               && completed.instant <= closed.instant <= plan.updatedAt.instant)
  {
    hide TotalMinutes, ItemFields, OneActiveItem, NoneActive, DistinctItems;
    assert PlanOk(plans[p]);
  }

  /** No plan is active exactly when none is named, and then no block is active anywhere. */
  lemma IdleMeansNothingActive(plans: seq<Plan>, activeId: string)
    requires ValidPlans(plans, activeId)
    ensures activeId == "" <==> forall p :: 0 <= p < |plans| ==> plans[p].status != "active"
    ensures activeId == "" ==>
              forall p, i :: 0 <= p < |plans| && 0 <= i < |plans[p].items| ==> plans[p].items[i].status != "active"
  {
    hide ItemOk, TotalMinutes, AllDoneBy, AllComplete;
    forall p | 0 <= p < |plans| ensures |plans[p].id| >= 1 { OkHasId(plans[p]); }
    forall p, i | activeId == "" && 0 <= p < |plans| && 0 <= i < |plans[p].items| ensures plans[p].items[i].status != "active" {
      assert PlanOk(plans[p]);
    }
  }
}
