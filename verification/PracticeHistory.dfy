/** Practice runs, the evidence each must carry, and what its replay and repair links say about its ancestors. */
module PracticeHistory {
  import opened Prelude
  import Division

  /** One stored run. Dates and times are as parsed, None when they do not parse; times count microseconds. */
  datatype Run = Run(
    id: string, name: string, cycleId: string, date: Option<int>, started: Option<int>, completed: Option<int>,
    score: int, clean: int, recovered: int, eliminated: int, skipped: int, mistakes: int, xpEarned: int,
    durationSeconds: int, mode: string, origin: string, legacy: bool,
    questionIds: seq<string>, branches: seq<string>, outcomes: seq<string>, calibrations: seq<string>,
    repairIds: seq<string>, reasons: map<string, string>, before: map<string, int>, after: map<string, int>,
    replayOf: Option<string>, repairOf: Option<string>)

  const MODES := {
    "adaptive", "calibration", "daily", "review", "stage", "weak", "sprint", "heaven", "hell", "boss", "full",
    "checkpoint", "single", "random", "remediation", "triage", "shift", "coach", "custom", "saved",
    "run-replay", "run-repair" }

  const ORIGINS := { "bank", "path", "incident", "triage", "shift", "coach", "audit", "plan" }

  const OUTCOMES := { "clean", "recovered", "eliminated", "skipped" }

  const CALIBRATIONS := { "unrated", "calibrated", "balanced", "overconfident", "underconfident", "needs-work" }

  // ---------------------------------------------------------------- one run

  function Count(outcomes: seq<string>, kind: string): (n: nat)
    ensures n <= |outcomes|
  {
    if outcomes == [] then 0
    else Count(outcomes[..|outcomes| - 1], kind) + if outcomes[|outcomes| - 1] == kind then 1 else 0
  }

  /** `int((2 clean + recovered) * 50 / n + 0.5)`, in whole numbers. */
  function WeightedScore(clean: nat, recovered: nat, n: nat): nat
    requires n > 0
  {
    (100 * (2 * clean + recovered) + n) / (2 * n)
  }

  predicate NeedsRepair(outcome: string, calibration: string) {
    outcome != "clean" || calibration == "overconfident"
  }

  /** The questions a run leaves for repair, in their order. */
  function Unresolved(questions: seq<string>, outcomes: seq<string>, calibrations: seq<string>): seq<string>
    requires |questions| == |outcomes| == |calibrations|
  {
    if questions == [] then []
    else
      var n := |questions| - 1;
      Unresolved(questions[..n], outcomes[..n], calibrations[..n]) +
      if NeedsRepair(outcomes[n], calibrations[n]) then [questions[n]] else []
  }

  function Text(link: Option<string>): string { if link.None? then "" else link.value }

  predicate Bounded(r: Run) {
    && 1 <= |r.id| <= 100 && |r.name| <= 80 && |r.cycleId| <= 100
    && |Text(r.replayOf)| <= 100 && |Text(r.repairOf)| <= 100
    && r.date.Some? && r.started.Some? && r.completed.Some? && r.started.value <= r.completed.value
    && 0 <= r.score <= 100 && 0 <= r.clean <= 50 && 0 <= r.recovered <= 50 && 0 <= r.eliminated <= 50
    && 0 <= r.skipped <= 50 && 0 <= r.mistakes <= 200 && 0 <= r.xpEarned <= 100_000
    && 0 <= r.durationSeconds <= 86_400
    && r.durationSeconds == Min(86_400, (r.completed.value - r.started.value) / 1_000_000)
    && r.mode in MODES && r.origin in ORIGINS
  }

  predicate Aligned(r: Run) {
    var n := |r.questionIds|;
    && n <= 50 && |r.repairIds| <= 50
    && (forall i :: 0 <= i < n ==> 1 <= |r.questionIds[i]| <= 40)
    && (forall i, j :: 0 <= i < j < n ==> r.questionIds[i] != r.questionIds[j])
    && |r.branches| == n && (forall i :: 0 <= i < n ==> 1 <= |r.branches[i]| <= 40)
    && |r.outcomes| == n && (forall i :: 0 <= i < n ==> r.outcomes[i] in OUTCOMES)
    && |r.calibrations| == n && (forall i :: 0 <= i < n ==> r.calibrations[i] in CALIBRATIONS)
  }

  predicate Evidenced(r: Run) {
    && |r.reasons| <= 50 && |r.before| <= 50 && |r.after| <= 50
    && (forall q :: q in r.reasons ==> q in r.questionIds && |r.reasons[q]| <= 120)
    && (forall q :: q in r.before ==> q in r.questionIds && 0 <= r.before[q] <= 5)
    && (forall q :: q in r.after ==> q in r.questionIds && 0 <= r.after[q] <= 5)
    && (r.questionIds != [] ==> forall q :: q in r.questionIds ==> q in r.before && q in r.after)
  }

  predicate Counted(r: Run)
    requires Aligned(r)
  {
    if r.questionIds != [] then
      && r.clean == Count(r.outcomes, "clean") && r.recovered == Count(r.outcomes, "recovered")
      && r.eliminated == Count(r.outcomes, "eliminated") && r.skipped == Count(r.outcomes, "skipped")
      && r.score == WeightedScore(Count(r.outcomes, "clean"), Count(r.outcomes, "recovered"), |r.outcomes|)
      && r.repairIds == Unresolved(r.questionIds, r.outcomes, r.calibrations)
    else
      r.repairIds == [] && r.reasons == map[] && r.before == map[] && r.after == map[]
  }

  /** Both link fields present, neither naming the run itself, not both used, and used where the mode needs one. */
  predicate Linked(r: Run) {
    && r.replayOf.Some? && r.repairOf.Some? && r.replayOf.value != r.id && r.repairOf.value != r.id
    && (r.replayOf.value == "" || r.repairOf.value == "")
    && (r.mode == "run-replay" ==> r.replayOf.value != "")
    && (r.mode == "run-repair" ==> r.repairOf.value != "")
  }

  predicate RunOk(r: Run) {
    Bounded(r) && Aligned(r) && (r.legacy <==> r.questionIds == []) && Evidenced(r) && Counted(r) && Linked(r)
  }

  // ---------------------------------------------------------------- the history

  predicate Replays(r: Run, source: Run) {
    r.replayOf == Some(source.id)
  }

  predicate Repairs(r: Run, source: Run) {
    r.repairOf == Some(source.id)
  }

  /** A run repeats its replay source's questions, or its repair source's unresolved ones. */
  predicate LinkOk(r: Run, source: Run) {
    ReplayOk(r, source) && RepairOk(r, source)
  }

  ghost predicate DistinctIds(history: seq<Run>) {
    forall i, j :: 0 <= i < j < |history| ==> history[i].id != history[j].id
  }

  ghost predicate LinksOk(history: seq<Run>) {
    forall i, j :: 0 <= i < |history| && 0 <= j < |history| ==> LinkOk(history[i], history[j])
  }

  ghost predicate Selectable(history: seq<Run>, selected: string) {
    selected == "" || exists i :: 0 <= i < |history| && history[i].id == selected
  }

  ghost predicate ValidHistory(history: seq<Run>, selected: string) {
    |history| <= 100 && |selected| <= 100 && ValidRuns(history, selected)
  }

  ghost predicate ValidRuns(history: seq<Run>, selected: string) {
    Sound(history) && DistinctIds(history) && Selectable(history, selected)
  }

  /** Every run holds up by itself and against each source it names; all that lineage needs. */
  ghost predicate Sound(history: seq<Run>) {
    (forall i :: 0 <= i < |history| ==> RunOk(history[i])) && LinksOk(history)
  }

  /** The id-keyed dictionary after some runs have been entered. */
  ghost predicate Indexes(runs: map<string, Run>, history: seq<Run>) {
    && (forall i :: 0 <= i < |history| ==> history[i].id in runs && runs[history[i].id] == history[i])
    && (forall id :: id in runs ==> exists i :: 0 <= i < |history| && history[i].id == id)
  }

  lemma IndexOneMore(runs: map<string, Run>, history: seq<Run>, n: nat)
    requires n < |history| && Indexes(runs, history[..n]) && DistinctIds(history[..n])
    ensures history[n].id in runs ==> !DistinctIds(history)
    ensures history[n].id !in runs ==>
              DistinctIds(history[..n + 1]) && Indexes(runs[history[n].id := history[n]], history[..n + 1])
  {
    hide *;
    IndexAppended(runs, history[..n], history[n]);
    assert history[..n + 1] == history[..n] + [history[n]];
    if history[n].id in runs { DistinctPrefix(history, n + 1); }
  }

  lemma IndexAppended(runs: map<string, Run>, before: seq<Run>, r: Run)
    requires Indexes(runs, before) && DistinctIds(before)
    ensures r.id in runs ==> !DistinctIds(before + [r])
    ensures r.id !in runs ==> DistinctIds(before + [r]) && Indexes(runs[r.id := r], before + [r])
  {
    var all := before + [r];
    if r.id in runs {
      var i :| 0 <= i < |before| && before[i].id == r.id;
      assert all[i].id == all[|before|].id;
    } else {
      var more := runs[r.id := r];
      forall i | 0 <= i < |all| ensures all[i].id in more && more[all[i].id] == all[i] {
        if i < |before| { assert all[i] == before[i]; }
      }
      forall id | id in more ensures exists i :: 0 <= i < |all| && all[i].id == id {
        if id == r.id {
          assert all[|before|].id == id;
        } else {
          var i :| 0 <= i < |before| && before[i].id == id;
          assert all[i].id == id;
        }
      }
    }
  }

  lemma DistinctPrefix(history: seq<Run>, n: nat)
    requires n <= |history| && !DistinctIds(history[..n])
    ensures !DistinctIds(history)
  {
    var i, j :| 0 <= i < j < n && history[..n][i].id == history[..n][j].id;
    assert history[i].id == history[j].id;
  }

  lemma LinkLookup(runs: map<string, Run>, history: seq<Run>, i: nat)
    requires i < |history| && Indexes(runs, history) && DistinctIds(history) && RunOk(history[i])
    ensures var r := history[i];
            (forall j :: 0 <= j < |history| ==> LinkOk(r, history[j])) <==>
              && (r.replayOf.value in runs ==> r.questionIds == runs[r.replayOf.value].questionIds)
              && (r.repairOf.value in runs ==> r.questionIds == runs[r.repairOf.value].repairIds)
  {
    var r := history[i];
    OkParts(r);
    hide RunOk, Indexes, DistinctIds;
    LinkLookupReplay(runs, history, r);
    LinkLookupRepair(runs, history, r);
    assert forall j :: 0 <= j < |history| ==>
      (LinkOk(r, history[j]) <==> ReplayOk(r, history[j]) && RepairOk(r, history[j]));
    hide LinkOk, ReplayOk, RepairOk;
  }

  predicate ReplayOk(r: Run, source: Run) {
    Replays(r, source) ==> r.questionIds == source.questionIds
  }

  predicate RepairOk(r: Run, source: Run) {
    Repairs(r, source) ==> r.questionIds == source.repairIds
  }

  lemma LinkLookupReplay(runs: map<string, Run>, history: seq<Run>, r: Run)
    requires Indexes(runs, history) && r.replayOf.Some?
    ensures (forall j :: 0 <= j < |history| ==> ReplayOk(r, history[j])) <==>
              (r.replayOf.value in runs ==> r.questionIds == runs[r.replayOf.value].questionIds)
  {
    hide Indexes;
    IdLookup(runs, history, r.replayOf.value);
    if r.replayOf.value in runs {
      var j :| 0 <= j < |history| && history[j] == runs[r.replayOf.value] && history[j].id == r.replayOf.value;
      assert ReplayOk(r, history[j]) ==> r.questionIds == history[j].questionIds;
    }
  }

  lemma LinkLookupRepair(runs: map<string, Run>, history: seq<Run>, r: Run)
    requires Indexes(runs, history) && r.repairOf.Some?
    ensures (forall j :: 0 <= j < |history| ==> RepairOk(r, history[j])) <==>
              (r.repairOf.value in runs ==> r.questionIds == runs[r.repairOf.value].repairIds)
  {
    hide Indexes;
    IdLookup(runs, history, r.repairOf.value);
    if r.repairOf.value in runs {
      var j :| 0 <= j < |history| && history[j] == runs[r.repairOf.value] && history[j].id == r.repairOf.value;
      assert RepairOk(r, history[j]) ==> r.questionIds == history[j].repairIds;
    }
  }

  /** The dictionary holds the one run of an id, if there is one. */
  lemma IdLookup(runs: map<string, Run>, history: seq<Run>, id: string)
    requires Indexes(runs, history)
    ensures id in runs <==> exists j :: 0 <= j < |history| && history[j].id == id
    ensures forall j :: 0 <= j < |history| && history[j].id == id ==> history[j] == runs[id]
    ensures id in runs ==> exists j :: 0 <= j < |history| && history[j] == runs[id] && history[j].id == id
  {
    if id in runs {
      var j :| 0 <= j < |history| && history[j].id == id;
      assert history[j] == runs[id];
    }
  }

  /** One pass that checks each run and indexes it by id, then one pass over the links. */
  method ValidateRuns(history: seq<Run>, selected: string) returns (ok: bool)
    ensures ok <==> ValidRuns(history, selected)
  {
    hide RunOk, LinkOk, Indexes, DistinctIds;
    var fine, runs := IndexRuns(history);
    if !fine { return false; }
    KnownIds(runs, history, selected);
    if selected != "" && selected !in runs { return false; }
    hide Selectable;
    for n := 0 to |history|
      invariant forall i, j :: 0 <= i < n && 0 <= j < |history| ==> LinkOk(history[i], history[j])
    {
      LinkLookup(runs, history, n);
      var run := history[n];
      assert run.replayOf.Some? && run.repairOf.Some? by { OkParts(run); }
      if run.replayOf.value in runs && run.questionIds != runs[run.replayOf.value].questionIds { return false; }
      if run.repairOf.value in runs && run.questionIds != runs[run.repairOf.value].repairIds { return false; }
    }
    return true;
  }

  lemma KnownIds(runs: map<string, Run>, history: seq<Run>, selected: string)
    requires Indexes(runs, history)
    ensures Selectable(history, selected) <==> selected == "" || selected in runs
  {
  }

  /** The first pass: every run checked, and entered under its id. */
  method IndexRuns(history: seq<Run>) returns (ok: bool, runs: map<string, Run>)
    ensures ok <==> (forall i :: 0 <= i < |history| ==> RunOk(history[i])) && DistinctIds(history)
    ensures ok ==> Indexes(runs, history)
  {
    hide RunOk;
    ok, runs := false, map[];
    var ids: set<string> := {};
    for n := 0 to |history|
      invariant forall i :: 0 <= i < n ==> RunOk(history[i])
      invariant Indexes(runs, history[..n]) && DistinctIds(history[..n]) && ids == runs.Keys
    {
      var entry := history[n];
      IndexOneMore(runs, history, n);
      hide Indexes, DistinctIds;
      if entry.id in ids { return; }
      ids := ids + {entry.id};
      runs := runs[entry.id := entry];
      var fine := ValidateRun(entry);
      if !fine { return; }
    }
    assert history[..|history|] == history;
    ok := true;
  }

  // ---------------------------------------------------------------- one run's checks, in order

  method ValidateRun(r: Run) returns (ok: bool)
    ensures ok <==> RunOk(r)
  {
    hide Bounded, Aligned, Evidenced, Counted, Linked;
    ok := CheckBounds(r);
    if !ok { return; }
    ok := CheckAnswers(r);
    if !ok { return; }
    if r.legacy == (r.questionIds != []) { return false; }
    ok := CheckEvidence(r);
    if !ok { return; }
    ok := CheckCounts(r);
    if !ok { return; }
    ok := CheckLinks(r);
  }

  method CheckBounds(r: Run) returns (ok: bool)
    ensures ok <==> Bounded(r)
  {
    if r.id == "" || |r.id| > 100 || |r.name| > 80 || |r.cycleId| > 100 { return false; }
    if r.replayOf.Some? && |r.replayOf.value| > 100 { return false; }
    if r.repairOf.Some? && |r.repairOf.value| > 100 { return false; }
    if r.date.None? || r.started.None? || r.completed.None? || r.completed.value < r.started.value { return false; }
    var seconds := (r.completed.value - r.started.value) / 1_000_000;
    var expected := if seconds < 86_400 then seconds else 86_400;
    if r.score < 0 || r.score > 100 || r.clean < 0 || r.clean > 50 || r.recovered < 0 || r.recovered > 50 { return false; }
    if r.eliminated < 0 || r.eliminated > 50 || r.skipped < 0 || r.skipped > 50 { return false; }
    if r.mistakes < 0 || r.mistakes > 200 || r.xpEarned < 0 || r.xpEarned > 100_000 { return false; }
    if r.durationSeconds < 0 || r.durationSeconds > 86_400 || r.durationSeconds != expected { return false; }
    return r.mode in MODES && r.origin in ORIGINS;
  }

  method CheckAnswers(r: Run) returns (ok: bool)
    ensures ok <==> Aligned(r)
  {
    hide OUTCOMES, CALIBRATIONS;
    var n := |r.questionIds|;
    if n > 50 || |r.branches| > 50 || |r.outcomes| > 50 || |r.calibrations| > 50 || |r.repairIds| > 50 { return false; }
    ok := DistinctQuestions(r.questionIds);
    if !ok { return; }
    if |r.branches| != n || exists i :: 0 <= i < |r.branches| && (r.branches[i] == "" || |r.branches[i]| > 40) { return false; }
    if |r.outcomes| != n || exists i :: 0 <= i < |r.outcomes| && r.outcomes[i] !in OUTCOMES { return false; }
    if |r.calibrations| != n || exists i :: 0 <= i < |r.calibrations| && r.calibrations[i] !in CALIBRATIONS { return false; }
  }

  method DistinctQuestions(questions: seq<string>) returns (ok: bool)
    ensures ok <==> (forall i :: 0 <= i < |questions| ==> 1 <= |questions[i]| <= 40) && Distinct(questions)
  {
    var seen: set<string> := {};
    for i := 0 to |questions|
      invariant forall k :: 0 <= k < i ==> 1 <= |questions[k]| <= 40
      invariant seen == Elements(questions[..i]) && Distinct(questions[..i])
    {
      assert questions[..i + 1] == questions[..i] + [questions[i]];
      if questions[i] == "" || |questions[i]| > 40 { return false; }
      if questions[i] in seen {
        assert exists k :: 0 <= k < i && questions[k] == questions[i];
        return false;
      }
      seen := seen + {questions[i]};
    }
    assert questions[..|questions|] == questions;
    return true;
  }

  method CheckEvidence(r: Run) returns (ok: bool)
    ensures ok <==> Evidenced(r)
  {
    if |r.reasons| > 50 || |r.before| > 50 || |r.after| > 50 { return false; }
    if exists q :: q in r.reasons && (q !in r.questionIds || |r.reasons[q]| > 120) { return false; }
    if exists q :: q in r.before && (q !in r.questionIds || r.before[q] < 0 || r.before[q] > 5) { return false; }
    if exists q :: q in r.after && (q !in r.questionIds || r.after[q] < 0 || r.after[q] > 5) { return false; }
    if r.questionIds != [] && exists q :: q in r.questionIds && (q !in r.before || q !in r.after) { return false; }
    return true;
  }

  /** The four counters and the questions to repair, in one pass. */
  method Summarise(questions: seq<string>, outcomes: seq<string>, calibrations: seq<string>)
    returns (clean: nat, recovered: nat, eliminated: nat, skipped: nat, repair: seq<string>)
    requires |questions| == |outcomes| == |calibrations|
    ensures clean == Count(outcomes, "clean") && recovered == Count(outcomes, "recovered")
    ensures eliminated == Count(outcomes, "eliminated") && skipped == Count(outcomes, "skipped")
    ensures repair == Unresolved(questions, outcomes, calibrations)
  {
    hide Count, Unresolved;
    clean, recovered, eliminated, skipped, repair := 0, 0, 0, 0, [];
    NothingSummarised(questions[..0], outcomes[..0], calibrations[..0]);
    for i := 0 to |questions|
      invariant clean == Count(outcomes[..i], "clean") && recovered == Count(outcomes[..i], "recovered")
      invariant eliminated == Count(outcomes[..i], "eliminated") && skipped == Count(outcomes[..i], "skipped")
      invariant repair == Unresolved(questions[..i], outcomes[..i], calibrations[..i])
    {
      SummaryStep(questions, outcomes, calibrations, i);
      clean := if outcomes[i] == "clean" then clean + 1 else clean;
      recovered := if outcomes[i] == "recovered" then recovered + 1 else recovered;
      eliminated := if outcomes[i] == "eliminated" then eliminated + 1 else eliminated;
      skipped := if outcomes[i] == "skipped" then skipped + 1 else skipped;
      if outcomes[i] != "clean" || calibrations[i] == "overconfident" { repair := repair + [questions[i]]; }
    }
    assert questions[..|questions|] == questions && outcomes[..|questions|] == outcomes;
    assert calibrations[..|questions|] == calibrations;
  }

  lemma NothingSummarised(questions: seq<string>, outcomes: seq<string>, calibrations: seq<string>)
    requires questions == [] && outcomes == [] && calibrations == []
    ensures forall kind: string :: Count(outcomes, kind) == 0
    ensures Unresolved(questions, outcomes, calibrations) == []
  {
  }

  lemma SummaryStep(questions: seq<string>, outcomes: seq<string>, calibrations: seq<string>, i: nat)
    requires |questions| == |outcomes| == |calibrations| && i < |questions|
    ensures forall kind: string ::
              Count(outcomes[..i + 1], kind) == Count(outcomes[..i], kind) + if outcomes[i] == kind then 1 else 0
    ensures Unresolved(questions[..i + 1], outcomes[..i + 1], calibrations[..i + 1]) ==
            Unresolved(questions[..i], outcomes[..i], calibrations[..i]) +
            if outcomes[i] != "clean" || calibrations[i] == "overconfident" then [questions[i]] else []
  {
    assert questions[..i + 1][..i] == questions[..i] && outcomes[..i + 1][..i] == outcomes[..i];
    assert calibrations[..i + 1][..i] == calibrations[..i];
  }

  method CheckCounts(r: Run) returns (ok: bool)
    requires Aligned(r)
    ensures ok <==> Counted(r)
  {
    hide Count, Unresolved;
    if r.questionIds == [] { return r.repairIds == [] && r.reasons == map[] && r.before == map[] && r.after == map[]; }
    var clean, recovered, eliminated, skipped, repair := Summarise(r.questionIds, r.outcomes, r.calibrations);
    if r.clean != clean || r.recovered != recovered || r.eliminated != eliminated || r.skipped != skipped { return false; }
    if r.score != WeightedScore(clean, recovered, |r.outcomes|) { return false; }
    return r.repairIds == repair;
  }

  method CheckLinks(r: Run) returns (ok: bool)
    ensures ok <==> Linked(r)
  {
    if r.replayOf.None? || r.repairOf.None? { return false; }
    var replay, repair := r.replayOf.value, r.repairOf.value;
    if replay == r.id || repair == r.id { return false; }
    if replay != "" && repair != "" { return false; }
    if r.mode == "run-replay" && replay == "" { return false; }
    return r.mode != "run-repair" || repair != "";
  }

  /** The parts of a sound run that its links are judged by. */
  lemma OkParts(r: Run)
    requires RunOk(r)
    ensures Aligned(r) && Counted(r) && Linked(r) && 1 <= |r.id| <= 100
  {
    hide Aligned, Evidenced, Counted, Linked;
  }

  // ---------------------------------------------------------------- the stored field, at any version

  /** A score as an earlier version may have left it. */
  datatype RawScore = NoScore | NotANumber | Number(value: real)

  /** A date as an earlier version may have left it. */
  datatype RawDate = NoDate | NotADate | Date(day: int)

  /** One stored entry: what the earlier rules look at, and the whole run if every field of one is there with
      its type. */
  datatype Entry = NotAnObject | Entry(score: RawScore, date: RawDate, run: Option<Run>)

  /** Before version 19, or without a usable version, only scores and dates are looked at. */
  predicate IsEarly(uiVersion: Option<int>) {
    uiVersion.None? || uiVersion.value < 19
  }

  predicate EarlyOk(e: Entry) {
    e.Entry? && !e.date.NotADate? && !e.score.NotANumber? && (e.score.Number? ==> 0.0 <= e.score.value <= 100.0)
  }

  predicate AllRuns(entries: seq<Entry>) {
    forall i :: 0 <= i < |entries| ==> entries[i].Entry? && entries[i].run.Some?
  }

  function RunsOf(entries: seq<Entry>): (runs: seq<Run>)
    requires AllRuns(entries)
    ensures |runs| == |entries|
    ensures forall i :: 0 <= i < |entries| ==> runs[i] == entries[i].run.value
  {
    seq(|entries|, i requires 0 <= i < |entries| => entries[i].run.value)
  }

  ghost predicate ValidField(uiVersion: Option<int>, entries: seq<Entry>, selected: string) {
    && |entries| <= 100 && |selected| <= 100
    && if IsEarly(uiVersion) then forall i :: 0 <= i < |entries| ==> EarlyOk(entries[i])
       else AllRuns(entries) && ValidHistory(RunsOf(entries), selected)
  }

  method ValidatePracticeHistory(uiVersion: Option<int>, entries: seq<Entry>, selected: string) returns (ok: bool)
    ensures ok <==> ValidField(uiVersion, entries, selected)
  {
    hide ValidRuns;
    if |entries| > 100 || |selected| > 100 { return false; }
    var early := uiVersion.None?;
    if uiVersion.Some? && uiVersion.value < 19 { early := true; }
    if early {
      for n := 0 to |entries|
        invariant forall i :: 0 <= i < n ==> EarlyOk(entries[i])
      {
        var entry := entries[n];
        if entry.NotAnObject? || entry.score.NotANumber? || entry.date.NotADate? { return false; }
        if entry.score.Number? && (entry.score.value < 0.0 || entry.score.value > 100.0) { return false; }
      }
      return true;
    }
    if !AllRuns(entries) { return false; }
    ok := ValidateRuns(RunsOf(entries), selected);
  }

  // ---------------------------------------------------------------- ancestors

  predicate IsSubsequence(a: seq<string>, b: seq<string>) {
    if a == [] then true
    else if b == [] then false
    else if a[|a| - 1] == b[|b| - 1] then IsSubsequence(a[..|a| - 1], b[..|b| - 1])
    else IsSubsequence(a, b[..|b| - 1])
  }

  lemma {:induction false} SubsequenceOfLonger(a: seq<string>, b: seq<string>, x: string)
    requires IsSubsequence(a, b)
    ensures IsSubsequence(a, b + [x])
    decreases |b|
  {
    assert (b + [x])[..|b|] == b;
    if a != [] && a[|a| - 1] == x {
      var init := a[..|a| - 1];
      if a[|a| - 1] == b[|b| - 1] {
        SubsequenceOfLonger(init, b[..|b| - 1], b[|b| - 1]);
        assert b == b[..|b| - 1] + [b[|b| - 1]];
      } else {
        SubsequenceShrinks(a, b[..|b| - 1]);
        SubsequenceOfLonger(init, b[..|b| - 1], b[|b| - 1]);
        assert b == b[..|b| - 1] + [b[|b| - 1]];
      }
    }
  }

  lemma {:induction false} SubsequenceShrinks(a: seq<string>, b: seq<string>)
    requires a != [] && IsSubsequence(a, b)
    ensures IsSubsequence(a[..|a| - 1], b)
    decreases |b|
  {
    var init := b[..|b| - 1];
    assert b == init + [b[|b| - 1]];
    if a[|a| - 1] == b[|b| - 1] {
      SubsequenceOfLonger(a[..|a| - 1], init, b[|b| - 1]);
    } else {
      SubsequenceShrinks(a, init);
      SubsequenceOfLonger(a[..|a| - 1], init, b[|b| - 1]);
    }
  }

  lemma {:induction false} SubsequenceReflexive(a: seq<string>)
    ensures IsSubsequence(a, a)
  {
    if a != [] { SubsequenceReflexive(a[..|a| - 1]); }
  }

  lemma {:induction false} SubsequenceTransitive(a: seq<string>, b: seq<string>, c: seq<string>)
    requires IsSubsequence(a, b) && IsSubsequence(b, c)
    ensures IsSubsequence(a, c)
    decreases |b| + |c|
  {
    if a != [] {
      if b[|b| - 1] != c[|c| - 1] {
        SubsequenceTransitive(a, b, c[..|c| - 1]);
        SubsequenceOfLonger(a, c[..|c| - 1], c[|c| - 1]);
        assert c == c[..|c| - 1] + [c[|c| - 1]];
      } else if a[|a| - 1] == b[|b| - 1] {
        SubsequenceTransitive(a[..|a| - 1], b[..|b| - 1], c[..|c| - 1]);
      } else {
        SubsequenceTransitive(a, b[..|b| - 1], c[..|c| - 1]);
        SubsequenceOfLonger(a, c[..|c| - 1], c[|c| - 1]);
        assert c == c[..|c| - 1] + [c[|c| - 1]];
      }
    }
  }

  /** A subsequence is no longer, equal when as long, and made of the same members. */
  lemma {:induction false} SubsequenceIsPart(a: seq<string>, b: seq<string>)
    requires IsSubsequence(a, b)
    ensures |a| <= |b| && (|a| == |b| ==> a == b)
    ensures forall q :: q in a ==> q in b
    decreases |b|
  {
    if a != [] {
      var init := b[..|b| - 1];
      assert b == init + [b[|b| - 1]];
      if a[|a| - 1] == b[|b| - 1] {
        SubsequenceIsPart(a[..|a| - 1], init);
        assert a == a[..|a| - 1] + [a[|a| - 1]];
      } else {
        SubsequenceIsPart(a, init);
      }
    }
  }

  lemma {:induction false} UnresolvedIsPart(questions: seq<string>, outcomes: seq<string>, calibrations: seq<string>)
    requires |questions| == |outcomes| == |calibrations|
    ensures IsSubsequence(Unresolved(questions, outcomes, calibrations), questions)
  {
    if questions != [] {
      var n := |questions| - 1;
      var rest := Unresolved(questions[..n], outcomes[..n], calibrations[..n]);
      UnresolvedIsPart(questions[..n], outcomes[..n], calibrations[..n]);
      if NeedsRepair(outcomes[n], calibrations[n]) {
        assert (rest + [questions[n]])[..|rest|] == rest;
      } else {
        SubsequenceOfLonger(rest, questions[..n], questions[n]);
        assert questions == questions[..n] + [questions[n]];
        assert rest + [] == rest;
      }
    }
  }

  /** A question is left for repair exactly when its outcome or calibration asks for it. */
  lemma {:induction false} UnresolvedExactly(questions: seq<string>, outcomes: seq<string>, calibrations: seq<string>, i: nat)
    requires |questions| == |outcomes| == |calibrations| && i < |questions|
    requires forall j, k :: 0 <= j < k < |questions| ==> questions[j] != questions[k]
    ensures questions[i] in Unresolved(questions, outcomes, calibrations) <==>
              outcomes[i] != "clean" || calibrations[i] == "overconfident"
  {
    var n := |questions| - 1;
    var rest := Unresolved(questions[..n], outcomes[..n], calibrations[..n]);
    UnresolvedIsPart(questions[..n], outcomes[..n], calibrations[..n]);
    SubsequenceIsPart(rest, questions[..n]);
    if i < n { UnresolvedExactly(questions[..n], outcomes[..n], calibrations[..n], i); }
  }

  /** Question `q` was asked in a run and not answered cleanly there, or with too much confidence. */
  ghost predicate LeftOpen(r: Run, q: string) {
    && |r.questionIds| == |r.outcomes| == |r.calibrations|
    && exists i :: 0 <= i < |r.questionIds| && r.questionIds[i] == q
                   && (r.outcomes[i] != "clean" || r.calibrations[i] == "overconfident")
  }

  /** On an accepted run the repair list names exactly the questions left open. */
  lemma RepairListExactly(r: Run, q: string)
    requires RunOk(r) && r.questionIds != []
    ensures q in r.repairIds <==> LeftOpen(r, q)
  {
    hide RunOk, LeftOpen, Aligned, Counted;
    OkParts(r);
    CountedRepairs(r);
    UnresolvedMembers(r, q);
  }

  lemma CountedRepairs(r: Run)
    requires Aligned(r) && Counted(r) && r.questionIds != []
    ensures |r.questionIds| == |r.outcomes| == |r.calibrations| && Distinct(r.questionIds)
    ensures r.repairIds == Unresolved(r.questionIds, r.outcomes, r.calibrations)
  {
    hide Unresolved, Count, OUTCOMES, CALIBRATIONS;
  }

  lemma UnresolvedMembers(r: Run, q: string)
    requires |r.questionIds| == |r.outcomes| == |r.calibrations| && Distinct(r.questionIds)
    ensures q in Unresolved(r.questionIds, r.outcomes, r.calibrations) <==> LeftOpen(r, q)
  {
    hide Unresolved, IsSubsequence;
    UnresolvedIsPart(r.questionIds, r.outcomes, r.calibrations);
    SubsequenceIsPart(Unresolved(r.questionIds, r.outcomes, r.calibrations), r.questionIds);
    if q in r.questionIds {
      var i :| 0 <= i < |r.questionIds| && r.questionIds[i] == q;
      UnresolvedExactly(r.questionIds, r.outcomes, r.calibrations, i);
    }
  }

  /** The runs at `path` are parent after parent: each replays or repairs the next. */
  ghost predicate IsLineage(history: seq<Run>, path: seq<nat>) {
    && path != []
    && (forall k :: 0 <= k < |path| ==> path[k] < |history|)
    && forall k :: 0 <= k < |path| - 1 ==>
         Replays(history[path[k]], history[path[k + 1]]) || Repairs(history[path[k]], history[path[k + 1]])
  }

  /** One link: what a repair leaves to a run is what was open, and a replay leaves everything. */
  lemma ParentContains(r: Run, source: Run)
    requires Aligned(source) && Counted(source)
    requires LinkOk(r, source) && (Replays(r, source) || Repairs(r, source))
    ensures IsSubsequence(r.questionIds, source.questionIds)
    ensures Repairs(r, source) ==> forall q :: q in r.questionIds ==> LeftOpen(source, q)
  {
    hide Bounded, Evidenced, Linked;
    if r.questionIds == source.questionIds { SubsequenceReflexive(r.questionIds); }
    if Repairs(r, source) && source.questionIds != [] {
      var qs, os, cs := source.questionIds, source.outcomes, source.calibrations;
      UnresolvedIsPart(qs, os, cs);
      SubsequenceIsPart(Unresolved(qs, os, cs), qs);
      forall q | q in r.questionIds ensures LeftOpen(source, q) {
        var i :| 0 <= i < |qs| && qs[i] == q;
        UnresolvedExactly(qs, os, cs, i);
      }
    }
  }

  /** Down any chain of links, cyclic or not, a run's questions are a subsequence of every ancestor's. */
  lemma {:induction false} AncestorsContain(history: seq<Run>, path: seq<nat>)
    requires Sound(history) && IsLineage(history, path)
    ensures IsSubsequence(history[path[0]].questionIds, history[path[|path| - 1]].questionIds)
  {
    hide RunOk, LinkOk, IsSubsequence, Replays, Repairs;
    if |path| == 1 {
      SubsequenceReflexive(history[path[0]].questionIds);
    } else {
      var shorter := path[..|path| - 1];
      var a, b := path[|path| - 2], path[|path| - 1];
      AncestorsContain(history, shorter);
      OkParts(history[b]);
      hide Aligned, Counted;
      ParentContains(history[a], history[b]);
      SubsequenceTransitive(history[path[0]].questionIds, history[a].questionIds, history[b].questionIds);
    }
  }

  lemma StretchIsLineage(history: seq<Run>, path: seq<nat>, i: nat, j: nat)
    requires IsLineage(history, path) && i <= j < |path|
    ensures IsLineage(history, path[i..j + 1])
  {
  }

  /** A question still asked at the end of a chain of links was left open at every repair along it. */
  lemma OpenAtEveryRepair(history: seq<Run>, path: seq<nat>, k: nat)
    requires Sound(history) && IsLineage(history, path) && k < |path| - 1
    ensures Repairs(history[path[k]], history[path[k + 1]]) ==>
              forall q :: q in history[path[0]].questionIds ==> LeftOpen(history[path[k + 1]], q)
  {
    StretchIsLineage(history, path, 0, k);
    AncestorsContain(history, path[..k + 1]);
    hide RunOk, LinkOk, LeftOpen, Repairs, Replays, IsSubsequence;
    SubsequenceIsPart(history[path[0]].questionIds, history[path[k]].questionIds);
    OkParts(history[path[k + 1]]);
    ParentContains(history[path[k]], history[path[k + 1]]);
  }

  /** On a cycle of links every run asks the same list, and a run repaired on it has resolved nothing. */
  lemma CyclesResolveNothing(history: seq<Run>, path: seq<nat>, k: nat)
    requires Sound(history) && IsLineage(history, path) && path[0] == path[|path| - 1]
    requires k < |path| - 1
    ensures history[path[k]].questionIds == history[path[0]].questionIds
    ensures var source := history[path[k + 1]];
            Repairs(history[path[k]], source) ==>
              source.repairIds == source.questionIds && forall q :: q in source.questionIds ==> LeftOpen(source, q)
  {
    hide RunOk, LeftOpen, Replays, IsSubsequence;
    CycleIsConstant(history, path, k);
    CycleIsConstant(history, path, k + 1);
    assert LinkOk(history[path[k]], history[path[k + 1]]);
    OkParts(history[path[k + 1]]);
    ParentContains(history[path[k]], history[path[k + 1]]);
  }

  lemma CycleIsConstant(history: seq<Run>, path: seq<nat>, k: nat)
    requires Sound(history) && IsLineage(history, path) && path[0] == path[|path| - 1] && k < |path|
    ensures history[path[k]].questionIds == history[path[0]].questionIds
  {
    hide RunOk, LinkOk, Replays, Repairs, IsSubsequence;
    StretchIsLineage(history, path, 0, k);
    StretchIsLineage(history, path, k, |path| - 1);
    AncestorsContain(history, path[0..k + 1]);
    AncestorsContain(history, path[k..|path|]);
    SubsequenceIsPart(history[path[0]].questionIds, history[path[k]].questionIds);
    SubsequenceIsPart(history[path[k]].questionIds, history[path[0]].questionIds);
  }

  /** A run of one unresolved question that repairs `other`. */
  function Looping(id: string, other: string): Run {
    Run(id, "", "", Some(0), Some(0), Some(0), 0, 0, 0, 1, 0, 0, 0, 0, "run-repair", "bank", false,
        ["q1"], ["feed"], ["eliminated"], ["unrated"], ["q1"], map[], map["q1" := 0], map["q1" := 0], Some(""), Some(other))
  }

  /** Cycles are not refused: two runs of any ids may each be the other's repair. */
  lemma CyclesAreAccepted(x: string, y: string)
    requires 1 <= |x| <= 100 && 1 <= |y| <= 100 && x != y
    ensures var history := [Looping(x, y), Looping(y, x)];
            ValidHistory(history, x) && IsLineage(history, [0, 1, 0])
  {
    hide RunOk, ValidHistory, IsLineage;
    LoopingIsOk(x, y);
    LoopingIsOk(y, x);
    PairIsSound(Looping(x, y), Looping(y, x));
  }

  lemma PairIsSound(a: Run, b: Run)
    requires a.id != b.id && Repairs(a, b) && Repairs(b, a)
    requires a.questionIds == b.repairIds && b.questionIds == a.repairIds
    ensures RunOk(a) && RunOk(b) ==> ValidHistory([a, b], a.id) && IsLineage([a, b], [0, 1, 0])
  {
    hide RunOk, LinkOk, Replays, Repairs;
    if !RunOk(a) || !RunOk(b) { return; }
    OkParts(a);
    OkParts(b);
    RepairsOnly(a, b);
    RepairsOnly(b, a);
    assert [a, b][0].id == a.id;
    PairHasACycle(a, b);
    hide IsLineage;
  }

  lemma PairHasACycle(a: Run, b: Run)
    requires Repairs(a, b) && Repairs(b, a)
    ensures IsLineage([a, b], [0, 1, 0])
  {
    hide Replays, Repairs;
    var history, path: seq<nat> := [a, b], [0, 1, 0];
    forall k | 0 <= k < |path| - 1 ensures Repairs(history[path[k]], history[path[k + 1]]) {
      assert k == 0 || k == 1;
    }
  }

  lemma RepairsOnly(a: Run, b: Run)
    requires Linked(a) && a.id != "" && b.id != "" && a.id != b.id && Repairs(a, b) && a.questionIds == b.repairIds
    ensures LinkOk(a, a) && LinkOk(a, b)
  {
  }

  lemma LoopingIsOk(id: string, other: string)
    requires 1 <= |id| <= 100 && 1 <= |other| <= 100 && id != other
    ensures RunOk(Looping(id, other))
  {
    hide Looping, Count, Unresolved, Bounded, Aligned, Evidenced, Counted, Linked;
    var r := Looping(id, other);
    LoopingIsBounded(id, other);
    LoopingIsEvidenced(id, other);
    LoopingIsCounted(id, other);
  }

  lemma LoopingIsBounded(id: string, other: string)
    requires 1 <= |id| <= 100 && 1 <= |other| <= 100 && id != other
    ensures var r := Looping(id, other); Bounded(r) && Linked(r) && r.questionIds != [] && !r.legacy
  {
    assert "run-repair" in MODES && "bank" in ORIGINS;
    hide MODES, ORIGINS;
  }

  lemma LoopingIsEvidenced(id: string, other: string)
    ensures Aligned(Looping(id, other)) && Evidenced(Looping(id, other))
  {
  }

  lemma LoopingIsCounted(id: string, other: string)
    requires Aligned(Looping(id, other))
    ensures Counted(Looping(id, other))
  {
    var r := Looping(id, other);
    hide Count, Unresolved, Aligned, Bounded;
    OneQuestionIsCounted(r.questionIds, r.outcomes, r.calibrations);
  }

  lemma OneQuestionIsCounted(questions: seq<string>, outcomes: seq<string>, calibrations: seq<string>)
    requires |questions| == |outcomes| == |calibrations| == 1 && outcomes[0] == "eliminated"
    ensures Count(outcomes, "clean") == Count(outcomes, "recovered") == Count(outcomes, "skipped") == 0
    ensures Count(outcomes, "eliminated") == 1 && Unresolved(questions, outcomes, calibrations) == questions
  {
    assert outcomes[..0] == [] && questions[..0] == [] && calibrations[..0] == [];
    assert Unresolved([], [], []) == [];
    assert questions == [] + [questions[0]];
  }

  // ---------------------------------------------------------------- scores

  lemma {:induction false} CountsPartition(outcomes: seq<string>)
    requires forall i :: 0 <= i < |outcomes| ==> outcomes[i] in OUTCOMES
    ensures Count(outcomes, "clean") + Count(outcomes, "recovered") + Count(outcomes, "eliminated")
            + Count(outcomes, "skipped") == |outcomes|
  {
    if outcomes != [] { CountsPartition(outcomes[..|outcomes| - 1]); }
  }

  lemma {:induction false} CountIsExtreme(outcomes: seq<string>, kind: string)
    ensures Count(outcomes, kind) == |outcomes| <==> forall i :: 0 <= i < |outcomes| ==> outcomes[i] == kind
    ensures Count(outcomes, kind) == 0 <==> forall i :: 0 <= i < |outcomes| ==> outcomes[i] != kind
  {
    if outcomes != [] { CountIsExtreme(outcomes[..|outcomes| - 1], kind); }
  }

  lemma ScoreIsExtreme(clean: nat, recovered: nat, n: nat)
    requires 0 < n <= 50 && clean + recovered <= n
    ensures WeightedScore(clean, recovered, n) <= 100
    ensures WeightedScore(clean, recovered, n) == 100 <==> clean == n
    ensures WeightedScore(clean, recovered, n) == 0 <==> clean == 0 && recovered == 0
  {
    var x, d := 100 * (2 * clean + recovered) + n, 2 * n;
    if clean == n {
      assert x == 100 * d + n;
      Division.AtLeast(100, n, d);
      Division.Below(x, 101, d);
    } else {
      Division.Below(x, 100, d);
    }
    if clean == 0 && recovered == 0 {
      Division.Below(x, 1, d);
    } else {
      assert x == 1 * d + (x - d);
      Division.AtLeast(1, x - d, d);
    }
  }

  /** The score is the whole number nearest to the weighted share: a clean answer counts one, a recovered one half;
      halves go up. */
  lemma ScoreIsNearest(clean: nat, recovered: nat, n: nat)
    requires n > 0
    ensures var exact := 100.0 * (clean as real + 0.5 * recovered as real) / n as real;
            WeightedScore(clean, recovered, n) as real - 0.5 <= exact < WeightedScore(clean, recovered, n) as real + 0.5
  {
    var w, t := WeightedScore(clean, recovered, n), n as real;
    var x, d := 100 * (2 * clean + recovered) + n, 2 * n;
    assert x == d * w + x % d;
    assert 2 * n * w <= x < 2 * n * w + 2 * n;
    hide WeightedScore;
    var top := 100.0 * (clean as real + 0.5 * recovered as real);
    assert (n * w) as real == t * w as real;
    assert (w as real - 0.5) * t <= top < (w as real + 0.5) * t;
    BetweenQuotients(w as real - 0.5, top, w as real + 0.5, t);
  }

  lemma BetweenQuotients(lo: real, top: real, hi: real, t: real)
    requires t > 0.0 && lo * t <= top < hi * t
    ensures lo <= top / t < hi
  {
  }

  /** A perfect score may still leave work: an overconfident clean answer is to be repaired. */
  lemma PerfectButOverconfident() returns (r: Run)
    ensures RunOk(r) && r.score == 100 && r.repairIds == ["q1"]
  {
    r := Run("a", "", "", Some(0), Some(0), Some(0), 100, 2, 0, 0, 0, 0, 0, 0, "daily", "bank", false,
             ["q1", "q2"], ["feed", "feed"], ["clean", "clean"], ["overconfident", "calibrated"], ["q1"],
             map[], map["q1" := 0, "q2" := 0], map["q1" := 0, "q2" := 0], Some(""), Some(""));
    PerfectIsBounded(r);
    PerfectIsAligned(r);
    TwoCleanAnswers(r.questionIds, r.outcomes, r.calibrations);
    hide Bounded, Aligned, Evidenced, Linked, Count, Unresolved;
  }

  lemma PerfectIsBounded(r: Run)
    requires r.id == "a" && r.name == "" && r.cycleId == "" && r.date == r.started == r.completed == Some(0)
    requires r.score == 100 && r.clean == 2 && r.recovered == r.eliminated == r.skipped == r.mistakes == r.xpEarned == 0
    requires r.durationSeconds == 0 && r.mode == "daily" && r.origin == "bank" && r.replayOf == r.repairOf == Some("")
    ensures Bounded(r) && Linked(r)
  {
  }

  lemma PerfectIsAligned(r: Run)
    requires r.questionIds == ["q1", "q2"] && r.branches == ["feed", "feed"] && r.outcomes == ["clean", "clean"]
    requires r.calibrations == ["overconfident", "calibrated"] && r.repairIds == ["q1"]
    requires r.reasons == map[] && r.before == r.after == map["q1" := 0, "q2" := 0]
    ensures Aligned(r) && Evidenced(r)
  {
  }

  lemma TwoCleanAnswers(questions: seq<string>, outcomes: seq<string>, calibrations: seq<string>)
    requires |questions| == 2 && outcomes == ["clean", "clean"]
    requires calibrations == ["overconfident", "calibrated"]
    ensures Count(outcomes, "clean") == 2
    ensures Count(outcomes, "recovered") == Count(outcomes, "eliminated") == Count(outcomes, "skipped") == 0
    ensures Unresolved(questions, outcomes, calibrations) == [questions[0]]
  {
    hide Count, Unresolved;
    assert questions[..2] == questions && outcomes[..2] == outcomes && calibrations[..2] == calibrations;
    NothingSummarised(questions[..0], outcomes[..0], calibrations[..0]);
    SummaryStep(questions, outcomes, calibrations, 0);
    SummaryStep(questions, outcomes, calibrations, 1);
    forall kind: string ensures Count(outcomes, kind) == if kind == "clean" then 2 else 0 {
      assert Count(outcomes[..0 + 1], kind) == Count(outcomes[..0], kind) + if outcomes[0] == kind then 1 else 0;
      assert Count(outcomes[..1 + 1], kind) == Count(outcomes[..1], kind) + if outcomes[1] == kind then 1 else 0;
    }
  }

  /** Rounded scores do not lie: 100 means every outcome clean, 0 means none clean or recovered, and a run
      with nothing left for repair scored 100. */
  lemma ScoresDoNotLie(r: Run)
    requires RunOk(r) && !r.legacy
    ensures r.score == 100 <==> forall i :: 0 <= i < |r.outcomes| ==> r.outcomes[i] == "clean"
    ensures r.score == 0 <==> forall i :: 0 <= i < |r.outcomes| ==> r.outcomes[i] != "clean" && r.outcomes[i] != "recovered"
    ensures r.repairIds == [] ==> r.score == 100
    ensures r.clean + r.recovered + r.eliminated + r.skipped == |r.questionIds|
  {
    CountsPartition(r.outcomes);
    CountIsExtreme(r.outcomes, "clean");
    CountIsExtreme(r.outcomes, "recovered");
    ScoreIsExtreme(Count(r.outcomes, "clean"), Count(r.outcomes, "recovered"), |r.outcomes|);
    if r.repairIds == [] {
      forall i | 0 <= i < |r.outcomes| ensures r.outcomes[i] == "clean" {
        UnresolvedExactly(r.questionIds, r.outcomes, r.calibrations, i);
      }
    }
    hide Count, WeightedScore, Unresolved, Bounded, Evidenced, Linked;
  }
}
