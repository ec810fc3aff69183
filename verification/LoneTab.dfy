/** What one undisturbed tab does: any fold of updates that the service would accept is a run of the protocol. */
module LoneTab {
  import opened Prelude
  import opened Contracts
  import opened RecallScorer
  import opened StateValidator
  import PR = ProfileRepository
  import opened ProfileState
  import opened RewardLedger
  import opened SyncProtocol
  import opened SavedRuns

  const TAB: nat := 0

  const REQUEST_ID := "request"

  /** Queue an update, start it, let the service handle it, take the answer. */
  function Save(task: nat, u: Update): seq<Action> {
    [Enqueue(TAB, u), Start(TAB), Serve(task, REQUEST_ID, PR.NoFault), Receive(TAB)]
  }

  /** Read the empty profile, then save each update in turn. */
  function SaveAll(updates: seq<Update>): seq<Action> {
    if updates == [] then [Refetch(TAB, 0)]
    else SaveAll(updates[..|updates| - 1]) + Save(|updates| - 1, updates[|updates| - 1])
  }

  lemma ExecStep(v: Service, actions: seq<Action>, a: Action)
    ensures Exec(v, actions + [a]) == Step(v, Exec(v, actions), a)
  {
    hide Step;
    assert (actions + [a])[..|actions|] == actions;
  }

  lemma ExecFour(v: Service, actions: seq<Action>, a: Action, b: Action, c: Action, d: Action)
    ensures Exec(v, actions + [a, b, c, d]) == Step(v, Step(v, Step(v, Step(v, Exec(v, actions), a), b), c), d)
  {
    hide Step, Exec;
    ExecStep(v, actions, a);
    ExecStep(v, actions + [a], b);
    ExecStep(v, actions + [a] + [b], c);
    ExecStep(v, actions + [a] + [b] + [c], d);
    assert actions + [a, b, c, d] == actions + [a] + [b] + [c] + [d];
  }

  /** The tab holds the newest revision and nothing is queued. */
  ghost predicate Idle(s: Sys, d: Document) {
    TabOf(s, TAB) == Tab(Some(Ready(|s.log|, d)), []) && |s.tasks| == |s.log|
  }

  /** After a save: one more task, settled, and one more commit, its own. */
  ghost predicate Grew(s: Sys, n: Sys, u: Update, d: Document) {
    && |n.tasks| == |s.tasks| + 1 && n.tasks[..|s.tasks|] == s.tasks && n.tasks[|s.tasks|].update == u
    && n.log == s.log + [Entry(Some(|s.tasks|), PR.Job(PROFILE, |s.log|, d, REQUEST_ID))]
  }

  lemma QueueAndStart(v: Service, s: Sys, u: Update, d: Document, next: Document)
    requires Idle(s, d) && Full(d) && Next(u, d) == Some(next)
    ensures var t := |s.tasks|;
            var n := Step(v, Step(v, s, Enqueue(TAB, u)), Start(TAB));
            && n.data == s.data && n.log == s.log
            && n.tasks == s.tasks + [Task(TAB, u, Awaiting(0, Ready(|s.log|, d), next), Pending(|s.log|, next))]
            && TabOf(n, TAB) == Tab(Some(Ready(|s.log|, d)), [t])
  {
    NormalizeFixesFull(|s.log|, d);
    hide Normalize, Next, Full;
    var queued := Step(v, s, Enqueue(TAB, u));
    assert queued.tasks[|s.tasks|] == Task(TAB, u, Queued, Silent);
    assert TabOf(queued, TAB) == Tab(Some(Ready(|s.log|, d)), [|s.tasks|]);
  }

  lemma ServeAnswers(v: Service, s: Sys, t: nat, next: Document)
    requires LogOk(v, s) && t < |s.tasks| && s.tasks[t].wire == Pending(|s.log|, next) && Accepts(v.lex, v.catalog, next)
    ensures var n := Step(v, s, Serve(t, REQUEST_ID, PR.NoFault));
            && n.log == s.log + [Entry(Some(t), PR.Job(PROFILE, |s.log|, next, REQUEST_ID))] && n.tabs == s.tabs
            && n.tasks == s.tasks[t := s.tasks[t].(wire := Answered(Saved(Loaded(|s.log| + 1, Some(next)))))]
  {
    hide Accepts;
    var job := PR.Job(PROFILE, |s.log|, next, REQUEST_ID);
    PR.SaveKeeps(s.data, Jobs(s.log), job);
    PR.AttemptIsAtomic(s.data, Jobs(s.log), job, PR.NoFault);
    hide PR.SaveData, PR.Keeps;
    assert PR.CurrentRevision(s.data) == |s.log|;
  }

  lemma ReceiveSettles(v: Service, s: Sys, t: nat, base: Ready, next: Document, revision: nat)
    requires TabOf(s, TAB).queue == [t] && t < |s.tasks| && Full(next)
    requires s.tasks[t].client == Awaiting(0, base, next) && s.tasks[t].wire == Answered(Saved(Loaded(revision, Some(next))))
    ensures var n := Step(v, s, Receive(TAB));
            && n.log == s.log && TabOf(n, TAB) == Tab(Some(Ready(revision, next)), [])
            && |n.tasks| == |s.tasks| && n.tasks[..t] == s.tasks[..t] && n.tasks[t].update == s.tasks[t].update
  {
    NormalizeFixesFull(revision, next);
    hide Normalize, Full;
  }

  lemma LoneSave(v: Service, actions: seq<Action>, u: Update, d: Document, next: Document)
    requires Idle(Exec(v, actions), d) && Full(d) && Next(u, d) == Some(next) && Accepts(v.lex, v.catalog, next)
    ensures var s, n := Exec(v, actions), Exec(v, actions + Save(|Exec(v, actions).tasks|, u));
            Idle(n, next) && Grew(s, n, u, next)
  {
    var s := Exec(v, actions);
    var t := |s.tasks|;
    ExecFour(v, actions, Enqueue(TAB, u), Start(TAB), Serve(t, REQUEST_ID, PR.NoFault), Receive(TAB));
    ExecKeeps(v, actions);
    LoneSteps(v, s, u, d, next);
  }

  lemma LoneSteps(v: Service, s: Sys, u: Update, d: Document, next: Document)
    requires Inv(v, s) && Idle(s, d)
    ensures var t := |s.tasks|;
            var n := Step(v, Step(v, Step(v, Step(v, s, Enqueue(TAB, u)), Start(TAB)),
                                  Serve(t, REQUEST_ID, PR.NoFault)), Receive(TAB));
            Full(d) && Next(u, d) == Some(next) && Accepts(v.lex, v.catalog, next) ==> Idle(n, next) && Grew(s, n, u, next)
  {
    hide Step, Accepts, Full, Next, Inv, LogOk;
    if !(Full(d) && Next(u, d) == Some(next) && Accepts(v.lex, v.catalog, next)) { return; }
    NextIsFull(u, d);
    QueueAndStart(v, s, u, d, next);
    StepKeeps(v, s, Enqueue(TAB, u));
    StepKeeps(v, Step(v, s, Enqueue(TAB, u)), Start(TAB));
    var t, started := |s.tasks|, Step(v, Step(v, s, Enqueue(TAB, u)), Start(TAB));
    InvHasLog(v, started);
    ServeAnswers(v, started, t, next);
    var served := Step(v, started, Serve(t, REQUEST_ID, PR.NoFault));
    ReceiveSettles(v, served, t, Ready(|s.log|, d), next, |s.log| + 1);
  }

  lemma InvHasLog(v: Service, s: Sys)
    requires Inv(v, s)
    ensures LogOk(v, s)
  {
  }

  /** Every prefix of the updates folds to a state the service accepts. */
  ghost predicate AllAccepted(v: Service, updates: seq<Update>) {
    forall n :: 0 <= n <= |updates| ==>
      After(INITIAL, updates[..n]).Some? && Accepts(v.lex, v.catalog, After(INITIAL, updates[..n]).value)
  }

  /** The log holds the updates in order, each authored by the task of its number. */
  ghost predicate Realised(s: Sys, updates: seq<Update>) {
    && |s.log| == |s.tasks| == |updates|
    && forall i :: 0 <= i < |updates| ==> s.log[i].author == Some(i) && s.tasks[i].update == updates[i]
  }

  lemma FirstRead(v: Service)
    ensures var s := Exec(v, [Refetch(TAB, 0)]); Idle(s, INITIAL) && Realised(s, []) && Readable(s, 0)
    ensures Full(INITIAL)
  {
    var s := Exec(v, []);
    ExecStep(v, [], Refetch(TAB, 0));
    assert [] + [Refetch(TAB, 0)] == [Refetch(TAB, 0)];
    assert Normalize(LoadedAt(s.log, 0)) == Some(Ready(0, INITIAL));
  }

  lemma PrefixIsAccepted(v: Service, updates: seq<Update>, n: nat)
    requires AllAccepted(v, updates) && n <= |updates|
    ensures AllAccepted(v, updates[..n])
  {
    hide After, Accepts;
    forall k | 0 <= k <= n ensures updates[..n][..k] == updates[..k] {
    }
  }

  /** Any fold of accepted updates is what the protocol stores on some run: a lone tab's. */
  lemma {:induction false} LoneTabRealises(v: Service, updates: seq<Update>)
    requires AllAccepted(v, updates)
    ensures var s, r := Exec(v, SaveAll(updates)), After(INITIAL, updates);
            r.Some? && Full(r.value) && Idle(s, r.value) && Realised(s, updates)
  {
    if updates == [] {
      FirstRead(v);
    } else {
      var n := |updates| - 1;
      var init, u := updates[..n], updates[n];
      PrefixIsAccepted(v, updates, n);
      LoneTabRealises(v, init);
      assert updates[..|updates|] == updates;
      hide Accepts, Full, Next, Exec, Idle;
      var d, next := After(INITIAL, init).value, After(INITIAL, updates).value;
      NextIsFull(u, d);
      LoneSave(v, SaveAll(init), u, d, next);
      GrewRealises(Exec(v, SaveAll(init)), Exec(v, SaveAll(updates)), updates, next);
    }
  }

  lemma GrewRealises(s: Sys, n: Sys, updates: seq<Update>, d: Document)
    requires updates != [] && Realised(s, updates[..|updates| - 1]) && Grew(s, n, updates[|updates| - 1], d)
    ensures Realised(n, updates)
  {
    var k := |updates| - 1;
    forall i | 0 <= i < |updates| ensures n.log[i].author == Some(i) && n.tasks[i].update == updates[i] {
      if i < k {
        assert n.tasks[i] == n.tasks[..k][i] == s.tasks[i];
        assert s.tasks[i].update == updates[..k][i];
      }
    }
  }
}
