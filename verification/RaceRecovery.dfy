/** A save that lost its race: the service's refusal is recognised, and one reload carries the save through. */
module RaceRecovery {
  import opened Prelude
  import opened Contracts
  import opened RecallScorer
  import opened StateValidator
  import PR = ProfileRepository
  import opened ProfileState
  import opened SyncProtocol
  import opened LoneTab

  /** A tab reads the service's answer as a race exactly when the service refused a stale revision: the first time
      it reloads, the second time it tells the learner so; every other failure ends the save at once. */
  lemma ConflictsAreRaces(d: PR.ProfileData<Document>, job: PR.Job<Document>, fault: PR.Fault)
    ensures var told := PR.Attempt(d, job, fault).told;
            && (OnSaveReply(0, ReplyTo(told)) == Reloading <==> told.Failure? && told.error.RevisionConflict?)
            && (OnSaveReply(1, ReplyTo(told)) == Failed(true) <==> told.Failure? && told.error.RevisionConflict?)
            && (told.Failure? && !told.error.RevisionConflict? ==> OnSaveReply(0, ReplyTo(told)) == Failed(false))
  {
    hide Normalize, PR.SaveData;
  }

  /** A request made from a revision that is no longer current is told so, and changes nothing. */
  lemma StaleIsRefused(v: Service, s: Sys, t: nat, requestId: string)
    requires LogOk(v, s) && t < |s.tasks| && s.tasks[t].wire.Pending? && s.tasks[t].wire.base < |s.log|
    requires Accepts(v.lex, v.catalog, s.tasks[t].wire.next) && 1 <= |requestId| <= 100
    ensures var n := Step(v, s, Serve(t, requestId, PR.NoFault));
            n == SetTask(s, t, s.tasks[t].client, Answered(ApiError(409, "revision_conflict")))
  {
    hide Accepts;
    var job := PR.Job(PROFILE, s.tasks[t].wire.base, s.tasks[t].wire.next, requestId);
    PR.AttemptIsAtomic(s.data, Jobs(s.log), job, PR.NoFault);
    assert PR.CurrentRevision(s.data) == |s.log|;
    hide PR.Keeps, PR.SaveData;
  }

  /** Refused once, the head drops its request and asks for the current profile. */
  lemma RefusedReloads(v: Service, s: Sys, tab: nat, t: nat)
    requires TabOf(s, tab).queue != [] && TabOf(s, tab).queue[0] == t && t < |s.tasks|
    requires s.tasks[t].client.Awaiting? && s.tasks[t].client.attempt == 0
    requires s.tasks[t].wire == Answered(ApiError(409, "revision_conflict"))
    ensures Step(v, s, Receive(tab)) == SetTask(s, t, Reloading, Silent)
  {
  }

  /** Reloaded at the newest revision, it sends its update of that revision's state. */
  lemma ReloadResends(v: Service, s: Sys, tab: nat, t: nat, now: string, newest: Ready, next: Document)
    requires TabOf(s, tab).queue != [] && TabOf(s, tab).queue[0] == t && t < |s.tasks| && s.tasks[t].client.Reloading?
    requires Normalize(LoadedAt(s.log, |s.log|)) == Some(newest)
    requires Next(Restamped(s.tasks[t].update, now), newest.state) == Some(next)
    ensures newest.revision == |s.log|
    ensures Step(v, s, Reload(tab, |s.log|, now)) ==
            SetTask(Restamp(s, t, now), t, Awaiting(1, newest, next), Pending(|s.log|, next))
  {
    NormalizeKeepsRevision(LoadedAt(s.log, |s.log|));
    hide Normalize, Next, Restamped;
  }

  lemma SavedSettles(v: Service, s: Sys, tab: nat, t: nat, revision: nat, next: Document)
    requires TabOf(s, tab).queue != [] && TabOf(s, tab).queue[0] == t && t < |s.tasks| && s.tasks[t].client.Awaiting?
    requires Full(next) && s.tasks[t].wire == Answered(Saved(Loaded(revision, Some(next))))
    ensures var n := Step(v, s, Receive(tab));
            && n.log == s.log && TabOf(n, tab) == Tab(Some(Ready(revision, next)), TabOf(s, tab).queue[1..])
            && |n.tasks| == |s.tasks| && n.tasks[t].client == Succeeded(Ready(revision, next))
  {
    NormalizeFixesFull(revision, next);
    hide Normalize, Full;
  }

  /** A head whose request was made from revision `base`, still unserved. */
  ghost predicate StaleHead(s: Sys, tab: nat, t: nat) {
    && TabOf(s, tab).queue != [] && TabOf(s, tab).queue[0] == t && t < |s.tasks|
    && s.tasks[t].client.Awaiting? && s.tasks[t].client.attempt == 0
    && s.tasks[t].wire.Pending? && s.tasks[t].wire.base < |s.log|
  }

  /** The update, called again at `now` on the newest state, gives `next`, which the service accepts. */
  ghost predicate Reapplies(v: Service, s: Sys, t: nat, now: string, next: Document)
    requires t < |s.tasks|
  {
    var newest := Normalize(LoadedAt(s.log, |s.log|));
    && newest.Some? && Next(Restamped(s.tasks[t].update, now), newest.value.state) == Some(next)
    && Accepts(v.lex, v.catalog, next)
  }

  /** The first half: served and refused, told, reloaded and sent again. */
  ghost function Resent(v: Service, s: Sys, tab: nat, t: nat, now: string): Sys {
    Step(v, Step(v, Step(v, s, Serve(t, REQUEST_ID, PR.NoFault)), Receive(tab)), Reload(tab, |s.log|, now))
  }

  lemma ResentKeeps(v: Service, s: Sys, tab: nat, t: nat, now: string)
    requires Inv(v, s)
    ensures Inv(v, Resent(v, s, tab, t, now))
  {
    hide Step, Inv;
    var a := Step(v, s, Serve(t, REQUEST_ID, PR.NoFault));
    StepKeeps(v, s, Serve(t, REQUEST_ID, PR.NoFault));
    StepKeeps(v, a, Receive(tab));
    StepKeeps(v, Step(v, a, Receive(tab)), Reload(tab, |s.log|, now));
  }

  lemma SentAgain(v: Service, s: Sys, tab: nat, t: nat, now: string, next: Document)
    requires Inv(v, s) && StaleHead(s, tab, t) && Accepts(v.lex, v.catalog, s.tasks[t].wire.next)
    requires Reapplies(v, s, t, now, next)
    ensures var n := Resent(v, s, tab, t, now);
            && n.log == s.log && TabOf(n, tab) == TabOf(s, tab) && |n.tasks| == |s.tasks| && Full(next)
            && n.tasks[t].client.Awaiting? && n.tasks[t].wire == Pending(|s.log|, next)
  {
    InvHasLog(v, s);
    NormalizeIsFull(LoadedAt(s.log, |s.log|));
    var newest := Normalize(LoadedAt(s.log, |s.log|)).value;
    NextIsFull(Restamped(s.tasks[t].update, now), newest.state);
    hide Step, Inv, LogOk, Accepts, Normalize, Next, Restamped, Full;
    StaleIsRefused(v, s, t, REQUEST_ID);
    var told := Step(v, s, Serve(t, REQUEST_ID, PR.NoFault));
    RefusedReloads(v, told, tab, t);
    var reloading := Step(v, told, Receive(tab));
    ReloadResends(v, reloading, tab, t, now, newest, next);
  }

  /** Progress: a head that has fallen behind, once served, answered, reloaded at the newest revision, served and
      answered again, commits its update of that revision, and the tab shows the result. */
  lemma StaleHeadRecovers(v: Service, s: Sys, tab: nat, t: nat, now: string, next: Document)
    requires Inv(v, s) && StaleHead(s, tab, t) && Accepts(v.lex, v.catalog, s.tasks[t].wire.next)
    requires Reapplies(v, s, t, now, next)
    ensures var n := Step(v, Step(v, Resent(v, s, tab, t, now), Serve(t, REQUEST_ID, PR.NoFault)), Receive(tab));
            && n.log == s.log + [Entry(Some(t), PR.Job(PROFILE, |s.log|, next, REQUEST_ID))]
            && t < |n.tasks| && n.tasks[t].client == Succeeded(Ready(|s.log| + 1, next))
            && TabOf(n, tab) == Tab(Some(Ready(|s.log| + 1, next)), TabOf(s, tab).queue[1..])
  {
    hide Resent, Step, Inv, Accepts, Full, Normalize, Next, TabOf;
    ResentKeeps(v, s, tab, t, now);
    SentAgain(v, s, tab, t, now, next);
    SecondTry(v, Resent(v, s, tab, t, now), tab, t, next);
  }

  /** The second half: served from the newest revision, it commits and settles. */
  lemma SecondTry(v: Service, c: Sys, tab: nat, t: nat, next: Document)
    requires Inv(v, c) && TabOf(c, tab).queue != [] && TabOf(c, tab).queue[0] == t && t < |c.tasks|
    requires c.tasks[t].client.Awaiting? && c.tasks[t].wire == Pending(|c.log|, next)
    requires Full(next) && Accepts(v.lex, v.catalog, next)
    ensures var n := Step(v, Step(v, c, Serve(t, REQUEST_ID, PR.NoFault)), Receive(tab));
            && n.log == c.log + [Entry(Some(t), PR.Job(PROFILE, |c.log|, next, REQUEST_ID))]
            && |n.tasks| == |c.tasks| && n.tasks[t].client == Succeeded(Ready(|c.log| + 1, next))
            && TabOf(n, tab) == Tab(Some(Ready(|c.log| + 1, next)), TabOf(c, tab).queue[1..])
  {
    hide Step, Inv, LogOk, Accepts, Full;
    InvHasLog(v, c);
    ServeAnswers(v, c, t, next);
    SavedSettles(v, Step(v, c, Serve(t, REQUEST_ID, PR.NoFault)), tab, t, |c.log| + 1, next);
  }

  // ---------------------------------------------------------------- nothing gets stuck

  /** The head has left the queue, failed or saved. */
  ghost predicate HeadDone(s: Sys, n: Sys, tab: nat) {
    TabOf(s, tab).queue != [] && TabOf(n, tab).queue == TabOf(s, tab).queue[1..]
    && var t := TabOf(s, tab).queue[0]; t < |n.tasks| && Settled(n.tasks[t].client)
  }

  ghost predicate HeadIs(s: Sys, tab: nat, t: nat) {
    TabOf(s, tab).queue != [] && TabOf(s, tab).queue[0] == t && t < |s.tasks|
  }

  /** A waiting head that starts has sent a request or is done; without a loaded profile it fails. */
  lemma StartMoves(v: Service, s: Sys, tab: nat, t: nat)
    requires HeadIs(s, tab, t) && s.tasks[t].client.Queued?
    ensures var n := Step(v, s, Start(tab));
            t < |n.tasks|
            && ((n.tasks[t].wire.Pending? && n.tasks[t].client.Awaiting? && n.tabs == s.tabs) || HeadDone(s, n, tab))
    ensures TabOf(s, tab).cache.None? ==> Step(v, s, Start(tab)).tasks[t].client == Failed(false)
  {
    hide Normalize, Next;
  }

  /** Every request the service handles gets an answer; one with a refused state gets 422 and changes nothing. */
  lemma ServeMoves(v: Service, s: Sys, t: nat, requestId: string, fault: PR.Fault)
    requires t < |s.tasks| && s.tasks[t].wire.Pending?
    ensures var n := Step(v, s, Serve(t, requestId, fault));
            && t < |n.tasks| && n.tasks[t].wire.Answered? && n.tasks[t].client == s.tasks[t].client && n.tabs == s.tabs
            && (!Accepts(v.lex, v.catalog, s.tasks[t].wire.next) ==>
                 n == SetTask(s, t, s.tasks[t].client, Answered(ApiError(422, "state_invalid"))))
  {
    hide Accepts, PR.SaveData;
  }

  /** An answered head reloads or is done; only a lost first race reloads. */
  lemma ReceiveMoves(v: Service, s: Sys, tab: nat, t: nat)
    requires HeadIs(s, tab, t) && s.tasks[t].client.Awaiting? && s.tasks[t].wire.Answered?
    ensures var n := Step(v, s, Receive(tab));
            t < |n.tasks| && ((n.tasks[t].client.Reloading? && s.tasks[t].client.attempt == 0) || HeadDone(s, n, tab))
  {
    hide Normalize;
  }

  /** A reloading head that gets a profile has sent again or is done, and will not reload a second time. */
  lemma ReloadMoves(v: Service, s: Sys, tab: nat, t: nat, revision: nat, now: string)
    requires HeadIs(s, tab, t) && s.tasks[t].client.Reloading? && revision <= |s.log|
    ensures var n := Step(v, s, Reload(tab, revision, now));
            t < |n.tasks|
            && ((n.tasks[t].wire.Pending? && n.tasks[t].client.Awaiting? && n.tasks[t].client.attempt == 1) || HeadDone(s, n, tab))
  {
    hide Normalize, Next, Restamped;
  }

  /** Giving up ends the head and leaves its request, if any, where it is. */
  lemma GiveUpMoves(v: Service, s: Sys, tab: nat, t: nat)
    requires HeadIs(s, tab, t) && (s.tasks[t].client.Awaiting? || s.tasks[t].client.Reloading?)
    ensures var n := Step(v, s, GiveUp(tab));
            HeadDone(s, n, tab) && n.tasks[t].client == Failed(false) && n.tasks[t].wire == s.tasks[t].wire
            && TabOf(n, tab).cache == TabOf(s, tab).cache
  {
  }

  /** Another client's accepted write from the current revision commits. */
  lemma ForeignCommits(v: Service, s: Sys, job: PR.Job<Document>)
    requires LogOk(v, s) && job.expected == |s.log| && Accepts(v.lex, v.catalog, job.state) && 1 <= |job.requestId| <= 100
    ensures Step(v, s, Foreign(job, PR.NoFault)).log == s.log + [Entry(None, job)]
  {
    hide Accepts;
    PR.SaveKeeps(s.data, Jobs(s.log), job);
    assert PR.CurrentRevision(s.data) == |s.log|;
    hide PR.Keeps, PR.SaveData;
  }
}
