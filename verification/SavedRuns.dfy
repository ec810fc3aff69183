/** What the save protocol guarantees the learner on every run: one fold of updates, XP paid once, no refusals. */
module SavedRuns {
  import opened Prelude
  import opened Contracts
  import opened RecallScorer
  import opened StateValidator
  import opened ProfileState
  import opened SyncProtocol
  import opened RewardLedger
  import opened AcceptedSaves
  import opened RecallHistory

  // ---------------------------------------------------------------- the fold

  /** Every commit from revision `r0` up to `r` came from a tab. */
  ghost predicate TabsOnly(s: Sys, r0: nat, r: nat) {
    r0 <= r <= |s.log| &&
    forall i :: r0 <= i < r ==> s.log[i].author.Some? && s.log[i].author.value < |s.tasks|
  }

  /** The updates committed after revision `r0` up to revision `r`, in commit order. */
  ghost function Committed(s: Sys, r0: nat, r: nat): (updates: seq<Update>)
    requires TabsOnly(s, r0, r)
    ensures |updates| == r - r0
    ensures forall i :: r0 <= i < r ==> updates[i - r0] == s.tasks[s.log[i].author.value].update
    decreases r
  {
    if r == r0 then [] else Committed(s, r0, r - 1) + [s.tasks[s.log[r - 1].author.value].update]
  }

  ghost predicate Readable(s: Sys, r: nat) {
    r <= |s.log| && Normalize(LoadedAt(s.log, r)).Some?
  }

  ghost function StateAt(s: Sys, r: nat): Document
    requires Readable(s, r)
  {
    Normalize(LoadedAt(s.log, r)).value.state
  }

  /** Commit `i` is its task's update of the state before, and reads back as it was written. */
  ghost predicate ReadsBack(s: Sys, i: nat) {
    && i < |s.log| && s.log[i].author.Some? && s.log[i].author.value < |s.tasks|
    && Readable(s, i) && Readable(s, i + 1)
    && Next(s.tasks[s.log[i].author.value].update, StateAt(s, i)) == Some(StateAt(s, i + 1))
    && StateAt(s, i + 1) == s.log[i].job.state && Full(StateAt(s, i + 1))
  }

  lemma CommitReadsBack(v: Service, s: Sys, i: nat)
    requires Inv(v, s) && i < |s.log| && s.log[i].author.Some?
    ensures ReadsBack(s, i)
  {
    hide Inv, Next, Full, StateAt, Readable;
    CommitFollows(v, s, i);
    FullReadsBack(s, i);
  }

  lemma CommitFollows(v: Service, s: Sys, i: nat)
    requires Inv(v, s) && i < |s.log| && s.log[i].author.Some?
    ensures s.log[i].author.value < |s.tasks| && Readable(s, i)
    ensures Next(s.tasks[s.log[i].author.value].update, StateAt(s, i)) == Some(s.log[i].job.state)
    ensures Full(s.log[i].job.state)
  {
    hide Inv, Normalize, Next, Full, LoadedAt;
    EntryDerives(v, s, i);
    NormalizeIsFull(LoadedAt(s.log, i));
    NextIsFull(s.tasks[s.log[i].author.value].update, StateAt(s, i));
  }

  lemma FullReadsBack(s: Sys, i: nat)
    requires i < |s.log| && Full(s.log[i].job.state)
    ensures Readable(s, i + 1) && StateAt(s, i + 1) == s.log[i].job.state
  {
    hide Normalize, Full;
    NormalizeFixesFull(i + 1, s.log[i].job.state);
  }

  lemma EntryDerives(v: Service, s: Sys, i: nat)
    requires Inv(v, s) && i < |s.log| && s.log[i].author.Some?
    ensures s.log[i].author.value < |s.tasks|
    ensures Derives(s.log, i, s.tasks[s.log[i].author.value].update, s.log[i].job.state)
  {
    hide TasksOk, CachesOk, QueuesOk, OrderOk, Derives;
    assert EntryOk(s, i);
  }

  /** From any readable revision on, while only tabs commit, the state is the fold of their updates. */
  lemma {:induction false} RunsAreFolds(v: Service, s: Sys, r0: nat, r: nat)
    requires Inv(v, s) && TabsOnly(s, r0, r) && Readable(s, r0)
    ensures Readable(s, r) && After(StateAt(s, r0), Committed(s, r0, r)) == Some(StateAt(s, r))
    decreases r
  {
    hide Inv, Next, Readable, StateAt, Full;
    if r > r0 {
      RunsAreFolds(v, s, r0, r - 1);
      CommitReadsBack(v, s, r - 1);
      var updates := Committed(s, r0, r);
      assert updates[..|updates| - 1] == Committed(s, r0, r - 1);
    }
  }

  lemma FoldOfTabs(v: Service, actions: seq<Action>, r0: nat, r: nat)
    requires TabsOnly(Exec(v, actions), r0, r) && Readable(Exec(v, actions), r0)
    ensures var s := Exec(v, actions);
            Readable(s, r) && After(StateAt(s, r0), Committed(s, r0, r)) == Some(StateAt(s, r))
  {
    ExecKeeps(v, actions);
    RunsAreFolds(v, Exec(v, actions), r0, r);
  }

  // ---------------------------------------------------------------- rewards

  /** Since revision `r0`, where nothing was claimed, only tabs have committed, and their days only advance. */
  ghost predicate OrderlySince(s: Sys, r0: nat) {
    && TabsOnly(s, r0, |s.log|) && Readable(s, r0) && Claims(StateAt(s, r0)) == []
    && DaysAdvance(Committed(s, r0, |s.log|))
  }

  /** However many tabs save, race, retry or give up: no two commits pay for the same card and day, and XP is
      the opening XP plus exactly those payments. */
  lemma XpIsPaidOncePerCardAndDay(v: Service, actions: seq<Action>, r0: nat)
    requires OrderlySince(Exec(v, actions), r0)
    ensures var s := Exec(v, actions);
            var grants := Grants(StateAt(s, r0), Committed(s, r0, |s.log|));
            && Readable(s, |s.log|)
            && Xp(StateAt(s, |s.log|)) == Xp(StateAt(s, r0)) + Total(grants)
            && PaidOnce(grants)
  {
    var s := Exec(v, actions);
    FoldOfTabs(v, actions, r0, |s.log|);
    NormalizeIsFull(LoadedAt(s.log, r0));
    var first, updates := StateAt(s, r0), Committed(s, r0, |s.log|);
    hide Exec, After, Grants, Full, Claims, Day, DaysAdvance, StateAt, Committed, Readable, TabsOnly, Keys;
    ClaimsAndXpFollowTheLedger(first, updates);
    OncePerCardPerDay(first, updates);
  }

  /** While only tabs commit, no attempt is lost, altered or reordered by races and retries: the stored list is
      the newest 200 of all that was recorded. Once anything is recorded the newest is selected, and a selection
      that was retained before stays so. */
  lemma EvidenceSurvivesRaces(v: Service, actions: seq<Action>, r0: nat, r: nat)
    requires TabsOnly(Exec(v, actions), r0, r) && Readable(Exec(v, actions), r0)
    ensures var s := Exec(v, actions);
            var recorded := Recorded(Committed(s, r0, r));
            && Readable(s, r)
            && Attempts(StateAt(s, r)) == Prefix(recorded + Attempts(StateAt(s, r0)), 200)
            && (recorded != [] ==> StateAt(s, r).selectedFlashAttempt == Some(Attempts(StateAt(s, r))[0].id))
            && (SelectionRetained(StateAt(s, r0)) ==> SelectionRetained(StateAt(s, r)))
  {
    var s := Exec(v, actions);
    FoldOfTabs(v, actions, r0, r);
    NormalizeIsFull(LoadedAt(s.log, r0));
    var first, updates := StateAt(s, r0), Committed(s, r0, r);
    hide Exec, Full, Recorded, StateAt, Committed, Readable, TabsOnly, Attempts, SelectionRetained;
    NewestAttemptsAreKept(first, updates);
    if SelectionRetained(first) { SelectionStaysRetained(first, updates); }
  }

  // ---------------------------------------------------------------- no refusals

  /** The service is set up as its loader promises, and the pages put only well-formed updates in their queues. */
  ghost predicate WellUsed(v: Service, s: Sys) {
    && WellKeyed(v.catalog) && |v.lex.specificity| <= 5
    && (forall t :: 0 <= t < |s.tasks| ==> WellFormed(v.lex, v.catalog, s.tasks[t].update))
  }

  function AttemptsAt(s: Sys, r: nat): seq<FlashAttempt>
    requires r <= |s.log|
  {
    if r == 0 then [] else GetOr(s.log[r - 1].job.state.flashAttempts, [])
  }

  /** No two recall tasks share an attempt id, and no foreign write holds the id of one that has not committed:
      other clients may carry attempts along, but do not invent the same ids. */
  ghost predicate FreshIds(s: Sys) {
    && TasksOwnIds(s)
    && (forall i, t :: 0 <= i < |s.log| && 0 <= t < |s.tasks| && s.log[i].author.None? && s.tasks[t].update.Recall? ==>
         HasId(AttemptsAt(s, i + 1), s.tasks[t].update.attempt.id) ==> InLog(s.log, t))
  }

  /** Normalising neither adds, drops nor renames an attempt. */
  lemma NormalizeKeepsIds(s: Sys, r: nat, id: string)
    requires Readable(s, r)
    ensures HasId(GetOr(StateAt(s, r).flashAttempts, []), id) <==> HasId(AttemptsAt(s, r), id)
  {
    var before, after := AttemptsAt(s, r), GetOr(StateAt(s, r).flashAttempts, []);
    ParseOnlyTrims(Filled(LoadedAt(s.log, r).state));
    hide SchemaAccepts;
    assert after == TidyAll(before);
    SameIds(before, id);
  }

  lemma SameIds(attempts: seq<FlashAttempt>, id: string)
    ensures HasId(TidyAll(attempts), id) <==> HasId(attempts, id)
  {
    if HasId(attempts, id) {
      var i :| 0 <= i < |attempts| && attempts[i].id == id;
      assert TidyAll(attempts)[i].id == id;
    }
  }

  /** An id in an update's result was there before or is the update's own. */
  lemma UpdateAddsOneId(u: Update, d: Document, id: string)
    requires Next(u, d).Some? && HasId(GetOr(Next(u, d).value.flashAttempts, []), id)
    ensures HasId(GetOr(d.flashAttempts, []), id) || (u.Recall? && u.attempt.id == id)
  {
    ParseOnlyTrims(Apply(u, d));
    AttemptsOfUpdate(u, d);
    hide Apply, SchemaAccepts, Parse, TidyAll, HasId, Prefix;
    SameIds(GetOr(Apply(u, d).flashAttempts, []), id);
    if u.Recall? { PrependedId(u.attempt, GetOr(d.flashAttempts, []), id); }
  }

  lemma PrependedId(a: FlashAttempt, before: seq<FlashAttempt>, id: string)
    ensures HasId(Prefix([a] + before, 200), id) ==> HasId(before, id) || a.id == id
  {
    var all := Prefix([a] + before, 200);
    if HasId(all, id) {
      var i :| 0 <= i < |all| && all[i].id == id;
      if i > 0 { assert all[i] == before[i - 1]; }
    }
  }

  lemma AttemptsOfUpdate(u: Update, d: Document)
    ensures var before, after := GetOr(d.flashAttempts, []), GetOr(Apply(u, d).flashAttempts, []);
            after == if u.Recall? then Prefix([u.attempt] + before, 200) else before
  {
    hide Reward, RewardKey, Without, Prefix;
  }

  lemma CommitAddsOneId(v: Service, s: Sys, i: nat, id: string)
    requires Inv(v, s) && i < |s.log| && s.log[i].author.Some? && HasId(AttemptsAt(s, i + 1), id)
    ensures s.log[i].author.value < |s.tasks|
    ensures var u := s.tasks[s.log[i].author.value].update;
            HasId(AttemptsAt(s, i), id) || (u.Recall? && u.attempt.id == id)
  {
    CommitReadsBack(v, s, i);
    hide Inv, HasId, StateAt, Next, Full, AttemptsAt;
    NormalizeKeepsIds(s, i + 1, id);
    NormalizeKeepsIds(s, i, id);
    UpdateAddsOneId(s.tasks[s.log[i].author.value].update, StateAt(s, i), id);
  }

  /** The task's own commit is among the first `r`. */
  ghost predicate CommittedBy(s: Sys, r: nat, t: nat)
    requires r <= |s.log|
  {
    exists i :: 0 <= i < r && s.log[i].author == Some(t)
  }

  /** A foreign write among the first `r` held the id. */
  ghost predicate BroughtIn(s: Sys, r: nat, id: string)
    requires r <= |s.log|
  {
    exists i :: 0 <= i < r && s.log[i].author.None? && HasId(AttemptsAt(s, i + 1), id)
  }

  /** Recall tasks never share an attempt id. */
  ghost predicate TasksOwnIds(s: Sys) {
    forall t, u :: 0 <= t < u < |s.tasks| && s.tasks[t].update.Recall? && s.tasks[u].update.Recall? ==>
      s.tasks[t].update.attempt.id != s.tasks[u].update.attempt.id
  }

  /** Only one task can have put the id in. */
  lemma OwnerOfId(s: Sys, b: nat, t: nat)
    requires TasksOwnIds(s) && b < |s.tasks| && t < |s.tasks| && s.tasks[b].update.Recall? && s.tasks[t].update.Recall?
    requires s.tasks[b].update.attempt.id == s.tasks[t].update.attempt.id
    ensures b == t
  {
  }

  lemma ArrivalsGrow(s: Sys, q: nat, r: nat, t: nat, id: string)
    requires q <= r <= |s.log|
    ensures CommittedBy(s, q, t) ==> CommittedBy(s, r, t)
    ensures BroughtIn(s, q, id) ==> BroughtIn(s, r, id)
  {
    hide HasId;
  }

  lemma ArrivesNow(s: Sys, r: nat, t: nat, id: string)
    requires 0 < r <= |s.log|
    ensures s.log[r - 1].author == Some(t) ==> CommittedBy(s, r, t)
    ensures s.log[r - 1].author.None? && HasId(AttemptsAt(s, r), id) ==> BroughtIn(s, r, id)
  {
    hide HasId;
  }

  /** A recall task's id is in a stored revision only if the task committed at or before it, or a foreign write
      at or before it held the id. */
  lemma {:induction false} IdsArriveByCommit(v: Service, s: Sys, r: nat, t: nat)
    requires Inv(v, s) && TasksOwnIds(s) && r <= |s.log| && t < |s.tasks| && s.tasks[t].update.Recall?
    requires HasId(AttemptsAt(s, r), s.tasks[t].update.attempt.id)
    ensures CommittedBy(s, r, t) || BroughtIn(s, r, s.tasks[t].update.attempt.id)
  {
    hide Inv, HasId, AttemptsAt, TasksOwnIds, CommittedBy, BroughtIn;
    NothingAtZero(s, s.tasks[t].update.attempt.id);
    LastArrival(v, s, r, t);
    if HasId(AttemptsAt(s, r - 1), s.tasks[t].update.attempt.id) {
      IdsArriveByCommit(v, s, r - 1, t);
      ArrivalsGrow(s, r - 1, r, t, s.tasks[t].update.attempt.id);
    }
  }

  lemma NothingAtZero(s: Sys, id: string)
    ensures !HasId(AttemptsAt(s, 0), id)
  {
  }

  /** An id in revision `r` was there before, or came with commit `r`. */
  lemma LastArrival(v: Service, s: Sys, r: nat, t: nat)
    requires Inv(v, s) && TasksOwnIds(s) && 0 < r <= |s.log| && t < |s.tasks| && s.tasks[t].update.Recall?
    requires HasId(AttemptsAt(s, r), s.tasks[t].update.attempt.id)
    ensures var id := s.tasks[t].update.attempt.id;
            HasId(AttemptsAt(s, r - 1), id) || CommittedBy(s, r, t) || BroughtIn(s, r, id)
  {
    var id := s.tasks[t].update.attempt.id;
    hide Inv, HasId, AttemptsAt, TasksOwnIds, CommittedBy, BroughtIn;
    if s.log[r - 1].author.None? {
      ArrivesNow(s, r, t, id);
    } else {
      OwnCommit(v, s, r, t);
      if s.log[r - 1].author == Some(t) { ArrivesNow(s, r, t, id); }
    }
  }

  lemma OwnCommit(v: Service, s: Sys, r: nat, t: nat)
    requires Inv(v, s) && TasksOwnIds(s) && 0 < r <= |s.log| && t < |s.tasks| && s.tasks[t].update.Recall?
    requires s.log[r - 1].author.Some? && HasId(AttemptsAt(s, r), s.tasks[t].update.attempt.id)
    ensures HasId(AttemptsAt(s, r - 1), s.tasks[t].update.attempt.id) || s.log[r - 1].author == Some(t)
  {
    hide Inv, HasId, AttemptsAt, TasksOwnIds;
    CommitAddsOneId(v, s, r - 1, s.tasks[t].update.attempt.id);
    if !HasId(AttemptsAt(s, r - 1), s.tasks[t].update.attempt.id) { OwnerOfId(s, s.log[r - 1].author.value, t); }
  }

  /** With fresh ids, that means the task is in the log. */
  lemma FreshIdsAreCommitted(s: Sys, r: nat, t: nat)
    requires FreshIds(s) && r <= |s.log| && t < |s.tasks| && s.tasks[t].update.Recall?
    requires CommittedBy(s, r, t) || BroughtIn(s, r, s.tasks[t].update.attempt.id)
    ensures InLog(s.log, t)
  {
    hide HasId;
    if BroughtIn(s, r, s.tasks[t].update.attempt.id) {
      var i :| 0 <= i < r && s.log[i].author.None? && HasId(AttemptsAt(s, i + 1), s.tasks[t].update.attempt.id);
    }
  }

  /** Every revision a tab can read is accepted, once normalised. */
  lemma RevisionsAreAccepted(v: Service, s: Sys, r: nat)
    requires Inv(v, s) && Readable(s, r)
    ensures Accepts(v.lex, v.catalog, StateAt(s, r)) && Full(StateAt(s, r))
  {
    hide Accepts, Normalize, Full;
    NormalizeIsFull(LoadedAt(s.log, r));
    NormalizeKeepsAccepted(v.lex, v.catalog, LoadedAt(s.log, r));
  }

  /** Nothing the pages send is ever refused as an invalid state: over all tabs, races, retries and foreign
      writes, every request on the wire meets every list rule of the validator and its replay of the scores. */
  lemma NoSaveIsRefused(v: Service, actions: seq<Action>, t: nat)
    requires WellUsed(v, Exec(v, actions)) && FreshIds(Exec(v, actions))
    requires t < |Exec(v, actions).tasks| && Exec(v, actions).tasks[t].wire.Pending?
    ensures Accepts(v.lex, v.catalog, Exec(v, actions).tasks[t].wire.next)
  {
    var s := Exec(v, actions);
    ExecKeeps(v, actions);
    hide Exec;
    assert TaskOk(s.log, t, s.tasks[t]);
    var u, base := s.tasks[t].update, s.tasks[t].wire.base;
    RevisionsAreAccepted(v, s, base);
    var d := StateAt(s, base);
    hide Accepts, Full, Next, Normalize, WellFormed;
    UpdateIsAccepted(v.lex, v.catalog, u, d);
    if u.Recall? && HasId(Newest(d.flashAttempts.value), u.attempt.id) {
      NewestIsPart(d.flashAttempts.value, u.attempt.id);
      NormalizeKeepsIds(s, base, u.attempt.id);
      IdsArriveByCommit(v, s, base, t);
      FreshIdsAreCommitted(s, base, t);
    }
  }

  lemma NewestIsPart(attempts: seq<FlashAttempt>, id: string)
    requires HasId(Newest(attempts), id)
    ensures HasId(attempts, id)
  {
    var i :| 0 <= i < |Newest(attempts)| && Newest(attempts)[i].id == id;
    assert attempts[i].id == id;
  }
}
