/** Many service workers saving at once: every interleaving of their statements, with rollback at any point. */
module RepositoryWorkers {
  import opened Prelude
  import opened ProfileRepository

  /** How far a worker's transaction has got. Its writes stay its own until it commits. */
  datatype Phase<S> =
    | Begun
    | Locked
    | Selected(seen: Option<Row<S>>)
    | Wrote(row: Row<S>)
    | Inserted(row: Row<S>)
    | Trimmed(row: Row<S>, doomed: set<nat>)

  datatype Worker<S> = Worker(job: Job<S>, phase: Phase<S>)

  /** A finished save: its job, the one fault it amounts to, and what its caller was told. */
  datatype Ended<S> = Ended(job: Job<S>, fault: Fault, told: Result<Row<S>, SaveError>)

  /** The committed tables, the advisory locks by key, the open transactions, the commits so far, and the saves
      that have ended, in order. */
  datatype Sys<S> = Sys(db: map<string, ProfileData<S>>, locks: map<int, nat>, workers: map<nat, Worker<S>>,
                        log: seq<Job<S>>, ended: seq<Ended<S>>)

  /** One statement of one worker: it opens a transaction, runs its next statement, is cut off, or commits
      without its caller hearing of it. */
  datatype Action<S> = Begin(worker: nat, job: Job<S>) | Advance(worker: nat) | Abort(worker: nat) | Lose(worker: nat)

  /** The advisory lock key of a profile; different profiles may share one. */
  type Hash = string -> int

  function Drop<S>(s: Sys<S>, w: nat): Sys<S> {
    s.(workers := s.workers - {w}, locks := map k | k in s.locks && s.locks[k] != w :: s.locks[k])
  }

  function End<S>(s: Sys<S>, w: nat, fault: Fault, told: Result<Row<S>, SaveError>): Sys<S>
    requires w in s.workers
  {
    Drop(s, w).(ended := s.ended + [Ended(s.workers[w].job, fault, told)])
  }

  function Enter<S>(s: Sys<S>, w: nat, phase: Phase<S>): Sys<S>
    requires w in s.workers
  {
    s.(workers := s.workers[w := s.workers[w].(phase := phase)])
  }

  /** The write statement: INSERT when the read found no row, otherwise UPDATE of whatever row is there. */
  function Write<S>(s: Sys<S>, w: nat, seen: Option<Row<S>>): Sys<S>
    requires w in s.workers
  {
    var job := s.workers[w].job;
    var now := Lookup(s.db, job.profile).row;
    if seen.None? then
      if job.expected != 0 then End(s, w, NoFault, Failure(RevisionConflict(job.expected, 0)))
      else if now.Some? then End(s, w, NoFault, Failure(UniqueViolation))
      else Enter(s, w, Wrote(Row(1, job.state)))
    else
      if seen.value.revision != job.expected then
        End(s, w, NoFault, Failure(RevisionConflict(job.expected, seen.value.revision)))
      else if now.None? then End(s, w, NoFault, Failure(QueryFailed))
      else Enter(s, w, Wrote(Row(now.value.revision + 1, job.state)))
  }

  function Commit<S>(s: Sys<S>, w: nat, row: Row<S>, doomed: set<nat>, heard: bool): Sys<S>
    requires w in s.workers
  {
    var job := s.workers[w].job;
    var history := Recorded(Lookup(s.db, job.profile).history, row.revision, job) - doomed;
    var done := s.(db := s.db[job.profile := ProfileData(Some(row), history)], log := s.log + [job]);
    if heard then End(done, w, NoFault, Success(row)) else End(done, w, CommitLost, Failure(QueryFailed))
  }

  /** What the service refuses before it opens a transaction. */
  predicate Admitted<S>(job: Job<S>) {
    job.expected >= 0 && 1 <= |job.requestId| <= 100
  }

  function Run<S>(h: Hash, s: Sys<S>, w: nat): Sys<S>
    requires w in s.workers
  {
    var Worker(job, phase) := s.workers[w];
    var data := Lookup(s.db, job.profile);
    match phase
    case Begun =>
      if h(job.profile) in s.locks then s
      else Enter(s.(locks := s.locks[h(job.profile) := w]), w, Locked)
    case Locked => Enter(s, w, Selected(data.row))
    case Selected(seen) => Write(s, w, seen)
    case Wrote(row) =>
      if row.revision in data.history then End(s, w, NoFault, Failure(UniqueViolation)) else Enter(s, w, Inserted(row))
    case Inserted(row) => Enter(s, w, Trimmed(row, Doomed(Recorded(data.history, row.revision, job))))
    case Trimmed(row, doomed) => Commit(s, w, row, doomed, true)
  }

  function Step<S>(h: Hash, s: Sys<S>, a: Action<S>): Sys<S> {
    match a
    case Begin(w, job) =>
      if w in s.workers || !Admitted(job) then s else s.(workers := s.workers[w := Worker(job, Begun)])
    case Advance(w) => if w in s.workers then Run(h, s, w) else s
    case Abort(w) => if w in s.workers then End(s, w, AtLock, Failure(QueryFailed)) else s
    case Lose(w) =>
      if w in s.workers && s.workers[w].phase.Trimmed? then
        Commit(s, w, s.workers[w].phase.row, s.workers[w].phase.doomed, false)
      else s
  }

  function Exec<S>(h: Hash, actions: seq<Action<S>>): Sys<S> {
    if actions == [] then Sys(map[], map[], map[], [], [])
    else Step(h, Exec(h, actions[..|actions| - 1]), actions[|actions| - 1])
  }

  // ---------------------------------------------------------------- serial reference

  /** The same commits performed one after another by the single-user save. */
  function Replay<S>(log: seq<Job<S>>): Option<map<string, ProfileData<S>>> {
    if log == [] then Some(map[])
    else
      var job := log[|log| - 1];
      match Replay(log[..|log| - 1])
      case None => None
      case Some(db) =>
        var saved := SaveData(Lookup(db, job.profile), job);
        if saved.Success? then Some(db[job.profile := saved.value]) else None
  }

  /** The ended saves performed one after another, each as one atomic attempt under its fault; None as soon as
      one would have told its caller something else. */
  ghost function Atomically<S>(ended: seq<Ended<S>>): Option<map<string, ProfileData<S>>> {
    if ended == [] then Some(map[])
    else
      var Ended(job, fault, told) := ended[|ended| - 1];
      match Atomically(ended[..|ended| - 1])
      case None => None
      case Some(db) =>
        var outcome := Attempt(Lookup(db, job.profile), job, fault);
        if outcome.told == told then Some(Install(db, job.profile, outcome.durable)) else None
  }

  function CommitsOf<S>(log: seq<Job<S>>, profile: string): seq<Job<S>> {
    if log == [] then []
    else
      var job := log[|log| - 1];
      CommitsOf(log[..|log| - 1], profile) + if job.profile == profile then [job] else []
  }

  lemma {:induction false} ReplayKeeps<S>(log: seq<Job<S>>, profile: string)
    requires Replay(log).Some?
    ensures Keeps(Lookup(Replay(log).value, profile), CommitsOf(log, profile))
  {
    if log != [] {
      var init, job := log[..|log| - 1], log[|log| - 1];
      ReplayKeeps(init, profile);
      SaveKeeps(Lookup(Replay(init).value, profile), CommitsOf(init, profile), job);
    }
  }

  // ---------------------------------------------------------------- the invariant

  ghost predicate HoldsLock<S>(h: Hash, s: Sys<S>, w: nat)
    requires w in s.workers
  {
    h(s.workers[w].job.profile) in s.locks && s.locks[h(s.workers[w].job.profile)] == w
  }

  /** What a worker past its lock knows is still true of the committed tables. */
  ghost predicate Current<S>(worker: Worker<S>, data: ProfileData<S>) {
    var job := worker.job;
    match worker.phase
    case Begun => true
    case Locked => true
    case Selected(seen) => seen == data.row
    case Wrote(row) => !Conflicts(data, job.expected) && row == NextRow(data, job)
    case Inserted(row) => !Conflicts(data, job.expected) && row == NextRow(data, job) && row.revision !in data.history
    case Trimmed(row, doomed) =>
      && !Conflicts(data, job.expected) && row == NextRow(data, job) && row.revision !in data.history
      && doomed == Doomed(Recorded(data.history, row.revision, job))
  }

  ghost predicate Inv<S>(h: Hash, s: Sys<S>) {
    && Replay(s.log) == Some(s.db) && Atomically(s.ended) == Some(s.db)
    && (forall w :: w in s.workers ==> Admitted(s.workers[w].job))
    && (forall w :: w in s.workers && !s.workers[w].phase.Begun? ==>
         HoldsLock(h, s, w) && Current(s.workers[w], Lookup(s.db, s.workers[w].job.profile)))
  }

  /** An ended save that changes nothing: it told its caller what an atomic attempt would have told. */
  lemma EndKeeps<S>(h: Hash, s: Sys<S>, w: nat, fault: Fault, told: Result<Row<S>, SaveError>)
    requires Inv(h, s) && w in s.workers
    requires Attempt(Lookup(s.db, s.workers[w].job.profile), s.workers[w].job, fault) == Outcome(told, None)
    ensures Inv(h, End(s, w, fault, told))
  {
    hide Current, Replay, Attempt;
    var t := End(s, w, fault, told);
    assert t.ended[..|s.ended|] == s.ended;
    forall v | v in t.workers && !t.workers[v].phase.Begun?
      ensures HoldsLock(h, t, v) && Current(t.workers[v], Lookup(t.db, t.workers[v].job.profile))
    {
      assert HoldsLock(h, s, v);
    }
  }

  /** Cutting a save off at any point is a query that failed. */
  lemma AbortKeeps<S>(h: Hash, s: Sys<S>, w: nat)
    requires Inv(h, s) && w in s.workers
    ensures Inv(h, End(s, w, AtLock, Failure(QueryFailed)))
  {
    assert Admitted(s.workers[w].job);
    assert Attempt(Lookup(s.db, s.workers[w].job.profile), s.workers[w].job, AtLock) == Outcome(Failure(QueryFailed), None);
    hide Attempt, Inv;
    EndKeeps(h, s, w, AtLock, Failure(QueryFailed));
  }

  lemma EnterKeeps<S>(h: Hash, s: Sys<S>, w: nat, phase: Phase<S>)
    requires Inv(h, s) && w in s.workers && HoldsLock(h, s, w)
    requires Current(Worker(s.workers[w].job, phase), Lookup(s.db, s.workers[w].job.profile))
    ensures Inv(h, Enter(s, w, phase))
  {
    hide Current, Replay, Atomically;
  }

  /** The commit of a worker that has kept its lock is one atomic attempt, heard of or not. */
  lemma CommitIsAttempt<S>(s: Sys<S>, w: nat, heard: bool)
    requires w in s.workers && s.workers[w].phase.Trimmed? && Admitted(s.workers[w].job)
    requires Current(s.workers[w], Lookup(s.db, s.workers[w].job.profile))
    ensures var Worker(job, phase) := s.workers[w];
            var d := Lookup(s.db, job.profile);
            var t, saved := Commit(s, w, phase.row, phase.doomed, heard), SaveData(d, job);
            var fault := if heard then NoFault else CommitLost;
            var told := if heard then Success(phase.row) else Failure(QueryFailed);
            && saved.Success? && t.db == s.db[job.profile := saved.value]
            && t.ended == s.ended + [Ended(job, fault, told)]
            && Attempt(d, job, fault) == Outcome(told, Some(saved.value))
  {
  }

  /** So the serial references follow it. */
  lemma CommitIsSerial<S>(s: Sys<S>, w: nat, heard: bool)
    requires w in s.workers && s.workers[w].phase.Trimmed? && Admitted(s.workers[w].job)
    requires Current(s.workers[w], Lookup(s.db, s.workers[w].job.profile))
    requires Replay(s.log) == Some(s.db) && Atomically(s.ended) == Some(s.db)
    ensures var t := Commit(s, w, s.workers[w].phase.row, s.workers[w].phase.doomed, heard);
            Replay(t.log) == Some(t.db) && Atomically(t.ended) == Some(t.db)
  {
    hide SaveData, Attempt, Current, Recorded, Admitted, Replay, Atomically;
    CommitIsAttempt(s, w, heard);
    var t := Commit(s, w, s.workers[w].phase.row, s.workers[w].phase.doomed, heard);
    ReplayStep(s.log, t.log, s.db, s.workers[w].job);
    AtomicStep(s.ended, t.ended, s.db);
  }

  lemma ReplayStep<S>(log: seq<Job<S>>, longer: seq<Job<S>>, db: map<string, ProfileData<S>>, job: Job<S>)
    requires Replay(log) == Some(db) && longer == log + [job] && SaveData(Lookup(db, job.profile), job).Success?
    ensures Replay(longer) == Some(db[job.profile := SaveData(Lookup(db, job.profile), job).value])
  {
    hide SaveData;
    assert longer[..|log|] == log;
  }

  lemma AtomicStep<S>(ended: seq<Ended<S>>, longer: seq<Ended<S>>, db: map<string, ProfileData<S>>)
    requires Atomically(ended) == Some(db) && |longer| == |ended| + 1 && longer[..|ended|] == ended
    requires var last := longer[|ended|]; Attempt(Lookup(db, last.job.profile), last.job, last.fault).told == last.told
    ensures var last := longer[|ended|];
            Atomically(longer) ==
              Some(Install(db, last.job.profile, Attempt(Lookup(db, last.job.profile), last.job, last.fault).durable))
  {
    hide Attempt;
  }

  /** A commit changes one profile, whose lock its worker holds, so nobody else's knowledge goes stale. */
  lemma CommitKeeps<S>(h: Hash, s: Sys<S>, w: nat, heard: bool)
    requires Inv(h, s) && w in s.workers && s.workers[w].phase.Trimmed?
    ensures Inv(h, Commit(s, w, s.workers[w].phase.row, s.workers[w].phase.doomed, heard))
  {
    hide SaveData, Current, Recorded, Attempt, Replay, Atomically, Admitted;
    CommitIsSerial(s, w, heard);
    OthersStayCurrent(h, s, w, Commit(s, w, s.workers[w].phase.row, s.workers[w].phase.doomed, heard));
  }

  lemma OthersStayCurrent<S>(h: Hash, s: Sys<S>, w: nat, t: Sys<S>)
    requires Inv(h, s) && w in s.workers && HoldsLock(h, s, w)
    requires t.workers == s.workers - {w} && t.locks == Drop(s, w).locks
    requires forall p :: p != s.workers[w].job.profile ==> Lookup(t.db, p) == Lookup(s.db, p)
    ensures forall v :: v in t.workers && !t.workers[v].phase.Begun? ==>
              HoldsLock(h, t, v) && Current(t.workers[v], Lookup(t.db, t.workers[v].job.profile))
  {
    hide Current, Replay, Atomically;
    forall v | v in t.workers && !t.workers[v].phase.Begun?
      ensures HoldsLock(h, t, v) && Current(t.workers[v], Lookup(t.db, t.workers[v].job.profile))
    {
      assert HoldsLock(h, s, v);
    }
  }

  lemma WriteKeeps<S>(h: Hash, s: Sys<S>, w: nat)
    requires Inv(h, s) && w in s.workers && s.workers[w].phase.Selected?
    ensures Inv(h, Run(h, s, w))
  {
    var Worker(job, phase) := s.workers[w];
    assert HoldsLock(h, s, w) && Current(s.workers[w], Lookup(s.db, job.profile));
    hide Replay, Atomically;
    var data := Lookup(s.db, job.profile);
    if Conflicts(data, job.expected) {
      EndKeeps(h, s, w, NoFault, Failure(RevisionConflict(job.expected, CurrentRevision(data))));
    } else {
      EnterKeeps(h, s, w, Wrote(NextRow(data, job)));
    }
  }

  lemma LockKeeps<S>(h: Hash, s: Sys<S>, w: nat)
    requires Inv(h, s) && w in s.workers && s.workers[w].phase.Begun? && h(s.workers[w].job.profile) !in s.locks
    ensures Inv(h, Run(h, s, w))
  {
    hide Current, Replay;
    var worker := s.workers[w];
    var t := s.(locks := s.locks[h(worker.job.profile) := w]);
    forall v | v in t.workers && !t.workers[v].phase.Begun? ensures HoldsLock(h, t, v) {
      assert HoldsLock(h, s, v);
    }
    assert Current(Worker(worker.job, Locked), Lookup(s.db, worker.job.profile)) by { LockedKnowsNothing(worker.job, Lookup(s.db, worker.job.profile)); }
    EnterKeeps(h, t, w, Locked);
  }

  lemma LockedKnowsNothing<S>(job: Job<S>, data: ProfileData<S>)
    ensures Current(Worker(job, Locked), data)
  {
  }

  lemma StepKeeps<S>(h: Hash, s: Sys<S>, a: Action<S>)
    requires Inv(h, s)
    ensures Inv(h, Step(h, s, a))
  {
    match a
    case Begin(w, job) =>
      hide Current, Replay, Atomically;
    case Abort(w) => if w in s.workers { AbortKeeps(h, s, w); }
    case Lose(w) => if w in s.workers && s.workers[w].phase.Trimmed? { CommitKeeps(h, s, w, false); }
    case Advance(w) => if w in s.workers { AdvanceKeeps(h, s, w); }
  }

  lemma AdvanceKeeps<S>(h: Hash, s: Sys<S>, w: nat)
    requires Inv(h, s) && w in s.workers
    ensures Inv(h, Run(h, s, w))
  {
    var Worker(job, phase) := s.workers[w];
    var data := Lookup(s.db, job.profile);
    if !phase.Begun? { assert HoldsLock(h, s, w) && Current(s.workers[w], data); }
    match phase
    case Begun => if h(job.profile) !in s.locks { LockKeeps(h, s, w); }
    case Locked => EnterKeeps(h, s, w, Selected(data.row));
    case Selected(seen) => WriteKeeps(h, s, w);
    case Wrote(row) => InsertKeeps(h, s, w);
    case Inserted(row) =>
      EnterKeeps(h, s, w, Trimmed(row, Doomed(Recorded(data.history, row.revision, job))));
    case Trimmed(row, doomed) => CommitKeeps(h, s, w, true);
  }

  /** The history insert finds no row of its revision: the tables are well kept. */
  lemma InsertKeeps<S>(h: Hash, s: Sys<S>, w: nat)
    requires Inv(h, s) && w in s.workers && s.workers[w].phase.Wrote?
    ensures Inv(h, Run(h, s, w))
  {
    var Worker(job, phase) := s.workers[w];
    var data := Lookup(s.db, job.profile);
    assert HoldsLock(h, s, w) && Current(s.workers[w], data);
    ReplayKeeps(s.log, job.profile);
    assert phase.row.revision !in data.history;
    EnterKeeps(h, s, w, Inserted(phase.row));
  }

  lemma {:induction false} ExecKeeps<S>(h: Hash, actions: seq<Action<S>>)
    ensures Inv(h, Exec(h, actions))
  {
    if actions != [] {
      ExecKeeps(h, actions[..|actions| - 1]);
      StepKeeps(h, Exec(h, actions[..|actions| - 1]), actions[|actions| - 1]);
    }
  }

  // ---------------------------------------------------------------- results

  /** Every interleaving leaves the tables that its commits, saved one at a time, would leave. */
  lemma CommitsAreSerial<S>(h: Hash, actions: seq<Action<S>>)
    ensures var s := Exec(h, actions); Replay(s.log) == Some(s.db)
  {
    ExecKeeps(h, actions);
  }

  /** Every interleaving is atomic: the saves that have ended, performed one after another as single attempts,
      each under one fault, leave the same tables and tell every caller the same. */
  lemma SavesAreAtomic<S>(h: Hash, actions: seq<Action<S>>)
    ensures var s := Exec(h, actions); Atomically(s.ended) == Some(s.db)
  {
    ExecKeeps(h, actions);
  }

  /** On every run and for every profile: the live row is the last commit, revisions count the commits,
      and history is exactly revisions max(1, r - 199) to r, newest equal to the live state. */
  lemma TablesAreWellKept<S>(h: Hash, actions: seq<Action<S>>, profile: string)
    ensures var s := Exec(h, actions); Keeps(Lookup(s.db, profile), CommitsOf(s.log, profile))
  {
    ExecKeeps(h, actions);
    ReplayKeeps(Exec(h, actions).log, profile);
  }

  lemma {:induction false} CommitsOfAt<S>(log: seq<Job<S>>, i: nat, j: nat)
    requires i <= j <= |log|
    ensures forall p :: |CommitsOf(log[..i], p)| <= |CommitsOf(log[..j], p)|
    ensures i < j ==> |CommitsOf(log[..i], log[i].profile)| < |CommitsOf(log[..j], log[i].profile)|
  {
    if i < j {
      CommitsOfAt(log, i, j - 1);
      assert log[..j][..j - 1] == log[..j - 1];
    }
  }

  lemma {:induction false} ReplayPrefix<S>(log: seq<Job<S>>, i: nat)
    requires Replay(log).Some? && i <= |log|
    ensures Replay(log[..i]).Some?
  {
    if i < |log| {
      ReplayPrefix(log[..|log| - 1], i);
      assert log[..|log| - 1][..i] == log[..i];
    } else {
      assert log[..i] == log;
    }
  }

  /** At most one writer ever commits from a given revision of a profile, and the revisions they
      commit from go up by exactly one. */
  lemma OneWinnerPerRevision<S>(h: Hash, actions: seq<Action<S>>, i: nat, j: nat)
    requires i < j < |Exec(h, actions).log|
    ensures var log := Exec(h, actions).log;
            && log[i].expected == |CommitsOf(log[..i], log[i].profile)|
            && (log[i].profile == log[j].profile ==> log[i].expected < log[j].expected)
  {
    var log := Exec(h, actions).log;
    ExecKeeps(h, actions);
    ExpectedCounts(log, i);
    ExpectedCounts(log, j);
    CommitsOfAt(log, i, j);
  }

  lemma ExpectedCounts<S>(log: seq<Job<S>>, i: nat)
    requires Replay(log).Some? && i < |log|
    ensures log[i].expected == |CommitsOf(log[..i], log[i].profile)|
  {
    ReplayPrefix(log, i + 1);
    ReplayPrefix(log, i);
    assert log[..i + 1][..i] == log[..i];
    ReplayKeeps(log[..i], log[i].profile);
    SaveKeeps(Lookup(Replay(log[..i]).value, log[i].profile), CommitsOf(log[..i], log[i].profile), log[i]);
  }

  /** Two transactions past the lock never share a lock key, hence never a profile. */
  lemma LockedProfilesDiffer<S>(h: Hash, actions: seq<Action<S>>, v: nat, w: nat)
    requires var s := Exec(h, actions);
             v != w && v in s.workers && w in s.workers && !s.workers[v].phase.Begun? && !s.workers[w].phase.Begun?
    ensures var s := Exec(h, actions); h(s.workers[v].job.profile) != h(s.workers[w].job.profile)
  {
    ExecKeeps(h, actions);
    var s := Exec(h, actions);
    assert HoldsLock(h, s, v) && HoldsLock(h, s, w);
  }

  /** No statement of a running save is ever refused by a key: a worker drops out at its next statement
      exactly when it commits, or when its expected revision really is not the current one. */
  lemma OnlyConflictsEndASave<S>(h: Hash, actions: seq<Action<S>>, w: nat)
    requires w in Exec(h, actions).workers
    ensures var s := Exec(h, actions);
            var worker := s.workers[w];
            w !in Step(h, s, Advance(w)).workers <==>
              worker.phase.Trimmed? ||
              (worker.phase.Selected? && Conflicts(Lookup(s.db, worker.job.profile), worker.job.expected))
  {
    ExecKeeps(h, actions);
    var s := Exec(h, actions);
    var worker := s.workers[w];
    var data := Lookup(s.db, worker.job.profile);
    TablesAreWellKept(h, actions, worker.job.profile);
    SaveKeeps(data, CommitsOf(s.log, worker.job.profile), worker.job);
    if !worker.phase.Begun? { assert Current(worker, data); }
  }

  // ---------------------------------------------------------------- progress

  /** The statements of one save, one after another. */
  function Alone<S>(h: Hash, s: Sys<S>, w: nat, job: Job<S>): Sys<S> {
    var a := Step(h, Step(h, Step(h, s, Begin(w, job)), Advance(w)), Advance(w));
    Step(h, Step(h, Step(h, Step(h, a, Advance(w)), Advance(w)), Advance(w)), Advance(w))
  }

  /** A worker that nobody disturbs, whose lock key is free and whose revision is current, commits and tells. */
  lemma LoneWorkerCommits<S>(h: Hash, actions: seq<Action<S>>, w: nat, job: Job<S>)
    requires var s := Exec(h, actions);
             && w !in s.workers && h(job.profile) !in s.locks && Admitted(job)
             && !Conflicts(Lookup(s.db, job.profile), job.expected)
    ensures var s := Exec(h, actions);
            var n := Alone(h, s, w, job);
            && n.log == s.log + [job] && w !in n.workers && h(job.profile) !in n.locks
            && n.ended == s.ended + [Ended(job, NoFault, Success(NextRow(Lookup(s.db, job.profile), job)))]
  {
    var s := Exec(h, actions);
    TablesAreWellKept(h, actions, job.profile);
    SaveKeeps(Lookup(s.db, job.profile), CommitsOf(s.log, job.profile), job);
    hide Exec, Replay, CommitsOf, Doomed, Keeps;
    UpToTheWrite(h, s, w, job);
    FromTheWrite(h, Written(h, s, w, job), w, job);
  }

  /** After the write statement: begun, locked, selected, written. */
  function Written<S>(h: Hash, s: Sys<S>, w: nat, job: Job<S>): Sys<S> {
    s.(workers := s.workers[w := Worker(job, Wrote(NextRow(Lookup(s.db, job.profile), job)))],
       locks := s.locks[h(job.profile) := w])
  }

  lemma UpToTheWrite<S>(h: Hash, s: Sys<S>, w: nat, job: Job<S>)
    requires w !in s.workers && h(job.profile) !in s.locks && Admitted(job) && !Conflicts(Lookup(s.db, job.profile), job.expected)
    ensures Step(h, Step(h, Step(h, Step(h, s, Begin(w, job)), Advance(w)), Advance(w)), Advance(w)) == Written(h, s, w, job)
  {
    var d := Lookup(s.db, job.profile);
    var begun := Step(h, s, Begin(w, job));
    var locked := Step(h, begun, Advance(w));
    assert locked == s.(workers := s.workers[w := Worker(job, Locked)], locks := s.locks[h(job.profile) := w]);
    var selected := Step(h, locked, Advance(w));
    assert selected == locked.(workers := s.workers[w := Worker(job, Selected(d.row))]);
  }

  lemma FromTheWrite<S>(h: Hash, s: Sys<S>, w: nat, job: Job<S>)
    requires w in s.workers && s.workers[w].job == job && s.workers[w].phase.Wrote?
    requires h(job.profile) in s.locks && s.locks[h(job.profile)] == w
    requires s.workers[w].phase.row.revision !in Lookup(s.db, job.profile).history
    ensures var n := Step(h, Step(h, Step(h, s, Advance(w)), Advance(w)), Advance(w));
            && n.log == s.log + [job] && w !in n.workers && h(job.profile) !in n.locks
            && n.ended == s.ended + [Ended(job, NoFault, Success(s.workers[w].phase.row))]
  {
    hide Doomed, Recorded;
    var row := s.workers[w].phase.row;
    var inserted := Step(h, s, Advance(w));
    assert inserted == s.(workers := s.workers[w := Worker(job, Inserted(row))]);
  }

  /** Cutting a worker off frees its lock and tells its caller; losing the answer to a commit does too, and commits. */
  lemma EndsFreeTheLock<S>(h: Hash, s: Sys<S>, w: nat)
    requires w in s.workers && HoldsLock(h, s, w)
    ensures var job, n := s.workers[w].job, Step(h, s, Abort(w));
            && w !in n.workers && h(job.profile) !in n.locks && n.db == s.db && n.log == s.log
            && n.ended == s.ended + [Ended(job, AtLock, Failure(QueryFailed))]
    ensures s.workers[w].phase.Trimmed? ==>
              var job, n := s.workers[w].job, Step(h, s, Lose(w));
              && w !in n.workers && h(job.profile) !in n.locks && n.log == s.log + [job]
              && n.ended == s.ended + [Ended(job, CommitLost, Failure(QueryFailed))]
  {
    hide Recorded;
  }
}
