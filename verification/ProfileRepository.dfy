/** One profile save as a database transaction: compare the revision, write, record history, trim it. */
module ProfileRepository {
  import opened Prelude

  const HISTORY_LIMIT := 200

  datatype Row<+S> = Row(revision: nat, state: S)

  datatype HistoryRow<+S> = HistoryRow(state: S, requestId: string)

  /** All that is stored for one profile; every statement names its profile. */
  datatype ProfileData<S> = ProfileData(row: Option<Row<S>>, history: map<nat, HistoryRow<S>>)

  datatype Job<+S> = Job(profile: string, expected: int, state: S, requestId: string)

  datatype SaveError =
    | RevisionInvalid
    | RequestIdInvalid
    | RevisionConflict(expected: int, current: nat)
    | UniqueViolation
    | QueryFailed

  function Blank<S>(): ProfileData<S> { ProfileData(None, map[]) }

  function Lookup<S>(tables: map<string, ProfileData<S>>, profile: string): ProfileData<S> {
    if profile in tables then tables[profile] else Blank()
  }

  function CurrentRevision<S>(d: ProfileData<S>): nat {
    match d.row case None => 0 case Some(r) => r.revision
  }

  predicate Conflicts<S>(d: ProfileData<S>, expected: int) {
    CurrentRevision(d) != expected
  }

  function NextRow<S>(d: ProfileData<S>, job: Job<S>): Row<S> {
    Row(CurrentRevision(d) + 1, job.state)
  }

  function Recorded<S>(history: map<nat, HistoryRow<S>>, revision: nat, job: Job<S>): map<nat, HistoryRow<S>> {
    history[revision := HistoryRow(job.state, job.requestId)]
  }

  function Newer<S>(history: map<nat, HistoryRow<S>>, revision: nat): set<nat> {
    set v | v in history && v > revision
  }

  /** The rows past the first 200 in descending revision order. */
  function Doomed<S>(history: map<nat, HistoryRow<S>>): set<nat> {
    set v | v in history && |Newer(history, v)| >= HISTORY_LIMIT
  }

  function Trim<S>(history: map<nat, HistoryRow<S>>): map<nat, HistoryRow<S>> {
    history - Doomed(history)
  }

  function SaveData<S>(d: ProfileData<S>, job: Job<S>): Result<ProfileData<S>, SaveError> {
    if Conflicts(d, job.expected) then Failure(RevisionConflict(job.expected, CurrentRevision(d)))
    else
      var row := NextRow(d, job);
      if row.revision in d.history then Failure(UniqueViolation)
      else Success(ProfileData(Some(row), Trim(Recorded(d.history, row.revision, job))))
  }

  /** What a profile's tables must hold after these commits, and nothing else: the live row is the last
      commit, and history is exactly the last 200 revisions, each with its own state and request. */
  ghost predicate Keeps<S>(d: ProfileData<S>, commits: seq<Job<S>>) {
    var n := |commits|;
    && d.row == (if n == 0 then None else Some(Row(n, commits[n - 1].state)))
    && (forall v :: v in d.history <==> Max(1, n - 199) <= v <= n)
    && (forall v :: v in d.history ==> d.history[v] == HistoryRow(commits[v - 1].state, commits[v - 1].requestId))
    && (forall i :: 0 <= i < n ==> commits[i].expected == i)
  }

  lemma NewerInWindow<S>(history: map<nat, HistoryRow<S>>, lo: nat, hi: nat, v: nat)
    requires forall k: nat :: k in history <==> lo <= k <= hi
    requires lo <= v <= hi
    ensures |Newer(history, v)| == hi - v
  {
    IntervalIsExact(v + 1, hi + 1);
    assert Newer(history, v) == Interval(v + 1, hi + 1);
  }

  /** A save on well-kept tables succeeds exactly from the current revision; the result is well kept with
      one more commit, and the only way to fail is the conflict it reports. */
  lemma SaveKeeps<S>(d: ProfileData<S>, commits: seq<Job<S>>, job: Job<S>)
    requires Keeps(d, commits)
    ensures SaveData(d, job).Success? <==> job.expected == |commits|
    ensures SaveData(d, job).Success? ==> Keeps(SaveData(d, job).value, commits + [job])
    ensures SaveData(d, job).Failure? ==> SaveData(d, job).error == RevisionConflict(job.expected, |commits|)
  {
    var n := |commits|;
    if job.expected == n {
      var lo: nat := Max(1, n - 199);
      var history := Recorded(d.history, n + 1, job);
      assert forall k: nat :: k in history <==> lo <= k <= n + 1;
      forall v: nat | v in history ensures v in Doomed(history) <==> v <= n - 199 {
        NewerInWindow(history, lo, n + 1, v);
      }
    }
  }

  // ---------------------------------------------------------------- the save method

  /** Where a statement or the connection gives out, if anywhere. `CommitLost` is a commit that the
      server performs but whose acknowledgement never arrives. */
  datatype Fault = NoFault | AtLock | AtSelect | AtWrite | AtHistory | AtTrim | AtCommit | CommitLost

  class Database<S> {
    var tables: map<string, ProfileData<S>>

    constructor ()
      ensures tables == map[]
    {
      tables := map[];
    }
  }

  /** An open transaction: statements act on `working`, and nothing shows until `Commit`. */
  class Transaction<S> {
    const database: Database<S>
    var working: map<string, ProfileData<S>>
    var committed: bool

    constructor (database: Database<S>)
      ensures this.database == database && working == database.tables && !committed
    {
      this.database := database;
      working := database.tables;
      committed := false;
    }

    method SetRow(profile: string, row: Row<S>)
      modifies this`working
      ensures working == old(working)[profile := Lookup(old(working), profile).(row := Some(row))]
    {
      working := working[profile := Lookup(working, profile).(row := Some(row))];
    }

    method SetHistory(profile: string, history: map<nat, HistoryRow<S>>)
      modifies this`working
      ensures working == old(working)[profile := Lookup(old(working), profile).(history := history)]
    {
      working := working[profile := Lookup(working, profile).(history := history)];
    }

    method Commit()
      modifies this`committed, database`tables
      ensures committed && database.tables == working
    {
      database.tables := working;
      committed := true;
    }

    /** The destructor: an uncommitted transaction leaves no trace. */
    method Close()
      modifies this`working
      ensures !committed ==> working == database.tables
      ensures committed ==> working == old(working)
    {
      if !committed { working := database.tables; }
    }
  }

  /** What the caller is told, and the new tables of the profile if anything was made durable. */
  datatype Outcome<S> = Outcome(told: Result<Row<S>, SaveError>, durable: Option<ProfileData<S>>)

  /** One attempt under one fault. */
  function Attempt<S>(d: ProfileData<S>, job: Job<S>, fault: Fault): Outcome<S> {
    if job.expected < 0 then Outcome(Failure(RevisionInvalid), None)
    else if !(1 <= |job.requestId| <= 100) then Outcome(Failure(RequestIdInvalid), None)
    else if fault == AtLock || fault == AtSelect then Outcome(Failure(QueryFailed), None)
    else if Conflicts(d, job.expected) then Outcome(Failure(RevisionConflict(job.expected, CurrentRevision(d))), None)
    else if fault == AtWrite || fault == AtHistory then Outcome(Failure(QueryFailed), None)
    else
      match SaveData(d, job)
      case Failure(error) => Outcome(Failure(error), None)
      case Success(saved) =>
        if fault == AtTrim || fault == AtCommit then Outcome(Failure(QueryFailed), None)
        else if fault == CommitLost then Outcome(Failure(QueryFailed), Some(saved))
        else Outcome(Success(NextRow(d, job)), Some(saved))
  }

  /** All or nothing on well-kept tables: what becomes durable is the whole save and happens only from the
      current revision; a caller told success has it durable; a caller told of a conflict has nothing durable
      and held a stale revision; and the one durable save its caller is not told of is the lost reply. */
  lemma AttemptIsAtomic<S>(d: ProfileData<S>, commits: seq<Job<S>>, job: Job<S>, fault: Fault)
    requires Keeps(d, commits)
    ensures var Outcome(told, durable) := Attempt(d, job, fault);
            && (durable.Some? ==> SaveData(d, job) == Success(durable.value) && Keeps(durable.value, commits + [job])
                                  && job.expected == |commits|)
            && (told.Success? ==> durable.Some? && fault == NoFault && told.value == Row(|commits| + 1, job.state))
            && (told.Failure? && durable.Some? ==> fault == CommitLost && told.error == QueryFailed)
            && (told.Failure? && told.error.RevisionConflict? ==> durable.None? && job.expected != |commits|)
            && told != Failure(UniqueViolation)
  {
    SaveKeeps(d, commits, job);
  }

  function Install<S>(tables: map<string, ProfileData<S>>, profile: string, durable: Option<ProfileData<S>>)
    : map<string, ProfileData<S>>
  {
    if durable.None? then tables else tables[profile := durable.value]
  }

  /** Whether the connection gives out before the commit. */
  predicate Early(fault: Fault) {
    fault != NoFault && fault != AtCommit && fault != CommitLost
  }

  /** The statements of one save, run inside an open transaction. */
  method RunStatements<S>(transaction: Transaction<S>, job: Job<S>, fault: Fault) returns (r: Result<Row<S>, SaveError>)
    requires job.expected >= 0 && 1 <= |job.requestId| <= 100
    modifies transaction`working
    ensures var d := Lookup(old(transaction.working), job.profile);
            var saved := SaveData(d, job);
            && (r.Success? <==> !Early(fault) && saved.Success?)
            && (r.Failure? ==> r == Attempt(d, job, fault).told)
            && (r.Success? ==> r.value == NextRow(d, job)
                               && transaction.working == old(transaction.working)[job.profile := saved.value])
  {
    hide Doomed;
    if fault == AtLock || fault == AtSelect { return Failure(QueryFailed); }
    var data := Lookup(transaction.working, job.profile);
    var saved: Row<S>;
    if data.row.None? {
      if job.expected != 0 { return Failure(RevisionConflict(job.expected, 0)); }
      saved := Row(1, job.state);
    } else {
      var current := data.row.value;
      if current.revision != job.expected { return Failure(RevisionConflict(job.expected, current.revision)); }
      saved := Row(current.revision + 1, job.state);
    }
    if fault == AtWrite { return Failure(QueryFailed); }
    transaction.SetRow(job.profile, saved);
    if fault == AtHistory { return Failure(QueryFailed); }
    if saved.revision in data.history { return Failure(UniqueViolation); }
    var history := data.history[saved.revision := HistoryRow(job.state, job.requestId)];
    transaction.SetHistory(job.profile, history);
    if fault == AtTrim { return Failure(QueryFailed); }
    transaction.SetHistory(job.profile, history - Doomed(history));
    return Success(saved);
  }

  method Save<S>(database: Database<S>, job: Job<S>, fault: Fault) returns (r: Result<Row<S>, SaveError>)
    modifies database`tables
    ensures var before := old(database.tables);
            var outcome := Attempt(Lookup(before, job.profile), job, fault);
            r == outcome.told && database.tables == Install(before, job.profile, outcome.durable)
  {
    hide SaveData;
    if job.expected < 0 { return Failure(RevisionInvalid); }
    if |job.requestId| == 0 || |job.requestId| > 100 { return Failure(RequestIdInvalid); }
    var transaction := new Transaction(database);
    r := RunStatements(transaction, job, fault);
    if r.Success? {
      if fault == AtCommit {
        r := Failure(QueryFailed);
      } else {
        transaction.Commit();
        if fault == CommitLost { r := Failure(QueryFailed); }
      }
    }
    transaction.Close();
    SavedMeansNoConflict(Lookup(old(database.tables), job.profile), job);
  }

  lemma SavedMeansNoConflict<S>(d: ProfileData<S>, job: Job<S>)
    ensures SaveData(d, job).Success? ==> !Conflicts(d, job.expected)
  {
  }

  method Load<S>(database: Database<S>, profile: string) returns (revision: nat, state: Option<S>)
    ensures var d := Lookup(database.tables, profile);
            revision == CurrentRevision(d) && state == if d.row.Some? then Some(d.row.value.state) else None
  {
    if profile !in database.tables || database.tables[profile].row.None? { return 0, None; }
    var row := database.tables[profile].row.value;
    return row.revision, Some(row.state);
  }

  method ImportEmpty<S>(database: Database<S>, profile: string, state: S, requestId: string, fault: Fault)
    returns (r: Result<Row<S>, SaveError>)
    modifies database`tables
    ensures var before := old(database.tables);
            var outcome := Attempt(Lookup(before, profile), Job(profile, 0, state, requestId), fault);
            r == outcome.told && database.tables == Install(before, profile, outcome.durable)
    ensures r.Success? ==> CurrentRevision(Lookup(old(database.tables), profile)) == 0
  {
    r := Save(database, Job(profile, 0, state, requestId), fault);
  }
}
