/** Any number of browser tabs saving through one service: queues, retries, lost and late requests. */
module SyncProtocol {
  import opened Prelude
  import opened Contracts
  import opened RecallScorer
  import opened StateValidator
  import PR = ProfileRepository
  import opened ProfileState

  const PROFILE := "local"

  /** What the service checks a state against. */
  datatype Service = Service(lex: Lexicon, catalog: Catalog)

  /** A task's one outstanding request, as the network and the service see it. */
  datatype Wire = Silent | Pending(base: nat, next: Document) | Answered(reply: SaveReply)

  /** One queued save: whose it is, what it does, what the tab believes, and what is on the wire. */
  datatype Task = Task(tab: nat, update: Update, client: Client, wire: Wire)

  /** A tab's cached profile and its first-in-first-out queue of task numbers; the head is running. */
  datatype Tab = Tab(cache: Option<Ready>, queue: seq<nat>)

  /** A commit: the task that made it, if a tab did, and the job as the repository saw it. */
  datatype Entry = Entry(author: Option<nat>, job: PR.Job<Document>)

  datatype Sys = Sys(data: PR.ProfileData<Document>, log: seq<Entry>, tasks: seq<Task>, tabs: map<nat, Tab>)

  datatype Action =
    | Enqueue(tab: nat, update: Update)
    | Start(tab: nat)                                        // the head of the queue begins
    | Serve(task: nat, requestId: string, fault: PR.Fault)   // the service handles a request, however late
    | Receive(tab: nat)                                      // the answer to the head arrives
    | GiveUp(tab: nat)                                       // the head times out or its reload fails
    | Reload(tab: nat, revision: nat, now: string)           // the head's reload arrives, and it tries again
    | Refetch(tab: nat, revision: nat)                       // a background read arrives, however stale
    | Foreign(job: PR.Job<Document>, fault: PR.Fault)        // another client writes

  function TabOf(s: Sys, tab: nat): Tab {
    if tab in s.tabs then s.tabs[tab] else Tab(None, [])
  }

  /** The head's updater is called again. */
  function Restamp(s: Sys, t: nat, now: string): Sys
    requires t < |s.tasks|
  {
    s.(tasks := s.tasks[t := s.tasks[t].(update := Restamped(s.tasks[t].update, now))])
  }

  function LoadedAt(log: seq<Entry>, revision: nat): Loaded
    requires revision <= |log|
  {
    Loaded(revision, if revision == 0 then None else Some(log[revision - 1].job.state))
  }

  function SetTask(s: Sys, t: nat, client: Client, wire: Wire): Sys
    requires t < |s.tasks|
  {
    s.(tasks := s.tasks[t := s.tasks[t].(client := client, wire := wire)])
  }

  /** The head settles: it leaves the queue, and a success becomes the tab's cache. */
  function Settle(s: Sys, tab: nat, t: nat, client: Client): Sys
    requires t < |s.tasks| && TabOf(s, tab).queue != []
  {
    var before := TabOf(s, tab);
    var cache := if client.Succeeded? then Some(client.saved) else before.cache;
    SetTask(s, t, client, s.tasks[t].wire).(tabs := s.tabs[tab := Tab(cache, before.queue[1..])])
  }

  /** Sends what `Try` or `OnReload` decided, or settles the task at once. */
  function Launch(s: Sys, tab: nat, t: nat, client: Client): Sys
    requires t < |s.tasks| && TabOf(s, tab).queue != []
  {
    if client.Awaiting? then SetTask(s, t, client, Pending(client.base.revision, client.next))
    else Settle(s, tab, t, client)
  }

  function ReplyTo(told: Result<PR.Row<Document>, PR.SaveError>): SaveReply {
    match told
    case Success(row) => Saved(Loaded(row.revision, Some(row.state)))
    case Failure(RevisionConflict(_, _)) => ApiError(409, "revision_conflict")
    case Failure(RevisionInvalid) => ApiError(400, "revision_invalid")
    case Failure(_) => ApiError(500, "database_query_failed")
  }

  ghost function ServeTask(v: Service, s: Sys, t: nat, requestId: string, fault: PR.Fault): Sys
    requires t < |s.tasks| && s.tasks[t].wire.Pending?
  {
    var task := s.tasks[t];
    if !Accepts(v.lex, v.catalog, task.wire.next) then
      SetTask(s, t, task.client, Answered(ApiError(422, "state_invalid")))
    else
      var job := PR.Job(PROFILE, task.wire.base, task.wire.next, requestId);
      var outcome := PR.Attempt(s.data, job, fault);
      var told := SetTask(s, t, task.client, Answered(ReplyTo(outcome.told)));
      if outcome.durable.None? then told
      else told.(data := outcome.durable.value, log := s.log + [Entry(Some(t), job)])
  }

  ghost function Step(v: Service, s: Sys, a: Action): Sys {
    match a
    case Enqueue(tab, update) =>
      var tb := TabOf(s, tab);
      s.(tasks := s.tasks + [Task(tab, update, Queued, Silent)],
         tabs := s.tabs[tab := tb.(queue := tb.queue + [|s.tasks|])])
    case Start(tab) =>
      var tb := TabOf(s, tab);
      if tb.queue == [] || tb.queue[0] >= |s.tasks| || !s.tasks[tb.queue[0]].client.Queued? then s
      else
        var t := tb.queue[0];
        if tb.cache.None? then Settle(s, tab, t, Failed(false))
        else Launch(s, tab, t, Try(0, Loaded(tb.cache.value.revision, Some(tb.cache.value.state)), s.tasks[t].update))
    case Serve(t, requestId, fault) =>
      if t >= |s.tasks| || !s.tasks[t].wire.Pending? then s else ServeTask(v, s, t, requestId, fault)
    case Receive(tab) =>
      var tb := TabOf(s, tab);
      if tb.queue == [] || tb.queue[0] >= |s.tasks| then s
      else
        var t := tb.queue[0];
        var task := s.tasks[t];
        if !task.client.Awaiting? || !task.wire.Answered? then s
        else
          var client := OnSaveReply(task.client.attempt, task.wire.reply);
          if client.Reloading? then SetTask(s, t, client, Silent) else Settle(s, tab, t, client)
    case GiveUp(tab) =>
      var tb := TabOf(s, tab);
      if tb.queue == [] || tb.queue[0] >= |s.tasks| then s
      else
        var c := s.tasks[tb.queue[0]].client;
        if c.Awaiting? || c.Reloading? then Settle(s, tab, tb.queue[0], Failed(false)) else s
    case Reload(tab, revision, now) =>
      var tb := TabOf(s, tab);
      if tb.queue == [] || tb.queue[0] >= |s.tasks| || revision > |s.log| then s
      else
        var t := tb.queue[0];
        if !s.tasks[t].client.Reloading? then s
        else
          var r := Restamp(s, t, now);
          Launch(r, tab, t, OnReload(r.tasks[t].update, Some(LoadedAt(r.log, revision))))
    case Refetch(tab, revision) =>
      if revision > |s.log| then s
      else
        var ready := Normalize(LoadedAt(s.log, revision));
        if ready.None? then s else s.(tabs := s.tabs[tab := TabOf(s, tab).(cache := ready)])
    case Foreign(job, fault) =>
      if !Accepts(v.lex, v.catalog, job.state) then s
      else
        var outcome := PR.Attempt(s.data, job, fault);
        if outcome.durable.None? then s
        else s.(data := outcome.durable.value, log := s.log + [Entry(None, job)])
  }

  ghost function Exec(v: Service, actions: seq<Action>): Sys {
    if actions == [] then Sys(PR.Blank(), [], [], map[])
    else Step(v, Exec(v, actions[..|actions| - 1]), actions[|actions| - 1])
  }

  // ---------------------------------------------------------------- the invariant

  function Jobs(log: seq<Entry>): (jobs: seq<PR.Job<Document>>)
    ensures |jobs| == |log|
    ensures forall i :: 0 <= i < |log| ==> jobs[i] == log[i].job
  {
    if log == [] then [] else Jobs(log[..|log| - 1]) + [log[|log| - 1].job]
  }

  ghost predicate InLog(log: seq<Entry>, t: nat) {
    exists i :: 0 <= i < |log| && log[i].author == Some(t)
  }

  /** A candidate is the normalised state of the revision it names. */
  ghost predicate BaseOk(log: seq<Entry>, base: Ready) {
    base.revision <= |log| && Normalize(LoadedAt(log, base.revision)) == Some(base)
  }

  /** What is sent or stored for an update is its result on the normalised state of that revision. */
  ghost predicate Derives(log: seq<Entry>, revision: nat, u: Update, next: Document) {
    && revision <= |log|
    && Normalize(LoadedAt(log, revision)).Some?
    && Next(u, Normalize(LoadedAt(log, revision)).value.state) == Some(next)
  }

  predicate Settled(c: Client) { c.Succeeded? || c.Failed? }

  ghost predicate WireOk(log: seq<Entry>, t: nat, task: Task) {
    match task.wire
    case Silent => true
    case Pending(base, next) => !InLog(log, t) && Derives(log, base, task.update, next)
    case Answered(Saved(record)) =>
      InLog(log, t) && record.revision <= |log| && record == LoadedAt(log, record.revision)
    case Answered(reply) => IsRevisionRace(reply) ==> !InLog(log, t)
  }

  ghost predicate ClientOk(log: seq<Entry>, t: nat, task: Task) {
    match task.client
    case Queued => task.wire.Silent? && !InLog(log, t)
    case Awaiting(attempt, base, next) => !task.wire.Silent?
    case Reloading => task.wire.Silent? && !InLog(log, t)
    case Succeeded(saved) => InLog(log, t) && !task.wire.Pending? && BaseOk(log, saved)
    case Failed(raced) => raced ==> !InLog(log, t) && !task.wire.Pending?
  }

  ghost predicate TaskOk(log: seq<Entry>, t: nat, task: Task) {
    WireOk(log, t, task) && ClientOk(log, t, task)
  }

  ghost predicate TasksOk(s: Sys) {
    forall t :: 0 <= t < |s.tasks| ==> TaskOk(s.log, t, s.tasks[t])
  }

  ghost predicate EntryOk(s: Sys, i: nat)
    requires i < |s.log|
  {
    s.log[i].author.Some? ==>
      s.log[i].author.value < |s.tasks| &&
      Derives(s.log, i, s.tasks[s.log[i].author.value].update, s.log[i].job.state)
  }

  ghost predicate LogOk(v: Service, s: Sys) {
    && PR.Keeps(s.data, Jobs(s.log))
    && (forall i :: 0 <= i < |s.log| ==> EntryOk(s, i))
    && (forall i, j :: 0 <= i < j < |s.log| && s.log[i].author.Some? ==> s.log[i].author != s.log[j].author)
    && (forall i :: 0 <= i < |s.log| ==> Accepts(v.lex, v.catalog, s.log[i].job.state))
  }

  ghost predicate CachesOk(s: Sys) {
    forall tab :: tab in s.tabs && s.tabs[tab].cache.Some? ==> BaseOk(s.log, s.tabs[tab].cache.value)
  }

  ghost predicate QueueOk(s: Sys, tab: nat) {
    var q := TabOf(s, tab).queue;
    && (forall i :: 0 <= i < |q| ==> q[i] < |s.tasks| && s.tasks[q[i]].tab == tab && !Settled(s.tasks[q[i]].client))
    && (forall i :: 1 <= i < |q| ==> s.tasks[q[i]].client.Queued?)
    && (forall i, j :: 0 <= i < j < |q| ==> q[i] < q[j])
  }

  /** Unsettled tasks wait in their tab's queue; nobody starts before an earlier task of the tab settles. */
  ghost predicate QueuesOk(s: Sys) {
    && (forall tab: nat :: QueueOk(s, tab))
    && (forall t :: 0 <= t < |s.tasks| && !Settled(s.tasks[t].client) ==> t in TabOf(s, s.tasks[t].tab).queue)
    && (forall a, b :: 0 <= a < b < |s.tasks| && s.tasks[a].tab == s.tasks[b].tab && !s.tasks[b].client.Queued? ==>
         Settled(s.tasks[a].client))
  }

  /** A request still on the wire although a later task of its tab has committed. */
  ghost predicate Overtaken(s: Sys, a: nat, b: nat)
    requires a < |s.tasks| && b < |s.tasks|
  {
    s.tasks[a].tab == s.tasks[b].tab && InLog(s.log, b) && s.tasks[a].wire.Pending?
  }

  /** Commits of one tab come in queue order: a straggler's base is already behind a later task's commit. */
  ghost predicate OrderOk(s: Sys) {
    && (forall a, b :: 0 <= a < b < |s.tasks| && Overtaken(s, a, b) ==> s.tasks[a].wire.base < |s.log|)
    && (forall i, j :: 0 <= i < j < |s.log| && SameTab(s, i, j) ==> s.log[i].author.value < s.log[j].author.value)
  }

  ghost predicate SameTab(s: Sys, i: nat, j: nat)
    requires i < |s.log| && j < |s.log|
  {
    && s.log[i].author.Some? && s.log[j].author.Some?
    && s.log[i].author.value < |s.tasks| && s.log[j].author.value < |s.tasks|
    && s.tasks[s.log[i].author.value].tab == s.tasks[s.log[j].author.value].tab
  }

  ghost predicate Inv(v: Service, s: Sys) {
    LogOk(v, s) && TasksOk(s) && CachesOk(s) && QueuesOk(s) && OrderOk(s)
  }

  // ---------------------------------------------------------------- the log only grows

  lemma LoadedAtPrefix(log: seq<Entry>, e: Entry, revision: nat)
    requires revision <= |log|
    ensures LoadedAt(log + [e], revision) == LoadedAt(log, revision)
  {
  }

  lemma InLogGrows(log: seq<Entry>, e: Entry, t: nat)
    ensures InLog(log + [e], t) <==> InLog(log, t) || e.author == Some(t)
  {
    var longer := log + [e];
    if e.author == Some(t) { assert longer[|log|].author == Some(t); }
    if InLog(log, t) {
      var i :| 0 <= i < |log| && log[i].author == Some(t);
      assert longer[i].author == Some(t);
    }
  }

  lemma TaskOkGrows(log: seq<Entry>, e: Entry, t: nat, task: Task)
    requires TaskOk(log, t, task) && e.author != Some(t)
    ensures TaskOk(log + [e], t, task)
  {
    hide Normalize, Next;
    InLogGrows(log, e, t);
    if task.wire.Pending? { LoadedAtPrefix(log, e, task.wire.base); }
    if task.wire.Answered? && task.wire.reply.Saved? { LoadedAtPrefix(log, e, task.wire.reply.record.revision); }
    if task.client.Succeeded? { LoadedAtPrefix(log, e, task.client.saved.revision); }
  }

  lemma EntriesGrow(s: Sys, e: Entry)
    requires forall i :: 0 <= i < |s.log| ==> EntryOk(s, i)
    ensures forall i :: 0 <= i < |s.log| ==> EntryOk(s.(log := s.log + [e]), i)
  {
    hide Normalize, Next;
    forall i | 0 <= i < |s.log| ensures EntryOk(s.(log := s.log + [e]), i) {
      assert EntryOk(s, i);
      LoadedAtPrefix(s.log, e, i);
    }
  }

  lemma CachesGrow(s: Sys, e: Entry)
    requires CachesOk(s)
    ensures CachesOk(s.(log := s.log + [e]))
  {
    hide Normalize;
    forall tab | tab in s.tabs && s.tabs[tab].cache.Some?
      ensures BaseOk(s.log + [e], s.tabs[tab].cache.value)
    {
      LoadedAtPrefix(s.log, e, s.tabs[tab].cache.value.revision);
    }
  }

  // ---------------------------------------------------------------- one task changes

  lemma LogSurvives(v: Service, s: Sys, t: nat, client: Client, wire: Wire)
    requires t < |s.tasks| && LogOk(v, s)
    ensures LogOk(v, SetTask(s, t, client, wire))
  {
    var n := SetTask(s, t, client, wire);
    forall i | 0 <= i < |n.log| ensures EntryOk(n, i) { assert EntryOk(s, i); }
  }

  lemma OrderSurvives(s: Sys, t: nat, client: Client, wire: Wire)
    requires t < |s.tasks| && OrderOk(s)
    requires wire.Pending? ==> wire == s.tasks[t].wire || forall b :: t < b < |s.tasks| && s.tasks[b].tab == s.tasks[t].tab ==> !InLog(s.log, b)
    ensures OrderOk(SetTask(s, t, client, wire))
  {
    var n := SetTask(s, t, client, wire);
    forall a, b | 0 <= a < b < |n.tasks| && Overtaken(n, a, b) ensures n.tasks[a].wire.base < |n.log| {
      assert Overtaken(s, a, b);
    }
    forall i, j | 0 <= i < j < |n.log| && SameTab(n, i, j) ensures n.log[i].author.value < n.log[j].author.value {
      assert SameTab(s, i, j);
    }
  }

  lemma TasksSurvive(s: Sys, t: nat, client: Client, wire: Wire)
    requires t < |s.tasks| && TasksOk(s) && TaskOk(s.log, t, s.tasks[t].(client := client, wire := wire))
    ensures TasksOk(SetTask(s, t, client, wire))
  {
    hide TaskOk;
  }

  /** An unsettled task has no later task of its tab in the log. */
  lemma NothingLaterCommitted(s: Sys, t: nat, b: nat)
    requires TasksOk(s) && QueuesOk(s) && t < b < |s.tasks| && s.tasks[b].tab == s.tasks[t].tab && !Settled(s.tasks[t].client)
    ensures !InLog(s.log, b)
  {
    assert TaskOk(s.log, b, s.tasks[b]);
  }

  /** A running or queued task changes without settling; only the head may leave the queued state. */
  lemma ChangeKeeps(v: Service, s: Sys, t: nat, client: Client, wire: Wire)
    requires Inv(v, s) && t < |s.tasks|
    requires TaskOk(s.log, t, s.tasks[t].(client := client, wire := wire))
    requires client == s.tasks[t].client ||
             (!Settled(client) && !Settled(s.tasks[t].client) && !client.Queued?
              && TabOf(s, s.tasks[t].tab).queue != [] && TabOf(s, s.tasks[t].tab).queue[0] == t)
    requires wire.Pending? ==> wire == s.tasks[t].wire || !Settled(s.tasks[t].client)
    ensures Inv(v, SetTask(s, t, client, wire))
  {
    var n := SetTask(s, t, client, wire);
    LogSurvives(v, s, t, client, wire);
    TasksSurvive(s, t, client, wire);
    if wire.Pending? && wire != s.tasks[t].wire {
      forall b | t < b < |s.tasks| && s.tasks[b].tab == s.tasks[t].tab ensures !InLog(s.log, b) {
        NothingLaterCommitted(s, t, b);
      }
    }
    OrderSurvives(s, t, client, wire);
    hide LogOk, TasksOk, OrderOk, BaseOk;
    QueuesSurvive(s, t, client, wire);
  }

  lemma QueuesSurvive(s: Sys, t: nat, client: Client, wire: Wire)
    requires QueuesOk(s) && t < |s.tasks|
    requires client == s.tasks[t].client ||
             (!Settled(client) && !Settled(s.tasks[t].client) && !client.Queued?
              && TabOf(s, s.tasks[t].tab).queue != [] && TabOf(s, s.tasks[t].tab).queue[0] == t)
    ensures QueuesOk(SetTask(s, t, client, wire))
  {
    var n := SetTask(s, t, client, wire);
    var own := s.tasks[t].tab;
    assert QueueOk(s, own);
    forall tab: nat ensures QueueOk(n, tab) {
      assert QueueOk(s, tab);
      var q := TabOf(s, tab).queue;
      forall i | 1 <= i < |q| ensures n.tasks[q[i]].client.Queued? {
        assert q[i] != q[0];
      }
    }
    forall a, b | 0 <= a < b < |n.tasks| && n.tasks[a].tab == n.tasks[b].tab && !n.tasks[b].client.Queued?
      ensures Settled(n.tasks[a].client)
    {
      if b == t && client != s.tasks[t].client && !Settled(s.tasks[a].client) {
        HeadIsFirst(s, own, a);
      }
    }
  }

  /** The head of a queue is the earliest unsettled task of its tab. */
  lemma HeadIsFirst(s: Sys, tab: nat, a: nat)
    requires QueuesOk(s) && a < |s.tasks| && s.tasks[a].tab == tab && !Settled(s.tasks[a].client)
    ensures TabOf(s, tab).queue != [] && TabOf(s, tab).queue[0] <= a
  {
    assert QueueOk(s, tab);
    assert a in TabOf(s, tab).queue;
  }

  /** The head settles and leaves. */
  lemma SettleKeeps(v: Service, s: Sys, tab: nat, t: nat, client: Client)
    requires Inv(v, s) && TabOf(s, tab).queue != [] && TabOf(s, tab).queue[0] == t && t < |s.tasks|
    requires Settled(client) && TaskOk(s.log, t, s.tasks[t].(client := client))
    ensures Inv(v, Settle(s, tab, t, client))
  {
    var m, n := SetTask(s, t, client, s.tasks[t].wire), Settle(s, tab, t, client);
    LogSurvives(v, s, t, client, s.tasks[t].wire);
    TasksSurvive(s, t, client, s.tasks[t].wire);
    OrderSurvives(s, t, client, s.tasks[t].wire);
    assert CachesOk(n) by { hide Normalize, WireOk, LogOk, TasksOk, QueuesOk, OrderOk; }
    assert LogOk(v, n) by { LogIgnoresTabs(v, m, n); }
    hide TaskOk;
    assert TasksOk(n);
    assert OrderOk(n) by { OrderIgnoresTabs(m, n); }
    hide LogOk, TasksOk, OrderOk, CachesOk;
    QueuesAfterSettle(s, tab, t, client);
  }

  lemma LogIgnoresTabs(v: Service, m: Sys, n: Sys)
    requires LogOk(v, m) && n == m.(tabs := n.tabs)
    ensures LogOk(v, n)
  {
    forall i | 0 <= i < |n.log| ensures EntryOk(n, i) { assert EntryOk(m, i); }
  }

  lemma OrderIgnoresTabs(m: Sys, n: Sys)
    requires OrderOk(m) && n == m.(tabs := n.tabs)
    ensures OrderOk(n)
  {
    forall a, b | 0 <= a < b < |n.tasks| && Overtaken(n, a, b) ensures n.tasks[a].wire.base < |n.log| {
      assert Overtaken(m, a, b);
    }
    forall i, j | 0 <= i < j < |n.log| && SameTab(n, i, j) ensures n.log[i].author.value < n.log[j].author.value {
      assert SameTab(m, i, j);
    }
  }

  lemma QueuesAfterSettle(s: Sys, tab: nat, t: nat, client: Client)
    requires QueuesOk(s) && TabOf(s, tab).queue != [] && TabOf(s, tab).queue[0] == t && t < |s.tasks| && Settled(client)
    ensures QueuesOk(Settle(s, tab, t, client))
  {
    var n := Settle(s, tab, t, client);
    assert QueueOk(s, tab);
    EachQueueAfterSettle(s, tab, t, client);
    forall a | 0 <= a < |n.tasks| && !Settled(n.tasks[a].client) ensures a in TabOf(n, n.tasks[a].tab).queue {
      assert a != t && a in TabOf(s, s.tasks[a].tab).queue;
    }
    hide QueueOk;
    forall a, b | 0 <= a < b < |n.tasks| && n.tasks[a].tab == n.tasks[b].tab && !n.tasks[b].client.Queued?
      ensures Settled(n.tasks[a].client)
    {
      if b == t && !Settled(s.tasks[a].client) { HeadIsFirst(s, tab, a); }
    }
  }

  lemma EachQueueAfterSettle(s: Sys, tab: nat, t: nat, client: Client)
    requires QueuesOk(s) && TabOf(s, tab).queue != [] && TabOf(s, tab).queue[0] == t && t < |s.tasks| && Settled(client)
    ensures forall x: nat :: QueueOk(Settle(s, tab, t, client), x)
  {
    var n := Settle(s, tab, t, client);
    assert QueueOk(s, tab);
    forall x: nat ensures QueueOk(n, x) {
      assert QueueOk(s, x);
      var q, r := TabOf(s, x).queue, TabOf(n, x).queue;
      if x == tab {
        assert forall i :: 0 <= i < |r| ==> r[i] == q[i + 1] && r[i] != t;
      } else {
        assert r == q;
      }
    }
  }

  // ---------------------------------------------------------------- one commit

  /** The log grows by a job made from the current revision; its author, if any, was on the wire. */
  ghost predicate Appends(v: Service, s: Sys, data: PR.ProfileData<Document>, e: Entry) {
    && PR.Keeps(data, Jobs(s.log) + [e.job])
    && Accepts(v.lex, v.catalog, e.job.state)
    && (e.author.Some? ==>
         var t := e.author.value;
         t < |s.tasks| && s.tasks[t].wire == Pending(|s.log|, e.job.state))
  }

  lemma CommitKeepsLog(v: Service, s: Sys, data: PR.ProfileData<Document>, e: Entry)
    requires LogOk(v, s) && TasksOk(s) && Appends(v, s, data, e)
    ensures LogOk(v, s.(data := data, log := s.log + [e]))
  {
    var n := s.(data := data, log := s.log + [e]);
    assert n.log[..|s.log|] == s.log;
    assert Jobs(n.log) == Jobs(s.log) + [e.job];
    NewEntryIsOk(v, s, data, e);
    AuthorsStayDistinct(v, s, data, e);
    hide EntryOk, PR.Keeps, Accepts, TasksOk;
  }

  /** The author's request was derived from the very revision its commit replaces. */
  lemma NewEntryIsOk(v: Service, s: Sys, data: PR.ProfileData<Document>, e: Entry)
    requires LogOk(v, s) && TasksOk(s) && Appends(v, s, data, e)
    ensures var n := s.(data := data, log := s.log + [e]);
            forall i :: 0 <= i < |n.log| ==> EntryOk(n, i)
  {
    var n := s.(data := data, log := s.log + [e]);
    EntriesGrow(s, e);
    if e.author.Some? {
      assert TaskOk(s.log, e.author.value, s.tasks[e.author.value]);
      LoadedAtPrefix(s.log, e, |s.log|);
    }
    hide Normalize, Next, Accepts, PR.Keeps, InLog;
    forall i | 0 <= i < |n.log| ensures EntryOk(n, i) {
      if i < |s.log| { assert EntryOk(s.(log := s.log + [e]), i); }
    }
  }

  lemma AuthorsStayDistinct(v: Service, s: Sys, data: PR.ProfileData<Document>, e: Entry)
    requires LogOk(v, s) && TasksOk(s) && Appends(v, s, data, e)
    ensures var log := s.log + [e];
            forall i, j :: 0 <= i < j < |log| && log[i].author.Some? ==> log[i].author != log[j].author
  {
    if e.author.Some? { assert TaskOk(s.log, e.author.value, s.tasks[e.author.value]); }
    hide EntryOk, Accepts, PR.Keeps, Derives, ClientOk;
    var log := s.log + [e];
    forall i, j | 0 <= i < j < |log| && log[i].author.Some? ensures log[i].author != log[j].author {
      if j == |s.log| { assert log[i] == s.log[i]; }
    }
  }

  lemma CommitKeepsOrder(v: Service, s: Sys, data: PR.ProfileData<Document>, e: Entry)
    requires Inv(v, s) && Appends(v, s, data, e)
    ensures OrderOk(s.(data := data, log := s.log + [e]))
  {
    var n := s.(data := data, log := s.log + [e]);
    hide Normalize, Next, Accepts, PR.Keeps, QueuesOk, CachesOk;
    forall a, b | 0 <= a < b < |n.tasks| && Overtaken(n, a, b) ensures n.tasks[a].wire.base < |n.log| {
      assert TaskOk(s.log, a, s.tasks[a]);
    }
    forall i, j | 0 <= i < j < |n.log| && SameTab(n, i, j) ensures n.log[i].author.value < n.log[j].author.value {
      if j < |s.log| {
        assert SameTab(s, i, j);
      } else {
        var t, b := e.author.value, n.log[i].author.value;
        assert s.log[i].author == Some(b);
        assert InLog(s.log, b);
        assert TaskOk(s.log, t, s.tasks[t]);
        assert Overtaken(s, t, b);
      }
    }
  }

  /** A commit: the log, the tables and the author's answer move together. */
  lemma CommitKeeps(v: Service, s: Sys, data: PR.ProfileData<Document>, e: Entry, reply: SaveReply)
    requires Inv(v, s) && Appends(v, s, data, e)
    requires e.author.Some? ==> !IsRevisionRace(reply)
    requires reply.Saved? ==> reply.record == Loaded(|s.log| + 1, Some(e.job.state))
    ensures var m := s.(data := data, log := s.log + [e]);
            Inv(v, if e.author.None? then m
                   else SetTask(m, e.author.value, s.tasks[e.author.value].client, Answered(reply)))
  {
    var m := s.(data := data, log := s.log + [e]);
    CommitKeepsLog(v, s, data, e);
    CommitKeepsOrder(v, s, data, e);
    CachesGrow(s, e);
    QueuesIgnoreLog(s, m);
    CommitKeepsTasks(v, s, data, e, reply);
    assert e.author.Some? ==> e.author.value < |s.tasks|;
    hide LogOk, OrderOk, CachesOk, QueuesOk, TasksOk, Appends;
    if e.author.Some? {
      var t := e.author.value;
      var n := SetTask(m, t, s.tasks[t].client, Answered(reply));
      LogSurvives(v, m, t, s.tasks[t].client, Answered(reply));
      OrderSurvives(m, t, s.tasks[t].client, Answered(reply));
      QueuesSurvive(m, t, s.tasks[t].client, Answered(reply));
      CachesIgnoreTasks(m, n);
    }
  }

  lemma CommitKeepsTasks(v: Service, s: Sys, data: PR.ProfileData<Document>, e: Entry, reply: SaveReply)
    requires TasksOk(s) && Appends(v, s, data, e)
    requires e.author.Some? ==> !IsRevisionRace(reply)
    requires reply.Saved? ==> reply.record == Loaded(|s.log| + 1, Some(e.job.state))
    ensures var m := s.(data := data, log := s.log + [e]);
            TasksOk(if e.author.None? then m
                    else SetTask(m, e.author.value, s.tasks[e.author.value].client, Answered(reply)))
  {
    forall k | 0 <= k < |s.tasks| && e.author != Some(k) ensures TaskOk(s.log + [e], k, s.tasks[k]) {
      TaskOkGrows(s.log, e, k, s.tasks[k]);
    }
    if e.author.Some? { AuthorIsAnswered(s, e, reply); }
    hide TaskOk, PR.Keeps, Accepts;
  }

  lemma AuthorIsAnswered(s: Sys, e: Entry, reply: SaveReply)
    requires e.author.Some? && e.author.value < |s.tasks|
    requires TaskOk(s.log, e.author.value, s.tasks[e.author.value]) && s.tasks[e.author.value].wire.Pending?
    requires !IsRevisionRace(reply)
    requires reply.Saved? ==> reply.record == Loaded(|s.log| + 1, Some(e.job.state))
    ensures TaskOk(s.log + [e], e.author.value, s.tasks[e.author.value].(wire := Answered(reply)))
  {
    hide BaseOk, Derives;
    InLogGrows(s.log, e, e.author.value);
  }

  lemma QueuesIgnoreLog(s: Sys, m: Sys)
    requires QueuesOk(s) && m == s.(data := m.data, log := m.log)
    ensures QueuesOk(m)
  {
    forall tab: nat ensures QueueOk(m, tab) { assert QueueOk(s, tab); }
  }

  lemma CachesIgnoreTasks(m: Sys, n: Sys)
    requires CachesOk(m) && n == m.(tasks := n.tasks)
    ensures CachesOk(n)
  {
  }

  // ---------------------------------------------------------------- every action

  /** A number not yet given out is in no log entry. */
  lemma FreshIsUnlogged(v: Service, s: Sys)
    requires LogOk(v, s)
    ensures !InLog(s.log, |s.tasks|)
  {
    hide PR.Keeps, Accepts;
    forall i | 0 <= i < |s.log| ensures s.log[i].author != Some(|s.tasks|) { assert EntryOk(s, i); }
  }

  lemma LogKeepsTask(v: Service, s: Sys, n: Sys, task: Task)
    requires LogOk(v, s) && n == s.(tasks := s.tasks + [task], tabs := n.tabs)
    ensures LogOk(v, n)
  {
    hide PR.Keeps, Accepts, Normalize, Next;
    forall i | 0 <= i < |n.log| ensures EntryOk(n, i) { assert EntryOk(s, i); }
  }

  lemma OrderKeepsTask(v: Service, s: Sys, n: Sys, task: Task)
    requires LogOk(v, s) && OrderOk(s) && n == s.(tasks := s.tasks + [task], tabs := n.tabs)
    ensures OrderOk(n)
  {
    FreshIsUnlogged(v, s);
    hide PR.Keeps, Accepts, Normalize, Next;
    forall a, b | 0 <= a < b < |n.tasks| && Overtaken(n, a, b) ensures n.tasks[a].wire.base < |n.log| {
      if b < |s.tasks| { assert Overtaken(s, a, b); }
    }
    forall i, j | 0 <= i < j < |n.log| && SameTab(n, i, j) ensures n.log[i].author.value < n.log[j].author.value {
      assert EntryOk(s, i) && EntryOk(s, j);
      assert SameTab(s, i, j);
    }
  }

  lemma QueuesKeepTask(s: Sys, n: Sys, tab: nat, u: Update)
    requires QueuesOk(s)
    requires n == s.(tasks := s.tasks + [Task(tab, u, Queued, Silent)],
                     tabs := s.tabs[tab := TabOf(s, tab).(queue := TabOf(s, tab).queue + [|s.tasks|])])
    ensures QueuesOk(n)
  {
    forall x: nat ensures QueueOk(n, x) { assert QueueOk(s, x); }
    forall k | 0 <= k < |n.tasks| && !Settled(n.tasks[k].client) ensures k in TabOf(n, n.tasks[k].tab).queue {
      if k < |s.tasks| { assert k in TabOf(s, s.tasks[k].tab).queue; }
    }
  }

  lemma EnqueueKeeps(v: Service, s: Sys, tab: nat, u: Update)
    requires Inv(v, s)
    ensures Inv(v, Step(v, s, Enqueue(tab, u)))
  {
    var n, task := Step(v, s, Enqueue(tab, u)), Task(tab, u, Queued, Silent);
    FreshIsUnlogged(v, s);
    LogKeepsTask(v, s, n, task);
    OrderKeepsTask(v, s, n, task);
    QueuesKeepTask(s, n, tab, u);
    hide LogOk, OrderOk, QueuesOk, InLog, BaseOk;
    assert TaskOk(s.log, |s.tasks|, task);
    hide TaskOk;
  }

  /** What a candidate and its update send is derived from the log. */
  lemma TryDerives(log: seq<Entry>, revision: nat, u: Update, attempt: nat)
    requires revision <= |log|
    ensures var c := Try(attempt, LoadedAt(log, revision), u);
            && (c.Failed? || c.Awaiting?)
            && (c.Failed? ==> !c.raced)
            && (c.Awaiting? ==> BaseOk(log, c.base) && Derives(log, c.base.revision, u, c.next))
  {
    hide Next;
    NormalizeKeepsRevision(LoadedAt(log, revision));
  }

  /** Normalising a cache again changes nothing, so a task may start from the cached copy. */
  lemma CacheIsItsRevision(log: seq<Entry>, base: Ready)
    requires BaseOk(log, base)
    ensures Normalize(Loaded(base.revision, Some(base.state))) == Normalize(LoadedAt(log, base.revision))
  {
    NormalizeIsFull(LoadedAt(log, base.revision));
    NormalizeFixesFull(base.revision, base.state);
  }

  lemma LaunchKeeps(v: Service, s: Sys, tab: nat, t: nat, client: Client)
    requires Inv(v, s) && TabOf(s, tab).queue != [] && TabOf(s, tab).queue[0] == t && t < |s.tasks|
    requires s.tasks[t].client.Queued? || s.tasks[t].client.Reloading?
    requires client == Failed(false) ||
             (client.Awaiting? && Derives(s.log, client.base.revision, s.tasks[t].update, client.next))
    ensures Inv(v, Launch(s, tab, t, client))
  {
    assert TaskOk(s.log, t, s.tasks[t]);
    assert QueueOk(s, tab);
    hide LogOk, CachesOk, OrderOk, Derives, BaseOk;
    if client.Awaiting? {
      ChangeKeeps(v, s, t, client, Pending(client.base.revision, client.next));
    } else {
      SettleKeeps(v, s, tab, t, client);
    }
  }

  lemma StartKeeps(v: Service, s: Sys, tab: nat)
    requires Inv(v, s)
    ensures Inv(v, Step(v, s, Start(tab)))
  {
    var tb := TabOf(s, tab);
    if tb.queue != [] && tb.queue[0] < |s.tasks| && s.tasks[tb.queue[0]].client.Queued? {
      var t := tb.queue[0];
      if tb.cache.None? {
        LaunchKeeps(v, s, tab, t, Failed(false));
      } else {
        var base := tb.cache.value;
        assert BaseOk(s.log, base);
        CacheIsItsRevision(s.log, base);
        TryDerives(s.log, base.revision, s.tasks[t].update, 0);
        LaunchKeeps(v, s, tab, t, Try(0, Loaded(base.revision, Some(base.state)), s.tasks[t].update));
      }
    }
  }

  /** A task that has nothing in the log and nothing on the wire may call its updater again. */
  lemma RestampKeeps(v: Service, s: Sys, t: nat, now: string)
    requires Inv(v, s) && t < |s.tasks| && s.tasks[t].client.Reloading?
    ensures Inv(v, Restamp(s, t, now))
  {
    var n := Restamp(s, t, now);
    assert TaskOk(s.log, t, s.tasks[t]);
    RestampKeepsLog(v, s, t, now);
    RestampKeepsQueues(s, t, now);
    RestampKeepsOrder(s, t, now);
    hide LogOk, QueuesOk, OrderOk, InLog, BaseOk, Derives, Restamped;
    forall k | 0 <= k < |n.tasks| ensures TaskOk(n.log, k, n.tasks[k]) { assert TaskOk(s.log, k, s.tasks[k]); }
  }

  lemma RestampKeepsLog(v: Service, s: Sys, t: nat, now: string)
    requires LogOk(v, s) && t < |s.tasks| && !InLog(s.log, t)
    ensures LogOk(v, Restamp(s, t, now))
  {
    hide PR.Keeps, Accepts, Derives, Restamped;
    var n := Restamp(s, t, now);
    forall i | 0 <= i < |n.log| ensures EntryOk(n, i) { assert EntryOk(s, i); }
  }

  lemma RestampKeepsQueues(s: Sys, t: nat, now: string)
    requires QueuesOk(s) && t < |s.tasks|
    ensures QueuesOk(Restamp(s, t, now))
  {
    hide Restamped;
    var n := Restamp(s, t, now);
    forall x: nat ensures QueueOk(n, x) { assert QueueOk(s, x); }
  }

  lemma RestampKeepsOrder(s: Sys, t: nat, now: string)
    requires OrderOk(s) && t < |s.tasks|
    ensures OrderOk(Restamp(s, t, now))
  {
    hide Restamped;
    var n := Restamp(s, t, now);
    forall a, b | 0 <= a < b < |n.tasks| && Overtaken(n, a, b) ensures n.tasks[a].wire.base < |n.log| {
      assert Overtaken(s, a, b);
    }
    forall i, j | 0 <= i < j < |n.log| && SameTab(n, i, j) ensures n.log[i].author.value < n.log[j].author.value {
      assert SameTab(s, i, j);
    }
  }

  lemma ReloadKeeps(v: Service, s: Sys, tab: nat, revision: nat, now: string)
    requires Inv(v, s)
    ensures Inv(v, Step(v, s, Reload(tab, revision, now)))
  {
    var tb := TabOf(s, tab);
    if tb.queue != [] && tb.queue[0] < |s.tasks| && revision <= |s.log| && s.tasks[tb.queue[0]].client.Reloading? {
      var t := tb.queue[0];
      RestampKeeps(v, s, t, now);
      var r := Restamp(s, t, now);
      TryDerives(r.log, revision, r.tasks[t].update, 1);
      hide Inv, Restamped, Try;
      LaunchKeeps(v, r, tab, t, OnReload(r.tasks[t].update, Some(LoadedAt(r.log, revision))));
    }
  }

  /** The head takes its answer: it reloads after a race, and otherwise it is done. */
  lemma AnswerIsTaken(log: seq<Entry>, t: nat, task: Task)
    requires TaskOk(log, t, task) && task.client.Awaiting? && task.wire.Answered?
    ensures var client := OnSaveReply(task.client.attempt, task.wire.reply);
            if client.Reloading? then TaskOk(log, t, task.(client := client, wire := Silent))
            else Settled(client) && TaskOk(log, t, task.(client := client))
  {
    hide Normalize, InLog;
    if task.wire.reply.Saved? { NormalizeKeepsRevision(task.wire.reply.record); }
  }

  lemma ReceiveKeeps(v: Service, s: Sys, tab: nat)
    requires Inv(v, s)
    ensures Inv(v, Step(v, s, Receive(tab)))
  {
    var tb := TabOf(s, tab);
    assert QueueOk(s, tab);
    if tb.queue != [] && s.tasks[tb.queue[0]].client.Awaiting? && s.tasks[tb.queue[0]].wire.Answered? {
      var t := tb.queue[0];
      var task := s.tasks[t];
      assert TaskOk(s.log, t, task);
      var client := OnSaveReply(task.client.attempt, task.wire.reply);
      hide LogOk, TasksOk, CachesOk, OrderOk, TaskOk, OnSaveReply;
      AnswerIsTaken(s.log, t, task);
      if client.Reloading? {
        ChangeKeeps(v, s, t, client, Silent);
      } else {
        SettleKeeps(v, s, tab, t, client);
      }
    }
  }

  lemma GiveUpKeeps(v: Service, s: Sys, tab: nat)
    requires Inv(v, s)
    ensures Inv(v, Step(v, s, GiveUp(tab)))
  {
    var tb := TabOf(s, tab);
    assert QueueOk(s, tab);
    if tb.queue != [] {
      var t := tb.queue[0];
      assert TaskOk(s.log, t, s.tasks[t]);
      hide LogOk, CachesOk, OrderOk, Normalize, Derives;
      if s.tasks[t].client.Awaiting? || s.tasks[t].client.Reloading? { SettleKeeps(v, s, tab, t, Failed(false)); }
    }
  }

  lemma RefetchKeeps(v: Service, s: Sys, tab: nat, revision: nat)
    requires Inv(v, s)
    ensures Inv(v, Step(v, s, Refetch(tab, revision)))
  {
    if revision <= |s.log| && Normalize(LoadedAt(s.log, revision)).Some? {
      var n := Step(v, s, Refetch(tab, revision));
      NormalizeKeepsRevision(LoadedAt(s.log, revision));
      LogIgnoresTabs(v, s, n);
      OrderIgnoresTabs(s, n);
      hide Normalize, LogOk, OrderOk, TaskOk;
      QueuesIgnoreCache(s, n, tab);
      hide QueuesOk;
    }
  }

  lemma QueuesIgnoreCache(s: Sys, n: Sys, tab: nat)
    requires QueuesOk(s) && tab in n.tabs && n.tabs[tab].queue == TabOf(s, tab).queue
    requires n == s.(tabs := s.tabs[tab := n.tabs[tab]])
    ensures QueuesOk(n)
  {
    forall x: nat ensures TabOf(n, x).queue == TabOf(s, x).queue {
    }
    forall x: nat ensures QueueOk(n, x) { assert QueueOk(s, x); }
  }

  /** The repository's own guarantee, as this system needs it. */
  lemma DurableAppends(v: Service, s: Sys, job: PR.Job<Document>, fault: PR.Fault, author: Option<nat>)
    requires LogOk(v, s) && Accepts(v.lex, v.catalog, job.state)
    requires author.Some? ==>
               author.value < |s.tasks| && job.expected >= 0
               && s.tasks[author.value].wire == Pending(job.expected, job.state)
    ensures var outcome := PR.Attempt(s.data, job, fault);
            && (outcome.durable.Some? ==> Appends(v, s, outcome.durable.value, Entry(author, job)))
            && (outcome.durable.Some? ==> !IsRevisionRace(ReplyTo(outcome.told)))
            && (outcome.durable.Some? && ReplyTo(outcome.told).Saved? ==>
                 ReplyTo(outcome.told).record == Loaded(|s.log| + 1, Some(job.state)))
            && (outcome.durable.None? ==> !ReplyTo(outcome.told).Saved?)
  {
    hide Accepts, PR.Keeps, PR.SaveData;
    PR.AttemptIsAtomic(s.data, Jobs(s.log), job, fault);
    RowState(s.data, job, fault);
  }

  lemma RowState(d: PR.ProfileData<Document>, job: PR.Job<Document>, fault: PR.Fault)
    ensures PR.Attempt(d, job, fault).told.Success? ==> PR.Attempt(d, job, fault).told.value.state == job.state
  {
  }

  lemma ServeKeeps(v: Service, s: Sys, t: nat, requestId: string, fault: PR.Fault)
    requires Inv(v, s) && t < |s.tasks| && s.tasks[t].wire.Pending?
    ensures Inv(v, ServeTask(v, s, t, requestId, fault))
  {
    var task := s.tasks[t];
    assert TaskOk(s.log, t, task);
    if !Accepts(v.lex, v.catalog, task.wire.next) {
      hide LogOk, CachesOk, QueuesOk, OrderOk, Accepts;
      ChangeKeeps(v, s, t, task.client, Answered(ApiError(422, "state_invalid")));
    } else {
      var job := PR.Job(PROFILE, task.wire.base, task.wire.next, requestId);
      DurableAppends(v, s, job, fault, Some(t));
      hide LogOk, CachesOk, QueuesOk, OrderOk, Accepts, PR.Attempt, Appends;
      var outcome := PR.Attempt(s.data, job, fault);
      if outcome.durable.None? {
        ChangeKeeps(v, s, t, task.client, Answered(ReplyTo(outcome.told)));
      } else {
        CommitKeeps(v, s, outcome.durable.value, Entry(Some(t), job), ReplyTo(outcome.told));
      }
    }
  }

  lemma ForeignKeeps(v: Service, s: Sys, job: PR.Job<Document>, fault: PR.Fault)
    requires Inv(v, s)
    ensures Inv(v, Step(v, s, Foreign(job, fault)))
  {
    if Accepts(v.lex, v.catalog, job.state) {
      DurableAppends(v, s, job, fault, None);
      hide Inv, Accepts, PR.Attempt, Appends;
      var outcome := PR.Attempt(s.data, job, fault);
      if outcome.durable.Some? {
        CommitKeeps(v, s, outcome.durable.value, Entry(None, job), Broken);
      }
    }
  }

  lemma StepKeeps(v: Service, s: Sys, a: Action)
    requires Inv(v, s)
    ensures Inv(v, Step(v, s, a))
  {
    hide Inv;
    match a
    case Enqueue(tab, u) => EnqueueKeeps(v, s, tab, u);
    case Start(tab) => StartKeeps(v, s, tab);
    case Serve(t, requestId, fault) =>
      if t < |s.tasks| && s.tasks[t].wire.Pending? { ServeKeeps(v, s, t, requestId, fault); }
    case Receive(tab) => ReceiveKeeps(v, s, tab);
    case GiveUp(tab) => GiveUpKeeps(v, s, tab);
    case Reload(tab, revision, now) => ReloadKeeps(v, s, tab, revision, now);
    case Refetch(tab, revision) => RefetchKeeps(v, s, tab, revision);
    case Foreign(job, fault) => ForeignKeeps(v, s, job, fault);
  }

  lemma {:induction false} ExecKeeps(v: Service, actions: seq<Action>)
    ensures Inv(v, Exec(v, actions))
  {
    if actions != [] {
      ExecKeeps(v, actions[..|actions| - 1]);
      StepKeeps(v, Exec(v, actions[..|actions| - 1]), actions[|actions| - 1]);
    }
  }

  // ---------------------------------------------------------------- results

  /** The stored profile is the last of the commits, and each commit a tab made is its task's update, as last
      called, applied once to the normalised state of the revision it replaced: a fold, in commit order. */
  lemma StoreIsTheFold(v: Service, actions: seq<Action>)
    ensures var s := Exec(v, actions);
            && PR.CurrentRevision(s.data) == |s.log|
            && (s.log != [] ==> s.data.row.value.state == s.log[|s.log| - 1].job.state)
            && (forall i :: 0 <= i < |s.log| && s.log[i].author.Some? ==>
                 s.log[i].author.value < |s.tasks| &&
                 Derives(s.log, i, s.tasks[s.log[i].author.value].update, s.log[i].job.state))
  {
    ExecKeeps(v, actions);
    var s := Exec(v, actions);
    forall i | 0 <= i < |s.log| && s.log[i].author.Some?
      ensures s.log[i].author.value < |s.tasks| &&
              Derives(s.log, i, s.tasks[s.log[i].author.value].update, s.log[i].job.state)
    {
      assert EntryOk(s, i);
    }
  }

  /** No task commits twice, whatever is lost, late or retried; one that reported success has committed
      exactly once; one that reported a lost race has not committed and has nothing left on the wire. */
  lemma ExactlyOnce(v: Service, actions: seq<Action>, t: nat)
    requires t < |Exec(v, actions).tasks|
    ensures var s := Exec(v, actions);
            && (forall i, j :: 0 <= i < |s.log| && 0 <= j < |s.log| && s.log[i].author == Some(t) == s.log[j].author ==> i == j)
            && (s.tasks[t].client.Succeeded? ==> InLog(s.log, t))
            && (s.tasks[t].client == Failed(true) ==> !InLog(s.log, t) && !s.tasks[t].wire.Pending?)
            && (s.tasks[t].wire.Pending? ==> !InLog(s.log, t))
  {
    ExecKeeps(v, actions);
    var s := Exec(v, actions);
    assert TaskOk(s.log, t, s.tasks[t]);
  }

  /** The profile in a tab's cache is always the normalised state of the revision it names. */
  lemma CachesAreCoherent(v: Service, actions: seq<Action>, tab: nat)
    ensures var s := Exec(v, actions);
            TabOf(s, tab).cache.Some? ==> BaseOk(s.log, TabOf(s, tab).cache.value)
  {
    ExecKeeps(v, actions);
  }

  /** One tab's saves commit in the order they were queued, even past requests it gave up on. */
  lemma TabsCommitInOrder(v: Service, actions: seq<Action>, i: nat, j: nat)
    requires i < j < |Exec(v, actions).log| && SameTab(Exec(v, actions), i, j)
    ensures var s := Exec(v, actions); s.log[i].author.value < s.log[j].author.value
  {
    ExecKeeps(v, actions);
  }

  /** The tables always hold the last commit as the live row, and exactly the last 200 revisions as history,
      each as it was committed. */
  lemma HistoryIsKept(v: Service, actions: seq<Action>)
    ensures var s := Exec(v, actions); PR.Keeps(s.data, Jobs(s.log))
  {
    ExecKeeps(v, actions);
  }
}
