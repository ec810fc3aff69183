/** The browser's half of a save: normalising a loaded profile, applying an update, and the two-attempt loop. */
module ProfileState {
  import opened Prelude
  import opened Contracts
  import opened RecallText

  /** A profile as the service sent it. */
  datatype Loaded = Loaded(revision: nat, state: Option<Document>)

  /** A profile whose state has been completed and checked. */
  datatype Ready = Ready(revision: nat, state: Document)

  const INITIAL := Document(
    Some(30), Some(0), Some("Operator"), Some("Trading operations next round"), Some(map[]), Some([]),
    Some(""), Some("f01"), Some([]), Some([]), map["flashIndex" := "0", "flashRevealed" := "false"])

  function Or<T>(a: Option<T>, b: Option<T>): Option<T> { if a.Some? then a else b }

  function GetOr<T>(a: Option<T>, default: T): T { if a.Some? then a.value else default }

  // ---------------------------------------------------------------- the schema

  predicate SchemaAttempt(a: FlashAttempt) {
    && 1 <= |a.id| <= 100 && CardPattern(a.cardId) && 20 <= |a.answer| <= 1_200 && TimestampPattern(a.createdAt)
    && 1 <= a.rubricVersion <= 2 && 4 <= a.wordCount <= 500
    && 0 <= a.coverageScore <= 60 && 0 <= a.structureScore <= 25 && 0 <= a.specificityScore <= 15
    && 0 <= a.score <= 100 && a.verdict in {"strong", "developing", "needs-work"}
    && SchemaStrings(a.matched, 8) && SchemaStrings(a.missing, 8)
  }

  predicate SchemaStrings(items: seq<string>, limit: nat) {
    |items| <= limit && forall i :: 0 <= i < |items| ==> 1 <= |items[i]| <= 80
  }

  predicate SchemaDraft(d: FlashDraft) {
    |d.text| <= 1_200 && (d.updatedAt == "" || TimestampPattern(d.updatedAt))
  }

  predicate SchemaAccepts(d: Document) {
    && (d.uiVersion.Some? ==> 1 <= d.uiVersion.value <= 100)
    && (d.xp.Some? ==> 0 <= d.xp.value <= 100_000_000)
    && (d.displayName.Some? ==> |d.displayName.value| <= 80)
    && (d.profileObjective.Some? ==> |d.profileObjective.value| <= 160)
    && (d.flashDrafts.Some? ==> forall id :: id in d.flashDrafts.value ==> SchemaDraft(d.flashDrafts.value[id]))
    && (d.flashAttempts.Some? ==>
         |d.flashAttempts.value| <= 200 &&
         forall i :: 0 <= i < |d.flashAttempts.value| ==> SchemaAttempt(d.flashAttempts.value[i]))
    && (d.selectedFlashAttempt.Some? ==> |d.selectedFlashAttempt.value| <= 100)
    && (d.flashActiveId.Some? ==> d.flashActiveId.value == "" || CardPattern(d.flashActiveId.value))
    && (d.flashRecent.Some? ==>
         |d.flashRecent.value| <= 6 && forall i :: 0 <= i < |d.flashRecent.value| ==> CardPattern(d.flashRecent.value[i]))
    && (d.flashRewardClaims.Some? ==> SchemaStrings(d.flashRewardClaims.value, 1_000))
  }

  function Tidy(a: FlashAttempt): FlashAttempt { a.(answer := BrowserTrim(a.answer)) }

  function TidyAll(attempts: seq<FlashAttempt>): (t: seq<FlashAttempt>)
    ensures |t| == |attempts|
    ensures forall i :: 0 <= i < |t| ==> t[i] == Tidy(attempts[i])
  {
    seq(|attempts|, i requires 0 <= i < |attempts| => Tidy(attempts[i]))
  }

  /** The schema's parse: answers are trimmed, then everything is checked; None is a thrown error. */
  function Parse(d: Document): Option<Document> {
    var t := if d.flashAttempts.Some? then d.(flashAttempts := Some(TidyAll(d.flashAttempts.value))) else d;
    if SchemaAccepts(t) then Some(t) else None
  }

  /** Defaults under the stored fields, and at least version 30. */
  function Filled(state: Option<Document>): Document {
    match state
    case None => INITIAL
    case Some(d) => Document(
      Some(Max(30, GetOr(d.uiVersion, 0))), Or(d.xp, INITIAL.xp), Or(d.displayName, INITIAL.displayName),
      Or(d.profileObjective, INITIAL.profileObjective), Or(d.flashDrafts, INITIAL.flashDrafts),
      Or(d.flashAttempts, INITIAL.flashAttempts), Or(d.selectedFlashAttempt, INITIAL.selectedFlashAttempt),
      Or(d.flashActiveId, INITIAL.flashActiveId), Or(d.flashRecent, INITIAL.flashRecent),
      Or(d.flashRewardClaims, INITIAL.flashRewardClaims), INITIAL.rest + d.rest)
  }

  function Normalize(r: Loaded): Option<Ready> {
    match Parse(Filled(r.state))
    case None => None
    case Some(d) => Some(Ready(r.revision, d))
  }

  /** Every known field present, version at least 30, and already in the schema's normal form. */
  ghost predicate Full(d: Document) {
    && d.uiVersion.Some? && d.uiVersion.value >= 30 && d.xp.Some? && d.displayName.Some? && d.profileObjective.Some?
    && d.flashDrafts.Some? && d.flashAttempts.Some? && d.selectedFlashAttempt.Some? && d.flashActiveId.Some?
    && d.flashRecent.Some? && d.flashRewardClaims.Some? && INITIAL.rest.Keys <= d.rest.Keys
    && Parse(d) == Some(d)
  }

  lemma ParseIsIdempotent(d: Document)
    requires Parse(d).Some?
    ensures Parse(Parse(d).value) == Parse(d)
  {
    hide SchemaAccepts;
    if d.flashAttempts.Some? {
      var t := TidyAll(d.flashAttempts.value);
      forall i | 0 <= i < |t| ensures Tidy(t[i]) == t[i] { BrowserTrimIsHarmless(d.flashAttempts.value[i].answer); }
      assert TidyAll(t) == t;
    }
  }

  lemma NormalizeIsFull(r: Loaded)
    requires Normalize(r).Some?
    ensures Full(Normalize(r).value.state)
  {
    hide SchemaAccepts;
    ParseIsIdempotent(Filled(r.state));
  }

  /** Normalising is the identity on full documents: a save's own result comes back unchanged. */
  lemma NormalizeFixesFull(revision: nat, d: Document)
    requires Full(d)
    ensures Normalize(Loaded(revision, Some(d))) == Some(Ready(revision, d))
  {
    hide SchemaAccepts, Parse;
    assert INITIAL.rest + d.rest == d.rest;
    assert Filled(Some(d)) == d;
  }

  // ---------------------------------------------------------------- updates

  /** The state changes the pages save. */
  datatype Update =
    | Recall(attempt: FlashAttempt)
    | SaveDraft(cardId: string, draft: FlashDraft)
    | Shuffle(cardId: string)
    | Rename(name: string, objective: string)

  /** The updater called again at a later time: a draft takes the new time, everything else is as it was. */
  function Restamped(u: Update, now: string): Update {
    match u
    case SaveDraft(cardId, draft) => SaveDraft(cardId, draft.(updatedAt := now))
    case _ => u
  }

  function RecallReward(score: int): nat {
    if score >= 80 then 10 else if score >= 60 then 5 else 0
  }

  function RewardKey(a: FlashAttempt): string {
    a.cardId + ":" + Day(a.createdAt)
  }

  function Claims(d: Document): seq<string> { GetOr(d.flashRewardClaims, []) }

  /** The XP an attempt earns on a state: none when its card was already claimed that day. */
  function Reward(d: Document, a: FlashAttempt): nat {
    if RewardKey(a) in Claims(d) then 0 else RecallReward(a.score)
  }

  function Without(items: seq<string>, x: string): seq<string> {
    if items == [] then []
    else Without(items[..|items| - 1], x) + if items[|items| - 1] == x then [] else [items[|items| - 1]]
  }

  function Apply(u: Update, d: Document): Document {
    match u
    case Recall(attempt) =>
      var reward := Reward(d, attempt);
      d.(uiVersion := Some(30),
         xp := Some(GetOr(d.xp, 0) + reward),
         flashAttempts := Some(Prefix([attempt] + GetOr(d.flashAttempts, []), 200)),
         selectedFlashAttempt := Some(attempt.id),
         flashActiveId := Some(attempt.cardId),
         flashRewardClaims := Some(if reward != 0 then Suffix(Claims(d) + [RewardKey(attempt)], 1_000) else Claims(d)))
    case SaveDraft(cardId, draft) =>
      d.(flashDrafts := Some(GetOr(d.flashDrafts, map[])[cardId := draft.(text := Prefix(draft.text, 1_200))]))
    case Shuffle(cardId) =>
      d.(flashRecent := Some(Prefix([cardId] + Without(GetOr(d.flashRecent, []), cardId), 6)))
    case Rename(name, objective) =>
      d.(displayName := Some(if BrowserTrim(name) == "" then "Operator" else BrowserTrim(name)),
         profileObjective := Some(BrowserTrim(objective)))
  }

  /** What one attempt sends: the parsed update of the candidate, or nothing when the parse throws. */
  function Next(u: Update, candidate: Document): Option<Document> {
    Parse(Apply(u, candidate))
  }

  lemma NextIsFull(u: Update, d: Document)
    requires Full(d) && Next(u, d).Some?
    ensures Full(Next(u, d).value)
  {
    hide SchemaAccepts;
    ParseIsIdempotent(Apply(u, d));
  }

  /** Adding a trimmed attempt to trimmed attempts leaves nothing to trim. */
  lemma TidyPrefix(a: FlashAttempt, attempts: seq<FlashAttempt>)
    requires Tidy(a) == a && TidyAll(attempts) == attempts
    ensures var all := Prefix([a] + attempts, 200); TidyAll(all) == all
  {
    hide Tidy;
    var all := Prefix([a] + attempts, 200);
    forall i | 0 <= i < |all| ensures Tidy(all[i]) == all[i] {
      if i > 0 { assert all[i] == attempts[i - 1]; }
    }
  }

  // ---------------------------------------------------------------- one task

  /** An answer to a save: the stored record, a status with its error code, or no usable answer. */
  datatype SaveReply = Saved(record: Loaded) | ApiError(status: int, code: string) | Broken

  predicate IsRevisionRace(reply: SaveReply) {
    reply.ApiError? &&
    (reply.status == 409 || reply.status == 412 || reply.code == "revision_conflict" || reply.code == "if_match_invalid")
  }

  /** A queued save's life in the browser. */
  datatype Client =
    | Queued
    | Awaiting(attempt: nat, base: Ready, next: Document)
    | Reloading
    | Succeeded(saved: Ready)
    | Failed(raced: bool)

  /** Normalise what was loaded, apply the update, and send. */
  function Try(attempt: nat, current: Loaded, u: Update): Client {
    match Normalize(current)
    case None => Failed(false)
    case Some(candidate) =>
      match Next(u, candidate.state)
      case None => Failed(false)
      case Some(next) => Awaiting(attempt, candidate, next)
  }

  function OnSaveReply(attempt: nat, reply: SaveReply): Client {
    match reply
    case Saved(record) =>
      (match Normalize(record) case None => Failed(false) case Some(ready) => Succeeded(ready))
    case _ => if attempt == 0 && IsRevisionRace(reply) then Reloading else Failed(IsRevisionRace(reply))
  }

  function OnReload(u: Update, reply: Option<Loaded>): Client {
    match reply case None => Failed(false) case Some(record) => Try(1, record, u)
  }

  datatype Request = Request(revision: nat, state: Document)

  /** The loop itself, against scripted answers: two saves at most with one reload between them. The second
      save calls the updater again, at time `later`. */
  method SaveProfileUpdate(current: Loaded, u: Update, later: string, answers: seq<SaveReply>, reload: Option<Loaded>)
    returns (outcome: Client, sent: seq<Request>)
    requires |answers| == 2
    ensures outcome.Succeeded? || outcome.Failed?
    ensures |sent| <= 2
    ensures sent == [] <==> Try(0, current, u).Failed?
    ensures forall k :: 0 <= k < |sent| ==>
              var source := if k == 0 then Some(current) else reload;
              source.Some? && Normalize(source.value).Some? && sent[k].revision == source.value.revision
              && Next(if k == 0 then u else Restamped(u, later), Normalize(source.value).value.state) == Some(sent[k].state)
    ensures |sent| == 2 <==>
              && sent != [] && answers[0].ApiError?
              && (answers[0].status == 409 || answers[0].status == 412
                  || answers[0].code == "revision_conflict" || answers[0].code == "if_match_invalid")
              && reload.Some? && Normalize(reload.value).Some?
              && Next(Restamped(u, later), Normalize(reload.value).value.state).Some?
    ensures outcome.Succeeded? <==>
              sent != [] && answers[|sent| - 1].Saved? && Normalize(answers[|sent| - 1].record).Some?
    ensures outcome.Succeeded? ==> Normalize(answers[|sent| - 1].record).value == outcome.saved
    ensures outcome == Failed(true) <==>
              && |sent| == 2 && answers[1].ApiError?
              && (answers[1].status == 409 || answers[1].status == 412
                  || answers[1].code == "revision_conflict" || answers[1].code == "if_match_invalid")
  {
    hide Normalize, Next, Restamped;
    sent := [];
    var normal := Normalize(current);
    if normal.None? { return Failed(false), sent; }
    var candidate := normal.value;
    var attempt := 0;
    while attempt < 2
      invariant 0 <= attempt <= 2 && |sent| == attempt
      invariant attempt == 0 ==> Normalize(current) == Some(candidate)
      invariant attempt == 1 ==> reload.Some? && Normalize(reload.value) == Some(candidate)
      invariant attempt == 1 ==> sent[0].revision == current.revision && Normalize(current).Some?
                                 && Next(u, Normalize(current).value.state) == Some(sent[0].state)
      invariant attempt == 1 ==> IsRevisionRace(answers[0])
      invariant attempt <= 1
    {
      NormalizeKeepsRevision(if attempt == 0 then current else reload.value);
      var next := Next(if attempt == 0 then u else Restamped(u, later), candidate.state);
      if next.None? { return Failed(false), sent; }
      sent := sent + [Request(candidate.revision, next.value)];
      var reply := answers[attempt];
      if reply.Saved? {
        var saved := Normalize(reply.record);
        return (if saved.Some? then Succeeded(saved.value) else Failed(false)), sent;
      }
      if attempt > 0 || !IsRevisionRace(reply) {
        return Failed(IsRevisionRace(reply)), sent;
      }
      if reload.None? { return Failed(false), sent; }
      var again := Normalize(reload.value);
      if again.None? { return Failed(false), sent; }
      candidate := again.value;
      attempt := attempt + 1;
    }
    assert false;
  }

  lemma NormalizeKeepsRevision(r: Loaded)
    ensures Normalize(r).Some? ==> Normalize(r).value.revision == r.revision
  {
  }
}
