/** A run the service stores that is paid twice for one card and day: its days go back after a thousand payments. */
module RewardLapse {
  import opened Prelude
  import opened Contracts
  import opened RecallText
  import opened RecallScorer
  import opened StateValidator
  import opened ProfileState
  import opened RewardLedger
  import opened RecallHistory
  import opened AcceptedSaves
  import opened SyncProtocol
  import opened SavedRuns
  import opened LoneTab
  import opened RecallRuns
  import opened SampleCards

  // ---------------------------------------------------------------- a catalogue of 150 one-concept cards

  function DigitOf(n: nat): (c: char)
    requires n < 10
    ensures Digit(c) && DigitValue(c) == n
  {
    '0' + n as char
  }

  function TwoDigits(n: nat): string
    requires n < 100
  {
    [DigitOf(n / 10), DigitOf(n % 10)]
  }

  function CardName(n: nat): string
    requires 1 <= n <= 150
  {
    if n < 100 then "f" + TwoDigits(n) else "f1" + TwoDigits(n - 100)
  }

  lemma CardNameIsCard(n: nat)
    requires 1 <= n <= 150
    ensures CardPattern(CardName(n)) && CardNumber(CardName(n)) == n && |CardName(n)| <= 4
  {
  }

  /** The pattern admits exactly the names f01 to f150. */
  lemma CardsAreNamed(id: string)
    ensures CardPattern(id) <==> exists n :: 1 <= n <= 150 && id == CardName(n)
  {
    if CardPattern(id) {
      var n := CardNumber(id);
      CardNameIsCard(n);
      CardNumberIsInjective(id, CardName(n));
    }
    forall n | 1 <= n <= 150 && id == CardName(n) ensures CardPattern(id) { CardNameIsCard(n); }
  }

  function Note(id: string): Flashcard { Flashcard(id, NOTE, NOTE) }

  function CardNames(): set<string> {
    set n | 1 <= n <= 150 :: CardName(n)
  }

  function Notes(): Catalog {
    map id | id in CardNames() :: Note(id)
  }

  lemma NotesAreWellKeyed()
    ensures WellKeyed(Notes())
    ensures forall n :: 1 <= n <= 150 ==> CardName(n) in Notes() && Notes()[CardName(n)] == Note(CardName(n))
  {
    hide CardPattern, CardName, CardNumber;
    forall id | id in Notes() ensures CardPattern(id) {
      var n :| 1 <= n <= 150 && id == CardName(n);
      CardNameIsCard(n);
    }
  }

  /** What the scorer returns for that answer on any of the cards. */
  function Graded(id: string): RecallResult {
    Grade(RUBRIC, id, ANSWER, [NOTE])
  }

  lemma GradedIsScored(n: nat)
    requires 1 <= n <= 150
    ensures Score(RUBRIC, Notes(), CardName(n), BrowserTrim(ANSWER)) == Success(Graded(CardName(n)))
    ensures Graded(CardName(n)).score >= 60 && ShortConcepts(RUBRIC, Notes()[CardName(n)])
  {
    hide Tokens, Words, Trim, BrowserTrim, ConceptsFor, CardName, Notes, Score, Grade, ANSWER, RUBRIC, Word, AcceptableAnswer;
    NotesAreWellKeyed();
    AnswerIsAcceptable();
    AnswerTrims();
    AnswerNamesTheNote();
    NoteIsSignificant();
    hide NOTE;
    OneWordCard(RUBRIC, CardName(n), NOTE);
    OneConceptIsCovered(RUBRIC, Notes(), CardName(n), ANSWER, NOTE);
  }

  // ---------------------------------------------------------------- the attempts

  /** An attempt at card `n` on a day of January 2026, at an hour of it. */
  function Sample(n: nat, day: nat, hour: nat): FlashAttempt
    requires 1 <= n <= 150 && 10 <= day < 20 && 10 <= hour < 20
  {
    AttemptOf(Graded(CardName(n)), CardName(n) + "-" + TwoDigits(day) + TwoDigits(hour),
              "2026-01-" + TwoDigits(day) + "T" + TwoDigits(hour) + ":00:00Z")
  }

  lemma SampleTime(day: nat, hour: nat)
    requires 10 <= day < 20 && 10 <= hour < 20
    ensures var t := "2026-01-" + TwoDigits(day) + "T" + TwoDigits(hour) + ":00:00Z";
            TimestampPattern(t) && |t| == 20 && Day(t) == "2026-01-" + TwoDigits(day)
  {
    var t := "2026-01-" + TwoDigits(day) + "T" + TwoDigits(hour) + ":00:00Z";
    assert t[19..] == "Z";
    assert t[0..4] == "2026" && t[5..7] == "01" && t[8..10] == TwoDigits(day);
    assert t[11..13] == TwoDigits(hour) && t[14..16] == "00" && t[17..19] == "00";
    assert t[..10] == "2026-01-" + TwoDigits(day);
  }

  lemma SampleIsWellFormed(n: nat, day: nat, hour: nat)
    requires 1 <= n <= 150 && 10 <= day < 20 && 10 <= hour < 20
    ensures var a := Sample(n, day, hour);
            WellFormed(RUBRIC, Notes(), Recall(a)) && RecallReward(a.score) > 0
  {
    hide Sample, Authentic, Day, Graded, CardName, Score, TimestampPattern, CardPattern, Notes, ANSWER, TwoDigits, RUBRIC,
         ShortConcepts;
    GradedIsScored(n);
    SampleFields(n, day, hour);
    SampleIsAuthentic(n, day, hour);
  }

  lemma SampleFields(n: nat, day: nat, hour: nat)
    requires 1 <= n <= 150 && 10 <= day < 20 && 10 <= hour < 20
    ensures var a := Sample(n, day, hour);
            && 1 <= |a.id| <= 9 && a.cardId == CardName(n) && |a.createdAt| == 20 && TimestampPattern(a.createdAt)
            && a.score == Graded(CardName(n)).score
  {
    hide TimestampPattern, CardPattern, CardNumber, Grade, ANSWER, RUBRIC, Day;
    CardNameIsCard(n);
    SampleTime(day, hour);
    GradedCard(CardName(n));
  }

  lemma SampleIsAuthentic(n: nat, day: nat, hour: nat)
    requires 1 <= n <= 150 && 10 <= day < 20 && 10 <= hour < 20
    ensures Authentic(RUBRIC, Notes(), Sample(n, day, hour))
  {
    hide Score, BrowserTrim, Notes, ANSWER, TwoDigits, RUBRIC, CardName, Graded;
    GradedIsScored(n);
    assert Graded(CardName(n)).cardId == CardName(n) by { GradedCard(CardName(n)); }
    assert ScoredFrom(RUBRIC, Notes(), Sample(n, day, hour), ANSWER);
  }

  lemma GradedCard(id: string)
    ensures Graded(id).cardId == id
  {
    hide Words, Tokens, Matched, Structure, Specificity, Coverage, Verdict, ANSWER, RUBRIC;
  }

  lemma TwoDigitsAreExact(a: nat, b: nat)
    requires a < 100 && b < 100
    ensures TwoDigits(a) == TwoDigits(b) ==> a == b
  {
    assert TwoDigits(a)[0] == DigitOf(a / 10) && TwoDigits(a)[1] == DigitOf(a % 10);
    assert TwoDigits(b)[0] == DigitOf(b / 10) && TwoDigits(b)[1] == DigitOf(b % 10);
  }

  lemma CardNamesDiffer(m: nat, n: nat)
    requires 1 <= m <= 150 && 1 <= n <= 150
    ensures CardName(m) == CardName(n) ==> m == n
  {
    CardNameIsCard(m);
    CardNameIsCard(n);
  }

  /** Cut after a prefix of known length. */
  lemma TailsAgree(a: string, x: string, b: string, y: string)
    requires a + x == b + y && |x| == |y|
    ensures a == b && x == y
  {
    assert |a| == |b|;
    assert a == (a + x)[..|a|] && b == (b + y)[..|b|];
    assert x == (a + x)[|a|..] && y == (b + y)[|b|..];
  }

  lemma SamplesDiffer(m: nat, day: nat, hour: nat, n: nat, day2: nat, hour2: nat)
    requires 1 <= m <= 150 && 10 <= day < 20 && 10 <= hour < 20
    requires 1 <= n <= 150 && 10 <= day2 < 20 && 10 <= hour2 < 20
    ensures Sample(m, day, hour).id == Sample(n, day2, hour2).id ==> m == n && day == day2 && hour == hour2
    ensures RewardKey(Sample(m, day, hour)) == RewardKey(Sample(n, day2, hour2)) <==> m == n && day == day2
  {
    var a, b := Sample(m, day, hour), Sample(n, day2, hour2);
    CardNameIsCard(m);
    CardNameIsCard(n);
    CardNamesDiffer(m, n);
    TwoDigitsAreExact(day, day2);
    TwoDigitsAreExact(hour, hour2);
    SampleTime(day, hour);
    SampleTime(day2, hour2);
    assert a.cardId == CardName(m) && b.cardId == CardName(n);
    KeyIsInjective(a, b);
    hide CardName, CardPattern, CardNumber, Graded, RewardKey, TimestampPattern;
    if a.id == b.id {
      TailsAgree(CardName(m) + "-" + TwoDigits(day), TwoDigits(hour), CardName(n) + "-" + TwoDigits(day2), TwoDigits(hour2));
      TailsAgree(CardName(m) + "-", TwoDigits(day), CardName(n) + "-", TwoDigits(day2));
      TailsAgree(CardName(m), "-", CardName(n), "-");
    }
    if Day(a.createdAt) == Day(b.createdAt) { TailsAgree("2026-01-", TwoDigits(day), "2026-01-", TwoDigits(day2)); }
  }

  const LAST := 1_001

  /** All 150 cards a day from 10 January on, a thousand and one in all; then the first card's first day again. */
  function Probe(k: nat): FlashAttempt
    requires k <= LAST
  {
    if k < LAST then Sample(1 + k % 150, 10 + k / 150, 10) else Sample(1, 10, 11)
  }

  lemma ProbesDiffer(j: nat, k: nat)
    requires j < k <= LAST
    ensures Probe(j).id != Probe(k).id
    ensures RewardKey(Probe(j)) == RewardKey(Probe(k)) <==> j == 0 && k == LAST
  {
    hide Sample, RewardKey;
    if k < LAST {
      SamplesDiffer(1 + j % 150, 10 + j / 150, 10, 1 + k % 150, 10 + k / 150, 10);
    } else {
      SamplesDiffer(1 + j % 150, 10 + j / 150, 10, 1, 10, 11);
    }
  }

  lemma ProbeIsWellFormed(k: nat)
    requires k <= LAST
    ensures var a := Probe(k);
            WellFormed(RUBRIC, Notes(), Recall(a)) && RecallReward(a.score) > 0
  {
    hide Sample, RewardKey, WellFormed, RecallReward;
    if k < LAST { SampleIsWellFormed(1 + k % 150, 10 + k / 150, 10); } else { SampleIsWellFormed(1, 10, 11); }
  }

  // ---------------------------------------------------------------- the run

  function Probes(n: nat): (u: seq<Update>)
    requires n <= LAST + 1
    ensures |u| == n
    ensures forall k :: 0 <= k < n ==> u[k] == Recall(Probe(k))
  {
    seq(n, k requires 0 <= k < n => Recall(Probe(k)))
  }

  ghost predicate IsTheRun(updates: seq<Update>) {
    |updates| == LAST + 1 && forall k :: 0 <= k < |updates| ==> updates[k] == Recall(Probe(k))
  }

  lemma TheRun() returns (updates: seq<Update>)
    ensures IsTheRun(updates)
  {
    var n: nat :| n == LAST + 1;
    updates := Probes(n);
  }

  lemma TheRunIsWellFormed(updates: seq<Update>)
    requires IsTheRun(updates)
    ensures WellFormedRecalls(RUBRIC, Notes(), updates) && OwnIds(updates)
  {
    hide WellFormed, Probe;
    forall i | 0 <= i < |updates| ensures WellFormed(RUBRIC, Notes(), updates[i]) { ProbeIsWellFormed(i); }
    forall i, j | 0 <= i < j < |updates| ensures updates[i].attempt.id != updates[j].attempt.id { ProbesDiffer(i, j); }
  }

  lemma AllButTheLastDiffer(updates: seq<Update>)
    requires IsTheRun(updates)
    ensures DifferentClaims(updates[..LAST]) && Payable(updates[LAST])
  {
    hide Probe, RewardKey, RecallReward, WellFormed;
    forall i | 0 <= i < |updates| ensures Payable(updates[i]) { ProbeIsWellFormed(i); }
    var init := updates[..LAST];
    forall i, j | 0 <= i < j < |init| ensures RewardKey(init[i].attempt) != RewardKey(init[j].attempt) { ProbesDiffer(i, j); }
  }

  /** Its last attempt repeats the first one's card and day, which a thousand others have followed. */
  lemma TheRunLapses(updates: seq<Update>)
    requires IsTheRun(updates)
    ensures |updates| == LAST + 1 && Lapses(updates, LAST)
  {
    var init := updates[..LAST];
    AllButTheLastDiffer(updates);
    AllAreFirsts(init);
    hide Probe, RewardKey, Payable, Firsts, Suffix, DifferentClaims, KeysOf;
    FirstKeyOnly(updates, Firsts(init));
    hide IsTheRun;
    LastInSuffix(KeysOf(Firsts(init)), CLAIM_LIMIT, 0);
  }

  lemma FirstKeyOnly(updates: seq<Update>, firsts: seq<FlashAttempt>)
    requires IsTheRun(updates) && |firsts| == LAST
    requires forall k :: 0 <= k < LAST ==> updates[..LAST][k] == Recall(firsts[k])
    ensures forall k :: 0 <= k < LAST ==> (KeysOf(firsts)[k] == RewardKey(updates[LAST].attempt) <==> k == 0)
  {
    hide Probe, RewardKey, KeysOf;
    forall k | 0 <= k < LAST ensures KeysOf(firsts)[k] == RewardKey(updates[LAST].attempt) <==> k == 0 {
      assert updates[..LAST][k] == updates[k];
      ProbesDiffer(k, LAST);
    }
  }

  lemma TheRunIsAccepted(v: Service, updates: seq<Update>)
    requires v == Service(RUBRIC, Notes()) && IsTheRun(updates)
    ensures AllAccepted(v, updates)
  {
    TheRunIsWellFormed(updates);
    NotesAreWellKeyed();
    RubricHasFiveGroups();
    InitialIsFull();
    NormalizeKeepsAccepted(v.lex, v.catalog, Loaded(0, None));
    hide Notes, RUBRIC, Accepts, WellFormed, INITIAL, Full, After, WellKeyed, Probe, Normalize, WellFormedRecalls, OwnIds;
    AllAreAccepted(v, INITIAL, updates);
  }

  lemma AllAreAccepted(v: Service, first: Document, updates: seq<Update>)
    requires WellKeyed(v.catalog) && |v.lex.specificity| <= 5 && Xp(first) == 0 && |updates| <= 2_000
    requires Full(first) && Attempts(first) == [] && Accepts(v.lex, v.catalog, first)
    requires WellFormedRecalls(v.lex, v.catalog, updates) && OwnIds(updates)
    ensures forall n :: 0 <= n <= |updates| ==>
              After(first, updates[..n]).Some? && Accepts(v.lex, v.catalog, After(first, updates[..n]).value)
  {
    hide Accepts, WellFormed, Full, After, WellKeyed;
    forall n | 0 <= n <= |updates|
      ensures After(first, updates[..n]).Some? && Accepts(v.lex, v.catalog, After(first, updates[..n]).value)
    {
      FreshRecallsAreStored(v.lex, v.catalog, first, updates[..n]);
    }
  }

  lemma InitialIsFull()
    ensures Full(INITIAL) && Claims(INITIAL) == [] && Attempts(INITIAL) == [] && Xp(INITIAL) == 0
    ensures Normalize(Loaded(0, None)) == Some(Ready(0, INITIAL))
  {
  }

  lemma TheRunIsWellUsed(v: Service, s: Sys, updates: seq<Update>)
    requires v == Service(RUBRIC, Notes()) && IsTheRun(updates) && Realised(s, updates)
    ensures WellUsed(v, s) && FreshIds(s)
  {
    TheRunIsWellFormed(updates);
    NotesAreWellKeyed();
    RubricHasFiveGroups();
    hide Notes, RUBRIC, WellFormed, WellKeyed, Probe, HasId, InLog, IsTheRun;
    forall t | 0 <= t < |s.tasks| ensures WellFormed(v.lex, v.catalog, s.tasks[t].update) {
      assert WellFormed(v.lex, v.catalog, updates[t]);
    }
    OwnIdsAreFresh(s, updates);
  }

  lemma OwnIdsAreFresh(s: Sys, updates: seq<Update>)
    requires Realised(s, updates) && OwnIds(updates)
    ensures FreshIds(s)
  {
    hide HasId, InLog;
    forall t, u | 0 <= t < u < |s.tasks| && s.tasks[t].update.Recall? && s.tasks[u].update.Recall?
      ensures s.tasks[t].update.attempt.id != s.tasks[u].update.attempt.id
    {
      assert s.tasks[t].update == updates[t] && s.tasks[u].update == updates[u];
    }
  }

  lemma RealisedIsCommitted(s: Sys, updates: seq<Update>)
    requires Realised(s, updates)
    ensures TabsOnly(s, 0, |s.log|) && Committed(s, 0, |s.log|) == updates
  {
    assert TabsOnly(s, 0, |s.log|);
    var committed := Committed(s, 0, |s.log|);
    forall i | 0 <= i < |updates| ensures committed[i] == updates[i] {
      assert committed[i - 0] == s.tasks[s.log[i].author.value].update;
    }
  }

  lemma LapseIsALapse(updates: seq<Update>, i: nat)
    requires i < |updates| && Lapses(updates, i)
    ensures !NeverLapses(updates)
  {
    hide Lapses;
  }

  lemma RealisedIsNonempty(s: Sys, updates: seq<Update>)
    requires Realised(s, updates) && updates != []
    ensures s.log != [] && LoadedAt(s.log, 0) == Loaded(0, None)
  {
  }

  /** One tab, well-formed attempts with ids of their own, nothing lost and every save stored: and one card and
      day is paid twice. Only the days go back. */
  lemma AStoredRunIsPaidTwice() returns (v: Service, actions: seq<Action>)
    ensures var s := Exec(v, actions);
            && WellUsed(v, s) && FreshIds(s) && s.log != []
            && TabsOnly(s, 0, |s.log|) && Readable(s, 0) && Claims(StateAt(s, 0)) == []
            && !PaidOnce(Grants(StateAt(s, 0), Committed(s, 0, |s.log|)))
  {
    hide Notes, RUBRIC, WellUsed, FreshIds, PaidOnce, Lapses, Probe, After, Grants, Full, Exec, SaveAll, INITIAL, Normalize,
         AllAccepted, IsTheRun, Realised, TabsOnly, Committed;
    var updates := TheRun();
    v, actions := Service(RUBRIC, Notes()), SaveAll(updates);
    var s := Exec(v, actions);
    TheRunIsAccepted(v, updates);
    TheRunLapses(updates);
    InitialIsFull();
    LoneTabRealises(v, updates);
    LapseIsALapse(updates, LAST);
    RealisedIsNonempty(s, updates);
    TheRunIsWellUsed(v, s, updates);
    RealisedIsCommitted(s, updates);
    TwiceExactlyWhenLapsed(INITIAL, updates);
  }
}
