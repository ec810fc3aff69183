/** What the pages save from an accepted state, the service accepts again. */
module AcceptedSaves {
  import opened Prelude
  import opened Contracts
  import opened RecallText
  import opened RecallScorer
  import opened StateValidator
  import opened ProfileState

  ghost predicate ScoredFrom(lex: Lexicon, catalog: Catalog, a: FlashAttempt, text: string) {
    var result := Score(lex, catalog, a.cardId, BrowserTrim(text));
    result.Success? && a == AttemptOf(result.value, a.id, a.createdAt)
  }

  /** The service's own result for some text the page trimmed and sent, under the page's id and time. */
  ghost predicate Authentic(lex: Lexicon, catalog: Catalog, a: FlashAttempt) {
    exists text: string :: ScoredFrom(lex, catalog, a, text)
  }

  /** What the pages put into an update: scored attempts, known cards, usable ids and times. */
  ghost predicate WellFormed(lex: Lexicon, catalog: Catalog, u: Update) {
    match u
    case Recall(a) =>
      && Authentic(lex, catalog, a) && ShortConcepts(lex, catalog[a.cardId])
      && 1 <= |a.id| <= 100 && |a.createdAt| <= 40 && TimestampPattern(a.createdAt)
    case SaveDraft(cardId, draft) =>
      CardPattern(cardId) && |draft.updatedAt| <= 40 && (draft.updatedAt == "" || TimestampPattern(draft.updatedAt))
    case Shuffle(cardId) => CardPattern(cardId)
    case Rename(_, _) => true
  }

  // ---------------------------------------------------------------- trimming answers

  /** Scoring sees words and punctuation only, so the browser's trim changes nothing but the stored text. */
  lemma ScoreOfTrimmed(lex: Lexicon, catalog: Catalog, cardId: string, answer: string)
    requires Score(lex, catalog, cardId, answer).Success? && Trim(answer) == answer && |BrowserTrim(answer)| >= 20
    ensures Score(lex, catalog, cardId, BrowserTrim(answer)) ==
            Success(Score(lex, catalog, cardId, answer).value.(answer := BrowserTrim(answer)))
  {
    BrowserTrimIsHarmless(answer);
    var t := BrowserTrim(answer);
    hide Words, BrowserTrim, Trim, Tokens, Specificity, Matched, ConceptsFor, Verdict, ContainsAny;
    assert ('.' in t <==> '.' in answer) && (';' in t <==> ';' in answer) && (':' in t <==> ':' in answer);
  }

  lemma TidyKeepsValid(lex: Lexicon, catalog: Catalog, a: FlashAttempt)
    requires ValidAttempt(a) && EvidenceOk(lex, catalog, a) && |BrowserTrim(a.answer)| >= 20
    ensures ValidAttempt(Tidy(a)) && EvidenceOk(lex, catalog, Tidy(a)) && Tidy(a).id == a.id
  {
    BrowserTrimIsHarmless(a.answer);
    if a.rubricVersion == 2 {
      TrimIsIdempotent(a.answer);
      assert a.answer == Trim(a.answer);
      ScoreOfTrimmed(lex, catalog, a.cardId, a.answer);
    }
    hide Words, BrowserTrim, Trim, StringList, CardPattern, TimestampPattern, Score;
  }

  ghost predicate Replays(lex: Lexicon, catalog: Catalog, attempts: seq<FlashAttempt>) {
    forall i :: 0 <= i < |attempts| ==> EvidenceOk(lex, catalog, attempts[i])
  }

  lemma TidyAllKeepsValid(lex: Lexicon, catalog: Catalog, attempts: seq<FlashAttempt>)
    requires ValidAttempts(attempts) && Replays(lex, catalog, attempts)
    requires forall i :: 0 <= i < |attempts| ==> SchemaAttempt(TidyAll(attempts)[i])
    ensures ValidAttempts(TidyAll(attempts)) && Replays(lex, catalog, TidyAll(attempts))
  {
    var t := TidyAll(attempts);
    hide ValidAttempt, EvidenceOk, BrowserTrim, CardPattern, TimestampPattern;
    forall i | 0 <= i < |t| ensures ValidAttempt(t[i]) && EvidenceOk(lex, catalog, t[i]) && t[i].id == attempts[i].id {
      assert SchemaAttempt(t[i]);
      TidyKeepsValid(lex, catalog, attempts[i]);
    }
  }

  /** Parsing an accepted document leaves it accepted. */
  lemma ParseKeepsAccepted(lex: Lexicon, catalog: Catalog, d: Document)
    requires Accepts(lex, catalog, d) && Parse(d).Some?
    ensures Accepts(lex, catalog, Parse(d).value)
  {
    if d.flashAttempts.Some? {
      assert Replays(lex, catalog, d.flashAttempts.value);
      hide SchemaAttempt, ValidAttempts, EvidenceOk, SchemaDraft, ValidDrafts, ValidRecent, ValidClaims, CardPattern;
      TidyAllKeepsValid(lex, catalog, d.flashAttempts.value);
    }
  }

  /** A tab's normalised copy of an accepted state, or of no state, is accepted. */
  lemma NormalizeKeepsAccepted(lex: Lexicon, catalog: Catalog, r: Loaded)
    requires Normalize(r).Some? && (r.state.Some? ==> Accepts(lex, catalog, r.state.value))
    ensures Accepts(lex, catalog, Normalize(r).value.state)
  {
    hide Accepts, Filled, Parse;
    FilledIsAccepted(lex, catalog, r.state);
    ParseKeepsAccepted(lex, catalog, Filled(r.state));
  }

  /** Defaults spoil nothing. */
  lemma FilledIsAccepted(lex: Lexicon, catalog: Catalog, state: Option<Document>)
    requires state.Some? ==> Accepts(lex, catalog, state.value)
    ensures Accepts(lex, catalog, Filled(state))
  {
    hide ValidAttempt, EvidenceOk, ValidDraft;
    assert CardPattern("f01");
    hide CardPattern;
    if state.Some? {
      hide ValidAttempts, ValidDrafts, ValidRecent, ValidClaims;
      assert ValidState(Filled(state)) by { DefaultsAreValid(); }
    }
  }

  lemma DefaultsAreValid()
    ensures ValidAttempts([]) && ValidDrafts(map[]) && ValidRecent([]) && ValidClaims([])
  {
  }

  // ---------------------------------------------------------------- one update

  lemma AuthenticIsValid(lex: Lexicon, catalog: Catalog, a: FlashAttempt)
    requires WellKeyed(catalog) && |lex.specificity| <= 5 && WellFormed(lex, catalog, Recall(a))
    ensures ValidAttempt(a) && EvidenceOk(lex, catalog, a) && Tidy(a) == a
  {
    var text :| ScoredFrom(lex, catalog, a, text);
    AuthenticAttemptsPass(lex, catalog, a.cardId, BrowserTrim(text), a.id, a.createdAt);
    BrowserTrimIsHarmless(text);
    hide Trim, BrowserTrim, ConceptsFor, Words, ShortConcepts, ValidAttempt, EvidenceOk;
  }

  /** XP follows the verdict the service gave: ten for strong, five for developing, nothing otherwise. */
  lemma RewardFollowsVerdict(a: FlashAttempt)
    requires ValidAttempt(a)
    ensures RecallReward(a.score) == 10 <==> a.verdict == "strong"
    ensures RecallReward(a.score) == 5 <==> a.verdict == "developing"
    ensures RecallReward(a.score) == 0 <==> a.verdict == "needs-work"
  {
    hide Words, StringList, Disjoint, CardPattern, TimestampPattern;
  }

  function Newest(attempts: seq<FlashAttempt>): seq<FlashAttempt> { Prefix(attempts, 199) }

  ghost predicate HasId(attempts: seq<FlashAttempt>, id: string) {
    exists i :: 0 <= i < |attempts| && attempts[i].id == id
  }

  lemma PrependKeepsDistinct(a: FlashAttempt, attempts: seq<FlashAttempt>)
    requires DistinctIds(attempts) && |attempts| <= 200
    ensures DistinctIds(Prefix([a] + attempts, 200)) <==> !HasId(Newest(attempts), a.id)
  {
    var all := Prefix([a] + attempts, 200);
    var newest := Newest(attempts);
    assert all == [a] + newest;
    if HasId(newest, a.id) {
      var i :| 0 <= i < |newest| && newest[i].id == a.id;
      assert all[0].id == all[i + 1].id;
    }
    if !HasId(newest, a.id) {
      forall i, j | 0 <= i < j < |all| ensures all[i].id != all[j].id {
        if i == 0 { assert all[j] == newest[j - 1]; } else { assert all[i] == attempts[i - 1] && all[j] == attempts[j - 1]; }
      }
    }
  }

  lemma PrependedAttempts(lex: Lexicon, catalog: Catalog, a: FlashAttempt, attempts: seq<FlashAttempt>)
    requires ValidAttempts(attempts) && Replays(lex, catalog, attempts) && ValidAttempt(a) && EvidenceOk(lex, catalog, a)
    ensures var all := Prefix([a] + attempts, 200);
            Replays(lex, catalog, all) && (ValidAttempts(all) <==> !HasId(Newest(attempts), a.id))
  {
    hide ValidAttempt, EvidenceOk;
    PrependKeepsDistinct(a, attempts);
    hide DistinctIds, HasId, Newest;
    var all := Prefix([a] + attempts, 200);
    forall i | 0 <= i < |all| ensures ValidAttempt(all[i]) && EvidenceOk(lex, catalog, all[i]) {
      if i > 0 { assert all[i] == attempts[i - 1]; }
    }
  }

  lemma ClaimsStayValid(claims: seq<string>, key: string)
    requires ValidClaims(claims) && key !in claims && 1 <= |key| <= 80
    ensures ValidClaims(Suffix(claims + [key], 1_000))
  {
    var all := claims + [key];
    var kept := Suffix(all, 1_000);
    var cut := |all| - |kept|;
    forall i | 0 <= i < |kept| ensures kept[i] == all[i + cut] {
    }
    forall i, j | 0 <= i < j < |kept| ensures kept[i] != kept[j] {
      assert kept[i] == all[i + cut] && kept[j] == all[j + cut];
      assert all[i + cut] == claims[i + cut];
    }
  }

  lemma {:induction false} WithoutKeeps(items: seq<string>, x: string)
    requires Distinct(items)
    ensures var r := Without(items, x);
            Distinct(r) && x !in r && (forall y :: y in r ==> y in items) && |r| <= |items|
  {
    if items != [] {
      var init := items[..|items| - 1];
      var last := items[|items| - 1];
      WithoutKeeps(init, x);
      assert items == init + [last];
      var r := Without(init, x);
      if last != x {
        forall i | 0 <= i < |r| ensures r[i] != last { assert r[i] in init; }
      }
    }
  }

  lemma RecentStaysValid(recent: seq<string>, cardId: string)
    requires ValidRecent(recent) && CardPattern(cardId)
    ensures ValidRecent(Prefix([cardId] + Without(recent, cardId), 6))
  {
    hide CardPattern;
    WithoutKeeps(recent, cardId);
    var rest := Without(recent, cardId);
    forall y | y in rest ensures CardPattern(y) {
      var i :| 0 <= i < |recent| && recent[i] == y;
    }
    var all := Prefix([cardId] + rest, 6);
    forall i | 0 <= i < |all| ensures CardPattern(all[i]) {
      if i > 0 { assert all[i] == rest[i - 1]; }
    }
  }

  /** A map keyed by card ids has at most 150 entries. */
  lemma AtMost150Keys<T>(drafts: map<string, T>)
    requires forall id :: id in drafts ==> CardPattern(id)
    ensures |drafts| <= 150
  {
    hide CardPattern;
    var cards := Listing(drafts.Keys);
    AtMost150Cards(cards);
  }

  lemma {:induction false} Listing(ids: set<string>) returns (list: seq<string>)
    ensures |list| == |ids| && Distinct(list) && forall x :: x in list <==> x in ids
  {
    list := [];
    if ids != {} {
      var x :| x in ids;
      var rest := Listing(ids - {x});
      list := rest + [x];
    }
  }

  /** A well-formed update, under a catalogue and rubric as the service loads them. */
  ghost predicate Usable(lex: Lexicon, catalog: Catalog, u: Update) {
    WellKeyed(catalog) && |lex.specificity| <= 5 && WellFormed(lex, catalog, u)
  }

  /** An update of an accepted state that parses at all is accepted again, with one exact condition:
      a recall attempt's id must not be among the 199 newest. */
  lemma UpdateIsAccepted(lex: Lexicon, catalog: Catalog, u: Update, d: Document)
    requires Accepts(lex, catalog, d) && Full(d)
    ensures Usable(lex, catalog, u) && Next(u, d).Some? ==>
              (Accepts(lex, catalog, Next(u, d).value) <==>
                (u.Recall? ==> !HasId(Newest(d.flashAttempts.value), u.attempt.id)))
  {
    if !Usable(lex, catalog, u) { return; }
    match u
    case Recall(a) => RecallIsAccepted(lex, catalog, a, d);
    case SaveDraft(cardId, draft) => DraftIsAccepted(lex, catalog, cardId, draft, d);
    case Shuffle(cardId) => ShuffleIsAccepted(lex, catalog, cardId, d);
    case Rename(name, objective) => RenameIsAccepted(lex, catalog, name, objective, d);
  }

  /** An update that parses is what it applied, when it leaves the answers trimmed. */
  lemma NothingToTrim(u: Update, d: Document)
    requires Full(d) && Next(u, d).Some? && (u.Recall? ==> Tidy(u.attempt) == u.attempt)
    ensures Next(u, d) == Some(Apply(u, d))
  {
    hide SchemaAccepts, Tidy, Reward, RewardKey;
    if u.Recall? { TidyPrefix(u.attempt, d.flashAttempts.value); }
  }

  lemma SavedXpIsBounded(u: Update, d: Document)
    requires Next(u, d).Some?
    ensures Next(u, d).value.xp.Some? ==> 0 <= Next(u, d).value.xp.value <= 100_000_000
  {
  }

  lemma RecallClaims(d: Document, a: FlashAttempt)
    requires ValidClaims(Claims(d)) && CardPattern(a.cardId)
    ensures ValidClaims(Claims(Apply(Recall(a), d)))
  {
    assert 1 <= |RewardKey(a)| <= 80;
    hide CardPattern, ValidClaims, RewardKey, RecallReward;
    if RewardKey(a) !in Claims(d) { ClaimsStayValid(Claims(d), RewardKey(a)); }
  }

  /** All that a recall attempt can spoil is the attempt list. */
  lemma RecallSpoilsOnlyAttempts(lex: Lexicon, catalog: Catalog, a: FlashAttempt, d: Document)
    requires Accepts(lex, catalog, d) && Full(d) && CardPattern(a.cardId)
    requires Next(Recall(a), d) == Some(Apply(Recall(a), d))
    ensures var n := Apply(Recall(a), d);
            Accepts(lex, catalog, n) <==> ValidAttempts(n.flashAttempts.value) && Replays(lex, catalog, n.flashAttempts.value)
  {
    SavedXpIsBounded(Recall(a), d);
    RecallClaims(d, a);
    hide Parse, EvidenceOk, ValidAttempts, ValidClaims, CardPattern, ValidRecent, ValidDrafts, RewardKey, Next, Reward;
  }

  lemma RecallIsAccepted(lex: Lexicon, catalog: Catalog, a: FlashAttempt, d: Document)
    requires Accepts(lex, catalog, d) && Full(d)
    ensures Usable(lex, catalog, Recall(a)) && Next(Recall(a), d).Some? ==>
              (Accepts(lex, catalog, Next(Recall(a), d).value) <==> !HasId(Newest(d.flashAttempts.value), a.id))
  {
    if !Usable(lex, catalog, Recall(a)) || Next(Recall(a), d).None? { return; }
    AuthenticIsValid(lex, catalog, a);
    NothingToTrim(Recall(a), d);
    RecallSpoilsOnlyAttempts(lex, catalog, a, d);
    assert Replays(lex, catalog, d.flashAttempts.value) && ValidAttempts(d.flashAttempts.value);
    hide Full, Next, WellFormed, EvidenceOk, ValidAttempts, ValidAttempt, CardPattern, HasId, Accepts, Replays, Reward, RewardKey, Newest;
    PrependedAttempts(lex, catalog, a, d.flashAttempts.value);
  }

  lemma DraftIsAccepted(lex: Lexicon, catalog: Catalog, cardId: string, draft: FlashDraft, d: Document)
    requires Accepts(lex, catalog, d) && Full(d)
    ensures WellFormed(lex, catalog, SaveDraft(cardId, draft)) && Next(SaveDraft(cardId, draft), d).Some? ==>
              Accepts(lex, catalog, Next(SaveDraft(cardId, draft), d).value)
  {
    var u := SaveDraft(cardId, draft);
    if !WellFormed(lex, catalog, u) || Next(u, d).None? { return; }
    NothingToTrim(u, d);
    DraftIsValid(lex, catalog, cardId, draft);
    assert d.flashDrafts.Some? && ValidDrafts(d.flashDrafts.value);
    hide Full, Next, ValidDrafts, ValidDraft, WellFormed, CardPattern, Prefix, Accepts;
    DraftsStayValid(d.flashDrafts.value, cardId, draft.(text := Prefix(draft.text, 1_200)));
    DraftsAlone(lex, catalog, d, d.flashDrafts.value[cardId := draft.(text := Prefix(draft.text, 1_200))]);
  }

  lemma DraftsAlone(lex: Lexicon, catalog: Catalog, d: Document, drafts: map<string, FlashDraft>)
    requires Accepts(lex, catalog, d) && ValidDrafts(drafts)
    ensures Accepts(lex, catalog, d.(flashDrafts := Some(drafts)))
  {
    hide ValidDrafts, ValidAttempts, EvidenceOk, ValidRecent, ValidClaims, CardPattern;
  }

  lemma DraftIsValid(lex: Lexicon, catalog: Catalog, cardId: string, draft: FlashDraft)
    requires WellFormed(lex, catalog, SaveDraft(cardId, draft))
    ensures CardPattern(cardId) && ValidDraft(draft.(text := Prefix(draft.text, 1_200)))
  {
    hide CardPattern, TimestampPattern;
  }

  lemma DraftsStayValid(drafts: map<string, FlashDraft>, cardId: string, draft: FlashDraft)
    requires ValidDrafts(drafts) && CardPattern(cardId) && ValidDraft(draft)
    ensures ValidDrafts(drafts[cardId := draft])
  {
    hide CardPattern, ValidDraft;
    AtMost150Keys(drafts[cardId := draft]);
  }

  lemma ShuffleIsAccepted(lex: Lexicon, catalog: Catalog, cardId: string, d: Document)
    requires Accepts(lex, catalog, d) && Full(d) && CardPattern(cardId)
    ensures Next(Shuffle(cardId), d).Some? ==> Accepts(lex, catalog, Next(Shuffle(cardId), d).value)
  {
    if Next(Shuffle(cardId), d).None? { return; }
    NothingToTrim(Shuffle(cardId), d);
    RecentStaysValid(d.flashRecent.value, cardId);
    hide Full, Next, Without, ValidAttempts, EvidenceOk, ValidRecent, ValidClaims, ValidDrafts, CardPattern;
  }

  lemma RenameIsAccepted(lex: Lexicon, catalog: Catalog, name: string, objective: string, d: Document)
    requires Accepts(lex, catalog, d) && Full(d)
    ensures Next(Rename(name, objective), d).Some? ==> Accepts(lex, catalog, Next(Rename(name, objective), d).value)
  {
    if Next(Rename(name, objective), d).None? { return; }
    NothingToTrim(Rename(name, objective), d);
    hide BrowserTrim, EvidenceOk;
  }
}
