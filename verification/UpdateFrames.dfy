/** What each page update changes, and what it and loading leave alone. */
module UpdateFrames {
  import opened Prelude
  import opened Contracts
  import opened RecallText
  import opened RecallScorer
  import opened StateValidator
  import opened ProfileState
  import opened RewardLedger
  import opened AcceptedSaves

  /** `t` is what `slice(0, n)` leaves of `s`. */
  ghost predicate CutTo(t: string, s: string, n: nat) {
    |t| <= |s| && s[..|t|] == t && |t| <= n && (|t| < n ==> t == s)
  }

  /** Saving a draft replaces that card's draft, cut to 1200 characters, and nothing else. */
  lemma DraftFrame(cardId: string, draft: FlashDraft, d: Document)
    requires Full(d) && Next(SaveDraft(cardId, draft), d).Some?
    ensures var n := Next(SaveDraft(cardId, draft), d).value;
            && n == d.(flashDrafts := n.flashDrafts) && n.flashDrafts.Some?
            && var before, after := d.flashDrafts.value, n.flashDrafts.value;
               && after.Keys == before.Keys + {cardId}
               && (forall id :: id in before && id != cardId ==> after[id] == before[id])
               && after[cardId].updatedAt == draft.updatedAt && CutTo(after[cardId].text, draft.text, 1_200)
  {
    NothingToTrim(SaveDraft(cardId, draft), d);
    hide Next;
  }

  /** Renaming trims both texts, falls back to "Operator", and changes nothing else. */
  lemma RenameFrame(name: string, objective: string, d: Document)
    requires Full(d) && Next(Rename(name, objective), d).Some?
    ensures var n := Next(Rename(name, objective), d).value;
            && n == d.(displayName := n.displayName, profileObjective := n.profileObjective)
            && n.displayName == Some(if BrowserTrim(name) == "" then "Operator" else BrowserTrim(name))
            && n.profileObjective == Some(BrowserTrim(objective))
  {
    NothingToTrim(Rename(name, objective), d);
    hide Next, BrowserTrim;
  }

  lemma {:induction false} WithoutAbsent(items: seq<string>, x: string)
    requires x !in items
    ensures Without(items, x) == items
  {
    if items != [] {
      var init := items[..|items| - 1];
      assert items == init + [items[|items| - 1]];
      WithoutAbsent(init, x);
    }
  }

  lemma {:induction false} WithoutSkips(a: seq<string>, x: string, b: seq<string>)
    requires x !in a && x !in b
    ensures Without(a + [x] + b, x) == a + b
    decreases |b|
  {
    var all := a + [x] + b;
    if b == [] {
      assert all[..|all| - 1] == a;
      WithoutAbsent(a, x);
      assert a + [] == a;
    } else {
      var init, last := b[..|b| - 1], b[|b| - 1];
      assert all[..|all| - 1] == a + [x] + init;
      assert forall y :: y in init ==> y in b;
      WithoutSkips(a, x, init);
      assert a + init + [last] == a + b;
    }
  }

  /** Moving on puts the card first among the recent ones, keeps the others in order, keeps six, and changes
      nothing else. */
  lemma ShuffleFrame(cardId: string, d: Document, a: seq<string>, b: seq<string>)
    requires Full(d) && Next(Shuffle(cardId), d).Some? && cardId !in a && cardId !in b
    requires d.flashRecent == Some(a + b) || d.flashRecent == Some(a + [cardId] + b)
    ensures var n := Next(Shuffle(cardId), d).value;
            && n == d.(flashRecent := n.flashRecent)
            && n.flashRecent == Some(Prefix([cardId] + a + b, 6))
  {
    NothingToTrim(Shuffle(cardId), d);
    hide Next;
    if d.flashRecent == Some(a + b) { WithoutAbsent(a + b, cardId); } else { WithoutSkips(a, cardId, b); }
    assert [cardId] + (a + b) == [cardId] + a + b;
  }

  /** A recall leaves drafts, recent cards, names and unknown fields alone, and makes its card the active one. */
  lemma RecallFrame(a: FlashAttempt, d: Document)
    requires Full(d) && Next(Recall(a), d).Some?
    ensures var n := Next(Recall(a), d).value;
            && n.flashDrafts == d.flashDrafts && n.flashRecent == d.flashRecent && n.rest == d.rest
            && n.displayName == d.displayName && n.profileObjective == d.profileObjective
            && n.flashActiveId == Some(a.cardId) && n.selectedFlashAttempt == Some(a.id) && n.uiVersion == Some(30)
  {
    ParseOnlyTrims(Apply(Recall(a), d));
    hide Next, Parse, Reward, TidyAll;
  }

  /** Loading keeps every stored field: it raises the version to 30, trims answers, and fills in what is absent. */
  lemma NormalizeKeepsStored(revision: nat, d: Document)
    requires Normalize(Loaded(revision, Some(d))).Some?
    ensures var n := Normalize(Loaded(revision, Some(d))).value.state;
            && n.uiVersion == Some(if d.uiVersion.Some? && d.uiVersion.value > 30 then d.uiVersion.value else 30)
            && n.xp == (if d.xp.Some? then d.xp else Some(0))
            && n.displayName == (if d.displayName.Some? then d.displayName else Some("Operator"))
            && n.profileObjective ==
                 (if d.profileObjective.Some? then d.profileObjective else Some("Trading operations next round"))
            && n.flashDrafts == (if d.flashDrafts.Some? then d.flashDrafts else Some(map[]))
            && n.selectedFlashAttempt == (if d.selectedFlashAttempt.Some? then d.selectedFlashAttempt else Some(""))
            && n.flashActiveId == (if d.flashActiveId.Some? then d.flashActiveId else Some("f01"))
            && n.flashRecent == (if d.flashRecent.Some? then d.flashRecent else Some([]))
            && n.flashRewardClaims == (if d.flashRewardClaims.Some? then d.flashRewardClaims else Some([]))
            && n.rest == map["flashIndex" := "0", "flashRevealed" := "false"] + d.rest
            && n.flashAttempts.Some? && SameButTrimmed(n.flashAttempts.value, GetOr(d.flashAttempts, []))
  {
    ParseOnlyTrims(Filled(Some(d)));
    hide Parse, SchemaAccepts;
  }

  /** The same attempts in the same order, each with its answer trimmed. */
  ghost predicate SameButTrimmed(after: seq<FlashAttempt>, before: seq<FlashAttempt>) {
    |after| == |before| &&
    forall i :: 0 <= i < |after| ==> after[i] == before[i].(answer := BrowserTrim(before[i].answer))
  }

  /** Called again, an updater keeps its card and text and takes the new time; all others repeat themselves. */
  lemma RestampedKeepsItsIntent(u: Update, now: string)
    ensures u.SaveDraft? ==> Restamped(u, now) == SaveDraft(u.cardId, FlashDraft(u.draft.text, now))
    ensures !u.SaveDraft? ==> Restamped(u, now) == u
  {
  }

  // ---------------------------------------------------------------- what can be loaded

  lemma TrimmedFits(a: FlashAttempt)
    requires ValidAttempt(a)
    ensures SchemaAttempt(Tidy(a)) <==> |BrowserTrim(a.answer)| >= 20
  {
    BrowserTrimIsHarmless(a.answer);
    hide CardPattern, TimestampPattern, Words, BrowserTrim, Trim, Tokens;
  }

  /** The one thing the browser's schema asks of a selection. */
  predicate ShortSelection(d: Document) {
    d.selectedFlashAttempt.Some? ==> |d.selectedFlashAttempt.value| <= 100
  }

  ghost predicate AnswersSurviveTrimming(d: Document) {
    forall i :: 0 <= i < |GetOr(d.flashAttempts, [])| ==> |BrowserTrim(GetOr(d.flashAttempts, [])[i].answer)| >= 20
  }

  /** A document the service accepts can be loaded by the pages exactly when its selection is no longer than 100
      characters and every answer still has 20 once trimmed: the service checks neither. */
  lemma LoadableExactly(revision: nat, d: Document)
    requires ValidState(d)
    ensures Normalize(Loaded(revision, Some(d))).Some? <==> ShortSelection(d) && AnswersSurviveTrimming(d)
  {
    hide SchemaAttempt, ValidAttempt, ValidDraft, SchemaDraft, CardPattern, BrowserTrim, SchemaStrings;
    var f := Filled(Some(d));
    var attempts := GetOr(d.flashAttempts, []);
    forall i | 0 <= i < |attempts|
      ensures TidyAll(attempts)[i] == Tidy(attempts[i])
      ensures SchemaAttempt(Tidy(attempts[i])) <==> |BrowserTrim(attempts[i].answer)| >= 20
    {
      assert ValidAttempt(attempts[i]);
      TrimmedFits(attempts[i]);
    }
    AttemptsFit(attempts);
    RestFits(d);
    hide ValidState, TidyAll, Tidy;
    ParsesBy(f, attempts);
  }

  /** Parsing completed fields comes down to the attempts and the selection, when the rest fits. */
  lemma ParsesBy(f: Document, attempts: seq<FlashAttempt>)
    requires f.flashAttempts == Some(attempts) && f.uiVersion.Some? && f.xp.Some? && f.displayName.Some?
    requires f.profileObjective.Some? && f.flashDrafts.Some? && f.flashActiveId.Some? && f.flashRecent.Some?
    requires f.flashRewardClaims.Some? && f.selectedFlashAttempt.Some?
    requires OthersFit(f)
    ensures Parse(f).Some? <==> |f.selectedFlashAttempt.value| <= 100 && SchemaAttempts(TidyAll(attempts))
  {
    hide SchemaAttempt, SchemaDraft, CardPattern, SchemaStrings, Tidy;
  }

  ghost predicate OthersFit(f: Document)
    requires f.uiVersion.Some? && f.xp.Some? && f.displayName.Some?
    requires f.profileObjective.Some? && f.flashDrafts.Some? && f.flashActiveId.Some? && f.flashRecent.Some?
    requires f.flashRewardClaims.Some?
  {
    && 1 <= f.uiVersion.value <= 100 && 0 <= f.xp.value <= 100_000_000
    && |f.displayName.value| <= 80 && |f.profileObjective.value| <= 160
    && (forall id :: id in f.flashDrafts.value ==> SchemaDraft(f.flashDrafts.value[id]))
    && (f.flashActiveId.value == "" || CardPattern(f.flashActiveId.value))
    && |f.flashRecent.value| <= 6 && (forall i :: 0 <= i < |f.flashRecent.value| ==> CardPattern(f.flashRecent.value[i]))
    && SchemaStrings(f.flashRewardClaims.value, 1_000)
  }

  ghost predicate SchemaAttempts(attempts: seq<FlashAttempt>) {
    |attempts| <= 200 && forall i :: 0 <= i < |attempts| ==> SchemaAttempt(attempts[i])
  }

  lemma AttemptsFit(attempts: seq<FlashAttempt>)
    requires |attempts| <= 200
    requires forall i :: 0 <= i < |attempts| ==> (SchemaAttempt(Tidy(attempts[i])) <==> |BrowserTrim(attempts[i].answer)| >= 20)
    ensures SchemaAttempts(TidyAll(attempts)) <==>
              forall i :: 0 <= i < |attempts| ==> |BrowserTrim(attempts[i].answer)| >= 20
  {
    hide SchemaAttempt, BrowserTrim, Tidy;
    assert forall i :: 0 <= i < |attempts| ==> TidyAll(attempts)[i] == Tidy(attempts[i]);
  }

  /** Everything else that the service accepts, the schema accepts too. */
  lemma RestFits(d: Document)
    requires ValidState(d)
    ensures OthersFit(Filled(Some(d)))
  {
    assert CardPattern("f01");
    hide CardPattern, ValidAttempts, TimestampPattern;
  }

  /** Such a document: accepted, and no page can load it. */
  lemma UnloadableIsAccepted(lex: Lexicon, catalog: Catalog) returns (d: Document)
    ensures Accepts(lex, catalog, d) && forall revision: nat :: Normalize(Loaded(revision, Some(d))).None?
  {
    var long: string := seq(101, _ => 'x');
    d := INITIAL.(selectedFlashAttempt := Some(long));
    assert ValidState(d);
    forall revision: nat ensures Normalize(Loaded(revision, Some(d))).None? {
      LoadableExactly(revision, d);
    }
  }
}
