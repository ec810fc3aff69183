/** Recall attempts with ids of their own are always stored, whatever the cards and days. */
module RecallRuns {
  import opened Prelude
  import opened Contracts
  import opened RecallText
  import opened RecallScorer
  import opened StateValidator
  import opened ProfileState
  import opened RewardLedger
  import opened RecallHistory
  import opened AcceptedSaves

  /** A valid attempt can always be saved while XP stays below its cap. */
  lemma RecallIsSaved(d: Document, a: FlashAttempt)
    requires Full(d) && ValidAttempt(a) && Tidy(a) == a && |RewardKey(a)| <= 80 && Xp(d) <= 99_999_990
    ensures Next(Recall(a), d).Some?
  {
    assert SchemaAccepts(d) by { ParseOnlyTrims(d); }
    ValidFitsTheSchema(a);
    TidyPrefix(a, d.flashAttempts.value);
    SchemaKeepsRecall(d, a);
    hide SchemaAccepts, TidyAll, Tidy, Reward, RewardKey, ValidAttempt, SchemaAttempt;
  }

  lemma ValidFitsTheSchema(a: FlashAttempt)
    requires ValidAttempt(a)
    ensures SchemaAttempt(a)
  {
    hide CardPattern, TimestampPattern, Words;
  }

  lemma SchemaKeepsRecall(d: Document, a: FlashAttempt)
    requires SchemaAccepts(d) && SchemaAttempt(a) && |RewardKey(a)| <= 80 && 0 <= Xp(d) <= 99_999_990
    ensures SchemaAccepts(Apply(Recall(a), d))
  {
    assert CardPattern(a.cardId) && 1 <= |a.id| <= 100 && |RewardKey(a)| >= 1;
    SuffixStaysShort(Claims(d), RewardKey(a));
    hide SchemaAttempt, SchemaDraft, CardPattern, RewardKey, SchemaStrings;
  }

  lemma SuffixStaysShort(claims: seq<string>, key: string)
    requires SchemaStrings(claims, CLAIM_LIMIT) && 1 <= |key| <= 80
    ensures SchemaStrings(Suffix(claims + [key], CLAIM_LIMIT), CLAIM_LIMIT)
  {
    var all := claims + [key];
    var kept := Suffix(all, CLAIM_LIMIT);
    forall i | 0 <= i < |kept| ensures kept[i] == all[i + (|all| - |kept|)] {
    }
  }

  /** Nothing but recall attempts, all well-formed. */
  ghost predicate WellFormedRecalls(lex: Lexicon, catalog: Catalog, updates: seq<Update>) {
    forall i :: 0 <= i < |updates| ==> updates[i].Recall? && WellFormed(lex, catalog, updates[i])
  }

  ghost predicate OwnIds(updates: seq<Update>) {
    forall i, j :: 0 <= i < j < |updates| && updates[i].Recall? && updates[j].Recall? ==>
      updates[i].attempt.id != updates[j].attempt.id
  }

  ghost predicate AllRecalls(updates: seq<Update>) {
    forall i :: 0 <= i < |updates| ==> updates[i].Recall?
  }

  lemma {:induction false} RecordedIds(updates: seq<Update>)
    requires AllRecalls(updates)
    ensures |Recorded(updates)| == |updates|
    ensures forall i :: 0 <= i < |updates| ==> Recorded(updates)[i].id == updates[|updates| - 1 - i].attempt.id
  {
    if updates != [] {
      var n := |updates| - 1;
      RecordedIds(updates[..n]);
      hide Tidy;
      RecordedStep(updates);
      hide Recorded;
    }
  }

  /** An id not used before is not among the stored attempts. */
  lemma NextIdIsFresh(first: Document, updates: seq<Update>)
    requires updates != [] && AllRecalls(updates) && OwnIds(updates) && Full(first) && Attempts(first) == []
    ensures var r := After(first, updates[..|updates| - 1]);
            r.Some? ==> Full(r.value) && !HasId(Newest(Attempts(r.value)), updates[|updates| - 1].attempt.id)
  {
    var n := |updates| - 1;
    var init := updates[..n];
    if After(first, init).None? { return; }
    NewestAttemptsAreKept(first, init);
    RecordedIds(init);
    hide After, Full, Recorded;
    var kept := Newest(Attempts(After(first, init).value));
    assert Recorded(init) + [] == Recorded(init);
    forall i | 0 <= i < |kept| ensures kept[i].id != updates[n].attempt.id {
      assert kept[i] == Recorded(init)[i];
      assert init[n - 1 - i] == updates[n - 1 - i];
    }
  }

  lemma RecallKeyFits(a: FlashAttempt)
    requires ValidAttempt(a)
    ensures |RewardKey(a)| <= 80
  {
    assert CardPattern(a.cardId);
  }

  /** One more attempt under its own id is stored. */
  lemma OneMoreIsStored(lex: Lexicon, catalog: Catalog, d: Document, a: FlashAttempt)
    requires Full(d) && Accepts(lex, catalog, d) && Xp(d) <= 99_999_990
    ensures var r := Next(Recall(a), d);
            Usable(lex, catalog, Recall(a)) && !HasId(Newest(Attempts(d)), a.id) ==>
              r.Some? && Full(r.value) && Accepts(lex, catalog, r.value) && Xp(r.value) <= Xp(d) + 10
  {
    hide Accepts, WellFormed, Next, HasId, RewardKey, WellKeyed;
    if !Usable(lex, catalog, Recall(a)) { return; }
    AuthenticIsValid(lex, catalog, a);
    RecallKeyFits(a);
    hide ValidAttempt, EvidenceOk;
    RecallIsSaved(d, a);
    UpdateIsAccepted(lex, catalog, Recall(a), d);
    PaidStep(Recall(a), d);
    assert Reward(d, a) <= 10;
  }

  /** Any number of well-formed attempts under ids of their own are stored, one after another, up to the XP cap. */
  lemma {:induction false} FreshRecallsAreStored(lex: Lexicon, catalog: Catalog, first: Document, updates: seq<Update>)
    requires WellKeyed(catalog) && |lex.specificity| <= 5
    requires Full(first) && Attempts(first) == [] && Accepts(lex, catalog, first)
    requires WellFormedRecalls(lex, catalog, updates) && OwnIds(updates) && Xp(first) + 10 * |updates| <= 99_999_999
    ensures var r := After(first, updates);
            r.Some? && Full(r.value) && Accepts(lex, catalog, r.value) && Xp(r.value) <= Xp(first) + 10 * |updates|
  {
    hide Accepts, WellFormed, Next, HasId, WellKeyed, Full, Attempts, Xp;
    if updates != [] {
      var n := |updates| - 1;
      FreshRecallsAreStored(lex, catalog, first, updates[..n]);
      NextIdIsFresh(first, updates);
      OneMoreIsStored(lex, catalog, After(first, updates[..n]).value, updates[n].attempt);
    }
  }

  /** All payable, and no two for the same card and day. */
  ghost predicate DifferentClaims(updates: seq<Update>) {
    && (forall i :: 0 <= i < |updates| ==> Payable(updates[i]))
    && forall i, j :: 0 <= i < j < |updates| && updates[i].Recall? && updates[j].Recall? ==>
         RewardKey(updates[i].attempt) != RewardKey(updates[j].attempt)
  }

  lemma {:induction false} AllAreFirsts(updates: seq<Update>)
    requires DifferentClaims(updates)
    ensures |Firsts(updates)| == |updates|
    ensures forall k :: 0 <= k < |updates| ==> updates[k] == Recall(Firsts(updates)[k])
  {
    hide RewardKey, RecallReward, KeysOf;
    if updates != [] {
      var n := |updates| - 1;
      var init := updates[..n];
      assert DifferentClaims(init);
      AllAreFirsts(init);
      NewClaim(updates, Firsts(init));
      hide DifferentClaims;
    }
  }

  lemma NewClaim(updates: seq<Update>, before: seq<FlashAttempt>)
    requires updates != [] && DifferentClaims(updates) && |before| == |updates| - 1
    requires forall k :: 0 <= k < |before| ==> updates[..|updates| - 1][k] == Recall(before[k])
    ensures Payable(updates[|updates| - 1]) && RewardKey(updates[|updates| - 1].attempt) !in KeysOf(before)
    ensures forall k :: 0 <= k < |before| ==> updates[k] == Recall(before[k])
  {
    hide RewardKey, RecallReward;
    forall k | 0 <= k < |before| ensures updates[k] == Recall(before[k]) {
      assert updates[..|updates| - 1][k] == updates[k];
    }
  }
}
