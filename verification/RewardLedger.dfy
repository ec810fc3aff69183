/** XP over whole runs of saves: which recall attempts are paid, and when one card is paid twice for one day. */
module RewardLedger {
  import opened Prelude
  import opened TextOrder
  import opened Contracts
  import opened RecallText
  import opened ProfileState

  const CLAIM_LIMIT := 1_000

  /** The fold: each update applied in turn to the result of the one before. None when some parse throws. */
  function After(first: Document, updates: seq<Update>): Option<Document> {
    if updates == [] then Some(first)
    else
      match After(first, updates[..|updates| - 1])
      case None => None
      case Some(d) => Next(updates[|updates| - 1], d)
  }

  /** A payment: which update, for which attempt, how much. */
  datatype Grant = Grant(at: nat, attempt: FlashAttempt, xp: nat)

  predicate Pays(d: Document, u: Update) {
    u.Recall? && Reward(d, u.attempt) != 0
  }

  /** Every payment of a run, in order. Nothing is ever dropped from this list. */
  function Grants(first: Document, updates: seq<Update>): seq<Grant> {
    if updates == [] then []
    else
      var init, u := updates[..|updates| - 1], updates[|updates| - 1];
      match After(first, init)
      case None => Grants(first, init)
      case Some(d) =>
        Grants(first, init) + if Pays(d, u) then [Grant(|init|, u.attempt, Reward(d, u.attempt))] else []
  }

  function Keys(grants: seq<Grant>): (keys: seq<string>)
    ensures |keys| == |grants|
    ensures forall k :: 0 <= k < |grants| ==> keys[k] == RewardKey(grants[k].attempt)
  {
    if grants == [] then [] else Keys(grants[..|grants| - 1]) + [RewardKey(grants[|grants| - 1].attempt)]
  }

  function Total(grants: seq<Grant>): nat {
    if grants == [] then 0 else Total(grants[..|grants| - 1]) + grants[|grants| - 1].xp
  }

  function Xp(d: Document): int { GetOr(d.xp, 0) }

  // ---------------------------------------------------------------- one update

  /** Parsing touches nothing but the answers of attempts. */
  lemma ParseOnlyTrims(d: Document)
    requires Parse(d).Some?
    ensures var t := Parse(d).value;
            && t == d.(flashAttempts := t.flashAttempts) && SchemaAccepts(t)
            && (d.flashAttempts.None? ==> t == d)
            && (d.flashAttempts.Some? ==> t.flashAttempts == Some(TidyAll(d.flashAttempts.value)))
  {
  }

  lemma PaidStep(u: Update, d: Document)
    requires Full(d) && Next(u, d).Some?
    ensures var n := Next(u, d).value;
            && Full(n)
            && Xp(n) == Xp(d) + (if Pays(d, u) then Reward(d, u.attempt) else 0)
            && Claims(n) == (if Pays(d, u) then Suffix(Claims(d) + [RewardKey(u.attempt)], CLAIM_LIMIT) else Claims(d))
            && |Claims(n)| <= CLAIM_LIMIT
  {
    NextIsFull(u, d);
    ParseOnlyTrims(Apply(u, d));
    hide Reward, RewardKey, TidyAll, SchemaAttempt, SchemaDraft;
  }

  /** A recall that is saved at all has a well-formed card and time. */
  lemma SavedRecallIsWellFormed(u: Update, d: Document)
    requires u.Recall? && Next(u, d).Some?
    ensures CardPattern(u.attempt.cardId) && TimestampPattern(u.attempt.createdAt)
  {
    ParseOnlyTrims(Apply(u, d));
    hide CardPattern, TimestampPattern, Reward;
    var all := Prefix([u.attempt] + GetOr(d.flashAttempts, []), 200);
    assert TidyAll(all)[0] == Tidy(u.attempt);
  }

  lemma LastInSuffix<T>(s: seq<T>, n: nat, last: nat)
    requires last < |s|
    ensures |s| - last <= n ==> s[last] in Suffix(s, n)
    ensures |s| - last > n && (forall k :: last < k < |s| ==> s[k] != s[last]) ==> s[last] !in Suffix(s, n)
  {
    var kept := Suffix(s, n);
    var cut := |s| - |kept|;
    assert forall k :: 0 <= k < |kept| ==> kept[k] == s[k + cut];
    if last >= cut { assert kept[last - cut] == s[last]; }
  }

  lemma DistinctSuffix<T>(s: seq<T>, k: nat)
    requires k <= |s| && Distinct(s)
    ensures Distinct(s[k..])
  {
  }

  lemma SuffixOfSuffix<T>(s: seq<T>, x: T, n: nat)
    requires n > 0
    ensures Suffix(Suffix(s, n) + [x], n) == Suffix(s + [x], n)
  {
  }

  // ---------------------------------------------------------------- the ledger

  lemma Unfold(first: Document, updates: seq<Update>)
    requires updates != []
    ensures var init, u := updates[..|updates| - 1], updates[|updates| - 1];
            After(first, updates).Some? ==>
              && After(first, init).Some?
              && Next(u, After(first, init).value) == After(first, updates)
              && Grants(first, updates) == Grants(first, init) +
                   if Pays(After(first, init).value, u)
                   then [Grant(|init|, u.attempt, Reward(After(first, init).value, u.attempt))] else []
  {
  }

  lemma KeysGrow(grants: seq<Grant>, g: Grant)
    ensures Keys(grants + [g]) == Keys(grants) + [RewardKey(g.attempt)]
    ensures Total(grants + [g]) == Total(grants) + g.xp
  {
    assert (grants + [g])[..|grants|] == grants;
  }

  lemma FullClaims(d: Document)
    requires Full(d)
    ensures |Claims(d)| <= CLAIM_LIMIT
  {
    ParseOnlyTrims(d);
  }

  /** On every run: the claim list is the last 1000 keys of everything ever claimed or paid, and XP is the
      opening XP plus every payment. */
  lemma {:induction false} ClaimsAndXpFollowTheLedger(first: Document, updates: seq<Update>)
    requires Full(first) && After(first, updates).Some?
    ensures var d, grants := After(first, updates).value, Grants(first, updates);
            && Full(d)
            && Claims(d) == Suffix(Claims(first) + Keys(grants), CLAIM_LIMIT)
            && Xp(d) == Xp(first) + Total(grants)
  {
    hide Next, Parse, Reward, RewardKey;
    if updates == [] {
      assert After(first, updates) == Some(first) && Grants(first, updates) == [];
      assert |Claims(first)| <= CLAIM_LIMIT by { FullClaims(first); }
      assert Claims(first) + Keys([]) == Claims(first);
    } else {
      var init, u := updates[..|updates| - 1], updates[|updates| - 1];
      Unfold(first, updates);
      ClaimsAndXpFollowTheLedger(first, init);
      var d, before := After(first, init).value, Grants(first, init);
      PaidStep(u, d);
      hide Full, Grants, After, Keys, Total, Claims, Xp, Suffix;
      if Pays(d, u) {
        var g := Grant(|init|, u.attempt, Reward(d, u.attempt));
        KeysGrow(before, g);
        SuffixOfSuffix(Claims(first) + Keys(before), RewardKey(u.attempt), CLAIM_LIMIT);
        assert Claims(first) + Keys(before + [g]) == (Claims(first) + Keys(before)) + [RewardKey(u.attempt)];
      } else {
        assert before + [] == before;
      }
    }
  }

  /** Payments are made for recall updates, in order, and to well-formed cards and times. */
  ghost predicate Fits(grants: seq<Grant>, updates: seq<Update>) {
    && (forall k :: 0 <= k < |grants| ==>
         && grants[k].at < |updates| && updates[grants[k].at] == Recall(grants[k].attempt)
         && CardPattern(grants[k].attempt.cardId) && TimestampPattern(grants[k].attempt.createdAt))
    && (forall k, m :: 0 <= k < m < |grants| ==> grants[k].at < grants[m].at)
  }

  lemma FitsStep(grants: seq<Grant>, updates: seq<Update>, xp: nat)
    requires updates != [] && Fits(grants, updates[..|updates| - 1])
    ensures Fits(grants, updates)
    ensures var u := updates[|updates| - 1];
            u.Recall? && CardPattern(u.attempt.cardId) && TimestampPattern(u.attempt.createdAt) ==>
              Fits(grants + [Grant(|updates| - 1, u.attempt, xp)], updates)
  {
    hide CardPattern, TimestampPattern;
  }

  lemma {:induction false} GrantsAreOrdered(first: Document, updates: seq<Update>)
    requires After(first, updates).Some?
    ensures Fits(Grants(first, updates), updates)
  {
    if updates != [] {
      hide After, Grants, Next, CardPattern, TimestampPattern, Reward, Fits;
      var init, u := updates[..|updates| - 1], updates[|updates| - 1];
      Unfold(first, updates);
      GrantsAreOrdered(first, init);
      FitsStep(Grants(first, init), updates, if u.Recall? then Reward(After(first, init).value, u.attempt) else 0);
      if u.Recall? { SavedRecallIsWellFormed(u, After(first, init).value); }
      assert Grants(first, init) + [] == Grants(first, init);
    } else {
      assert Grants(first, updates) == [];
    }
  }

  // ---------------------------------------------------------------- once per card per day

  /** A key names one card and one day. */
  lemma KeyIsInjective(a: FlashAttempt, b: FlashAttempt)
    requires CardPattern(a.cardId) && CardPattern(b.cardId)
    ensures RewardKey(a) == RewardKey(b) <==> a.cardId == b.cardId && Day(a.createdAt) == Day(b.createdAt)
  {
    if RewardKey(a) == RewardKey(b) {
      var n := |a.cardId|;
      assert RewardKey(a)[3] == RewardKey(b)[3];
      assert RewardKey(a)[|a.cardId|] == ':' && RewardKey(b)[|b.cardId|] == ':';
      assert n == |b.cardId|;
      assert RewardKey(a)[..n] == a.cardId && RewardKey(b)[..n] == b.cardId;
      assert RewardKey(a)[n + 1..] == Day(a.createdAt) && RewardKey(b)[n + 1..] == Day(b.createdAt);
    }
  }

  // ---------------------------------------------------------------- what the inputs decide

  function KeysOf(attempts: seq<FlashAttempt>): (keys: seq<string>)
    ensures |keys| == |attempts|
    ensures forall k :: 0 <= k < |attempts| ==> keys[k] == RewardKey(attempts[k])
  {
    if attempts == [] then [] else KeysOf(attempts[..|attempts| - 1]) + [RewardKey(attempts[|attempts| - 1])]
  }

  /** A recall whose score earns XP, whatever has been claimed. */
  predicate Payable(u: Update) {
    u.Recall? && RecallReward(u.attempt.score) > 0
  }

  /** The payable attempts that are the first of their card and day, in order: a function of the inputs alone. */
  function Firsts(updates: seq<Update>): seq<FlashAttempt> {
    if updates == [] then []
    else
      var before, u := Firsts(updates[..|updates| - 1]), updates[|updates| - 1];
      if Payable(u) && RewardKey(u.attempt) !in KeysOf(before) then before + [u.attempt] else before
  }

  /** Update `i` repeats a payable card and day that a thousand other new ones have followed. */
  ghost predicate Lapses(updates: seq<Update>, i: nat)
    requires i < |updates|
  {
    && Payable(updates[i])
    && var keys, key := KeysOf(Firsts(updates[..i])), RewardKey(updates[i].attempt);
       key in keys && key !in Suffix(keys, CLAIM_LIMIT)
  }

  ghost predicate NeverLapses(updates: seq<Update>) {
    forall i :: 0 <= i < |updates| ==> !Lapses(updates, i)
  }

  lemma NeverLapsesStep(updates: seq<Update>)
    requires updates != []
    ensures var n := |updates| - 1;
            NeverLapses(updates) <==> NeverLapses(updates[..n]) && !Lapses(updates, n)
  {
    var n := |updates| - 1;
    forall i | 0 <= i < n ensures Lapses(updates, i) <==> Lapses(updates[..n], i) {
      assert updates[..n][..i] == updates[..i];
    }
  }

  lemma KeysOfGrow(attempts: seq<FlashAttempt>, a: FlashAttempt)
    ensures KeysOf(attempts + [a]) == KeysOf(attempts) + [RewardKey(a)]
  {
    assert (attempts + [a])[..|attempts|] == attempts;
  }

  lemma DistinctStep<T>(s: seq<T>, x: T)
    ensures Distinct(s + [x]) <==> Distinct(s) && x !in s
  {
    if Distinct(s + [x]) {
      forall i, j | 0 <= i < j < |s| ensures s[i] != s[j] { assert (s + [x])[i] != (s + [x])[j]; }
      forall i | 0 <= i < |s| ensures s[i] != x { assert (s + [x])[i] != (s + [x])[|s|]; }
    }
  }

  /** What the guard reads: an update is paid unless its key is among the last 1000 paid. */
  lemma PaidUnlessRecent(first: Document, updates: seq<Update>, u: Update)
    requires Full(first) && Claims(first) == [] && After(first, updates).Some?
    ensures Pays(After(first, updates).value, u) <==>
              Payable(u) && RewardKey(u.attempt) !in Suffix(Keys(Grants(first, updates)), CLAIM_LIMIT)
  {
    ClaimsAndXpFollowTheLedger(first, updates);
    hide After, Full, Grants, RewardKey, Keys, Claims, Suffix;
    assert [] + Keys(Grants(first, updates)) == Keys(Grants(first, updates));
  }

  /** One update, on plain key lists: `paid` as the run has it, `firsts` as the inputs have it. */
  lemma OneMoreKey(paid: seq<string>, firsts: seq<string>, key: string, payable: bool, lapsed: bool, never: bool)
    requires Distinct(paid) <==> never
    requires never ==> paid == firsts
    requires lapsed <==> payable && key in firsts && key !in Suffix(firsts, CLAIM_LIMIT)
    ensures var pays := payable && key !in Suffix(paid, CLAIM_LIMIT);
            var paid1 := if pays then paid + [key] else paid;
            var firsts1 := if payable && key !in firsts then firsts + [key] else firsts;
            && (Distinct(paid1) <==> never && !lapsed)
            && (never && !lapsed ==> paid1 == firsts1)
  {
    DistinctStep(paid, key);
    assert key in Suffix(paid, CLAIM_LIMIT) ==> key in paid;
  }

  lemma FirstsStep(updates: seq<Update>)
    requires updates != []
    ensures var n := |updates| - 1;
            var before, u := KeysOf(Firsts(updates[..n])), updates[n];
            KeysOf(Firsts(updates)) ==
              if Payable(u) && RewardKey(u.attempt) !in before then before + [RewardKey(u.attempt)] else before
  {
    var n := |updates| - 1;
    if updates[n].Recall? { KeysOfGrow(Firsts(updates[..n]), updates[n].attempt); }
    hide KeysOf, RewardKey;
  }

  lemma GrantKeysStep(first: Document, updates: seq<Update>)
    requires updates != [] && After(first, updates).Some?
    ensures var n := |updates| - 1;
            var before, u := Keys(Grants(first, updates[..n])), updates[n];
            && After(first, updates[..n]).Some?
            && Keys(Grants(first, updates)) ==
                 if Pays(After(first, updates[..n]).value, u) then before + [RewardKey(u.attempt)] else before
  {
    var n := |updates| - 1;
    var init, u := updates[..n], updates[n];
    Unfold(first, updates);
    hide Next, RewardKey, Keys, After, Grants;
    var d := After(first, init).value;
    if Pays(d, u) {
      KeysGrow(Grants(first, init), Grant(n, u.attempt, Reward(d, u.attempt)));
    } else {
      assert Grants(first, init) + [] == Grants(first, init);
    }
  }

  /** While nothing lapses the payments are exactly the first claims; a key is paid twice exactly when something does. */
  lemma {:induction false} PaymentsAreFirsts(first: Document, updates: seq<Update>)
    requires Full(first) && Claims(first) == [] && After(first, updates).Some?
    ensures Distinct(Keys(Grants(first, updates))) <==> NeverLapses(updates)
    ensures NeverLapses(updates) ==> Keys(Grants(first, updates)) == KeysOf(Firsts(updates))
  {
    if updates != [] {
      var n := |updates| - 1;
      var init, u := updates[..n], updates[n];
      GrantKeysStep(first, updates);
      FirstsStep(updates);
      NeverLapsesStep(updates);
      PaymentsAreFirsts(first, init);
      PaidUnlessRecent(first, init, u);
      var key := if u.Recall? then RewardKey(u.attempt) else "";
      assert Lapses(updates, n) <==> Payable(u) && key in KeysOf(Firsts(init)) && key !in Suffix(KeysOf(Firsts(init)), CLAIM_LIMIT);
      hide After, Full, Claims, Keys, Grants, RewardKey, NeverLapses, Lapses, Firsts, KeysOf, Suffix, Distinct, Pays;
      OneMoreKey(Keys(Grants(first, init)), KeysOf(Firsts(init)), key, Payable(u), Lapses(updates, n), NeverLapses(init));
    }
  }

  predicate SameCardAndDay(a: FlashAttempt, b: FlashAttempt) {
    a.cardId == b.cardId && Day(a.createdAt) == Day(b.createdAt)
  }

  /** No two payments are for one card on one day. */
  ghost predicate PaidOnce(grants: seq<Grant>) {
    forall k, m :: 0 <= k < m < |grants| ==> !SameCardAndDay(grants[k].attempt, grants[m].attempt)
  }

  lemma PaidOnceIsDistinct(grants: seq<Grant>)
    requires forall k :: 0 <= k < |grants| ==> CardPattern(grants[k].attempt.cardId)
    ensures PaidOnce(grants) <==> Distinct(Keys(grants))
  {
    hide CardPattern, RewardKey, Day, Keys;
    var keys := Keys(grants);
    forall k, m | 0 <= k < m < |grants|
      ensures keys[k] == keys[m] <==> SameCardAndDay(grants[k].attempt, grants[m].attempt)
    {
      KeyIsInjective(grants[k].attempt, grants[m].attempt);
    }
  }

  /** From an empty claim list, whatever the days do: some card is paid twice for one day exactly when some
      payable attempt repeats a card and day that at least a thousand other new ones have followed. */
  lemma TwiceExactlyWhenLapsed(first: Document, updates: seq<Update>)
    requires Full(first) && Claims(first) == [] && After(first, updates).Some?
    ensures PaidOnce(Grants(first, updates)) <==> NeverLapses(updates)
  {
    PaymentsAreFirsts(first, updates);
    GrantsAreOrdered(first, updates);
    hide After, Full, Claims, Keys, Grants, NeverLapses, PaidOnce, Distinct, CardPattern, TimestampPattern;
    PaidOnceIsDistinct(Grants(first, updates));
  }

  // ---------------------------------------------------------------- when days advance

  /** Saved days never run backwards. */
  ghost predicate DaysAdvance(updates: seq<Update>) {
    forall i, j :: 0 <= i < j < |updates| && updates[i].Recall? && updates[j].Recall? ==>
      NotAfter(Day(updates[i].attempt.createdAt), Day(updates[j].attempt.createdAt))
  }

  ghost predicate GoodCards(attempts: seq<FlashAttempt>) {
    forall k :: 0 <= k < |attempts| ==> CardPattern(attempts[k].cardId)
  }

  ghost predicate AllOn(attempts: seq<FlashAttempt>, day: string) {
    forall k :: 0 <= k < |attempts| ==> Day(attempts[k].createdAt) == day
  }

  /** The cards of distinct claims of one day are distinct. */
  lemma {:induction false} CardsOfADay(attempts: seq<FlashAttempt>, day: string) returns (cards: seq<string>)
    requires Distinct(KeysOf(attempts)) && GoodCards(attempts) && AllOn(attempts, day)
    ensures |cards| == |attempts| && DifferentCards(cards)
    ensures forall k :: 0 <= k < |attempts| ==> cards[k] == attempts[k].cardId
  {
    hide CardPattern, Day, RewardKey, KeysOf;
    cards := [];
    if attempts != [] {
      var n := |attempts| - 1;
      var init, a := attempts[..n], attempts[n];
      var keys := KeysOf(attempts);
      assert KeysOf(init) == keys[..n];
      var before := CardsOfADay(init, day);
      forall k | 0 <= k < n ensures before[k] != a.cardId {
        assert keys[k] != keys[n];
        KeyIsInjective(attempts[k], a);
      }
      cards := before + [a.cardId];
    }
  }

  /** One day has at most 150 different claims, one a card. */
  lemma ADayHasAtMost150(attempts: seq<FlashAttempt>, day: string)
    requires Distinct(KeysOf(attempts)) && GoodCards(attempts) && AllOn(attempts, day)
    ensures |attempts| <= 150
  {
    hide GoodCards, AllOn, KeysOf, CardPattern, DifferentCards;
    var cards := CardsOfADay(attempts, day);
    AtMost150Cards(cards);
  }

  lemma KeysSuffix(attempts: seq<FlashAttempt>, k: nat)
    requires k <= |attempts|
    ensures KeysOf(attempts[k..]) == KeysOf(attempts)[k..]
  {
  }

  ghost predicate Ordered(attempts: seq<FlashAttempt>) {
    forall k, m :: 0 <= k < m < |attempts| ==> NotAfter(Day(attempts[k].createdAt), Day(attempts[m].createdAt))
  }

  ghost predicate NoneAfter(attempts: seq<FlashAttempt>, day: string) {
    forall k :: 0 <= k < |attempts| ==> NotAfter(Day(attempts[k].createdAt), day)
  }

  /** Everything since a claim of the latest day is of that day. */
  lemma LatestDayIsATail(attempts: seq<FlashAttempt>, k: nat, day: string)
    requires k < |attempts| && Ordered(attempts) && NoneAfter(attempts, day) && Day(attempts[k].createdAt) == day
    ensures AllOn(attempts[k..], day)
  {
    hide Day, NotAfter;
    forall m | k <= m < |attempts| ensures Day(attempts[m].createdAt) == day {
      if m > k { NotAfterIsAntisymmetric(Day(attempts[m].createdAt), day); }
    }
  }

  /** A claim cannot be cut from the list on its own day. */
  lemma NoLapseOnItsOwnDay(attempts: seq<FlashAttempt>, a: FlashAttempt)
    requires Distinct(KeysOf(attempts)) && GoodCards(attempts) && CardPattern(a.cardId)
    requires Ordered(attempts) && NoneAfter(attempts, Day(a.createdAt))
    ensures RewardKey(a) in KeysOf(attempts) ==> RewardKey(a) in Suffix(KeysOf(attempts), CLAIM_LIMIT)
  {
    var keys := KeysOf(attempts);
    if RewardKey(a) in keys {
      hide CardPattern, Day, RewardKey, KeysOf, Suffix;
      var k :| 0 <= k < |attempts| && keys[k] == RewardKey(a);
      KeyIsInjective(attempts[k], a);
      assert GoodCards(attempts[k..]);
      hide GoodCards, Distinct, Ordered, NoneAfter, AllOn;
      LatestDayIsATail(attempts, k, Day(a.createdAt));
      KeysSuffix(attempts, k);
      DistinctSuffix(keys, k);
      ADayHasAtMost150(attempts[k..], Day(a.createdAt));
      LastInSuffix(keys, CLAIM_LIMIT, k);
    }
  }

  ghost predicate GoodRecalls(updates: seq<Update>) {
    forall i :: 0 <= i < |updates| && updates[i].Recall? ==> CardPattern(updates[i].attempt.cardId)
  }

  /** The first claims are distinct, and are attempts of the run in the order of their days. */
  lemma {:induction false} FirstsAreOrdered(updates: seq<Update>)
    requires DaysAdvance(updates) && GoodRecalls(updates)
    ensures var firsts := Firsts(updates);
            && Distinct(KeysOf(firsts)) && GoodCards(firsts) && Ordered(firsts)
            && forall k :: 0 <= k < |firsts| ==> Recall(firsts[k]) in updates
  {
    if updates != [] {
      var n := |updates| - 1;
      var init, u := updates[..n], updates[n];
      assert updates == init + [u];
      FirstsAreOrdered(init);
      FirstsStep(updates);
      if u.Recall? {
        NoneAfterThis(updates, n);
        DistinctStep(KeysOf(Firsts(init)), RewardKey(u.attempt));
        if Firsts(updates) != Firsts(init) { AppendedInOrder(Firsts(init), u.attempt); }
      }
      hide RewardKey, KeysOf, Day, NotAfter, CardPattern, DaysAdvance, Distinct, Ordered, GoodCards, NoneAfter;
    }
  }

  lemma AppendedInOrder(attempts: seq<FlashAttempt>, a: FlashAttempt)
    requires GoodCards(attempts) && Ordered(attempts) && CardPattern(a.cardId) && NoneAfter(attempts, Day(a.createdAt))
    ensures GoodCards(attempts + [a]) && Ordered(attempts + [a])
  {
    hide Day, NotAfter, CardPattern;
  }

  lemma NoneAfterThis(updates: seq<Update>, i: nat)
    requires i < |updates| && DaysAdvance(updates) && updates[i].Recall?
    requires forall k :: 0 <= k < |Firsts(updates[..i])| ==> Recall(Firsts(updates[..i])[k]) in updates[..i]
    ensures NoneAfter(Firsts(updates[..i]), Day(updates[i].attempt.createdAt))
  {
    hide Day, NotAfter, Firsts;
    var firsts := Firsts(updates[..i]);
    forall k | 0 <= k < |firsts| ensures NotAfter(Day(firsts[k].createdAt), Day(updates[i].attempt.createdAt)) {
      var j :| 0 <= j < i && updates[..i][j] == Recall(firsts[k]);
      assert updates[j] == Recall(firsts[k]);
    }
  }

  lemma NothingLapses(updates: seq<Update>)
    requires DaysAdvance(updates) && GoodRecalls(updates)
    ensures NeverLapses(updates)
  {
    forall i | 0 <= i < |updates| ensures !Lapses(updates, i) {
      if updates[i].Recall? {
        assert DaysAdvance(updates[..i]) && GoodRecalls(updates[..i]);
        FirstsAreOrdered(updates[..i]);
        NoneAfterThis(updates, i);
        hide Firsts, KeysOf, RewardKey, Day, CardPattern, DaysAdvance, Ordered, NoneAfter, GoodCards, Distinct, Suffix;
        NoLapseOnItsOwnDay(Firsts(updates[..i]), updates[i].attempt);
      }
    }
  }

  lemma {:induction false} SavedRecallsAreGood(first: Document, updates: seq<Update>)
    requires After(first, updates).Some?
    ensures GoodRecalls(updates)
  {
    if updates != [] {
      var n := |updates| - 1;
      hide Next, CardPattern, TimestampPattern, Grants;
      SavedRecallsAreGood(first, updates[..n]);
      if updates[n].Recall? { SavedRecallIsWellFormed(updates[n], After(first, updates[..n]).value); }
      hide After;
      GoodRecallsStep(updates);
    }
  }

  lemma GoodRecallsStep(updates: seq<Update>)
    requires updates != [] && GoodRecalls(updates[..|updates| - 1])
    requires var u := updates[|updates| - 1]; u.Recall? ==> CardPattern(u.attempt.cardId)
    ensures GoodRecalls(updates)
  {
    hide CardPattern;
    var init := updates[..|updates| - 1];
    forall i | 0 <= i < |updates| && updates[i].Recall? ensures CardPattern(updates[i].attempt.cardId) {
      if i < |init| { assert init[i] == updates[i]; }
    }
  }

  /** Main result: on every run from an empty claim list whose days do not run backwards, no two payments
      are for the same card and day. */
  lemma OncePerCardPerDay(first: Document, updates: seq<Update>)
    requires Full(first) && Claims(first) == [] && After(first, updates).Some? && DaysAdvance(updates)
    ensures PaidOnce(Grants(first, updates))
  {
    SavedRecallsAreGood(first, updates);
    hide After, Full, Claims, Grants, DaysAdvance, GoodRecalls, NeverLapses, PaidOnce;
    NothingLapses(updates);
    TwiceExactlyWhenLapsed(first, updates);
  }

  // ---------------------------------------------------------------- the next payment

  /** Payment `last` is the latest one for this attempt's card and day. */
  ghost predicate LastPaid(grants: seq<Grant>, a: FlashAttempt, last: nat) {
    && last < |grants| && RewardKey(grants[last].attempt) == RewardKey(a)
    && forall k :: last < k < |grants| ==> RewardKey(grants[k].attempt) != RewardKey(a)
  }

  lemma LastPaidKey(grants: seq<Grant>, a: FlashAttempt, last: nat)
    requires LastPaid(grants, a, last)
    ensures RewardKey(a) in Suffix(Keys(grants), CLAIM_LIMIT) <==> |grants| - last <= CLAIM_LIMIT
  {
    hide RewardKey, Suffix;
    var keys := Keys(grants);
    assert keys[last] == RewardKey(a);
    assert forall k :: last < k < |keys| ==> keys[k] != keys[last];
    hide LastPaid, Keys;
    LastInSuffix(keys, CLAIM_LIMIT, last);
  }

  /** Exactly when a paid card and day is paid again, whatever the days do: when a thousand payments or more
      have been made since its last one. */
  lemma PaidAgainIffAThousandSince(first: Document, updates: seq<Update>, a: FlashAttempt, last: nat)
    requires Full(first) && Claims(first) == [] && After(first, updates).Some?
    ensures RecallReward(a.score) > 0 && LastPaid(Grants(first, updates), a, last) ==>
              (Pays(After(first, updates).value, Recall(a)) <==> |Grants(first, updates)| - 1 - last >= CLAIM_LIMIT)
  {
    PaidUnlessRecent(first, updates, Recall(a));
    hide After, Full, Grants, RewardKey, Keys, Claims, Suffix, LastPaid, Pays;
    if LastPaid(Grants(first, updates), a, last) { LastPaidKey(Grants(first, updates), a, last); }
  }

  /** The same on the inputs alone, up to the first lapse: a card and day that came first as number `k` is paid
      again exactly when a thousand others or more have come first since. */
  lemma FirstRepeatNeedsAThousandOthers(first: Document, updates: seq<Update>, a: FlashAttempt, k: nat)
    requires Full(first) && Claims(first) == [] && After(first, updates).Some? && NeverLapses(updates)
    ensures RecallReward(a.score) > 0 && k < |Firsts(updates)| && RewardKey(Firsts(updates)[k]) == RewardKey(a) ==>
              (Pays(After(first, updates).value, Recall(a)) <==> |Firsts(updates)| - 1 - k >= CLAIM_LIMIT)
  {
    PaidUnlessRecent(first, updates, Recall(a));
    PaymentsAreFirsts(first, updates);
    hide After, Full, Grants, RewardKey, Keys, Claims, Suffix, NeverLapses, Pays, KeysOf, Firsts;
    var keys := KeysOf(Firsts(updates));
    if k < |keys| && keys[k] == RewardKey(a) {
      assert forall m :: k < m < |keys| ==> keys[m] != keys[k];
      hide Distinct;
      LastInSuffix(keys, CLAIM_LIMIT, k);
    }
  }
}
