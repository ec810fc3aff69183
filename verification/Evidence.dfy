/** The latest attempt for each card, as the pages show it. */
module Evidence {
  import opened Prelude
  import opened TextOrder
  import opened Contracts
  import opened ProfileState

  /** Attempt `k` is its card's latest: none is later, and it comes first among those of its time. */
  ghost predicate IsLatest(attempts: seq<FlashAttempt>, k: nat)
    requires k < |attempts|
  {
    forall i :: 0 <= i < |attempts| && attempts[i].cardId == attempts[k].cardId ==>
      && NotAfter(attempts[i].createdAt, attempts[k].createdAt)
      && (i < k ==> Before(attempts[i].createdAt, attempts[k].createdAt))
  }

  /** One entry for each card attempted, holding its latest attempt. */
  ghost predicate HoldsLatest(latest: map<string, FlashAttempt>, attempts: seq<FlashAttempt>) {
    && (forall i :: 0 <= i < |attempts| ==> attempts[i].cardId in latest)
    && (forall card :: card in latest ==>
         exists k :: 0 <= k < |attempts| && attempts[k].cardId == card && attempts[k] == latest[card] && IsLatest(attempts, k))
  }

  lemma BeforeThenNotAfter(a: string, b: string, c: string)
    requires NotAfter(a, b) && Before(b, c)
    ensures NotAfter(a, c) && Before(a, c)
  {
    NotAfterIsTotal(b, c);
    NotAfterIsTransitive(a, b, c);
    if NotAfter(c, a) {
      NotAfterIsTransitive(c, a, b);
      assert false;
    }
  }

  /** One more attempt replaces its card's entry exactly when there was none or it is strictly later. */
  lemma LatestStep(latest: map<string, FlashAttempt>, before: seq<FlashAttempt>, x: FlashAttempt)
    requires HoldsLatest(latest, before)
    ensures HoldsLatest(
              if x.cardId !in latest || Before(latest[x.cardId].createdAt, x.createdAt) then latest[x.cardId := x] else latest,
              before + [x])
  {
    var all := before + [x];
    var replaced := x.cardId !in latest || Before(latest[x.cardId].createdAt, x.createdAt);
    var next := if replaced then latest[x.cardId := x] else latest;
    hide NotAfter, Before;
    forall card | card in next
      ensures exists k :: 0 <= k < |all| && all[k].cardId == card && all[k] == next[card] && IsLatest(all, k)
    {
      if card == x.cardId && replaced {
        NewestWins(latest, before, x);
        assert all[|before|] == next[card];
      } else {
        var k :| 0 <= k < |before| && before[k].cardId == card && before[k] == latest[card] && IsLatest(before, k);
        OlderStays(before, x, k);
        assert all[k] == next[card];
      }
    }
    forall i | 0 <= i < |all| ensures all[i].cardId in next {
      if i < |before| { assert before[i].cardId in latest; }
    }
  }

  lemma NewestWins(latest: map<string, FlashAttempt>, before: seq<FlashAttempt>, x: FlashAttempt)
    requires HoldsLatest(latest, before)
    requires x.cardId !in latest || Before(latest[x.cardId].createdAt, x.createdAt)
    ensures IsLatest(before + [x], |before|)
  {
    var all := before + [x];
    NotAfterIsTotal(x.createdAt, x.createdAt);
    hide NotAfter, Before;
    forall i | 0 <= i < |before| && before[i].cardId == x.cardId
      ensures NotAfter(before[i].createdAt, x.createdAt) && Before(before[i].createdAt, x.createdAt)
    {
      assert before[i].cardId in latest;
      var k :| 0 <= k < |before| && before[k].cardId == x.cardId && before[k] == latest[x.cardId] && IsLatest(before, k);
      BeforeThenNotAfter(before[i].createdAt, before[k].createdAt, x.createdAt);
    }
  }

  lemma OlderStays(before: seq<FlashAttempt>, x: FlashAttempt, k: nat)
    requires k < |before| && IsLatest(before, k)
    requires x.cardId == before[k].cardId ==> !Before(before[k].createdAt, x.createdAt)
    ensures IsLatest(before + [x], k)
  {
    var all := before + [x];
    if x.cardId == before[k].cardId { assert NotAfter(x.createdAt, before[k].createdAt); }
    hide NotAfter;
    forall i | 0 <= i < |all| && all[i].cardId == all[k].cardId
      ensures NotAfter(all[i].createdAt, all[k].createdAt) && (i < k ==> Before(all[i].createdAt, all[k].createdAt))
    {
      if i < |before| { assert all[i] == before[i]; }
    }
  }

  method LatestAttempts(attempts: seq<FlashAttempt>) returns (latest: map<string, FlashAttempt>)
    ensures HoldsLatest(latest, attempts)
  {
    hide Before;
    latest := map[];
    assert HoldsLatest(latest, attempts[..0]);
    for n := 0 to |attempts|
      invariant HoldsLatest(latest, attempts[..n])
    {
      var attempt := attempts[n];
      LatestStep(latest, attempts[..n], attempt);
      assert attempts[..n + 1] == attempts[..n] + [attempt];
      if attempt.cardId !in latest || Before(latest[attempt.cardId].createdAt, attempt.createdAt) {
        latest := latest[attempt.cardId := attempt];
      }
    }
    assert attempts[..|attempts|] == attempts;
  }

  /** A saved attempt is shown as its card's latest unless a strictly later one is on record: the update puts
      it first, so it also wins a tie. */
  lemma SavedAttemptIsShown(latest: map<string, FlashAttempt>, d: Document, a: FlashAttempt)
    requires HoldsLatest(latest, GetOr(Apply(Recall(a), d).flashAttempts, []))
    ensures a.cardId in latest
    ensures latest[a.cardId] == a <==>
              forall i :: 0 <= i < |GetOr(d.flashAttempts, [])| && i < 199 && GetOr(d.flashAttempts, [])[i].cardId == a.cardId ==>
                NotAfter(GetOr(d.flashAttempts, [])[i].createdAt, a.createdAt)
  {
    hide NotAfter, Reward, RewardKey;
    var before := GetOr(d.flashAttempts, []);
    var all := Prefix([a] + before, 200);
    assert all[0] == a;
    var k :| 0 <= k < |all| && all[k].cardId == a.cardId && all[k] == latest[a.cardId] && IsLatest(all, k);
    forall i | 0 <= i < |before| && i < 199 ensures all[i + 1] == before[i] {
    }
    assert k > 0 ==> all[k] == before[k - 1];
  }
}
