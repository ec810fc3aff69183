/** The stored attempts over whole runs of saves: the newest 200, unchanged, with the selection among them. */
module RecallHistory {
  import opened Prelude
  import opened Contracts
  import opened ProfileState
  import opened RecallScorer
  import opened StateValidator
  import opened RewardLedger
  import opened AcceptedSaves

  function Attempts(d: Document): seq<FlashAttempt> { GetOr(d.flashAttempts, []) }

  /** Every attempt a run has recorded, newest first. Nothing is ever dropped from this list. */
  function Recorded(updates: seq<Update>): seq<FlashAttempt> {
    if updates == [] then []
    else
      var n := |updates| - 1;
      (if updates[n].Recall? then [Tidy(updates[n].attempt)] else []) + Recorded(updates[..n])
  }

  lemma TidyPrepended(a: FlashAttempt, attempts: seq<FlashAttempt>)
    requires TidyAll(attempts) == attempts
    ensures TidyAll(Prefix([a] + attempts, 200)) == Prefix([Tidy(a)] + attempts, 200)
  {
    hide Tidy;
    var raw, tidy := Prefix([a] + attempts, 200), Prefix([Tidy(a)] + attempts, 200);
    forall i | 0 <= i < |raw| ensures TidyAll(raw)[i] == tidy[i] {
      if i > 0 { assert raw[i] == attempts[i - 1] == TidyAll(attempts)[i - 1]; }
    }
  }

  lemma FullIsTidy(d: Document)
    requires Full(d)
    ensures TidyAll(Attempts(d)) == Attempts(d)
  {
    ParseOnlyTrims(d);
  }

  lemma OneUpdate(u: Update, d: Document)
    requires Full(d) && Next(u, d).Some?
    ensures var n := Next(u, d).value;
            && (u.Recall? ==> Attempts(n) == Prefix([Tidy(u.attempt)] + Attempts(d), 200)
                              && n.selectedFlashAttempt == Some(u.attempt.id))
            && (!u.Recall? ==> Attempts(n) == Attempts(d) && n.selectedFlashAttempt == d.selectedFlashAttempt)
  {
    ParseOnlyTrims(Apply(u, d));
    FullIsTidy(d);
    hide Full, Tidy, TidyAll, Reward, RewardKey, SchemaAccepts, Parse, Without;
    if u.Recall? { TidyPrepended(u.attempt, Attempts(d)); }
  }

  lemma PrefixOfPrefix<T>(x: T, s: seq<T>, rest: seq<T>, n: nat)
    ensures Prefix([x] + Prefix(s + rest, n), n) == Prefix(([x] + s) + rest, n)
  {
    var all := s + rest;
    assert ([x] + s) + rest == [x] + all;
    if |all| > n { assert ([x] + all[..n])[..n] == ([x] + all)[..n]; }
  }

  /** The stored attempts are exactly the newest 200 of everything recorded before and during the run, each as
      it was recorded; and once anything has been recorded, the selection is the newest of them. */
  lemma {:induction false} NewestAttemptsAreKept(first: Document, updates: seq<Update>)
    requires Full(first)
    ensures After(first, updates).Some? ==>
              var d := After(first, updates).value;
              && Full(d)
              && Attempts(d) == Prefix(Recorded(updates) + Attempts(first), 200)
              && d.selectedFlashAttempt ==
                   if Recorded(updates) == [] then first.selectedFlashAttempt else Some(Recorded(updates)[0].id)
  {
    hide Next, Parse, Tidy, Full, Attempts, Prefix;
    if After(first, updates).None? { return; }
    if updates == [] {
      assert Recorded(updates) + Attempts(first) == Attempts(first);
      FullAttempts(first);
    } else {
      var n := |updates| - 1;
      var init, u := updates[..n], updates[n];
      Unfold(first, updates);
      NewestAttemptsAreKept(first, init);
      var d := After(first, init).value;
      OneUpdate(u, d);
      NextIsFull(u, d);
      RecordedStep(updates);
      hide After, Grants, Recorded;
      if u.Recall? { PrefixOfPrefix(Tidy(u.attempt), Recorded(init), Attempts(first), 200); }
    }
  }

  lemma RecordedStep(updates: seq<Update>)
    requires updates != []
    ensures var init, u := updates[..|updates| - 1], updates[|updates| - 1];
            && (u.Recall? ==> Recorded(updates) == [Tidy(u.attempt)] + Recorded(init) && Recorded(updates)[0].id == u.attempt.id)
            && (!u.Recall? ==> Recorded(updates) == Recorded(init))
  {
  }

  lemma FullAttempts(d: Document)
    requires Full(d)
    ensures Prefix(Attempts(d), 200) == Attempts(d)
  {
    ParseOnlyTrims(d);
  }

  // ---------------------------------------------------------------- the selection

  /** Nothing is selected, or a stored attempt is. */
  ghost predicate SelectionRetained(d: Document) {
    var selected := GetOr(d.selectedFlashAttempt, "");
    selected == "" || HasId(Attempts(d), selected)
  }

  lemma UpdateKeepsSelection(u: Update, d: Document)
    requires Full(d) && SelectionRetained(d) && Next(u, d).Some?
    ensures SelectionRetained(Next(u, d).value)
  {
    OneUpdate(u, d);
    hide Next, Full, Attempts, HasId;
    if u.Recall? { HeadIsListed(Tidy(u.attempt), Attempts(d)); }
  }

  lemma HeadIsListed(a: FlashAttempt, attempts: seq<FlashAttempt>)
    ensures HasId(Prefix([a] + attempts, 200), a.id)
  {
    assert Prefix([a] + attempts, 200)[0] == a;
  }

  /** No run of page updates leaves the selection pointing at an attempt that is gone. */
  lemma {:induction false} SelectionStaysRetained(first: Document, updates: seq<Update>)
    requires Full(first) && SelectionRetained(first) && After(first, updates).Some?
    ensures Full(After(first, updates).value) && SelectionRetained(After(first, updates).value)
  {
    hide Full, SelectionRetained, Next;
    if updates != [] {
      var n := |updates| - 1;
      SelectionStaysRetained(first, updates[..n]);
      NextIsFull(updates[n], After(first, updates[..n]).value);
      UpdateKeepsSelection(updates[n], After(first, updates[..n]).value);
    }
  }

  /** The service itself does not look: it accepts a document that selects an attempt that does not exist. */
  lemma DanglingSelectionIsAccepted(lex: Lexicon, catalog: Catalog) returns (d: Document)
    ensures Accepts(lex, catalog, d) && !SelectionRetained(d)
  {
    d := INITIAL.(selectedFlashAttempt := Some("gone"));
    assert Attempts(d) == [];
  }
}
