/** What the service accepts as a profile state, and why an authentic recall attempt is always accepted. */
module StateValidator {
  import opened Prelude
  import opened Contracts
  import opened RecallText
  import opened RecallScorer

  // ---------------------------------------------------------------- shape

  /** A JSON value, as far as the shape limits look at it. */
  datatype Json = Text(size: nat) | Array(items: seq<Json>) | Object(fields: seq<Field>) | Scalar

  datatype Field = Field(keySize: nat, value: Json)

  const MAX_NODES := 200_000
  const MAX_DEPTH := 48
  const MAX_TEXT := 250_000
  const MAX_KEY := 160

  function Children(v: Json): (c: seq<Json>)
    ensures forall i :: 0 <= i < |c| ==> c[i] < v
  {
    match v
    case Array(items) => items
    case Object(fields) => seq(|fields|, i requires 0 <= i < |fields| => fields[i].value)
    case _ => []
  }

  /** The number of JSON values in a document. */
  function Nodes(v: Json): nat
    decreases v, 1, 0
  {
    1 + NodesIn(v, |Children(v)|)
  }

  function NodesIn(v: Json, n: nat): nat
    requires n <= |Children(v)|
    decreases v, 0, n
  {
    if n == 0 then 0 else NodesIn(v, n - 1) + Nodes(Children(v)[n - 1])
  }

  predicate ShallowOk(v: Json) {
    && (v.Text? ==> v.size <= MAX_TEXT)
    && (v.Object? ==> forall i :: 0 <= i < |v.fields| ==> v.fields[i].keySize <= MAX_KEY)
  }

  /** Depth, text and key limits everywhere below `v`, which itself sits at `depth`. */
  predicate DeepOk(v: Json, depth: nat)
    decreases v
  {
    depth <= MAX_DEPTH && ShallowOk(v) && forall i :: 0 <= i < |Children(v)| ==> DeepOk(Children(v)[i], depth + 1)
  }

  lemma {:induction false} NodesInGrows(v: Json, m: nat, n: nat)
    requires m <= n <= |Children(v)|
    ensures NodesIn(v, m) <= NodesIn(v, n)
  {
    if m < n { NodesInGrows(v, m, n - 1); }
  }

  /** One level of the two recursions, for proofs that keep them folded. */
  lemma OneLevel(v: Json, depth: nat, i: nat)
    requires i <= |Children(v)|
    ensures DeepOk(v, depth) <==>
            depth <= MAX_DEPTH && ShallowOk(v) && forall k :: 0 <= k < |Children(v)| ==> DeepOk(Children(v)[k], depth + 1)
    ensures Nodes(v) == 1 + NodesIn(v, |Children(v)|)
    ensures NodesIn(v, 0) == 0
    ensures i < |Children(v)| ==> NodesIn(v, i + 1) == NodesIn(v, i) + Nodes(Children(v)[i])
  {
  }

  lemma FieldsAreChildren(v: Json)
    ensures v.Object? ==> |v.fields| == |Children(v)|
  {
  }

  ghost predicate Fits(v: Json, depth: nat, nodes: nat) {
    DeepOk(v, depth) && nodes + Nodes(v) <= MAX_NODES
  }

  /** A child that does not fit where the walk meets it condemns the whole value. */
  lemma MisfitChild(v: Json, depth: nat, nodes: nat, i: nat)
    requires i < |Children(v)| && !Fits(Children(v)[i], depth + 1, nodes + 1 + NodesIn(v, i))
    ensures !Fits(v, depth, nodes)
  {
    hide DeepOk, Nodes, NodesIn, Children, ShallowOk;
    OneLevel(v, depth, i);
    NodesInGrows(v, i + 1, |Children(v)|);
  }

  /** One counter threaded through the whole walk; it stops at the first violation, and so accepts
      exactly the documents whose total and local limits hold. */
  method InspectShape(value: Json, depth: nat, nodes: nat) returns (ok: bool, counted: nat)
    requires nodes <= MAX_NODES
    ensures ok <==> Fits(value, depth, nodes)
    ensures ok ==> counted == nodes + Nodes(value)
    decreases value
  {
    hide DeepOk, Nodes, NodesIn, Children;
    ok, counted := false, nodes;
    var children := Children(value);
    OneLevel(value, depth, 0);
    FieldsAreChildren(value);
    if depth > MAX_DEPTH { return; }
    counted := counted + 1;
    if counted > MAX_NODES { return; }
    if value.Text? && value.size > MAX_TEXT { return; }
    var i := 0;
    while i < |children|
      invariant 0 <= i <= |children|
      invariant counted == nodes + 1 + NodesIn(value, i) <= MAX_NODES
      invariant forall k :: 0 <= k < i ==> DeepOk(children[k], depth + 1)
      invariant value.Object? ==> forall k :: 0 <= k < i ==> value.fields[k].keySize <= MAX_KEY
    {
      if value.Object? && value.fields[i].keySize > MAX_KEY { return; }
      var fits, after := InspectShape(children[i], depth + 1, counted);
      if !fits {
        MisfitChild(value, depth, nodes, i);
        return;
      }
      OneLevel(value, depth, i);
      counted := after;
      i := i + 1;
    }
    ok := true;
  }

  // ---------------------------------------------------------------- attempts

  predicate StringList(items: seq<string>) {
    && |items| <= 8
    && (forall i :: 0 <= i < |items| ==> 1 <= |items[i]| <= 80)
    && forall i, j :: 0 <= i < j < |items| ==> items[i] != items[j]
  }

  method ValidateStringArray(items: seq<string>) returns (ok: bool)
    ensures ok <==> StringList(items)
  {
    if |items| > 8 { return false; }
    var values: set<string> := {};
    var i := 0;
    while i < |items|
      invariant 0 <= i <= |items|
      invariant values == Elements(items[..i])
      invariant forall k :: 0 <= k < i ==> 1 <= |items[k]| <= 80
      invariant forall j, k :: 0 <= j < k < i ==> items[j] != items[k]
    {
      var value := items[i];
      if value == "" || |value| > 80 { return false; }
      if value in values {
        assert exists j :: 0 <= j < i && items[j] == value;
        return false;
      }
      assert items[..i + 1] == items[..i] + [value];
      values := values + {value};
      i := i + 1;
    }
    return true;
  }

  predicate Disjoint(a: seq<string>, b: seq<string>) {
    forall x :: x in b ==> x !in a
  }

  predicate ScoresAddUp(a: FlashAttempt) {
    && 0 <= a.coverageScore <= 60
    && 0 <= a.structureScore <= 25
    && 0 <= a.specificityScore <= 15
    && 0 <= a.score <= 100
    && a.coverageScore + a.structureScore + a.specificityScore == a.score
    && a.verdict == Verdict(a.score)
    && a.resolved == (a.score >= 75)
  }

  predicate ValidAttempt(a: FlashAttempt) {
    && 1 <= |a.id| <= 100
    && CardPattern(a.cardId)
    && 20 <= |a.answer| <= 1_200
    && |a.createdAt| <= 40 && TimestampPattern(a.createdAt)
    && 1 <= a.rubricVersion <= 2
    && 4 <= a.wordCount <= 500 && a.wordCount == Words(a.answer)
    && ScoresAddUp(a)
    && StringList(a.matched) && StringList(a.missing)
    && Disjoint(a.matched, a.missing)
  }

  method ValidateAttempt(a: FlashAttempt) returns (ok: bool)
    ensures ok <==> ValidAttempt(a)
  {
    if |a.id| < 1 || |a.id| > 100 { return false; }
    if |a.cardId| < 3 || |a.cardId| > 4 || !CardPattern(a.cardId) { return false; }
    if |a.answer| < 20 || |a.answer| > 1_200 { return false; }
    if |a.createdAt| < 20 || |a.createdAt| > 40 || !TimestampPattern(a.createdAt) { return false; }
    if a.rubricVersion < 1 || a.rubricVersion > 2 { return false; }
    var words := CountWords(a.answer);
    if a.wordCount < 4 || a.wordCount > 500 || a.wordCount != words { return false; }
    if a.coverageScore < 0 || a.coverageScore > 60 || a.structureScore < 0 || a.structureScore > 25 { return false; }
    if a.specificityScore < 0 || a.specificityScore > 15 || a.score < 0 || a.score > 100 { return false; }
    if a.coverageScore + a.structureScore + a.specificityScore != a.score { return false; }
    var verdict := "needs-work";
    if a.score >= 80 { verdict := "strong"; } else if a.score >= 60 { verdict := "developing"; }
    if a.verdict != verdict || a.resolved != (a.score >= 75) { return false; }
    var matchedOk := ValidateStringArray(a.matched);
    if !matchedOk { return false; }
    var missingOk := ValidateStringArray(a.missing);
    if !missingOk { return false; }
    var matched := Elements(a.matched);
    for i := 0 to |a.missing|
      invariant forall k :: 0 <= k < i ==> a.missing[k] !in a.matched
    {
      if a.missing[i] in matched {
        assert a.missing[i] in a.missing;
        return false;
      }
    }
    return true;
  }

  /** The attempt the page stores: the scorer's result with an id and a time. */
  function AttemptOf(r: RecallResult, id: string, createdAt: string): FlashAttempt {
    FlashAttempt(id, r.cardId, r.answer, createdAt, r.rubricVersion, r.wordCount, r.coverageScore,
                 r.structureScore, r.specificityScore, r.score, r.verdict, r.resolved, r.matched, r.missing)
  }

  /** Authoritative replay of one attempt: version 2 must be reproduced field by field. */
  predicate EvidenceOk(lex: Lexicon, catalog: Catalog, a: FlashAttempt) {
    a.rubricVersion == 2 ==>
      var expected := Score(lex, catalog, a.cardId, a.answer);
      expected.Success? && AttemptOf(expected.value, a.id, a.createdAt) == a
  }

  /** The catalogue loader's promise about ids. */
  ghost predicate WellKeyed(catalog: Catalog) {
    forall id :: id in catalog ==> catalog[id].id == id && CardPattern(id)
  }

  /** No concept is longer than a stored list entry may be: a property of the card alone. */
  predicate ShortConcepts(lex: Lexicon, card: Flashcard) {
    forall c :: c in ConceptsFor(lex, card) ==> |c| <= 80
  }

  lemma ResultLists(lex: Lexicon, catalog: Catalog, cardId: string, raw: string)
    requires Score(lex, catalog, cardId, raw).Success?
    ensures var r, concepts := Score(lex, catalog, cardId, raw).value, ConceptsFor(lex, catalog[cardId]);
            && |r.matched| + |r.missing| == |concepts| <= 8
            && Distinct(r.matched) && Distinct(r.missing) && Disjoint(r.matched, r.missing)
            && (forall c :: c in concepts <==> c in r.matched || c in r.missing)
            && (forall c :: c in concepts ==> |c| >= 4)
  {
    hide Words, Tokens, Trim, Gather, SynonymIn, Structure, Specificity, Coverage;
    var card := catalog[cardId];
    ConceptsAreAList(lex, card);
    MatchedSplits(lex.synonyms, Elements(Tokens(Trim(raw))), ConceptsFor(lex, card));
  }

  /** What the scorer returns, stored under a usable id and time, passes the validator exactly when
      the card's concepts fit the list-entry limit; the replay never fails. */
  lemma AuthenticAttemptsPass(lex: Lexicon, catalog: Catalog, cardId: string, raw: string, id: string, createdAt: string)
    requires WellKeyed(catalog) && |lex.specificity| <= 5
    requires Score(lex, catalog, cardId, raw).Success?
    requires 1 <= |id| <= 100 && |createdAt| <= 40 && TimestampPattern(createdAt)
    ensures var a := AttemptOf(Score(lex, catalog, cardId, raw).value, id, createdAt);
            && (ValidAttempt(a) <==> ShortConcepts(lex, catalog[cardId]))
            && EvidenceOk(lex, catalog, a)
  {
    hide Score, Words, ConceptsFor, TimestampPattern, CardPattern, Verdict, StringList, Disjoint, AcceptableAnswer, Structure, Specificity;
    var r := Score(lex, catalog, cardId, raw).value;
    ResultFields(lex, catalog, cardId, raw);
    CapsNeverBite(lex, catalog, cardId, raw);
    RescoringAgrees(lex, catalog, cardId, raw);
    ResultLists(lex, catalog, cardId, raw);
    ListsFit(ConceptsFor(lex, catalog[cardId]), r.matched, r.missing);
  }

  lemma ResultFields(lex: Lexicon, catalog: Catalog, cardId: string, raw: string)
    requires WellKeyed(catalog) && Score(lex, catalog, cardId, raw).Success?
    ensures var r := Score(lex, catalog, cardId, raw).value;
            && cardId in catalog && r.cardId == cardId && CardPattern(cardId) && r.wordCount == Words(r.answer)
            && 20 <= |r.answer| <= 1_200 && 4 <= r.wordCount <= 500
            && r.verdict == Verdict(r.score) && r.resolved == (r.score >= 75) && r.rubricVersion == 2
  {
    hide Words, Tokens, Trim, Verdict, CardPattern, ConceptsFor, Matched, Structure, Specificity, Coverage;
  }

  lemma ListsFit(concepts: seq<string>, matched: seq<string>, missing: seq<string>)
    requires |matched| + |missing| <= 8 && Distinct(matched) && Distinct(missing)
    requires forall c :: c in concepts <==> c in matched || c in missing
    requires forall c :: c in concepts ==> |c| >= 4
    ensures StringList(matched) && StringList(missing) <==> forall c :: c in concepts ==> |c| <= 80
  {
    forall i | 0 <= i < |matched| ensures matched[i] in concepts { assert matched[i] in matched; }
    forall i | 0 <= i < |missing| ensures missing[i] in concepts { assert missing[i] in missing; }
  }

  // ---------------------------------------------------------------- the document

  ghost predicate DistinctIds(attempts: seq<FlashAttempt>) {
    forall i, j :: 0 <= i < j < |attempts| ==> attempts[i].id != attempts[j].id
  }

  predicate ValidDraft(d: FlashDraft) {
    |d.text| <= 1_200 && |d.updatedAt| <= 40 && (d.updatedAt == "" || TimestampPattern(d.updatedAt))
  }

  ghost predicate ValidAttempts(attempts: seq<FlashAttempt>) {
    && |attempts| <= 200
    && (forall i :: 0 <= i < |attempts| ==> ValidAttempt(attempts[i]))
    && DistinctIds(attempts)
  }

  ghost predicate ValidRecent(recent: seq<string>) {
    && |recent| <= 6
    && (forall i :: 0 <= i < |recent| ==> CardPattern(recent[i]))
    && Distinct(recent)
  }

  ghost predicate ValidClaims(claims: seq<string>) {
    && |claims| <= 1_000
    && (forall i :: 0 <= i < |claims| ==> 1 <= |claims[i]| <= 80)
    && Distinct(claims)
  }

  ghost predicate ValidDrafts(drafts: map<string, FlashDraft>) {
    |drafts| <= 150 && forall id :: id in drafts ==> CardPattern(id) && ValidDraft(drafts[id])
  }

  /** The field rules of the state validator; every field may be absent. */
  ghost predicate ValidState(d: Document) {
    && (d.uiVersion.Some? ==> 1 <= d.uiVersion.value <= 100)
    && (d.xp.Some? ==> 0 <= d.xp.value <= 100_000_000)
    && (d.displayName.Some? ==> |d.displayName.value| <= 80)
    && (d.profileObjective.Some? ==> |d.profileObjective.value| <= 160)
    && (d.flashDrafts.Some? ==> ValidDrafts(d.flashDrafts.value))
    && (d.flashAttempts.Some? ==> ValidAttempts(d.flashAttempts.value))
    && (d.flashActiveId.Some? ==> d.flashActiveId.value == "" || CardPattern(d.flashActiveId.value))
    && (d.flashRecent.Some? ==> ValidRecent(d.flashRecent.value))
    && (d.flashRewardClaims.Some? ==> ValidClaims(d.flashRewardClaims.value))
  }

  /** The rules plus authoritative replay: what a profile write must satisfy. */
  ghost predicate Accepts(lex: Lexicon, catalog: Catalog, d: Document) {
    && ValidState(d)
    && (d.flashAttempts.Some? ==>
         forall i :: 0 <= i < |d.flashAttempts.value| ==> EvidenceOk(lex, catalog, d.flashAttempts.value[i]))
  }

  function IdsOf(attempts: seq<FlashAttempt>): set<string> {
    if attempts == [] then {} else IdsOf(attempts[..|attempts| - 1]) + {attempts[|attempts| - 1].id}
  }

  lemma {:induction false} IdsOfIsExact(attempts: seq<FlashAttempt>)
    ensures forall id :: id in IdsOf(attempts) <==> exists k :: 0 <= k < |attempts| && attempts[k].id == id
  {
    if attempts != [] {
      var init := attempts[..|attempts| - 1];
      IdsOfIsExact(init);
      forall id | id in IdsOf(init) ensures exists k :: 0 <= k < |attempts| && attempts[k].id == id {
        var k :| 0 <= k < |init| && init[k].id == id;
        assert attempts[k].id == id;
      }
      forall k | 0 <= k < |attempts| ensures attempts[k].id in IdsOf(attempts) {
        if k < |init| { assert init[k].id in IdsOf(init); }
      }
    }
  }

  lemma DistinctIdsStep(attempts: seq<FlashAttempt>, i: nat)
    requires i < |attempts| && DistinctIds(attempts[..i])
    ensures DistinctIds(attempts[..i + 1]) <==> attempts[i].id !in IdsOf(attempts[..i])
    ensures IdsOf(attempts[..i + 1]) == IdsOf(attempts[..i]) + {attempts[i].id}
  {
    var before, after := attempts[..i], attempts[..i + 1];
    IdsOfIsExact(before);
    assert after[..i] == before;
    forall k | 0 <= k < i ensures after[k] == before[k] {
    }
    if attempts[i].id in IdsOf(before) {
      var k :| 0 <= k < i && before[k].id == attempts[i].id;
      assert after[k].id == after[i].id;
    }
  }

  lemma NoIds(attempts: seq<FlashAttempt>)
    requires attempts == []
    ensures IdsOf(attempts) == {} && DistinctIds(attempts)
  {
  }

  lemma RepeatCondemns(attempts: seq<FlashAttempt>, n: nat)
    requires n <= |attempts| && !DistinctIds(attempts[..n])
    ensures !DistinctIds(attempts)
  {
    var i, j :| 0 <= i < j < n && attempts[..n][i].id == attempts[..n][j].id;
    assert attempts[i].id == attempts[j].id;
  }

  /** The attempt loop: each attempt checked, then its id entered in the set of ids seen. */
  method CheckAttempts(attempts: seq<FlashAttempt>) returns (ok: bool)
    ensures ok <==> (forall i :: 0 <= i < |attempts| ==> ValidAttempt(attempts[i])) && DistinctIds(attempts)
  {
    hide ValidAttempt, IdsOf, DistinctIds;
    var ids: set<string> := {};
    NoIds(attempts[..0]);
    for i := 0 to |attempts|
      invariant ids == IdsOf(attempts[..i])
      invariant forall k :: 0 <= k < i ==> ValidAttempt(attempts[k])
      invariant DistinctIds(attempts[..i])
    {
      var valid := ValidateAttempt(attempts[i]);
      if !valid { return false; }
      DistinctIdsStep(attempts, i);
      if attempts[i].id in ids {
        RepeatCondemns(attempts, i + 1);
        return false;
      }
      ids := ids + {attempts[i].id};
    }
    assert attempts[..|attempts|] == attempts;
    return true;
  }

  method ValidateAttemptList(attempts: seq<FlashAttempt>) returns (ok: bool)
    ensures ok <==> ValidAttempts(attempts)
  {
    hide ValidAttempt, DistinctIds;
    if |attempts| > 200 { return false; }
    ok := CheckAttempts(attempts);
  }

  // ---------------------------------------------------------------- the document's loops

  method ValidateDrafts(drafts: map<string, FlashDraft>) returns (ok: bool)
    ensures ok <==> ValidDrafts(drafts)
  {
    hide CardPattern, TimestampPattern;
    if |drafts| > 150 { return false; }
    var left := drafts.Keys;
    while left != {}
      invariant left <= drafts.Keys
      invariant forall id :: id in drafts && id !in left ==> CardPattern(id) && ValidDraft(drafts[id])
    {
      var id :| id in left;
      var draft := drafts[id];
      if !CardPattern(id) || |draft.text| > 1_200 || |draft.updatedAt| > 40 { return false; }
      if draft.updatedAt != "" && !TimestampPattern(draft.updatedAt) { return false; }
      left := left - {id};
    }
    return true;
  }

  method ValidateRecent(recent: seq<string>) returns (ok: bool)
    ensures ok <==> ValidRecent(recent)
  {
    hide CardPattern;
    if |recent| > 6 { return false; }
    var cardIds: set<string> := {};
    for i := 0 to |recent|
      invariant cardIds == Elements(recent[..i]) && Distinct(recent[..i])
      invariant forall k :: 0 <= k < i ==> CardPattern(recent[k])
    {
      assert recent[..i + 1] == recent[..i] + [recent[i]];
      if !CardPattern(recent[i]) { return false; }
      if recent[i] in cardIds {
        assert exists k :: 0 <= k < i && recent[k] == recent[i];
        return false;
      }
      cardIds := cardIds + {recent[i]};
    }
    assert recent[..|recent|] == recent;
    return true;
  }

  method ValidateClaims(claims: seq<string>) returns (ok: bool)
    ensures ok <==> ValidClaims(claims)
  {
    if |claims| > 1_000 { return false; }
    var values: set<string> := {};
    for i := 0 to |claims|
      invariant values == Elements(claims[..i]) && Distinct(claims[..i])
      invariant forall k :: 0 <= k < i ==> 1 <= |claims[k]| <= 80
    {
      assert claims[..i + 1] == claims[..i] + [claims[i]];
      if claims[i] == "" || |claims[i]| > 80 { return false; }
      if claims[i] in values {
        assert exists k :: 0 <= k < i && claims[k] == claims[i];
        return false;
      }
      values := values + {claims[i]};
    }
    assert claims[..|claims|] == claims;
    return true;
  }

  /** The field rules, one after another; an absent field is not looked at. */
  method Validate(d: Document) returns (ok: bool)
    ensures ok <==> ValidState(d)
  {
    hide ValidDrafts, ValidAttempts, ValidRecent, ValidClaims, CardPattern;
    if d.uiVersion.Some? && (d.uiVersion.value < 1 || d.uiVersion.value > 100) { return false; }
    if d.xp.Some? && (d.xp.value < 0 || d.xp.value > 100_000_000) { return false; }
    if d.displayName.Some? && |d.displayName.value| > 80 { return false; }
    if d.profileObjective.Some? && |d.profileObjective.value| > 160 { return false; }
    ok := true;
    if d.flashDrafts.Some? { ok := ValidateDrafts(d.flashDrafts.value); }
    if !ok { return; }
    if d.flashAttempts.Some? { ok := ValidateAttemptList(d.flashAttempts.value); }
    if !ok { return; }
    if d.flashActiveId.Some? && d.flashActiveId.value != "" && !CardPattern(d.flashActiveId.value) { return false; }
    if d.flashRecent.Some? { ok := ValidateRecent(d.flashRecent.value); }
    if !ok { return; }
    if d.flashRewardClaims.Some? { ok := ValidateClaims(d.flashRewardClaims.value); }
  }

  /** The rules, and then every rubric 2 attempt scored again and compared field by field. */
  method ValidateRecallEvidence(lex: Lexicon, catalog: Catalog, d: Document) returns (ok: bool)
    ensures ok <==> Accepts(lex, catalog, d)
  {
    hide ValidState, Score;
    ok := Validate(d);
    if !ok || d.flashAttempts.None? { return; }
    var attempts := d.flashAttempts.value;
    for i := 0 to |attempts|
      invariant forall k :: 0 <= k < i ==> EvidenceOk(lex, catalog, attempts[k])
    {
      var a := attempts[i];
      if a.rubricVersion == 2 {
        var expected := RecallScorer.Validate(lex, catalog, a.cardId, a.answer);
        if expected.Failure? { return false; }
        var e := expected.value;
        if a.cardId != e.cardId || a.answer != e.answer || a.rubricVersion != e.rubricVersion || a.wordCount != e.wordCount
           || a.coverageScore != e.coverageScore || a.structureScore != e.structureScore
           || a.specificityScore != e.specificityScore || a.score != e.score || a.verdict != e.verdict
           || a.resolved != e.resolved || a.matched != e.matched || a.missing != e.missing {
          return false;
        }
      }
    }
  }
}
