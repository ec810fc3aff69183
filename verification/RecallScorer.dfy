/** The deterministic recall rubric, and what an answer's score promises. */
module RecallScorer {
  import opened Prelude
  import opened RecallText
  import Division

  /** The word lists the rubric consults. */
  datatype Lexicon = Lexicon(
    stopWords: set<string>, synonyms: seq<set<string>>, specificity: seq<set<string>>,
    connectives: set<string>, scoping: set<string>)

  const RUBRIC := Lexicon(
    { "about", "after", "again", "also", "among", "because", "before", "being",
      "between", "could", "does", "during", "each", "from", "have", "into",
      "more", "must", "only", "other", "over", "same", "should", "such", "than",
      "that", "their", "them", "then", "there", "these", "they", "this", "those",
      "through", "under", "using", "when", "where", "which", "while", "with", "would" },
    [ {"quote", "quotation"},
      {"trade", "execution", "fill", "transaction"},
      {"buy", "buying", "bid"},
      {"sell", "selling", "ask", "offer"},
      {"quantity", "size", "volume"},
      {"delay", "delayed", "latency", "lag"},
      {"stale", "staleness", "freshness"},
      {"sequence", "sequencing", "continuity"},
      {"escalate", "escalation", "notify", "notification"},
      {"displayed", "available", "shown", "visible"} ],
    [ {"timestamp", "clock", "latency", "lag", "freshness", "watermark"},
      {"sequence", "heartbeat", "gap", "duplicate", "replay", "snapshot"},
      {"queue", "cpu", "memory", "network", "throughput", "capacity", "rate"},
      {"position", "limit", "risk", "exposure", "reject", "order", "fill", "execution", "price", "size"},
      {"session", "venue", "channel", "feed", "consumer", "subscription", "reconcile", "audit", "escalate"} ],
    {"because", "therefore", "first", "then", "while", "before", "after", "verify", "check"},
    {"compare", "scope", "confirm", "assess", "inspect", "reconcile"})

  lemma RubricHasFiveGroups()
    ensures |RUBRIC.specificity| == 5
  {
  }

  const MAX_CONCEPTS := 8

  datatype Flashcard = Flashcard(id: string, answer: string, deepDive: string)

  type Catalog = map<string, Flashcard>

  datatype DomainError = CardNotFound | AnswerInvalid | CatalogInvalid

  datatype RecallResult = RecallResult(
    cardId: string, answer: string, rubricVersion: nat, wordCount: nat,
    coverageScore: nat, structureScore: nat, specificityScore: nat, score: nat,
    verdict: string, resolved: bool, matched: seq<string>, missing: seq<string>)

  /** Long enough, not a stop word, and not yet listed. */
  predicate Significant(lex: Lexicon, concepts: seq<string>, token: string) {
    |token| >= 4 && token !in lex.stopWords && token !in concepts
  }

  /** The list after appending significant tokens until it is full. */
  function Gather(lex: Lexicon, concepts: seq<string>, tokens: seq<string>): seq<string>
    decreases |tokens|
  {
    if tokens == [] || |concepts| == MAX_CONCEPTS then concepts
    else Gather(lex, if Significant(lex, concepts, tokens[0]) then concepts + [tokens[0]] else concepts, tokens[1..])
  }

  function ConceptsFor(lex: Lexicon, card: Flashcard): seq<string> {
    Gather(lex, Gather(lex, [], Tokens(card.answer)), Tokens(card.deepDive))
  }

  /** One source appended to the running list, with the set that mirrors it. */
  method Append(lex: Lexicon, source: string, concepts: seq<string>, seen: set<string>)
    returns (longer: seq<string>, marked: set<string>)
    requires seen == Elements(concepts)
    ensures longer == Gather(lex, concepts, Tokens(source)) && marked == Elements(longer)
  {
    var tokens := Tokenize(source);
    longer, marked := concepts, seen;
    var i := 0;
    while i < |tokens|
      invariant 0 <= i <= |tokens| && marked == Elements(longer)
      invariant Gather(lex, longer, tokens[i..]) == Gather(lex, concepts, tokens)
    {
      assert tokens[i..][1..] == tokens[i + 1..];
      if |longer| == MAX_CONCEPTS { return; }
      var token := tokens[i];
      if |token| >= 4 && token !in lex.stopWords && token !in marked {
        marked := marked + {token};
        longer := longer + [token];
      }
      i := i + 1;
    }
  }

  method CollectConcepts(lex: Lexicon, card: Flashcard) returns (concepts: seq<string>)
    ensures concepts == ConceptsFor(lex, card)
  {
    var first, seen := Append(lex, card.answer, [], {});
    concepts, seen := Append(lex, card.deepDive, first, seen);
  }

  /** The concept itself, or any member of the first synonym group that lists it. */
  function Equivalent(groups: seq<set<string>>, tokens: set<string>, token: string): bool {
    token in tokens || SynonymIn(groups, tokens, token)
  }

  function SynonymIn(groups: seq<set<string>>, tokens: set<string>, token: string): bool {
    if groups == [] then false
    else if token in groups[0] then exists word :: word in groups[0] && word in tokens
    else SynonymIn(groups[1..], tokens, token)
  }

  function ContainsAny(tokens: set<string>, candidates: set<string>): bool {
    exists word :: word in candidates && word in tokens
  }

  function Matched(groups: seq<set<string>>, tokens: set<string>, concepts: seq<string>, hit: bool): seq<string> {
    if concepts == [] then []
    else
      var last := concepts[|concepts| - 1];
      Matched(groups, tokens, concepts[..|concepts| - 1], hit) +
      if Equivalent(groups, tokens, last) == hit then [last] else []
  }

  /** `lround(60 * matched / total)`: halves go up. */
  function Coverage(matched: nat, total: nat): nat
    requires total > 0
  {
    (120 * matched + total) / (2 * total)
  }

  function Structure(lex: Lexicon, words: nat, tokens: set<string>, answer: string): nat {
    (if words >= 12 then 8 else 0) + (if words >= 24 then 4 else 0) +
    (if ContainsAny(tokens, lex.connectives) then 7 else 0) +
    (if '.' in answer || ';' in answer || ':' in answer then 3 else 0) +
    (if ContainsAny(tokens, lex.scoping) then 3 else 0)
  }

  function Specificity(groups: seq<set<string>>, tokens: set<string>): nat {
    if groups == [] then 0
    else Specificity(groups[..|groups| - 1], tokens) + if ContainsAny(tokens, groups[|groups| - 1]) then 3 else 0
  }

  function Verdict(score: int): string {
    if score >= 80 then "strong" else if score >= 60 then "developing" else "needs-work"
  }

  predicate AcceptableAnswer(answer: string) {
    20 <= |answer| <= 1_200 && 4 <= Words(answer) <= 500
  }

  /** The scored components of a trimmed answer. */
  function Grade(lex: Lexicon, id: string, answer: string, concepts: seq<string>): RecallResult
    requires concepts != []
  {
    var tokens := Elements(Tokens(answer));
    var matched := Matched(lex.synonyms, tokens, concepts, true);
    var coverage := Coverage(|matched|, |concepts|);
    var structure := Min(Structure(lex, Words(answer), tokens, answer), 25);
    var specificity := Min(Specificity(lex.specificity, tokens), 15);
    var score := Min(100, coverage + structure + specificity);
    RecallResult(
      id, answer, 2, Words(answer), coverage, structure, specificity, score,
      Verdict(score), score >= 75, matched, Matched(lex.synonyms, tokens, concepts, false))
  }

  function Score(lex: Lexicon, catalog: Catalog, cardId: string, rawAnswer: string): Result<RecallResult, DomainError> {
    if cardId !in catalog then Failure(CardNotFound)
    else
      var card, answer := catalog[cardId], Trim(rawAnswer);
      var concepts := ConceptsFor(lex, card);
      if !AcceptableAnswer(answer) then Failure(AnswerInvalid)
      else if concepts == [] then Failure(CatalogInvalid)
      else Success(Grade(lex, card.id, answer, concepts))
  }

  /** The loop over synonym groups: the first that lists the concept decides. */
  method EquivalentToken(groups: seq<set<string>>, tokens: set<string>, concept: string) returns (found: bool)
    ensures found <==> Equivalent(groups, tokens, concept)
  {
    if concept in tokens { return true; }
    for g := 0 to |groups|
      invariant SynonymIn(groups, tokens, concept) == SynonymIn(groups[g..], tokens, concept)
    {
      assert groups[g..][1..] == groups[g + 1..];
      if concept in groups[g] {
        found := AnyIn(groups[g], tokens);
        return;
      }
    }
    return false;
  }

  method AnyIn(candidates: set<string>, tokens: set<string>) returns (found: bool)
    ensures found <==> exists word :: word in candidates && word in tokens
  {
    var left := candidates;
    while left != {}
      invariant left <= candidates
      invariant forall word :: word in candidates && word !in left ==> word !in tokens
    {
      var word :| word in left;
      if word in tokens { return true; }
      left := left - {word};
    }
    return false;
  }

  method Partition(groups: seq<set<string>>, tokens: set<string>, concepts: seq<string>)
    returns (matched: seq<string>, missing: seq<string>)
    ensures matched == Matched(groups, tokens, concepts, true)
    ensures missing == Matched(groups, tokens, concepts, false)
  {
    matched, missing := [], [];
    for i := 0 to |concepts|
      invariant matched == Matched(groups, tokens, concepts[..i], true)
      invariant missing == Matched(groups, tokens, concepts[..i], false)
    {
      assert concepts[..i + 1][..i] == concepts[..i];
      var found := EquivalentToken(groups, tokens, concepts[i]);
      if found {
        matched := matched + [concepts[i]];
      } else {
        missing := missing + [concepts[i]];
      }
    }
    assert concepts[..|concepts|] == concepts;
  }

  method ScoreStructure(lex: Lexicon, words: nat, tokens: set<string>, answer: string) returns (structure: nat)
    ensures structure == Structure(lex, words, tokens, answer)
  {
    structure := 0;
    if words >= 12 { structure := structure + 8; }
    if words >= 24 { structure := structure + 4; }
    var connected := AnyIn(lex.connectives, tokens);
    if connected { structure := structure + 7; }
    if '.' in answer || ';' in answer || ':' in answer { structure := structure + 3; }
    var scoped := AnyIn(lex.scoping, tokens);
    if scoped { structure := structure + 3; }
  }

  method ScoreSpecificity(groups: seq<set<string>>, tokens: set<string>) returns (specificity: nat)
    ensures specificity == Specificity(groups, tokens)
  {
    specificity := 0;
    for i := 0 to |groups|
      invariant specificity == Specificity(groups[..i], tokens)
    {
      assert groups[..i + 1][..i] == groups[..i];
      var present := AnyIn(groups[i], tokens);
      if present { specificity := specificity + 3; }
    }
    assert groups[..|groups|] == groups;
  }

  method Validate(lex: Lexicon, catalog: Catalog, cardId: string, rawAnswer: string)
    returns (r: Result<RecallResult, DomainError>)
    ensures r == Score(lex, catalog, cardId, rawAnswer)
  {
    hide Words, Tokens, Trim, Gather, Matched, Structure, Specificity, Coverage;
    if cardId !in catalog { return Failure(CardNotFound); }
    var card, answer := catalog[cardId], Trim(rawAnswer);
    if |answer| < 20 || |answer| > 1_200 { return Failure(AnswerInvalid); }
    var tokenList := Tokenize(answer);
    var words := CountWords(answer);
    if words < 4 || words > 500 { return Failure(AnswerInvalid); }
    var tokens := Elements(tokenList);
    var concepts := CollectConcepts(lex, card);
    if concepts == [] { return Failure(CatalogInvalid); }
    var matched, missing := Partition(lex.synonyms, tokens, concepts);
    var coverage := Coverage(|matched|, |concepts|);
    var structure := ScoreStructure(lex, words, tokens, answer);
    structure := Min(structure, 25);
    var specificity := ScoreSpecificity(lex.specificity, tokens);
    specificity := Min(specificity, 15);
    var score := Min(100, coverage + structure + specificity);
    return Success(RecallResult(
      card.id, answer, 2, words, coverage, structure, specificity, score,
      Verdict(score), score >= 75, matched, missing));
  }

  // ---------------------------------------------------------------- concept lists

  ghost predicate ConceptList(lex: Lexicon, concepts: seq<string>) {
    |concepts| <= MAX_CONCEPTS && Distinct(concepts) && forall c :: c in concepts ==> |c| >= 4 && c !in lex.stopWords
  }

  lemma {:induction false} GatherKeepsList(lex: Lexicon, concepts: seq<string>, tokens: seq<string>)
    requires ConceptList(lex, concepts)
    ensures ConceptList(lex, Gather(lex, concepts, tokens))
    decreases |tokens|
  {
    if tokens != [] && |concepts| < MAX_CONCEPTS {
      var next := if Significant(lex, concepts, tokens[0]) then concepts + [tokens[0]] else concepts;
      forall i, j | 0 <= i < j < |next| ensures next[i] != next[j] {
        assert next[i] in concepts;
      }
      GatherKeepsList(lex, next, tokens[1..]);
    }
  }

  lemma ConceptsAreAList(lex: Lexicon, card: Flashcard)
    ensures ConceptList(lex, ConceptsFor(lex, card))
  {
    GatherKeepsList(lex, [], Tokens(card.answer));
    GatherKeepsList(lex, Gather(lex, [], Tokens(card.answer)), Tokens(card.deepDive));
  }

  /** The two lists split the concepts: every concept is in exactly one, none twice. */
  lemma {:induction false} MatchedSplits(groups: seq<set<string>>, tokens: set<string>, concepts: seq<string>)
    requires Distinct(concepts)
    ensures var hit, miss := Matched(groups, tokens, concepts, true), Matched(groups, tokens, concepts, false);
            && |hit| + |miss| == |concepts|
            && Distinct(hit) && Distinct(miss)
            && (forall c :: c in hit <==> c in concepts && (c in tokens || FirstGroupNames(groups, tokens, c)))
            && (forall c :: c in miss <==> c in concepts && c !in tokens && !FirstGroupNames(groups, tokens, c))
  {
    SplitsByEquivalence(groups, tokens, concepts);
    hide Matched, SynonymIn, FirstGroupNames;
    forall c ensures SynonymIn(groups, tokens, c) <==> FirstGroupNames(groups, tokens, c) { SynonymByIndex(groups, tokens, c); }
  }

  /** Some word of the first group that lists the concept was said. */
  ghost predicate FirstGroupNames(groups: seq<set<string>>, tokens: set<string>, concept: string) {
    exists g :: 0 <= g < |groups| && concept in groups[g] && ListedFirst(groups, g, concept) && Named(groups[g], tokens)
  }

  ghost predicate ListedFirst(groups: seq<set<string>>, g: nat, concept: string)
    requires g <= |groups|
  {
    forall k :: 0 <= k < g ==> concept !in groups[k]
  }

  ghost predicate Named(words: set<string>, tokens: set<string>) {
    exists word :: word in words && word in tokens
  }

  lemma {:induction false} SynonymByIndex(groups: seq<set<string>>, tokens: set<string>, concept: string)
    ensures SynonymIn(groups, tokens, concept) <==> FirstGroupNames(groups, tokens, concept)
  {
    if groups != [] {
      var rest := groups[1..];
      if concept in groups[0] {
        assert ListedFirst(groups, 0, concept);
        assert Named(groups[0], tokens) <==> SynonymIn(groups, tokens, concept);
      } else {
        SynonymByIndex(rest, tokens, concept);
        if FirstGroupNames(rest, tokens, concept) {
          var g :| 0 <= g < |rest| && concept in rest[g] && ListedFirst(rest, g, concept) && Named(rest[g], tokens);
          forall k | 0 <= k < g + 1 ensures concept !in groups[k] {
            if k > 0 { assert groups[k] == rest[k - 1]; }
          }
          assert groups[g + 1] == rest[g];
        }
        if FirstGroupNames(groups, tokens, concept) {
          var g :| 0 <= g < |groups| && concept in groups[g] && ListedFirst(groups, g, concept) && Named(groups[g], tokens);
          assert rest[g - 1] == groups[g];
          assert ListedFirst(rest, g - 1, concept);
        }
      }
    }
  }

  lemma {:induction false} SplitsByEquivalence(groups: seq<set<string>>, tokens: set<string>, concepts: seq<string>)
    requires Distinct(concepts)
    ensures var hit, miss := Matched(groups, tokens, concepts, true), Matched(groups, tokens, concepts, false);
            && |hit| + |miss| == |concepts|
            && Distinct(hit) && Distinct(miss)
            && (forall c :: c in hit <==> c in concepts && Equivalent(groups, tokens, c))
            && (forall c :: c in miss <==> c in concepts && !Equivalent(groups, tokens, c))
  {
    if concepts != [] {
      var init, last := concepts[..|concepts| - 1], concepts[|concepts| - 1];
      hide SynonymIn, Equivalent;
      SplitsByEquivalence(groups, tokens, init);
      assert concepts == init + [last];
      assert last !in init;
      DistinctAppend(Matched(groups, tokens, init, true), last);
      DistinctAppend(Matched(groups, tokens, init, false), last);
    }
  }

  lemma DistinctAppend(s: seq<string>, x: string)
    requires Distinct(s) && x !in s
    ensures Distinct(s + [x])
  {
    var t := s + [x];
    forall i, j | 0 <= i < j < |t| ensures t[i] != t[j] {
      assert t[i] in s;
    }
  }

  // ---------------------------------------------------------------- which concepts, exactly

  /** The significant tokens of a text, each once, in order of first appearance. */
  function NewWords(lex: Lexicon, tokens: seq<string>): seq<string> {
    if tokens == [] then []
    else
      var before, t := NewWords(lex, tokens[..|tokens| - 1]), tokens[|tokens| - 1];
      if |t| >= 4 && t !in lex.stopWords && t !in before then before + [t] else before
  }

  lemma {:induction false} NewWordsGrow(lex: Lexicon, a: seq<string>, b: seq<string>)
    ensures NewWords(lex, a) <= NewWords(lex, a + b)
    decreases |b|
  {
    if b == [] {
      assert a + b == a;
    } else {
      var init := b[..|b| - 1];
      assert (a + b)[..|a + b| - 1] == a + init;
      NewWordsGrow(lex, a, init);
    }
  }

  /** Continuing the list over more tokens. */
  lemma {:induction false} GatherContinues(lex: Lexicon, a: seq<string>, b: seq<string>)
    ensures Gather(lex, Prefix(NewWords(lex, a), 8), b) == Prefix(NewWords(lex, a + b), 8)
    decreases |b|
  {
    var listed := NewWords(lex, a);
    NewWordsGrow(lex, a, b);
    if b == [] {
      assert a + b == a;
    } else if |listed| < 8 {
      var next := a + [b[0]];
      assert next[..|a|] == a && next + b[1..] == a + b;
      GatherContinues(lex, next, b[1..]);
    } else {
      assert NewWords(lex, a + b)[..8] == listed[..8];
    }
  }

  /** A card's concepts are the first eight significant words of its answer and then its deep dive. */
  lemma ConceptsAreTheFirstEight(lex: Lexicon, card: Flashcard)
    ensures ConceptsFor(lex, card) == Prefix(NewWords(lex, Tokens(card.answer) + Tokens(card.deepDive)), 8)
  {
    hide Tokens;
    var a, b := Tokens(card.answer), Tokens(card.deepDive);
    GatherContinues(lex, [], a);
    assert [] + a == a;
    GatherContinues(lex, a, b);
  }

  lemma {:induction false} NewWordsExactly(lex: Lexicon, tokens: seq<string>, t: string)
    ensures t in NewWords(lex, tokens) <==> t in tokens && |t| >= 4 && t !in lex.stopWords
  {
    if tokens != [] {
      var init := tokens[..|tokens| - 1];
      assert tokens == init + [tokens[|tokens| - 1]];
      NewWordsExactly(lex, init, t);
    }
  }

  ghost predicate Scorable(lex: Lexicon, card: Flashcard) {
    exists t :: (t in Tokens(card.answer) || t in Tokens(card.deepDive)) && |t| >= 4 && t !in lex.stopWords
  }

  lemma ScorableHasConcepts(lex: Lexicon, card: Flashcard)
    ensures ConceptsFor(lex, card) != [] <==> Scorable(lex, card)
  {
    hide Tokens, ConceptsFor;
    ConceptsAreTheFirstEight(lex, card);
    var all := Tokens(card.answer) + Tokens(card.deepDive);
    var words := NewWords(lex, all);
    if words != [] { NewWordsExactly(lex, all, words[0]); }
    if Scorable(lex, card) {
      var t :| (t in Tokens(card.answer) || t in Tokens(card.deepDive)) && |t| >= 4 && t !in lex.stopWords;
      NewWordsExactly(lex, all, t);
    }
  }

  /** Exactly when an answer is scored, and which error it is otherwise. */
  lemma ScoredExactly(lex: Lexicon, catalog: Catalog, cardId: string, raw: string)
    ensures var r, answer := Score(lex, catalog, cardId, raw), Trim(raw);
            var usable := 20 <= |answer| <= 1_200 && 4 <= Words(raw) <= 500;
            && (r.Success? <==> cardId in catalog && usable && Scorable(lex, catalog[cardId]))
            && (r == Failure(CardNotFound) <==> cardId !in catalog)
            && (r == Failure(AnswerInvalid) <==> cardId in catalog && !usable)
            && (r == Failure(CatalogInvalid) <==> cardId in catalog && usable && !Scorable(lex, catalog[cardId]))
  {
    WordsOfTrim(raw);
    if cardId in catalog { ScorableHasConcepts(lex, catalog[cardId]); }
    hide Trim, Words, ConceptsFor, Scorable, Grade;
  }

  // ---------------------------------------------------------------- what the points are for

  /** For any word of the first group that lists a concept, the concept counts as named. */
  lemma SynonymsCount(lex: Lexicon, catalog: Catalog, cardId: string, raw: string, g: nat, concept: string, word: string)
    requires Score(lex, catalog, cardId, raw).Success?
    requires g < |lex.synonyms| && concept in lex.synonyms[g] && word in lex.synonyms[g] && ListedFirst(lex.synonyms, g, concept)
    requires concept in ConceptsFor(lex, catalog[cardId]) && word in Tokens(raw)
    ensures concept in Score(lex, catalog, cardId, raw).value.matched
  {
    TokensOfTrim(raw);
    var tokens := Elements(Tokens(Trim(raw)));
    hide Tokens, Trim, Words, ConceptsFor, Structure, Specificity, Coverage;
    ConceptsAreAList(lex, catalog[cardId]);
    MatchedSplits(lex.synonyms, tokens, ConceptsFor(lex, catalog[cardId]));
    assert Named(lex.synonyms[g], tokens);
  }

  /** The rubric's groups do not overlap, so any word of a concept's group names it. */
  lemma RubricGroupsAreDisjoint(g: nat, k: nat, word: string)
    requires g < |RUBRIC.synonyms| && k < |RUBRIC.synonyms|
    requires word in RUBRIC.synonyms[g] && word in RUBRIC.synonyms[k]
    ensures g == k
  {
  }

  lemma RubricSynonymsCount(catalog: Catalog, cardId: string, raw: string, g: nat, concept: string, word: string)
    requires Score(RUBRIC, catalog, cardId, raw).Success?
    requires g < |RUBRIC.synonyms| && concept in RUBRIC.synonyms[g] && word in RUBRIC.synonyms[g]
    requires concept in ConceptsFor(RUBRIC, catalog[cardId]) && word in Tokens(raw)
    ensures concept in Score(RUBRIC, catalog, cardId, raw).value.matched
  {
    hide Score, Tokens, ConceptsFor;
    forall k | 0 <= k < g ensures concept !in RUBRIC.synonyms[k] {
      if concept in RUBRIC.synonyms[k] { RubricGroupsAreDisjoint(g, k, concept); }
    }
    hide RUBRIC;
    SynonymsCount(RUBRIC, catalog, cardId, raw, g, concept, word);
  }

  /** Structure points: eight from twelve words on, four more from twenty-four, seven for a connective, three for a
      full stop, semicolon or colon, three for a scoping word. */
  lemma StructureEarned(lex: Lexicon, catalog: Catalog, cardId: string, raw: string)
    requires Score(lex, catalog, cardId, raw).Success?
    ensures var r := Score(lex, catalog, cardId, raw).value;
            var tokens := Elements(Tokens(raw));
            r.structureScore ==
              (if 24 <= Words(raw) then 12 else if 12 <= Words(raw) then 8 else 0)
              + (if Named(lex.connectives, tokens) then 7 else 0)
              + (if '.' in raw || ';' in raw || ':' in raw then 3 else 0)
              + (if Named(lex.scoping, tokens) then 3 else 0)
  {
    WordsOfTrim(raw);
    TokensOfTrim(raw);
    var l, r := TrimSplits(raw);
    hide Tokens, Trim, Words, ConceptsFor, Specificity, Coverage, Matched;
    assert forall c :: c in raw && c !in Trim(raw) ==> Trimmable(c) by {
      assert raw == l + Trim(raw) + r;
    }
    assert forall c :: c in Trim(raw) ==> c in raw by {
      assert raw == l + Trim(raw) + r;
    }
  }

  ghost function GroupsNamed(groups: seq<set<string>>, tokens: set<string>): set<int> {
    set g | 0 <= g < |groups| && Named(groups[g], tokens)
  }

  lemma {:induction false} SpecificityCounts(groups: seq<set<string>>, tokens: set<string>)
    ensures Specificity(groups, tokens) == 3 * |GroupsNamed(groups, tokens)|
  {
    if groups != [] {
      var n := |groups| - 1;
      var init := groups[..n];
      SpecificityCounts(init, tokens);
      forall g | 0 <= g < n ensures Named(groups[g], tokens) <==> Named(init[g], tokens) {
        assert init[g] == groups[g];
      }
      if Named(groups[n], tokens) {
        assert GroupsNamed(groups, tokens) == GroupsNamed(init, tokens) + {n};
      } else {
        assert GroupsNamed(groups, tokens) == GroupsNamed(init, tokens);
      }
    }
  }

  /** Specificity points: three for each operational group named, whichever and however often. */
  lemma SpecificityEarned(lex: Lexicon, catalog: Catalog, cardId: string, raw: string)
    requires |lex.specificity| <= 5 && Score(lex, catalog, cardId, raw).Success?
    ensures Score(lex, catalog, cardId, raw).value.specificityScore == 3 * |GroupsNamed(lex.specificity, Elements(Tokens(raw)))|
  {
    TokensOfTrim(raw);
    CapsNeverBite(lex, catalog, cardId, raw);
    SpecificityCounts(lex.specificity, Elements(Tokens(raw)));
    hide Tokens, Trim, Words, ConceptsFor, Structure, Specificity, Coverage, Matched, GroupsNamed;
  }

  // ---------------------------------------------------------------- bounds

  lemma CoverageBound(matched: nat, total: nat)
    requires 0 < total && matched <= total
    ensures Coverage(matched, total) <= 60
  {
    Division.Below(120 * matched + total, 61, 2 * total);
  }

  lemma {:induction false} SpecificityBound(groups: seq<set<string>>, tokens: set<string>)
    ensures Specificity(groups, tokens) <= 3 * |groups|
  {
    if groups != [] { SpecificityBound(groups[..|groups| - 1], tokens); }
  }

  /** Coverage is the whole number nearest to sixty points times the matched share, halves going up. */
  lemma CoverageIsNearest(matched: nat, total: nat)
    requires 0 < total
    ensures var exact := 60.0 * matched as real / total as real;
            Coverage(matched, total) as real - 0.5 <= exact < Coverage(matched, total) as real + 0.5
  {
    var c, t := Coverage(matched, total), total as real;
    var exact := 60.0 * matched as real / t;
    var n, d := 120 * matched + total, 2 * total;
    assert n == d * c + n % d;
    assert 2 * total * c <= n < 2 * total * c + 2 * total;
    hide Coverage;
    WholeToReal(matched, total, c);
    assert exact * t == 60.0 * matched as real;
    ScaledBound(c as real - 0.5, exact, t);
    ScaledBoundStrict(exact, c as real + 0.5, t);
  }

  lemma WholeToReal(matched: nat, total: nat, c: nat)
    requires 2 * total * c <= 120 * matched + total < 2 * total * c + 2 * total
    ensures (c as real - 0.5) * total as real <= 60.0 * matched as real < (c as real + 0.5) * total as real
  {
    assert (total * c) as real == total as real * c as real;
  }

  lemma ScaledBound(a: real, b: real, t: real)
    requires t > 0.0 && a * t <= b * t
    ensures a <= b
  {
  }

  lemma ScaledBoundStrict(a: real, b: real, t: real)
    requires t > 0.0 && a * t < b * t
    ensures a < b
  {
  }

  /** The 25, 15 and 100 caps never bite: the total is the sum of its uncapped parts. */
  lemma CapsNeverBite(lex: Lexicon, catalog: Catalog, cardId: string, raw: string)
    requires |lex.specificity| <= 5 && Score(lex, catalog, cardId, raw).Success?
    ensures var r := Score(lex, catalog, cardId, raw).value;
            var tokens := Elements(Tokens(r.answer));
            && r.coverageScore <= 60
            && r.structureScore == Structure(lex, r.wordCount, tokens, r.answer) <= 25
            && r.specificityScore == Specificity(lex.specificity, tokens) <= 15
            && r.score == r.coverageScore + r.structureScore + r.specificityScore <= 100
  {
    hide ContainsAny, SynonymIn, Words, Tokens, Trim, Gather;
    var card, answer := catalog[cardId], Trim(raw);
    var concepts, tokens := ConceptsFor(lex, card), Elements(Tokens(answer));
    ConceptsAreAList(lex, card);
    MatchedSplits(lex.synonyms, tokens, concepts);
    SpecificityBound(lex.specificity, tokens);
    CoverageBound(|Matched(lex.synonyms, tokens, concepts, true)|, |concepts|);
  }

  /** Re-scoring a stored answer gives the stored result back. */
  lemma RescoringAgrees(lex: Lexicon, catalog: Catalog, cardId: string, raw: string)
    requires Score(lex, catalog, cardId, raw).Success?
    ensures var r := Score(lex, catalog, cardId, raw).value; Score(lex, catalog, cardId, r.answer) == Success(r)
  {
    TrimIsIdempotent(raw);
  }

  /** A resolved answer has matched strictly more than half of the card's concepts. */
  lemma ResolvedNeedsAMajority(lex: Lexicon, catalog: Catalog, cardId: string, raw: string)
    requires |lex.specificity| <= 5 && Score(lex, catalog, cardId, raw).Success?
    ensures var r := Score(lex, catalog, cardId, raw).value;
            r.resolved ==> 2 * |r.matched| > |r.matched| + |r.missing|
  {
    CapsNeverBite(lex, catalog, cardId, raw);
    hide ContainsAny, SynonymIn, Words, Tokens, Trim, Gather, Structure, Specificity;
    var concepts := ConceptsFor(lex, catalog[cardId]);
    var tokens := Elements(Tokens(Trim(raw)));
    ConceptsAreAList(lex, catalog[cardId]);
    MatchedSplits(lex.synonyms, tokens, concepts);
    hide Coverage, AcceptableAnswer;
    var m, n := |Matched(lex.synonyms, tokens, concepts, true)|, |concepts|;
    if 2 * m <= n { HalfCoverage(m, n); }
  }

  lemma HalfCoverage(matched: nat, total: nat)
    requires total > 0 && 2 * matched <= total
    ensures Coverage(matched, total) <= 30
  {
    Division.Below(120 * matched + total, 31, 2 * total);
  }

  // ---------------------------------------------------------------- monotonicity

  lemma {:induction false} SynonymGrows(groups: seq<set<string>>, a: set<string>, b: set<string>, token: string)
    requires a <= b
    ensures SynonymIn(groups, a, token) ==> SynonymIn(groups, b, token)
  {
    if groups != [] && token !in groups[0] { SynonymGrows(groups[1..], a, b, token); }
  }

  lemma {:induction false} MatchedGrows(groups: seq<set<string>>, a: set<string>, b: set<string>, concepts: seq<string>)
    requires a <= b
    ensures |Matched(groups, a, concepts, true)| <= |Matched(groups, b, concepts, true)|
  {
    if concepts != [] {
      MatchedGrows(groups, a, b, concepts[..|concepts| - 1]);
      SynonymGrows(groups, a, b, concepts[|concepts| - 1]);
    }
  }

  lemma {:induction false} SpecificityGrows(groups: seq<set<string>>, a: set<string>, b: set<string>)
    requires a <= b
    ensures Specificity(groups, a) <= Specificity(groups, b)
  {
    if groups != [] { SpecificityGrows(groups[..|groups| - 1], a, b); }
  }

  lemma StructureGrows(lex: Lexicon, answer: string, x: string, v: nat, w: nat, a: set<string>, b: set<string>)
    requires v <= w && a <= b
    ensures Structure(lex, v, a, answer) <= Structure(lex, w, b, answer + x)
  {
  }

  lemma CoverageGrows(m: nat, n: nat, total: nat)
    requires total > 0 && m <= n
    ensures Coverage(m, total) <= Coverage(n, total)
  {
    Division.Grows(120 * m + total, 120 * n + total, 2 * total);
  }

  /** Carrying on an accepted answer after a separator is accepted exactly while it stays within the
      two upper limits, and then no component and not the total goes down. */
  lemma ExtendingNeverHurts(lex: Lexicon, catalog: Catalog, cardId: string, raw: string, separator: char, more: string)
    requires !Alnum(separator) && Score(lex, catalog, cardId, raw).Success?
    ensures var before := Score(lex, catalog, cardId, raw).value;
            var longer := raw + [separator] + more;
            var after := Score(lex, catalog, cardId, longer);
            && (after.Success? <==> |Trim(longer)| <= 1_200 && Words(longer) <= 500)
            && (after.Success? ==>
                 && before.wordCount <= after.value.wordCount
                 && before.coverageScore <= after.value.coverageScore
                 && before.structureScore <= after.value.structureScore
                 && before.specificityScore <= after.value.specificityScore
                 && before.score <= after.value.score
                 && (before.resolved ==> after.value.resolved))
  {
    var longer := raw + [separator] + more;
    var answer, extended := Trim(raw), Trim(longer);
    assert longer == raw + ([separator] + more);
    var x := TrimExtends(raw, [separator] + more);
    WordsGrow(false, answer, x);
    WordsOfTrim(longer);
    TokensOfTrim(raw);
    TokensOfTrim(longer);
    TokensConcat(raw, separator, more);
    var a, b := Elements(Tokens(answer)), Elements(Tokens(extended));
    assert a <= b;
    hide Trim, Tokens, Words, Elements, Gather, SynonymIn, Specificity, Structure, Coverage, Matched;
    var concepts := ConceptsFor(lex, catalog[cardId]);
    MatchedGrows(lex.synonyms, a, b, concepts);
    CoverageGrows(|Matched(lex.synonyms, a, concepts, true)|, |Matched(lex.synonyms, b, concepts, true)|, |concepts|);
    SpecificityGrows(lex.specificity, a, b);
    StructureGrows(lex, answer, x, Words(answer), Words(extended), a, b);
  }
}
