/** A card small enough to score by hand, an answer to it, and a card that no answer can be saved for. */
module SampleCards {
  import opened Prelude
  import opened Contracts
  import opened RecallText
  import opened RecallScorer
  import opened StateValidator

  const NOTE := "reconcile"

  const ANSWER := NOTE + " " + "audit" + " " + "position" + " " + "limit"

  /** A card whose two texts are one significant word has that word as its one concept. */
  lemma OneWordCard(lex: Lexicon, id: string, word: string)
    requires Word(word) && |word| >= 4 && word !in lex.stopWords
    ensures ConceptsFor(lex, Flashcard(id, word, word)) == [word]
  {
    TokensOfWord("", word);
    assert "" + word == word;
    assert Tokens(word) == [word];
    hide Tokens;
    assert [word][1..] == [];
    assert Gather(lex, [], [word]) == Gather(lex, [word], []) == [word];
    assert Gather(lex, [word], [word]) == Gather(lex, [word], []);
  }

  /** An answer naming a card's one concept scores all sixty coverage points. */
  lemma OneConceptIsCovered(lex: Lexicon, catalog: Catalog, id: string, answer: string, word: string)
    requires id in catalog && catalog[id].id == id && ConceptsFor(lex, catalog[id]) == [word]
    requires AcceptableAnswer(answer) && Trim(answer) == answer && word in Tokens(answer)
    ensures Score(lex, catalog, id, answer) == Success(Grade(lex, id, answer, [word]))
    ensures Grade(lex, id, answer, [word]).score >= 60
  {
    hide Tokens, Words, Trim, ConceptsFor, SynonymIn, Structure, Specificity, AcceptableAnswer;
    var tokens := Elements(Tokens(answer));
    assert word in tokens;
    assert Equivalent(lex.synonyms, tokens, word);
    assert [word][..0] == [];
    assert Matched(lex.synonyms, tokens, [word], true) == [word];
  }

  lemma JoinFour(a: string, b: string, c: string, d: string)
    ensures Join([a, b, c, d]) == a + " " + b + " " + c + " " + d
  {
    assert [a, b, c, d][1..] == [b, c, d] && [b, c, d][1..] == [c, d] && [c, d][1..] == [d];
    assert Join([d]) == d;
    assert Join([c, d]) == c + " " + d;
    assert Join([b, c, d]) == b + " " + (c + " " + d);
  }

  lemma AnswerIsJoined() returns (words: seq<string>)
    ensures words == [NOTE, "audit", "position", "limit"] && Join(words) == ANSWER
    ensures forall t :: t in words ==> Word(t)
  {
    words := [NOTE, "audit", "position", "limit"];
    assert Word(NOTE) && Word("audit") && Word("position") && Word("limit");
    hide Join, Word;
    JoinFour(NOTE, "audit", "position", "limit");
  }

  lemma AnswerIsAcceptable()
    ensures AcceptableAnswer(ANSWER)
  {
    var words := AnswerIsJoined();
    assert |ANSWER| == 30;
    hide ANSWER, NOTE, Join, Words;
    WordsOfJoin(words);
  }

  lemma AnswerTrims()
    ensures BrowserTrim(ANSWER) == ANSWER && Trim(ANSWER) == ANSWER
  {
    assert BrowserTrim(ANSWER) == ANSWER;
    BrowserTrimIsHarmless(ANSWER);
  }

  lemma AnswerNamesTheNote()
    ensures NOTE in Tokens(ANSWER)
  {
    var words := AnswerIsJoined();
    hide ANSWER, NOTE, Join, Tokens, Word;
    TokensOfJoin(words);
    assert words[0] == NOTE;
  }

  lemma NoteIsSignificant()
    ensures Word(NOTE) && |NOTE| == 9 && NOTE !in RUBRIC.stopWords
  {
  }

  /** A word one character longer than a stored list entry may be. */
  function LongWord(): (w: string)
    ensures |w| == 81 && Word(w)
  {
    seq(81, _ => 'a')
  }

  lemma StopWordsAreShort(word: string)
    requires |word| > 7
    ensures word !in RUBRIC.stopWords
  {
  }

  /** On a card whose one concept is too long, no scored answer can ever be saved. */
  lemma LongConceptIsRefused(lex: Lexicon, catalog: Catalog, cardId: string, word: string, raw: string, a: FlashAttempt)
    requires WellKeyed(catalog) && |lex.specificity| <= 5
    requires cardId in catalog && catalog[cardId] == Flashcard(cardId, word, word)
    requires Word(word) && |word| > 80 && word !in lex.stopWords
    requires Score(lex, catalog, cardId, raw).Success?
    requires a == AttemptOf(Score(lex, catalog, cardId, raw).value, a.id, a.createdAt)
    ensures !ValidAttempt(a)
  {
    hide Score, WellKeyed, ConceptsFor, Word;
    OneWordCard(lex, cardId, word);
    assert [word][0] == word;
    assert !ShortConcepts(lex, catalog[cardId]);
    if ValidAttempt(a) {
      assert 1 <= |a.id| <= 100 && |a.createdAt| <= 40 && TimestampPattern(a.createdAt);
      AuthenticAttemptsPass(lex, catalog, cardId, raw, a.id, a.createdAt);
    }
  }

  /** Such a card, under the rubric itself, and an answer to it that is scored. */
  lemma LongConceptExists() returns (card: Flashcard, catalog: Catalog)
    ensures WellKeyed(catalog) && card.id in catalog && catalog[card.id] == card && card.answer == card.deepDive
    ensures Word(card.answer) && |card.answer| > 80 && |card.answer| <= 1_200 && card.answer !in RUBRIC.stopWords
    ensures Score(RUBRIC, catalog, card.id, ANSWER).Success?
  {
    card := Flashcard("f01", LongWord(), LongWord());
    catalog := map["f01" := card];
    assert WellKeyed(catalog);
    hide LongWord, Score, ANSWER, RUBRIC, AcceptableAnswer, ConceptsFor, WellKeyed, Word;
    StopWordsAreShort(card.answer);
    OneWordCard(RUBRIC, "f01", card.answer);
    AnswerIsAcceptable();
    AnswerTrims();
    AcceptableIsScored(RUBRIC, catalog, "f01", ANSWER);
  }

  lemma AcceptableIsScored(lex: Lexicon, catalog: Catalog, id: string, answer: string)
    requires id in catalog && ConceptsFor(lex, catalog[id]) != [] && AcceptableAnswer(answer) && Trim(answer) == answer
    ensures Score(lex, catalog, id, answer).Success?
  {
  }
}
