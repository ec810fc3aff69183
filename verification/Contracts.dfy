/** The profile document shared by the browser and the service, and the patterns its fields obey. */
module Contracts {
  import opened Prelude

  datatype FlashAttempt = FlashAttempt(
    id: string, cardId: string, answer: string, createdAt: string, rubricVersion: int, wordCount: int,
    coverageScore: int, structureScore: int, specificityScore: int, score: int,
    verdict: string, resolved: bool, matched: seq<string>, missing: seq<string>)

  datatype FlashDraft = FlashDraft(text: string, updatedAt: string)

  /** A stored document: any field may be absent, and unknown fields ride along in `rest`. */
  datatype Document = Document(
    uiVersion: Option<int>, xp: Option<int>, displayName: Option<string>, profileObjective: Option<string>,
    flashDrafts: Option<map<string, FlashDraft>>, flashAttempts: Option<seq<FlashAttempt>>,
    selectedFlashAttempt: Option<string>, flashActiveId: Option<string>, flashRecent: Option<seq<string>>,
    flashRewardClaims: Option<seq<string>>, rest: map<string, string>)

  predicate Digit(c: char) { '0' <= c <= '9' }

  predicate AllDigits(s: string) { forall i :: 0 <= i < |s| ==> Digit(s[i]) }

  /** `^f(?:0[1-9]|[1-9][0-9]|1[0-4][0-9]|150)$` */
  predicate CardPattern(s: string) {
    && 3 <= |s| <= 4 && s[0] == 'f'
    && if |s| == 3 then
         (s[1] == '0' && '1' <= s[2] <= '9') || ('1' <= s[1] <= '9' && Digit(s[2]))
       else
         (s[1] == '1' && '0' <= s[2] <= '4' && Digit(s[3])) || (s[1] == '1' && s[2] == '5' && s[3] == '0')
  }

  function DigitValue(c: char): nat
    requires Digit(c)
  {
    c as int - '0' as int
  }

  /** The number printed in a card id. */
  function CardNumber(s: string): (n: nat)
    requires CardPattern(s)
    ensures 1 <= n <= 150
  {
    if |s| == 3 then 10 * DigitValue(s[1]) + DigitValue(s[2])
    else 100 + 10 * DigitValue(s[2]) + DigitValue(s[3])
  }

  lemma CardNumberIsInjective(a: string, b: string)
    requires CardPattern(a) && CardPattern(b) && CardNumber(a) == CardNumber(b)
    ensures a == b
  {
    assert |a| == |b|;
    assert a[1] == b[1] && a[2] == b[2];
  }

  lemma {:induction false} CardNumbersDiffer(cards: seq<string>) returns (numbers: seq<nat>)
    requires Distinct(cards) && forall c :: c in cards ==> CardPattern(c)
    ensures |numbers| == |cards| && Distinct(numbers)
    ensures forall i :: 0 <= i < |cards| ==> numbers[i] == CardNumber(cards[i])
  {
    if cards == [] {
      numbers := [];
    } else {
      var init, last := cards[..|cards| - 1], cards[|cards| - 1];
      var before := CardNumbersDiffer(init);
      numbers := before + [CardNumber(last)];
      hide CardNumber, CardPattern;
      forall i | 0 <= i < |before| ensures before[i] != CardNumber(last) {
        if before[i] == CardNumber(last) { CardNumberIsInjective(init[i], last); }
      }
    }
  }

  ghost predicate DifferentCards(cards: seq<string>) {
    Distinct(cards) && forall c :: c in cards ==> CardPattern(c)
  }

  /** Any list of different card ids has at most 150 entries. */
  lemma AtMost150Cards(cards: seq<string>)
    requires DifferentCards(cards)
    ensures |cards| <= 150
  {
    var numbers := CardNumbersDiffer(cards);
    hide CardNumber, CardPattern;
    IntervalIsExact(1, 151);
    Pigeonhole(numbers, Interval(1, 151));
  }

  predicate Zone(z: string) {
    || z == "Z"
    || (|z| == 6 && (z[0] == '+' || z[0] == '-') && AllDigits(z[1..3]) && z[3] == ':' && AllDigits(z[4..]))
  }

  /** A point, `k` digits, and a zone. */
  predicate Fraction(s: string, k: int) {
    1 <= k <= 9 && k < |s| && s[0] == '.' && AllDigits(s[1..k + 1]) && Zone(s[k + 1..])
  }

  predicate ClockTail(s: string) {
    Zone(s) || exists k :: 1 <= k <= 9 && Fraction(s, k)
  }

  /** The service's RFC 3339 timestamp pattern. */
  predicate TimestampPattern(s: string) {
    && |s| >= 20
    && AllDigits(s[0..4]) && s[4] == '-' && AllDigits(s[5..7]) && s[7] == '-' && AllDigits(s[8..10])
    && s[10] == 'T'
    && AllDigits(s[11..13]) && s[13] == ':' && AllDigits(s[14..16]) && s[16] == ':' && AllDigits(s[17..19])
    && ClockTail(s[19..])
  }

  /** A date and time of nineteen characters. */
  predicate DateTime(s: string) {
    && |s| == 19 && AllDigits(s[0..4]) && s[4] == '-' && AllDigits(s[5..7]) && s[7] == '-' && AllDigits(s[8..10])
    && s[10] == 'T' && AllDigits(s[11..13]) && s[13] == ':' && AllDigits(s[14..16]) && s[16] == ':' && AllDigits(s[17..19])
  }

  /** UTC or an offset in hours and minutes, with up to nine decimals of a second, and nothing else. */
  lemma TimestampForms(base: string, decimals: string, zone: string)
    requires DateTime(base) && AllDigits(decimals)
    requires zone == "Z" || (|zone| == 6 && zone[0] in {'+', '-'} && AllDigits(zone[1..3]) && zone[3] == ':' && AllDigits(zone[4..]))
    ensures TimestampPattern(base + zone)
    ensures 1 <= |decimals| <= 9 ==> TimestampPattern(base + "." + decimals + zone)
    ensures |decimals| > 9 ==> !TimestampPattern(base + "." + decimals + zone)
    ensures !TimestampPattern(base)
  {
    var plain, long := base + zone, base + "." + decimals + zone;
    SameDateTime(base, zone);
    assert plain[19..] == zone;
    assert long == base + ("." + decimals + zone);
    SameDateTime(base, "." + decimals + zone);
    var tail := long[19..];
    assert tail == "." + decimals + zone;
    var k := |decimals|;
    assert tail[1..k + 1] == decimals && tail[k + 1..] == zone;
    if 1 <= k <= 9 { assert Fraction(tail, k); }
    if k > 9 {
      forall j | 1 <= j <= 9 ensures !Fraction(tail, j) {
        assert Digit(tail[j + 1]) by { assert tail[1..k + 1][j] == decimals[j]; }
      }
    }
  }

  lemma SameDateTime(base: string, tail: string)
    requires DateTime(base) && tail != ""
    ensures var s := base + tail;
            && |s| >= 20 && s[0..4] == base[0..4] && s[4] == '-' && s[5..7] == base[5..7] && s[7] == '-' && s[8..10] == base[8..10]
            && s[10] == 'T' && s[11..13] == base[11..13] && s[13] == ':' && s[14..16] == base[14..16] && s[16] == ':'
            && s[17..19] == base[17..19] && s[19..] == tail
  {
  }

  /** `slice(0, 10)` of a timestamp: its calendar day. */
  function Day(createdAt: string): string {
    Prefix(createdAt, 10)
  }

  predicate ProfileCharacter(c: char) {
    'A' <= c <= 'Z' || 'a' <= c <= 'z' || Digit(c) || c == '_' || c == '-'
  }

  /** `^[A-Za-z0-9_-]{1,40}$` */
  predicate ProfilePattern(s: string) {
    1 <= |s| <= 40 && forall i :: 0 <= i < |s| ==> ProfileCharacter(s[i])
  }
}
