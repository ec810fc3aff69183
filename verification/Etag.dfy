/** The state ETag: how it is printed, matched and parsed (section 8.8.3 and 13.1 of RFC 9110). */
module Etag {
  import opened Prelude
  import opened Contracts

  function DigitChar(d: nat): char
    requires d < 10
  {
    ('0' as int + d) as char
  }

  /** Decimal printing of a revision. */
  function Decimal(n: nat): (s: string)
    ensures |s| >= 1 && AllDigits(s)
  {
    if n < 10 then [DigitChar(n)] else Decimal(n / 10) + [DigitChar(n % 10)]
  }

  /** `int(...)` of a digit string. */
  function Value(s: string): nat
    requires AllDigits(s)
  {
    if s == "" then 0 else 10 * Value(s[..|s| - 1]) + DigitValue(s[|s| - 1])
  }

  lemma {:induction false} ValueOfDecimal(n: nat)
    ensures Value(Decimal(n)) == n
  {
    if n >= 10 {
      ValueOfDecimal(n / 10);
      var s := Decimal(n);
      assert s[..|s| - 1] == Decimal(n / 10);
    } else {
      assert Decimal(n)[..0] == "";
    }
  }

  const HEAD := "\"state-"
  const SEPARATOR := "-r"
  const QUOTE := "\""

  function StateEtag(profile: string, revision: nat): string {
    HEAD + profile + SEPARATOR + Decimal(revision) + QUOTE
  }

  /** A string that ends in digits splits in only one way before them, if a non-digit comes first. */
  lemma {:induction false} DigitsAtTheEnd(a: string, x: string, b: string, y: string)
    requires AllDigits(x) && AllDigits(y) && a + x == b + y
    requires a != "" && b != "" && !Digit(a[|a| - 1]) && !Digit(b[|b| - 1])
    ensures a == b && x == y
  {
    var all := a + x;
    assert !Digit(all[|a| - 1]) && all[|b| - 1] == b[|b| - 1];
    forall i | |a| <= i < |all| ensures Digit(all[i]) { assert all[i] == x[i - |a|]; }
    forall i | |b| <= i < |all| ensures Digit(all[i]) { assert all[i] == y[i - |b|]; }
    assert |a| == |b|;
    assert all[..|a|] == a && all[..|b|] == b;
    assert all[|a|..] == x && all[|b|..] == y;
  }

  /** Two ETags are the same text only for the same profile and revision, even when a profile id itself
      contains "-r" and digits. */
  lemma EtagIsInjective(p: string, r: nat, q: string, s: nat)
    requires StateEtag(p, r) == StateEtag(q, s)
    ensures p == q && r == s
  {
    var a, b := HEAD + p + SEPARATOR, HEAD + q + SEPARATOR;
    var x, y := Decimal(r), Decimal(s);
    assert (a + x + QUOTE)[..|a + x|] == a + x;
    assert (b + y + QUOTE)[..|b + y|] == b + y;
    DigitsAtTheEnd(a, x, b, y);
    assert a[|HEAD|..|HEAD| + |p|] == p && b[|HEAD|..|HEAD| + |q|] == q;
    ValueOfDecimal(r);
    ValueOfDecimal(s);
  }

  // ---------------------------------------------------------------- header values

  predicate Blank(c: char) { c == ' ' || 9 <= c as int <= 13 || 28 <= c as int <= 31 }

  /** `str.strip()` on a header value. */
  function Strip(s: string): string {
    if s != "" && Blank(s[0]) then Strip(s[1..])
    else if s != "" && Blank(s[|s| - 1]) then Strip(s[..|s| - 1])
    else s
  }

  predicate HasPrefix(s: string, p: string) {
    |p| <= |s| && s[..|p|] == p
  }

  /** `removeprefix("W/")`. */
  function Unweak(s: string): string {
    if HasPrefix(s, "W/") then s[2..] else s
  }

  /** `split(",")`. */
  function Split(s: string): (parts: seq<string>)
    ensures parts != []
  {
    if s == "" then [""]
    else
      var rest := Split(s[1..]);
      if s[0] == ',' then [""] + rest else [[s[0]] + rest[0]] + rest[1..]
  }

  predicate Names(candidate: string, expected: string) {
    var c := Unweak(Strip(candidate));
    c == "*" || c == Unweak(expected)
  }

  /** Whether an If-None-Match list names the expected tag. */
  predicate EtagMatches(header: Option<string>, expected: string) {
    header.Some? && header.value != "" && exists i :: 0 <= i < |Split(header.value)| && Names(Split(header.value)[i], expected)
  }

  method MatchesEtag(header: Option<string>, expected: string) returns (found: bool)
    ensures found <==> EtagMatches(header, expected)
  {
    if header.None? || header.value == "" { return false; }
    var parts := Split(header.value);
    for i := 0 to |parts|
      invariant forall k :: 0 <= k < i ==> !Names(parts[k], expected)
    {
      if Names(parts[i], expected) { return true; }
    }
    return false;
  }

  lemma {:induction false} SplitWithoutComma(s: string)
    requires forall i :: 0 <= i < |s| ==> s[i] != ','
    ensures Split(s) == [s]
  {
    if s != "" {
      SplitWithoutComma(s[1..]);
      assert [s[0]] + s[1..] == s;
    }
  }

  lemma EtagText(profile: string, revision: nat)
    requires ProfilePattern(profile)
    ensures var e := StateEtag(profile, revision);
            && (forall i :: 0 <= i < |e| ==> e[i] != ',' && !Blank(e[i]))
            && Strip(e) == e && Unweak(e) == e && e != "*" && e != ""
  {
    var e := StateEtag(profile, revision);
    forall i | 0 <= i < |e| ensures e[i] != ',' && !Blank(e[i]) {
      var n := |HEAD| + |profile|;
      if |HEAD| <= i < n { assert e[i] == profile[i - |HEAD|]; }
      if n + 2 <= i < |e| - 1 { assert e[i] == Decimal(revision)[i - n - 2]; }
    }
    assert e[0] == '"';
  }

  /** A header holding one printed tag matches another exactly when profile and revision agree. */
  lemma MatchMeansSameRevision(p: string, r: nat, q: string, s: nat)
    requires ProfilePattern(p) && ProfilePattern(q)
    ensures EtagMatches(Some(StateEtag(p, r)), StateEtag(q, s)) <==> p == q && r == s
  {
    EtagText(p, r);
    EtagText(q, s);
    SplitWithoutComma(StateEtag(p, r));
    assert Split(StateEtag(p, r))[0] == StateEtag(p, r);
    if StateEtag(p, r) == StateEtag(q, s) { EtagIsInjective(p, r, q, s); }
  }

  /** `(?:W/)?"state-<profile>-r(\d+)"` on the stripped value: None when there is no header. */
  function RevisionFromEtag(value: Option<string>, profile: string): Result<Option<nat>, ()> {
    if value.None? || value.value == "" then Success(None)
    else
      var v, head := Unweak(Strip(value.value)), HEAD + profile + SEPARATOR;
      if HasPrefix(v, head) && |v| >= |head| + 2 && v[|v| - 1] == '"' && AllDigits(v[|head|..|v| - 1])
      then Success(Some(Value(v[|head|..|v| - 1])))
      else Failure(())
  }

  /** Parsing inverts printing for the tag's own profile, and rejects the tag for any other. */
  lemma ParseInvertsPrint(p: string, r: nat, q: string)
    requires ProfilePattern(p) && ProfilePattern(q)
    ensures RevisionFromEtag(Some(StateEtag(p, r)), q) == if p == q then Success(Some(r)) else Failure(())
  {
    EtagText(p, r);
    var v, head := StateEtag(p, r), HEAD + q + SEPARATOR;
    if p == q {
      assert v[|head|..|v| - 1] == Decimal(r);
      ValueOfDecimal(r);
    } else if HasPrefix(v, head) && |v| >= |head| + 2 && AllDigits(v[|head|..|v| - 1]) {
      var own := HEAD + p + SEPARATOR;
      var digits := v[|head|..|v| - 1];
      assert own + Decimal(r) == v[..|v| - 1];
      assert head + digits == v[..|v| - 1];
      assert own[|HEAD|..|HEAD| + |p|] == p && head[|HEAD|..|HEAD| + |q|] == q;
      DigitsAtTheEnd(own, Decimal(r), head, digits);
      assert false;
    }
  }

  /** Any accepted value is a tag of this profile; only leading zeros are forgiven. */
  lemma AcceptedTagsNameTheProfile(value: string, profile: string) returns (digits: string)
    requires RevisionFromEtag(Some(value), profile).Success? && value != ""
    ensures AllDigits(digits) && digits != ""
    ensures Unweak(Strip(value)) == HEAD + profile + SEPARATOR + digits + QUOTE
    ensures RevisionFromEtag(Some(value), profile) == Success(Some(Value(digits)))
  {
    var v, head := Unweak(Strip(value)), HEAD + profile + SEPARATOR;
    digits := v[|head|..|v| - 1];
    assert v == v[..|head|] + digits + [v[|v| - 1]];
  }

  // ---------------------------------------------------------------- lists and weak tags

  lemma {:induction false} SplitAtComma(a: string, b: string)
    ensures Split(a + "," + b) == Split(a) + Split(b)
  {
    var all := a + "," + b;
    if a == "" {
      assert all[1..] == b;
    } else {
      assert all[1..] == a[1..] + "," + b;
      SplitAtComma(a[1..], b);
    }
  }

  /** A list names a tag exactly when one of its parts does, wherever it is cut. */
  lemma ListsMatchByParts(a: string, b: string, expected: string)
    requires Unweak(expected) != ""
    ensures EtagMatches(Some(a + "," + b), expected) <==> EtagMatches(Some(a), expected) || EtagMatches(Some(b), expected)
  {
    assert !Names("", expected);
    hide Names, Split, EtagMatches;
    SplitAtComma(a, b);
    EmptySplit();
    MatchesByParts(a, expected);
    MatchesByParts(b, expected);
    MatchesByParts(a + "," + b, expected);
    JoinedParts(Split(a), Split(b), expected);
  }

  ghost predicate SomeNames(parts: seq<string>, expected: string) {
    exists i :: 0 <= i < |parts| && Names(parts[i], expected)
  }

  lemma MatchesByParts(header: string, expected: string)
    requires !Names("", expected)
    ensures EtagMatches(Some(header), expected) <==> SomeNames(Split(header), expected)
  {
    hide Names;
    if header == "" { assert Split(header) == [""]; }
  }

  lemma JoinedParts(x: seq<string>, y: seq<string>, expected: string)
    ensures SomeNames(x + y, expected) <==> SomeNames(x, expected) || SomeNames(y, expected)
  {
    hide Names;
    forall i | 0 <= i < |x| ensures (x + y)[i] == x[i] {
    }
    forall i | 0 <= i < |y| ensures (x + y)[|x| + i] == y[i] {
    }
  }

  lemma EmptySplit()
    ensures Split("") == [""]
  {
  }

  lemma {:induction false} BlanksStrip(l: string, core: string, r: string)
    requires forall i :: 0 <= i < |l| ==> Blank(l[i])
    requires forall i :: 0 <= i < |r| ==> Blank(r[i])
    requires core != "" && !Blank(core[0]) && !Blank(core[|core| - 1])
    ensures Strip(l + core + r) == core
    decreases |l| + |r|
  {
    var s := l + core + r;
    if l != "" {
      assert s[1..] == l[1..] + core + r;
      BlanksStrip(l[1..], core, r);
    } else if r != "" {
      assert s[..|s| - 1] == l + core + r[..|r| - 1];
      BlanksStrip(l, core, r[..|r| - 1]);
    } else {
      assert s == core;
    }
  }

  /** A tag is named by itself, marked weak or not, with any blanks around it, and by the asterisk. */
  lemma TagIsNamed(p: string, r: nat, l: string, t: string)
    requires ProfilePattern(p)
    requires forall i :: 0 <= i < |l| ==> Blank(l[i])
    requires forall i :: 0 <= i < |t| ==> Blank(t[i])
    ensures var e := StateEtag(p, r);
            && Names(l + e + t, e) && Names(l + "W/" + e + t, e) && Names(l + "*" + t, e)
            && Names(e, "W/" + e)
  {
    var e := StateEtag(p, r);
    EtagText(p, r);
    hide StateEtag;
    assert l + "W/" + e + t == l + ("W/" + e) + t;
    BlanksStrip(l, e, t);
    BlanksStrip(l, "W/" + e, t);
    BlanksStrip(l, "*", t);
    assert ("W/" + e)[2..] == e;
  }

  lemma WeakText(p: string, r: nat)
    requires ProfilePattern(p)
    ensures var e := StateEtag(p, r);
            var weak := "W/" + e;
            Strip(weak) == weak && Unweak(weak) == e && Split(weak) == [weak] && Strip(e) == e && Unweak(e) == e && e != ""
  {
    EtagText(p, r);
    hide StateEtag, Split, Strip, Unweak;
    Marked(StateEtag(p, r));
  }

  lemma Marked(e: string)
    requires e != "" && forall i :: 0 <= i < |e| ==> e[i] != ',' && !Blank(e[i])
    ensures var weak := "W/" + e; Strip(weak) == weak && Unweak(weak) == e && Split(weak) == [weak]
  {
    hide Split, Strip;
    var weak := "W/" + e;
    assert weak[2..] == e;
    assert "" + weak + "" == weak;
    forall i | 0 <= i < |weak| ensures weak[i] != ',' && !Blank(weak[i]) {
      if i >= 2 { assert weak[i] == e[i - 2]; }
    }
    BlanksStrip("", weak, "");
    SplitWithoutComma(weak);
  }

  /** Parsing looks at a value only without its blanks and its weak mark. */
  lemma SameRevision(a: string, b: string, profile: string)
    requires a != "" && b != "" && Unweak(Strip(a)) == Unweak(Strip(b))
    ensures RevisionFromEtag(Some(a), profile) == RevisionFromEtag(Some(b), profile)
  {
  }

  /** So a weak tag still matches, and still parses to its revision. */
  lemma WeakTagsWork(p: string, r: nat)
    requires ProfilePattern(p)
    ensures var e := StateEtag(p, r);
            EtagMatches(Some("W/" + e), e) && RevisionFromEtag(Some("W/" + e), p) == Success(Some(r))
  {
    var e := StateEtag(p, r);
    var weak := "W/" + e;
    hide StateEtag, Strip, Unweak, Split, RevisionFromEtag;
    WeakText(p, r);
    ParseInvertsPrint(p, r, p);
    SameRevision(weak, e, p);
    assert Split(weak)[0] == weak && Names(weak, e);
  }
}
