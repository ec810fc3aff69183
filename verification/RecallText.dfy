/** Trimming, tokenising and counting words in a recall answer. */
module RecallText {
  import opened Prelude

  /** The characters `trim` removes. */
  predicate Trimmable(c: char) { c == ' ' || c == '\t' || c == '\r' || c == '\n' }

  /** `std::isspace` in the C locale. */
  predicate Space(c: char) { c == ' ' || 9 <= c as int <= 13 }

  predicate Upper(c: char) { 'A' <= c <= 'Z' }

  /** `std::isalnum` in the C locale. */
  predicate Alnum(c: char) { '0' <= c <= '9' || 'a' <= c <= 'z' || Upper(c) }

  function Lower(c: char): char {
    if Upper(c) then (c as int + 32) as char else c
  }

  predicate AllTrimmable(s: string) { forall i :: 0 <= i < |s| ==> Trimmable(s[i]) }

  predicate AllSpace(s: string) { forall i :: 0 <= i < |s| ==> Space(s[i]) }

  function TrimLeft(s: string): string {
    if s != "" && Trimmable(s[0]) then TrimLeft(s[1..]) else s
  }

  function TrimRight(s: string): string {
    if s != "" && Trimmable(s[|s| - 1]) then TrimRight(s[..|s| - 1]) else s
  }

  function Trim(s: string): string {
    TrimRight(TrimLeft(s))
  }

  /** Nothing left to trim at either end. */
  predicate Tight(s: string) {
    s == "" || (!Trimmable(s[0]) && !Trimmable(s[|s| - 1]))
  }

  lemma {:induction false} TrimLeftSplits(s: string) returns (l: string)
    ensures s == l + TrimLeft(s) && AllTrimmable(l)
    ensures TrimLeft(s) == "" || !Trimmable(TrimLeft(s)[0])
  {
    if s != "" && Trimmable(s[0]) {
      var rest := TrimLeftSplits(s[1..]);
      l := [s[0]] + rest;
    } else {
      l := "";
    }
  }

  lemma {:induction false} TrimRightSplits(s: string) returns (r: string)
    ensures s == TrimRight(s) + r && AllTrimmable(r)
    ensures TrimRight(s) == "" || !Trimmable(TrimRight(s)[|TrimRight(s)| - 1])
  {
    if s != "" && Trimmable(s[|s| - 1]) {
      var rest := TrimRightSplits(s[..|s| - 1]);
      r := rest + [s[|s| - 1]];
    } else {
      r := "";
      assert s == s + r;
    }
  }

  lemma TrimSplits(s: string) returns (l: string, r: string)
    ensures s == l + Trim(s) + r && AllTrimmable(l) && AllTrimmable(r) && Tight(Trim(s))
  {
    l := TrimLeftSplits(s);
    r := TrimRightSplits(TrimLeft(s));
    assert s == l + (Trim(s) + r);
    if Trim(s) != "" { assert Trim(s)[0] == TrimLeft(s)[0]; }
  }

  lemma {:induction false} TrimLeftPeels(l: string, s: string)
    requires AllTrimmable(l)
    ensures TrimLeft(l + s) == TrimLeft(s)
  {
    if l == "" {
      assert l + s == s;
    } else {
      TrimLeftPeels(l[1..], s);
      assert (l + s)[1..] == l[1..] + s;
    }
  }

  lemma {:induction false} TrimRightPeels(s: string, r: string)
    requires AllTrimmable(r)
    ensures TrimRight(s + r) == TrimRight(s)
  {
    if r == "" {
      assert s + r == s;
    } else {
      TrimRightPeels(s, r[..|r| - 1]);
      assert (s + r)[..|s + r| - 1] == s + r[..|r| - 1];
    }
  }

  /** `trim` returns the tight core: any way of writing a string as blank, tight, blank names it. */
  lemma TrimIsTheCore(l: string, core: string, r: string)
    requires AllTrimmable(l) && AllTrimmable(r) && Tight(core)
    ensures Trim(l + core + r) == core
  {
    assert l + core + r == l + (core + r);
    TrimLeftPeels(l, core + r);
    if core == "" {
      assert core + r == r + "";
      TrimLeftPeels(r, "");
    } else {
      assert TrimLeft(core + r) == core + r;
      TrimRightPeels(core, r);
    }
  }

  /** The service trims exactly the space, the tab, the line feed and the carriage return. */
  lemma TrimOfOne(c: char)
    ensures Trim([c]) == if c in {' ', '\t', '\n', '\r'} then "" else [c]
  {
    if Trimmable(c) {
      assert TrimLeft([c]) == TrimLeft([c][1..]) == "";
    } else {
      assert TrimLeft([c]) == [c] && TrimRight([c]) == [c];
    }
  }

  lemma TrimIsIdempotent(s: string)
    ensures Trim(Trim(s)) == Trim(s)
  {
    var l, r := TrimSplits(s);
    TrimIsTheCore("", Trim(s), "");
    assert "" + Trim(s) + "" == Trim(s);
  }

  lemma CoreExtends(core: string, tail: string)
    requires core != "" && !Trimmable(core[|core| - 1])
    ensures TrimRight(core + tail) == core + TrimRight(tail)
  {
    var blank := TrimRightSplits(tail);
    var x := TrimRight(tail);
    assert core + tail == (core + x) + blank;
    TrimRightPeels(core + x, blank);
    if x == "" {
      assert core + x == core;
    }
  }

  /** Whatever is written after an answer, the old core stays a prefix of the new one. */
  lemma TrimExtends(s: string, more: string) returns (x: string)
    requires Trim(s) != ""
    ensures Trim(s + more) == Trim(s) + x
  {
    var l, r := TrimSplits(s);
    var core, tail := Trim(s), r + more;
    x := TrimRight(tail);
    assert s + more == l + (core + tail);
    TrimLeftPeels(l, core + tail);
    hide TrimRight;
    assert TrimLeft(core + tail) == core + tail;
    CoreExtends(core, tail);
  }

  // ---------------------------------------------------------------- tokens

  function Flush(current: string): seq<string> {
    if current == "" then [] else [current]
  }

  /** The tokens still to come when `current` has been collected and `s` is left to read. */
  function TokensFrom(current: string, s: string): seq<string>
    decreases |s|
  {
    if s == "" then Flush(current)
    else if Alnum(s[0]) then TokensFrom(current + [Lower(s[0])], s[1..])
    else Flush(current) + TokensFrom("", s[1..])
  }

  function Tokens(s: string): seq<string> {
    TokensFrom("", s)
  }

  method Tokenize(value: string) returns (tokens: seq<string>)
    ensures tokens == Tokens(value)
  {
    tokens := [];
    var current := "";
    var i := 0;
    while i < |value|
      invariant 0 <= i <= |value|
      invariant tokens + TokensFrom(current, value[i..]) == Tokens(value)
    {
      assert value[i..][1..] == value[i + 1..];
      if Alnum(value[i]) {
        current := current + [Lower(value[i])];
      } else if current != "" {
        tokens := tokens + [current];
        current := "";
      }
      i := i + 1;
    }
    assert value[i..] == "";
    if current != "" {
      tokens := tokens + [current];
    }
  }

  /** A separator cuts tokenising in two. */
  lemma {:induction false} TokensFromConcat(current: string, a: string, separator: char, b: string)
    requires !Alnum(separator)
    ensures TokensFrom(current, a + [separator] + b) == TokensFrom(current, a) + Tokens(b)
    decreases |a|
  {
    var all := a + [separator] + b;
    if a == "" {
      assert all[1..] == b;
    } else {
      assert all[1..] == a[1..] + [separator] + b;
      if Alnum(a[0]) {
        TokensFromConcat(current + [Lower(a[0])], a[1..], separator, b);
      } else {
        TokensFromConcat("", a[1..], separator, b);
      }
    }
  }

  lemma TokensConcat(a: string, separator: char, b: string)
    requires !Alnum(separator)
    ensures Tokens(a + [separator] + b) == Tokens(a) + Tokens(b)
  {
    TokensFromConcat("", a, separator, b);
  }

  lemma {:induction false} TokensPeelLeft(l: string, s: string)
    requires AllSpace(l)
    ensures Tokens(l + s) == Tokens(s)
  {
    if l == "" {
      assert l + s == s;
    } else {
      TokensPeelLeft(l[1..], s);
      assert (l + s)[1..] == l[1..] + s;
    }
  }

  lemma {:induction false} TokensPeelRight(s: string, r: string)
    requires AllSpace(r)
    ensures Tokens(s + r) == Tokens(s)
  {
    if r == "" {
      assert s + r == s;
    } else {
      var init := r[..|r| - 1];
      TokensPeelRight(s, init);
      assert s + r == (s + init) + [r[|r| - 1]] + "";
      TokensConcat(s + init, r[|r| - 1], "");
    }
  }

  lemma TokensOfTrim(s: string)
    ensures Tokens(Trim(s)) == Tokens(s)
  {
    var l, r := TrimSplits(s);
    TokensPeelRight(l + Trim(s), r);
    TokensPeelLeft(l, Trim(s));
  }

  /** A nonempty lower-case alphanumeric run: what every token is. */
  predicate Word(t: string) {
    t != "" && forall i :: 0 <= i < |t| ==> Alnum(t[i]) && Lower(t[i]) == t[i]
  }

  lemma {:induction false} TokensAreWords(current: string, s: string)
    requires current == "" || Word(current)
    ensures forall t :: t in TokensFrom(current, s) ==> Word(t)
    decreases |s|
  {
    if s != "" {
      if Alnum(s[0]) {
        TokensAreWords(current + [Lower(s[0])], s[1..]);
      } else {
        TokensAreWords("", s[1..]);
      }
    }
  }

  function Join(tokens: seq<string>): string {
    if tokens == [] then ""
    else if |tokens| == 1 then tokens[0]
    else tokens[0] + [' '] + Join(tokens[1..])
  }

  lemma {:induction false} TokensOfWord(current: string, t: string)
    requires forall i :: 0 <= i < |t| ==> Alnum(t[i]) && Lower(t[i]) == t[i]
    ensures TokensFrom(current, t) == Flush(current + t)
    decreases |t|
  {
    if t == "" {
      assert current + t == current;
    } else {
      TokensOfWord(current + [t[0]], t[1..]);
      assert current + t == current + [t[0]] + t[1..];
    }
  }

  /** Tokenising a space-joined word list gives the list back. */
  lemma {:induction false} TokensOfJoin(words: seq<string>)
    requires forall t :: t in words ==> Word(t)
    ensures Tokens(Join(words)) == words
  {
    if words != [] {
      assert Word(words[0]);
      TokensOfWord("", words[0]);
      assert "" + words[0] == words[0];
      if |words| > 1 {
        TokensOfJoin(words[1..]);
        TokensConcat(words[0], ' ', Join(words[1..]));
        assert words == [words[0]] + words[1..];
      }
    }
  }

  /** So a token list is a normal form: joining it and tokenising again changes nothing. */
  lemma TokensAreANormalForm(s: string)
    ensures Tokens(Join(Tokens(s))) == Tokens(s)
  {
    TokensAreWords("", s);
    TokensOfJoin(Tokens(s));
  }

  /** The letters and digits of a text, in lower case. */
  function Letters(s: string): string {
    if s == "" then ""
    else
      var c := s[|s| - 1];
      Letters(s[..|s| - 1]) +
      if '0' <= c <= '9' || 'a' <= c <= 'z' then [c]
      else if 'A' <= c <= 'Z' then [(c - 'A') + 'a']
      else ""
  }

  function Concat(tokens: seq<string>): string {
    if tokens == [] then "" else tokens[0] + Concat(tokens[1..])
  }

  lemma {:induction false} ConcatJoins(a: seq<string>, b: seq<string>)
    ensures Concat(a + b) == Concat(a) + Concat(b)
  {
    if a == [] {
      assert a + b == b;
    } else {
      assert (a + b)[1..] == a[1..] + b;
      ConcatJoins(a[1..], b);
    }
  }

  lemma LettersStep(c: char)
    ensures Letters([c]) == if Alnum(c) then [Lower(c)] else ""
  {
    assert [c][..0] == "";
  }

  lemma {:induction false} LettersJoin(a: string, b: string)
    ensures Letters(a + b) == Letters(a) + Letters(b)
    decreases |b|
  {
    if b == "" {
      assert a + b == a;
    } else {
      var init := b[..|b| - 1];
      assert (a + b)[..|a + b| - 1] == a + init;
      LettersJoin(a, init);
    }
  }

  lemma {:induction false} TokensFromKeep(current: string, s: string)
    ensures Concat(TokensFrom(current, s)) == current + Letters(s)
    decreases |s|
  {
    if s == "" {
      assert Concat([current]) == current + Concat([]);
    } else {
      var rest := s[1..];
      assert s == [s[0]] + rest;
      LettersJoin([s[0]], rest);
      LettersStep(s[0]);
      hide Letters;
      if Alnum(s[0]) {
        TokensFromKeep(current + [Lower(s[0])], rest);
      } else {
        TokensFromKeep("", rest);
        ConcatJoins(Flush(current), TokensFrom("", rest));
        assert Concat(Flush(current)) == current by { assert Concat([current]) == current + Concat([]); }
      }
    }
  }

  /** Tokenising loses and adds nothing: run together, the tokens are the text's letters and digits in lower case. */
  lemma TokensKeepTheLetters(s: string)
    ensures Concat(Tokens(s)) == Letters(s)
  {
    TokensFromKeep("", s);
  }

  // ---------------------------------------------------------------- words

  /** Words still to be counted, given whether the character before was part of one. */
  function WordsFrom(inWord: bool, s: string): nat
    decreases |s|
  {
    if s == "" then 0
    else if Space(s[0]) then WordsFrom(false, s[1..])
    else (if inWord then 0 else 1) + WordsFrom(true, s[1..])
  }

  function Words(s: string): nat {
    WordsFrom(false, s)
  }

  /** The scorer's counter; the validator's is the same loop. */
  method CountWords(value: string) returns (count: nat)
    ensures count == Words(value)
  {
    count := 0;
    var inWord := false;
    var i := 0;
    while i < |value|
      invariant 0 <= i <= |value|
      invariant count + WordsFrom(inWord, value[i..]) == Words(value)
    {
      assert value[i..][1..] == value[i + 1..];
      if !Space(value[i]) {
        if !inWord {
          count := count + 1;
          inWord := true;
        }
      } else {
        inWord := false;
      }
      i := i + 1;
    }
  }

  /** Space, tab, line feed, vertical tab, form feed, carriage return. */
  predicate White(c: char) { c == ' ' || '\t' <= c <= '\r' }

  predicate StartsWord(s: string, i: int)
    requires 0 <= i < |s|
  {
    !White(s[i]) && (i == 0 || White(s[i - 1]))
  }

  function WordStarts(s: string): set<int> {
    set i | 0 <= i < |s| && StartsWord(s, i)
  }

  lemma {:induction false} WordsFromAppend(inWord: bool, s: string, c: char)
    ensures var open := if s == "" then inWord else !Space(s[|s| - 1]);
            WordsFrom(inWord, s + [c]) == WordsFrom(inWord, s) + if Space(c) || open then 0 else 1
    decreases |s|
  {
    if s == "" {
      assert ([c])[1..] == "";
    } else {
      assert (s + [c])[1..] == s[1..] + [c];
      WordsFromAppend(!Space(s[0]), s[1..], c);
    }
  }

  /** The flag-driven count is the number of places where a word starts. */
  lemma {:induction false} WordsAreStarts(s: string)
    ensures Words(s) == |WordStarts(s)|
  {
    if s != "" {
      var n := |s| - 1;
      var init, c := s[..n], s[n];
      assert s == init + [c];
      WordsAreStarts(init);
      WordsFromAppend(false, init, c);
      StartsStep(init, c);
      hide WordStarts, WordsFrom;
    }
  }

  lemma StartsStep(s: string, c: char)
    ensures var open := s != "" && !Space(s[|s| - 1]);
            |WordStarts(s + [c])| == |WordStarts(s)| + if Space(c) || open then 0 else 1
  {
    SpaceIsWhite(c);
    if s != "" { SpaceIsWhite(s[|s| - 1]); }
    hide Space, White;
    var longer := s + [c];
    assert longer[|s|] == c;
    forall i | 0 <= i < |s| ensures StartsWord(longer, i) <==> StartsWord(s, i) {
      assert longer[i] == s[i];
    }
    hide StartsWord;
    if StartsWord(longer, |s|) {
      assert WordStarts(longer) == WordStarts(s) + {|s|};
    } else {
      assert WordStarts(longer) == WordStarts(s);
    }
    assert StartsWord(longer, |s|) <==> !White(c) && (s == "" || White(s[|s| - 1])) by { LastStart(s, c); }
  }

  lemma SpaceIsWhite(c: char)
    ensures Space(c) <==> White(c)
  {
  }

  lemma LastStart(s: string, c: char)
    ensures StartsWord(s + [c], |s|) <==> !White(c) && (s == "" || White(s[|s| - 1]))
  {
  }

  lemma {:induction false} WordsThrough(inWord: bool, t: string, rest: string)
    requires forall i :: 0 <= i < |t| ==> !Space(t[i])
    requires t != "" || inWord
    ensures WordsFrom(inWord, t + rest) == (if inWord then 0 else 1) + WordsFrom(true, rest)
    decreases |t|
  {
    if t == "" {
      assert t + rest == rest;
    } else {
      assert (t + rest)[1..] == t[1..] + rest;
      WordsThrough(true, t[1..], rest);
    }
  }

  /** Space-joined words are counted as so many words. */
  lemma {:induction false} WordsOfJoin(words: seq<string>)
    requires forall t :: t in words ==> Word(t)
    ensures Words(Join(words)) == |words|
  {
    if words != [] {
      assert Word(words[0]);
      if |words| == 1 {
        WordsThrough(false, words[0], "");
        assert words[0] + "" == words[0];
      } else {
        WordsOfJoin(words[1..]);
        var rest := [' '] + Join(words[1..]);
        assert words[0] + [' '] + Join(words[1..]) == words[0] + rest;
        assert rest[1..] == Join(words[1..]);
        WordsThrough(false, words[0], rest);
      }
    }
  }

  lemma {:induction false} WordsGrow(inWord: bool, s: string, more: string)
    ensures WordsFrom(inWord, s + more) >= WordsFrom(inWord, s)
    decreases |s|
  {
    if s != "" {
      assert (s + more)[1..] == s[1..] + more;
      WordsGrow(!Space(s[0]), s[1..], more);
    }
  }

  lemma {:induction false} WordsPeelRight(inWord: bool, s: string, r: string)
    requires AllSpace(r)
    ensures WordsFrom(inWord, s + r) == WordsFrom(inWord, s)
    decreases |s|, |r|
  {
    if s == "" {
      assert s + r == r;
      if r != "" {
        assert "" + r[1..] == r[1..];
        WordsPeelRight(false, "", r[1..]);
      }
    } else {
      assert (s + r)[1..] == s[1..] + r;
      WordsPeelRight(!Space(s[0]), s[1..], r);
    }
  }

  lemma {:induction false} WordsPeelLeft(l: string, s: string)
    requires AllSpace(l)
    ensures Words(l + s) == Words(s)
  {
    if l == "" {
      assert l + s == s;
    } else {
      WordsPeelLeft(l[1..], s);
      assert (l + s)[1..] == l[1..] + s;
    }
  }

  lemma WordsOfTrim(s: string)
    ensures Words(Trim(s)) == Words(s)
  {
    var l, r := TrimSplits(s);
    WordsPeelRight(false, l + Trim(s), r);
    WordsPeelLeft(l, Trim(s));
  }

  // ---------------------------------------------------------------- the browser's trim

  /** JavaScript's `trim`, on the characters of this model: every space, not only the service's four. */
  function BrowserTrim(s: string): string
    decreases |s|
  {
    if s != "" && Space(s[0]) then BrowserTrim(s[1..])
    else if s != "" && Space(s[|s| - 1]) then BrowserTrim(s[..|s| - 1])
    else s
  }

  /** The browser trims the vertical tab and the form feed as well. */
  lemma BrowserTrimOfOne(c: char)
    ensures BrowserTrim([c]) == if White(c) then "" else [c]
  {
    assert [c][1..] == "";
  }

  /** How a string is cut: blank, core, blank. */
  ghost predicate Cut(s: string, l: string, t: string, r: string) {
    s == l + t + r && AllSpace(l) && AllSpace(r)
  }

  lemma CutLeft(s: string, l: string, t: string, r: string)
    requires s != "" && Space(s[0]) && Cut(s[1..], l, t, r)
    ensures Cut(s, [s[0]] + l, t, r)
  {
    assert s == [s[0]] + s[1..];
    assert [s[0]] + (l + t + r) == ([s[0]] + l) + t + r;
  }

  lemma CutRight(s: string, l: string, t: string, r: string)
    requires s != "" && Space(s[|s| - 1]) && Cut(s[..|s| - 1], l, t, r)
    ensures Cut(s, l, t, r + [s[|s| - 1]])
  {
    assert s == s[..|s| - 1] + [s[|s| - 1]];
    assert (l + t + r) + [s[|s| - 1]] == l + t + (r + [s[|s| - 1]]);
  }

  lemma {:induction false} BrowserTrimSplits(s: string) returns (l: string, r: string)
    ensures Cut(s, l, BrowserTrim(s), r)
    ensures var t := BrowserTrim(s); t == "" || (!Space(t[0]) && !Space(t[|t| - 1]))
    decreases |s|
  {
    hide Cut, Space;
    if s != "" && Space(s[0]) {
      l, r := BrowserTrimSplits(s[1..]);
      CutLeft(s, l, BrowserTrim(s), r);
      l := [s[0]] + l;
    } else if s != "" && Space(s[|s| - 1]) {
      l, r := BrowserTrimSplits(s[..|s| - 1]);
      CutRight(s, l, BrowserTrim(s), r);
      r := r + [s[|s| - 1]];
    } else {
      l, r := "", "";
      NoCut(s);
    }
  }

  lemma NoCut(s: string)
    ensures Cut(s, "", s, "")
  {
    assert s == "" + s + "";
  }

  /** The browser's trim leaves the service nothing to trim, and changes no token and no word. */
  lemma BrowserTrimIsHarmless(s: string)
    ensures var t := BrowserTrim(s);
            && BrowserTrim(t) == t && Trim(t) == t && |t| <= |s|
            && Tokens(t) == Tokens(s) && Words(t) == Words(s)
            && (forall c :: !Space(c) ==> (c in t <==> c in s))
  {
    var t := BrowserTrim(s);
    var l, r := BrowserTrimSplits(s);
    TokensPeelRight(l + t, r);
    TokensPeelLeft(l, t);
    WordsPeelRight(false, l + t, r);
    WordsPeelLeft(l, t);
    assert "" + t + "" == t;
    TrimIsTheCore("", t, "");
  }
}
