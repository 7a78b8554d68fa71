/** Diacritic stripping and tokenising of Arabic text. A text is a sequence of Unicode code points. */
module ArabicText {

  predicate IsDiacritic(r: char) {
    (0x064B <= r as int <= 0x065F) || r as int == 0x0670 || (0x06D6 <= r as int <= 0x06ED)
  }

  /** The Unicode White_Space property, which word splitting cuts at. */
  predicate IsSpace(r: char) {
    var c := r as int;
    || 0x09 <= c <= 0x0D
    || c in {0x20, 0x85, 0xA0, 0x1680, 0x2028, 0x2029, 0x202F, 0x205F, 0x3000}
    || 0x2000 <= c <= 0x200A
  }

  /** The marks by name: the eight vowel signs and the other combining marks up to U+065F, the
      superscript alef, and the annotation signs; no letter, digit or space is one. */
  lemma DiacriticsAreMarks(r: char)
    ensures r in "\U{064B}\U{064C}\U{064D}\U{064E}\U{064F}\U{0650}\U{0651}\U{0652}\U{0670}\U{06D6}\U{06ED}"
      ==> IsDiacritic(r)
    ensures r <= '\U{064A}' || '\U{0660}' <= r <= '\U{066F}' || '\U{0671}' <= r <= '\U{06D5}' ==> !IsDiacritic(r)
    ensures '\U{06EE}' <= r ==> !IsDiacritic(r)
    ensures IsDiacritic(r) ==> !IsSpace(r)
  {
  }

  /** The spaces by name: tab, the line and page breaks, the blank and the no-break space, the typographic
      spaces and the ideographic one; no letter, joiner or byte-order mark is one. */
  lemma SpacesAreSpaces(r: char)
    ensures r in " \t\n\r\U{000B}\U{000C}\U{0085}\U{00A0}\U{1680}\U{2000}\U{2001}\U{2002}\U{2003}\U{2004}"
              + "\U{2005}\U{2006}\U{2007}\U{2008}\U{2009}\U{200A}\U{2028}\U{2029}\U{202F}\U{205F}\U{3000}"
      <==> IsSpace(r)
  {
  }

  /** The characters of `text` that are not diacritics, in order. */
  function Strip(text: string): string {
    if text == [] then []
    else if IsDiacritic(text[0]) then Strip(text[1..])
    else [text[0]] + Strip(text[1..])
  }

  method Normalize(text: string) returns (b: string)
    ensures b == Strip(text)
  {
    b := "";
    for i := 0 to |text|
      invariant b + Strip(text[i..]) == Strip(text)
    {
      var r := text[i];
      assert text[i..][0] == r && text[i..][1..] == text[i + 1..];
      if IsDiacritic(r) {
        continue;
      }
      b := b + [r];
    }
  }

  /** The length of the word `s` starts with. */
  function WordLength(s: string): (n: nat)
    ensures n <= |s|
  {
    if s == [] || IsSpace(s[0]) then 0 else 1 + WordLength(s[1..])
  }

  /** The maximal runs of non-space characters, in order. */
  function Fields(s: string): seq<string>
    decreases |s|
  {
    if s == [] then []
    else if IsSpace(s[0]) then Fields(s[1..])
    else [s[..WordLength(s)]] + Fields(s[WordLength(s)..])
  }

  function TrimLeft(s: string): string {
    if s != [] && IsSpace(s[0]) then TrimLeft(s[1..]) else s
  }

  function TrimRight(s: string): string {
    if s != [] && IsSpace(s[|s| - 1]) then TrimRight(s[..|s| - 1]) else s
  }

  function TrimSpace(s: string): string {
    TrimRight(TrimLeft(s))
  }

  function Tokenize(text: string): seq<string> {
    Fields(TrimSpace(text))
  }

  /** The words an alignment or an error rate is computed on. */
  function Tokens(text: string): seq<string> {
    Tokenize(Strip(text))
  }

  function Join(words: seq<string>): string {
    if words == [] then [] else words[0] + Join(words[1..])
  }

  /** The rune sequence the character error rate is computed on. */
  function Runes(text: string): string {
    Join(Fields(Strip(text)))
  }

  predicate IsWord(w: string) {
    w != [] && forall k :: 0 <= k < |w| ==> !IsSpace(w[k])
  }

  // ---------------------------------------------------------------- splitting

  lemma {:induction false} WordLengthSplits(w: string, rest: string)
    requires IsWord(w)
    requires rest == [] || IsSpace(rest[0])
    ensures WordLength(w + rest) == |w|
  {
    assert (w + rest)[1..] == w[1..] + rest;
    if |w| > 1 {
      assert forall k :: 0 <= k < |w[1..]| ==> w[1..][k] == w[k + 1];
      WordLengthSplits(w[1..], rest);
    }
  }

  lemma FieldsOfWord(w: string, rest: string)
    requires IsWord(w)
    requires rest == [] || IsSpace(rest[0])
    ensures Fields(w + rest) == [w] + Fields(rest)
  {
    WordLengthSplits(w, rest);
    assert (w + rest)[..|w|] == w && (w + rest)[|w|..] == rest;
  }

  /** What the first word of a text that starts with a word is. */
  lemma {:induction false} FirstWord(s: string)
    requires s != [] && !IsSpace(s[0])
    ensures var n := WordLength(s); IsWord(s[..n]) && (n == |s| || IsSpace(s[n]))
  {
    var n := WordLength(s);
    if |s| > 1 && !IsSpace(s[1]) {
      FirstWord(s[1..]);
      assert forall k :: 1 <= k < n ==> s[..n][k] == s[1..][..n - 1][k - 1];
    }
  }

  /** Every token is a non-empty run without spaces. */
  lemma {:induction false} FieldsAreWords(s: string)
    ensures forall k :: 0 <= k < |Fields(s)| ==> IsWord(Fields(s)[k])
    decreases |s|
  {
    if s != [] {
      if IsSpace(s[0]) {
        FieldsAreWords(s[1..]);
      } else {
        FirstWord(s);
        FieldsAreWords(s[WordLength(s)..]);
      }
    }
  }

  /** Splitting cuts at every space and nowhere else. */
  lemma {:induction false} FieldsCutAtSpaces(a: string, c: char, b: string)
    requires IsSpace(c)
    ensures Fields(a + [c] + b) == Fields(a) + Fields(b)
    ensures IsWord(a) ==> Fields(a) == [a]
    decreases |a|
  {
    if a == [] {
      assert a + [c] + b == [c] + b && ([c] + b)[1..] == b;
    } else if IsSpace(a[0]) {
      assert (a + [c] + b)[1..] == a[1..] + [c] + b;
      FieldsCutAtSpaces(a[1..], c, b);
    } else {
      FirstWord(a);
      var w, rest := a[..WordLength(a)], a[WordLength(a)..];
      FieldsCutAtSpaces(rest, c, b);
      assert a + [c] + b == w + (rest + [c] + b);
      FieldsOfWord(w, rest + [c] + b);
      if IsWord(a) {
        FieldsOfWord(a, []);
        assert a + [] == a;
      }
    }
  }

  lemma {:induction false} FieldsDropTrailingSpace(s: string, c: char)
    requires IsSpace(c)
    ensures Fields(s + [c]) == Fields(s)
    decreases |s|
  {
    if s == [] {
      assert s + [c] == [c] && [c][1..] == [];
    } else if IsSpace(s[0]) {
      assert (s + [c])[1..] == s[1..] + [c];
      FieldsDropTrailingSpace(s[1..], c);
    } else {
      FirstWord(s);
      var w, rest := s[..WordLength(s)], s[WordLength(s)..];
      FieldsDropTrailingSpace(rest, c);
      assert s + [c] == w + (rest + [c]);
      FieldsOfWord(w, rest + [c]);
    }
  }

  lemma {:induction false} FieldsOfTrimRight(s: string)
    ensures Fields(TrimRight(s)) == Fields(s)
    decreases |s|
  {
    if s != [] && IsSpace(s[|s| - 1]) {
      FieldsOfTrimRight(s[..|s| - 1]);
      FieldsDropTrailingSpace(s[..|s| - 1], s[|s| - 1]);
      assert s[..|s| - 1] + [s[|s| - 1]] == s;
    }
  }

  lemma {:induction false} FieldsOfTrimLeft(s: string)
    ensures Fields(TrimLeft(s)) == Fields(s)
  {
    if s != [] && IsSpace(s[0]) {
      FieldsOfTrimLeft(s[1..]);
    }
  }

  /** Trimming before splitting changes nothing. */
  lemma TrimIsRedundant(s: string)
    ensures Tokenize(s) == Fields(s)
  {
    FieldsOfTrimRight(TrimLeft(s));
    FieldsOfTrimLeft(s);
  }

  // ---------------------------------------------------------------- normalising and splitting commute

  /** Strips every word and drops the words that were diacritics only. */
  function StripWords(words: seq<string>): seq<string> {
    if words == [] then []
    else (if Strip(words[0]) == [] then [] else [Strip(words[0])]) + StripWords(words[1..])
  }

  lemma {:induction false} StripOfConcat(a: string, b: string)
    ensures Strip(a + b) == Strip(a) + Strip(b)
  {
    if a == [] {
      assert a + b == b;
    } else {
      assert (a + b)[1..] == a[1..] + b;
      StripOfConcat(a[1..], b);
    }
  }

  lemma {:induction false} StripKeepsCharacters(s: string)
    ensures forall c :: c in Strip(s) ==> c in s && !IsDiacritic(c)
  {
    if s != [] {
      StripKeepsCharacters(s[1..]);
    }
  }

  lemma {:induction false} StripThenSplit(s: string)
    ensures Fields(Strip(s)) == StripWords(Fields(s))
    decreases |s|
  {
    if s == [] {
    } else if IsSpace(s[0]) {
      StripThenSplit(s[1..]);
      assert Strip(s)[1..] == Strip(s[1..]);
    } else {
      FirstWord(s);
      var w, rest := s[..WordLength(s)], s[WordLength(s)..];
      assert s == w + rest;
      StripOfConcat(w, rest);
      StripThenSplit(rest);
      StripKeepsCharacters(w);
      assert forall k :: 0 <= k < |Strip(w)| ==> Strip(w)[k] in Strip(w);
      if Strip(w) == [] {
        assert Strip(s) == Strip(rest);
      } else {
        FieldsOfWord(Strip(w), Strip(rest));
      }
      assert Fields(s)[1..] == Fields(rest);
    }
  }

  /** Normalising then tokenising is tokenising, stripping each token and dropping the empty
      ones; and every token is a word free of spaces and diacritics. */
  lemma NormalizeThenTokenize(text: string)
    ensures Tokens(text) == StripWords(Tokenize(text))
    ensures forall k :: 0 <= k < |Tokens(text)| ==> IsWord(Tokens(text)[k])
  {
    TrimIsRedundant(Strip(text));
    TrimIsRedundant(text);
    StripThenSplit(text);
    FieldsAreWords(Strip(text));
  }

  /** The character error rate reads exactly the concatenation of the aligned words. */
  lemma RunesAreJoinedTokens(text: string)
    ensures Runes(text) == Join(Tokens(text))
  {
    TrimIsRedundant(Strip(text));
  }

  lemma {:induction false} StripOfDiacritics(d: string)
    requires forall k :: 0 <= k < |d| ==> IsDiacritic(d[k])
    ensures Strip(d) == []
  {
    if d != [] {
      StripOfDiacritics(d[1..]);
    }
  }

  /** Diacritics inserted anywhere in a text are invisible to everything computed from it. */
  lemma DiacriticsAreInvisible(a: string, d: string, b: string)
    requires forall k :: 0 <= k < |d| ==> IsDiacritic(d[k])
    ensures Tokens(a + d + b) == Tokens(a + b)
    ensures Runes(a + d + b) == Runes(a + b)
  {
    StripOfDiacritics(d);
    StripOfConcat(a, d);
    StripOfConcat(a + d, b);
    StripOfConcat(a, b);
    assert Strip(a + d + b) == Strip(a + b);
  }
}
