/**
 SQL LIKE patterns and the escaping applied to user input before it is put between two
 per-cent signs.  The matcher is the one PostgreSQL documents in section 9.7.1 of its manual,
 with a backslash as the escape character.
 */
module Like {

  predicate IsSpecial(c: char) {
    c == '%' || c == '_' || c == '\\'
  }

  /** `text LIKE pattern ESCAPE '\'`.  A pattern that ends in a lone escape matches nothing. */
  predicate Matches(pattern: string, text: string)
    decreases |pattern| + |text|
  {
    if pattern == "" then text == ""
    else if pattern[0] == '%' then
      Matches(pattern[1..], text) || (text != "" && Matches(pattern, text[1..]))
    else if pattern[0] == '_' then
      text != "" && Matches(pattern[1..], text[1..])
    else if pattern[0] == '\\' then
      |pattern| > 1 && text != "" && text[0] == pattern[1] && Matches(pattern[2..], text[1..])
    else
      text != "" && text[0] == pattern[0] && Matches(pattern[1..], text[1..])
  }

  /** Puts a backslash before every character LIKE would treat specially. */
  function Escape(s: string): string {
    if s == "" then ""
    else (if IsSpecial(s[0]) then ['\\', s[0]] else [s[0]]) + Escape(s[1..])
  }

  /** The pattern the services build around a search term. */
  function ContainsPattern(s: string): string {
    "%" + Escape(s) + "%"
  }

  ghost predicate Contains(text: string, s: string) {
    exists i :: 0 <= i <= |text| && s <= text[i..]
  }

  /** One escaped character in front of a pattern consumes exactly that character. */
  lemma EscapedChar(c: char, rest: string, text: string)
    ensures Matches(Escape([c]) + rest, text)
       <==> text != "" && text[0] == c && Matches(rest, text[1..])
  {
    assert [c][1..] == "" && Escape("") == "";
    assert Escape([c]) == if IsSpecial(c) then ['\\', c] else [c];
    var pattern := Escape([c]) + rest;
    if IsSpecial(c) {
      assert pattern[0] == '\\' && pattern[1] == c && pattern[2..] == rest;
    } else {
      assert pattern[0] == c && pattern[1..] == rest;
    }
  }

  /** An escaped term in front of any pattern consumes exactly itself. */
  lemma {:induction false} EscapedPrefix(s: string, rest: string, text: string)
    ensures Matches(Escape(s) + rest, text) <==> s <= text && Matches(rest, text[|s|..])
  {
    if s == "" {
      assert Escape(s) + rest == rest && text[0..] == text;
    } else {
      assert [s[0]][1..] == "";
      assert Escape("") == "";
      assert Escape(s) + rest == Escape([s[0]]) + (Escape(s[1..]) + rest);
      EscapedChar(s[0], Escape(s[1..]) + rest, text);
      if text != "" && text[0] == s[0] {
        EscapedPrefix(s[1..], rest, text[1..]);
        assert s == [s[0]] + s[1..] && text == [text[0]] + text[1..];
        assert s <= text ==> text[1..][|s| - 1..] == text[|s|..];
      }
    }
  }

  lemma {:induction false} PercentMatchesAnything(text: string)
    ensures Matches("%", text)
  {
    if text != "" {
      PercentMatchesAnything(text[1..]);
    } else {
      assert Matches("%"[1..], text);
    }
  }

  /** Escaping alone turns LIKE into equality. */
  lemma EscapedIsExact(s: string, text: string)
    ensures Matches(Escape(s), text) <==> text == s
  {
    EscapedPrefix(s, "", text);
    assert Escape(s) + "" == Escape(s);
    if s <= text && text[|s|..] == "" {
      assert text == s;
    }
  }

  /** Distinct terms never share a pattern. */
  lemma EscapeInjective(s: string, t: string)
    ensures Escape(s) == Escape(t) <==> s == t
  {
    EscapedIsExact(s, s);
    EscapedIsExact(t, s);
  }

  /** LIKE '%' || escape(s) || '%' is exactly "contains s". */
  lemma {:induction false} ContainsPatternIsContains(s: string, text: string)
    ensures Matches(ContainsPattern(s), text) <==> Contains(text, s)
    decreases |text|
  {
    var pattern := ContainsPattern(s);
    var tail := Escape(s) + "%";
    assert pattern[1..] == tail;
    EscapedPrefix(s, "%", text);
    if s <= text {
      PercentMatchesAnything(text[|s|..]);
      assert s <= text[0..];
    } else if text == "" {
      assert forall i :: 0 <= i <= |text| ==> text[i..] == text;
    } else {
      var rest := text[1..];
      ContainsPatternIsContains(s, rest);
      if Contains(rest, s) {
        var i :| 0 <= i <= |rest| && s <= rest[i..];
        assert rest[i..] == text[i + 1..];
      }
      if Contains(text, s) {
        var i :| 0 <= i <= |text| && s <= text[i..];
        assert text[0..] == text;
        assert rest[i - 1..] == text[i..];
      }
    }
  }

  // ----- ILIKE -----

  function MapChars(fold: char -> char, s: string): string {
    seq(|s|, i requires 0 <= i < |s| => fold(s[i]))
  }

  /** Case folding leaves the three special characters alone and maps nothing else onto them. */
  ghost predicate LawfulFold(fold: char -> char) {
    forall c :: (IsSpecial(c) ==> fold(c) == c) && (IsSpecial(fold(c)) ==> IsSpecial(c))
  }

  /** `text ILIKE pattern`: both sides are folded and then matched. */
  predicate MatchesFolded(fold: char -> char, pattern: string, text: string) {
    Matches(MapChars(fold, pattern), MapChars(fold, text))
  }

  lemma {:induction false} EscapeCommutesWithFold(fold: char -> char, s: string)
    requires LawfulFold(fold)
    ensures MapChars(fold, Escape(s)) == Escape(MapChars(fold, s))
  {
    if s != "" {
      EscapeCommutesWithFold(fold, s[1..]);
      assert MapChars(fold, s)[1..] == MapChars(fold, s[1..]);
    }
  }

  /** ILIKE '%' || escape(s) || '%' is exactly "contains s" up to case folding. */
  lemma ContainsPatternFolded(fold: char -> char, s: string, text: string)
    requires LawfulFold(fold)
    ensures MatchesFolded(fold, ContainsPattern(s), text)
       <==> Contains(MapChars(fold, text), MapChars(fold, s))
  {
    EscapeCommutesWithFold(fold, s);
    assert MapChars(fold, ContainsPattern(s)) == ContainsPattern(MapChars(fold, s));
    ContainsPatternIsContains(MapChars(fold, s), MapChars(fold, text));
  }

  // ----- What the matcher means -----

  /** A per-cent sign stands for any text, an underscore for any one character, and any other character, or one after
      a backslash, for itself. */
  lemma PatternHeads(c: char, rest: string, text: string)
    ensures Matches("%" + rest, text) <==> exists i :: 0 <= i <= |text| && Matches(rest, text[i..])
    ensures Matches("_" + rest, text) <==> text != "" && Matches(rest, text[1..])
    ensures c != '%' && c != '_' && c != '\\' ==>
              (Matches([c] + rest, text) <==> text != "" && text[0] == c && Matches(rest, text[1..]))
    ensures Matches(['\\', c] + rest, text) <==> text != "" && text[0] == c && Matches(rest, text[1..])
    ensures Matches("", text) <==> text == ""
  {
    AnyText(rest, text);
    assert ("_" + rest)[1..] == rest && ([c] + rest)[1..] == rest && (['\\', c] + rest)[2..] == rest;
  }

  lemma {:induction false} AnyText(rest: string, text: string)
    ensures Matches("%" + rest, text) <==> exists i :: 0 <= i <= |text| && Matches(rest, text[i..])
    decreases |text|
  {
    assert ("%" + rest)[1..] == rest && text[0..] == text;
    if text == "" {
      assert forall i :: 0 <= i <= |text| ==> text[i..] == text;
    } else {
      AnyText(rest, text[1..]);
      if i :| 0 <= i <= |text| && Matches(rest, text[i..]) {
        if i > 0 {
          assert text[1..][i - 1..] == text[i..];
        }
      }
      if i :| 0 <= i <= |text[1..]| && Matches(rest, text[1..][i..]) {
        assert text[i + 1..] == text[1..][i..];
      }
    }
  }

  /** Containing a term means that the text is something, the term, and something again. */
  lemma ContainsIsInfix(text: string, s: string)
    ensures Contains(text, s) <==> exists before, after :: text == before + s + after
  {
    if Contains(text, s) {
      var i :| 0 <= i <= |text| && s <= text[i..];
      assert text == text[..i] + s + text[i..][|s|..];
    }
    if before, after :| text == before + s + after {
      assert text[|before|..] == s + after;
    }
  }

  /** At position i the text reads like the term, up to case. */
  ghost predicate VariantAt(fold: char -> char, s: string, text: string, i: nat) {
    i + |s| <= |text| && forall j :: 0 <= j < |s| ==> fold(text[i + j]) == fold(s[j])
  }

  /** A term is found by ILIKE exactly in the texts that hold a case variant of it. */
  lemma FoundIffCaseVariant(fold: char -> char, s: string, text: string)
    requires LawfulFold(fold)
    ensures MatchesFolded(fold, ContainsPattern(s), text) <==> exists i :: VariantAt(fold, s, text, i)
  {
    ContainsPatternFolded(fold, s, text);
    var folded, term := MapChars(fold, text), MapChars(fold, s);
    forall i: nat | i <= |text| ensures term <= folded[i..] <==> VariantAt(fold, s, text, i) {
      if term <= folded[i..] {
        forall j | 0 <= j < |s| ensures fold(text[i + j]) == fold(s[j]) {
          assert folded[i..][j] == term[j];
        }
      }
    }
  }
}
