/** SQLite's `LIKE` operator as the search query uses it: `%` matches any run
    of characters, `_` any one character, and letters compare without regard
    to ASCII case. */
module SqlLike {

  /** ASCII lower-casing; every other character is left alone. */
  function Fold(c: char): char {
    if 'A' <= c <= 'Z' then (c as int + 32) as char else c
  }

  /** `text LIKE pattern`, with no ESCAPE clause. A non-empty pattern made only
      of `%` matches every text. */
  function Like(pattern: string, text: string): (r: bool)
    ensures pattern != [] && (forall i :: 0 <= i < |pattern| ==> pattern[i] == '%') ==> r
    decreases |pattern| + |text|
  {
    if pattern == [] then text == []
    else if pattern[0] == '%' then
      Like(pattern[1..], text) || (text != [] && Like(pattern, text[1..]))
    else
      text != []
      && (pattern[0] == '_' || Fold(pattern[0]) == Fold(text[0]))
      && Like(pattern[1..], text[1..])
  }

  /** The pattern the search query binds: `f'%{term}%'`. */
  function ContainsPattern(term: string): string {
    "%" + term + "%"
  }

  predicate NoWildcards(term: string) {
    forall i :: 0 <= i < |term| ==> term[i] != '%' && term[i] != '_'
  }

  /** `term` is a prefix of `text` when letters are compared without ASCII case. */
  predicate FoldedPrefix(term: string, text: string) {
    |term| <= |text| && forall i :: 0 <= i < |term| ==> Fold(term[i]) == Fold(text[i])
  }

  /** `term` occurs somewhere in `text` when letters are compared without ASCII case. */
  predicate FoldedSubstring(term: string, text: string) {
    exists k :: 0 <= k <= |text| && FoldedPrefix(term, text[k..])
  }

  /** A lone `%` matches every text. */
  lemma {:induction false} PercentMatchesAll(text: string)
    ensures Like("%", text)
    decreases |text|
  {
    assert "%"[1..] == [];
    if text != [] {
      PercentMatchesAll(text[1..]);
    }
  }

  /** `term%` matches exactly the texts that start with `term`. */
  lemma {:induction false} PrefixPattern(term: string, text: string)
    requires NoWildcards(term)
    ensures Like(term + "%", text) <==> FoldedPrefix(term, text)
    decreases |term|
  {
    if term == [] {
      assert term + "%" == "%";
      PercentMatchesAll(text);
    } else {
      var p := term + "%";
      assert p[0] == term[0] && p[1..] == term[1..] + "%";
      assert NoWildcards(term[1..]);
      if text != [] {
        PrefixPattern(term[1..], text[1..]);
        if FoldedPrefix(term[1..], text[1..]) && Fold(term[0]) == Fold(text[0]) {
          forall i | 0 <= i < |term|
            ensures Fold(term[i]) == Fold(text[i])
          {
            if i > 0 {
              assert term[1..][i - 1] == term[i] && text[1..][i - 1] == text[i];
            }
          }
        }
        if FoldedPrefix(term, text) {
          forall i | 0 <= i < |term[1..]|
            ensures Fold(term[1..][i]) == Fold(text[1..][i])
          {
            assert term[1..][i] == term[i + 1] && text[1..][i] == text[i + 1];
          }
        }
      }
    }
  }

  /** A leading `%` lets the rest of the pattern match at any position. */
  lemma {:induction false} LeadingPercent(rest: string, text: string)
    ensures Like("%" + rest, text) <==> exists k :: 0 <= k <= |text| && Like(rest, text[k..])
    decreases |text|
  {
    var p := "%" + rest;
    assert p[0] == '%' && p[1..] == rest;
    assert text[0..] == text;
    if text != [] {
      LeadingPercent(rest, text[1..]);
      if exists k :: 0 <= k <= |text[1..]| && Like(rest, text[1..][k..]) {
        var k :| 0 <= k <= |text[1..]| && Like(rest, text[1..][k..]);
        assert text[1..][k..] == text[k + 1..];
      }
      if exists k :: 0 <= k <= |text| && Like(rest, text[k..]) {
        var k :| 0 <= k <= |text| && Like(rest, text[k..]);
        if k > 0 {
          assert text[1..][k - 1..] == text[k..];
        }
      }
    }
  }

  /** For a term without `%` or `_`, `text LIKE '%term%'` holds exactly when
      the term occurs in the text, ignoring ASCII case. */
  lemma ContainsPatternIsSubstring(term: string, text: string)
    requires NoWildcards(term)
    ensures Like(ContainsPattern(term), text) <==> FoldedSubstring(term, text)
  {
    assert ContainsPattern(term) == "%" + (term + "%");
    LeadingPercent(term + "%", text);
    forall k | 0 <= k <= |text|
      ensures Like(term + "%", text[k..]) <==> FoldedPrefix(term, text[k..])
    {
      PrefixPattern(term, text[k..]);
    }
  }

  /** The empty term makes the pattern `%%`, which matches every text. */
  lemma EmptyTermMatchesAll(text: string)
    ensures Like(ContainsPattern(""), text)
  {
    assert ContainsPattern("") == "%" + "%";
    LeadingPercent("%", text);
    PercentMatchesAll(text);
    assert text[0..] == text;
  }

  /** Wildcards in the term are not taken literally: `_` stands for any
      character, so "a_c" finds "abc" although "a_c" does not occur in it. */
  lemma WildcardInTerm()
    ensures Like(ContainsPattern("a_c"), "abc")
    ensures !FoldedSubstring("a_c", "abc")
  {
    assert ContainsPattern("a_c") == "%a_c%";
    assert Like("%", []);
    assert Like("c%", "c");
    assert Like("_c%", "bc");
    assert Like("a_c%", "abc");
    forall k | 0 <= k <= 3 ensures !FoldedPrefix("a_c", "abc"[k..]) {
      if k == 0 {
        assert Fold("a_c"[1]) != Fold("abc"[1]);
      }
    }
  }
}
