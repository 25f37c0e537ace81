/** Free-form input to prefix-matching tsquery text
    (`prefixTsquery` in backend/services/search-service/repository.go). */
module Tsquery {

  /** Unicode's space and word classes: a word character is a letter, a digit or `_`. */
  datatype Classes = Classes(space: char -> bool, word: char -> bool)

  ghost predicate Ok(k: Classes) {
    && k.space(' ') && !k.space('&') && !k.space(':') && !k.space('*')
    && !k.word('&') && !k.word(':') && !k.word('*')
    && forall c :: k.word(c) ==> !k.space(c)
  }

  /** `strings.Fields`: the maximal runs of characters that are not spaces. */
  function Fields(k: Classes, s: string): (fs: seq<string>)
    ensures s != [] && !k.space(s[|s|-1]) ==> fs != []
  {
    if s == [] then []
    else
      var init, c := s[..|s|-1], s[|s|-1];
      if k.space(c) then Fields(k, init) else Extended(Fields(k, init), Apart(k, init), c)
  }

  /** Whether a character after `s` would begin a field. */
  predicate Apart(k: Classes, s: string) { s == [] || k.space(s[|s|-1]) }

  function Extended(fs: seq<string>, apart: bool, c: char): (r: seq<string>)
    requires apart || fs != []
    ensures r != []
  {
    if apart then fs + [[c]] else fs[..|fs|-1] + [fs[|fs|-1] + [c]]
  }

  function Sanitized(k: Classes, field: string): string {
    if field == [] then []
    else
      var rest := Sanitized(k, field[..|field|-1]);
      if k.word(field[|field|-1]) then rest + [field[|field|-1]] else rest
  }

  function TokensOf(k: Classes, fields: seq<string>): seq<string> {
    if fields == [] then []
    else
      var rest, t := TokensOf(k, fields[..|fields|-1]), Sanitized(k, fields[|fields|-1]);
      if t == [] then rest else rest + [t]
  }

  function Tokens(k: Classes, q: string): seq<string> { TokensOf(k, Fields(k, q)) }

  function Rendered(tokens: seq<string>): string {
    if tokens == [] then ""
    else
      var rest, t := Rendered(tokens[..|tokens|-1]), tokens[|tokens|-1];
      (if |tokens| == 1 then "" else rest + " & ") + t + ":*"
  }

  method PrefixTsquery(k: Classes, q: string) returns (b: string)
    ensures b == Rendered(Tokens(k, q))
  {
    b := "";
    var first := true;
    var fields := Fields(k, q);
    for i := 0 to |fields|
      invariant b == Rendered(TokensOf(k, fields[..i]))
      invariant first <==> TokensOf(k, fields[..i]) == []
    {
      var field := fields[i];
      assert fields[..i+1][..i] == fields[..i];
      var tok := "";
      for j := 0 to |field|
        invariant tok == Sanitized(k, field[..j])
      {
        assert field[..j+1][..j] == field[..j];
        if k.word(field[j]) { tok := tok + [field[j]]; }
      }
      assert field[..|field|] == field;
      if |tok| == 0 { continue; }
      RenderedSnoc(TokensOf(k, fields[..i]), tok);
      if !first { b := b + " & "; }
      first := false;
      b := b + tok;
      b := b + ":*";
    }
    assert fields[..|fields|] == fields;
  }

  lemma RenderedSnoc(tokens: seq<string>, t: string)
    ensures Rendered(tokens + [t]) == (if tokens == [] then "" else Rendered(tokens) + " & ") + t + ":*"
  {
    assert (tokens + [t])[..|tokens + [t]|-1] == tokens;
  }

  // ---------- The tokens are words, and all of the input's ----------

  ghost predicate Word(k: Classes, t: string) { t != [] && forall c :: c in t ==> k.word(c) }

  ghost predicate Words(k: Classes, ts: seq<string>) { forall t :: t in ts ==> Word(k, t) }

  lemma {:induction false} SanitizedIsWord(k: Classes, field: string)
    ensures forall c :: c in Sanitized(k, field) ==> k.word(c)
  {
    if field != [] { SanitizedIsWord(k, field[..|field|-1]); }
  }

  lemma {:induction false} TokensAreWords(k: Classes, fields: seq<string>)
    ensures Words(k, TokensOf(k, fields))
  {
    if fields != [] {
      TokensAreWords(k, fields[..|fields|-1]);
      SanitizedIsWord(k, fields[|fields|-1]);
    }
  }

  function Joined(ss: seq<string>): string {
    if ss == [] then "" else Joined(ss[..|ss|-1]) + ss[|ss|-1]
  }

  lemma JoinedSnoc(ss: seq<string>, s: string)
    ensures Joined(ss + [s]) == Joined(ss) + s
  {
    assert (ss + [s])[..|ss + [s]|-1] == ss;
  }

  lemma {:induction false} SanitizedAppend(k: Classes, a: string, b: string)
    ensures Sanitized(k, a + b) == Sanitized(k, a) + Sanitized(k, b)
  {
    if b == [] {
      assert a + b == a;
    } else {
      SanitizedAppend(k, a, b[..|b|-1]);
      assert (a + b)[..|a + b|-1] == a + b[..|b|-1];
    }
  }

  lemma {:induction false} JoinedTokens(k: Classes, fields: seq<string>)
    ensures Joined(TokensOf(k, fields)) == Sanitized(k, Joined(fields))
  {
    if fields != [] {
      var init, last := fields[..|fields|-1], fields[|fields|-1];
      JoinedTokens(k, init);
      SanitizedAppend(k, Joined(init), last);
      if Sanitized(k, last) != [] { JoinedSnoc(TokensOf(k, init), Sanitized(k, last)); }
    }
  }

  lemma JoinedExtended(fs: seq<string>, apart: bool, c: char)
    requires apart || fs != []
    ensures Joined(Extended(fs, apart, c)) == Joined(fs) + [c]
  {
    if apart { JoinedSnoc(fs, [c]); } else { JoinedSnoc(fs[..|fs|-1], fs[|fs|-1] + [c]); }
  }

  lemma {:induction false} FieldsLoseNoWord(k: Classes, s: string)
    requires Ok(k)
    ensures Sanitized(k, Joined(Fields(k, s))) == Sanitized(k, s)
  {
    if s != [] {
      var init, c := s[..|s|-1], s[|s|-1];
      var fs := Fields(k, init);
      FieldsLoseNoWord(k, init);
      if !k.space(c) {
        JoinedExtended(fs, Apart(k, init), c);
        SanitizedAppend(k, Joined(fs), [c]);
        SanitizedAppend(k, init, [c]);
        assert s == init + [c];
      }
    }
  }

  /** The tokens hold every word character of the input, in order, and nothing else; there is
      none exactly if the input has no word character, and then the output is empty. */
  lemma TokensKeepEveryWordCharacter(k: Classes, q: string)
    requires Ok(k)
    ensures Words(k, Tokens(k, q))
    ensures Joined(Tokens(k, q)) == Sanitized(k, q)
    ensures Rendered(Tokens(k, q)) == "" <==> Sanitized(k, q) == ""
  {
    TokensAreWords(k, Fields(k, q));
    JoinedTokens(k, Fields(k, q));
    FieldsLoseNoWord(k, q);
    EmptyIffNoToken(k, Tokens(k, q));
  }

  lemma EmptyIffNoToken(k: Classes, ts: seq<string>)
    requires Words(k, ts)
    ensures Rendered(ts) == "" <==> ts == []
    ensures Joined(ts) == "" <==> ts == []
  {
    if ts != [] {
      var last := ts[|ts|-1];
      assert last in ts && |last| > 0;
      assert |Joined(ts)| >= |last|;
      assert |Rendered(ts)| >= |last|;
    }
  }

  // ---------- The output is a normal form ----------

  lemma FieldsSnoc(k: Classes, s: string, c: char)
    ensures Fields(k, s + [c]) == if k.space(c) then Fields(k, s) else Extended(Fields(k, s), Apart(k, s), c)
  {
    assert (s + [c])[..|s + [c]|-1] == s;
  }

  lemma ExtendedAppend(a: seq<string>, b: seq<string>, apart: bool, c: char)
    requires apart || b != []
    ensures Extended(a + b, apart, c) == a + Extended(b, apart, c)
  {
    if !apart { assert (a + b)[..|a + b|-1] == a + b[..|b|-1]; }
  }

  lemma {:induction false} FieldsAcrossSpace(k: Classes, a: string, c: char, b: string)
    requires k.space(c)
    ensures Fields(k, a + [c] + b) == Fields(k, a) + Fields(k, b)
  {
    if b == [] {
      assert a + [c] + b == a + [c];
      FieldsSnoc(k, a, c);
    } else {
      var init, d := b[..|b|-1], b[|b|-1];
      var front := a + [c] + init;
      FieldsAcrossSpace(k, a, c, init);
      FieldsSnoc(k, front, d);
      FieldsSnoc(k, init, d);
      assert b == init + [d] && a + [c] + b == front + [d];
      assert Apart(k, front) == Apart(k, init);
      if !k.space(d) { ExtendedAppend(Fields(k, a), Fields(k, init), Apart(k, init), d); }
    }
  }

  lemma {:induction false} FieldsOfOne(k: Classes, s: string)
    requires s != [] && forall c :: c in s ==> !k.space(c)
    ensures Fields(k, s) == [s]
  {
    var init, c := s[..|s|-1], s[|s|-1];
    assert s == init + [c] && c in s;
    FieldsSnoc(k, init, c);
    if init != [] {
      assert init[|init|-1] in s;
      FieldsOfOne(k, init);
    }
  }

  lemma {:induction false} SanitizedWord(k: Classes, t: string)
    requires forall c :: c in t ==> k.word(c)
    ensures Sanitized(k, t) == t
  {
    if t != [] {
      SanitizedWord(k, t[..|t|-1]);
      assert t == t[..|t|-1] + [t[|t|-1]];
    }
  }

  lemma SanitizedMark(k: Classes, t: string)
    requires Ok(k) && Word(k, t)
    ensures Sanitized(k, t + ":*") == t && Fields(k, t + ":*") == [t + ":*"]
    ensures Sanitized(k, "&") == "" && Fields(k, "&") == ["&"]
  {
    SanitizedWord(k, t);
    SanitizedAppend(k, t, ":*");
    SanitizedAppend(k, ":", "*");
    assert ":" + "*" == ":*";
    FieldsOfOne(k, t + ":*");
    FieldsOfOne(k, "&");
  }

  lemma TokensOfSnoc(k: Classes, fields: seq<string>, f: string)
    ensures TokensOf(k, fields + [f]) ==
            if Sanitized(k, f) == [] then TokensOf(k, fields) else TokensOf(k, fields) + [Sanitized(k, f)]
  {
    assert (fields + [f])[..|fields + [f]|-1] == fields;
  }

  lemma TokensAfterMark(k: Classes, rest: string, t: string)
    requires Ok(k) && Word(k, t)
    ensures Tokens(k, t + ":*") == [t]
    ensures Tokens(k, rest + " & " + t + ":*") == Tokens(k, rest) + [t]
  {
    var marked := t + ":*";
    SanitizedMark(k, t);
    TokensOfSnoc(k, [], marked);
    FieldsAcrossSpace(k, "&", ' ', marked);
    FieldsAcrossSpace(k, rest, ' ', "&" + [' '] + marked);
    assert rest + " & " + t + ":*" == rest + [' '] + ("&" + [' '] + marked);
    assert Fields(k, rest) + (["&"] + [marked]) == Fields(k, rest) + ["&"] + [marked];
    TokensOfSnoc(k, Fields(k, rest), "&");
    TokensOfSnoc(k, Fields(k, rest) + ["&"], marked);
  }

  /** Reading the rendered text back gives the tokens. */
  lemma {:induction false} TokensOfRendered(k: Classes, ts: seq<string>)
    requires Ok(k) && Words(k, ts)
    ensures Tokens(k, Rendered(ts)) == ts
  {
    if ts != [] {
      var init, t := ts[..|ts|-1], ts[|ts|-1];
      assert ts == init + [t];
      TokensOfRendered(k, init);
      TokensAfterMark(k, Rendered(init), t);
      RenderedSnoc(init, t);
      assert "" + t + ":*" == t + ":*";
    }
  }

  /** Rewriting the output again changes nothing. */
  lemma RewriteIsIdempotent(k: Classes, q: string)
    requires Ok(k)
    ensures Rendered(Tokens(k, Rendered(Tokens(k, q)))) == Rendered(Tokens(k, q))
  {
    TokensAreWords(k, Fields(k, q));
    TokensOfRendered(k, Tokens(k, q));
  }

  /** Two inputs give the same text exactly if they give the same tokens. */
  lemma OutputDeterminesTokens(k: Classes, q: string, r: string)
    requires Ok(k)
    ensures Rendered(Tokens(k, q)) == Rendered(Tokens(k, r)) <==> Tokens(k, q) == Tokens(k, r)
  {
    TokensAreWords(k, Fields(k, q));
    TokensAreWords(k, Fields(k, r));
    TokensOfRendered(k, Tokens(k, q));
    TokensOfRendered(k, Tokens(k, r));
  }
}
