/** `UIManager.escapeHtml` of script.js (lines 493-500). */
module Html {

  /** `s.replace(/c/g, rep)` for a one-character pattern: every `c` becomes `rep`. */
  function ReplaceAll(s: string, c: char, rep: string): string {
    if s == [] then [] else (if s[0] == c then rep else [s[0]]) + ReplaceAll(s[1..], c, rep)
  }

  /** `escapeHtml(unsafe)`: the chain of five global replacements, `&` first (script.js:494-499). */
  function EscapeHtml(unsafe: string): string {
    ReplaceAll(ReplaceAll(ReplaceAll(ReplaceAll(ReplaceAll(
      unsafe, '&', "&amp;"), '<', "&lt;"), '>', "&gt;"), '"', "&quot;"), '\'', "&#039;")
  }

  /** The entity standing for one character, or the character itself. */
  function EscapeChar(c: char): string {
    if c == '&' then "&amp;"
    else if c == '<' then "&lt;"
    else if c == '>' then "&gt;"
    else if c == '"' then "&quot;"
    else if c == '\'' then "&#039;"
    else [c]
  }

  /** Each character replaced by its entity, independently of its neighbours. */
  function EscapeEach(s: string): string {
    if s == [] then [] else EscapeChar(s[0]) + EscapeEach(s[1..])
  }

  /** `s` begins with one of the five entities `escapeHtml` writes. */
  predicate StartsEntity(s: string) {
    "&amp;" <= s || "&lt;" <= s || "&gt;" <= s || "&quot;" <= s || "&#039;" <= s
  }

  /** Reading the five entities back into characters; every other character stands for itself. */
  function Unescape(s: string): string
    decreases |s|
  {
    if s == [] then []
    else if "&amp;" <= s then "&" + Unescape(s[5..])
    else if "&lt;" <= s then "<" + Unescape(s[4..])
    else if "&gt;" <= s then ">" + Unescape(s[4..])
    else if "&quot;" <= s then "\"" + Unescape(s[6..])
    else if "&#039;" <= s then "'" + Unescape(s[6..])
    else [s[0]] + Unescape(s[1..])
  }

  lemma {:induction false} ReplaceAllConcat(a: string, b: string, c: char, rep: string)
    ensures ReplaceAll(a + b, c, rep) == ReplaceAll(a, c, rep) + ReplaceAll(b, c, rep)
  {
    if a == [] {
      assert a + b == b;
    } else {
      assert (a + b)[0] == a[0] && (a + b)[1..] == a[1..] + b;
      ReplaceAllConcat(a[1..], b, c, rep);
    }
  }

  lemma {:induction false} ReplaceAllAbsent(s: string, c: char, rep: string)
    requires c !in s
    ensures ReplaceAll(s, c, rep) == s
  {
    if s != [] {
      ReplaceAllAbsent(s[1..], c, rep);
    }
  }

  lemma EscapeHtmlConcat(a: string, b: string)
    ensures EscapeHtml(a + b) == EscapeHtml(a) + EscapeHtml(b)
  {
    var a1, b1 := ReplaceAll(a, '&', "&amp;"), ReplaceAll(b, '&', "&amp;");
    ReplaceAllConcat(a, b, '&', "&amp;");
    var a2, b2 := ReplaceAll(a1, '<', "&lt;"), ReplaceAll(b1, '<', "&lt;");
    ReplaceAllConcat(a1, b1, '<', "&lt;");
    var a3, b3 := ReplaceAll(a2, '>', "&gt;"), ReplaceAll(b2, '>', "&gt;");
    ReplaceAllConcat(a2, b2, '>', "&gt;");
    var a4, b4 := ReplaceAll(a3, '"', "&quot;"), ReplaceAll(b3, '"', "&quot;");
    ReplaceAllConcat(a3, b3, '"', "&quot;");
    ReplaceAllConcat(a4, b4, '\'', "&#039;");
  }

  lemma ReplaceAllSingle(x: char, c: char, rep: string)
    ensures ReplaceAll([x], c, rep) == if x == c then rep else [x]
  {
    assert [x][1..] == [];
  }

  /** The five replacements applied one after the other to a single character. */
  lemma EscapeHtmlChar(c: char)
    ensures EscapeHtml([c]) == EscapeChar(c)
  {
    ReplaceAllSingle(c, '&', "&amp;");
    if c == '&' {
      EscapeTail("&amp;", 1);
    } else {
      ReplaceAllSingle(c, '<', "&lt;");
      if c == '<' {
        EscapeTail("&lt;", 2);
      } else {
        ReplaceAllSingle(c, '>', "&gt;");
        if c == '>' {
          EscapeTail("&gt;", 3);
        } else {
          ReplaceAllSingle(c, '"', "&quot;");
          ReplaceAllSingle(c, '\'', "&#039;");
          if c == '"' {
            ReplaceAllAbsent("&quot;", '\'', "&#039;");
          }
        }
      }
    }
  }

  /** An entity written by replacement `n` (1 to 3) goes through the later replacements unchanged. */
  lemma EscapeTail(e: string, n: nat)
    requires '>' !in e && '"' !in e && '\'' !in e && (n == 1 ==> '<' !in e)
    ensures n == 1 ==> ReplaceAll(ReplaceAll(ReplaceAll(ReplaceAll(e, '<', "&lt;"), '>', "&gt;"), '"', "&quot;"), '\'', "&#039;") == e
    ensures n == 2 ==> ReplaceAll(ReplaceAll(ReplaceAll(e, '>', "&gt;"), '"', "&quot;"), '\'', "&#039;") == e
    ensures n == 3 ==> ReplaceAll(ReplaceAll(e, '"', "&quot;"), '\'', "&#039;") == e
  {
    if n == 1 {
      ReplaceAllAbsent(e, '<', "&lt;");
    }
    ReplaceAllAbsent(e, '>', "&gt;");
    ReplaceAllAbsent(e, '"', "&quot;");
    ReplaceAllAbsent(e, '\'', "&#039;");
  }

  /** The replacement chain is the per-character escape: no replacement rewrites the output of an earlier one. */
  lemma {:induction false} EscapeHtmlIsPerCharacter(s: string)
    ensures EscapeHtml(s) == EscapeEach(s)
  {
    if s != [] {
      assert s == [s[0]] + s[1..];
      EscapeHtmlConcat([s[0]], s[1..]);
      EscapeHtmlChar(s[0]);
      EscapeHtmlIsPerCharacter(s[1..]);
    }
  }

  lemma {:induction false} EscapeEachHasNoSpecials(s: string)
    ensures forall x :: x in EscapeEach(s) ==> x != '<' && x != '>' && x != '"' && x != '\''
  {
    if s != [] {
      EscapeEachHasNoSpecials(s[1..]);
    }
  }

  /** The output of `escapeHtml` holds no `<`, `>`, `"` or `'`. */
  lemma EscapeHtmlHasNoSpecials(s: string)
    ensures forall i :: 0 <= i < |EscapeHtml(s)| ==>
      EscapeHtml(s)[i] != '<' && EscapeHtml(s)[i] != '>' && EscapeHtml(s)[i] != '"' && EscapeHtml(s)[i] != '\''
  {
    EscapeHtmlIsPerCharacter(s);
    EscapeEachHasNoSpecials(s);
    assert forall i :: 0 <= i < |EscapeEach(s)| ==> EscapeEach(s)[i] in EscapeEach(s);
  }

  lemma {:induction false} EscapeEachAmpersands(s: string)
    ensures forall i :: 0 <= i < |EscapeEach(s)| && EscapeEach(s)[i] == '&' ==> StartsEntity(EscapeEach(s)[i..])
  {
    if s != [] {
      EscapeEachAmpersands(s[1..]);
      var e, rest := EscapeChar(s[0]), EscapeEach(s[1..]);
      var r := EscapeEach(s);
      assert r == e + rest;
      forall i | 0 <= i < |r| && r[i] == '&'
        ensures StartsEntity(r[i..])
      {
        if i < |e| {
          assert i == 0;
          assert e <= r;
        } else {
          assert r[i..] == rest[i - |e|..];
        }
      }
    }
  }

  /** Every `&` in the output of `escapeHtml` begins one of `&amp;`, `&lt;`, `&gt;`, `&quot;`, `&#039;`. */
  lemma EscapeHtmlAmpersandsStartEntities(s: string)
    ensures forall i :: 0 <= i < |EscapeHtml(s)| && EscapeHtml(s)[i] == '&' ==> StartsEntity(EscapeHtml(s)[i..])
  {
    EscapeHtmlIsPerCharacter(s);
    EscapeEachAmpersands(s);
  }

  /** Reading back an entity `e` standing for `c`, when no entity tested before `e` matches. */
  lemma UnescapeEntity(c: char, rest: string)
    requires c in "&<>\"'"
    ensures Unescape(EscapeChar(c) + rest) == [c] + Unescape(rest)
  {
    var s := EscapeChar(c) + rest;
    var e := EscapeChar(c);
    assert s[..|e|] == e && s[|e|..] == rest;
    if c != '&' {
      assert s[1] != 'a';
      if c != '<' {
        assert s[1] != 'l';
        if c != '>' {
          assert s[1] != 'g';
          if c != '"' {
            assert s[1] != 'q';
          }
        }
      }
    }
  }

  lemma UnescapeChar(c: char, rest: string)
    ensures Unescape(EscapeChar(c) + rest) == [c] + Unescape(rest)
  {
    if c in "&<>\"'" {
      UnescapeEntity(c, rest);
    } else {
      var s := EscapeChar(c) + rest;
      assert s[0] == c && s[1..] == rest;
    }
  }

  /** Decoding the entities gives back the input: `&` is replaced first, so no entity is escaped twice. */
  lemma {:induction false} UnescapeEscapeHtml(s: string)
    ensures Unescape(EscapeHtml(s)) == s
  {
    EscapeHtmlIsPerCharacter(s);
    UnescapeEscapeEach(s);
  }

  lemma {:induction false} UnescapeEscapeEach(s: string)
    ensures Unescape(EscapeEach(s)) == s
  {
    if s != [] {
      UnescapeChar(s[0], EscapeEach(s[1..]));
      UnescapeEscapeEach(s[1..]);
    }
  }
}
