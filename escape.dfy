/**
  `escapeHtml` of the browser script: one left-to-right pass that replaces each
  of the five characters special to HTML by its entity and copies every other
  character.
 */
module Html {
  import opened PyStr

  /** The characters in the script's replacement map. */
  predicate IsSpecial(c: char) {
    c == '&' || c == '<' || c == '>' || c == '"' || c == '\''
  }

  /** What the pass writes for one character: its entity, or the character itself. */
  function Entity(c: char): (e: String)
    ensures IsSpecial(c) ==> |e| > 1 && e[0] == '&'
    ensures !IsSpecial(c) ==> e == [c]
  {
    if c == '&' then "&amp;"
    else if c == '<' then "&lt;"
    else if c == '>' then "&gt;"
    else if c == '"' then "&quot;"
    else if c == '\'' then "&#039;"
    else [c]
  }

  /** The characters that may not appear in escaped text. */
  predicate IsMarkup(c: char) {
    c == '<' || c == '>' || c == '"' || c == '\''
  }

  /** `escapeHtml(text)`: the output is at least as long as the input and holds
      none of `<`, `>`, `"` and `'`. */
  function EscapeHtml(text: String): (r: String)
    ensures |r| >= |text|
    ensures forall i :: 0 <= i < |r| ==> !IsMarkup(r[i])
  {
    if text == [] then [] else Entity(text[0]) + EscapeHtml(text[1..])
  }

  /** The pass is local: escaping a concatenation escapes each part. */
  lemma {:induction false} EscapeHtmlAppend(a: String, b: String)
    ensures EscapeHtml(a + b) == EscapeHtml(a) + EscapeHtml(b)
  {
    if a == [] {
      assert a + b == b;
    } else {
      var t := a + b;
      assert t[0] == a[0] && t[1..] == a[1..] + b;
      calc {
        EscapeHtml(t);
        Entity(a[0]) + EscapeHtml(a[1..] + b);
        { EscapeHtmlAppend(a[1..], b); }
        Entity(a[0]) + (EscapeHtml(a[1..]) + EscapeHtml(b));
        (Entity(a[0]) + EscapeHtml(a[1..])) + EscapeHtml(b);
        EscapeHtml(a) + EscapeHtml(b);
      }
    }
  }

  /** The output has the length of the input exactly when the input holds none of
      the five special characters, and then the output is the input itself. */
  lemma {:induction false} EscapeHtmlLength(text: String)
    ensures |EscapeHtml(text)| == |text| <==> forall i :: 0 <= i < |text| ==> !IsSpecial(text[i])
    ensures (forall i :: 0 <= i < |text| ==> !IsSpecial(text[i])) ==> EscapeHtml(text) == text
  {
    if text != [] {
      EscapeHtmlLength(text[1..]);
      assert forall i :: 1 <= i < |text| ==> text[1..][i - 1] == text[i];
      assert text == [text[0]] + text[1..];
    }
  }

  /** `s` begins with `p`. */
  predicate StartsWith(s: String, p: String) {
    |p| <= |s| && s[..|p|] == p
  }

  /** Decoding of the five entities, reading left to right; any other character
      is kept. The reference against which the pass is checked. */
  function UnescapeHtml(s: String): String
    decreases |s|
  {
    if s == [] then []
    else if StartsWith(s, "&amp;") then ['&'] + UnescapeHtml(s[5..])
    else if StartsWith(s, "&lt;") then ['<'] + UnescapeHtml(s[4..])
    else if StartsWith(s, "&gt;") then ['>'] + UnescapeHtml(s[4..])
    else if StartsWith(s, "&quot;") then ['"'] + UnescapeHtml(s[6..])
    else if StartsWith(s, "&#039;") then ['\''] + UnescapeHtml(s[6..])
    else [s[0]] + UnescapeHtml(s[1..])
  }

  /** Decoding each entity, one lemma per entity. */
  lemma UnescapeAmp(rest: String)
    ensures UnescapeHtml("&amp;" + rest) == ['&'] + UnescapeHtml(rest)
  {
    var t := "&amp;" + rest;
    assert t[..5] == "&amp;" && t[5..] == rest;
  }

  lemma UnescapeLt(rest: String)
    ensures UnescapeHtml("&lt;" + rest) == ['<'] + UnescapeHtml(rest)
  {
    var t := "&lt;" + rest;
    Mismatch(t, "&amp;", 1);
    assert t[..4] == "&lt;" && t[4..] == rest;
  }

  lemma UnescapeGt(rest: String)
    ensures UnescapeHtml("&gt;" + rest) == ['>'] + UnescapeHtml(rest)
  {
    var t := "&gt;" + rest;
    Mismatch(t, "&amp;", 1);
    Mismatch(t, "&lt;", 1);
    assert t[..4] == "&gt;" && t[4..] == rest;
  }

  lemma UnescapeQuot(rest: String)
    ensures UnescapeHtml("&quot;" + rest) == ['"'] + UnescapeHtml(rest)
  {
    var t := "&quot;" + rest;
    Mismatch(t, "&amp;", 1);
    Mismatch(t, "&lt;", 1);
    Mismatch(t, "&gt;", 1);
    assert t[..6] == "&quot;" && t[6..] == rest;
  }

  lemma UnescapeApos(rest: String)
    ensures UnescapeHtml("&#039;" + rest) == ['\''] + UnescapeHtml(rest)
  {
    var t := "&#039;" + rest;
    Mismatch(t, "&amp;", 1);
    Mismatch(t, "&lt;", 1);
    Mismatch(t, "&gt;", 1);
    Mismatch(t, "&quot;", 1);
    assert t[..6] == "&#039;" && t[6..] == rest;
  }

  /** `s` does not begin with `p` when they differ at position `k`. */
  lemma Mismatch(s: String, p: String, k: nat)
    requires k < |s| && k < |p| && s[k] != p[k]
    ensures !StartsWith(s, p)
  {
    assert |p| <= |s| ==> s[..|p|][k] == s[k];
  }

  /** A character other than `&` is kept as it is. */
  lemma UnescapePlain(c: char, rest: String)
    requires c != '&'
    ensures UnescapeHtml([c] + rest) == [c] + UnescapeHtml(rest)
  {
    var t := [c] + rest;
    assert t[0] == c && t[1..] == rest;
    Mismatch(t, "&amp;", 0);
    Mismatch(t, "&lt;", 0);
    Mismatch(t, "&gt;", 0);
    Mismatch(t, "&quot;", 0);
    Mismatch(t, "&#039;", 0);
  }

  lemma UnescapeEntity(c: char, rest: String)
    ensures UnescapeHtml(Entity(c) + rest) == [c] + UnescapeHtml(rest)
  {
    if c == '&' {
      UnescapeAmp(rest);
    } else if c == '<' {
      UnescapeLt(rest);
    } else if c == '>' {
      UnescapeGt(rest);
    } else if c == '"' {
      UnescapeQuot(rest);
    } else if c == '\'' {
      UnescapeApos(rest);
    } else {
      UnescapePlain(c, rest);
    }
  }

  /** Decoding undoes the pass: no produced entity is escaped a second time, so
      every `&` of the input comes back as a single `&`. */
  lemma {:induction false} UnescapeEscapeHtml(text: String)
    ensures UnescapeHtml(EscapeHtml(text)) == text
  {
    if text != [] {
      UnescapeEscapeHtml(text[1..]);
      UnescapeEntity(text[0], EscapeHtml(text[1..]));
      assert text == [text[0]] + text[1..];
    }
  }

  /** Each `&` becomes exactly `&amp;`, and escaping twice escapes the `&` of the
      first pass's entities. */
  lemma AmpersandOnce()
    ensures EscapeHtml("&") == "&amp;"
    ensures EscapeHtml("&lt;") == "&amp;lt;"
    ensures EscapeHtml(EscapeHtml("<")) == "&amp;lt;"
  {
    EscapeHtmlAppend("&", "lt;");
    assert "&lt;" == "&" + "lt;";
    assert EscapeHtml("lt;") == "lt;" by {
      EscapeHtmlLength("lt;");
    }
  }
}
