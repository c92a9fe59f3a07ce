/** escapeHtml and unescapeHtml as chains of whole-string replacements, and exactly when they round-trip. */
module Escape {

  /** `s.replace(/pat/g, rep)`: leftmost, non-overlapping, never looking at what it wrote. */
  function Replace(s: string, pat: string, rep: string): string
    requires pat != ""
    decreases |s|
  {
    if s == "" then ""
    else if pat <= s then rep + Replace(s[|pat|..], pat, rep)
    else [s[0]] + Replace(s[1..], pat, rep)
  }

  const AMP := "&amp;"
  const LT := "&lt;"
  const GT := "&gt;"
  const QUOT := "&quot;"
  const APOS := "&#39;"

  function EscapeHtml(s: string): string {
    Replace(Replace(Replace(Replace(Replace(s, "&", AMP), "<", LT), ">", GT), "\"", QUOT), "'", APOS)
  }

  function UnescapeHtml(s: string): string {
    Replace(Replace(Replace(Replace(Replace(s, AMP, "&"), LT, "<"), GT, ">"), QUOT, "\""), APOS, "'")
  }

  // ---------------------------------------------------------------- replacement

  predicate Contains(s: string, pat: string) {
    exists i :: 0 <= i <= |s| && pat <= s[i..]
  }

  /** An entity: an ampersand and then none. */
  predicate Entity(e: string) {
    |e| > 1 && e[0] == '&' && '&' !in e[1..]
  }

  /** The five entities differ at their second character. */
  lemma Entities()
    ensures Entity(AMP) && Entity(LT) && Entity(GT) && Entity(QUOT) && Entity(APOS)
    ensures AMP[1] == 'a' && LT[1] == 'l' && GT[1] == 'g' && QUOT[1] == 'q' && APOS[1] == '#'
    ensures forall c :: c in "<>\"'" ==> c !in AMP && c !in LT && c !in GT && c !in QUOT && c !in APOS
  {
    assert AMP[1..] == "amp;" && LT[1..] == "lt;" && GT[1..] == "gt;" && QUOT[1..] == "quot;" && APOS[1..] == "#39;";
  }

  /** No match starts inside text without the pattern's first character. */
  lemma {:induction false} ReplaceSkips(w: string, x: string, pat: string, rep: string)
    requires pat != "" && pat[0] !in w
    ensures Replace(w + x, pat, rep) == w + Replace(x, pat, rep)
    decreases |w|
  {
    if w == "" {
      assert w + x == x;
    } else {
      assert (w + x)[0] == w[0] && (w + x)[1..] == w[1..] + x;
      ReplaceSkips(w[1..], x, pat, rep);
    }
  }

  lemma ReplaceHit(x: string, pat: string, rep: string)
    requires pat != ""
    ensures Replace(pat + x, pat, rep) == rep + Replace(x, pat, rep)
  {
    assert (pat + x)[|pat|..] == x;
  }

  lemma ReplaceFirst(t: string, c: char, ent: string)
    requires Entity(ent) && t != ""
    ensures Replace(t, [c], ent) != "" && Replace(t, [c], ent)[0] == if t[0] == c then '&' else t[0]
  {
    assert [c] <= t <==> t[0] == c;
  }

  /** Escaping one character cannot create a stretch that has neither it nor an ampersand. */
  lemma {:induction false} PrefixThrough(w: string, t: string, c: char, ent: string)
    requires Entity(ent) && c !in w && '&' !in w && w <= Replace(t, [c], ent)
    ensures w <= t
    decreases |t|
  {
    if w != "" {
      var e := Replace(t, [c], ent);
      ReplaceFirst(t, c, ent);
      assert w[0] == e[0] && w[0] in w;
      assert e[1..] == Replace(t[1..], [c], ent);
      assert forall x :: x in w[1..] ==> x in w;
      PrefixThrough(w[1..], t[1..], c, ent);
    }
  }

  /** A pattern starting at an unescaped character is there after escaping only if it was before. */
  lemma MatchThrough(t: string, c: char, ent: string, pat: string)
    requires Entity(ent) && Entity(pat) && c !in pat && t != "" && t[0] != c
    ensures pat <= Replace(t, [c], ent) ==> pat <= t
  {
    if pat <= Replace(t, [c], ent) {
      assert !([c] <= t);
      assert pat[1..] <= Replace(t[1..], [c], ent);
      PrefixThrough(pat[1..], t[1..], c, ent);
    }
  }

  /** A different entity in front is copied, not matched. */
  lemma SkipOther(ent: string, x: string, pat: string, rep: string)
    requires Entity(ent) && Entity(pat) && pat[1] != ent[1]
    ensures Replace(ent + x, pat, rep) == ent + Replace(x, pat, rep)
  {
    assert !(pat <= ent + x);
    assert (ent + x)[0] == '&' && (ent + x)[1..] == ent[1..] + x;
    ReplaceSkips(ent[1..], x, pat, rep);
    assert ['&'] + ent[1..] == ent;
  }

  /** Undoing another entity passes through the escaping of `c`. */
  lemma {:induction false} Commute(t: string, c: char, ent: string, pat: string, r: char)
    requires Entity(ent) && Entity(pat) && c !in pat && c != '&' && r != c
    requires pat[1] != ent[1]
    ensures Replace(Replace(t, [c], ent), pat, [r]) == Replace(Replace(t, pat, [r]), [c], ent)
    decreases |t|
  {
    if t == "" {
    } else if t[0] == c {
      Commute(t[1..], c, ent, pat, r);
      assert t == [c] + t[1..];
      ReplaceHit(t[1..], [c], ent);
      SkipOther(ent, Replace(t[1..], [c], ent), pat, [r]);
      ReplaceSkips([c], t[1..], pat, [r]);
      ReplaceHit(Replace(t[1..], pat, [r]), [c], ent);
    } else if pat <= t {
      var x := t[|pat|..];
      assert t == pat + x;
      Commute(x, c, ent, pat, r);
      ReplaceSkips(pat, x, [c], ent);
      ReplaceHit(Replace(x, [c], ent), pat, [r]);
      ReplaceSkips([r], Replace(x, pat, [r]), [c], ent);
    } else {
      Commute(t[1..], c, ent, pat, r);
      MatchThrough(t, c, ent, pat);
      ReplaceFirst(t, c, ent);
      assert !([c] <= t);
      ReplaceSkips([t[0]], Replace(t[1..], pat, [r]), [c], ent);
    }
  }

  /** Undoing the escaping of `c` itself is as if it had never been escaped. */
  lemma {:induction false} Absorb(s: string, c: char, ent: string)
    requires Entity(ent) && c !in ent
    ensures Replace(Replace(s, [c], ent), ent, [c]) == Replace(s, ent, [c])
    decreases |s|
  {
    if s == "" {
    } else if s[0] == c {
      Absorb(s[1..], c, ent);
      assert [c] <= s && s[|[c]|..] == s[1..];
      ReplaceHit(Replace(s[1..], [c], ent), ent, [c]);
    } else if ent <= s {
      var x := s[|ent|..];
      assert s == ent + x;
      Absorb(x, c, ent);
      ReplaceSkips(ent, x, [c], ent);
      ReplaceHit(Replace(x, [c], ent), ent, [c]);
    } else {
      Absorb(s[1..], c, ent);
      MatchThrough(s, c, ent, ent);
      assert !([c] <= s);
    }
  }

  /** The ampersand comes back exactly: every one in the escaped text starts an `&amp;`. */
  lemma {:induction false} AmpersandRoundTrip(s: string)
    ensures Replace(Replace(s, "&", AMP), AMP, "&") == s
    decreases |s|
  {
    if s == "" {
    } else if s[0] == '&' {
      AmpersandRoundTrip(s[1..]);
      assert "&" <= s && s[|"&"|..] == s[1..];
      ReplaceHit(Replace(s[1..], "&", AMP), AMP, "&");
    } else {
      AmpersandRoundTrip(s[1..]);
      assert !("&" <= s);
    }
  }

  // ---------------------------------------------------------------- the round trip

  /** What the last four replacements of unescapeHtml make of a text. */
  function UnescapeFour(s: string): string {
    Replace(Replace(Replace(Replace(s, LT, "<"), GT, ">"), QUOT, "\""), APOS, "'")
  }

  lemma FourBack(s: string)
    ensures UnescapeFour(Replace(Replace(Replace(Replace(s, "<", LT), ">", GT), "\"", QUOT), "'", APOS)) == UnescapeFour(s)
  {
    var a := Replace(s, "<", LT);
    var b := Replace(a, ">", GT);
    var c := Replace(b, "\"", QUOT);
    Entities();
    Commute(c, '\'', APOS, LT, '<');
    Commute(b, '\"', QUOT, LT, '<');
    Commute(a, '>', GT, LT, '<');
    Absorb(s, '<', LT);
    var t := Replace(s, LT, "<");
    var u := Replace(t, ">", GT);
    Commute(Replace(u, "\"", QUOT), '\'', APOS, GT, '>');
    Commute(u, '\"', QUOT, GT, '>');
    Absorb(t, '>', GT);
    var v := Replace(t, GT, ">");
    Commute(Replace(v, "\"", QUOT), '\'', APOS, QUOT, '\"');
    Absorb(v, '\"', QUOT);
    Absorb(Replace(v, QUOT, "\""), '\'', APOS);
  }

  /** Unescaping an escaped text is unescaping the text itself, ampersands apart. */
  lemma RoundTripIsFour(s: string)
    ensures UnescapeHtml(EscapeHtml(s)) == UnescapeFour(s)
  {
    var a := Replace(s, "&", AMP);
    var b := Replace(a, "<", LT);
    var c := Replace(b, ">", GT);
    var d := Replace(c, "\"", QUOT);
    Entities();
    Commute(d, '\'', APOS, AMP, '&');
    Commute(c, '\"', QUOT, AMP, '&');
    Commute(b, '>', GT, AMP, '&');
    Commute(a, '<', LT, AMP, '&');
    AmpersandRoundTrip(s);
    FourBack(s);
  }

  /** A replacement that shortens leaves a text alone exactly when the pattern is not in it. */
  lemma {:induction false} ReplaceShrinks(s: string, pat: string, rep: string)
    requires |rep| < |pat|
    ensures |Replace(s, pat, rep)| <= |s|
    ensures Contains(s, pat) ==> |Replace(s, pat, rep)| < |s|
    ensures !Contains(s, pat) ==> Replace(s, pat, rep) == s
    decreases |s|
  {
    if s == "" {
    } else if pat <= s {
      ReplaceShrinks(s[|pat|..], pat, rep);
      assert pat <= s[0..];
    } else {
      ReplaceShrinks(s[1..], pat, rep);
      if i :| 0 <= i <= |s| && pat <= s[i..] {
        assert s[i..] == s[1..][i - 1..];
      }
      if i :| 0 <= i <= |s[1..]| && pat <= s[1..][i..] {
        assert s[1..][i..] == s[i + 1..];
      }
    }
  }

  /** The round trip gives the text back exactly when it holds none of the four literal entities. */
  lemma RoundTrip(s: string)
    ensures UnescapeHtml(EscapeHtml(s)) == s
      <==> !Contains(s, LT) && !Contains(s, GT) && !Contains(s, QUOT) && !Contains(s, APOS)
  {
    RoundTripIsFour(s);
    var t := Replace(s, LT, "<");
    var u := Replace(t, GT, ">");
    var v := Replace(u, QUOT, "\"");
    ReplaceShrinks(s, LT, "<");
    ReplaceShrinks(t, GT, ">");
    ReplaceShrinks(u, QUOT, "\"");
    ReplaceShrinks(v, APOS, "'");
  }

  // ---------------------------------------------------------------- the escaped text

  /** Escaping, character by character. */
  function EscapeChar(c: char): string {
    match c
    case '&' => AMP
    case '<' => LT
    case '>' => GT
    case '\"' => QUOT
    case '\'' => APOS
    case _ => [c]
  }

  function EscapeEach(s: string): string {
    if s == "" then "" else EscapeChar(s[0]) + EscapeEach(s[1..])
  }

  lemma {:induction false} ReplaceDistributes(a: string, b: string, c: char, ent: string)
    ensures Replace(a + b, [c], ent) == Replace(a, [c], ent) + Replace(b, [c], ent)
    decreases |a|
  {
    if a == "" {
      assert a + b == b;
    } else {
      assert (a + b)[1..] == a[1..] + b && (a + b)[0] == a[0];
      assert [c] <= a + b <==> a[0] == c;
      assert [c] <= a <==> a[0] == c;
      ReplaceDistributes(a[1..], b, c, ent);
    }
  }

  lemma Single(x: char, c: char, ent: string)
    ensures Replace([x], [c], ent) == if x == c then ent else [x]
  {
    if [c] <= [x] {
      assert [c][0] == [x][0];
    }
    assert [x][|[c]|..] == "" && [x][1..] == "";
    assert Replace("", [c], ent) == "";
    assert ent + "" == ent && [x] + "" == [x];
  }

  /** One character through the chain. */
  lemma EscapeOne(c: char)
    ensures EscapeHtml([c]) == EscapeChar(c)
  {
    Entities();
    Single(c, '&', AMP);
    Single(c, '<', LT);
    Single(c, '>', GT);
    Single(c, '\"', QUOT);
    Single(c, '\'', APOS);
    assert AMP + "" == AMP && LT + "" == LT && GT + "" == GT && QUOT + "" == QUOT;
    if c == '&' {
      ReplaceSkips(AMP, "", "<", LT);
      ReplaceSkips(AMP, "", ">", GT);
      ReplaceSkips(AMP, "", "\"", QUOT);
      ReplaceSkips(AMP, "", "'", APOS);
    } else if c == '<' {
      ReplaceSkips(LT, "", ">", GT);
      ReplaceSkips(LT, "", "\"", QUOT);
      ReplaceSkips(LT, "", "'", APOS);
    } else if c == '>' {
      ReplaceSkips(GT, "", "\"", QUOT);
      ReplaceSkips(GT, "", "'", APOS);
    } else if c == '\"' {
      ReplaceSkips(QUOT, "", "'", APOS);
    }
  }

  lemma EscapeDistributes(x: string, t: string)
    ensures EscapeHtml(x + t) == EscapeHtml(x) + EscapeHtml(t)
  {
    var a, a' := Replace(x, "&", AMP), Replace(t, "&", AMP);
    var b, b' := Replace(a, "<", LT), Replace(a', "<", LT);
    var c, c' := Replace(b, ">", GT), Replace(b', ">", GT);
    var d, d' := Replace(c, "\"", QUOT), Replace(c', "\"", QUOT);
    ReplaceDistributes(x, t, '&', AMP);
    ReplaceDistributes(a, a', '<', LT);
    ReplaceDistributes(b, b', '>', GT);
    ReplaceDistributes(c, c', '\"', QUOT);
    ReplaceDistributes(d, d', '\'', APOS);
  }

  /** The five passes never touch each other's output: they equal one pass over the characters. */
  lemma {:induction false} EscapeIsCharwise(s: string)
    ensures EscapeHtml(s) == EscapeEach(s)
    decreases |s|
  {
    if s != "" {
      assert s == [s[0]] + s[1..];
      EscapeDistributes([s[0]], s[1..]);
      EscapeOne(s[0]);
      EscapeIsCharwise(s[1..]);
    }
  }

  predicate StartsEntity(s: string) {
    AMP <= s || LT <= s || GT <= s || QUOT <= s || APOS <= s
  }

  /** No raw markup character is left, and every ampersand starts one of the five entities. */
  ghost predicate Harmless(s: string) {
    && (forall i :: 0 <= i < |s| ==> s[i] !in "<>\"'")
    && (forall i :: 0 <= i < |s| && s[i] == '&' ==> StartsEntity(s[i..]))
  }

  lemma ConsHarmless(c: char, t: string)
    requires Harmless(t)
    ensures Harmless(EscapeChar(c) + t)
  {
    Entities();
    var e := EscapeChar(c);
    assert e == [c] || Entity(e);
    forall k | 0 < k < |e|
      ensures e[k] != '&'
    {
      assert e[k] == e[1..][k - 1];
    }
    forall i | 0 <= i < |e + t| && (e + t)[i] == '&'
      ensures StartsEntity((e + t)[i..])
    {
      if i >= |e| {
        assert (e + t)[i..] == t[i - |e|..];
      } else {
        assert (e + t)[0..] == e + t;
      }
    }
  }

  lemma {:induction false} EscapedIsHarmless(s: string)
    ensures Harmless(EscapeHtml(s))
    decreases |s|
  {
    EscapeIsCharwise(s);
    if s != "" {
      EscapedIsHarmless(s[1..]);
      EscapeIsCharwise(s[1..]);
      ConsHarmless(s[0], EscapeEach(s[1..]));
    }
  }
}
