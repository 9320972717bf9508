/**
 * The ampersand escape applied to Yoast's head markup before it is parsed
 * (class-frontend.php:228): `preg_replace('/&(?!#?[a-z0-9]+;)/', '&amp;', $html)`.
 *
 * Every match of the pattern is a single `&`, and the negative lookahead
 * reads the original subject, so the replacement works character by
 * character: an `&` is kept when a character reference follows it and is
 * replaced by `&amp;` otherwise; every other character is copied.
 */
module Ampersand {

  /** The class `[a-z0-9]`: lower-case ASCII letters and digits only. */
  predicate IsReferenceChar(c: char) {
    'a' <= c <= 'z' || '0' <= c <= '9'
  }

  /** `t` starts with `[a-z0-9]+;`. */
  predicate RunThenSemicolon(t: string)
    decreases |t|
  {
    |t| >= 2 && IsReferenceChar(t[0]) && (t[1] == ';' || RunThenSemicolon(t[1..]))
  }

  /** `t` starts with `#?[a-z0-9]+;`, the lookahead of the pattern. */
  predicate ReferenceFollows(t: string) {
    RunThenSemicolon(t) || (|t| > 0 && t[0] == '#' && RunThenSemicolon(t[1..]))
  }

  /** The `&` at `s[i]` is one the pattern matches. */
  predicate BareAmpersandAt(s: string, i: nat)
    requires i < |s|
  {
    s[i] == '&' && !ReferenceFollows(s[i + 1..])
  }

  function Escape(s: string): (r: string)
    ensures |r| >= |s|
    ensures (forall i :: 0 <= i < |s| ==> s[i] != '&') ==> r == s
  {
    if s == [] then []
    else (if BareAmpersandAt(s, 0) then "&amp;" else [s[0]]) + Escape(s[1..])
  }

  /** Every `&` in `t` begins a character reference that the lookahead accepts. */
  predicate Escaped(t: string) {
    forall i :: 0 <= i < |t| && t[i] == '&' ==> ReferenceFollows(t[i + 1..])
  }

  lemma EscapedCons(c: char, t: string)
    ensures Escaped([c] + t) <==> (c == '&' ==> ReferenceFollows(t)) && Escaped(t)
  {
    var u := [c] + t;
    assert u[1..] == t;
    forall i | 0 <= i < |t| ensures u[i + 1] == t[i] && u[i + 2..] == t[i + 1..] { }
    if (c == '&' ==> ReferenceFollows(t)) && Escaped(t) {
      forall i | 0 <= i < |u| && u[i] == '&' ensures ReferenceFollows(u[i + 1..]) {
        if i > 0 { assert u[i] == t[i - 1]; }
      }
    }
    if Escaped(u) {
      assert u[0] == c;
      assert c == '&' ==> ReferenceFollows(u[0 + 1..]);
      forall i | 0 <= i < |t| && t[i] == '&' ensures ReferenceFollows(t[i + 1..]) {
        assert u[i + 1] == '&';
      }
    }
  }

  /** Characters other than `&` are copied, so a reference body survives the escape. */
  lemma {:induction false} RunSurvivesEscape(t: string)
    requires RunThenSemicolon(t)
    ensures RunThenSemicolon(Escape(t))
    decreases |t|
  {
    var e := Escape(t);
    assert e == [t[0]] + Escape(t[1..]);
    if t[1] == ';' {
      assert Escape(t[1..]) == [';'] + Escape(t[2..]);
      assert e[1] == ';';
    } else {
      RunSurvivesEscape(t[1..]);
      assert e[1..] == Escape(t[1..]);
    }
  }

  lemma ReferenceSurvivesEscape(t: string)
    requires ReferenceFollows(t)
    ensures ReferenceFollows(Escape(t))
  {
    if RunThenSemicolon(t) {
      RunSurvivesEscape(t);
    } else {
      var e := Escape(t);
      assert e == ['#'] + Escape(t[1..]);
      assert e[1..] == Escape(t[1..]);
      RunSurvivesEscape(t[1..]);
    }
  }

  /** The `&amp;` the escape writes is itself an accepted reference. */
  lemma AmpReferenceEscaped(rest: string)
    requires Escaped(rest)
    ensures Escaped("&amp;" + rest)
  {
    assert RunThenSemicolon("amp;" + rest) by {
      assert ("amp;" + rest)[1..] == "mp;" + rest;
      assert ("mp;" + rest)[1..] == "p;" + rest;
    }
    EscapedCons(';', rest);
    assert "p;" + rest == ['p'] + ([';'] + rest);
    EscapedCons('p', [';'] + rest);
    assert "mp;" + rest == ['m'] + ("p;" + rest);
    EscapedCons('m', "p;" + rest);
    assert "amp;" + rest == ['a'] + ("mp;" + rest);
    EscapedCons('a', "mp;" + rest);
    assert "&amp;" + rest == ['&'] + ("amp;" + rest);
    EscapedCons('&', "amp;" + rest);
  }

  /** Every `&` in the output begins a reference the lookahead accepts. */
  lemma {:induction false} EscapeOutputIsEscaped(s: string)
    ensures Escaped(Escape(s))
    decreases |s|
  {
    if s != [] {
      var rest := Escape(s[1..]);
      EscapeOutputIsEscaped(s[1..]);
      if BareAmpersandAt(s, 0) {
        assert Escape(s) == "&amp;" + rest;
        AmpReferenceEscaped(rest);
      } else {
        assert Escape(s) == [s[0]] + rest;
        if s[0] == '&' {
          ReferenceSurvivesEscape(s[1..]);
        }
        EscapedCons(s[0], rest);
      }
    }
  }

  /** The escape leaves a string unchanged exactly when every `&` in it already begins a reference. */
  lemma {:induction false} EscapeFixedPoints(t: string)
    ensures Escape(t) == t <==> Escaped(t)
    decreases |t|
  {
    if t != [] {
      EscapeFixedPoints(t[1..]);
      EscapedCons(t[0], t[1..]);
      assert t == [t[0]] + t[1..];
      if BareAmpersandAt(t, 0) {
        assert |Escape(t)| == 5 + |Escape(t[1..])| > |t|;
      } else {
        assert Escape(t) == [t[0]] + Escape(t[1..]);
        if Escape(t) == t {
          assert Escape(t)[1..] == Escape(t[1..]);
        }
      }
    }
  }

  /** Escaping a second time changes nothing. */
  lemma EscapeIdempotent(s: string)
    ensures Escape(Escape(s)) == Escape(s)
  {
    EscapeOutputIsEscaped(s);
    EscapeFixedPoints(Escape(s));
  }

  /** Concrete cases: the match is case-sensitive and needs at least one character before `;`. */
  lemma EscapeKeepsReferences()
    ensures Escape("&amp;") == "&amp;"
    ensures Escape("&#38;") == "&#38;"
  {
    assert ReferenceFollows("amp;");
    assert ReferenceFollows("#38;");
  }

  /** An `&` that no reference follows becomes `&amp;`; the rest is escaped in turn. */
  lemma EscapeBareAmpersand(t: string)
    requires !ReferenceFollows(t)
    ensures Escape("&" + t) == "&amp;" + Escape(t)
  {
    assert ("&" + t)[1..] == t;
  }

  /** A lone `&`, the upper-case `&AMP;` and the empty `&#;` are escaped: the match is case-sensitive and needs a body. */
  lemma EscapeEscapesBareAmpersands(spaced: string, upper: string, hashOnly: string)
    requires spaced == "a & b" && upper == "&AMP;" && hashOnly == "&#;"
    ensures Escape(spaced) == "a &amp; b"
    ensures Escape(upper) == "&amp;AMP;"
    ensures Escape(hashOnly) == "&amp;#;"
  {
    EscapeLoneAmpersand(spaced);
    EscapeUpperCase(upper);
    EscapeEmptyNumeric(hashOnly);
  }

  lemma EscapeLoneAmpersand(s: string)
    requires s == "a & b"
    ensures Escape(s) == "a &amp; b"
  {
    var tail := " b";
    assert !ReferenceFollows(tail);
    assert Escape(tail) == tail;
    EscapeBareAmpersand(tail);
    var mid := "&" + tail;
    var s1 := " " + mid;
    assert s == "a" + s1;
    assert s[1..] == s1 && s1[1..] == mid;
    assert Escape(s1) == " " + Escape(mid);
  }

  lemma EscapeUpperCase(s: string)
    requires s == "&AMP;"
    ensures Escape(s) == "&amp;AMP;"
  {
    assert !ReferenceFollows("AMP;");
    EscapeBareAmpersand("AMP;");
    assert s == "&" + "AMP;";
  }

  lemma EscapeEmptyNumeric(s: string)
    requires s == "&#;"
    ensures Escape(s) == "&amp;#;"
  {
    assert !ReferenceFollows("#;");
    EscapeBareAmpersand("#;");
    assert s == "&" + "#;";
  }
}
