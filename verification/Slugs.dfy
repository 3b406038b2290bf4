/** Subject-safe tokens and the subjects built from them (internal/wire/subjects.go). */
module Slugs {
  /** Runes a slug may hold. */
  predicate SlugChar(c: char) {
    'a' <= c <= 'z' || '0' <= c <= '9' || c == '-'
  }

  /**
   unicode.ToLower as far as Slug can tell: besides A-Z, exactly the Kelvin sign and the dotted
   capital I have an ASCII lower case; every other rune, lowered or not, is no slug character.
   */
  function Lower(c: char): char {
    if 'A' <= c <= 'Z' then c - 'A' + 'a'
    else if c == '\U{212A}' then 'k'
    else if c == '\U{0130}' then 'i'
    else c
  }

  function Token(c: char): char {
    if SlugChar(Lower(c)) then Lower(c) else '-'
  }

  /** Every rune mapped to its token, runs of dashes collapsed. */
  function Squeeze(s: string): string {
    if s == "" then ""
    else
      var t, c := Squeeze(s[..|s| - 1]), Token(s[|s| - 1]);
      if c == '-' && t != "" && t[|t| - 1] == '-' then t else t + [c]
  }

  function TrimLeft(s: string): string {
    if s != "" && s[0] == '-' then TrimLeft(s[1..]) else s
  }

  function TrimRight(s: string): string {
    if s != "" && s[|s| - 1] == '-' then TrimRight(s[..|s| - 1]) else s
  }

  function Slug(model: string): string {
    TrimRight(TrimLeft(Squeeze(model)))
  }

  method ComputeSlug(model: string) returns (slug: string)
    ensures slug == Slug(model)
  {
    var b, prevDash := "", false;
    for i := 0 to |model|
      invariant b == Squeeze(model[..i])
      invariant prevDash == (b != "" && b[|b| - 1] == '-')
    {
      assert model[..i + 1][..i] == model[..i];
      var r := Lower(model[i]);
      if !SlugChar(r) {
        r := '-';
      }
      if r == '-' && prevDash {
        continue;
      }
      prevDash := r == '-';
      b := b + [r];
    }
    assert model[..|model|] == model;
    slug := TrimRight(TrimLeft(b));
  }

  // ---------- What a slug is ----------

  predicate Squeezed(s: string) {
    && (forall i :: 0 <= i < |s| ==> SlugChar(s[i]))
    && (forall i :: 0 < i < |s| ==> !(s[i - 1] == '-' && s[i] == '-'))
  }

  /** Only [a-z0-9-], no leading or trailing dash, no two dashes together. */
  predicate IsSlug(s: string) {
    && Squeezed(s)
    && (s != "" ==> s[0] != '-' && s[|s| - 1] != '-')
  }

  lemma {:induction false} SqueezeIsSqueezed(s: string)
    ensures Squeezed(Squeeze(s))
  {
    if s != "" {
      SqueezeIsSqueezed(s[..|s| - 1]);
    }
  }

  lemma {:induction false} SqueezeKeepsSqueezed(s: string)
    requires Squeezed(s)
    ensures Squeeze(s) == s
  {
    if s != "" {
      var init := s[..|s| - 1];
      SqueezeKeepsSqueezed(init);
      assert init + [s[|s| - 1]] == s;
    }
  }

  /** Slug always yields a slug, possibly the empty one. */
  lemma SlugYieldsSlug(s: string)
    ensures IsSlug(Slug(s))
  {
    SqueezeIsSqueezed(s);
    var t := Squeeze(s);
    var l := if t != "" && t[0] == '-' then t[1..] else t;
    assert TrimLeft(t) == l;
    var r := if l != "" && l[|l| - 1] == '-' then l[..|l| - 1] else l;
    assert TrimRight(l) == r;
  }

  /** The strings Slug leaves alone are exactly the slugs. */
  lemma SlugFixpointIff(s: string)
    ensures Slug(s) == s <==> IsSlug(s)
  {
    SlugYieldsSlug(s);
    if IsSlug(s) {
      SqueezeKeepsSqueezed(s);
    }
  }

  lemma SlugIdempotent(s: string)
    ensures Slug(Slug(s)) == Slug(s)
  {
    SlugYieldsSlug(s);
    SlugFixpointIff(Slug(s));
  }

  /** The letters and digits of a string, in order. */
  function Letters(s: string): string {
    if s == "" then ""
    else Letters(s[..|s| - 1]) + if s[|s| - 1] == '-' then "" else [s[|s| - 1]]
  }

  function Tokens(s: string): string {
    seq(|s|, i requires 0 <= i < |s| => Token(s[i]))
  }

  /** l is c, or the lower case of the capital c; the Kelvin sign and the dotted I are capitals too. */
  predicate SameLetter(c: char, l: char) {
    || (('a' <= c <= 'z' || '0' <= c <= '9') && l == c)
    || ('A' <= c <= 'Z' && l as int == c as int + 32)
    || (c == '\U{212A}' && l == 'k')
    || (c == '\U{0130}' && l == 'i')
  }

  predicate Plain(c: char) {
    'a' <= c <= 'z' || '0' <= c <= '9' || 'A' <= c <= 'Z' || c == '\U{212A}' || c == '\U{0130}'
  }

  function Plains(s: string): string {
    if s == "" then ""
    else Plains(s[..|s| - 1]) + if Plain(s[|s| - 1]) then [s[|s| - 1]] else ""
  }

  predicate SameLetters(s: string, t: string) {
    |s| == |t| && forall i :: 0 <= i < |s| ==> SameLetter(s[i], t[i])
  }

  lemma {:induction false} TokensArePlain(s: string)
    ensures SameLetters(Plains(s), Letters(Tokens(s)))
  {
    if s != "" {
      TokensArePlain(s[..|s| - 1]);
      assert Tokens(s)[..|s| - 1] == Tokens(s[..|s| - 1]);
    }
  }

  /**
   Slug loses no letter or digit and keeps their order, capitals in lower case: it only inserts, merges
   and trims dashes.
   */
  lemma SlugKeepsLetters(s: string)
    ensures Letters(Slug(s)) == Letters(Tokens(s)) && SameLetters(Plains(s), Letters(Slug(s)))
  {
    TokensArePlain(s);
    SqueezeKeepsLetters(s);
    TrimLeftKeepsLetters(Squeeze(s));
    TrimRightKeepsLetters(TrimLeft(Squeeze(s)));
  }

  lemma {:induction false} SqueezeKeepsLetters(s: string)
    ensures Letters(Squeeze(s)) == Letters(Tokens(s))
  {
    if s != "" {
      var init := s[..|s| - 1];
      SqueezeKeepsLetters(init);
      assert Tokens(s)[..|s| - 1] == Tokens(init);
      var t, c := Squeeze(init), Token(s[|s| - 1]);
      assert (t + [c])[..|t|] == t;
    }
  }

  lemma {:induction false} TrimLeftKeepsLetters(s: string)
    ensures Letters(TrimLeft(s)) == Letters(s)
  {
    if s != "" && s[0] == '-' {
      TrimLeftKeepsLetters(s[1..]);
      LettersOfCons(s);
    }
  }

  lemma {:induction false} LettersOfCons(s: string)
    requires s != "" && s[0] == '-'
    ensures Letters(s) == Letters(s[1..])
  {
    if |s| > 1 {
      LettersOfCons(s[..|s| - 1]);
      assert s[..|s| - 1][1..] == s[1..][..|s| - 2];
    }
  }

  lemma {:induction false} TrimRightKeepsLetters(s: string)
    ensures Letters(TrimRight(s)) == Letters(s)
  {
    if s != "" && s[|s| - 1] == '-' {
      TrimRightKeepsLetters(s[..|s| - 1]);
    }
  }

  // ---------- Where the dashes go ----------

  lemma TokenOfPlain(c: char)
    ensures Plain(c) <==> Token(c) != '-'
  {
  }

  /** Squeezing a run of separators after a letter leaves one dash. */
  lemma {:induction false} SqueezeSeparators(a: string, sep: string)
    requires a != "" && Plain(a[|a| - 1]) && forall i :: 0 <= i < |sep| ==> !Plain(sep[i])
    ensures Squeeze(a) != "" && Squeeze(a)[|Squeeze(a)| - 1] != '-'
    ensures Squeeze(a + sep) == Squeeze(a) + if sep == "" then "" else "-"
  {
    TokenOfPlain(a[|a| - 1]);
    if sep == "" {
      assert a + sep == a;
    } else {
      var n := |sep| - 1;
      SqueezeSeparators(a, sep[..n]);
      TokenOfPlain(sep[n]);
      assert (a + sep)[..|a + sep| - 1] == a + sep[..n];
    }
  }

  lemma {:induction false} SqueezeJoins(x: string, b: string)
    requires b != "" && Plain(b[0])
    ensures Squeeze(b) != "" && Squeeze(b)[0] != '-'
    ensures Squeeze(x + b) == Squeeze(x) + Squeeze(b)
  {
    var n := |b| - 1;
    assert (x + b)[..|x + b| - 1] == x + b[..n];
    TokenOfPlain(b[0]);
    if n == 0 {
      assert b[..0] == "" && x + b[..0] == x;
    } else {
      SqueezeJoins(x, b[..n]);
    }
  }

  lemma {:induction false} TrimLeftStops(p: string, q: string)
    requires p != "" && p[|p| - 1] != '-'
    ensures TrimLeft(p) != "" && TrimLeft(p)[|TrimLeft(p)| - 1] != '-'
    ensures TrimLeft(p + q) == TrimLeft(p) + q
  {
    if p[0] == '-' {
      TrimLeftStops(p[1..], q);
      assert (p + q)[1..] == p[1..] + q;
    }
  }

  lemma {:induction false} TrimRightStops(p: string, q: string)
    requires q != "" && q[0] != '-'
    ensures TrimRight(p + q) == p + TrimRight(q)
  {
    if q[|q| - 1] == '-' {
      TrimRightStops(p, q[..|q| - 1]);
      assert (p + q)[..|p + q| - 1] == p + q[..|q| - 1];
    }
  }

  /** Between two letters or digits Slug puts one dash where there was anything else, and nothing where there was not. */
  lemma SlugJoins(a: string, sep: string, b: string)
    requires a != "" && Plain(a[|a| - 1]) && b != "" && Plain(b[0])
    requires forall i :: 0 <= i < |sep| ==> !Plain(sep[i])
    ensures Slug(a + sep + b) == Slug(a) + (if sep == "" then "" else "-") + Slug(b)
  {
    hide Squeeze, TrimLeft, TrimRight, Plain;
    var dash := if sep == "" then "" else "-";
    var (p, q) := (Squeeze(a), Squeeze(b));
    SqueezeSeparators(a, sep);
    SqueezeJoins(a + sep, b);
    assert Squeeze(a + sep + b) == p + (dash + q);
    TrimLeftStops(p, dash + q);
    assert TrimLeft(p) + (dash + q) == (TrimLeft(p) + dash) + q;
    TrimRightStops(TrimLeft(p) + dash, q);
    NothingToTrim(TrimLeft(p), q);
  }

  lemma NothingToTrim(p: string, q: string)
    requires p != "" && p[|p| - 1] != '-' && q != "" && q[0] != '-'
    ensures TrimRight(p) == p && TrimLeft(q) == q
  {
  }

  /** The admin API's shape for org ids, project ids, alias names and org scopes. */
  predicate ValidSlug(s: string) {
    s != "" && Slug(s) == s
  }
}
