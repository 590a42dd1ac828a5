/**
 * The category slug, `name.toLowerCase().replace(/[^a-z0-9]+/g, "-")`, written out at
 * three places of the project actions.
 */
module Slug {
  import opened Text
  import opened Seqs

  /** The characters the pattern `[a-z0-9]` accepts. */
  predicate IsSlugAlnum(c: char) {
    'a' <= c <= 'z' || '0' <= c <= '9'
  }

  /** A well-formed slug: letters, digits and single dashes. */
  predicate IsSlug(s: string) {
    && (forall i :: 0 <= i < |s| ==> IsSlugAlnum(s[i]) || s[i] == '-')
    && (forall i :: 0 <= i < |s| - 1 ==> !(s[i] == '-' && s[i + 1] == '-'))
  }

  /** Drops the rest of a run of characters outside `[a-z0-9]`. */
  function SkipRun(s: string): (r: string)
    ensures |r| <= |s| && r == s[|s| - |r|..]
    ensures forall i :: 0 <= i < |s| - |r| ==> !IsSlugAlnum(s[i])
    ensures r == [] || IsSlugAlnum(r[0])
    decreases |s|
  {
    if s != [] && !IsSlugAlnum(s[0]) then SkipRun(s[1..]) else s
  }

  /** `replace(/[^a-z0-9]+/g, "-")`: every maximal run of other characters becomes one dash. */
  function Dashify(s: string): (r: string)
    ensures IsSlug(r)
    ensures s != [] && IsSlugAlnum(s[0]) ==> r != [] && r[0] == s[0]
    ensures r == [] <==> s == []
    decreases |s|
  {
    if s == [] then []
    else if IsSlugAlnum(s[0]) then [s[0]] + Dashify(s[1..])
    else "-" + Dashify(SkipRun(s[1..]))
  }

  /** Letters and digits are copied as they are. */
  lemma DashifyWord(w: string)
    requires forall i :: 0 <= i < |w| ==> IsSlugAlnum(w[i])
    ensures Dashify(w) == w
  {
    DashifyAfterWord(w, []);
    assert w + [] == w;
  }

  /** A leading word is copied and what follows it is dashified on its own. */
  lemma {:induction false} DashifyAfterWord(w: string, rest: string)
    requires forall i :: 0 <= i < |w| ==> IsSlugAlnum(w[i])
    ensures Dashify(w + rest) == w + Dashify(rest)
    decreases |w|
  {
    if w != [] {
      var tail := w[1..] + rest;
      assert w + rest == [w[0]] + tail;
      DashifyAlnumStep(w[0], tail);
      DashifyAfterWord(w[1..], rest);
      assert w + Dashify(rest) == [w[0]] + (w[1..] + Dashify(rest));
    } else {
      assert w + rest == rest;
    }
  }

  /**
   * The pattern's replacement in place: a word, then a whole run of other characters, then
   * what follows the run; the run becomes exactly one dash between the word and the rest.
   */
  lemma {:induction false} DashifyRun(w: string, u: string, t: string)
    requires forall i :: 0 <= i < |w| ==> IsSlugAlnum(w[i])
    requires u != [] && forall i :: 0 <= i < |u| ==> !IsSlugAlnum(u[i])
    requires t == [] || IsSlugAlnum(t[0])
    ensures Dashify(w + u + t) == w + "-" + Dashify(t)
  {
    assert w + u + t == w + (u + t);
    DashifyAfterWord(w, u + t);
    DashifyRunFirst(u, t);
    assert w + ("-" + Dashify(t)) == w + "-" + Dashify(t);
  }

  /** A letter or digit in front is copied and the rest is dashified on its own. */
  lemma DashifyAlnumStep(c: char, rest: string)
    requires IsSlugAlnum(c)
    ensures Dashify([c] + rest) == [c] + Dashify(rest)
  {
    assert ([c] + rest)[1..] == rest;
  }

  /** A leading run becomes one dash. */
  lemma {:induction false} DashifyRunFirst(u: string, t: string)
    requires u != [] && forall i :: 0 <= i < |u| ==> !IsSlugAlnum(u[i])
    requires t == [] || IsSlugAlnum(t[0])
    ensures Dashify(u + t) == "-" + Dashify(t)
  {
    var s := u + t;
    assert s[0] == u[0];
    assert s[1..] == u[1..] + t;
    SkipRunOfRun(u[1..], t);
  }

  /** `SkipRun` stops exactly where the run ends. */
  lemma {:induction false} SkipRunOfRun(u: string, t: string)
    requires forall i :: 0 <= i < |u| ==> !IsSlugAlnum(u[i])
    requires t == [] || IsSlugAlnum(t[0])
    ensures SkipRun(u + t) == t
    decreases |u|
  {
    if u == [] {
      assert u + t == t;
    } else {
      assert (u + t)[0] == u[0];
      assert (u + t)[1..] == u[1..] + t;
      SkipRunOfRun(u[1..], t);
    }
  }

  /** The slug of a category name. */
  function CategorySlug(name: string): (slug: string)
    ensures IsSlug(slug)
    ensures |slug| <= |name|
  {
    DashifyShorter(Lower(name));
    Dashify(Lower(name))
  }

  lemma {:induction false} DashifyShorter(s: string)
    ensures |Dashify(s)| <= |s|
    decreases |s|
  {
    if s != [] {
      if IsSlugAlnum(s[0]) {
        DashifyShorter(s[1..]);
      } else {
        DashifyShorter(SkipRun(s[1..]));
      }
    }
  }

  /** A run that is dropped holds no letter or digit. */
  lemma {:induction false} NoAlnumInRun(s: string)
    requires forall i :: 0 <= i < |s| ==> !IsSlugAlnum(s[i])
    ensures Filter(IsSlugAlnum, s) == []
  {
    FilterNoneKept(IsSlugAlnum, s);
  }

  /** Letters and digits all survive, in order: only the separators are rewritten. */
  lemma {:induction false} DashifyKeepsAlnum(s: string)
    ensures Filter(IsSlugAlnum, Dashify(s)) == Filter(IsSlugAlnum, s)
    decreases |s|
  {
    if s != [] {
      var t := s[1..];
      if IsSlugAlnum(s[0]) {
        DashifyKeepsAlnum(t);
        assert ([s[0]] + Dashify(t))[1..] == Dashify(t);
      } else {
        var rest := SkipRun(t);
        DashifyKeepsAlnum(rest);
        assert ("-" + Dashify(rest))[1..] == Dashify(rest);
        FilterSkipRun(t);
      }
    }
  }

  /** The run that `SkipRun` drops holds nothing the filter keeps. */
  lemma FilterSkipRun(t: string)
    ensures Filter(IsSlugAlnum, SkipRun(t)) == Filter(IsSlugAlnum, t)
  {
    var rest := SkipRun(t);
    var n := |t| - |rest|;
    var run := t[..n];
    assert rest == t[n..];
    assert t == run + rest;
    FilterAppend(IsSlugAlnum, run, rest);
    NoAlnumInRun(run);
  }

  /** A well-formed slug is left as it is. */
  lemma {:induction false} DashifyOfSlug(s: string)
    requires IsSlug(s)
    ensures Dashify(s) == s
    decreases |s|
  {
    if s != [] {
      var t := s[1..];
      SlugTail(s);
      DashifyOfSlug(t);
      if !IsSlugAlnum(s[0]) {
        assert t == [] || IsSlugAlnum(t[0]);
        assert SkipRun(t) == t;
      }
      assert s == [s[0]] + t;
    }
  }

  /** A slug stays a slug without its first character. */
  lemma SlugTail(s: string)
    requires IsSlug(s) && s != []
    ensures IsSlug(s[1..])
    ensures s[0] == '-' ==> s[1..] == [] || IsSlugAlnum(s[1])
  {
    var t := s[1..];
    forall i | 0 <= i < |t| ensures t[i] == s[i + 1] { }
  }

  /** Lowercasing changes nothing in a slug. */
  lemma LowerOfSlug(s: string)
    requires IsSlug(s)
    ensures Lower(s) == s
  {
  }

  /** Deriving a slug from a slug gives it back. */
  lemma SlugIdempotent(name: string)
    ensures CategorySlug(CategorySlug(name)) == CategorySlug(name)
  {
    var slug := CategorySlug(name);
    LowerOfSlug(slug);
    DashifyOfSlug(slug);
  }

  /** The letters and digits of a slug are those of the lowercased name. */
  lemma SlugKeepsAlnum(name: string)
    ensures Filter(IsSlugAlnum, CategorySlug(name)) == Filter(IsSlugAlnum, Lower(name))
  {
    DashifyKeepsAlnum(Lower(name));
  }
}
