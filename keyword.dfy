/**
 * The keyword fallback of the solution search: the problem is cut into terms, every
 * project is scored by where the terms occur, and the best three positive scores are kept.
 */
module KeywordRanker {
  import opened Text
  import opened Seqs
  import opened Projects

  const TitleWeight: nat := 10
  const DescriptionWeight: nat := 5
  const CategoryWeight: nat := 8
  const MaxResults: nat := 3

  // ---------------------------------------------------------------- terms

  /** Tokens of length at most two are dropped. */
  predicate IsTerm(token: string) {
    |token| > 2
  }

  function TermsOf(tokens: seq<string>): seq<string> {
    Filter(IsTerm, tokens)
  }

  /** `problem.toLowerCase().split(/\s+/).filter(t => t.length > 2)`: tokens longer than two characters, free of white space. */
  function Terms(problem: string): (terms: seq<string>)
    ensures forall i :: 0 <= i < |terms| ==> |terms[i]| > 2 && NoSpace(terms[i])
  {
    var tokens := Split(Lower(problem));
    TermsOfTokens(tokens);
    TermsOf(tokens)
  }

  /** The terms kept from space-free tokens are space-free. */
  lemma TermsOfTokens(tokens: seq<string>)
    requires forall i :: 0 <= i < |tokens| ==> NoSpace(tokens[i])
    ensures forall i :: 0 <= i < |TermsOf(tokens)| ==> |TermsOf(tokens)[i]| > 2 && NoSpace(TermsOf(tokens)[i])
  {
    forall i | 0 <= i < |TermsOf(tokens)| ensures NoSpace(TermsOf(tokens)[i]) {
      FilterHas(IsTerm, tokens, TermsOf(tokens)[i]);
    }
  }

  /** The terms are exactly the lowercased white-space separated tokens longer than two characters. */
  lemma TermsAreLongTokens(problem: string, t: string)
    ensures t in Terms(problem) <==> t in Split(Lower(problem)) && |t| > 2
    ensures t in Terms(problem) ==> NoSpace(t)
  {
    FilterHas(IsTerm, Split(Lower(problem)), t);
  }

  /** A short token, wherever it stands, changes no term and so no score. */
  lemma ShortTokenIgnored(before: seq<string>, token: string, after: seq<string>)
    requires |token| <= 2
    ensures TermsOf(before + [token] + after) == TermsOf(before + after)
  {
    FilterAppend(IsTerm, before + [token], after);
    FilterAppend(IsTerm, before, [token]);
    FilterAppend(IsTerm, before, after);
    assert Filter(IsTerm, [token]) == [];
  }

  // ---------------------------------------------------------------- scoring

  /** The three places a term is looked for. */
  datatype Field = Title | Description | Category

  function Weight(f: Field): nat {
    match f
    case Title => TitleWeight
    case Description => DescriptionWeight
    case Category => CategoryWeight
  }

  /** Substring containment against the lowercased field; for categories, against any category name. */
  predicate Hit(f: Field, term: string, p: Project) {
    match f
    case Title => Contains(Lower(p.title), term)
    case Description => Contains(Lower(p.description), term)
    case Category => exists i :: 0 <= i < |p.categoryNames| && Contains(Lower(p.categoryNames[i]), term)
  }

  /** What one term adds to a project's score. */
  function TermScore(term: string, p: Project): (score: nat)
    ensures score <= TitleWeight + DescriptionWeight + CategoryWeight
    ensures score > 0 <==> AnyHit(term, p)
  {
    (if Hit(Title, term, p) then TitleWeight else 0)
    + (if Hit(Description, term, p) then DescriptionWeight else 0)
    + (if Hit(Category, term, p) then CategoryWeight else 0)
  }

  /** The score accumulated over the terms in order. */
  function KeywordScore(terms: seq<string>, p: Project): (score: nat)
    ensures score <= 23 * |terms|
    decreases |terms|
  {
    if terms == [] then 0
    else KeywordScore(terms[..|terms| - 1], p) + TermScore(terms[|terms| - 1], p)
  }

  /** How many of the terms hit field `f`. */
  function HitCount(f: Field, terms: seq<string>, p: Project): (n: nat)
    ensures n <= |terms|
    decreases |terms|
  {
    if terms == [] then 0
    else HitCount(f, terms[..|terms| - 1], p) + (if Hit(f, terms[|terms| - 1], p) then 1 else 0)
  }

  /** The forEach loop over the terms, adding 10, 5 and 8 for title, description and category hits. */
  method ScoreProject(terms: seq<string>, p: Project) returns (score: nat)
    ensures score == KeywordScore(terms, p)
  {
    score := 0;
    for i := 0 to |terms|
      invariant score == KeywordScore(terms[..i], p)
    {
      var term := terms[i];
      if Contains(Lower(p.title), term) {
        score := score + TitleWeight;
      }
      if Contains(Lower(p.description), term) {
        score := score + DescriptionWeight;
      }
      if exists k :: 0 <= k < |p.categoryNames| && Contains(Lower(p.categoryNames[k]), term) {
        score := score + CategoryWeight;
      }
      assert terms[..i + 1][..i] == terms[..i];
    }
    assert terms[..|terms|] == terms;
  }

  /** The score is 10, 5 and 8 times the number of terms hitting title, description and categories. */
  lemma {:induction false} ScoreByField(terms: seq<string>, p: Project)
    ensures KeywordScore(terms, p) ==
      TitleWeight * HitCount(Title, terms, p)
      + DescriptionWeight * HitCount(Description, terms, p)
      + CategoryWeight * HitCount(Category, terms, p)
    decreases |terms|
  {
    if terms != [] {
      ScoreByField(terms[..|terms| - 1], p);
    }
  }

  /** A project hit in only one field scores that field's weight per hitting term. */
  lemma SingleFieldScore(f: Field, terms: seq<string>, p: Project)
    requires forall i, g :: 0 <= i < |terms| && g != f ==> !Hit(g, terms[i], p)
    ensures KeywordScore(terms, p) == Weight(f) * HitCount(f, terms, p)
  {
    ScoreByField(terms, p);
    forall g | g != f ensures HitCount(g, terms, p) == 0 {
      NoHitsNoCount(g, terms, p);
    }
  }

  lemma {:induction false} NoHitsNoCount(f: Field, terms: seq<string>, p: Project)
    requires forall i :: 0 <= i < |terms| ==> !Hit(f, terms[i], p)
    ensures HitCount(f, terms, p) == 0
    decreases |terms|
  {
    if terms != [] {
      NoHitsNoCount(f, terms[..|terms| - 1], p);
    }
  }

  /** The term hits at least one of the three fields. */
  predicate AnyHit(term: string, p: Project) {
    Hit(Title, term, p) || Hit(Description, term, p) || Hit(Category, term, p)
  }

  /** A project scores above zero exactly when some term hits one of its fields. */
  lemma {:induction false} ScorePositiveIff(terms: seq<string>, p: Project)
    ensures KeywordScore(terms, p) > 0 <==> exists i :: 0 <= i < |terms| && AnyHit(terms[i], p)
    decreases |terms|
  {
    if terms != [] {
      var init := terms[..|terms| - 1];
      ScorePositiveIff(init, p);
      forall i | 0 <= i < |init| ensures init[i] == terms[i] { }
      if KeywordScore(init, p) > 0 {
        var i :| 0 <= i < |init| && AnyHit(init[i], p);
        assert AnyHit(terms[i], p);
      }
    }
  }

  /** Every character of an included string occurs in the string that includes it. */
  lemma ContainedCharOccurs(hay: string, needle: string, c: char)
    requires c in needle
    ensures Contains(hay, needle) ==> c in hay
  {
    ContainsIffOccurs(hay, needle);
    if Contains(hay, needle) {
      var i :| OccursAt(hay, needle, i);
      var k :| 0 <= k < |needle| && needle[k] == c;
      assert hay[i + k] == hay[i..i + |needle|][k];
    }
  }

  const ExampleProject := Project("p1", "Inventory Manager", "inventory-manager", "track stock levels", [])

  lemma ExampleFieldsLowered()
    ensures Lower(ExampleProject.title) == "inventory manager"
    ensures Lower(ExampleProject.description) == "track stock levels"
  {
  }

  lemma ExampleInventoryScore()
    ensures TermScore("inventory", ExampleProject) == TitleWeight
  {
    ExampleFieldsLowered();
    ExampleTitleMatch();
    ExampleLetters();
    ContainedCharOccurs("track stock levels", "inventory", 'i');
  }

  lemma ExampleTitleMatch()
    ensures Contains("inventory manager", "inventory")
  {
    assert StartsWith("inventory manager", "inventory");
  }

  lemma ExampleTrackingScore()
    ensures TermScore("tracking", ExampleProject) == 0
  {
    ExampleFieldsLowered();
    ExampleLetters();
    ContainedCharOccurs("inventory manager", "tracking", 'k');
    ContainedCharOccurs("track stock levels", "tracking", 'g');
  }

  lemma ExampleLetters()
    ensures 'k' in "tracking" && 'g' in "tracking"
    ensures 'k' !in "inventory manager" && 'g' !in "track stock levels"
    ensures 'i' in "inventory" && 'i' !in "track stock levels"
  {
    assert "tracking"[4] == 'k';
    assert "tracking"[7] == 'g';
  }

  /**
   * "inventory tracking" against "Inventory Manager" / "track stock levels": only the title
   * matches "inventory", and "tracking" is not a substring of "track stock levels".
   */
  lemma InventoryExample()
    ensures KeywordScore(["inventory", "tracking"], ExampleProject) == TitleWeight
  {
    ExampleInventoryScore();
    ExampleTrackingScore();
    assert ["inventory", "tracking"][..1] == ["inventory"];
    assert ["inventory"][..0] == [];
  }

  // ---------------------------------------------------------------- ranking

  function ScoreAll(terms: seq<string>, corpus: seq<Project>): (scored: seq<ScoredProject>)
    ensures |scored| == |corpus|
    ensures forall i :: 0 <= i < |corpus| ==> scored[i] == Summarize(corpus[i], KeywordScore(terms, corpus[i]))
  {
    seq(|corpus|, i requires 0 <= i < |corpus| => Summarize(corpus[i], KeywordScore(terms, corpus[i])))
  }

  predicate IsPositive(x: ScoredProject) {
    x.score > 0
  }

  /** The scored corpus without the zero scores, in corpus order. */
  function Matches(terms: seq<string>, corpus: seq<Project>): seq<ScoredProject> {
    Filter(IsPositive, ScoreAll(terms, corpus))
  }

  predicate SortedByScore(s: seq<ScoredProject>) {
    forall i, j :: 0 <= i < j < |s| ==> s[i].score >= s[j].score
  }

  /** Inserts `x` after every element scoring at least as much: the step of a stable descending sort. */
  function Insert(x: ScoredProject, s: seq<ScoredProject>): (r: seq<ScoredProject>)
    ensures |r| == |s| + 1
    decreases |s|
  {
    if s == [] then [x]
    else if s[0].score < x.score then [x] + s
    else [s[0]] + Insert(x, s[1..])
  }

  /** `sort((a, b) => b.score - a.score)`; JavaScript's sort is stable. */
  function SortByScore(s: seq<ScoredProject>): (r: seq<ScoredProject>)
    ensures |r| == |s|
    decreases |s|
  {
    if s == [] then [] else Insert(s[|s| - 1], SortByScore(s[..|s| - 1]))
  }

  /** `slice(0, n)`. */
  function TakeAtMost(s: seq<ScoredProject>, n: nat): seq<ScoredProject> {
    if |s| <= n then s else s[..n]
  }

  /** The keyword ranking of a corpus for given terms. */
  function Rank(terms: seq<string>, corpus: seq<Project>): (ranked: seq<ScoredProject>)
    ensures |ranked| <= MaxResults
  {
    TakeAtMost(SortByScore(Matches(terms, corpus)), MaxResults)
  }

  /** The fallback's answer: at most three hits, each with a positive score. */
  function KeywordRanking(problem: string, corpus: seq<Project>): (ranked: seq<ScoredProject>)
    ensures |ranked| <= MaxResults
    ensures forall i :: 0 <= i < |ranked| ==> ranked[i].score > 0
  {
    RankPositive(Terms(problem), corpus);
    Rank(Terms(problem), corpus)
  }

  function HasScore(k: int): ScoredProject -> bool {
    (x: ScoredProject) => x.score == k
  }

  /** The elements of `s` scoring exactly `k`, in order: ties are compared through this view. */
  function WithScore(k: int, s: seq<ScoredProject>): seq<ScoredProject> {
    Filter(HasScore(k), s)
  }

  lemma {:induction false} InsertPermutes(x: ScoredProject, s: seq<ScoredProject>)
    ensures multiset(Insert(x, s)) == multiset(s) + multiset{x}
    decreases |s|
  {
    if s != [] && s[0].score >= x.score {
      InsertPermutes(x, s[1..]);
      assert s == [s[0]] + s[1..];
    }
  }

  lemma {:induction false} InsertBelow(x: ScoredProject, s: seq<ScoredProject>, bound: int)
    requires x.score <= bound
    requires forall i :: 0 <= i < |s| ==> s[i].score <= bound
    ensures forall i :: 0 <= i < |s| + 1 ==> Insert(x, s)[i].score <= bound
    decreases |s|
  {
    if s != [] && s[0].score >= x.score {
      InsertBelow(x, s[1..], bound);
    }
  }

  lemma {:induction false} InsertSorted(x: ScoredProject, s: seq<ScoredProject>)
    requires SortedByScore(s)
    ensures SortedByScore(Insert(x, s))
    decreases |s|
  {
    if s != [] && s[0].score >= x.score {
      InsertSorted(x, s[1..]);
      InsertBelow(x, s[1..], s[0].score);
    }
  }

  /** Inserting `x` puts it after every element of equal score. */
  lemma {:induction false} InsertStable(x: ScoredProject, s: seq<ScoredProject>, k: int)
    requires SortedByScore(s)
    ensures WithScore(k, Insert(x, s)) == WithScore(k, s) + WithScore(k, [x])
    decreases |s|
  {
    if s == [] {
    } else if s[0].score < x.score {
      InsertStableFront(x, s, k);
    } else {
      InsertStable(x, s[1..], k);
      var t := Insert(x, s[1..]);
      assert Insert(x, s) == [s[0]] + t;
      assert ([s[0]] + t)[1..] == t;
    }
  }

  /** `x` goes in front only of strictly lower scores, none of which ties with it. */
  lemma InsertStableFront(x: ScoredProject, s: seq<ScoredProject>, k: int)
    requires SortedByScore(s) && s != [] && s[0].score < x.score
    ensures WithScore(k, [x] + s) == WithScore(k, s) + WithScore(k, [x])
  {
    FilterAppend(HasScore(k), [x], s);
    if x.score == k {
      forall i | 0 <= i < |s| ensures !HasScore(k)(s[i]) { }
      FilterNoneKept(HasScore(k), s);
    }
  }

  /** The sort returns a descending permutation of its input. */
  lemma SortSortsAndPermutes(s: seq<ScoredProject>)
    ensures SortedByScore(SortByScore(s))
    ensures multiset(SortByScore(s)) == multiset(s)
  {
    SortSorts(s);
    SortPermutes(s);
  }

  lemma {:induction false} SortSorts(s: seq<ScoredProject>)
    ensures SortedByScore(SortByScore(s))
    decreases |s|
  {
    if s != [] {
      var init := s[..|s| - 1];
      SortSorts(init);
      InsertSorted(s[|s| - 1], SortByScore(init));
    }
  }

  lemma {:induction false} SortPermutes(s: seq<ScoredProject>)
    ensures multiset(SortByScore(s)) == multiset(s)
    decreases |s|
  {
    if s != [] {
      var init, last := s[..|s| - 1], s[|s| - 1];
      SortPermutes(init);
      InsertPermutes(last, SortByScore(init));
      assert s == init + [last];
    }
  }

  /** The sort is stable: the elements of any one score keep their input order. */
  lemma {:induction false} SortStable(s: seq<ScoredProject>, k: int)
    ensures WithScore(k, SortByScore(s)) == WithScore(k, s)
    decreases |s|
  {
    if s != [] {
      var init := s[..|s| - 1];
      SortStable(init, k);
      SortSorts(init);
      InsertStable(s[|s| - 1], SortByScore(init), k);
      assert s == init + [s[|s| - 1]];
      FilterAppend(HasScore(k), init, [s[|s| - 1]]);
    }
  }

  // ---------------------------------------------------------------- properties of the ranking

  /** At most three results, and exactly three unless fewer projects score above zero. */
  lemma RankLength(terms: seq<string>, corpus: seq<Project>)
    ensures var m := Matches(terms, corpus);
      |Rank(terms, corpus)| == if |m| < MaxResults then |m| else MaxResults
  {
  }

  /** Results come in non-increasing score order. */
  lemma RankSorted(terms: seq<string>, corpus: seq<Project>)
    ensures SortedByScore(Rank(terms, corpus))
  {
    SortSorts(Matches(terms, corpus));
  }

  /** Every result is a corpus project's summary with its positive keyword score. */
  lemma RankFromCorpus(terms: seq<string>, corpus: seq<Project>, i: nat)
    requires i < |Rank(terms, corpus)|
    ensures var x := Rank(terms, corpus)[i];
      && x.score > 0
      && exists j :: 0 <= j < |corpus| && x == Summarize(corpus[j], KeywordScore(terms, corpus[j]))
  {
    var m := Matches(terms, corpus);
    var sorted := SortByScore(m);
    var x := Rank(terms, corpus)[i];
    assert x == sorted[i];
    SortPermutes(m);
    assert x in multiset(sorted);
    assert x in m;
    FilterHas(IsPositive, ScoreAll(terms, corpus), x);
    var j :| 0 <= j < |corpus| && ScoreAll(terms, corpus)[j] == x;
  }

  lemma RankPositive(terms: seq<string>, corpus: seq<Project>)
    ensures forall i :: 0 <= i < |Rank(terms, corpus)| ==> Rank(terms, corpus)[i].score > 0
  {
    forall i | 0 <= i < |Rank(terms, corpus)| ensures Rank(terms, corpus)[i].score > 0 {
      RankFromCorpus(terms, corpus, i);
    }
  }

  /** Ties keep corpus order: the results of any one score are a prefix of the matches of that score. */
  lemma RankStable(terms: seq<string>, corpus: seq<Project>, k: int)
    ensures WithScore(k, Rank(terms, corpus)) <= WithScore(k, Matches(terms, corpus))
  {
    var m := Matches(terms, corpus);
    var sorted := SortByScore(m);
    SortStable(m, k);
    var n := |Rank(terms, corpus)|;
    assert sorted == sorted[..n] + sorted[n..];
    FilterAppend(HasScore(k), sorted[..n], sorted[n..]);
  }

  /** Nothing left out scores above anything kept. */
  lemma RankIsTop(terms: seq<string>, corpus: seq<Project>, x: ScoredProject, i: nat)
    requires x in multiset(Matches(terms, corpus)) - multiset(Rank(terms, corpus))
    requires i < |Rank(terms, corpus)|
    ensures x.score <= Rank(terms, corpus)[i].score
  {
    var m := Matches(terms, corpus);
    var sorted := SortByScore(m);
    var r := Rank(terms, corpus);
    SortSortsAndPermutes(m);
    var n := |r|;
    assert sorted == r + sorted[n..];
    assert multiset(sorted) == multiset(r) + multiset(sorted[n..]);
    assert x in multiset(sorted[n..]);
    var j :| 0 <= j < |sorted[n..]| && sorted[n..][j] == x;
    assert sorted[n + j] == x && r[i] == sorted[i];
  }

  /** As soon as one term hits one project, the ranking is not empty. */
  lemma RankNonEmpty(terms: seq<string>, corpus: seq<Project>, i: nat, j: nat)
    requires i < |terms| && j < |corpus| && AnyHit(terms[i], corpus[j])
    ensures Rank(terms, corpus) != []
  {
    ScorePositiveIff(terms, corpus[j]);
    var x := ScoreAll(terms, corpus)[j];
    FilterHas(IsPositive, ScoreAll(terms, corpus), x);
    RankLength(terms, corpus);
  }

  /** Without terms every score is zero and nothing is returned. */
  lemma NoTermsNoResults(corpus: seq<Project>)
    ensures Rank([], corpus) == []
  {
    FilterNoneKept(IsPositive, ScoreAll([], corpus));
  }

  lemma ScoreAllSnoc(terms: seq<string>, init: seq<Project>, p: Project)
    ensures ScoreAll(terms, init + [p]) == ScoreAll(terms, init) + [Summarize(p, KeywordScore(terms, p))]
  {
    var a := ScoreAll(terms, init + [p]);
    var b := ScoreAll(terms, init) + [Summarize(p, KeywordScore(terms, p))];
    assert |a| == |b|;
    forall i | 0 <= i < |a| ensures a[i] == b[i] {
      if i < |init| {
        assert (init + [p])[i] == init[i];
      }
    }
  }

  /** The fallback computed as the source does: score every project, then filter, sort and cut. */
  method RankByKeywords(problem: string, corpus: seq<Project>) returns (ranked: seq<ScoredProject>)
    ensures ranked == KeywordRanking(problem, corpus)
  {
    var terms := Terms(problem);
    var scored: seq<ScoredProject> := [];
    for i := 0 to |corpus|
      invariant scored == ScoreAll(terms, corpus[..i])
    {
      var score := ScoreProject(terms, corpus[i]);
      scored := scored + [Summarize(corpus[i], score)];
      TakeSnoc(corpus, i);
      ScoreAllSnoc(terms, corpus[..i], corpus[i]);
    }
    assert corpus[..|corpus|] == corpus;
    ranked := TakeAtMost(SortByScore(Filter(IsPositive, scored)), MaxResults);
  }
}
