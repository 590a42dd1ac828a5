/**
 * `searchProjectSolutions`: a blank problem returns nothing; otherwise the approved corpus
 * is loaded, the AI recommendation is tried when a key is configured, and the keyword
 * ranking answers whenever the AI path is skipped, fails or maps to no project.
 */
module SolutionSearch {
  import opened Options
  import opened Text
  import opened Projects
  import opened KeywordRanker
  import opened AiRecommender

  /** What every caller sees: hits, or the generic error message. */
  datatype SearchResult = Success(data: seq<ScoredProject>) | Failure(error: string)

  const SearchFailed := "Failed to find solutions"

  /**
   * The outcome of the model call: no API key configured, the call (or reading its reply)
   * threw, or the reply's text.
   */
  datatype AiReply = NoApiKey | AiError | AiText(text: string)

  /** `JSON.parse` followed by use as a string array; `None` when that throws. */
  type ReplyParser = string -> Option<seq<string>>

  /** The AI path: `Some` only with at least one hit mapped back to the corpus. */
  function AiStep(reply: AiReply, parse: ReplyParser, corpus: seq<Project>): (r: Option<seq<ScoredProject>>)
    ensures r.Some? ==> r.value != []
    ensures r.Some? ==>
      && reply.AiText?
      && parse(CleanReply(reply.text)).Some?
      && r.value == Recommend(parse(CleanReply(reply.text)).value, corpus)
  {
    match reply
    case NoApiKey => None
    case AiError => None
    case AiText(text) =>
      match parse(CleanReply(text))
      case None => None
      case Some(ids) =>
        var hits := Recommend(ids, corpus);
        if |hits| > 0 then Some(hits) else None
  }

  /**
   * The search. `store` is the result of loading the approved projects (`None` when that
   * throws); it is only consulted for a non-blank problem.
   */
  function Search(problem: string, store: Option<seq<Project>>, reply: AiReply, parse: ReplyParser): (r: SearchResult)
    ensures store.Some? ==> r.Success?
    ensures r.Failure? ==> r.error == SearchFailed
    ensures r.Success? ==> forall i :: 0 <= i < |r.data| ==> r.data[i].score > 0
  {
    if Trim(problem) == [] then Success([])
    else
      match store
      case None => Failure(SearchFailed)
      case Some(corpus) =>
        match AiStep(reply, parse, corpus)
        case Some(hits) => Success(hits)
        case None => Success(KeywordRanking(problem, corpus))
  }

  /** A blank problem yields an empty success whatever the store and the AI would have done. */
  lemma BlankProblemShortCircuits(problem: string, store: Option<seq<Project>>, reply: AiReply, parse: ReplyParser)
    requires IsBlank(problem)
    ensures Search(problem, store, reply, parse) == Success([])
  {
    TrimEmptyIffBlank(problem);
  }

  /** A failing store load is the only way to a failure, and it reports the fixed message. */
  lemma FailureOnlyFromStore(problem: string, store: Option<seq<Project>>, reply: AiReply, parse: ReplyParser)
    ensures Search(problem, store, reply, parse).Failure? <==> !IsBlank(problem) && store.None?
    ensures Search(problem, store, reply, parse).Failure? ==>
      Search(problem, store, reply, parse).error == SearchFailed
  {
    TrimEmptyIffBlank(problem);
  }

  /** Without a key, or when the model call throws, the answer is the keyword ranking. */
  lemma NoAiMeansKeywords(problem: string, corpus: seq<Project>, reply: AiReply, parse: ReplyParser)
    requires !IsBlank(problem)
    requires reply == NoApiKey || reply == AiError
    ensures Search(problem, Some(corpus), reply, parse) == Success(KeywordRanking(problem, corpus))
  {
    TrimEmptyIffBlank(problem);
  }

  /** An unparseable cleaned reply falls back to the keyword ranking. */
  lemma ParseFailureMeansKeywords(problem: string, corpus: seq<Project>, text: string, parse: ReplyParser)
    requires !IsBlank(problem)
    requires parse(CleanReply(text)).None?
    ensures Search(problem, Some(corpus), AiText(text), parse) == Success(KeywordRanking(problem, corpus))
  {
    TrimEmptyIffBlank(problem);
  }

  /**
   * A parsed reply wins exactly when one of its ids names a corpus project; a reply naming
   * only unknown ids falls back rather than answering with nothing.
   */
  lemma ParsedReplyPolicy(problem: string, corpus: seq<Project>, text: string, parse: ReplyParser, ids: seq<string>)
    requires !IsBlank(problem)
    requires parse(CleanReply(text)) == Some(ids)
    ensures (exists i :: 0 <= i < |ids| && HasId(corpus, ids[i])) ==>
      Search(problem, Some(corpus), AiText(text), parse) == Success(Recommend(ids, corpus))
    ensures (forall i :: 0 <= i < |ids| ==> !HasId(corpus, ids[i])) ==>
      Search(problem, Some(corpus), AiText(text), parse) == Success(KeywordRanking(problem, corpus))
  {
    TrimEmptyIffBlank(problem);
    var hits := Recommend(ids, corpus);
    assert AiStep(AiText(text), parse, corpus) == if |hits| > 0 then Some(hits) else None;
    RecommendEmptyIff(ids, corpus);
  }

  /** Every hit returned, from either path, names a corpus project. */
  lemma HitsComeFromCorpus(problem: string, corpus: seq<Project>, reply: AiReply, parse: ReplyParser, i: nat)
    requires Search(problem, Some(corpus), reply, parse).Success?
    requires i < |Search(problem, Some(corpus), reply, parse).data|
    ensures HasId(corpus, Search(problem, Some(corpus), reply, parse).data[i].id)
  {
    if Trim(problem) != [] {
      var ai := AiStep(reply, parse, corpus);
      if ai.Some? {
        assert Search(problem, Some(corpus), reply, parse).data == ai.value;
        AiHitFromCorpus(ai.value, corpus, i);
      } else {
        assert Search(problem, Some(corpus), reply, parse).data == KeywordRanking(problem, corpus);
        KeywordHitFromCorpus(problem, corpus, i);
      }
    }
  }

  /** A hit of the AI path was found by id. */
  lemma AiHitFromCorpus(hits: seq<ScoredProject>, corpus: seq<Project>, i: nat)
    requires forall k :: 0 <= k < |hits| ==> FindById(corpus, hits[k].id).Some?
    requires i < |hits|
    ensures HasId(corpus, hits[i].id)
  {
    assert FindById(corpus, hits[i].id).Some?;
  }

  /** A hit of the keyword path is the summary of a corpus project. */
  lemma KeywordHitFromCorpus(problem: string, corpus: seq<Project>, i: nat)
    requires i < |KeywordRanking(problem, corpus)|
    ensures HasId(corpus, KeywordRanking(problem, corpus)[i].id)
  {
    var data := KeywordRanking(problem, corpus);
    RankFromCorpus(Terms(problem), corpus, i);
    var j :| 0 <= j < |corpus| && data[i] == Summarize(corpus[j], KeywordScore(Terms(problem), corpus[j]));
    assert corpus[j].id == data[i].id;
  }

  /** The search as the server action runs it, with the keyword scoring loop. */
  method SearchProjectSolutions(problem: string, store: Option<seq<Project>>, reply: AiReply, parse: ReplyParser)
    returns (result: SearchResult)
    ensures result == Search(problem, store, reply, parse)
  {
    if Trim(problem) == [] {
      return Success([]);
    }
    if store.None? {
      return Failure(SearchFailed);
    }
    var corpus := store.value;
    var ai := AiStep(reply, parse, corpus);
    if ai.Some? {
      return Success(ai.value);
    }
    var ranked := RankByKeywords(problem, corpus);
    result := Success(ranked);
  }
}
