/**
 * The part of the AI path that is ordinary code: cleaning the model's reply and mapping the
 * returned project IDs back to the corpus. The model call and `JSON.parse` are not modelled;
 * the parse reaches this module as a function that may fail.
 */
module AiRecommender {
  import opened Options
  import opened Text
  import opened Seqs
  import opened Projects

  /** The fixed score every AI-selected project receives. */
  const AiScore := 100

  const Fence := "```"
  const JsonFence := "```json"

  // ---------------------------------------------------------------- reply cleaning

  /** `replace(/```json|```/g, "")`: left to right, "```json" tried before "```" at each position. */
  function StripFences(s: string): (r: string)
    ensures |r| <= |s|
    ensures s != [] && s[0] != '`' ==> r != [] && r[0] == s[0]
    decreases |s|
  {
    if StartsWith(s, JsonFence) then StripFences(s[|JsonFence|..])
    else if StartsWith(s, Fence) then StripFences(s[|Fence|..])
    else if s == [] then []
    else [s[0]] + StripFences(s[1..])
  }

  /** Three backticks start at position `i`. */
  predicate FenceAt(s: string, i: int) {
    0 <= i <= |s| - 3 && s[i] == '`' && s[i + 1] == '`' && s[i + 2] == '`'
  }

  predicate NoFence(s: string) {
    forall i :: 0 <= i <= |s| - 3 ==> !FenceAt(s, i)
  }

  /** After stripping, no three backticks remain anywhere, also none formed across a removed fence. */
  lemma {:induction false} StripFencesLeavesNoFence(s: string)
    ensures NoFence(StripFences(s))
    decreases |s|
  {
    if StartsWith(s, JsonFence) {
      StripFencesLeavesNoFence(s[|JsonFence|..]);
    } else if StartsWith(s, Fence) {
      StripFencesLeavesNoFence(s[|Fence|..]);
    } else if s != [] {
      var t := s[1..];
      var rest := StripFences(t);
      StripFencesLeavesNoFence(t);
      var r := StripFences(s);
      assert r == [s[0]] + rest;
      if s[0] == '`' && t != [] && t[0] == '`' {
        // `s` does not open with a fence, so a third backtick cannot follow the two.
        assert |t| == 1 || t[1] != '`';
        assert !StartsWith(t, JsonFence) && !StartsWith(t, Fence);
        assert rest == [t[0]] + StripFences(t[1..]);
        assert |rest| == 1 || rest[1] != '`';
      }
      assert !FenceAt(r, 0);
      forall i | 0 < i <= |r| - 3 ensures !FenceAt(r, i) {
        assert FenceAt(r, i) ==> FenceAt(rest, i - 1);
      }
    }
  }

  /** A reply without backticks is left as it is. */
  lemma {:induction false} StripFencesWithoutBackticks(s: string)
    requires forall i :: 0 <= i < |s| ==> s[i] != '`'
    ensures StripFences(s) == s
    decreases |s|
  {
    if s != [] {
      StripFencesPlainStep(s);
      StripFencesWithoutBackticks(s[1..]);
    }
  }

  /** A reply wrapped as "```json" … "```" loses both fences and its tag; what is between stays. */
  lemma StripFencesUnwrapsJson(body: string)
    requires forall i :: 0 <= i < |body| ==> body[i] != '`'
    ensures StripFences(JsonFence + body + Fence) == body
  {
    var s := JsonFence + (body + Fence);
    assert JsonFence + body + Fence == s;
    AppendHalves(JsonFence, body + Fence);
    StripFencesJsonStep(s);
    StripFencesBeforeClosing(body);
  }

  /**
   * A reply wrapped in bare "```" fences loses both fences. A body that starts with "json"
   * would instead lose that tag too, since "```json" is tried first.
   */
  lemma StripFencesUnwrapsBare(body: string)
    requires forall i :: 0 <= i < |body| ==> body[i] != '`'
    requires !StartsWith(body, "json")
    ensures StripFences(Fence + body + Fence) == body
  {
    var s := Fence + (body + Fence);
    assert Fence + body + Fence == s;
    AppendHalves(Fence, body + Fence);
    BareFenceNotJson(body);
    StripFencesFenceStep(s);
    StripFencesBeforeClosing(body);
  }

  /** At a "```json" the whole tagged fence goes. */
  lemma StripFencesJsonStep(s: string)
    requires StartsWith(s, JsonFence)
    ensures StripFences(s) == StripFences(s[|JsonFence|..])
  {
  }

  /** At a bare "```" the three backticks go. */
  lemma StripFencesFenceStep(s: string)
    requires StartsWith(s, Fence) && !StartsWith(s, JsonFence)
    ensures StripFences(s) == StripFences(s[|Fence|..])
  {
  }

  /** A body that does not start with "json" cannot make a bare fence look like "```json". */
  lemma BareFenceNotJson(body: string)
    requires !StartsWith(body, "json")
    ensures !StartsWith(Fence + body + Fence, JsonFence)
  {
    var s := Fence + body + Fence;
    if |body| >= 4 {
      assert s[3..7] == body[..4];
      assert JsonFence[3..7] == "json";
    } else if |s| >= 7 {
      var k := 3 + |body|;
      assert s[k] == '`';
      assert JsonFence[k] != '`';
    }
  }

  /** Text without backticks followed by a closing fence keeps the text and drops the fence. */
  lemma {:induction false} StripFencesBeforeClosing(body: string)
    requires forall i :: 0 <= i < |body| ==> body[i] != '`'
    ensures StripFences(body + Fence) == body
    decreases |body|
  {
    var s := body + Fence;
    if body == [] {
      assert s == Fence;
    } else {
      StripFencesPlainStep(s);
      assert s[1..] == body[1..] + Fence;
      StripFencesBeforeClosing(body[1..]);
    }
  }

  /** A character other than a backtick passes through and stripping goes on after it. */
  lemma StripFencesPlainStep(s: string)
    requires s != [] && s[0] != '`'
    ensures StripFences(s) == [s[0]] + StripFences(s[1..])
  {
    assert !StartsWith(s, Fence) && !StartsWith(s, JsonFence) by {
      assert |s| < |Fence| || s[..|Fence|][0] == s[0];
      assert |s| < |JsonFence| || s[..|JsonFence|][0] == s[0];
    }
  }

  /** The text handed to the JSON parser: fences removed, then trimmed at both ends. */
  function CleanReply(text: string): (cleaned: string)
    ensures |cleaned| <= |text|
    ensures cleaned == [] || (!IsSpace(cleaned[0]) && !IsSpace(cleaned[|cleaned| - 1]))
  {
    Trim(StripFences(text))
  }

  /** A "```json"-fenced reply hands the parser the body, trimmed. */
  lemma CleanReplyUnwrapsJson(body: string)
    requires forall i :: 0 <= i < |body| ==> body[i] != '`'
    ensures CleanReply(JsonFence + body + Fence) == Trim(body)
  {
    StripFencesUnwrapsJson(body);
  }

  /** A reply in bare fences hands the parser the body, trimmed, unless the body starts with "json". */
  lemma CleanReplyUnwrapsBare(body: string)
    requires forall i :: 0 <= i < |body| ==> body[i] != '`'
    requires !StartsWith(body, "json")
    ensures CleanReply(Fence + body + Fence) == Trim(body)
  {
    StripFencesUnwrapsBare(body);
  }

  // ---------------------------------------------------------------- ID mapping

  /** Index `i` holds the first corpus project with this id. */
  predicate FirstWithId(corpus: seq<Project>, id: string, i: int) {
    && 0 <= i < |corpus|
    && corpus[i].id == id
    && forall j :: 0 <= j < i ==> corpus[j].id != id
  }

  /** `projects.find(p => p.id === id)`: the first project with that id. */
  function FindById(corpus: seq<Project>, id: string): (r: Option<Project>)
    ensures r.None? <==> !HasId(corpus, id)
    ensures r.Some? ==> exists i :: FirstWithId(corpus, id, i) && corpus[i] == r.value
    decreases |corpus|
  {
    if corpus == [] then None
    else if corpus[0].id == id then
      assert FirstWithId(corpus, id, 0);
      Some(corpus[0])
    else
      var r := FindById(corpus[1..], id);
      FindByIdStep(corpus, id, r);
      r
  }

  /** What the search in the tail tells about the whole corpus when the head does not match. */
  lemma FindByIdStep(corpus: seq<Project>, id: string, r: Option<Project>)
    requires corpus != [] && corpus[0].id != id
    requires r.None? <==> !HasId(corpus[1..], id)
    requires r.Some? ==> exists i :: FirstWithId(corpus[1..], id, i) && corpus[1..][i] == r.value
    ensures r.None? <==> !HasId(corpus, id)
    ensures r.Some? ==> exists i :: FirstWithId(corpus, id, i) && corpus[i] == r.value
  {
    forall i | 1 <= i < |corpus| ensures corpus[i] == corpus[1..][i - 1] { }
    if r.Some? {
      var i :| FirstWithId(corpus[1..], id, i) && corpus[1..][i] == r.value;
      assert FirstWithId(corpus, id, i + 1);
    }
  }

  /** The ids that name some corpus project. */
  function KnownIn(corpus: seq<Project>): string -> bool {
    id => HasId(corpus, id)
  }

  /** `ids.map(find).filter(Boolean).map(p => ({ ...summary, score: 100 }))`. */
  function Recommend(ids: seq<string>, corpus: seq<Project>): (hits: seq<ScoredProject>)
    ensures |hits| <= |ids|
    ensures forall i :: 0 <= i < |hits| ==>
      && hits[i].score == AiScore
      && FindById(corpus, hits[i].id).Some?
      && hits[i] == Summarize(FindById(corpus, hits[i].id).value, AiScore)
    decreases |ids|
  {
    if ids == [] then [] else RecommendOne(ids[0], corpus) + Recommend(ids[1..], corpus)
  }

  /** The hit for one returned id: its project's summary, or nothing for an unknown id. */
  function RecommendOne(id: string, corpus: seq<Project>): (hit: seq<ScoredProject>)
    ensures |hit| <= 1
    ensures forall i :: 0 <= i < |hit| ==>
      && hit[i].score == AiScore
      && FindById(corpus, hit[i].id).Some?
      && hit[i] == Summarize(FindById(corpus, hit[i].id).value, AiScore)
  {
    match FindById(corpus, id)
    case Some(p) =>
      var i :| FirstWithId(corpus, id, i) && corpus[i] == p;
      assert Summarize(p, AiScore).id == id;
      [Summarize(p, AiScore)]
    case None => []
  }

  /** The hits list, in the returned order, exactly the returned ids that name a corpus project. */
  lemma {:induction false} RecommendKeepsKnownIds(ids: seq<string>, corpus: seq<Project>)
    ensures IdsOf(Recommend(ids, corpus)) == Filter(KnownIn(corpus), ids)
    decreases |ids|
  {
    if ids != [] {
      RecommendKeepsKnownIds(ids[1..], corpus);
      IdsOfAppend(RecommendOne(ids[0], corpus), Recommend(ids[1..], corpus));
      RecommendOneId(ids[0], corpus);
    }
  }

  lemma RecommendOneId(id: string, corpus: seq<Project>)
    ensures IdsOf(RecommendOne(id, corpus)) == if KnownIn(corpus)(id) then [id] else []
  {
    match FindById(corpus, id)
    case Some(p) =>
      var i :| FirstWithId(corpus, id, i) && corpus[i] == p;
    case None =>
  }

  lemma IdsOfAppend(a: seq<ScoredProject>, b: seq<ScoredProject>)
    ensures IdsOf(a + b) == IdsOf(a) + IdsOf(b)
  {
  }

  /** No hit survives exactly when no returned id names a corpus project. */
  lemma RecommendEmptyIff(ids: seq<string>, corpus: seq<Project>)
    ensures Recommend(ids, corpus) == [] <==> forall i :: 0 <= i < |ids| ==> !HasId(corpus, ids[i])
  {
    RecommendKeepsKnownIds(ids, corpus);
    var kept := Filter(KnownIn(corpus), ids);
    if exists i :: 0 <= i < |ids| && HasId(corpus, ids[i]) {
      var i :| 0 <= i < |ids| && HasId(corpus, ids[i]);
      FilterHas(KnownIn(corpus), ids, ids[i]);
      assert ids[i] in kept;
    } else {
      FilterNoneKept(KnownIn(corpus), ids);
    }
  }
}
