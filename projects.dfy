/** What the solution search reads and returns about a project. */
module Projects {

  /** An approved project as loaded for one search, with its category names. */
  datatype Project = Project(
    id: string, title: string, slug: string, description: string, categoryNames: seq<string>)

  /** A search hit: the project's summary and a relevance score. */
  datatype ScoredProject = ScoredProject(
    id: string, title: string, slug: string, description: string, score: int)

  function Summarize(p: Project, score: int): (s: ScoredProject)
    ensures s.id == p.id && s.score == score
  {
    ScoredProject(p.id, p.title, p.slug, p.description, score)
  }

  /** Some corpus project carries this id. */
  predicate HasId(corpus: seq<Project>, id: string) {
    exists i :: 0 <= i < |corpus| && corpus[i].id == id
  }

  function IdsOf(hits: seq<ScoredProject>): (ids: seq<string>)
    ensures |ids| == |hits|
    ensures forall i :: 0 <= i < |hits| ==> ids[i] == hits[i].id
  {
    seq(|hits|, i requires 0 <= i < |hits| => hits[i].id)
  }
}
