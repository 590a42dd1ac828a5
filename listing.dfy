/**
 * The query parameters of the approved-projects listing: the filter it builds, the
 * `sortBy` order, paging arithmetic and the per-project vote tallies.
 */
module Listing {
  import opened Options
  import opened Text

  /** The caller's listing options; `Defaults` holds the destructuring defaults. */
  datatype ListingParams = ListingParams(
    search: string, categoryIds: seq<string>, sortBy: string, page: int, pageSize: int)

  const Defaults := ListingParams("", [], "newest", 1, 6)

  /** The order a listing is sorted in. */
  datatype SortOrder = CreatedAtDesc | CreatedAtAsc | TitleAsc

  /**
   * The project filter: always the status, then optionally a case-insensitive text match on
   * title, description or author name, and optionally "in one of these categories".
   */
  datatype ProjectFilter = ProjectFilter(
    status: string, textMatch: Option<string>, inCategories: Option<seq<string>>)

  datatype ListingQuery = ListingQuery(
    filter: ProjectFilter, orderBy: SortOrder, skip: int, take: int)

  const ApprovedStatus := "APPROVED"

  /** Number of items on the pages before `page`. */
  function Skip(page: int, pageSize: int): (skip: int)
    ensures page == 1 ==> skip == 0
    ensures page >= 1 && pageSize >= 0 ==> skip >= 0
  {
    (page - 1) * pageSize
  }

  /** Builds the listing query the way the server action does, one field at a time. */
  method BuildListingQuery(p: ListingParams) returns (q: ListingQuery)
    ensures q.filter.status == ApprovedStatus
    ensures q.filter.textMatch == if IsBlank(p.search) then None else Some(p.search)
    ensures q.filter.inCategories == if p.categoryIds == [] then None else Some(p.categoryIds)
    ensures q.orderBy == CreatedAtAsc <==> p.sortBy == "oldest"
    ensures q.orderBy == TitleAsc <==> p.sortBy == "alphabetical"
    ensures q.orderBy == CreatedAtDesc <==> p.sortBy != "oldest" && p.sortBy != "alphabetical"
    ensures q.skip == Skip(p.page, p.pageSize) && q.take == p.pageSize
  {
    var skip := Skip(p.page, p.pageSize);
    var filter := ProjectFilter(ApprovedStatus, None, None);
    TrimEmptyIffBlank(p.search);
    if Trim(p.search) != [] {
      filter := filter.(textMatch := Some(p.search));
    }
    if |p.categoryIds| > 0 {
      filter := filter.(inCategories := Some(p.categoryIds));
    }
    var orderBy := CreatedAtDesc;
    if p.sortBy == "oldest" {
      orderBy := CreatedAtAsc;
    } else if p.sortBy == "alphabetical" {
      orderBy := TitleAsc;
    }
    q := ListingQuery(filter, orderBy, skip, p.pageSize);
  }

  /** The listing with every option left at its default: approved projects, newest first, the first six. */
  method DefaultListingQuery() returns (q: ListingQuery)
    ensures q == ListingQuery(ProjectFilter(ApprovedStatus, None, None), CreatedAtDesc, 0, 6)
  {
    q := BuildListingQuery(Defaults);
  }

  /** Pages partition the listing: item `k` (from 0) is on page `page` exactly when `page` is `k / pageSize + 1`. */
  lemma PageOfItem(page: int, pageSize: int, k: nat)
    requires pageSize > 0
    ensures Skip(page, pageSize) <= k < Skip(page, pageSize) + pageSize <==> page == k / pageSize + 1
  {
    var p := k / pageSize + 1;
    ItemOnItsPage(pageSize, k);
    if page < p {
      PagesBefore(page, p, pageSize);
    } else if page > p {
      PagesBefore(p, page, pageSize);
    }
  }

  lemma ItemOnItsPage(pageSize: int, k: nat)
    requires pageSize > 0
    ensures Skip(k / pageSize + 1, pageSize) <= k < Skip(k / pageSize + 1, pageSize) + pageSize
  {
    assert Skip(k / pageSize + 1, pageSize) == (k / pageSize) * pageSize;
  }

  /** An earlier page ends no later than a later page starts. */
  lemma PagesBefore(a: int, b: int, pageSize: int)
    requires a < b && pageSize > 0
    ensures Skip(a, pageSize) + pageSize <= Skip(b, pageSize)
  {
    MulMonotone(a, b - 1, pageSize);
    assert Skip(a, pageSize) + pageSize == a * pageSize;
  }

  lemma MulMonotone(a: int, b: int, c: nat)
    requires a <= b
    ensures a * c <= b * c
  {
    assert b * c - a * c == (b - a) * c;
  }

  /** `Math.ceil(totalCount / pageSize)` for a positive page size: the fewest pages that hold every item. */
  function TotalPages(totalCount: nat, pageSize: int): (n: nat)
    requires pageSize > 0
    ensures n * pageSize >= totalCount
    ensures n == 0 || (n - 1) * pageSize < totalCount
  {
    var n := (totalCount + pageSize - 1) / pageSize;
    assert (n - 1) * pageSize < totalCount by {
      assert n * pageSize <= totalCount + pageSize - 1;
      assert (n - 1) * pageSize == n * pageSize - pageSize;
    }
    assert n * pageSize >= totalCount by {
      assert totalCount + pageSize - 1 < (n + 1) * pageSize;
      assert (n + 1) * pageSize == n * pageSize + pageSize;
    }
    n
  }

  /** Every item index lies on some page up to `TotalPages`, and the last page is not empty. */
  lemma TotalPagesCoversItems(totalCount: nat, pageSize: int, k: nat)
    requires pageSize > 0 && k < totalCount
    ensures k / pageSize + 1 <= TotalPages(totalCount, pageSize)
    ensures Skip(TotalPages(totalCount, pageSize), pageSize) < totalCount
  {
    var n := TotalPages(totalCount, pageSize);
    var p := k / pageSize + 1;
    PageOfItem(p, pageSize, k);
    if n < p {
      MulMonotone(n, p - 1, pageSize);
    }
  }

  // ---------------------------------------------------------------- vote tallies

  /** One row of the vote `groupBy`: how many votes of `value` a project has. */
  datatype VoteGroup = VoteGroup(projectId: string, value: int, count: nat)

  /** `groups.find(v => v.projectId === id && v.value === value)?._count || 0`. */
  function VoteCount(groups: seq<VoteGroup>, projectId: string, value: int): (n: nat)
    ensures (forall i :: 0 <= i < |groups| ==> groups[i].projectId != projectId || groups[i].value != value) ==> n == 0
    decreases |groups|
  {
    if groups == [] then 0
    else if groups[0].projectId == projectId && groups[0].value == value then groups[0].count
    else VoteCount(groups[1..], projectId, value)
  }

  /** `groupBy` yields at most one row per project and vote value. */
  predicate KeysUnique(groups: seq<VoteGroup>) {
    forall i, j :: 0 <= i < j < |groups| ==>
      groups[i].projectId != groups[j].projectId || groups[i].value != groups[j].value
  }

  /** With unique keys the lookup returns the tally of the one matching row. */
  lemma {:induction false} VoteCountOfGroup(groups: seq<VoteGroup>, i: nat)
    requires KeysUnique(groups) && i < |groups|
    ensures VoteCount(groups, groups[i].projectId, groups[i].value) == groups[i].count
    decreases |groups|
  {
    if i > 0 {
      assert KeysUnique(groups[1..]);
      assert groups[1..][i - 1] == groups[i];
      VoteCountOfGroup(groups[1..], i - 1);
    }
  }

  datatype VoteStats = VoteStats(upvotes: nat, downvotes: nat)

  /** The tallies shown with a project: votes of value 1 and of value -1. */
  function StatsFor(groups: seq<VoteGroup>, projectId: string): (stats: VoteStats)
    ensures (forall i :: 0 <= i < |groups| ==> groups[i].projectId != projectId) ==> stats == VoteStats(0, 0)
  {
    VoteStats(VoteCount(groups, projectId, 1), VoteCount(groups, projectId, -1))
  }

  /** A project's upvote and downvote rows are what its stats show. */
  lemma StatsOfGroup(groups: seq<VoteGroup>, i: nat)
    requires KeysUnique(groups) && i < |groups|
    ensures groups[i].value == 1 ==> StatsFor(groups, groups[i].projectId).upvotes == groups[i].count
    ensures groups[i].value == -1 ==> StatsFor(groups, groups[i].projectId).downvotes == groups[i].count
  {
    VoteCountOfGroup(groups, i);
  }
}
