# DevShowcase solution search, chat scout and category picker — a Dafny model

DevShowcase is a project showcase: builders submit projects, approved projects are listed
with paging, sorting, category filters and vote tallies, and a chat widget ("Project Scout")
lets a visitor describe a problem and get back projects that may solve it. This model covers
the logic of that path:

- the **solution search** (`searchProjectSolutions`): a blank problem returns an empty
  success at once; otherwise the approved corpus is loaded, an AI recommendation is tried
  when an API key is configured (the reply is stripped of Markdown fences, trimmed, parsed as
  a list of ids and mapped back to corpus projects with the fixed score 100), and the keyword
  ranking answers whenever the AI path is skipped, throws or maps to no project. The keyword
  ranking lowercases the problem, splits it on white-space runs, keeps tokens longer than two
  characters, scores each project 10 / 5 / 8 per term found as a substring of its title /
  description / any category name, drops zero scores, sorts by descending score (stably) and
  keeps three;
- the **listing parameters** of `getApprovedProjects`: the defaults, the filter it builds,
  the `sortBy` to order mapping, `skip`, `totalPages` and the vote-count lookup, plus the
  category slug written out in three places;
- the **chat widget's conversation** as a class whose fields are the transcript, the text box
  and the in-flight flag. `handleSend` is split at its `await` into `Send` and `Complete`, so
  the model can express a second send arriving while the first search is in flight;
- the **category picker's** selection edits: the selected categories, toggling and removal.

Modules: `Options` and `Seqs` (option type, order-preserving filter), `Text` (JavaScript's
white space, `trim`, `toLowerCase`, `includes`, `split(/\s+/)`, number to string), `Slug`,
`Listing`, `Projects`, `KeywordRanker`, `AiRecommender`, `SolutionSearch`, `Chat`,
`CategorySelect`.

## Behaviour worth noting

- The AI path is not capped at three results: every returned id that names a corpus project
  is kept, so a reply with more ids gives more hits (`AiRecommender.Recommend` only bounds the
  hits by the number of ids). Only the keyword ranking keeps at most three.
- A search that returns no match, or returns `success: false`, is answered with the
  "explore our categories" message carrying an empty project list (`projects: []`); only a
  thrown search leaves the list out (`Chat.Reply`).
- When no term survives, the keyword path still scores every project (all scores are 0 and
  are filtered out); the result is the same empty list (`KeywordRanker.NoTermsNoResults`).
- The text filter of the listing matches the title, the description and the author's full
  name.

## Model

| member | source | states |
|---|---|---|
| Text.TrimEmptyIffBlank | src/actions/project-action.ts:234 | `!s.trim()` holds exactly when every character of `s` is JavaScript white space |
| Text.TrimsToEmpty | src/components/chat-bot.tsx:51 | the guard `!input.trim()` holds exactly for a blank box |
| Text.Trim | src/actions/project-action.ts:264 | the trimmed text is no longer than the input and is empty or starts and ends with a non-space character |
| Text.TrimKeepsMiddle | src/actions/project-action.ts:264 | the trimmed text is the stretch of the input between a blank prefix and a blank suffix, every character in between kept |
| Text.Split | src/actions/project-action.ts:294 | `split(/\s+/)` returns at least one field, no field holds white space, only the first and last may be empty, there is more than one field exactly when the text holds white space, and the first field is the text up to the first white space |
| Text.SplitKeepsNonSpace | src/actions/project-action.ts:294 | joining the fields gives back the text with only its white space removed |
| Text.SplitRebuilds | src/actions/project-action.ts:294 | `split(/\s+/)` cuts exactly at the white-space runs: there are non-empty runs of white space, one fewer than the fields, that put back between the fields give the input |
| Text.Lower | src/actions/project-action.ts:293 | the length is kept, no capital letter remains, each capital becomes its small letter and every other character is kept |
| Text.Contains | src/actions/project-action.ts:302-306 | a contained term is no longer than the field, and the empty term is contained in every field |
| Text.ContainsIffOccurs | src/actions/project-action.ts:302-306 | the scanning `includes` holds exactly when the term occurs at some position of the field |
| Text.NatToStringRoundTrip | src/components/chat-bot.tsx:71 | the decimal digits written for a count read back as that count |
| Slug.Dashify | src/actions/project-action.ts:108 | `replace(/[^a-z0-9]+/g, "-")` yields only `[a-z0-9-]` with no two dashes in a row, keeps a leading letter or digit, and is empty only for empty input |
| Slug.CategorySlug | src/actions/project-action.ts:147 | the category slug is well formed and no longer than the name |
| Slug.DashifyShorter | src/actions/project-action.ts:108 | replacing runs by one dash never lengthens the text |
| Slug.DashifyKeepsAlnum | src/actions/project-action.ts:108 | every letter and digit survives, in order; only separator runs are rewritten |
| Slug.DashifyOfSlug | src/actions/project-action.ts:108 | a well-formed slug is left unchanged |
| Slug.DashifyWord | src/actions/project-action.ts:108 | a text of letters and digits only is copied unchanged |
| Slug.DashifyAfterWord | src/actions/project-action.ts:108 | a leading word of letters and digits is copied and the rest is rewritten on its own |
| Slug.DashifyRun | src/actions/project-action.ts:108 | a maximal run of characters outside `[a-z0-9]` between a word and what follows becomes exactly one dash, in its place |
| Slug.LowerOfSlug | src/actions/project-action.ts:108 | lowercasing leaves a well-formed slug unchanged |
| Slug.SlugIdempotent | src/actions/project-action.ts:213 | the slug of a slug is the slug itself |
| Slug.SlugKeepsAlnum | src/actions/project-action.ts:147 | the slug holds exactly the lowercased name's letters and digits, in order |
| Listing.BuildListingQuery | src/actions/project-action.ts:17-44 | the status is always "APPROVED"; the text filter is present exactly for a non-blank search; the category filter exactly for a non-empty id list; "oldest" gives creation date ascending, "alphabetical" title ascending, anything else creation date descending; skip is `(page-1)*pageSize` and take is `pageSize` |
| Listing.DefaultListingQuery | src/actions/project-action.ts:9-44 | with every option at its default the query lists approved projects, newest first, skipping none and taking six |
| Listing.Skip | src/actions/project-action.ts:17 | page 1 skips nothing, and no page from 1 on skips a negative number of items |
| Listing.PageOfItem | src/actions/project-action.ts:17 | item `k` falls in the window of page `page` exactly when `page == k / pageSize + 1` |
| Listing.TotalPages | src/actions/project-action.ts:126 | `Math.ceil(totalCount / pageSize)` is the fewest pages whose windows hold every item |
| Listing.TotalPagesCoversItems | src/actions/project-action.ts:126 | every item lies on a page no later than the last page, and the last page's window starts before the end |
| Listing.VoteCount | src/actions/project-action.ts:85-90 | with no row for that project and vote value the tally is 0 |
| Listing.VoteCountOfGroup | src/actions/project-action.ts:76-90 | with one row per project and value, the lookup returns that row's count |
| Listing.StatsFor | src/actions/project-action.ts:85-90 | a project without vote rows shows 0 upvotes and 0 downvotes |
| Listing.StatsOfGroup | src/actions/project-action.ts:85-90 | with one row per project and value, the upvotes shown are the count of the value-1 row and the downvotes the count of the value-minus-1 row |
| KeywordRanker.TermsAreLongTokens | src/actions/project-action.ts:292-295 | a term is exactly a field of the lowercased problem longer than two characters, and holds no white space |
| KeywordRanker.Terms | src/actions/project-action.ts:292-295 | every term is longer than two characters and holds no white space |
| KeywordRanker.ShortTokenIgnored | src/actions/project-action.ts:295 | a token of at most two characters, wherever it stands, changes no term |
| KeywordRanker.HitCount | src/actions/project-action.ts:301-310 | no more terms hit a field than there are terms |
| KeywordRanker.ScoreProject | src/actions/project-action.ts:299-310 | the `forEach` loop's score equals the per-term score summed over all terms |
| KeywordRanker.ScoreByField | src/actions/project-action.ts:301-309 | the score is 10, 5 and 8 times the number of terms hitting title, description and category names |
| KeywordRanker.KeywordScore | src/actions/project-action.ts:299-310 | the score of a project is at most 23 per term |
| KeywordRanker.SingleFieldScore | src/actions/project-action.ts:301-309 | a project hit in one field only scores that field's weight times the number of hitting terms |
| KeywordRanker.TermScore | src/actions/project-action.ts:301-309 | one term adds at most 10 + 5 + 8, and adds something exactly when it hits the title, the description or a category name |
| KeywordRanker.ScorePositiveIff | src/actions/project-action.ts:301-320 | a project survives the zero-score filter exactly when some term hits one of its fields |
| KeywordRanker.InventoryExample | src/actions/project-action.ts:297-310 | the terms "inventory" and "tracking" score 10 against "Inventory Manager" / "track stock levels": only the title matches, "tracking" is not in the description |
| KeywordRanker.Insert | src/actions/project-action.ts:321 | one insertion step of the sort grows the list by one |
| KeywordRanker.SortByScore | src/actions/project-action.ts:321 | the sort keeps the length |
| KeywordRanker.InsertPermutes | src/actions/project-action.ts:321 | an insertion adds exactly the inserted element |
| KeywordRanker.InsertSorted | src/actions/project-action.ts:321 | inserting into a descending list keeps it descending |
| KeywordRanker.InsertStable | src/actions/project-action.ts:321 | the inserted element lands after every element of equal score |
| KeywordRanker.SortSortsAndPermutes | src/actions/project-action.ts:321 | `sort((a, b) => b.score - a.score)` returns a descending permutation of its input |
| KeywordRanker.SortStable | src/actions/project-action.ts:321 | elements of equal score keep their input order |
| KeywordRanker.Rank | src/actions/project-action.ts:320-322 | filter, sort and slice keep at most three results |
| KeywordRanker.RankPositive | src/actions/project-action.ts:320-322 | every kept result has a positive score |
| KeywordRanker.KeywordRanking | src/actions/project-action.ts:292-322 | the keyword fallback answers with at most three results, each with a positive score |
| KeywordRanker.RankLength | src/actions/project-action.ts:320-322 | the ranking has three results, or all matches when fewer than three projects score above zero |
| KeywordRanker.RankSorted | src/actions/project-action.ts:321-322 | results come in non-increasing score order |
| KeywordRanker.RankFromCorpus | src/actions/project-action.ts:297-322 | every result has a positive score and is the summary of a corpus project with its keyword score |
| KeywordRanker.RankStable | src/actions/project-action.ts:321-322 | for every score, the results with that score are a prefix of the matches with that score in corpus order |
| KeywordRanker.RankIsTop | src/actions/project-action.ts:321-322 | no match left out scores above any result kept |
| KeywordRanker.RankNonEmpty | src/actions/project-action.ts:320-322 | as soon as one term hits one project the ranking is not empty |
| KeywordRanker.NoTermsNoResults | src/actions/project-action.ts:292-322 | without terms nothing is returned |
| KeywordRanker.RankByKeywords | src/actions/project-action.ts:292-322 | the scoring loop over the corpus followed by filter, sort and slice computes the keyword ranking |
| AiRecommender.StripFences | src/actions/project-action.ts:264 | removing fences never lengthens the reply and keeps a first character that is not a backtick |
| AiRecommender.StripFencesLeavesNoFence | src/actions/project-action.ts:264 | after `replace(/```json\|```/g, "")` no three backticks remain anywhere |
| AiRecommender.StripFencesWithoutBackticks | src/actions/project-action.ts:264 | a reply without backticks is left unchanged |
| AiRecommender.StripFencesUnwrapsJson | src/actions/project-action.ts:264 | a reply "```json" + body + "```" with no backtick in the body is cleaned to exactly the body |
| AiRecommender.StripFencesUnwrapsBare | src/actions/project-action.ts:264 | a reply "```" + body + "```" with no backtick in the body, and a body not starting with "json", is cleaned to exactly the body |
| AiRecommender.CleanReply | src/actions/project-action.ts:264 | the cleaned reply is no longer than the reply and is empty or starts and ends with a non-space character |
| AiRecommender.CleanReplyUnwrapsJson | src/actions/project-action.ts:264-266 | for a reply "```json" + body + "```" without other backticks, the parser is handed the body, trimmed |
| AiRecommender.CleanReplyUnwrapsBare | src/actions/project-action.ts:264-266 | for a reply "```" + body + "```" without other backticks and a body not starting with "json", the parser is handed the body, trimmed |
| AiRecommender.FindById | src/actions/project-action.ts:270 | `find` returns nothing exactly when no project has the id, and otherwise the first project with it |
| AiRecommender.Recommend | src/actions/project-action.ts:269-278 | there are no more hits than ids; every hit has score 100 and is the summary of the first corpus project with its id |
| AiRecommender.RecommendOne | src/actions/project-action.ts:270-278 | one id yields at most one hit, the summary of its project with score 100 |
| AiRecommender.RecommendKeepsKnownIds | src/actions/project-action.ts:269-278 | the hits' ids are exactly the returned ids that name a corpus project, in the returned order, duplicates included |
| AiRecommender.RecommendEmptyIff | src/actions/project-action.ts:269-282 | the mapping is empty exactly when no returned id names a corpus project |
| SolutionSearch.AiStep | src/actions/project-action.ts:245-289 | the AI path answers only with a non-empty hit list, and only for a reply text whose cleaned form parses, with the mapping of the parsed ids |
| SolutionSearch.Search | src/actions/project-action.ts:232-329 | a loaded corpus always gives a success; a failure carries "Failed to find solutions"; every hit of a success has a positive score |
| SolutionSearch.BlankProblemShortCircuits | src/actions/project-action.ts:234 | a blank problem yields an empty success whatever the store and the AI would do |
| SolutionSearch.FailureOnlyFromStore | src/actions/project-action.ts:236-328 | the search fails exactly for a non-blank problem whose corpus load fails, and then reports "Failed to find solutions" |
| SolutionSearch.NoAiMeansKeywords | src/actions/project-action.ts:243-324 | with no API key, or when the model call throws, the answer is the keyword ranking unchanged |
| SolutionSearch.ParseFailureMeansKeywords | src/actions/project-action.ts:264-288 | a reply that does not parse falls back to the keyword ranking |
| SolutionSearch.ParsedReplyPolicy | src/actions/project-action.ts:269-289 | a parsed reply answers with its mapping when one id names a corpus project, and falls back to the keyword ranking when none does |
| SolutionSearch.HitsComeFromCorpus | src/actions/project-action.ts:269-322 | every hit from either path carries the id of a corpus project |
| SolutionSearch.SearchProjectSolutions | src/actions/project-action.ts:232-329 | the server action, with the scoring loop, yields the search result |
| Chat.FoundTextCount | src/components/chat-bot.tsx:71 | the count in "I found N projects ..." reads back as the number of projects attached |
| Chat.Reply | src/components/chat-bot.tsx:66-86 | the reply is the bot's; it carries no project list exactly when the search threw, the hits when it succeeded and an empty list when it failed; the text is the trouble text for a throw, the no-match text for a failure or no hits, and the found-count text otherwise |
| Chat.AlternatesAppend | src/components/chat-bot.tsx:59-87 | appending the message of the side whose turn it is keeps the greeting-then-alternating transcript and flips the in-flight flag |
| Chat.ChatBot.constructor | src/components/chat-bot.tsx:32-40 | the transcript starts with the greeting alone, the box is empty and no search is in flight |
| Chat.ChatBot.SetInput | src/components/chat-bot.tsx:202 | typing replaces the box's text and nothing else |
| Chat.ChatBot.Send | src/components/chat-bot.tsx:49-64 | a send is accepted exactly when the box is not blank and no search is in flight; a rejected send changes nothing; an accepted one appends the user's message, clears the box, raises the flag and searches for the old box text |
| Chat.ChatBot.Complete | src/components/chat-bot.tsx:63-87 | when the search resolves exactly one bot message is appended and the flag is lowered: the found-count text with the hits, the no-match text with an empty list for no hits or a failure, the trouble text with no list when the search throws |
| Chat.SendWhileAwaitingIsIgnored | src/components/chat-bot.tsx:49-64 | a second send while the bot is still typing is refused; the transcript then holds only the greeting, the first question and the reply that answers it |
| CategorySelect.SelectedCategories | src/components/category-multi-select.tsx:60 | no more categories are shown than were loaded, and each shown category's id is in the value |
| CategorySelect.ToggleCategory | src/components/category-multi-select.tsx:62-68 | the toggled id is in the new value exactly when it was not in the old one |
| CategorySelect.RemoveCategory | src/components/category-multi-select.tsx:70-72 | the new value is no longer than the old one and holds no copy of the removed id |
| CategorySelect.SelectedSpec | src/components/category-multi-select.tsx:60 | a category is shown as selected exactly when it was loaded and its id is in the value |
| CategorySelect.SelectedAppend | src/components/category-multi-select.tsx:60 | the selected categories keep the loaded order |
| CategorySelect.SelectedAfterRemove | src/components/category-multi-select.tsx:60-72 | after a removal the removed id's categories are no longer shown and all others still are |
| CategorySelect.RemoveSpec | src/components/category-multi-select.tsx:70-72 | removal drops every occurrence of the id and keeps every occurrence of every other id |
| CategorySelect.RemoveLength | src/components/category-multi-select.tsx:71 | removal shortens the value by the number of occurrences of the id |
| CategorySelect.RemoveAppend | src/components/category-multi-select.tsx:71 | removal works piece by piece, so the kept ids keep their order |
| CategorySelect.RemoveAbsent | src/components/category-multi-select.tsx:71 | removing an id that is not selected changes nothing |
| CategorySelect.RemoveIdempotent | src/components/category-multi-select.tsx:70-72 | removing twice is removing once |
| CategorySelect.ToggleFlips | src/components/category-multi-select.tsx:62-68 | a toggle flips whether its id is selected and leaves every other id's selection as it was |
| CategorySelect.ToggleTwiceAbsent | src/components/category-multi-select.tsx:62-68 | toggling an unselected id twice gives back the original value |
| CategorySelect.ToggleTwicePresent | src/components/category-multi-select.tsx:62-68 | toggling a selected id twice leaves one copy of it, moved to the end |
| Seqs.FilterHas | src/actions/project-action.ts:320 | an element survives `filter` exactly when it occurs in the input and passes the test |
| Seqs.FilterMultiset | src/components/category-multi-select.tsx:71 | `filter` keeps exactly the occurrences that pass the test |

## Left out

- Database access (Prisma `findMany`, `count`, `groupBy`) is not modelled: the corpus load is the parameter `store` of the search (`None` when it throws), and vote rows are a parameter of the vote lookup.
- How the database evaluates the listing filter (case-insensitive `contains`, `some`/`in` on categories, ordering, skip and take) is not modelled; only the query the action builds is.
- The listing's result formatting (dates as ISO strings, author fields, comment counts, the constant "approved" status) and its catch branch returning "Failed to fetch projects" hold no logic beyond the database calls and are left out.
- `getCategories` and `getProjectBySlug` are not modelled beyond the slug expression they share.
- The model call (client, model name, prompt text, reply transport) is an external service: its outcome is the `AiReply` parameter (no key, threw, or reply text).
- `JSON.parse` is the `ReplyParser` parameter: it returns `None` for any cleaned reply that does not parse or is not an array. Array elements that are not strings are not modelled (in the source they never equal a project id and are dropped).
- Logging (`console.log`, `console.error`) is left out.
- KeywordRanker.IsTerm: a token's length counts Unicode scalar values (Dafny characters), while JavaScript's `t.length` counts UTF-16 code units; a character above U+FFFF counts as two there, so tokens such as "🚀a" (length 3 in JavaScript) or "😀😀" (length 4) are kept by the source but dropped by the model.
- Text.Lower: lowercases ASCII letters only; JavaScript's `toLowerCase` also maps non-ASCII letters, so results differ for names or problems with non-ASCII capitals.
- Listing.TotalPages: requires a positive page size, because for 0 or a negative size JavaScript's division gives Infinity, NaN or a negative page count, which the model does not represent.
- Listing.Skip: JavaScript numbers are doubles; the model uses unbounded integers, so fractional or huge `page` and `pageSize` values are not represented.
- Message ids (`Date.now()`) are left out of chat messages; they play no part in the conversation's logic.
- The chat widget's rendering, open/close state, auto-scroll effect, the send button's disabled state (which mirrors the `Send` guard) and `preventDefault` are user-interface behaviour and are left out; React's state updates are modelled as taking effect immediately, in program order.
- The category picker's category fetch, loading flag, dropdown state and click-outside handler are user-interface behaviour and are left out.
- Concurrent searches from several chat sessions are not modelled; each search is a function of its inputs and shares no state.
- The outer catch of the search is reached in the model only by a failing corpus load: the keyword fallback is a total function and cannot throw.
