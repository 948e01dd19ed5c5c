# tmickleydoyle-website: a Dafny model of the site's server and chart logic

This project models the parts of the personal site that compute something:

- the chat endpoint that forwards a visitor's question to the Ollama chat API;
- the assistant's dynamic context, cached in memory for ten minutes;
- the GitHub REST helpers;
- the best-effort LinkedIn page scraper;
- the two API routes and two chart components that turn GitHub data into bar charts.

The model describes what each part does and proves properties about it.

The outside world is passed in as parameters:

- An HTTP exchange is a `Fetch` value (`Http.Fetch`): either the call threw with a message, or the server answered with a status, a status text and a decoded body.
- Environment variables are a map (`Http.Env`).
- The clock is explicit. The context builder reads it twice, once on entry and once after the rebuild, so both readings are parameters.
- The summary file is an `Option<string>`.
- `JSON.parse` of a JSON-LD block and Node's `Buffer` codecs are function parameters.

Modules, one per source file plus three shared ones:

| module | file | models |
|---|---|---|
| `Wrappers`, `Strings`, `Http` | `wrappers.dfy`, `strings.dfy`, `http.dfy` | `Option`/`Result`, JavaScript string behaviour (`join`, `split`, `trim`, number printing, ASCII case folding of the `i` regex flag), fetch outcomes and the environment |
| `GitHubRest` | `github_rest.dfy` | `lib/github.ts` |
| `LinkedInScraper` | `linkedin_scraper.dfy` | `lib/scrapers/linkedin.ts` |
| `AssistantContext` | `assistant_context.dfy` | `lib/context.ts` |
| `ChatRoute` | `chat_route.dfy` | `app/api/chat/route.ts` |
| `RepositoriesApi` | `repositories_api.dfy` | `pages/api/github_repositories.js` |
| `StarsApi` | `stars_api.dfy` | `pages/api/github_stars.js` |
| `ContributionsChart` | `contributions_chart.dfy` | `components/Contributions.jsx` |
| `StarsChart` | `stars_chart.dfy` | `components/Stars.jsx` |

**Regular expressions.** Each of the scraper's regular expressions is modelled twice:

- a predicate that says where the pattern matches, which covers every backtracking choice of `[^>]+` and `[^>]*`;
- a left-to-right scanner, proved to return the leftmost match. The leftmost match is what `RegExp.prototype.exec` reports.

All patterns are ASCII and use the `i` flag. JavaScript never folds a non-ASCII character onto an ASCII one, so ASCII case folding is exact here.

**State.** The parts of the source that change state in place are modelled imperatively:

- the context cache is the `cache` field of `AssistantContext.ContextService`;
- the chart components' state arrays are fields of the `Contributions` and `Stars` classes;
- the header dictionaries are filled by methods;
- the star-collection loop is a `while` loop proved against a specification function.

## Model

| member | source | states |
|---|---|---|
| Http.EnvOr | app/api/chat/route.ts:12 | `process.env.X \|\| fallback`: the variable's value when it is set and non-empty, the fallback otherwise |
| Http.MessageOrUnknown | lib/scrapers/linkedin.ts:60 | an error message is reported as itself when non-empty and as `unknown error` otherwise, so it is never empty |
| GitHubRest.Headers | lib/github.ts:21-30 | `Accept` and `X-GitHub-Api-Version` always; `Authorization: Bearer <token>` exactly when `GITHUB_TOKEN` is non-empty; no other header |
| GitHubRest.GetJson | lib/github.ts:32-36 | success exactly on an OK status, with the body; otherwise the thrown error, `GitHub API <status> <text> for <url>` for a non-OK status |
| GitHubRest.PageSize | lib/github.ts:38-39 | the page size never exceeds 100; it is the limit when the limit is at most 100, 100 above that, and 50 when no limit is given |
| GitHubRest.ListUserRepos | lib/github.ts:38-41 | the repository list on an OK answer; the fetch's own error message when the fetch throws; for a non-OK status, the error naming the URL with the capped page size |
| GitHubRest.NormPathSlice | lib/github.ts:44 | the normalised path is the slice of the path between a leading and a trailing run of slashes; interior slashes stay and neither end is a slash |
| GitHubRest.NormPathIdempotent | lib/github.ts:44 | normalising a normalised path changes nothing |
| GitHubRest.ContentsUrl | lib/github.ts:44-45 | the contents URL never ends in `/`; an empty or all-slash path gives `…/contents`, any other path gives `…/contents/<normalised path>` |
| GitHubRest.ListRepoContents | lib/github.ts:43-48 | always a list on success: an array answer as it is, a single item as a one-element list; the errors of `getJson` otherwise |
| GitHubRest.FilePath | lib/github.ts:51 | only the leading slashes are removed: the result is a suffix of the path preceded only by slashes, and it does not start with one |
| GitHubRest.CapBytes | lib/github.ts:59-60 | a buffer of at most 102400 bytes is kept whole and not marked cut; a longer one is cut to exactly its first 102400 bytes |
| GitHubRest.GetFileText | lib/github.ts:50-61 | a thrown fetch, a non-OK status and a missing or empty `content` each fail with their own message; success implies an OK status and non-empty content |
| GitHubRest.FileTextCap | lib/github.ts:57-60 | a decoded file of at most 100 KiB comes back whole; a longer one as the text of its first 100 KiB followed by `\n\n[truncated]` |
| LinkedInScraper.FindBody | lib/scrapers/linkedin.ts:13 | the scanner for `OPEN[^<]*CLOSE` finds a match with no match further left, and reports none only when the pattern matches nowhere |
| LinkedInScraper.FirstBody | lib/scrapers/linkedin.ts:13-14 | the body of the leftmost match, null exactly when the pattern matches nowhere |
| LinkedInScraper.GetTitle | lib/scrapers/linkedin.ts:12-15 | null exactly when `<title>[^<]*</title>` (any case) matches nowhere; otherwise the trimmed body of the leftmost match |
| LinkedInScraper.FindOpenTag | lib/scrapers/linkedin.ts:5-6 | the tag scanner returns the leftmost `<meta[^>]+key=["']value["'][^>]*>` match and ends it at its first `>`; none when the pattern matches nowhere |
| LinkedInScraper.ContentValue | lib/scrapers/linkedin.ts:8-9 | null exactly when the tag has no `content=` match; otherwise the leftmost captured value, which is non-empty and holds no quote |
| LinkedInScraper.LeftmostOpenTagUnique | lib/scrapers/linkedin.ts:5-7 | the leftmost tag match is unique: two leftmost matches have the same start and the same closing `>` |
| LinkedInScraper.FirstTag | lib/scrapers/linkedin.ts:5-7 | the text of the leftmost `<meta[^>]+key=["']value["'][^>]*>` tag, null exactly when no tag matches |
| LinkedInScraper.GetMeta | lib/scrapers/linkedin.ts:4-10 | null when no meta tag carries `key="value"` in either quote style; when one does, exactly the content value of the leftmost such tag (unique by `LeftmostOpenTagUnique`), which is null when that tag has no content and otherwise non-empty and quote-free |
| LinkedInScraper.ElementAt | lib/scrapers/linkedin.ts:18-19 | at a given start, the element pattern's tag ends at its first `>` and its lazy body at the first closing tag after it; none exactly when the pattern does not match there |
| LinkedInScraper.FindElement | lib/scrapers/linkedin.ts:18-19 | the leftmost match of `<TAG[^>]*KEY=["']VALUE["'][^>]*>` followed by a lazy body up to the first closing tag (`<script`, `type`, `application/ld+json`, `</script>` for JSON-LD); none when the pattern matches nowhere |
| LinkedInScraper.LeftmostElementUnique | lib/scrapers/linkedin.ts:18-19 | the leftmost element match is unique: its start, the end of its opening tag and the end of its body are determined |
| LinkedInScraper.FirstElement | lib/scrapers/linkedin.ts:18-19 | the leftmost element match in the whole page, none exactly when the pattern matches nowhere |
| LinkedInScraper.FirstElementIsLeftmost | lib/scrapers/linkedin.ts:18-19 | whichever element match is leftmost, the scanner returns exactly that match |
| LinkedInScraper.FirstTruthy | lib/scrapers/linkedin.ts:23-24 | `a \|\| b \|\| null`: the first non-empty of the two, and never an empty string |
| LinkedInScraper.TryJsonLd | lib/scrapers/linkedin.ts:17-28 | null without a JSON-LD block; with one, the value read from the leftmost block's body (unique by `LeftmostElementUnique`): null when parsing it fails, else its truthy description, else its truthy headline, else null; never empty |
| LinkedInScraper.Description | lib/scrapers/linkedin.ts:52 | the first truthy of og:description, description, twitter:description and JSON-LD, else `No public description found.`; never empty |
| LinkedInScraper.SummaryLines | lib/scrapers/linkedin.ts:53-58 | the header, `URL: <url>`, `Title: <title>` only when the title is non-empty, and `Summary: <description>`, so three or four lines |
| LinkedInScraper.FetchLinkedInSummary | lib/scrapers/linkedin.ts:30-65 | never fails and never empty: the fetch-error text on a thrown error, the failed-to-fetch text with status and text on a non-OK answer, the joined summary lines otherwise |
| LinkedInScraper.FailedFetchIgnoresPage | lib/scrapers/linkedin.ts:43-45 | on a non-OK answer the result does not depend on the page or the JSON decoder: nothing is parsed |
| LinkedInScraper.SummaryLinesRoundTrip | lib/scrapers/linkedin.ts:53-58 | splitting the summary at line breaks gives back exactly its three or four lines when no part holds a line break |
| AssistantContext.FetchJson | lib/context.ts:29-33 | success exactly on an OK status; a non-OK status fails with `GitHub API error <status> for <url>` |
| AssistantContext.TopicsHeaders | lib/context.ts:36-57 | the GitHub headers with `Accept` replaced by the topics preview type; `Authorization` exactly when `GITHUB_TOKEN` is non-empty |
| AssistantContext.WithTopics | lib/context.ts:52-62 | an OK topics answer replaces only the topics; any failure keeps the repository unchanged |
| AssistantContext.AllWithTopics | lib/context.ts:51-63 | one repository per input repository, in order, each with the outcome of its own topics request |
| AssistantContext.TopicsFailuresKeepRepos | lib/context.ts:53-61 | when every topics request fails the repositories are listed exactly as fetched; the context does not fail |
| AssistantContext.LanguagePart | lib/context.ts:66 | the ` (language)` segment is present exactly when the language is truthy |
| AssistantContext.StarsPart | lib/context.ts:66 | the ` ★n` segment is present exactly when the star count is non-zero |
| AssistantContext.ShownTopics | lib/context.ts:66 | at most six topics are shown: the first min(6, n) of them, in order |
| AssistantContext.TopicsPart | lib/context.ts:66 | the ` [topics: …]` segment is present exactly when there is a non-empty topic list, and lists the shown topics joined by `, ` |
| AssistantContext.RepoLineShowsStars | lib/context.ts:66 | a repository line carries the star marker exactly when the star count is non-zero |
| AssistantContext.RepoLineShowsTopics | lib/context.ts:66 | a repository line carries a topics list exactly when the repository has a non-empty topic list |
| AssistantContext.RepoLines | lib/context.ts:65-67 | one line per repository, in the order given |
| AssistantContext.ProfileLines | lib/context.ts:69-74 | four profile lines, with `N/A` for a missing name or bio |
| AssistantContext.GitHubFailure | lib/context.ts:83-86 | the failure text names the error message, or `unknown error` when it is empty |
| AssistantContext.GitHubContext | lib/context.ts:35-87 | a failed user request, then a failed repository request, gives the failure text; two OK answers give the profile section with best-effort topics |
| AssistantContext.GitHubSectionLines | lib/context.ts:69-82 | the GitHub section is exactly: heading, four profile lines, blank line, repository heading, one line per repository (7 + n lines) |
| AssistantContext.LinkedInContext | lib/context.ts:89-100 | the heading plus the trimmed file text when the file is read; the fixed "No summary file found" text otherwise |
| AssistantContext.ProfileUrl | lib/context.ts:109 | `LINKEDIN_PROFILE_URL` when set and non-empty, the owner's public profile URL otherwise |
| AssistantContext.LiveSummary | lib/context.ts:107-111 | the live text is non-empty exactly when `LINKEDIN_SCRAPE` is exactly `true`, and is then the scraper's summary of the profile URL |
| AssistantContext.ContextValueLayout | lib/context.ts:113-119 | the value is the heading, the GitHub section, a blank line, the LinkedIn section, then a line break; with live text a blank line and the live text follow instead of the final line break |
| AssistantContext.ServedValue | lib/context.ts:103-122 | on a cache hit the cached text is returned, otherwise the freshly built text |
| AssistantContext.CacheAfter | lib/context.ts:103-121 | a hit leaves the cache untouched; a miss stores the fresh text until the second clock reading plus 600000 ms |
| AssistantContext.CacheServesReturnedValue | lib/context.ts:102-123 | for calls that do not overlap: any later call made before the entry expires returns the text this call returned, whatever its own sources are |
| AssistantContext.FreshEntryWindow | lib/context.ts:26 | a fresh entry is served exactly while the clock reads strictly less than its store time plus ten minutes |
| AssistantContext.ContextService.constructor | lib/context.ts:27 | the cache starts empty |
| AssistantContext.ContextService.BuildAssistantDynamicContext | lib/context.ts:102-123 | a hit (`expiresAt > now`, strict) returns the cached text with the cache unchanged; a miss returns the fresh text and caches it with `expiresAt = later + 600000` |
| ChatRoute.Field | app/api/chat/route.ts:6 | a property read yields the member of an object and `undefined` for anything else |
| ChatRoute.History | app/api/chat/route.ts:49 | an array `history` is used as it is; anything else, including a missing one, is treated as empty |
| ChatRoute.HistoryMsg | app/api/chat/route.ts:52-55 | a history entry keeps only its role and its content |
| ChatRoute.HistoryMsgs | app/api/chat/route.ts:52-55 | one message per history entry, in order |
| ChatRoute.SystemContent | app/api/chat/route.ts:47 | the system content is the fixed prompt, then `\n\n`, then the dynamic context |
| ChatRoute.Transcript | app/api/chat/route.ts:50-57 | `\|history\| + 2` messages: the system message first, the user's message last, the history entries in between in order |
| ChatRoute.TranscriptRoles | app/api/chat/route.ts:52-55 | message k + 1 carries exactly the role and the content of history entry k |
| ChatRoute.ChatHeaders | app/api/chat/route.ts:59-65 | `Content-Type: application/json` always; `Authorization: Bearer <key>` exactly when the API key is non-empty; no other header |
| ChatRoute.UpstreamReply | app/api/chat/route.ts:82-100 | status 200 with the upstream body unchanged as `text/plain; charset=utf-8` exactly on an OK answer; `Ollama API error: <status> <text>` with the upstream status on a non-OK one that a body-carrying response accepts; 500 `Internal server error` on a thrown call, on a 304 (a null-body status, so building the error reply throws) and on a status outside 200..599 |
| ChatRoute.Post | app/api/chat/route.ts:4-101 | an unparsable or null body gives 500; a falsy message gives 400 `Message is required` with no context build and no upstream call; otherwise the context is built, a null history entry gives 500, and the request sent carries model `gpt-oss:20b-cloud`, `stream: true` and the transcript; the reply is then `UpstreamReply` of the upstream outcome (500 on a thrown call, a 304 or a status outside 200..599) |
| RepositoriesApi.PublicRepos | pages/api/github_repositories.js:44 | every returned repository is public, unarchived and owned by `tmickleydoyle`; every input repository meeting all three is returned; no longer than the input |
| RepositoriesApi.PublicReposIsSubsequence | pages/api/github_repositories.js:44 | the output is an order-preserving subsequence of the input |
| RepositoriesApi.PublicReposIdempotent | pages/api/github_repositories.js:44 | filtering the output again leaves it unchanged |
| RepositoriesApi.PublicReposAppend | pages/api/github_repositories.js:44 | filtering a concatenation filters each part in turn |
| RepositoriesApi.Handler | pages/api/github_repositories.js:42-46 | status 200 with the filtered nodes whenever the answer has a node list; the handler throws otherwise |
| StarsApi.PositiveIndices | pages/api/github_stars.js:46 | the selected positions are strictly increasing and in range, and a position is selected exactly when its count is positive |
| StarsApi.StarsOfFails | pages/api/github_stars.js:45-46 | the handler fails exactly when some repository's star count cannot be read |
| StarsApi.StarsOfEntries | pages/api/github_stars.js:46-51 | entry k is the repository at the k-th positive position, with its own name and count: each positive repository once, in input order, zero-star ones omitted |
| StarsApi.StarsOfPositive | pages/api/github_stars.js:46-50 | every entry has at least one star, and there are no more entries than repositories |
| StarsApi.CollectStars | pages/api/github_stars.js:24-52 | the loop computes the specified entry list |
| StarsApi.Handler | pages/api/github_stars.js:16-55 | status 200 with the collected entries, or a thrown error when a count cannot be read |
| ContributionsChart.PositiveInWeekExact | components/Contributions.jsx:64-65 | a week contributes exactly its days with a positive count |
| ContributionsChart.PositiveDaysAppend | components/Contributions.jsx:63-64 | the collected days are ordered week by week: collecting a concatenation of weeks collects each part in turn |
| ContributionsChart.PositiveDaysSound | components/Contributions.jsx:65 | every collected day has a positive count and comes from some week of the calendar |
| ContributionsChart.PositiveDaysComplete | components/Contributions.jsx:65 | every day with a positive count, in any week, is collected |
| ContributionsChart.PositiveDaysCount | components/Contributions.jsx:63-68 | the number of entries equals the number of positive-count days across all weeks |
| ContributionsChart.Contributions.constructor | components/Contributions.jsx:9-11 | empty arrays and the chart hidden |
| ContributionsChart.Contributions.AppendWeek | components/Contributions.jsx:64-68 | the counts and dates of one week's positive days are appended to the two arrays, in order, which stay parallel; the chart flag is untouched |
| ContributionsChart.Contributions.FetchData | components/Contributions.jsx:59-72 | when the fetch, `res.json()` or the calendar path fails, nothing changes and the loading view stays; otherwise the counts and dates of the positive days are appended to the two arrays, which stay parallel, and the chart flag is set after the walk |
| ContributionsChart.Contributions.Render | components/Contributions.jsx:76-118 | the loading view exactly while the flag is unset; afterwards the bar chart of the two arrays |
| ContributionsChart.ChartPairsDays | components/Contributions.jsx:65-67 | bar k's label and value are the date and the count of the same positive day, and the value is positive |
| StarsChart.Reverse | components/Stars.jsx:88 | a reversed copy: same length, element k is element n - 1 - k of the original |
| StarsChart.ReverseInvolution | components/Stars.jsx:88 | reversing twice gives back the original |
| StarsChart.Names | components/Stars.jsx:65 | the names of the entries, in order |
| StarsChart.StarCounts | components/Stars.jsx:64 | the star counts of the entries, in order |
| StarsChart.Stars.constructor | components/Stars.jsx:9-11 | empty arrays and the chart hidden |
| StarsChart.Stars.FetchStars | components/Stars.jsx:59-71 | when the fetch or `res.json()` rejects, nothing changes and the loading view stays; otherwise each entry's count and name are appended to the two arrays, in order, then the chart flag is set |
| StarsChart.Stars.Render | components/Stars.jsx:73-115 | the loading view exactly while the flag is unset; afterwards the chart of reversed copies, with the state only read |
| StarsChart.ReversedBarsStayPaired | components/Stars.jsx:88-92 | bar k of the reversed chart shows the name and the count of the same entry, n - 1 - k |

## Left out

- Network I/O. Every `fetch` and GraphQL call is a `Fetch` parameter or a lookup function. This includes their request options: `cache: 'no-store'`, the scraper's browser-like headers, the GraphQL query text and its `Authorization` header.
- The scraper's five-second `AbortController` timeout (lib/scrapers/linkedin.ts:31-32, 62-64). An abort reaches the model as a thrown fetch.
- Reading `static/linkedin-summary.md` from disk. The file text is an `Option<string>`; a missing file and a read error are both `None`.
- The library decoders. `JSON.parse` of the JSON-LD block is the `decode` parameter, and `Buffer.from` / `toString('utf8')` are the `Codecs` fields. Their behaviour is not modelled.
- The wording of the chat system prompt (app/api/chat/route.ts:16-44). It is the `prompt` parameter of `ChatRoute.Post`.
- The constant floating-point sampling options (app/api/chat/route.ts:74-78) and the `console.error` logging (line 96).
- The JSON serialisation of responses and requests. Replies are datatypes, and a message field read as `undefined` is an absent `Option`.
- The upstream stream is passed through as one string. Chunking and back-pressure are not modelled.
- What the Next.js framework answers when an API route handler throws. The model reports only that it threw.
- AssistantContext.GitHubContext: when both the user and the repository requests fail, `Promise.all` rejects with whichever rejection happens first in time. The model reports the user request's error.
- AssistantContext.LiveSummary: the `.catch(() => '')` at lib/context.ts:110 has no counterpart. The scraper catches every error itself (lib/scrapers/linkedin.ts:59-61), so its promise never rejects.
- The headers of the user and repository requests in lib/context.ts:36-41 are the same as `GitHubRest.Headers`, and are not modelled a second time.
- AssistantContext.CacheServesReturnedValue: holds only for calls that do not overlap. `buildAssistantDynamicContext` reads the cache (lib/context.ts:103), awaits GitHub and the scraper, and stores only afterwards (line 121). A second request that starts during that wait also misses, both rebuild, and the last store wins. The model runs each call to completion, so this interleaving is not modelled.
- GitHubRest.GetJson, GitHubRest.ListUserRepos, GitHubRest.ListRepoContents and AssistantContext.FetchJson: a `Responded` outcome carries the already decoded body. A `res.json()` that rejects on an OK answer (lib/github.ts:35, lib/context.ts:32) is not modelled separately. It would reject with the parser's error.
- ContributionsChart.Contributions.FetchData: a calendar that breaks partway through the walk, such as a week without `contributionDays`, throws after some updates are already queued. Those updates are then applied and the flag stays unset. The model's `None` covers only failures before the first update: a rejected fetch or `res.json()`, or a missing calendar path.
- StarsChart.Stars.FetchStars: a JSON answer that is not an array is not modelled. An object has no `length`, so the loop would not run and the chart would show empty. The endpoint answers an array on success and an error page, which `res.json()` rejects, on failure.
- LinkedInScraper.TryJsonLd: `description` and `headline` are modelled as strings. A truthy non-string JSON value, such as a number or an object, would be returned as it is by the source.
- LinkedInScraper.GetMeta: the meta value is put into the regular expression unescaped. The model matches it literally and requires that it holds no `>`. The three values the scraper uses (`og:description`, `description`, `twitter:description`) satisfy both.
- JavaScript strings are UTF-16 while Dafny characters are code points. Nothing modelled counts string lengths, so only surrogate pairs would differ.
- React's scheduling of state updates and the double run of effects in development strict mode. Each functional update is applied in order, as soon as it is made.
- Chart configuration, styling and the markup around the charts. Only the data handed to `Bar` and the loading view are modelled.
- The other pages, components and API routes (pages/api/play.js, pages/api/profile.js, pages/api/github_contributions.js, the forecast, the static documents) are not part of this model.
