/**
 * The assistant's dynamic context: a text block assembled from the GitHub
 * profile and recent repositories, an optional user-provided LinkedIn summary
 * file and an optional live LinkedIn scrape, kept in a module-level cache for
 * ten minutes.
 *
 * The GitHub answers, the summary file and the scraped page are parameters;
 * the clock is read twice by the source (before and after the rebuild), so
 * both readings are parameters too.
 */
module AssistantContext {
  import opened Wrappers
  import opened Strings
  import opened Http
  import GitHubRest
  import LinkedInScraper

  datatype GitHubRepo = GitHubRepo(
    name: string,
    description: Option<string>,
    language: Option<string>,
    stars: int,
    htmlUrl: string,
    topics: Option<seq<string>>)

  datatype GitHubUser = GitHubUser(
    name: Option<string>,
    bio: Option<string>,
    htmlUrl: string,
    publicRepos: int,
    followers: int,
    following: int)

  /** The body of a topics response: `{ names }`. */
  datatype TopicsJson = TopicsJson(names: Option<seq<string>>)

  /** The account whose profile is described. */
  const ProfileUser := "tmickleydoyle"

  /** At most this many topics are listed per repository. */
  const MaxTopics := 6

  /** How long a built context is served from the cache: ten minutes in milliseconds. */
  const CacheTtlMs := 10 * 60 * 1000

  const MercyPreview := "application/vnd.github.mercy-preview+json"
  const ReposHeader := "RECENTLY UPDATED REPOS (last 5):"
  const LiveHeader := "LIVE CONTEXT (refreshed ~10m):"
  const SummaryFileHeader := "LINKEDIN SUMMARY (user-provided):\n"
  const NoSummaryFile := "LINKEDIN: No summary file found. Add static/linkedin-summary.md to enrich answers."
  const DefaultProfileUrl := "https://www.linkedin.com/in/thomas-mickley-doyle/"

  // ---------------------------------------------------------------------------
  // Fetching

  function UserUrl(username: string): string
  {
    GitHubRest.Base + "/users/" + username
  }

  function RecentReposUrl(username: string): string
  {
    GitHubRest.Base + "/users/" + username + "/repos?sort=updated&per_page=5"
  }

  function TopicsUrl(username: string, repo: string): string
  {
    GitHubRest.Base + "/repos/" + username + "/" + repo + "/topics"
  }

  /** The message of the error `fetchJson` throws for a non-OK response. */
  function FetchError(status: int, url: string): string
  {
    "GitHub API error " + IntToString(status) + " for " + url
  }

  /** `fetchJson(url, headers)`: the decoded body of an OK response, otherwise the thrown error's message. */
  function FetchJson<T>(url: string, res: Fetch<T>): (r: Result<T, string>)
    ensures r.Ok? <==> res.Responded? && IsOk(res.status)
    ensures r.Ok? ==> r.value == res.body
    ensures res.Threw? ==> r == Err(res.message)
    ensures res.Responded? && !IsOk(res.status) ==> r == Err(FetchError(res.status, url))
  {
    match res
    case Threw(m) => Err(m)
    case Responded(status, _, body) => if IsOk(status) then Ok(body) else Err(FetchError(status, url))
  }

  /**
   * The headers of a topics request: the GitHub headers (the token as a bearer
   * credential when set) with `Accept` replaced by the topics preview type.
   */
  method TopicsHeaders(env: Env) returns (h: map<string, string>)
    ensures "Accept" in h && h["Accept"] == MercyPreview
    ensures "X-GitHub-Api-Version" in h && h["X-GitHub-Api-Version"] == "2022-11-28"
    ensures "Authorization" in h <==> EnvSet(env, "GITHUB_TOKEN")
    ensures "Authorization" in h ==> h["Authorization"] == "Bearer " + env["GITHUB_TOKEN"]
    ensures h.Keys <= {"Accept", "X-GitHub-Api-Version", "Authorization"}
  {
    h := GitHubRest.Headers(env);
    h := h["Accept" := MercyPreview];
  }

  /**
   * The best-effort topics lookup: an OK answer replaces the repository's
   * topics by its `names`; any failure leaves the repository as it was.
   */
  function WithTopics(r: GitHubRepo, res: Fetch<TopicsJson>): (r': GitHubRepo)
    ensures r'.name == r.name && r'.description == r.description && r'.language == r.language
    ensures r'.stars == r.stars && r'.htmlUrl == r.htmlUrl
    ensures res.Responded? && IsOk(res.status) ==> r'.topics == res.body.names
    ensures !(res.Responded? && IsOk(res.status)) ==> r' == r
  {
    match FetchJson(TopicsUrl(ProfileUser, r.name), res)
    case Ok(json) => r.(topics := json.names)
    case Err(_) => r
  }

  /** Every repository with the outcome of its own topics request (looked up by name). */
  function AllWithTopics(repos: seq<GitHubRepo>, topicsFor: string -> Fetch<TopicsJson>): (rs: seq<GitHubRepo>)
    ensures |rs| == |repos|
    ensures forall k :: 0 <= k < |rs| ==> rs[k] == WithTopics(repos[k], topicsFor(repos[k].name))
  {
    if repos == [] then [] else [WithTopics(repos[0], topicsFor(repos[0].name))] + AllWithTopics(repos[1..], topicsFor)
  }

  /** When every topics request fails, the repositories are listed exactly as fetched. */
  lemma {:induction false} TopicsFailuresKeepRepos(repos: seq<GitHubRepo>, topicsFor: string -> Fetch<TopicsJson>)
    requires forall r :: r in repos ==> !(topicsFor(r.name).Responded? && IsOk(topicsFor(r.name).status))
    ensures AllWithTopics(repos, topicsFor) == repos
  {
    var rs := AllWithTopics(repos, topicsFor);
    forall k | 0 <= k < |repos| ensures rs[k] == repos[k] {
      assert repos[k] in repos;
    }
  }

  // ---------------------------------------------------------------------------
  // Formatting one repository

  /** ` (language)` when the language is truthy. */
  function LanguagePart(language: Option<string>): (s: string)
    ensures s == "" <==> !Truthy(language)
    ensures Truthy(language) ==> s == " (" + language.value + ")"
  {
    if Truthy(language) then " (" + language.value + ")" else ""
  }

  /** ` ★n` when the star count is non-zero. */
  function StarsPart(stars: int): (s: string)
    ensures s == "" <==> stars == 0
    ensures stars != 0 ==> s == " ★" + IntToString(stars)
  {
    if stars != 0 then " ★" + IntToString(stars) else ""
  }

  /** The first six topics (`topics.slice(0, 6)`). */
  function ShownTopics(topics: seq<string>): (shown: seq<string>)
    ensures |shown| <= MaxTopics
    ensures |shown| == if |topics| < MaxTopics then |topics| else MaxTopics
    ensures shown == topics[..|shown|]
  {
    if |topics| <= MaxTopics then topics else topics[..MaxTopics]
  }

  /** ` [topics: a, b, …]` when there is a non-empty topic list. */
  function TopicsPart(topics: Option<seq<string>>): (s: string)
    ensures s == "" <==> topics.None? || topics.value == []
    ensures topics.Some? && topics.value != [] ==> s == " [topics: " + Join(ShownTopics(topics.value), ", ") + "]"
  {
    if topics.Some? && |topics.value| > 0 then " [topics: " + Join(ShownTopics(topics.value), ", ") + "]" else ""
  }

  /** `- name (language)`: the start of a repository line. */
  function RepoHead(r: GitHubRepo): string
  {
    "- " + r.name + LanguagePart(r.language)
  }

  /** `: description`; a `null` description reads `no description`, an empty one stays empty. */
  function DescriptionPart(description: Option<string>): string
  {
    ": " + description.GetOr("no description")
  }

  /** ` — url`: the end of a repository line. */
  function UrlPart(url: string): string
  {
    " — " + url
  }

  /** One line of the repository list. */
  function RepoLine(r: GitHubRepo): string
  {
    RepoHead(r) + StarsPart(r.stars) + DescriptionPart(r.description) + TopicsPart(r.topics) + UrlPart(r.htmlUrl)
  }

  /** A character the repository's own texts do not contain. */
  predicate RepoAvoids(r: GitHubRepo, c: char)
  {
    && c !in r.name && c !in r.htmlUrl
    && (r.language.Some? ==> c !in r.language.value)
    && (r.description.Some? ==> c !in r.description.value)
    && (r.topics.Some? ==> forall t :: t in r.topics.value ==> c !in t)
  }

  /** The head of a repository line holds only the repository's texts and `- ()`. */
  lemma HeadAvoids(r: GitHubRepo, c: char)
    requires RepoAvoids(r, c) && c !in "- ()"
    ensures c !in RepoHead(r)
  {
  }

  /** The star segment holds only ` ★`, digits and a minus sign. */
  lemma StarsAvoids(stars: int, c: char)
    requires c !in " ★-0123456789"
    ensures c !in StarsPart(stars)
  {
    if stars != 0 {
      IntToStringChars(stars, c);
    }
  }

  /** The description segment holds only the description, `: ` or `no description`. */
  lemma DescriptionAvoids(r: GitHubRepo, c: char)
    requires RepoAvoids(r, c) && c !in ": no description"
    ensures c !in DescriptionPart(r.description)
  {
  }

  /** The topics segment holds only the topics and ` [topics: , ]`. */
  lemma TopicsAvoids(r: GitHubRepo, c: char)
    requires RepoAvoids(r, c) && c !in " [topics:,]"
    ensures c !in TopicsPart(r.topics)
  {
    if r.topics.Some? && |r.topics.value| > 0 {
      var shown := ShownTopics(r.topics.value);
      forall t | t in shown ensures c !in t {
        assert t in r.topics.value;
      }
      JoinAvoids(shown, ", ", c);
    }
  }

  /** The url segment holds only the url and ` — `. */
  lemma UrlAvoids(r: GitHubRepo, c: char)
    requires RepoAvoids(r, c) && c !in " —"
    ensures c !in UrlPart(r.htmlUrl)
  {
  }

  /** A repository line is one line when the repository's texts hold no line break. */
  lemma RepoLineOneLine(r: GitHubRepo)
    requires RepoAvoids(r, '\n')
    ensures '\n' !in RepoLine(r)
  {
    HeadAvoids(r, '\n');
    StarsAvoids(r.stars, '\n');
    DescriptionAvoids(r, '\n');
    TopicsAvoids(r, '\n');
    UrlAvoids(r, '\n');
  }

  /**
   * A repository line carries the star marker exactly when the repository's
   * star count is non-zero (provided its own texts do not contain the marker).
   */
  lemma RepoLineShowsStars(r: GitHubRepo)
    requires RepoAvoids(r, '★')
    ensures '★' in RepoLine(r) <==> r.stars != 0
  {
    HeadAvoids(r, '★');
    DescriptionAvoids(r, '★');
    TopicsAvoids(r, '★');
    UrlAvoids(r, '★');
    if r.stars != 0 {
      assert StarsPart(r.stars)[1] == '★';
    }
  }

  /**
   * A repository line carries a topics list exactly when the repository has a
   * non-empty topic list (provided its own texts do not contain `[`).
   */
  lemma RepoLineShowsTopics(r: GitHubRepo)
    requires RepoAvoids(r, '[')
    ensures '[' in RepoLine(r) <==> r.topics.Some? && r.topics.value != []
  {
    HeadAvoids(r, '[');
    StarsAvoids(r.stars, '[');
    DescriptionAvoids(r, '[');
    UrlAvoids(r, '[');
    var tp := TopicsPart(r.topics);
    if tp != "" {
      assert tp[1] == '[';
    }
  }

  /** One line per repository, in the order given. */
  function RepoLines(repos: seq<GitHubRepo>): (lines: seq<string>)
    ensures |lines| == |repos|
    ensures forall k :: 0 <= k < |lines| ==> lines[k] == RepoLine(repos[k])
  {
    if repos == [] then [] else [RepoLine(repos[0])] + RepoLines(repos[1..])
  }

  // ---------------------------------------------------------------------------
  // The GitHub section

  /** The four profile lines, with `N/A` for a missing name or bio. */
  function ProfileLines(u: GitHubUser): (lines: seq<string>)
    ensures |lines| == 4
    ensures lines[0] == "Name: " + u.name.GetOr("N/A") && lines[1] == "Bio: " + u.bio.GetOr("N/A")
    ensures lines[2] == "GitHub: " + u.htmlUrl
    ensures lines[3] == "Public Repos: " + IntToString(u.publicRepos) + ", Followers: " + IntToString(u.followers)
                        + ", Following: " + IntToString(u.following)
  {
    [ "Name: " + u.name.GetOr("N/A"),
      "Bio: " + u.bio.GetOr("N/A"),
      "GitHub: " + u.htmlUrl,
      "Public Repos: " + IntToString(u.publicRepos) + ", Followers: " + IntToString(u.followers)
      + ", Following: " + IntToString(u.following) ]
  }

  /** The GitHub section when both requests succeed. */
  function GitHubSection(u: GitHubUser, repos: seq<GitHubRepo>): string
  {
    Join(["GITHUB PROFILE:", Join(ProfileLines(u), "\n"), "", ReposHeader] + RepoLines(repos), "\n")
  }

  /** The GitHub section when the user or the repository request fails. */
  function GitHubFailure(message: string): (s: string)
    ensures s == "GITHUB: Failed to fetch live data (" + MessageOrUnknown(message) + "). Use general knowledge of the profile."
  {
    "GITHUB: Failed to fetch live data (" + MessageOrUnknown(message) + "). Use general knowledge of the profile."
  }

  /**
   * `getGitHubContext(username)`: it never fails. A failed user request is
   * reported before a failed repository request; topics are best-effort.
   */
  function GitHubContext(username: string, user: Fetch<GitHubUser>, repos: Fetch<seq<GitHubRepo>>,
                         topicsFor: string -> Fetch<TopicsJson>): (s: string)
    ensures FetchJson(UserUrl(username), user).Err? ==> s == GitHubFailure(FetchJson(UserUrl(username), user).error)
    ensures FetchJson(UserUrl(username), user).Ok? && FetchJson(RecentReposUrl(username), repos).Err? ==> s == GitHubFailure(FetchJson(RecentReposUrl(username), repos).error)
    ensures user.Responded? && IsOk(user.status) && repos.Responded? && IsOk(repos.status) ==> s == GitHubSection(user.body, AllWithTopics(repos.body, topicsFor))
  {
    match FetchJson(UserUrl(username), user)
    case Err(m) => GitHubFailure(m)
    case Ok(u) =>
      match FetchJson(RecentReposUrl(username), repos)
      case Err(m) => GitHubFailure(m)
      case Ok(rs) => GitHubSection(u, AllWithTopics(rs, topicsFor))
  }

  /** No text of the user holds a line break. */
  predicate UserOneLine(u: GitHubUser)
  {
    && '\n' !in u.htmlUrl
    && (u.name.Some? ==> '\n' !in u.name.value)
    && (u.bio.Some? ==> '\n' !in u.bio.value)
  }

  /**
   * The GitHub section is line by line: the heading, the four profile lines,
   * a blank line, the repository heading and one line per repository
   * (when no text from GitHub holds a line break of its own).
   */
  lemma GitHubSectionLines(u: GitHubUser, repos: seq<GitHubRepo>)
    requires UserOneLine(u)
    requires forall r :: r in repos ==> RepoAvoids(r, '\n')
    ensures Split(GitHubSection(u, repos), '\n')
            == ["GITHUB PROFILE:"] + ProfileLines(u) + ["", ReposHeader] + RepoLines(repos)
    ensures |Split(GitHubSection(u, repos), '\n')| == 7 + |repos|
  {
    var all := SectionFlat(u, repos);
    SectionLinesOneLine(u, repos);
    SplitJoin(all, '\n');
  }

  /** The GitHub section as one flat join of its lines. */
  lemma SectionFlat(u: GitHubUser, repos: seq<GitHubRepo>) returns (all: seq<string>)
    ensures all == ["GITHUB PROFILE:"] + ProfileLines(u) + ["", ReposHeader] + RepoLines(repos)
    ensures GitHubSection(u, repos) == Join(all, "\n")
  {
    all := ["GITHUB PROFILE:"] + ProfileLines(u) + ["", ReposHeader] + RepoLines(repos);
    FlattenHeading("GITHUB PROFILE:", ProfileLines(u), "", ReposHeader, RepoLines(repos), "\n");
  }

  /** A heading list whose second entry is itself a join flattens into one list of lines. */
  lemma FlattenHeading(h: string, inner: seq<string>, blank: string, h2: string, lines: seq<string>, sep: string)
    requires |inner| >= 1
    ensures Join([h, Join(inner, sep), blank, h2] + lines, sep) == Join([h] + inner + [blank, h2] + lines, sep)
  {
    var rest := [blank, h2] + lines;
    JoinFlatten([h], inner, rest, sep);
    assert [h] + [Join(inner, sep)] + rest == [h, Join(inner, sep), blank, h2] + lines;
    assert [h] + inner + rest == [h] + inner + [blank, h2] + lines;
  }

  /** No line of the GitHub section holds a line break of its own. */
  lemma SectionLinesOneLine(u: GitHubUser, repos: seq<GitHubRepo>)
    requires UserOneLine(u)
    requires forall r :: r in repos ==> RepoAvoids(r, '\n')
    ensures forall l :: l in ["GITHUB PROFILE:"] + ProfileLines(u) + ["", ReposHeader] + RepoLines(repos) ==> '\n' !in l
  {
    ProfileOneLine(u);
    RepoLinesOneLine(repos);
    AllAvoid("GITHUB PROFILE:", ProfileLines(u), "", ReposHeader, RepoLines(repos), '\n');
  }

  /** Lines that each avoid c, put together with headings that avoid it, all avoid c. */
  lemma AllAvoid(h: string, inner: seq<string>, blank: string, h2: string, lines: seq<string>, c: char)
    requires c !in h && c !in blank && c !in h2
    requires forall l :: l in inner ==> c !in l
    requires forall l :: l in lines ==> c !in l
    ensures forall l :: l in [h] + inner + [blank, h2] + lines ==> c !in l
  {
  }

  /** No profile line holds a line break when the user's texts hold none. */
  lemma ProfileOneLine(u: GitHubUser)
    requires UserOneLine(u)
    ensures forall l :: l in ProfileLines(u) ==> '\n' !in l
  {
    var ls := ProfileLines(u);
    IntToStringChars(u.publicRepos, '\n');
    IntToStringChars(u.followers, '\n');
    IntToStringChars(u.following, '\n');
    assert '\n' !in ls[0] && '\n' !in ls[1] && '\n' !in ls[2];
    assert '\n' !in ls[3];
    assert ls == [ls[0], ls[1], ls[2], ls[3]];
  }

  /** No repository line holds a line break when the repositories' texts hold none. */
  lemma RepoLinesOneLine(repos: seq<GitHubRepo>)
    requires forall r :: r in repos ==> RepoAvoids(r, '\n')
    ensures forall l :: l in RepoLines(repos) ==> '\n' !in l
  {
    var lines := RepoLines(repos);
    forall k | 0 <= k < |lines| ensures '\n' !in lines[k] {
      var r := repos[k];
      assert r in repos;
      RepoLineOneLine(r);
    }
  }

  // ---------------------------------------------------------------------------
  // The LinkedIn sections

  /**
   * `getLinkedInContext()`: the trimmed summary file under its heading, or the
   * fixed hint when the file is missing or cannot be read (None).
   */
  function LinkedInContext(summaryFile: Option<string>): (s: string)
    ensures summaryFile.Some? ==> s == SummaryFileHeader + Trim(summaryFile.value)
    ensures summaryFile.None? ==> s == NoSummaryFile
  {
    match summaryFile
    case Some(md) => SummaryFileHeader + Trim(md)
    case None => NoSummaryFile
  }

  /** Live scraping is switched on only by `LINKEDIN_SCRAPE` set to exactly `true`. */
  predicate ScrapeEnabled(env: Env)
  {
    "LINKEDIN_SCRAPE" in env && env["LINKEDIN_SCRAPE"] == "true"
  }

  /** The profile page that is scraped: `LINKEDIN_PROFILE_URL`, or the owner's public profile. */
  function ProfileUrl(env: Env): (url: string)
    ensures EnvSet(env, "LINKEDIN_PROFILE_URL") ==> url == env["LINKEDIN_PROFILE_URL"]
    ensures !EnvSet(env, "LINKEDIN_PROFILE_URL") ==> url == DefaultProfileUrl
  {
    EnvOr(env, "LINKEDIN_PROFILE_URL", DefaultProfileUrl)
  }

  /** The live LinkedIn text: empty unless scraping is switched on, never empty when it is. */
  function LiveSummary(env: Env, page: Fetch<string>, decode: string -> Option<LinkedInScraper.LdFields>): (live: string)
    ensures live != "" <==> ScrapeEnabled(env)
    ensures ScrapeEnabled(env) ==> live == LinkedInScraper.FetchLinkedInSummary(ProfileUrl(env), page, decode)
  {
    if ScrapeEnabled(env) then LinkedInScraper.FetchLinkedInSummary(ProfileUrl(env), page, decode) else ""
  }

  // ---------------------------------------------------------------------------
  // The whole context

  /** The context text: heading, GitHub section, blank line, LinkedIn section, then the live text on a line of its own. */
  function ContextValue(github: string, linkedin: string, live: string): string
  {
    Join([LiveHeader, github, "", linkedin, if live != "" then "\n" + live else ""], "\n")
  }

  /**
   * The layout of the context text. Without live text the empty last element
   * still contributes its separator, so the text ends in a line break; with
   * live text a blank line comes before it.
   */
  lemma ContextValueLayout(github: string, linkedin: string, live: string)
    ensures live == "" ==> ContextValue(github, linkedin, live) == LiveHeader + "\n" + github + "\n\n" + linkedin + "\n"
    ensures live != "" ==> ContextValue(github, linkedin, live) == LiveHeader + "\n" + github + "\n\n" + linkedin + "\n\n" + live
    ensures ContextValue(github, linkedin, live)[|ContextValue(github, linkedin, live)| - 1] == (if live == "" then '\n' else live[|live| - 1])
  {
    var last := if live != "" then "\n" + live else "";
    var parts := [LiveHeader, github, "", linkedin, last];
    assert Join(parts[3..], "\n") == linkedin + "\n" + last by {
      assert parts[3..][1..] == [last];
    }
    assert Join(parts[2..], "\n") == "" + "\n" + Join(parts[3..], "\n") by {
      assert parts[2..][1..] == parts[3..];
    }
    assert Join(parts[1..], "\n") == github + "\n" + Join(parts[2..], "\n") by {
      assert parts[1..][1..] == parts[2..];
    }
  }

  /** A cached context and the time (in milliseconds) until which it is served. */
  datatype CacheEntry = CacheEntry(value: string, expiresAt: int)

  /** The cache is used when it exists and has not expired: `expiresAt > now`, strictly. */
  predicate CacheHit(cache: Option<CacheEntry>, now: int)
  {
    cache.Some? && cache.value.expiresAt > now
  }

  /** What a rebuild reads from the outside world: the GitHub answers, the summary file and the scraped page. */
  datatype ContextSources = ContextSources(
    user: Fetch<GitHubUser>,
    repos: Fetch<seq<GitHubRepo>>,
    topicsFor: string -> Fetch<TopicsJson>,
    summaryFile: Option<string>,
    page: Fetch<string>,
    decode: string -> Option<LinkedInScraper.LdFields>)

  /** The text a rebuild produces. */
  function FreshValue(env: Env, src: ContextSources): string
  {
    ContextValue(GitHubContext(ProfileUser, src.user, src.repos, src.topicsFor),
                 LinkedInContext(src.summaryFile), LiveSummary(env, src.page, src.decode))
  }

  /** The text a call returns: the cached one on a hit, a fresh one otherwise. */
  function ServedValue(cache: Option<CacheEntry>, now: int, env: Env, src: ContextSources): (v: string)
    ensures CacheHit(cache, now) ==> v == cache.value.value
    ensures !CacheHit(cache, now) ==> v == FreshValue(env, src)
  {
    if CacheHit(cache, now) then cache.value.value else FreshValue(env, src)
  }

  /** The cache after a call: untouched on a hit, the fresh text until `later` plus ten minutes otherwise. */
  function CacheAfter(cache: Option<CacheEntry>, now: int, later: int, env: Env, src: ContextSources): (c: Option<CacheEntry>)
    ensures CacheHit(cache, now) ==> c == cache
    ensures !CacheHit(cache, now) ==> c == Some(CacheEntry(FreshValue(env, src), later + CacheTtlMs))
  {
    if CacheHit(cache, now) then cache else Some(CacheEntry(FreshValue(env, src), later + CacheTtlMs))
  }

  /**
   * After a call the cache serves the text just returned to every later call
   * made before it expires, whatever that call's sources are.
   */
  lemma CacheServesReturnedValue(cache: Option<CacheEntry>, now: int, later: int, env: Env, src: ContextSources,
                                 t: int, env2: Env, src2: ContextSources)
    requires CacheHit(cache, now) ==> t < cache.value.expiresAt
    requires !CacheHit(cache, now) ==> t < later + CacheTtlMs
    ensures ServedValue(CacheAfter(cache, now, later, env, src), t, env2, src2) == ServedValue(cache, now, env, src)
  {
  }

  /** A fresh entry is served exactly while the clock reads less than its expiry: ten minutes after it was stored. */
  lemma FreshEntryWindow(value: string, later: int, t: int)
    ensures CacheHit(Some(CacheEntry(value, later + CacheTtlMs)), t) <==> t < later + 600000
  {
  }

  /** The module-level cache and the operation that reads and refreshes it. */
  class ContextService {
    var cache: Option<CacheEntry>

    /** The cache starts out empty. */
    constructor()
      ensures cache == None
    {
      cache := None;
    }

    /**
     * `buildAssistantDynamicContext()`. `now` is the clock reading taken on
     * entry and `later` the one taken after the rebuild. On a hit the cached
     * text is returned and the cache is left alone; otherwise the text is
     * built afresh and cached for ten minutes from `later`.
     */
    method BuildAssistantDynamicContext(now: int, later: int, env: Env, src: ContextSources) returns (value: string)
      modifies this
      ensures value == ServedValue(old(cache), now, env, src)
      ensures cache == CacheAfter(old(cache), now, later, env, src)
      ensures CacheHit(old(cache), now) ==> value == old(cache).value.value && cache == old(cache)
      ensures !CacheHit(old(cache), now) ==> cache == Some(CacheEntry(value, later + CacheTtlMs))
    {
      if cache.Some? && cache.value.expiresAt > now {
        return cache.value.value;
      }
      var github := GitHubContext(ProfileUser, src.user, src.repos, src.topicsFor);
      var linkedin := LinkedInContext(src.summaryFile);
      var live := "";
      if "LINKEDIN_SCRAPE" in env && env["LINKEDIN_SCRAPE"] == "true" {
        var url := EnvOr(env, "LINKEDIN_PROFILE_URL", DefaultProfileUrl);
        live := LinkedInScraper.FetchLinkedInSummary(url, src.page, src.decode);
      }
      value := ContextValue(github, linkedin, live);
      cache := Some(CacheEntry(value, later + CacheTtlMs));
    }
  }
}
