/**
 * The GitHub REST helpers: request headers, the repository-list page size,
 * contents-path normalisation and URL construction, wrapping of a single
 * contents item into a list, and the size cap on decoded file text.
 *
 * The HTTP exchange is a parameter (`Fetch`); the byte codecs of Node's
 * `Buffer` are the three function fields of `Codecs`.
 */
module GitHubRest {
  import opened Wrappers
  import opened Strings
  import opened Http

  type Byte = b: int | 0 <= b < 256

  const Base := "https://api.github.com"

  /** Files are cut to this many decoded bytes (100 KiB). */
  const MaxFileBytes := 100 * 1024

  const TruncationMarker := "\n\n[truncated]"

  /** The page size used when the caller gives no limit. */
  const DefaultRepoLimit := 50

  /** The largest page size GitHub serves. */
  const MaxPageSize := 100

  datatype Repo = Repo(
    name: string,
    fullName: string,
    description: Option<string>,
    htmlUrl: string,
    language: Option<string>,
    defaultBranch: Option<string>)

  datatype ContentKind = File | Dir | Symlink | Submodule

  datatype ContentItem = ContentItem(
    name: string,
    path: string,
    kind: ContentKind,
    size: int,
    sha: string,
    htmlUrl: Option<string>)

  /** A contents response: a directory listing or a single item. */
  datatype ContentsBody = ItemList(items: seq<ContentItem>) | SingleItem(item: ContentItem)

  /** The JSON body of a file-contents response. */
  datatype FileJson = FileJson(content: Option<string>, encoding: Option<string>)

  /** `Buffer.from(s, 'base64')`, `Buffer.from(s, 'utf8')` and `buf.toString('utf8')`. */
  datatype Codecs = Codecs(
    fromBase64: string -> seq<Byte>,
    fromUtf8: string -> seq<Byte>,
    toUtf8: seq<Byte> -> string)

  /** The request headers; `Authorization` is added in place when a token is configured. */
  method Headers(env: Env) returns (h: map<string, string>)
    ensures "Accept" in h && h["Accept"] == "application/vnd.github+json"
    ensures "X-GitHub-Api-Version" in h && h["X-GitHub-Api-Version"] == "2022-11-28"
    ensures "Authorization" in h <==> EnvSet(env, "GITHUB_TOKEN")
    ensures "Authorization" in h ==> h["Authorization"] == "Bearer " + env["GITHUB_TOKEN"]
    ensures h.Keys <= {"Accept", "X-GitHub-Api-Version", "Authorization"}
  {
    h := map["Accept" := "application/vnd.github+json", "X-GitHub-Api-Version" := "2022-11-28"];
    if EnvSet(env, "GITHUB_TOKEN") {
      h := h["Authorization" := "Bearer " + env["GITHUB_TOKEN"]];
    }
  }

  /** The message of the error thrown for a non-OK response. */
  function StatusError(status: int, statusText: string, url: string): string
  {
    "GitHub API " + IntToString(status) + " " + statusText + " for " + url
  }

  /** `getJson`: the decoded body of an OK response, otherwise the thrown error. */
  function GetJson<T>(url: string, res: Fetch<T>): (r: Result<T, string>)
    ensures r.Ok? <==> res.Responded? && IsOk(res.status)
    ensures r.Ok? ==> r.value == res.body
    ensures res.Threw? ==> r == Err(res.message)
    ensures res.Responded? && !IsOk(res.status) ==> r == Err(StatusError(res.status, res.statusText, url))
  {
    match res
    case Threw(m) => Err(m)
    case Responded(status, text, body) =>
      if IsOk(status) then Ok(body) else Err(StatusError(status, text, url))
  }

  // ---------------------------------------------------------------------------
  // listUserRepos

  /** `Math.min(limit, 100)` with the default limit of 50. */
  function PageSize(limit: Option<int>): (n: int)
    ensures n <= MaxPageSize
    ensures limit.None? ==> n == DefaultRepoLimit
    ensures limit.Some? && limit.value <= MaxPageSize ==> n == limit.value
    ensures limit.Some? && limit.value > MaxPageSize ==> n == MaxPageSize
  {
    var l := limit.GetOr(DefaultRepoLimit);
    if l < MaxPageSize then l else MaxPageSize
  }

  function ReposUrl(user: string, limit: Option<int>): string
  {
    Base + "/users/" + user + "/repos?sort=updated&per_page=" + IntToString(PageSize(limit))
  }

  /** `listUserRepos(user, limit)`. */
  function ListUserRepos(user: string, limit: Option<int>, res: Fetch<seq<Repo>>): (r: Result<seq<Repo>, string>)
    ensures r.Ok? <==> res.Responded? && IsOk(res.status)
    ensures r.Ok? ==> r.value == res.body
    ensures res.Threw? ==> r == Err(res.message)
    ensures res.Responded? && !IsOk(res.status) ==> r == Err(StatusError(res.status, res.statusText, ReposUrl(user, limit)))
  {
    GetJson(ReposUrl(user, limit), res)
  }

  // ---------------------------------------------------------------------------
  // listRepoContents

  predicate IsSlash(c: char)
  {
    c == '/'
  }

  /** `path.replace(/^\/+|\/+$/g, '')`: drops the leading and the trailing run of slashes. */
  function NormPath(path: string): string
  {
    Strip(path, IsSlash)
  }

  /**
   * The normalised path is the part of the path between a leading and a trailing
   * run of slashes: interior slashes stay and no slash is left at either end.
   */
  lemma NormPathSlice(path: string) returns (i: nat, j: nat)
    ensures i <= j <= |path| && NormPath(path) == path[i..j]
    ensures forall k :: 0 <= k < i ==> path[k] == '/'
    ensures forall k :: j <= k < |path| ==> path[k] == '/'
    ensures var n := NormPath(path); n == [] || (n[0] != '/' && n[|n| - 1] != '/')
  {
    i, j := StripIsInnerSlice(path, IsSlash);
    StripEnds(path, IsSlash);
    forall k | 0 <= k < i ensures path[k] == '/' {
      assert IsSlash(path[k]);
    }
    forall k | j <= k < |path| ensures path[k] == '/' {
      assert IsSlash(path[k]);
    }
  }

  /** Normalising an already normalised path changes nothing. */
  lemma NormPathIdempotent(path: string)
    ensures NormPath(NormPath(path)) == NormPath(path)
  {
    StripIdempotent(path, IsSlash);
  }

  /** `s.replace(/\/$/, '')`: drops one trailing slash. */
  function DropFinalSlash(s: string): string
  {
    if s != [] && s[|s| - 1] == '/' then s[..|s| - 1] else s
  }

  function ContentsPrefix(owner: string, repo: string): string
  {
    Base + "/repos/" + owner + "/" + repo + "/contents"
  }

  /** The contents URL for an optional path (the default path is `''`). */
  function ContentsUrl(owner: string, repo: string, path: Option<string>): (url: string)
    ensures url != [] && url[|url| - 1] != '/'
    ensures NormPath(path.GetOr("")) == "" ==> url == ContentsPrefix(owner, repo)
    ensures NormPath(path.GetOr("")) != "" ==> url == ContentsPrefix(owner, repo) + "/" + NormPath(path.GetOr(""))
  {
    var prefix := ContentsPrefix(owner, repo);
    var norm := NormPath(path.GetOr(""));
    assert prefix[|prefix| - 1] == 's';
    AppendPath(prefix, norm);
    DropFinalSlash(prefix + "/" + norm)
  }

  /** Dropping the final slash of `prefix/norm` leaves `prefix` for an empty norm and changes nothing otherwise. */
  lemma AppendPath(prefix: string, norm: string)
    requires prefix != [] && prefix[|prefix| - 1] != '/'
    requires norm == [] || norm[|norm| - 1] != '/'
    ensures norm == [] ==> DropFinalSlash(prefix + "/" + norm) == prefix
    ensures norm != [] ==> DropFinalSlash(prefix + "/" + norm) == prefix + "/" + norm
    ensures var url := DropFinalSlash(prefix + "/" + norm); url != [] && url[|url| - 1] != '/'
  {
    var raw := prefix + "/" + norm;
    if norm == [] {
      assert raw == prefix + "/";
      assert raw[..|raw| - 1] == prefix;
    } else {
      assert raw[|raw| - 1] == norm[|norm| - 1];
    }
  }

  /** `listRepoContents`: an array response as it is, a single item as a one-element list. */
  function ListRepoContents(owner: string, repo: string, path: Option<string>, res: Fetch<ContentsBody>)
    : (r: Result<seq<ContentItem>, string>)
    ensures r.Ok? <==> res.Responded? && IsOk(res.status)
    ensures r.Ok? && res.body.ItemList? ==> r.value == res.body.items
    ensures r.Ok? && res.body.SingleItem? ==> r.value == [res.body.item]
    ensures res.Threw? ==> r == Err(res.message)
    ensures res.Responded? && !IsOk(res.status) ==> r == Err(StatusError(res.status, res.statusText, ContentsUrl(owner, repo, path)))
  {
    match GetJson(ContentsUrl(owner, repo, path), res)
    case Err(e) => Err(e)
    case Ok(body) =>
      match body
      case ItemList(items) => Ok(items)
      case SingleItem(item) => Ok([item])
  }

  // ---------------------------------------------------------------------------
  // getFileText

  /** `path.replace(/^\/+/, '')`: only the leading slashes go. */
  function FilePath(path: string): (p: string)
    ensures |p| <= |path| && path == path[..|path| - |p|] + p
    ensures forall k :: 0 <= k < |path| - |p| ==> path[k] == '/'
    ensures p == [] || p[0] != '/'
  {
    DropLeading(path, IsSlash)
  }

  function FileUrl(owner: string, repo: string, path: string): string
  {
    ContentsPrefix(owner, repo) + "/" + FilePath(path)
  }

  /** The bytes kept from a decoded file, and whether any were cut. */
  function CapBytes(buf: seq<Byte>): (r: (seq<Byte>, bool))
    ensures |buf| <= MaxFileBytes ==> r == (buf, false)
    ensures |buf| > MaxFileBytes ==> r.1 && |r.0| == MaxFileBytes && buf == r.0 + buf[MaxFileBytes..]
  {
    if |buf| > MaxFileBytes then (buf[..MaxFileBytes], true) else (buf, false)
  }

  /** `getFileText(owner, repo, path)`. */
  function GetFileText(owner: string, repo: string, path: string, res: Fetch<FileJson>, codecs: Codecs)
    : (r: Result<string, string>)
    ensures res.Threw? ==> r == Err(res.message)
    ensures res.Responded? && !IsOk(res.status) ==> r == Err(StatusError(res.status, res.statusText, FileUrl(owner, repo, path)))
    ensures res.Responded? && IsOk(res.status) && res.body.content.GetOr("") == "" ==> r == Err("No content in response")
    ensures r.Ok? ==> res.Responded? && IsOk(res.status) && res.body.content.GetOr("") != ""
  {
    match res
    case Threw(m) => Err(m)
    case Responded(status, text, json) =>
      if !IsOk(status) then Err(StatusError(status, text, FileUrl(owner, repo, path)))
      else if json.content.GetOr("") == "" then Err("No content in response")
      else
        var content := json.content.value;
        var buf := if json.encoding == Some("base64") then codecs.fromBase64(content) else codecs.fromUtf8(content);
        var (kept, cut) := CapBytes(buf);
        Ok(codecs.toUtf8(kept) + (if cut then TruncationMarker else ""))
  }

  /**
   * A file of at most 100 KiB decoded bytes comes back whole; a longer one as the
   * text of its first 100 KiB followed by the truncation marker.
   */
  lemma FileTextCap(owner: string, repo: string, path: string, status: int, text: string,
                    content: string, encoding: Option<string>, codecs: Codecs)
    requires IsOk(status) && content != ""
    ensures var buf := if encoding == Some("base64") then codecs.fromBase64(content) else codecs.fromUtf8(content);
            var r := GetFileText(owner, repo, path, Responded(status, text, FileJson(Some(content), encoding)), codecs);
            && (|buf| <= MaxFileBytes ==> r == Ok(codecs.toUtf8(buf)))
            && (|buf| > MaxFileBytes ==> r == Ok(codecs.toUtf8(buf[..MaxFileBytes]) + TruncationMarker))
  {
    var buf := if encoding == Some("base64") then codecs.fromBase64(content) else codecs.fromUtf8(content);
    var (kept, cut) := CapBytes(buf);
    if |buf| <= MaxFileBytes {
      assert kept == buf && !cut;
      assert codecs.toUtf8(kept) + "" == codecs.toUtf8(buf);
    } else {
      assert kept == buf[..MaxFileBytes] && cut;
    }
  }
}
