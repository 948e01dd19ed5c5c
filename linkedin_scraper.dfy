/**
 * The best-effort LinkedIn public-page scraper: the first `<title>`, the
 * `content` of a `<meta>` tag picked by name or property, the description or
 * headline of a JSON-LD script block, and the summary text assembled from them.
 *
 * Each regular expression of the scraper is written twice: as a declarative
 * predicate saying where it matches, and as a left-to-right scanner proved to
 * find the leftmost such match, which is what `RegExp.prototype.exec` returns.
 * All patterns are ASCII and carry the `i` flag, so matching is ASCII
 * case-insensitive (`CiPrefixAt`).
 */
module LinkedInScraper {
  import opened Wrappers
  import opened Strings
  import opened Http

  // ---------------------------------------------------------------------------
  // Character facts

  predicate IsAsciiLetter(c: char)
  {
    'A' <= c <= 'Z' || 'a' <= c <= 'z'
  }

  predicate IsQuote(c: char)
  {
    c == '"' || c == '\''
  }

  /** A case-insensitive match against a non-letter is an exact match. */
  lemma CiNonLetter(c: char, d: char)
    requires !IsAsciiLetter(d) && AsciiLower(c) == AsciiLower(d)
    ensures c == d
  {
  }

  /** A case-insensitive occurrence of a pattern without `ch` holds no `ch` when ch is not a letter. */
  lemma CiPrefixAvoids(s: string, i: nat, pat: string, ch: char)
    requires CiPrefixAt(s, i, pat) && ch !in pat && !IsAsciiLetter(ch)
    ensures NoCharIn(s, i, i + |pat|, ch)
  {
    forall k | i <= k < i + |pat| && k < |s| ensures s[k] != ch {
      var d := pat[k - i];
      assert d in pat;
      assert AsciiLower(s[k]) == AsciiLower(d);
      if s[k] == ch {
        CiNonLetter(d, ch);
      }
    }
  }

  // ---------------------------------------------------------------------------
  // getTitle: /<title>([^<]*)<\/title>/i, an instance of OPEN([^<]*)CLOSE where
  // CLOSE starts with `<`

  const TitleOpen := "<title>"
  const TitleClose := "</title>"

  /** OPEN([^<]*)CLOSE matches html from i, its body being html[i + |open|..j]. */
  predicate BodyMatch(html: string, open: string, close: string, i: nat, j: nat)
  {
    i + |open| <= j && CiPrefixAt(html, i, open)
    && NoCharIn(html, i + |open|, j, '<') && CiPrefixAt(html, j, close)
  }

  /** A match ends its body at the first `<` after the opening text. */
  lemma BodyEndIsFirstLt(html: string, open: string, close: string, i: nat, j: nat)
    requires close != [] && close[0] == '<'
    requires BodyMatch(html, open, close, i, j)
    ensures IndexOfFrom(html, '<', i + |open|) == Some(j)
  {
    assert AsciiLower(html[j]) == AsciiLower(close[0]);
    CiNonLetter(html[j], '<');
  }

  /** Where the body of a match starting at i ends, if the pattern matches there. */
  function BodyAt(html: string, open: string, close: string, i: nat): (r: Option<nat>)
    requires close != [] && close[0] == '<'
    ensures r.Some? ==> BodyMatch(html, open, close, i, r.value)
    ensures forall j: nat :: BodyMatch(html, open, close, i, j) ==> r == Some(j)
  {
    assert forall j: nat :: BodyMatch(html, open, close, i, j) ==> IndexOfFrom(html, '<', i + |open|) == Some(j) by {
      forall j: nat | BodyMatch(html, open, close, i, j) ensures IndexOfFrom(html, '<', i + |open|) == Some(j) {
        BodyEndIsFirstLt(html, open, close, i, j);
      }
    }
    if !CiPrefixAt(html, i, open) then None
    else
      match IndexOfFrom(html, '<', i + |open|)
      case None => None
      case Some(j) => if CiPrefixAt(html, j, close) then Some(j) else None
  }

  /** The leftmost match starting at or after from, as (start, end of body). */
  function FindBody(html: string, open: string, close: string, from: nat): (r: Option<(nat, nat)>)
    requires close != [] && close[0] == '<'
    ensures r.Some? ==> from <= r.value.0 && BodyMatch(html, open, close, r.value.0, r.value.1)
    ensures r.Some? ==> forall i: nat, j: nat :: from <= i < r.value.0 ==> !BodyMatch(html, open, close, i, j)
    ensures r.None? ==> forall i: nat, j: nat :: from <= i ==> !BodyMatch(html, open, close, i, j)
    decreases |html| - from
  {
    if from >= |html| then None
    else
      match BodyAt(html, open, close, from)
      case Some(j) => Some((from, j))
      case None => FindBody(html, open, close, from + 1)
  }

  /** The body of the leftmost match: null exactly when the pattern matches nowhere. */
  function FirstBody(html: string, open: string, close: string): (r: Option<string>)
    requires close != [] && close[0] == '<'
    ensures r.None? <==> forall i: nat, j: nat :: !BodyMatch(html, open, close, i, j)
    ensures r.Some? ==> exists i: nat, j: nat :: BodyMatch(html, open, close, i, j)
                                      && (forall i': nat, j': nat :: i' < i ==> !BodyMatch(html, open, close, i', j'))
                                      && r.value == html[i + |open|..j]
  {
    match FindBody(html, open, close, 0)
    case None => None
    case Some((i, j)) => Some(html[i + |open|..j])
  }

  /** `getTitle(html)`: the trimmed body of the leftmost title match, or null. */
  function GetTitle(html: string): (r: Option<string>)
    ensures r.None? <==> forall i: nat, j: nat :: !BodyMatch(html, TitleOpen, TitleClose, i, j)
    ensures r.Some? ==> exists i: nat, j: nat :: BodyMatch(html, TitleOpen, TitleClose, i, j)
                                      && (forall i': nat, j': nat :: i' < i ==> !BodyMatch(html, TitleOpen, TitleClose, i', j'))
                                      && r.value == Trim(html[i + |TitleOpen|..j])
  {
    match FirstBody(html, TitleOpen, TitleClose)
    case None => None
    case Some(body) => Some(Trim(body))
  }

  // ---------------------------------------------------------------------------
  // Opening tags with one required attribute:
  //   getMeta:   <meta[^>]+KEY=["']VALUE["'][^>]*>
  //   tryJsonLd: <script[^>]*type=["']application/ld+json["'][^>]*>

  function AttrLen(key: string, value: string): nat
  {
    |key| + |value| + 3
  }

  /** `KEY=`, a quote, `VALUE` and a quote at p, ignoring ASCII case; either quote may be `'` or `"`. */
  predicate AttrAt(html: string, p: nat, key: string, value: string)
  {
    p + AttrLen(key, value) <= |html|
    && CiPrefixAt(html, p, key + "=") && IsQuote(html[p + |key| + 1])
    && CiPrefixAt(html, p + |key| + 2, value) && IsQuote(html[p + |key| + 2 + |value|])
  }

  /** The text of an attribute match holds no `>`. */
  lemma AttrAvoidsGt(html: string, p: nat, key: string, value: string)
    requires '>' !in key && '>' !in value
    requires AttrAt(html, p, key, value)
    ensures NoCharIn(html, p, p + AttrLen(key, value), '>')
  {
    assert '>' !in key + "=";
    CiPrefixAvoids(html, p, key + "=", '>');
    CiPrefixAvoids(html, p + |key| + 2, value, '>');
  }

  /**
   * `<TAG[^>]{min,}KEY=["']VALUE["'][^>]*>` matches html[i..g + 1], its attribute
   * starting at p (min is 1 for `[^>]+` and 0 for `[^>]*`).
   */
  predicate OpenTagMatch(html: string, tag: string, min: nat, key: string, value: string, i: nat, p: nat, g: nat)
  {
    i + |tag| + min <= p && p + AttrLen(key, value) <= g < |html|
    && CiPrefixAt(html, i, tag) && NoCharIn(html, i + |tag|, p, '>')
    && AttrAt(html, p, key, value)
    && NoCharIn(html, p + AttrLen(key, value), g, '>') && html[g] == '>'
  }

  /** The opening-tag pattern matches from i. */
  ghost predicate OpenTagMatchesAt(html: string, tag: string, min: nat, key: string, value: string, i: nat)
  {
    exists p: nat, g: nat :: OpenTagMatch(html, tag, min, key, value, i, p, g)
  }

  /** The opening-tag pattern matches html[i..g + 1] and matches nowhere before i. */
  ghost predicate LeftmostOpenTag(html: string, tag: string, min: nat, key: string, value: string, i: nat, g: nat)
  {
    (exists p: nat :: OpenTagMatch(html, tag, min, key, value, i, p, g))
    && forall i': nat :: i' < i ==> !OpenTagMatchesAt(html, tag, min, key, value, i')
  }

  /** Whether some position p with lo <= p and p + AttrLen <= hi holds the attribute. */
  function HasAttrIn(html: string, key: string, value: string, lo: nat, hi: nat): (b: bool)
    ensures b <==> exists p: nat :: lo <= p && p + AttrLen(key, value) <= hi && AttrAt(html, p, key, value)
    decreases hi - lo
  {
    if lo + AttrLen(key, value) > hi then false
    else AttrAt(html, lo, key, value) || HasAttrIn(html, key, value, lo + 1, hi)
  }

  /** A matched opening tag ends at the first `>` after the tag name. */
  lemma OpenTagEndIsFirstGt(html: string, tag: string, min: nat, key: string, value: string, i: nat, p: nat, g: nat)
    requires '>' !in key && '>' !in value
    requires OpenTagMatch(html, tag, min, key, value, i, p, g)
    ensures IndexOfFrom(html, '>', i + |tag|) == Some(g)
  {
    AttrAvoidsGt(html, p, key, value);
    assert NoCharIn(html, i + |tag|, g, '>');
  }

  /** Where the opening tag matched from i ends, if the pattern matches there. */
  function OpenTagAt(html: string, tag: string, min: nat, key: string, value: string, i: nat): (r: Option<nat>)
    requires '>' !in key && '>' !in value
    ensures r.Some? ==> exists p: nat :: OpenTagMatch(html, tag, min, key, value, i, p, r.value)
    ensures forall p: nat, g: nat :: OpenTagMatch(html, tag, min, key, value, i, p, g) ==> r == Some(g)
  {
    assert forall p: nat, g: nat :: OpenTagMatch(html, tag, min, key, value, i, p, g)
                                    ==> IndexOfFrom(html, '>', i + |tag|) == Some(g) && HasAttrIn(html, key, value, i + |tag| + min, g) by {
      forall p: nat, g: nat | OpenTagMatch(html, tag, min, key, value, i, p, g)
        ensures IndexOfFrom(html, '>', i + |tag|) == Some(g) && HasAttrIn(html, key, value, i + |tag| + min, g)
      {
        OpenTagEndIsFirstGt(html, tag, min, key, value, i, p, g);
      }
    }
    if !CiPrefixAt(html, i, tag) then None
    else
      match IndexOfFrom(html, '>', i + |tag|)
      case None => None
      case Some(g) =>
        if HasAttrIn(html, key, value, i + |tag| + min, g) then
          assert exists p: nat :: OpenTagMatch(html, tag, min, key, value, i, p, g) by {
            var p: nat :| i + |tag| + min <= p && p + AttrLen(key, value) <= g && AttrAt(html, p, key, value);
            assert OpenTagMatch(html, tag, min, key, value, i, p, g);
          }
          Some(g)
        else None
  }

  /** The opening-tag pattern does not match from i when the scanner finds no tag there. */
  lemma OpenTagAtNone(html: string, tag: string, min: nat, key: string, value: string, i: nat)
    requires '>' !in key && '>' !in value
    requires OpenTagAt(html, tag, min, key, value, i).None?
    ensures !OpenTagMatchesAt(html, tag, min, key, value, i)
  {
    forall p: nat, g: nat ensures !OpenTagMatch(html, tag, min, key, value, i, p, g) {
    }
  }

  /** No opening-tag match starts at or past the end of the text. */
  lemma OpenTagPastEnd(html: string, tag: string, min: nat, key: string, value: string, from: nat)
    requires from >= |html|
    ensures forall i: nat :: from <= i ==> !OpenTagMatchesAt(html, tag, min, key, value, i)
  {
    forall i: nat, p: nat, g: nat | from <= i ensures !OpenTagMatch(html, tag, min, key, value, i, p, g) {
    }
  }

  /** The leftmost opening-tag match starting at or after from, as (start, position of its `>`). */
  function FindOpenTag(html: string, tag: string, min: nat, key: string, value: string, from: nat): (r: Option<(nat, nat)>)
    requires '>' !in key && '>' !in value
    ensures r.Some? ==> from <= r.value.0 && exists p: nat :: OpenTagMatch(html, tag, min, key, value, r.value.0, p, r.value.1)
    ensures r.Some? ==> forall i: nat :: from <= i < r.value.0 ==> !OpenTagMatchesAt(html, tag, min, key, value, i)
    ensures r.None? ==> forall i: nat :: from <= i ==> !OpenTagMatchesAt(html, tag, min, key, value, i)
    decreases |html| - from
  {
    if from >= |html| then
      OpenTagPastEnd(html, tag, min, key, value, from);
      None
    else
      match OpenTagAt(html, tag, min, key, value, from)
      case Some(g) => Some((from, g))
      case None =>
        OpenTagAtNone(html, tag, min, key, value, from);
        FindOpenTag(html, tag, min, key, value, from + 1)
  }

  /** The leftmost opening-tag match is unique: its start and the position of its `>` are determined. */
  lemma LeftmostOpenTagUnique(html: string, tag: string, min: nat, key: string, value: string,
                              i: nat, g: nat, i': nat, g': nat)
    requires '>' !in key && '>' !in value
    requires LeftmostOpenTag(html, tag, min, key, value, i, g)
    requires LeftmostOpenTag(html, tag, min, key, value, i', g')
    ensures i == i' && g == g'
  {
    var p: nat :| OpenTagMatch(html, tag, min, key, value, i, p, g);
    var p': nat :| OpenTagMatch(html, tag, min, key, value, i', p', g');
    assert OpenTagMatchesAt(html, tag, min, key, value, i);
    assert OpenTagMatchesAt(html, tag, min, key, value, i');
    OpenTagEndIsFirstGt(html, tag, min, key, value, i, p, g);
    OpenTagEndIsFirstGt(html, tag, min, key, value, i', p', g');
  }

  // ---------------------------------------------------------------------------
  // getMeta: the tag, then /content=["']([^"']+)["']/i inside it

  /** Which attribute selects the tag: `name="..."` or `property="..."`. */
  datatype MetaKey = Name | Property

  function KeyText(key: MetaKey): string
  {
    match key
    case Name => "name"
    case Property => "property"
  }

  const MetaOpen := "<meta"
  const ContentAttr := "content="

  /** Index of the first quote character of t at or after from. */
  function QuoteIndexFrom(t: string, from: nat): (r: Option<nat>)
    ensures r.Some? ==> from <= r.value < |t| && IsQuote(t[r.value])
    ensures r.Some? ==> forall k :: from <= k < r.value ==> !IsQuote(t[k])
    ensures r.None? ==> forall k :: from <= k < |t| ==> !IsQuote(t[k])
    decreases |t| - from
  {
    if from >= |t| then None
    else if IsQuote(t[from]) then Some(from)
    else QuoteIndexFrom(t, from + 1)
  }

  /** The content pattern matches t from c, its captured value being t[c + 9..e]. */
  predicate ContentMatch(t: string, c: nat, e: nat)
  {
    c + |ContentAttr| + 1 < e < |t| && CiPrefixAt(t, c, ContentAttr) && IsQuote(t[c + |ContentAttr|])
    && (forall k :: c + |ContentAttr| + 1 <= k < e ==> !IsQuote(t[k])) && IsQuote(t[e])
  }

  /** Where the value of a content match starting at c ends, if the pattern matches there. */
  function ContentAt(t: string, c: nat): (r: Option<nat>)
    ensures r.Some? ==> ContentMatch(t, c, r.value)
    ensures forall e: nat :: ContentMatch(t, c, e) ==> r == Some(e)
  {
    if CiPrefixAt(t, c, ContentAttr) && c + |ContentAttr| < |t| && IsQuote(t[c + |ContentAttr|]) then
      match QuoteIndexFrom(t, c + |ContentAttr| + 1)
      case None => None
      case Some(e) => if e > c + |ContentAttr| + 1 then Some(e) else None
    else None
  }

  /** The leftmost content match starting at or after from. */
  function FindContent(t: string, from: nat): (r: Option<(nat, nat)>)
    ensures r.Some? ==> from <= r.value.0 && ContentMatch(t, r.value.0, r.value.1)
    ensures r.Some? ==> forall c: nat, e: nat :: from <= c < r.value.0 ==> !ContentMatch(t, c, e)
    ensures r.None? ==> forall c: nat, e: nat :: from <= c ==> !ContentMatch(t, c, e)
    decreases |t| - from
  {
    if from >= |t| then None
    else
      match ContentAt(t, from)
      case Some(e) => Some((from, e))
      case None => FindContent(t, from + 1)
  }

  /** The captured value of the leftmost content match in a tag: never empty, never holding a quote. */
  function ContentValue(tag: string): (r: Option<string>)
    ensures r.None? <==> forall c: nat, e: nat :: !ContentMatch(tag, c, e)
    ensures r.Some? ==> r.value != [] && forall k :: 0 <= k < |r.value| ==> !IsQuote(r.value[k])
    ensures r.Some? ==> exists c: nat, e: nat :: ContentMatch(tag, c, e)
                                                && (forall c': nat, e': nat :: c' < c ==> !ContentMatch(tag, c', e'))
                                                && r.value == tag[c + |ContentAttr| + 1..e]
  {
    match FindContent(tag, 0)
    case None => None
    case Some((c, e)) =>
      assert ContentMatch(tag, c, e);
      Some(tag[c + |ContentAttr| + 1..e])
  }

  /** A meta value can be matched literally: it holds no `>`. */
  predicate LiteralValue(value: string)
  {
    '>' !in value
  }

  /**
   * The text of the leftmost `<TAG[^>]+KEY=["']VALUE["'][^>]*>` tag: null exactly
   * when no tag matches.
   */
  function FirstTag(html: string, tag: string, key: string, value: string): (r: Option<string>)
    requires '>' !in key && '>' !in value
    ensures r.None? <==> forall i: nat :: !OpenTagMatchesAt(html, tag, 1, key, value, i)
    ensures r.Some? ==> exists i: nat, g: nat :: g < |html| && LeftmostOpenTag(html, tag, 1, key, value, i, g)
                                                && r.value == html[i..g + 1]
  {
    match FindOpenTag(html, tag, 1, key, value, 0)
    case None => None
    case Some((i, g)) =>
      assert OpenTagMatchesAt(html, tag, 1, key, value, i);
      assert LeftmostOpenTag(html, tag, 1, key, value, i, g);
      Some(html[i..g + 1])
  }

  /**
   * `getMeta(html, key, value)`: null when no meta tag carries `key="value"`;
   * otherwise the content value of the leftmost such tag, or null when it has none.
   */
  function GetMeta(html: string, key: MetaKey, value: string): (r: Option<string>)
    requires LiteralValue(value)
    ensures (forall i: nat :: !OpenTagMatchesAt(html, MetaOpen, 1, KeyText(key), value, i)) ==> r.None?
    ensures (exists i: nat :: OpenTagMatchesAt(html, MetaOpen, 1, KeyText(key), value, i)) ==>
              exists i: nat, g: nat :: g < |html| && LeftmostOpenTag(html, MetaOpen, 1, KeyText(key), value, i, g)
                                      && r == ContentValue(html[i..g + 1])
  {
    assert '>' !in KeyText(key);
    match FirstTag(html, MetaOpen, KeyText(key), value)
    case None => None
    case Some(t) => ContentValue(t)
  }

  // ---------------------------------------------------------------------------
  // tryJsonLd: /<script[^>]*type=["']application\/ld\+json["'][^>]*>([\s\S]*?)<\/script>/i,
  // an instance of <TAG[^>]*KEY=["']VALUE["'][^>]*>([\s\S]*?)CLOSE

  const ScriptOpen := "<script"
  const ScriptClose := "</script>"
  const LdJsonType := "application/ld+json"

  /** The position of the first case-insensitive occurrence of pat in s at or after from. */
  function FindCi(s: string, pat: string, from: nat): (r: Option<nat>)
    ensures r.Some? ==> from <= r.value && CiPrefixAt(s, r.value, pat)
    ensures r.Some? ==> forall k: nat :: from <= k < r.value ==> !CiPrefixAt(s, k, pat)
    ensures r.None? ==> forall k: nat :: from <= k ==> !CiPrefixAt(s, k, pat)
    decreases |s| - from
  {
    if from + |pat| > |s| then None
    else if CiPrefixAt(s, from, pat) then Some(from)
    else FindCi(s, pat, from + 1)
  }

  /**
   * The element pattern matches html from i: the opening tag ends at g (its
   * attribute at p) and the lazy body html[g + 1..e] runs to the first CLOSE.
   */
  predicate ElementMatch(html: string, tag: string, key: string, value: string, close: string,
                         i: nat, p: nat, g: nat, e: nat)
  {
    OpenTagMatch(html, tag, 0, key, value, i, p, g)
    && g + 1 <= e && CiPrefixAt(html, e, close)
    && forall k: nat :: g + 1 <= k < e ==> !CiPrefixAt(html, k, close)
  }

  /** The element pattern matches from i. */
  ghost predicate ElementMatchesAt(html: string, tag: string, key: string, value: string, close: string, i: nat)
  {
    exists p: nat, g: nat, e: nat :: ElementMatch(html, tag, key, value, close, i, p, g, e)
  }

  /** The element pattern matches from i with tag end g and body end e, and matches nowhere before i. */
  ghost predicate LeftmostElement(html: string, tag: string, key: string, value: string, close: string,
                                  i: nat, g: nat, e: nat)
  {
    (exists p: nat :: ElementMatch(html, tag, key, value, close, i, p, g, e))
    && forall i': nat :: i' < i ==> !ElementMatchesAt(html, tag, key, value, close, i')
  }

  /** Where the tag and the body of an element match starting at i end, if the pattern matches there. */
  function ElementAt(html: string, tag: string, key: string, value: string, close: string, i: nat)
    : (r: Option<(nat, nat)>)
    requires '>' !in key && '>' !in value
    ensures r.Some? ==> exists p: nat :: ElementMatch(html, tag, key, value, close, i, p, r.value.0, r.value.1)
    ensures forall p: nat, g: nat, e: nat :: ElementMatch(html, tag, key, value, close, i, p, g, e) ==> r == Some((g, e))
  {
    match OpenTagAt(html, tag, 0, key, value, i)
    case None => None
    case Some(g) =>
      match FindCi(html, close, g + 1)
      case None => None
      case Some(e) =>
        assert exists p: nat :: ElementMatch(html, tag, key, value, close, i, p, g, e) by {
          var p: nat :| OpenTagMatch(html, tag, 0, key, value, i, p, g);
          assert ElementMatch(html, tag, key, value, close, i, p, g, e);
        }
        Some((g, e))
  }

  /** The leftmost element match is unique: its start, the end of its tag and the end of its body are determined. */
  lemma LeftmostElementUnique(html: string, tag: string, key: string, value: string, close: string,
                              i: nat, g: nat, e: nat, i': nat, g': nat, e': nat)
    requires '>' !in key && '>' !in value
    requires LeftmostElement(html, tag, key, value, close, i, g, e)
    requires LeftmostElement(html, tag, key, value, close, i', g', e')
    ensures i == i' && g == g' && e == e'
  {
    var p: nat :| ElementMatch(html, tag, key, value, close, i, p, g, e);
    var p': nat :| ElementMatch(html, tag, key, value, close, i', p', g', e');
    assert ElementMatchesAt(html, tag, key, value, close, i);
    assert ElementMatchesAt(html, tag, key, value, close, i');
    OpenTagEndIsFirstGt(html, tag, 0, key, value, i, p, g);
    OpenTagEndIsFirstGt(html, tag, 0, key, value, i', p', g');
  }

  /** The element pattern does not match from i when the scanner finds no element there. */
  lemma ElementAtNone(html: string, tag: string, key: string, value: string, close: string, i: nat)
    requires '>' !in key && '>' !in value
    requires ElementAt(html, tag, key, value, close, i).None?
    ensures !ElementMatchesAt(html, tag, key, value, close, i)
  {
    forall p: nat, g: nat, e: nat ensures !ElementMatch(html, tag, key, value, close, i, p, g, e) {
    }
  }

  /** No element match starts at or past the end of the text. */
  lemma ElementPastEnd(html: string, tag: string, key: string, value: string, close: string, from: nat)
    requires from >= |html|
    ensures forall i: nat :: from <= i ==> !ElementMatchesAt(html, tag, key, value, close, i)
  {
    forall i: nat, p: nat, g: nat, e: nat | from <= i ensures !ElementMatch(html, tag, key, value, close, i, p, g, e) {
      assert !OpenTagMatch(html, tag, 0, key, value, i, p, g);
    }
  }

  /** The leftmost element match starting at or after from, as (start, end of tag, end of body). */
  function FindElement(html: string, tag: string, key: string, value: string, close: string, from: nat)
    : (r: Option<(nat, nat, nat)>)
    requires '>' !in key && '>' !in value
    ensures r.Some? ==> from <= r.value.0 && exists p: nat :: ElementMatch(html, tag, key, value, close, r.value.0, p, r.value.1, r.value.2)
    ensures r.Some? ==> forall i: nat :: from <= i < r.value.0 ==> !ElementMatchesAt(html, tag, key, value, close, i)
    ensures r.None? ==> forall i: nat :: from <= i ==> !ElementMatchesAt(html, tag, key, value, close, i)
    decreases |html| - from
  {
    if from >= |html| then
      ElementPastEnd(html, tag, key, value, close, from);
      None
    else
      match ElementAt(html, tag, key, value, close, from)
      case Some((g, e)) => Some((from, g, e))
      case None =>
        ElementAtNone(html, tag, key, value, close, from);
        FindElement(html, tag, key, value, close, from + 1)
  }

  /** The leftmost element match in the whole text: none exactly when the pattern matches nowhere. */
  function FirstElement(html: string, tag: string, key: string, value: string, close: string)
    : (r: Option<(nat, nat, nat)>)
    requires '>' !in key && '>' !in value
    ensures r.None? <==> forall i: nat :: !ElementMatchesAt(html, tag, key, value, close, i)
    ensures r.Some? ==> r.value.1 + 1 <= r.value.2 <= |html|
                        && LeftmostElement(html, tag, key, value, close, r.value.0, r.value.1, r.value.2)
  {
    match FindElement(html, tag, key, value, close, 0)
    case None => None
    case Some((i, g, e)) =>
      assert ElementMatchesAt(html, tag, key, value, close, i);
      assert LeftmostElement(html, tag, key, value, close, i, g, e);
      Some((i, g, e))
  }

  /** The scanner finds exactly the leftmost element match. */
  lemma FirstElementIsLeftmost(html: string, tag: string, key: string, value: string, close: string,
                               i: nat, g: nat, e: nat)
    requires '>' !in key && '>' !in value
    requires LeftmostElement(html, tag, key, value, close, i, g, e)
    ensures FirstElement(html, tag, key, value, close) == Some((i, g, e))
  {
    assert ElementMatchesAt(html, tag, key, value, close, i);
    var first := FirstElement(html, tag, key, value, close);
    LeftmostElementUnique(html, tag, key, value, close, i, g, e, first.value.0, first.value.1, first.value.2);
  }

  /** What the scraper reads from the parsed JSON-LD object: `json?.description` and `json?.headline`. */
  datatype LdFields = LdFields(description: Option<string>, headline: Option<string>)

  /** `a || b || null` over two optional strings. */
  function FirstTruthy(a: Option<string>, b: Option<string>): (r: Option<string>)
    ensures r.Some? ==> r.value != ""
    ensures Truthy(a) ==> r == a
    ensures !Truthy(a) ==> r == (if Truthy(b) then b else None)
  {
    if Truthy(a) then a else if Truthy(b) then b else None
  }

  /**
   * `tryJsonLd(html)`. `decode` stands for `JSON.parse` followed by the two
   * property reads: None when parsing throws.
   */
  function TryJsonLd(html: string, decode: string -> Option<LdFields>): (r: Option<string>)
    ensures r.Some? ==> r.value != ""
    ensures (forall i: nat :: !ElementMatchesAt(html, ScriptOpen, "type", LdJsonType, ScriptClose, i)) ==> r.None?
    ensures (exists i: nat :: ElementMatchesAt(html, ScriptOpen, "type", LdJsonType, ScriptClose, i)) ==>
              exists i: nat, g: nat, e: nat ::
                && g + 1 <= e <= |html| && LeftmostElement(html, ScriptOpen, "type", LdJsonType, ScriptClose, i, g, e)
                && r == LdValue(decode(html[g + 1..e]))
  {
    match FirstElement(html, ScriptOpen, "type", LdJsonType, ScriptClose)
    case None => None
    case Some((i, g, e)) =>
      var v := LdValue(decode(html[g + 1..e]));
      assert g + 1 <= e <= |html| && LeftmostElement(html, ScriptOpen, "type", LdJsonType, ScriptClose, i, g, e)
             && v == LdValue(decode(html[g + 1..e]));
      v
  }

  /** `description || headline` of a parsed block, and null when parsing threw. */
  function LdValue(fields: Option<LdFields>): (r: Option<string>)
    ensures fields.None? ==> r.None?
    ensures fields.Some? ==> r == FirstTruthy(fields.value.description, fields.value.headline)
  {
    match fields
    case None => None
    case Some(f) => FirstTruthy(f.description, f.headline)
  }

  // ---------------------------------------------------------------------------
  // fetchLinkedInSummary

  const SummaryHeader := "LINKEDIN PUBLIC PROFILE:"
  const NoDescription := "No public description found."

  /** `og || meta || tw || ld || 'No public description found.'`. */
  function Description(og: Option<string>, meta: Option<string>, tw: Option<string>, ld: Option<string>): (d: string)
    ensures d != ""
    ensures Truthy(og) ==> d == og.value
    ensures !Truthy(og) && Truthy(meta) ==> d == meta.value
    ensures !Truthy(og) && !Truthy(meta) && Truthy(tw) ==> d == tw.value
    ensures !Truthy(og) && !Truthy(meta) && !Truthy(tw) && Truthy(ld) ==> d == ld.value
    ensures !Truthy(og) && !Truthy(meta) && !Truthy(tw) && !Truthy(ld) ==> d == NoDescription
  {
    if Truthy(og) then og.value
    else if Truthy(meta) then meta.value
    else if Truthy(tw) then tw.value
    else if Truthy(ld) then ld.value
    else NoDescription
  }

  /** The description the scraper settles on for a page. */
  function PageDescription(html: string, decode: string -> Option<LdFields>): string
  {
    Description(
      GetMeta(html, Property, "og:description"),
      GetMeta(html, Name, "description"),
      GetMeta(html, Name, "twitter:description"),
      TryJsonLd(html, decode))
  }

  /** The summary lines left by `filter(Boolean)`: the title line only when the title is non-empty. */
  function SummaryLines(url: string, title: Option<string>, description: string): (lines: seq<string>)
    ensures |lines| == (if Truthy(title) then 4 else 3)
    ensures lines[0] == SummaryHeader && lines[1] == "URL: " + url
    ensures Truthy(title) ==> lines[2] == "Title: " + title.value
    ensures lines[|lines| - 1] == "Summary: " + description
  {
    [SummaryHeader, "URL: " + url]
    + (if Truthy(title) then ["Title: " + title.value] else [])
    + ["Summary: " + description]
  }

  /**
   * `fetchLinkedInSummary(url)`, given the outcome of the page fetch. It never
   * rejects: a thrown error and a non-OK status each become a fixed message.
   */
  function FetchLinkedInSummary(url: string, res: Fetch<string>, decode: string -> Option<LdFields>): (s: string)
    ensures s != ""
    ensures res.Threw? ==> s == "LINKEDIN: Fetch error (" + MessageOrUnknown(res.message) + ")."
    ensures res.Responded? && !IsOk(res.status) ==> s == "LINKEDIN: Failed to fetch (" + IntToString(res.status) + " " + res.statusText + ")."
    ensures res.Responded? && IsOk(res.status) ==> s == Join(SummaryLines(url, GetTitle(res.body), PageDescription(res.body, decode)), "\n")
  {
    match res
    case Threw(m) => "LINKEDIN: Fetch error (" + MessageOrUnknown(m) + ")."
    case Responded(status, text, html) =>
      if !IsOk(status) then "LINKEDIN: Failed to fetch (" + IntToString(status) + " " + text + ")."
      else Join(SummaryLines(url, GetTitle(html), PageDescription(html, decode)), "\n")
  }

  /** A non-OK answer gives the same text whatever page came with it: no HTML is parsed. */
  lemma FailedFetchIgnoresPage(url: string, status: int, text: string, html1: string, html2: string,
                               decode1: string -> Option<LdFields>, decode2: string -> Option<LdFields>)
    requires !IsOk(status)
    ensures FetchLinkedInSummary(url, Responded(status, text, html1), decode1)
         == FetchLinkedInSummary(url, Responded(status, text, html2), decode2)
  {
  }

  /**
   * A successful summary consists of exactly its three or four lines: the
   * header, the URL, the title when there is one, and the description (when
   * none of these holds a line break of its own).
   */
  lemma SummaryLinesRoundTrip(url: string, title: Option<string>, description: string)
    requires '\n' !in url && '\n' !in description
    requires title.Some? ==> '\n' !in title.value
    ensures Split(Join(SummaryLines(url, title, description), "\n"), '\n') == SummaryLines(url, title, description)
  {
    var lines := SummaryLines(url, title, description);
    forall l | l in lines ensures '\n' !in l {
      var k :| 0 <= k < |lines| && lines[k] == l;
      if k == 0 {
        assert l == SummaryHeader;
      } else if k == 1 {
        assert l == "URL: " + url;
      } else if k == |lines| - 1 {
        assert l == "Summary: " + description;
      } else {
        assert l == "Title: " + title.value;
      }
    }
    SplitJoin(lines, '\n');
  }
}
