/**
 * The text side of `URLImporter` in backend/app/services/url_importer.py: URL
 * classification on top of `urllib.parse.urlparse`, the subtitle line filters, the
 * whitespace clean-up, and the page list built around `_split_into_chunks`.
 * Fetching pages and videos is done by foreign libraries; their results are inputs.
 */
module UrlImporter {
  import opened Wrappers
  import opened Strings
  import ChunkSplit
  import ImportSchema

  // ---------------------------------------------------------------------------
  // `urllib.parse.urlparse`, the parts the importer reads

  /** The WHATWG "C0 control or space" set that `urlsplit` strips from the front. */
  predicate IsC0OrSpace(c: char) {
    c as int <= 32
  }

  /** Tab, carriage return and line feed, which `urlsplit` deletes everywhere. */
  predicate IsUnsafe(c: char) {
    c == '\t' || c == '\r' || c == '\n'
  }

  function LStripC0(s: string): (r: string)
    ensures |r| <= |s| && r == s[|s| - |r|..]
    ensures r == [] || !IsC0OrSpace(r[0])
    ensures forall k :: 0 <= k < |s| - |r| ==> IsC0OrSpace(s[k])
  {
    if s == [] || !IsC0OrSpace(s[0]) then s else LStripC0(s[1..])
  }

  function RemoveUnsafe(s: string): (r: string)
    ensures forall c :: c in r ==> !IsUnsafe(c) && c in s
  {
    if s == [] then []
    else if IsUnsafe(s[0]) then RemoveUnsafe(s[1..])
    else [s[0]] + RemoveUnsafe(s[1..])
  }

  lemma {:induction false} RemoveUnsafeAppend(a: string, b: string)
    ensures RemoveUnsafe(a + b) == RemoveUnsafe(a) + RemoveUnsafe(b)
    decreases |a|
  {
    if a != [] {
      assert (a + b)[1..] == a[1..] + b;
      RemoveUnsafeAppend(a[1..], b);
    } else {
      assert a + b == b;
    }
  }

  lemma {:induction false} RemoveUnsafeKeeps(s: string)
    requires forall c :: c in s ==> !IsUnsafe(c)
    ensures RemoveUnsafe(s) == s
    decreases |s|
  {
    if s != [] {
      assert forall c :: c in s[1..] ==> c in s;
      RemoveUnsafeKeeps(s[1..]);
    }
  }

  predicate IsAsciiLetter(c: char) {
    'a' <= c <= 'z' || 'A' <= c <= 'Z'
  }

  /** `urllib.parse.scheme_chars` */
  predicate IsSchemeChar(c: char) {
    IsAsciiLetter(c) || IsDigitChar(c) || c == '+' || c == '-' || c == '.'
  }

  /** The parts of a split URL; `rest` is what follows the authority (path, query and fragment). */
  datatype UrlParts = UrlParts(scheme: string, netloc: string, rest: string)

  /** The first of `/`, `?` or `#` at or after `from`, else the end: where the authority stops. */
  function NetlocEnd(s: string, from: nat): (k: nat)
    requires from <= |s|
    ensures from <= k <= |s|
    ensures forall j :: from <= j < k ==> s[j] !in "/?#"
    ensures k < |s| ==> s[k] in "/?#"
    decreases |s| - from
  {
    if from == |s| || s[from] in "/?#" then from else NetlocEnd(s, from + 1)
  }

  /** The scheme prefix `urlsplit` accepts: a letter first, scheme characters up to the first colon. */
  predicate HasScheme(u: string) {
    var i := Find(u, ":");
    i.Some? && i.value > 0 && IsAsciiLetter(u[0]) && forall k :: 0 <= k < i.value ==> IsSchemeChar(u[k])
  }

  /** The scheme, lower-cased, and what follows its colon; no scheme leaves the text whole. */
  function SplitScheme(u: string): (string, string) {
    if HasScheme(u) then
      var i := Find(u, ":").value;
      (Lower(u[..i]), u[i + 1..])
    else ([], u)
  }

  /** The authority after `//`, refused when it holds only one of `[` and `]`. */
  function SplitNetloc(scheme: string, afterScheme: string): (r: Result<UrlParts, string>)
    ensures r.Success? ==> forall c :: c in r.value.netloc ==> c !in "/?#" && c in afterScheme
    ensures r.Success? ==> ('[' in r.value.netloc <==> ']' in r.value.netloc)
    ensures r.Success? ==> r.value.scheme == scheme
    ensures r.Success? && r.value.netloc != [] ==> StartsWith(afterScheme, "//")
  {
    if StartsWith(afterScheme, "//") then
      var k := NetlocEnd(afterScheme, 2);
      var netloc := afterScheme[2..k];
      assert forall c :: c in netloc ==> c in afterScheme;
      if ('[' in netloc) != (']' in netloc) then Failure("Invalid IPv6 URL")
      else Success(UrlParts(scheme, netloc, afterScheme[k..]))
    else
      Success(UrlParts(scheme, [], afterScheme))
  }

  /**
   * `urlsplit(url)` as far as scheme and authority go: strip leading C0 controls and
   * spaces, delete tabs and newlines, take the scheme when the text before the first
   * colon qualifies, take the authority after `//`, and refuse an authority holding
   * only one of `[` and `]`.
   */
  function UrlSplit(url: string): (r: Result<UrlParts, string>)
    ensures r.Success? ==> forall c :: c in r.value.netloc ==> c !in "/?#" && !IsUnsafe(c)
    ensures r.Success? ==> ('[' in r.value.netloc <==> ']' in r.value.netloc)
  {
    var u := RemoveUnsafe(LStripC0(url));
    var parts := SplitScheme(u);
    assert forall c :: c in parts.1 ==> c in u;
    SplitNetloc(parts.0, parts.1)
  }

  /** `_is_valid_url`: the URL splits and has both a scheme and an authority. */
  predicate IsValidUrl(url: string) {
    var r := UrlSplit(url);
    r.Success? && r.value.scheme != [] && r.value.netloc != []
  }

  /** What `_get_url_type` can answer. */
  datatype UrlKind = YouTube | Webpage

  /** The test `_get_url_type` applies to the lower-cased authority. */
  predicate MentionsYouTube(domain: string) {
    Contains(domain, "youtube.com") || Contains(domain, "youtu.be") || Contains(domain, "m.youtube.com")
  }

  /** `_get_url_type`: it does not catch the error the URL parser raises. */
  function GetUrlType(url: string): (r: Result<UrlKind, string>)
    ensures r.Failure? <==> UrlSplit(url).Failure?
    ensures r.Success? ==> (r.value == YouTube <==> MentionsYouTube(Lower(UrlSplit(url).value.netloc)))
  {
    match UrlSplit(url)
    case Failure(e) => Failure(e)
    case Success(parts) => if MentionsYouTube(Lower(parts.netloc)) then Success(YouTube) else Success(Webpage)
  }

  /** `is_url_supported`: both kinds are supported, so only a URL that fails to split is refused. */
  function IsUrlSupported(url: string): (b: bool)
  {
    match GetUrlType(url)
    case Failure(_) => false
    case Success(kind) => kind == YouTube || kind == Webpage
  }

  lemma SupportedIffSplits(url: string)
    ensures IsUrlSupported(url) <==> UrlSplit(url).Success?
  {
  }

  /** The third host name adds nothing: a domain containing `m.youtube.com` contains `youtube.com`. */
  lemma TwoHostsSuffice(domain: string)
    ensures MentionsYouTube(domain) <==> Contains(domain, "youtube.com") || Contains(domain, "youtu.be")
  {
    if Contains(domain, "m.youtube.com") {
      var i :| 0 <= i <= |domain| && OccursAt(domain, "m.youtube.com", i);
      assert domain[i + 2..i + 13] == domain[i..i + 13][2..];
      assert OccursAt(domain, "youtube.com", i + 2);
    }
  }

  /** Without a colon there is no scheme, so the URL is never valid. */
  lemma NoColonIsInvalid(url: string)
    requires ':' !in url
    ensures !IsValidUrl(url)
  {
    var u := RemoveUnsafe(LStripC0(url));
    forall i | 0 <= i <= |u|
      ensures !OccursAt(u, ":", i)
    {
      if i < |u| {
        assert u[i] in u;
        assert u[i..i + 1][0] == u[i];
      }
    }
    assert !Contains(u, ":");
  }

  /** Removing the unsafe characters and the leading blanks leaves a web prefix in place. */
  lemma WebPrefixKept(url: string, scheme: string)
    requires scheme == "http" || scheme == "https"
    requires StartsWith(url, scheme + "://")
    ensures var u := RemoveUnsafe(LStripC0(url));
      StartsWith(u, scheme + "://")
  {
    var p := scheme + "://";
    assert url[0] == p[0] == 'h';
    assert LStripC0(url) == url;
    assert url == p + url[|p|..];
    RemoveUnsafeAppend(p, url[|p|..]);
    RemoveUnsafeKeeps(p);
  }

  /** A text that starts with a web prefix has that scheme, followed by `//`. */
  lemma WebScheme(u: string, scheme: string)
    requires scheme == "http" || scheme == "https"
    requires StartsWith(u, scheme + "://")
    ensures SplitScheme(u).0 == scheme && StartsWith(SplitScheme(u).1, "//")
  {
    var n := |scheme|;
    assert u[..n + 3] == scheme + "://";
    assert OccursAt(u, ":", n) by { assert u[n..n + 1] == [u[n]]; }
    assert Find(u, ":") == Some(n) by {
      forall j | 0 <= j < n
        ensures !OccursAt(u, ":", j)
      {
        assert u[j..j + 1] == [u[j]] && u[j] == scheme[j];
      }
    }
    assert HasScheme(u) by {
      forall k | 0 <= k < n
        ensures IsSchemeChar(u[k])
      {
        assert u[k] == scheme[k];
      }
    }
    assert u[..n] == scheme by { assert u[..n] == u[..n + 3][..n]; }
    assert Lower(scheme) == scheme by {
      assert forall i :: 0 <= i < n ==> 'a' <= scheme[i] <= 'z';
    }
    assert u[n + 1..][..2] == u[n + 1..n + 3];
  }

  /**
   * A URL that passes the request validator is split with scheme `http` or `https` and
   * an authority taken after `//`, so it is valid exactly when that authority is non-empty.
   */
  lemma {:induction false} WebUrlScheme(url: string)
    requires ImportSchema.WebPrefixed(url)
    ensures UrlSplit(url).Success? ==> UrlSplit(url).value.scheme in ["http", "https"]
    ensures IsValidUrl(url) <==> UrlSplit(url).Success? && UrlSplit(url).value.netloc != []
  {
    var scheme := if StartsWith(url, "http://") then "http" else "https";
    WebPrefixKept(url, scheme);
    var u := RemoveUnsafe(LStripC0(url));
    WebScheme(u, scheme);
  }

  // ---------------------------------------------------------------------------
  // `extract_text_from_url`

  /** What an extractor returns: the text, the page or video title if it gave one, and the source kind. */
  datatype Extracted = Extracted(text: string, title: Option<string>, sourceType: string)

  /**
   * `extract_text_from_url`: refuse an empty or invalid URL, then hand over to the
   * YouTube or the web page extractor, whose outcomes (`youtube`, `webpage`) come from
   * foreign libraries. Their failures are already import errors and pass through.
   */
  function ExtractTextFromUrl(url: string, youtube: Result<Extracted, string>, webpage: Result<Extracted, string>)
    : (r: Result<Extracted, string>)
    ensures url == [] ==> r == Failure("URL is required")
    ensures url != [] && !IsValidUrl(url) ==> r == Failure("Invalid URL format: " + url)
    ensures IsValidUrl(url) && MentionsYouTube(Lower(UrlSplit(url).value.netloc)) ==> r == youtube
    ensures IsValidUrl(url) && !MentionsYouTube(Lower(UrlSplit(url).value.netloc)) ==> r == webpage
  {
    if url == [] then Failure("URL is required")
    else if !IsValidUrl(url) then Failure("Invalid URL format: " + url)
    else
      match GetUrlType(url)
      case Success(YouTube) => youtube
      case Success(Webpage) => webpage
      case Failure(e) => Failure(e)
  }

  /** Only a valid URL reaches an extractor, so every success comes from one of them. */
  lemma ExtractedOnlyFromValid(url: string, youtube: Result<Extracted, string>, webpage: Result<Extracted, string>)
    requires ExtractTextFromUrl(url, youtube, webpage).Success?
    ensures IsValidUrl(url) && url != []
    ensures ExtractTextFromUrl(url, youtube, webpage) in [youtube, webpage]
  {
  }

  // ---------------------------------------------------------------------------
  // `_clean_text`

  /** The characters of `s` that are not whitespace, in order. */
  function Visible(s: string): string {
    if s == [] then [] else (if IsSpace(s[0]) then [] else [s[0]]) + Visible(s[1..])
  }

  /** No two whitespace characters stand next to each other. */
  ghost predicate SingleSpaced(s: string) {
    forall i, j | 0 <= i < j < |s| && j == i + 1 :: !(IsSpace(s[i]) && IsSpace(s[j]))
  }

  /** `re.sub(r'\s+', ' ', text)`: every maximal run of whitespace becomes one space. */
  function CollapseSpace(s: string): (r: string)
    ensures forall c :: c in r ==> c == ' ' || (c in s && !IsSpace(c))
    ensures s != [] ==> r != [] && (IsSpace(r[0]) <==> IsSpace(s[0]))
    ensures s == [] ==> r == []
    ensures SingleSpaced(r)
    decreases |s|
  {
    if s == [] then []
    else if IsSpace(s[0]) then
      var j := ChunkSplit.SpaceRunEnd(s, 0);
      var rest := CollapseSpace(s[j..]);
      assert forall c :: c in s[j..] ==> c in s;
      " " + rest
    else
      var rest := CollapseSpace(s[1..]);
      assert forall c :: c in s[1..] ==> c in s;
      [s[0]] + rest
  }

  /** `re.sub(r'\n+', '\n', text)`: every run of line feeds becomes one. */
  function SquashNewlines(s: string): (r: string)
    decreases |s|
  {
    if s == [] then []
    else if s[0] == '\n' then "\n" + SquashNewlines(s[NewlineRunEnd(s, 0)..])
    else [s[0]] + SquashNewlines(s[1..])
  }

  function NewlineRunEnd(s: string, i: nat): (j: nat)
    requires i <= |s|
    ensures i <= j <= |s|
    ensures i < |s| && s[i] == '\n' ==> i < j
    decreases |s| - i
  {
    if i < |s| && s[i] == '\n' then NewlineRunEnd(s, i + 1) else i
  }

  /** The second substitution has nothing left to do once whitespace runs are single spaces. */
  lemma {:induction false} SquashKeeps(s: string)
    requires '\n' !in s
    ensures SquashNewlines(s) == s
    decreases |s|
  {
    if s != [] {
      assert s[0] in s;
      assert forall c :: c in s[1..] ==> c in s;
      SquashKeeps(s[1..]);
    }
  }

  /** Stripping keeps single spacing and adds no character. */
  lemma StripShape(s: string)
    requires SingleSpaced(s)
    ensures SingleSpaced(Strip(s))
    ensures forall c :: c in Strip(s) ==> c in s
  {
    var r := Strip(s);
    var a := StripStart(s);
    forall i, j | 0 <= i < j < |r| && j == i + 1
      ensures !(IsSpace(r[i]) && IsSpace(r[j]))
    {
      assert r[i] == s[a + i] && r[j] == s[a + j];
    }
  }

  /** `_clean_text` */
  function CleanText(text: string): (r: string)
    ensures '\n' !in r
    ensures r == [] || (!IsSpace(r[0]) && !IsSpace(r[|r| - 1]))
    ensures SingleSpaced(r)
    ensures forall c :: c in r && IsSpace(c) ==> c == ' '
  {
    if text == [] then []
    else
      var collapsed := CollapseSpace(text);
      assert '\n' !in collapsed;
      SquashKeeps(collapsed);
      StripShape(collapsed);
      Strip(SquashNewlines(collapsed))
  }

  lemma {:induction false} VisibleAppend(a: string, b: string)
    ensures Visible(a + b) == Visible(a) + Visible(b)
    decreases |a|
  {
    if a == [] {
      assert a + b == b;
    } else {
      assert (a + b)[1..] == a[1..] + b;
      VisibleAppend(a[1..], b);
    }
  }

  lemma {:induction false} VisibleBlank(s: string)
    ensures Visible(s) == [] <==> AllSpace(s)
    decreases |s|
  {
    if s != [] {
      VisibleBlank(s[1..]);
      assert AllSpace(s) <==> IsSpace(s[0]) && AllSpace(s[1..]) by {
        if IsSpace(s[0]) && AllSpace(s[1..]) {
          forall k | 0 < k < |s|
            ensures IsSpace(s[k])
          {
            assert s[k] == s[1..][k - 1];
          }
        }
      }
    }
  }

  /** Collapsing whitespace runs leaves the visible characters alone. */
  lemma {:induction false} CollapseKeepsVisible(s: string)
    ensures Visible(CollapseSpace(s)) == Visible(s)
    decreases |s|
  {
    if s != [] {
      if IsSpace(s[0]) {
        var j := ChunkSplit.SpaceRunEnd(s, 0);
        var rest := CollapseSpace(s[j..]);
        assert s == s[..j] + s[j..];
        VisibleAppend(s[..j], s[j..]);
        VisibleBlank(s[..j]);
        CollapseKeepsVisible(s[j..]);
        assert (" " + rest)[1..] == rest;
      } else {
        var rest := CollapseSpace(s[1..]);
        assert ([s[0]] + rest)[1..] == rest;
        CollapseKeepsVisible(s[1..]);
      }
    }
  }

  /** Stripping removes whitespace only. */
  lemma StripKeepsVisible(s: string)
    ensures Visible(Strip(s)) == Visible(s)
  {
    LStripKeepsVisible(s);
    RStripKeepsVisible(LStrip(s));
  }

  lemma LStripKeepsVisible(s: string)
    ensures Visible(LStrip(s)) == Visible(s)
  {
    var l := LStrip(s);
    var cut := s[..|s| - |l|];
    LStripCut(s);
    VisibleAppend(cut, l);
    VisibleBlank(cut);
  }

  lemma RStripKeepsVisible(s: string)
    ensures Visible(RStrip(s)) == Visible(s)
  {
    var r := RStrip(s);
    var cut := s[|r|..];
    RStripCut(s);
    VisibleAppend(r, cut);
    VisibleBlank(cut);
  }

  /** `_clean_text` changes whitespace only: the visible characters come out unchanged and in order. */
  lemma CleanKeepsVisible(text: string)
    ensures Visible(CleanText(text)) == Visible(text)
  {
    if text != [] {
      var collapsed := CollapseSpace(text);
      SquashKeeps(collapsed);
      CollapseKeepsVisible(text);
      StripKeepsVisible(collapsed);
    }
  }

  /** The cleaned text is empty exactly when the input holds nothing but whitespace. */
  lemma CleanEmptyIffBlank(text: string)
    ensures CleanText(text) == [] <==> AllSpace(text)
  {
    var r := CleanText(text);
    CleanKeepsVisible(text);
    VisibleBlank(text);
    VisibleBlank(r);
  }

  lemma SingleSpacedTail(s: string)
    requires s != [] && SingleSpaced(s)
    ensures SingleSpaced(s[1..])
    ensures |s| > 1 && IsSpace(s[0]) ==> !IsSpace(s[1])
  {
    var t := s[1..];
    forall i, j | 0 <= i < j < |t| && j == i + 1
      ensures !(IsSpace(t[i]) && IsSpace(t[j]))
    {
      assert t[i] == s[i + 1] && t[j] == s[j + 1];
    }
  }

  /** A single-spaced text whose only whitespace is the plain space is its own collapse. */
  lemma {:induction false} CollapseKeeps(s: string)
    requires SingleSpaced(s)
    requires forall c :: c in s && IsSpace(c) ==> c == ' '
    ensures CollapseSpace(s) == s
    decreases |s|
  {
    if s != [] {
      assert s[0] in s;
      SingleSpacedTail(s);
      assert forall c :: c in s[1..] ==> c in s;
      CollapseKeeps(s[1..]);
      if IsSpace(s[0]) {
        assert |s| > 1 ==> !IsSpace(s[1]);
        assert ChunkSplit.SpaceRunEnd(s, 0) == 1;
      }
      assert s == [s[0]] + s[1..];
    }
  }

  /** Cleaning twice is cleaning once. */
  lemma CleanIdempotent(text: string)
    ensures CleanText(CleanText(text)) == CleanText(text)
  {
    var r := CleanText(text);
    if r != [] {
      CollapseKeeps(r);
      SquashKeeps(r);
      StripUnpadded(r);
    }
  }

  // ---------------------------------------------------------------------------
  // The two substitutions applied to every subtitle line

  /**
   * Where a match of `<[^>]+>` starting at `s[0] == '<'` ends: at the first `>`,
   * provided at least one character stands between the two brackets.
   */
  function TagEnd(s: string): (r: Option<nat>)
    requires s != [] && s[0] == '<'
    ensures r.Some? ==> 2 <= r.value < |s| && s[r.value] == '>'
    ensures r.None? <==> '>' !in s || (|s| > 1 && s[1] == '>')
  {
    if '>' in s then
      var j := IndexOfChar(s, '>');
      assert j == 1 <==> s[1] == '>';
      if j >= 2 then Some(j) else None
    else None
  }

  /** `re.sub(r'<[^>]+>', '', s)`: matches are found left to right and never overlap. */
  function RemoveTags(s: string): (r: string)
    ensures |r| <= |s|
    ensures forall c :: c in r ==> c in s
    ensures s != [] && s[0] != '<' ==> r != [] && r[0] == s[0]
    decreases |s|
  {
    if s == [] then []
    else if s[0] == '<' && TagEnd(s).Some? then
      var rest := s[TagEnd(s).value + 1..];
      assert forall c :: c in rest ==> c in s;
      RemoveTags(rest)
    else
      assert forall c :: c in s[1..] ==> c in s;
      [s[0]] + RemoveTags(s[1..])
  }

  /** No position of `s` starts a match of `<[^>]+>`. */
  ghost predicate NoTag(s: string) {
    forall i :: 0 <= i < |s| && s[i] == '<' ==> TagEnd(s[i..]).None?
  }

  /** One pass removes every tag: what it leaves holds no further match. */
  lemma {:induction false} TagsGone(s: string)
    ensures NoTag(RemoveTags(s))
    decreases |s|
  {
    if s == [] {
    } else if s[0] == '<' && TagEnd(s).Some? {
      TagsGone(s[TagEnd(s).value + 1..]);
    } else {
      var rest := RemoveTags(s[1..]);
      var r := [s[0]] + rest;
      TagsGone(s[1..]);
      forall i | 0 <= i < |r| && r[i] == '<'
        ensures TagEnd(r[i..]).None?
      {
        if i > 0 {
          assert r[i..] == rest[i - 1..];
        } else if '>' in s {
          assert |s| > 1 && s[1] == '>';
          assert rest[0] == '>';
          assert r[1] == '>';
        } else {
          assert '>' !in rest;
          assert forall c :: c in r ==> c == s[0] || c in rest;
        }
      }
    }
  }

  /** A text without tags comes out unchanged. */
  lemma {:induction false} NoTagUnchanged(s: string)
    requires NoTag(s)
    ensures RemoveTags(s) == s
    decreases |s|
  {
    if s != [] {
      assert s[0] == '<' ==> s[0..] == s;
      assert NoTag(s[1..]) by {
        forall i | 0 <= i < |s[1..]| && s[1..][i] == '<'
          ensures TagEnd(s[1..][i..]).None?
        {
          assert s[1..][i..] == s[i + 1..];
        }
      }
      NoTagUnchanged(s[1..]);
    }
  }

  /** So removing tags twice is removing them once. */
  lemma RemoveTagsIdempotent(s: string)
    ensures RemoveTags(RemoveTags(s)) == RemoveTags(s)
  {
    TagsGone(s);
    NoTagUnchanged(RemoveTags(s));
  }

  /** The characters of `[a-zA-Z0-9#]` */
  predicate IsEntityChar(c: char) {
    IsAsciiLetter(c) || IsDigitChar(c) || c == '#'
  }

  /** The end of the run of entity characters that starts at `i`. */
  function EntityRunEnd(s: string, i: nat): (j: nat)
    requires i <= |s|
    ensures i <= j <= |s| && (j == |s| || !IsEntityChar(s[j]))
    ensures forall k :: i <= k < j ==> IsEntityChar(s[k])
    decreases |s| - i
  {
    if i < |s| && IsEntityChar(s[i]) then EntityRunEnd(s, i + 1) else i
  }

  /**
   * Where a match of `&[a-zA-Z0-9#]+;` starting at `s[0] == '&'` ends: the run of entity
   * characters after the ampersand must be non-empty and be followed by `;`.
   */
  function EntityEnd(s: string): (r: Option<nat>)
    requires s != [] && s[0] == '&'
    ensures r.Some? ==> 2 <= r.value < |s| && s[r.value] == ';'
  {
    var j := EntityRunEnd(s, 1);
    if j > 1 && j < |s| && s[j] == ';' then Some(j) else None
  }

  /** `re.sub(r'&[a-zA-Z0-9#]+;', '', s)` */
  function RemoveEntities(s: string): (r: string)
    ensures |r| <= |s|
    ensures forall c :: c in r ==> c in s
    decreases |s|
  {
    if s == [] then []
    else if s[0] == '&' && EntityEnd(s).Some? then
      var rest := s[EntityEnd(s).value + 1..];
      assert forall c :: c in rest ==> c in s;
      RemoveEntities(rest)
    else
      assert forall c :: c in s[1..] ==> c in s;
      [s[0]] + RemoveEntities(s[1..])
  }

  /** Text without an ampersand has no entity to lose. */
  lemma {:induction false} NoAmpersandUnchanged(s: string)
    requires '&' !in s
    ensures RemoveEntities(s) == s
    decreases |s|
  {
    if s != [] {
      assert s[0] in s;
      assert forall c :: c in s[1..] ==> c in s;
      NoAmpersandUnchanged(s[1..]);
    }
  }

  /** Unlike tag removal, one pass can leave an entity behind: `&ab&cd;;` becomes `&ab;`. */
  lemma EntityCanSurvive()
    ensures RemoveEntities("&ab&cd;;") == "&ab;"
    ensures EntityEnd("&ab;") == Some(3)
  {
    var s := "&ab&cd;;";
    assert EntityRunEnd(s, 1) == 3;
    assert EntityEnd(s) == None;
    var t := "&cd;;";
    assert s[3..] == t;
    assert EntityRunEnd(t, 1) == 3;
    assert t[4..] == ";";
    assert RemoveEntities(t) == ";";
    assert s[1..] == "ab" + t;
    assert s[2..] == "b" + t;
    assert EntityRunEnd("&ab;", 1) == 3;
  }

  // ---------------------------------------------------------------------------
  // `_parse_vtt_srt_subtitles` and `_parse_generic_subtitles`

  /** `\d` in a `str` pattern: a character of Unicode (15.0) general category Nd. */
  predicate IsDecimal(c: char) {
    '0' <= c <= '9' || '\U{0660}' <= c <= '\U{0669}' || '\U{06F0}' <= c <= '\U{06F9}' || '\U{07C0}' <= c <= '\U{07C9}'
    || '\U{0966}' <= c <= '\U{096F}' || '\U{09E6}' <= c <= '\U{09EF}' || '\U{0A66}' <= c <= '\U{0A6F}' || '\U{0AE6}' <= c <= '\U{0AEF}'
    || '\U{0B66}' <= c <= '\U{0B6F}' || '\U{0BE6}' <= c <= '\U{0BEF}' || '\U{0C66}' <= c <= '\U{0C6F}' || '\U{0CE6}' <= c <= '\U{0CEF}'
    || '\U{0D66}' <= c <= '\U{0D6F}' || '\U{0DE6}' <= c <= '\U{0DEF}' || '\U{0E50}' <= c <= '\U{0E59}' || '\U{0ED0}' <= c <= '\U{0ED9}'
    || '\U{0F20}' <= c <= '\U{0F29}' || '\U{1040}' <= c <= '\U{1049}' || '\U{1090}' <= c <= '\U{1099}' || '\U{17E0}' <= c <= '\U{17E9}'
    || '\U{1810}' <= c <= '\U{1819}' || '\U{1946}' <= c <= '\U{194F}' || '\U{19D0}' <= c <= '\U{19D9}' || '\U{1A80}' <= c <= '\U{1A89}'
    || '\U{1A90}' <= c <= '\U{1A99}' || '\U{1B50}' <= c <= '\U{1B59}' || '\U{1BB0}' <= c <= '\U{1BB9}' || '\U{1C40}' <= c <= '\U{1C49}'
    || '\U{1C50}' <= c <= '\U{1C59}' || '\U{A620}' <= c <= '\U{A629}' || '\U{A8D0}' <= c <= '\U{A8D9}' || '\U{A900}' <= c <= '\U{A909}'
    || '\U{A9D0}' <= c <= '\U{A9D9}' || '\U{A9F0}' <= c <= '\U{A9F9}' || '\U{AA50}' <= c <= '\U{AA59}' || '\U{ABF0}' <= c <= '\U{ABF9}'
    || '\U{FF10}' <= c <= '\U{FF19}' || '\U{104A0}' <= c <= '\U{104A9}' || '\U{10D30}' <= c <= '\U{10D39}' || '\U{11066}' <= c <= '\U{1106F}'
    || '\U{110F0}' <= c <= '\U{110F9}' || '\U{11136}' <= c <= '\U{1113F}' || '\U{111D0}' <= c <= '\U{111D9}' || '\U{112F0}' <= c <= '\U{112F9}'
    || '\U{11450}' <= c <= '\U{11459}' || '\U{114D0}' <= c <= '\U{114D9}' || '\U{11650}' <= c <= '\U{11659}' || '\U{116C0}' <= c <= '\U{116C9}'
    || '\U{11730}' <= c <= '\U{11739}' || '\U{118E0}' <= c <= '\U{118E9}' || '\U{11950}' <= c <= '\U{11959}' || '\U{11C50}' <= c <= '\U{11C59}'
    || '\U{11D50}' <= c <= '\U{11D59}' || '\U{11DA0}' <= c <= '\U{11DA9}' || '\U{11F50}' <= c <= '\U{11F59}' || '\U{16A60}' <= c <= '\U{16A69}'
    || '\U{16AC0}' <= c <= '\U{16AC9}' || '\U{16B50}' <= c <= '\U{16B59}' || '\U{1D7CE}' <= c <= '\U{1D7FF}' || '\U{1E140}' <= c <= '\U{1E149}'
    || '\U{1E2F0}' <= c <= '\U{1E2F9}' || '\U{1E4F0}' <= c <= '\U{1E4F9}' || '\U{1E950}' <= c <= '\U{1E959}' || '\U{1FBF0}' <= c <= '\U{1FBF9}'
  }

  /** A character `str.isdigit()` accepts: a decimal digit, or one of the other characters
      of Unicode (15.0) numeric type Digit (superscript, subscript, circled digits, ...). */
  predicate IsDigit(c: char) {
    IsDecimal(c)
    || '\U{00B2}' <= c <= '\U{00B3}' || c == '\U{00B9}' || '\U{1369}' <= c <= '\U{1371}' || c == '\U{19DA}'
    || c == '\U{2070}' || '\U{2074}' <= c <= '\U{2079}' || '\U{2080}' <= c <= '\U{2089}' || '\U{2460}' <= c <= '\U{2468}'
    || '\U{2474}' <= c <= '\U{247C}' || '\U{2488}' <= c <= '\U{2490}' || c == '\U{24EA}' || '\U{24F5}' <= c <= '\U{24FD}'
    || c == '\U{24FF}' || '\U{2776}' <= c <= '\U{277E}' || '\U{2780}' <= c <= '\U{2788}' || '\U{278A}' <= c <= '\U{2792}'
    || '\U{10A40}' <= c <= '\U{10A43}' || '\U{10E60}' <= c <= '\U{10E68}' || '\U{11052}' <= c <= '\U{1105A}' || '\U{1F100}' <= c <= '\U{1F10A}'
  }

  /** `line.isdigit()`: non-empty and digits only. */
  predicate IsDigitLine(line: string) {
    line != [] && forall k :: 0 <= k < |line| ==> IsDigit(line[k])
  }

  /** `re.match(r'^\d{2}:\d{2}:\d{2}', line)` */
  predicate TimestampPrefix(line: string) {
    |line| >= 8 && IsDecimal(line[0]) && IsDecimal(line[1]) && line[2] == ':'
    && IsDecimal(line[3]) && IsDecimal(line[4]) && line[5] == ':' && IsDecimal(line[6]) && IsDecimal(line[7])
  }

  /** The two subtitle parsers differ only in the lines they skip. */
  datatype SubtitleFormat = VttSrt | Generic

  /** Whether a stripped line is skipped: cue timings, headers, notes, cue numbers and blanks. */
  predicate Skips(format: SubtitleFormat, line: string) {
    || line == []
    || Contains(line, "-->")
    || StartsWith(line, "WEBVTT")
    || StartsWith(line, "NOTE")
    || IsDigitLine(line)
    || (format == Generic && (StartsWith(line, "<") || TimestampPrefix(line)))
  }

  /** A cue number in Arabic-Indic digits ("٣") or a superscript ("²") is a digit line
      that both parsers skip; `\d` takes the Arabic-Indic digits but not superscripts. */
  lemma UnicodeDigitLinesSkipped()
    ensures Skips(VttSrt, "\U{0663}") && Skips(Generic, "\U{0663}")
    ensures Skips(VttSrt, "\U{00B2}") && !IsDecimal('\U{00B2}')
    ensures TimestampPrefix("\U{0661}\U{0662}:\U{0663}\U{0664}:\U{0665}\U{0666}")
  {
  }

  /** Tags first, then entities. */
  function Unmark(line: string): (r: string)
    ensures forall c :: c in r ==> c in line
  {
    RemoveEntities(RemoveTags(line))
  }

  /** What one raw line contributes to the subtitle text. */
  function LinePieces(format: SubtitleFormat, raw: string): seq<string> {
    var line := Strip(raw);
    if Skips(format, line) || Unmark(line) == [] then [] else [Unmark(line)]
  }

  /** The pieces a parser collects from `lines`, in order. */
  function Pieces(format: SubtitleFormat, lines: seq<string>): (r: seq<string>)
    ensures |r| <= |lines|
    ensures forall k :: 0 <= k < |r| ==> r[k] != []
  {
    if lines == [] then [] else Pieces(format, lines[..|lines| - 1]) + LinePieces(format, lines[|lines| - 1])
  }

  lemma PiecesStep(format: SubtitleFormat, lines: seq<string>, i: nat)
    requires i < |lines|
    ensures Pieces(format, lines[..i + 1]) == Pieces(format, lines[..i]) + LinePieces(format, lines[i])
  {
    assert lines[..i + 1][..i] == lines[..i];
  }

  /** The loop body: strip the line, skip it or remove its markup, and keep a non-empty rest. */
  method ReadLine(format: SubtitleFormat, raw: string) returns (piece: seq<string>)
    ensures piece == LinePieces(format, raw)
  {
    piece := [];
    var line := Strip(raw);
    if !Skips(format, line) {
      var clean := RemoveTags(line);
      clean := RemoveEntities(clean);
      if clean != [] {
        piece := [clean];
      }
    }
  }

  /**
   * The line loop of the two parsers: split on line feeds, strip, skip, remove the
   * markup, keep what is left, and join the survivors with single spaces.
   */
  method CollectSubtitles(format: SubtitleFormat, content: string) returns (text: string)
    ensures text == Join(Pieces(format, Split(content, '\n')), " ")
  {
    var lines := Split(content, '\n');
    var pieces: seq<string> := [];
    var i := 0;
    while i < |lines|
      invariant 0 <= i <= |lines|
      invariant pieces == Pieces(format, lines[..i])
    {
      PiecesStep(format, lines, i);
      var piece := ReadLine(format, lines[i]);
      pieces := pieces + piece;
      i := i + 1;
    }
    assert lines[..i] == lines;
    text := Join(pieces, " ");
  }

  /** `_parse_vtt_srt_subtitles` */
  method ParseVttSrtSubtitles(content: string) returns (text: string)
    ensures text == Join(Pieces(VttSrt, Split(content, '\n')), " ")
  {
    text := CollectSubtitles(VttSrt, content);
  }

  /** `_parse_generic_subtitles` */
  method ParseGenericSubtitles(content: string) returns (text: string)
    ensures text == Join(Pieces(Generic, Split(content, '\n')), " ")
  {
    text := CollectSubtitles(Generic, content);
  }

  lemma {:induction false} JoinAvoids(parts: seq<string>, sep: string, c: char)
    requires c !in sep
    requires forall k :: 0 <= k < |parts| ==> c !in parts[k]
    ensures c !in Join(parts, sep)
    decreases |parts|
  {
    if |parts| > 1 {
      JoinAvoids(parts[1..], sep, c);
    }
  }

  lemma LinePiecesAvoid(format: SubtitleFormat, raw: string, c: char)
    requires c !in raw
    ensures forall k :: 0 <= k < |LinePieces(format, raw)| ==> c !in LinePieces(format, raw)[k]
  {
    assert forall x :: x in Strip(raw) ==> x in raw;
  }

  lemma {:induction false} PiecesAvoid(format: SubtitleFormat, lines: seq<string>, c: char)
    requires forall m :: 0 <= m < |lines| ==> c !in lines[m]
    ensures forall k :: 0 <= k < |Pieces(format, lines)| ==> c !in Pieces(format, lines)[k]
    decreases |lines|
  {
    if lines != [] {
      var init := lines[..|lines| - 1];
      var last := lines[|lines| - 1];
      PiecesAvoid(format, init, c);
      LinePiecesAvoid(format, last, c);
      var p := Pieces(format, init);
      var q := LinePieces(format, last);
      assert Pieces(format, lines) == p + q;
      forall k | 0 <= k < |p + q|
        ensures c !in (p + q)[k]
      {
        if k >= |p| {
          assert (p + q)[k] == q[k - |p|];
        }
      }
    }
  }

  /** The subtitle text is one line: the pieces come from different lines and are joined by spaces. */
  lemma SubtitleTextIsOneLine(format: SubtitleFormat, content: string)
    ensures '\n' !in Join(Pieces(format, Split(content, '\n')), " ")
  {
    var lines := Split(content, '\n');
    PiecesAvoid(format, lines, '\n');
    JoinAvoids(Pieces(format, lines), " ", '\n');
  }

  /** `a` can be had from `b` by deleting elements. */
  predicate Subsequence(a: seq<string>, b: seq<string>)
    decreases |b|
  {
    if a == [] then true
    else if b == [] then false
    else (a[|a| - 1] == b[|b| - 1] && Subsequence(a[..|a| - 1], b[..|b| - 1])) || Subsequence(a, b[..|b| - 1])
  }

  lemma {:induction false} SubsequenceExtend(a: seq<string>, b: seq<string>, x: seq<string>)
    requires Subsequence(a, b) && |x| <= 1
    ensures Subsequence(a, b + x)
    ensures Subsequence(a + x, b + x)
  {
    if x != [] {
      assert (b + x)[..|b + x| - 1] == b;
      assert (a + x)[..|a + x| - 1] == a;
    } else {
      assert b + x == b && a + x == a;
    }
  }

  /**
   * The generic parser skips every line the VTT/SRT parser skips, and more, so its
   * pieces are the VTT/SRT parser's pieces with some left out, in the same order.
   */
  lemma {:induction false} GenericKeepsLess(lines: seq<string>)
    ensures Subsequence(Pieces(Generic, lines), Pieces(VttSrt, lines))
    decreases |lines|
  {
    if lines != [] {
      var init := lines[..|lines| - 1];
      var last := lines[|lines| - 1];
      GenericKeepsLess(init);
      var g := Pieces(Generic, init);
      var v := Pieces(VttSrt, init);
      if LinePieces(Generic, last) == [] {
        SubsequenceExtend(g, v, LinePieces(VttSrt, last));
        assert g + [] == g;
      } else {
        assert LinePieces(Generic, last) == LinePieces(VttSrt, last);
        SubsequenceExtend(g, v, LinePieces(VttSrt, last));
      }
    }
  }

  lemma CueHasNoArrow()
    ensures !Contains("<b>Hi</b>", "-->")
  {
    var line := "<b>Hi</b>";
    forall i | 0 <= i <= |line|
      ensures !OccursAt(line, "-->", i)
    {
      if i + 3 <= |line| {
        assert line[i..i + 3][0] == line[i];
        assert line[i..i + 3][1] == line[i + 1];
      }
    }
  }

  lemma CueUntagged()
    ensures RemoveTags("<b>Hi</b>") == "Hi"
  {
    var line := "<b>Hi</b>";
    assert TagEnd(line) == Some(2);
    assert line[3..] == "Hi</b>";
    var rest := "</b>";
    assert TagEnd(rest) == Some(3);
    assert RemoveTags(rest) == [];
    assert "Hi</b>"[1..] == "i" + rest;
  }

  lemma CueKeptByVttSrt()
    ensures Strip("<b>Hi</b>") == "<b>Hi</b>"
    ensures !Skips(VttSrt, "<b>Hi</b>")
    ensures Skips(Generic, "<b>Hi</b>")
  {
    var line := "<b>Hi</b>";
    assert LStrip(line) == line && RStrip(line) == line;
    CueHasNoArrow();
    assert StartsWith(line, "<");
    assert !IsDigit(line[0]);
  }

  lemma CueUnmarked()
    ensures Unmark("<b>Hi</b>") == "Hi"
  {
    CueUntagged();
    assert RemoveEntities("i") == "i";
  }

  /** A cue whose text starts with a tag is kept, untagged, by one parser and dropped by the other. */
  lemma TaggedCue()
    ensures LinePieces(VttSrt, "<b>Hi</b>") == ["Hi"]
    ensures LinePieces(Generic, "<b>Hi</b>") == []
  {
    TaggedCueKept();
    TaggedCueDropped();
  }

  lemma TaggedCueKept()
    ensures LinePieces(VttSrt, "<b>Hi</b>") == ["Hi"]
  {
    CueKeptByVttSrt();
    CueUnmarked();
    PieceOfLine(VttSrt, "<b>Hi</b>", "Hi");
  }

  lemma TaggedCueDropped()
    ensures LinePieces(Generic, "<b>Hi</b>") == []
  {
    CueKeptByVttSrt();
    NoPieceOfLine(Generic, "<b>Hi</b>");
  }

  lemma PieceOfLine(format: SubtitleFormat, line: string, u: string)
    requires Strip(line) == line && !Skips(format, line) && Unmark(line) == u && u != []
    ensures LinePieces(format, line) == [u]
  {
  }

  lemma NoPieceOfLine(format: SubtitleFormat, line: string)
    requires Strip(line) == line && Skips(format, line)
    ensures LinePieces(format, line) == []
  {
  }

  // ---------------------------------------------------------------------------
  // `extract_text_with_chunking`

  /** One entry of `pages`. */
  datatype Page = Page(pageNumber: nat, text: string, charCount: nat)

  /** What the split flag adds: the pages and three metadata entries. */
  datatype Paging = Paging(pages: seq<Page>, totalPages: nat, chunked: bool, originalLength: nat)

  /** An extraction result, with its paging when the split flag is on. */
  datatype ChunkedExtraction = ChunkedExtraction(base: Extracted, paging: Option<Paging>)

  /** The page size `extract_text_with_chunking` asks for. */
  const PageChars: nat := 2000

  /** `pages` holds `texts` in order, numbered from 1, each with its length. */
  ghost predicate NumberedPages(pages: seq<Page>, texts: seq<string>) {
    |pages| == |texts| && forall k :: 0 <= k < |pages| ==> pages[k] == Page(k + 1, texts[k], |texts[k]|)
  }

  /** The paging of `text`: one page per chunk, and metadata that agrees with the pages. */
  ghost predicate Paged(paging: Paging, text: string) {
    && NumberedPages(paging.pages, ChunkSplit.Split(text, PageChars, false))
    && paging.totalPages == |paging.pages|
    && (paging.chunked <==> |paging.pages| > 1)
    && paging.originalLength == |text|
  }

  /** The `enumerate(chunks, 1)` loop. */
  method NumberPages(chunks: seq<string>) returns (pages: seq<Page>)
    ensures NumberedPages(pages, chunks)
  {
    pages := [];
    var i := 0;
    while i < |chunks|
      invariant 0 <= i <= |chunks|
      invariant NumberedPages(pages, chunks[..i])
    {
      pages := pages + [Page(i + 1, chunks[i], |chunks[i]|)];
      i := i + 1;
    }
    assert chunks[..i] == chunks;
  }

  /** The page list and metadata built when the split flag is on. */
  method Paginate(text: string) returns (paging: Paging)
    ensures Paged(paging, text)
  {
    var pages: seq<Page>;
    if |text| <= PageChars {
      ChunkSplit.ShortTextIsOneChunk(text, PageChars, false);
      pages := [Page(1, text, |text|)];
      assert NumberedPages(pages, [text]);
    } else {
      var chunks := ChunkSplit.SplitIntoChunks(text, PageChars, false);
      pages := NumberPages(chunks);
    }
    paging := Paging(pages, |pages|, |pages| > 1, |text|);
  }

  /**
   * `extract_text_with_chunking`: with the flag off, the plain extraction; with it on,
   * the same extraction and its paging. A failed extraction fails both ways.
   */
  method ExtractWithChunking(splitEnabled: bool, url: string,
                             youtube: Result<Extracted, string>, webpage: Result<Extracted, string>)
    returns (r: Result<ChunkedExtraction, string>)
    ensures var e := ExtractTextFromUrl(url, youtube, webpage);
      && (e.Failure? ==> r == Failure(e.error))
      && (e.Success? ==> r.Success? && r.value.base == e.value)
    ensures r.Success? ==> (r.value.paging.Some? <==> splitEnabled)
    ensures r.Success? && splitEnabled ==> Paged(r.value.paging.value, r.value.base.text)
  {
    var e := ExtractTextFromUrl(url, youtube, webpage);
    if e.Failure? {
      return Failure(e.error);
    }
    if !splitEnabled {
      return Success(ChunkedExtraction(e.value, None));
    }
    var paging := Paginate(e.value.text);
    r := Success(ChunkedExtraction(e.value, Some(paging)));
  }

  /** A text of at most 2000 characters is one page, numbered 1, and the result is not chunked. */
  lemma ShortTextOnePage(paging: Paging, text: string)
    requires Paged(paging, text) && |text| <= PageChars
    ensures paging.pages == [Page(1, text, |text|)]
    ensures paging.totalPages == 1 && !paging.chunked
  {
    ChunkSplit.ShortTextIsOneChunk(text, PageChars, false);
  }

  /** No page is longer than 2002 characters: the page size plus the one blank line the
      packing test leaves uncounted. */
  lemma PagesWithinLimit(paging: Paging, text: string)
    requires Paged(paging, text)
    ensures forall k :: 0 <= k < |paging.pages| ==> paging.pages[k].charCount <= PageChars + 2
  {
    var chunks := ChunkSplit.Split(text, PageChars, false);
    ChunkSplit.ChunksWithinBound(text, PageChars, false);
    forall k | 0 <= k < |paging.pages|
      ensures paging.pages[k].charCount <= PageChars + 2
    {
      assert chunks[k] in chunks;
    }
  }

  /** A long text of whitespace only has no page at all, and is not chunked. */
  lemma BlankTextNoPages(paging: Paging, text: string)
    requires Paged(paging, text) && |text| > PageChars && AllSpace(text)
    ensures paging.pages == [] && paging.totalPages == 0 && !paging.chunked
  {
    ChunkSplit.BlankTextGivesNoChunks(text, PageChars, false);
  }
}
