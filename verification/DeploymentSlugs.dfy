/** Deployment slugs and the proxy paths built from them.  Which characters count as
    letters and digits, and how they are lowered, is Unicode's business: both are
    parameters, of which only one thing is asked, that no punctuation used here is either. */
module DeploymentSlugs {
  import opened Basics

  // ----- What a slug is -----

  function Lowered(s: string, lower: char -> char): string {
    seq(|s|, i requires 0 <= i < |s| => lower(s[i]))
  }

  /** The maximal runs of letters and digits. */
  function Runs(s: string, isWord: char -> bool): seq<string> {
    if s == "" then []
    else
      var front, c := s[..|s| - 1], s[|s| - 1];
      var runs := Runs(front, isWord);
      if !isWord(c) then runs
      else if front != "" && isWord(front[|front| - 1]) && runs != []
      then runs[..|runs| - 1] + [runs[|runs| - 1] + [c]]
      else runs + [[c]]
  }

  function Dashed(runs: seq<string>): string {
    if |runs| == 0 then ""
    else if |runs| == 1 then runs[0]
    else Dashed(runs[..|runs| - 1]) + "-" + runs[|runs| - 1]
  }

  function Slug(s: string, lower: char -> char, isWord: char -> bool): string {
    Dashed(Runs(Lowered(s, lower), isWord))
  }

  // ----- The program's helpers -----

  function TrimLeft(s: string): string {
    if s != "" && s[0] == '-' then TrimLeft(s[1..]) else s
  }

  function TrimRight(s: string): string {
    if s != "" && s[|s| - 1] == '-' then TrimRight(s[..|s| - 1]) else s
  }

  predicate DoubleDashAt(s: string, i: int) {
    0 <= i < |s| - 1 && s[i] == '-' && s[i + 1] == '-'
  }

  predicate HasDoubleDash(s: string) {
    exists i :: 0 <= i < |s| && DoubleDashAt(s, i)
  }

  /** Every "--" from the left replaced by "-", once. */
  function Halved(s: string): (r: string)
    ensures |r| <= |s|
  {
    if s == "" then ""
    else if |s| >= 2 && s[0] == '-' && s[1] == '-' then "-" + Halved(s[2..])
    else [s[0]] + Halved(s[1..])
  }

  lemma {:induction false} HalvedIsShorter(s: string, i: int)
    requires DoubleDashAt(s, i)
    ensures |Halved(s)| < |s|
  {
    if !(s[0] == '-' && s[1] == '-') {
      assert DoubleDashAt(s[1..], i - 1);
      HalvedIsShorter(s[1..], i - 1);
    }
  }

  /** Every run of dashes as one dash. */
  function Squeezed(s: string): string {
    if s == "" then ""
    else if |s| >= 2 && s[0] == '-' && s[1] == '-' then Squeezed(s[1..])
    else [s[0]] + Squeezed(s[1..])
  }

  predicate StartsWithDash(s: string) {
    s != "" && s[0] == '-'
  }

  lemma {:induction false} SqueezedHalved(s: string)
    ensures Squeezed(Halved(s)) == Squeezed(s)
    ensures StartsWithDash(Halved(s)) == StartsWithDash(s)
    decreases |s|
  {
    if s == "" {
    } else if |s| >= 2 && s[0] == '-' && s[1] == '-' {
      var t := s[2..];
      SqueezedHalved(t);
      assert Halved(s)[1..] == Halved(t);
      assert s[1..] == ['-'] + t && s[1..][1..] == t;
    } else {
      SqueezedHalved(s[1..]);
      assert Halved(s)[1..] == Halved(s[1..]);
      assert |s| >= 2 ==> StartsWithDash(s[1..]) == (s[1] == '-');
    }
  }

  lemma {:induction false} SqueezedPlain(s: string)
    requires !HasDoubleDash(s)
    ensures Squeezed(s) == s
  {
    if s != "" {
      assert !HasDoubleDash(s[1..]) by {
        forall i ensures !DoubleDashAt(s[1..], i) {
          assert !DoubleDashAt(s, i + 1);
        }
      }
      assert !DoubleDashAt(s, 0);
      SqueezedPlain(s[1..]);
    }
  }

  // ----- Slugs are clean -----

  /** No dash at either end, no two in a row, and no slash. */
  ghost predicate IsClean(s: string) {
    && (s != "" ==> s[0] != '-' && s[|s| - 1] != '-')
    && !HasDoubleDash(s)
    && '/' !in s
  }

  ghost predicate AreRuns(runs: seq<string>, isWord: char -> bool) {
    forall i :: 0 <= i < |runs| ==> runs[i] != "" && forall j :: 0 <= j < |runs[i]| ==> isWord(runs[i][j])
  }

  lemma {:induction false} RunsAreRuns(s: string, isWord: char -> bool)
    ensures AreRuns(Runs(s, isWord), isWord)
  {
    if s != "" {
      RunsAreRuns(s[..|s| - 1], isWord);
    }
  }

  lemma WordIsClean(w: string, isWord: char -> bool)
    requires !isWord('-') && !isWord('/') && forall j :: 0 <= j < |w| ==> isWord(w[j])
    ensures IsClean(w)
  {
    forall i ensures !DoubleDashAt(w, i) {
    }
  }

  lemma {:induction false} DashedIsClean(runs: seq<string>, isWord: char -> bool)
    requires AreRuns(runs, isWord) && !isWord('-') && !isWord('/')
    ensures IsClean(Dashed(runs)) && (runs != [] ==> Dashed(runs) != "")
  {
    if |runs| == 1 {
      WordIsClean(runs[0], isWord);
    } else if |runs| > 1 {
      var front, last := Dashed(runs[..|runs| - 1]), runs[|runs| - 1];
      DashedIsClean(runs[..|runs| - 1], isWord);
      WordIsClean(last, isWord);
      CleanJoin(front, last);
    }
  }

  lemma CleanJoin(a: string, b: string)
    requires IsClean(a) && IsClean(b) && a != "" && b != ""
    ensures IsClean(a + "-" + b)
  {
    var s := a + "-" + b;
    forall i ensures !DoubleDashAt(s, i) {
      assert !DoubleDashAt(a, i) && !DoubleDashAt(b, i - |a| - 1);
    }
  }

  /** A slug part never starts or ends with a dash and holds neither "--" nor "/". */
  lemma SlugIsClean(s: string, lower: char -> char, isWord: char -> bool)
    requires !isWord('-') && !isWord('/')
    ensures IsClean(Slug(s, lower, isWord))
  {
    RunsAreRuns(Lowered(s, lower), isWord);
    DashedIsClean(Runs(Lowered(s, lower), isWord), isWord);
  }

  lemma TrimmedClean(s: string, dashed: bool)
    requires IsClean(s) && (dashed ==> s != "")
    ensures TrimRight(TrimLeft(s + if dashed then "-" else "")) == s
  {
    var b := s + if dashed then "-" else "";
    assert TrimLeft(b) == b;
    if dashed {
      assert b[..|b| - 1] == s;
    }
  }

  // ----- The program's loop -----

  /** What the loop has written after the given text: the runs so far, and a dash once
      one of them has ended. */
  ghost predicate Written(text: string, isWord: char -> bool, b: string, lastDash: bool) {
    var runs := Runs(text, isWord);
    && b == Dashed(runs) + (if lastDash then "-" else "")
    && (lastDash <==> runs != [] && !isWord(text[|text| - 1]))
    && (|b| > 0 <==> runs != [])
  }

  lemma {:induction false} RunsOfText(text: string, isWord: char -> bool)
    ensures Runs(text, isWord) != [] ==> text != ""
    ensures text != "" && isWord(text[|text| - 1]) ==> Runs(text, isWord) != []
  {
  }

  lemma DashedMore(runs: seq<string>, w: string)
    ensures Dashed(runs + [w]) == if runs == [] then w else Dashed(runs) + "-" + w
  {
    var more := runs + [w];
    assert more[..|more| - 1] == runs;
  }

  lemma JoinGrows(a: string, w: string, c: char)
    ensures a + "-" + (w + [c]) == a + "-" + w + [c]
  {
  }

  lemma DashedGrows(front: seq<string>, last: string, c: char)
    ensures Dashed(front + [last + [c]]) == Dashed(front + [last]) + [c]
  {
    DashedMore(front, last + [c]);
    DashedMore(front, last);
    JoinGrows(Dashed(front), last, c);
  }

  lemma WordIsWritten(text: string, isWord: char -> bool, b: string, lastDash: bool, c: char)
    requires Written(text, isWord, b, lastDash) && isWord(c)
    ensures Written(text + [c], isWord, b + [c], false)
  {
    var runs := Runs(text, isWord);
    assert (text + [c])[..|text|] == text;
    RunsOfText(text, isWord);
    if text != "" && isWord(text[|text| - 1]) {
      var front, last := runs[..|runs| - 1], runs[|runs| - 1];
      assert runs == front + [last];
      DashedGrows(front, last, c);
    } else {
      DashedMore(runs, [c]);
      assert runs != [] ==> b + [c] == Dashed(runs) + "-" + [c];
    }
  }

  lemma OtherIsWritten(text: string, isWord: char -> bool, b: string, lastDash: bool, c: char)
    requires Written(text, isWord, b, lastDash) && !isWord(c)
    ensures if !lastDash && |b| > 0 then Written(text + [c], isWord, b + "-", true)
            else Written(text + [c], isWord, b, lastDash)
  {
    assert (text + [c])[..|text|] == text;
    assert Runs(text + [c], isWord) == Runs(text, isWord);
  }

  /** The loop over the lowered text, with its flag for a dash just written; then the trim
      and the loop that would halve double dashes. */
  method Slugify(s: string, lower: char -> char, isWord: char -> bool) returns (out: string)
    requires !isWord('-') && !isWord('/')
    ensures out == Slug(s, lower, isWord)
  {
    var text := Lowered(s, lower);
    var b, lastDash := "", false;
    for i := 0 to |text|
      invariant Written(text[..i], isWord, b, lastDash)
    {
      var r := text[i];
      assert text[..i + 1] == text[..i] + [r];
      if isWord(r) {
        WordIsWritten(text[..i], isWord, b, lastDash, r);
        b := b + [r];
        lastDash := false;
      } else {
        OtherIsWritten(text[..i], isWord, b, lastDash, r);
        if !lastDash && |b| > 0 {
          b := b + "-";
          lastDash := true;
        }
      }
    }
    assert text[..|text|] == text;
    out := TrimRight(TrimLeft(b));
    TrimmedIsSlug(s, lower, isWord, b, lastDash);
    out := Collapse(out);
    SqueezedPlain(Slug(s, lower, isWord));
  }

  lemma TrimmedIsSlug(s: string, lower: char -> char, isWord: char -> bool, b: string, lastDash: bool)
    requires !isWord('-') && !isWord('/') && Written(Lowered(s, lower), isWord, b, lastDash)
    ensures TrimRight(TrimLeft(b)) == Slug(s, lower, isWord) && !HasDoubleDash(Slug(s, lower, isWord))
  {
    RunsAreRuns(Lowered(s, lower), isWord);
    DashedIsClean(Runs(Lowered(s, lower), isWord), isWord);
    TrimmedClean(Slug(s, lower, isWord), lastDash);
  }

  /** Halving until no "--" is left squeezes every run of dashes to one. */
  method Collapse(s: string) returns (out: string)
    ensures out == Squeezed(s) && !HasDoubleDash(out)
  {
    out := s;
    while HasDoubleDash(out)
      invariant Squeezed(out) == Squeezed(s)
      decreases |out|
    {
      ghost var i :| DoubleDashAt(out, i);
      HalvedIsShorter(out, i);
      SqueezedHalved(out);
      out := Halved(out);
    }
    SqueezedPlain(out);
  }

  // ----- A deployment's slug splits one way only -----

  function DeploymentSlug(app: string, endpoint: string, lower: char -> char, isWord: char -> bool): string {
    Slug(app, lower, isWord) + "--" + Slug(endpoint, lower, isWord)
  }

  lemma FirstDoubleDash(a: string, b: string, i: int)
    requires IsClean(a)
    ensures DoubleDashAt(a + "--" + b, |a|)
    ensures i < |a| ==> !DoubleDashAt(a + "--" + b, i)
  {
    assert !DoubleDashAt(a, i);
  }

  /** Two deployments share a slug only if both parts agree. */
  lemma SlugSplitsUniquely(a: string, b: string, c: string, d: string)
    requires IsClean(a) && IsClean(c) && a + "--" + b == c + "--" + d
    ensures a == c && b == d
  {
    FirstDoubleDash(a, b, |c|);
    FirstDoubleDash(c, d, |a|);
    assert |a| == |c|;
    var s, t := a + "--" + b, c + "--" + d;
    assert a == s[..|a|] && c == t[..|c|] && b == s[|a| + 2..] && d == t[|c| + 2..];
  }

  lemma DeploymentsAreKeptApart(app: string, endpoint: string, app': string, endpoint': string,
                                lower: char -> char, isWord: char -> bool)
    requires !isWord('-') && !isWord('/')
    ensures DeploymentSlug(app, endpoint, lower, isWord) == DeploymentSlug(app', endpoint', lower, isWord) <==>
              && Slug(app, lower, isWord) == Slug(app', lower, isWord)
              && Slug(endpoint, lower, isWord) == Slug(endpoint', lower, isWord)
  {
    SlugIsClean(app, lower, isWord);
    SlugIsClean(app', lower, isWord);
    if DeploymentSlug(app, endpoint, lower, isWord) == DeploymentSlug(app', endpoint', lower, isWord) {
      SlugSplitsUniquely(Slug(app, lower, isWord), Slug(endpoint, lower, isWord), Slug(app', lower, isWord),
                         Slug(endpoint', lower, isWord));
    }
  }

  // ----- The proxy finds what Deploy published -----

  const PROXY := "/proxy/"

  /** The path part of the published URL. */
  function ProxyPath(slug: string, webPath: string): string {
    PROXY + slug + webPath
  }

  function FirstSlash(s: string): (r: Option<nat>)
    ensures r.Some? ==> r.value < |s| && s[r.value] == '/' && '/' !in s[..r.value]
    ensures r.None? ==> '/' !in s
  {
    if s == "" then None
    else if s[0] == '/' then Some(0)
    else
      var rest := FirstSlash(s[1..]);
      assert rest.Some? ==> s[..rest.value + 1] == [s[0]] + s[1..][..rest.value];
      if rest.None? then None else Some(rest.value + 1)
  }

  /** How a request path is taken apart: slug and suffix, or no match. */
  function SplitProxyPath(path: string): Option<(string, string)> {
    if !(PROXY <= path) then None
    else
      var rest := path[|PROXY|..];
      var slash := FirstSlash(rest);
      var slug := if slash.None? then rest else rest[..slash.value];
      var suffix := if slash.None? then "" else rest[slash.value..];
      if slug == "" then None else Some((slug, if suffix == "" then "/" else suffix))
  }

  /** What Deploy publishes the endpoint under: an empty web path means the root. */
  function PublishedPath(webPath: string): string {
    if webPath == "" then "/" else webPath
  }

  /** A request for a published path is taken apart into exactly the slug and the web path
      that were published, if and only if the web path starts with a slash. */
  lemma ProxyRecovers(slug: string, webPath: string)
    requires slug != "" && '/' !in slug && webPath != ""
    ensures SplitProxyPath(ProxyPath(slug, webPath)) == Some((slug, webPath)) <==> webPath[0] == '/'
  {
    var path, rest := ProxyPath(slug, webPath), slug + webPath;
    assert path[|PROXY|..] == rest && PROXY <= path;
    var slash := FirstSlash(rest);
    if webPath[0] == '/' {
      assert rest[|slug|] == '/';
      assert slash.Some? && slash.value >= |slug|;
      assert rest[..|slug|] == slug && rest[|slug|..] == webPath;
    } else {
      assert rest[|slug|] == webPath[0];
    }
  }

  /** Only the published path, or the bare slug for the root, is taken apart into these. */
  lemma SplitIsExact(path: string)
    requires SplitProxyPath(path).Some?
    ensures var (slug, suffix) := SplitProxyPath(path).value;
            path == ProxyPath(slug, suffix) || (path == PROXY + slug && suffix == "/")
  {
    assert path == PROXY + path[|PROXY|..];
  }

  // ----- From the text of a URL to the path the proxy sees -----

  /** A URL's path ends where its query or its fragment begins. */
  function CutAtQuery(text: string): string {
    if text == "" || text[0] == '?' || text[0] == '#' then "" else [text[0]] + CutAtQuery(text[1..])
  }

  function HexDigit(c: char): (digit: Option<nat>)
    ensures digit.Some? ==> digit.value < 16
  {
    if '0' <= c <= '9' then Some(c as nat - '0' as nat)
    else if 'a' <= c <= 'f' then Some(c as nat - 'a' as nat + 10)
    else if 'A' <= c <= 'F' then Some(c as nat - 'A' as nat + 10)
    else None
  }

  function EscapedByte(high: char, low: char): Option<char> {
    var h, l := HexDigit(high), HexDigit(low);
    if h.Some? && l.Some? then Some((16 * h.value + l.value) as char) else None
  }

  /** Percent escapes replaced by the bytes they stand for; a malformed one spoils the URL. */
  function Decoded(text: string): Option<string> {
    if text == "" then Some("")
    else if text[0] != '%' then
      var rest := Decoded(text[1..]);
      if rest.None? then None else Some([text[0]] + rest.value)
    else if |text| < 3 || EscapedByte(text[1], text[2]).None? then None
    else
      var rest := Decoded(text[3..]);
      if rest.None? then None else Some([EscapedByte(text[1], text[2]).value] + rest.value)
  }

  predicate IsPlain(text: string) {
    '?' !in text && '#' !in text && '%' !in text
  }

  /** After this slash comes an empty segment, "." or "..". */
  predicate IsUntidyAt(path: string, i: nat)
    requires i < |path|
  {
    && path[i] == '/' && i + 1 < |path|
    && (|| path[i + 1] == '/'
        || (path[i + 1] == '.' && (i + 2 == |path| || path[i + 2] == '/'))
        || (path[i + 1] == '.' && i + 2 < |path| && path[i + 2] == '.' && (i + 3 == |path| || path[i + 3] == '/')))
  }

  predicate IsTidy(path: string) {
    forall i :: 0 <= i < |path| ==> !IsUntidyAt(path, i)
  }

  /** What becomes of a request for a URL: its path is cut off and decoded, a path that is
      not tidy is redirected to one that is, and the proxy takes the rest apart. */
  function Arrival(url: string): Option<(string, string)> {
    var path := Decoded(CutAtQuery(url));
    if path.None? || !IsTidy(path.value) then None else SplitProxyPath(path.value)
  }

  lemma {:induction false} CutIsShorter(text: string)
    ensures |CutAtQuery(text)| <= |text|
    ensures CutAtQuery(text) == text <==> '?' !in text && '#' !in text
    ensures |CutAtQuery(text)| == |text| ==> CutAtQuery(text) == text
  {
    if text != "" && text[0] != '?' && text[0] != '#' {
      CutIsShorter(text[1..]);
      assert text == [text[0]] + text[1..];
    }
  }

  lemma {:induction false} DecodedIsShorter(text: string)
    ensures '%' !in text ==> Decoded(text) == Some(text)
    ensures Decoded(text).Some? ==> |Decoded(text).value| <= |text|
    ensures Decoded(text).Some? && |Decoded(text).value| == |text| ==> '%' !in text
  {
    if text != "" && text[0] != '%' {
      DecodedIsShorter(text[1..]);
      assert text == [text[0]] + text[1..];
    } else if |text| >= 3 {
      DecodedIsShorter(text[3..]);
    }
  }

  /** Reading a URL's path gives back its whole text exactly when the text is plain. */
  lemma PlainIsReadBack(text: string)
    ensures Decoded(CutAtQuery(text)) == Some(text) <==> IsPlain(text)
    ensures Decoded(CutAtQuery(text)).Some? && |Decoded(CutAtQuery(text)).value| == |text| ==> IsPlain(text)
  {
    CutIsShorter(text);
    DecodedIsShorter(CutAtQuery(text));
  }

  /** No punctuation that means something in a path or a slug counts as a letter or a digit. */
  predicate AreWords(isWord: char -> bool) {
    !isWord('-') && !isWord('/') && !isWord('.') && !isWord('?') && !isWord('#') && !isWord('%')
  }

  predicate IsInert(slug: string) {
    forall c :: c in slug ==> c != '/' && c != '.' && c != '?' && c != '#' && c != '%'
  }

  lemma {:induction false} DashedIsInert(runs: seq<string>, isWord: char -> bool)
    requires AreRuns(runs, isWord) && AreWords(isWord)
    ensures IsInert(Dashed(runs))
  {
    if |runs| > 1 {
      DashedIsInert(runs[..|runs| - 1], isWord);
    }
  }

  lemma DeploymentSlugIsInert(app: string, endpoint: string, lower: char -> char, isWord: char -> bool)
    requires AreWords(isWord)
    ensures IsInert(DeploymentSlug(app, endpoint, lower, isWord)) && DeploymentSlug(app, endpoint, lower, isWord) != ""
  {
    RunsAreRuns(Lowered(app, lower), isWord);
    RunsAreRuns(Lowered(endpoint, lower), isWord);
    DashedIsInert(Runs(Lowered(app, lower), isWord), isWord);
    DashedIsInert(Runs(Lowered(endpoint, lower), isWord), isWord);
  }

  lemma TidyPath(slug: string, webPath: string)
    requires slug != "" && IsInert(slug) && webPath != "" && webPath[0] == '/'
    ensures IsTidy(ProxyPath(slug, webPath)) <==> IsTidy(webPath)
  {
    var path, n := ProxyPath(slug, webPath), |PROXY| + |slug|;
    forall i | 0 <= i < |webPath| ensures IsUntidyAt(webPath, i) <==> IsUntidyAt(path, n + i) {
      assert forall j :: i <= j < |webPath| ==> path[n + j] == webPath[j];
    }
    forall i | 0 <= i < n ensures !IsUntidyAt(path, i) {
      if i >= |PROXY| {
        assert path[i] == slug[i - |PROXY|] && path[i] in slug;
      } else if i == |PROXY| - 1 {
        assert path[i + 1] == slug[0] && slug[0] in slug;
      }
    }
    if IsTidy(webPath) {
      forall i | 0 <= i < |path| ensures !IsUntidyAt(path, i) {
        if i >= n {
          assert !IsUntidyAt(webPath, i - n);
        }
      }
    }
  }

  /** A request for a deployment's published URL reaches it, and is taken apart into its own
      slug and web path, if and only if the web path is empty, or starts with a slash, is
      tidy, and holds no '?', '#' or '%'. */
  lemma DeployedPathIsFound(app: string, endpoint: string, webPath: string, lower: char -> char, isWord: char -> bool)
    requires AreWords(isWord)
    ensures var slug := DeploymentSlug(app, endpoint, lower, isWord);
            Arrival(ProxyPath(slug, PublishedPath(webPath))) ==
              Some((slug, if webPath == "" then "/" else webPath)) <==>
              webPath == "" || (webPath[0] == '/' && IsPlain(webPath) && IsTidy(webPath))
  {
    DeploymentSlugIsInert(app, endpoint, lower, isWord);
    PublishedUrlArrives(DeploymentSlug(app, endpoint, lower, isWord), PublishedPath(webPath));
  }

  /** A request for the bare slug is one for the root. */
  lemma BareSlugIsRoot(app: string, endpoint: string, lower: char -> char, isWord: char -> bool)
    requires AreWords(isWord)
    ensures var slug := DeploymentSlug(app, endpoint, lower, isWord);
            Arrival(PROXY + slug) == Some((slug, "/"))
  {
    var slug := DeploymentSlug(app, endpoint, lower, isWord);
    DeploymentSlugIsInert(app, endpoint, lower, isWord);
    BarePathIsTidy(slug);
    BarePathIsSplit(slug);
    assert PROXY + slug == ProxyPath(slug, "");
    PlainParts(slug, "");
    PlainIsReadBack(PROXY + slug);
  }

  lemma BarePathIsTidy(slug: string)
    requires slug != "" && IsInert(slug)
    ensures IsTidy(PROXY + slug)
  {
    var path := PROXY + slug;
    forall i | 0 <= i < |path| ensures !IsUntidyAt(path, i) {
      if i >= |PROXY| {
        assert path[i] == slug[i - |PROXY|] && path[i] in slug;
      } else if i == |PROXY| - 1 {
        assert path[i + 1] == slug[0] && slug[0] in slug;
      }
    }
  }

  lemma BarePathIsSplit(slug: string)
    requires slug != "" && IsInert(slug)
    ensures SplitProxyPath(PROXY + slug) == Some((slug, "/"))
  {
    assert (PROXY + slug)[|PROXY|..] == slug && PROXY <= PROXY + slug && '/' !in slug;
  }

  lemma PublishedUrlArrives(slug: string, webPath: string)
    requires slug != "" && IsInert(slug) && webPath != ""
    ensures Arrival(ProxyPath(slug, webPath)) == Some((slug, webPath)) <==>
              webPath[0] == '/' && IsPlain(webPath) && IsTidy(webPath)
  {
    var url := ProxyPath(slug, webPath);
    PlainIsReadBack(url);
    assert IsPlain(url) <==> IsPlain(webPath) by { PlainParts(slug, webPath); }
    ProxyRecovers(slug, webPath);
    if webPath[0] == '/' {
      TidyPath(slug, webPath);
    }
    if Arrival(url) == Some((slug, webPath)) {
      SplitIsExact(Decoded(CutAtQuery(url)).value);
    }
  }

  lemma PlainParts(slug: string, webPath: string)
    requires IsInert(slug)
    ensures IsPlain(ProxyPath(slug, webPath)) <==> IsPlain(webPath)
  {
    var url := ProxyPath(slug, webPath);
    forall c | c in {'?', '#', '%'} ensures c in url <==> c in webPath {
      assert c in url <==> c in PROXY || c in slug || c in webPath;
      assert c !in PROXY;
    }
  }
}
