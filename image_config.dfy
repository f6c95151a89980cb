/**
 * The image URL resolver of src/config/imageConfig.js: a build-time delivery
 * mode picks between the locally served assets folder and the jsDelivr CDN
 * mirror of the GitHub repository; image URLs and `srcset` strings are built
 * from it by string concatenation.
 */
module ImageConfig {
  import opened Wrappers
  import opened Text

  /** Where images are served from. */
  datatype Mode = Local | JsDelivr

  /** The GitHub coordinates jsDelivr mirrors. */
  datatype GitHubRepo = GitHubRepo(user: string, repo: string, branch: string)

  /** The part of IMAGE_CONFIG the resolver reads. */
  datatype Config = Config(mode: Mode, github: GitHubRepo, jsdelivrBase: string)

  /** One `srcset` candidate: a URL annotated with a width descriptor. */
  datatype Candidate = Candidate(url: string, width: nat)

  const ProductionBuild: string := "production"
  const SiteRepo: GitHubRepo := GitHubRepo("hmishra", "vedica", "main")
  const JsDelivrGitHub: string := "https://cdn.jsdelivr.net/gh"
  /** The assets folder, which is also the whole base URL in local mode. */
  const AssetsDir: string := "/src/assets"
  const DefaultWidths: seq<nat> := [640, 768, 1024, 1280, 1920]

  /** The mode chosen from the bundler's build mode string. */
  function ModeFor(buildMode: string): (m: Mode)
    ensures m.JsDelivr? <==> buildMode == ProductionBuild
    ensures m.Local? <==> buildMode != ProductionBuild
  {
    if buildMode == ProductionBuild then JsDelivr else Local
  }

  /** IMAGE_CONFIG as the site sets it up for a given build mode. */
  function SiteConfig(buildMode: string): (c: Config)
    ensures c.mode.JsDelivr? <==> buildMode == ProductionBuild
    ensures c.github == GitHubRepo("hmishra", "vedica", "main") && c.jsdelivrBase == "https://cdn.jsdelivr.net/gh"
  {
    Config(ModeFor(buildMode), SiteRepo, JsDelivrGitHub)
  }

  /** getImageBaseUrl: the prefix every image URL starts with. */
  function BaseUrl(c: Config): (r: string)
    ensures EndsWith(r, AssetsDir)
    ensures r == AssetsDir <==> c.mode.Local?
  {
    if c.mode.JsDelivr? then
      var GitHubRepo(user, repo, branch) := c.github;
      var r := c.jsdelivrBase + "/" + user + "/" + repo + "@" + branch + AssetsDir;
      assert r[|r| - |AssetsDir|..] == AssetsDir;
      assert |r| > |AssetsDir| && r != AssetsDir;
      r
    else
      AssetsDir
  }

  /**
   * Reads the GitHub coordinates back out of a jsDelivr base URL: the owner
   * runs to the first '/', the repository to the next '@', the branch to the
   * assets folder.
   */
  function ParseCdnBase(cdn: string, url: string): Option<GitHubRepo>
  {
    var prefix := cdn + "/";
    if !(prefix <= url) || |url| < |prefix| + |AssetsDir| || !EndsWith(url, AssetsDir) then None
    else
      var middle := url[|prefix|..|url| - |AssetsDir|];
      match SplitAtFirst(middle, '/')
      case None => None
      case Some((user, rest)) =>
        match SplitAtFirst(rest, '@')
        case None => None
        case Some((repo, branch)) => Some(GitHubRepo(user, repo, branch))
  }

  /**
   * In jsDelivr mode the base URL carries the owner, repository and branch in
   * their documented places: they can be read back from it, as long as the
   * owner has no '/' and the repository no '@'.
   */
  lemma BaseUrlNamesRepository(c: Config)
    requires c.mode.JsDelivr?
    requires '/' !in c.github.user && '@' !in c.github.repo
    ensures ParseCdnBase(c.jsdelivrBase, BaseUrl(c)) == Some(c.github)
  {
    var GitHubRepo(user, repo, branch) := c.github;
    var prefix := c.jsdelivrBase + "/";
    var tail := repo + ['@'] + branch;
    var middle := user + ['/'] + tail;
    var url := BaseUrl(c);
    assert url == prefix + middle + AssetsDir;
    assert url[|prefix|..|url| - |AssetsDir|] == middle;
    SplitAtFirstAfter(user, '/', tail);
    SplitAtFirstAfter(repo, '@', branch);
  }

  /** getImageUrl: the base URL, a '/', then the asset path. */
  function ImageUrl(c: Config, path: string): (r: string)
    ensures BaseUrl(c) + "/" <= r
    ensures EndsWith(r, path)
    ensures |r| == |BaseUrl(c)| + 1 + |path|
  {
    var r := BaseUrl(c) + "/" + path;
    assert r[|r| - |path|..] == path;
    r
  }

  /** Distinct asset paths resolve to distinct URLs. */
  lemma ImageUrlInjective(c: Config, p: string, q: string)
    requires ImageUrl(c, p) == ImageUrl(c, q)
    ensures p == q
  {
    var n := |BaseUrl(c)| + 1;
    assert p == ImageUrl(c, p)[n..];
    assert q == ImageUrl(c, q)[n..];
  }

  /** One srcset entry: `<url> <w>w`. */
  function SrcSetEntry(url: string, width: nat): (r: string)
    ensures url + " " <= r && EndsWith(r, "w")
    ensures |r| == |url| + |DecimalString(width)| + 2
    ensures r[|url| + 1..|r| - 1] == DecimalString(width)
  {
    url + " " + DecimalString(width) + "w"
  }

  /** Reads an entry back: the URL up to the last space, then digits, then 'w'. */
  function ParseSrcSetEntry(e: string): Option<Candidate>
  {
    if |e| == 0 || e[|e| - 1] != 'w' then None
    else
      var body := e[..|e| - 1];
      var d := DigitSuffixLength(body);
      if d == 0 || d == |body| || body[|body| - d - 1] != ' ' then None
      else
        assert AllDigits(body[|body| - d..]);
        Some(Candidate(body[..|body| - d - 1], ParseDecimal(body[|body| - d..])))
  }

  /** Every entry reads back as the URL and width it was built from. */
  lemma ParseSrcSetEntryRoundTrip(url: string, width: nat)
    ensures ParseSrcSetEntry(SrcSetEntry(url, width)) == Some(Candidate(url, width))
  {
    var digits := DecimalString(width);
    var e := SrcSetEntry(url, width);
    var body := url + [' '] + digits;
    assert e == body + ['w'];
    assert e[..|e| - 1] == body;
    DigitSuffixOf(url, ' ', digits);
    assert body[..|body| - |digits| - 1] == url;
    assert body[|body| - |digits|..] == digits;
    ParseDecimalString(width);
  }

  /** `widths.map(w => ...)`: one entry per width, in the order of the widths. */
  function SrcSetEntries(url: string, widths: seq<nat>): (r: seq<string>)
    ensures |r| == |widths|
    ensures forall i :: 0 <= i < |r| ==> r[i] == SrcSetEntry(url, widths[i])
  {
    if widths == [] then [] else [SrcSetEntry(url, widths[0])] + SrcSetEntries(url, widths[1..])
  }

  /** getImageSrcSet. */
  function SrcSet(c: Config, path: string, widths: seq<nat>): (r: string)
    ensures c.mode.Local? ==> r == ImageUrl(c, path)
    ensures c.mode.JsDelivr? ==> r == Join(SrcSetEntries(ImageUrl(c, path), widths))
    ensures c.mode.JsDelivr? && widths == [] ==> r == ""
  {
    var baseUrl := BaseUrl(c);
    if c.mode.JsDelivr? then Join(SrcSetEntries(baseUrl + "/" + path, widths))
    else baseUrl + "/" + path
  }

  /** An entry adds no comma to its URL: the descriptor is a space, digits and 'w'. */
  lemma EntryCommaFree(url: string, width: nat)
    requires ',' !in url
    ensures ',' !in SrcSetEntry(url, width)
  {
    var digits := DecimalString(width);
    assert SrcSetEntry(url, width) == url + (" " + digits + "w");
    assert forall j :: 0 <= j < |digits| ==> IsDigit(digits[j]);
  }

  /**
   * In jsDelivr mode the srcset splits into exactly one entry per width, in
   * the order given, and each entry carries the same image URL with that
   * width as its descriptor (jsDelivr does no resizing). The image URL must be
   * free of commas for the entries to be told apart.
   */
  lemma SrcSetRoundTrip(c: Config, path: string, widths: seq<nat>)
    requires c.mode.JsDelivr? && |widths| >= 1
    requires ',' !in ImageUrl(c, path)
    ensures |SplitList(SrcSet(c, path, widths))| == |widths|
    ensures forall i :: 0 <= i < |widths| ==>
              ParseSrcSetEntry(SplitList(SrcSet(c, path, widths))[i]) == Some(Candidate(ImageUrl(c, path), widths[i]))
  {
    var url := ImageUrl(c, path);
    var entries := SrcSetEntries(url, widths);
    assert SrcSet(c, path, widths) == Join(entries);
    forall i | 0 <= i < |entries|
      ensures ',' !in entries[i]
    {
      EntryCommaFree(url, widths[i]);
    }
    SplitJoin(entries);
    forall i | 0 <= i < |widths|
      ensures ParseSrcSetEntry(entries[i]) == Some(Candidate(url, widths[i]))
    {
      ParseSrcSetEntryRoundTrip(url, widths[i]);
    }
  }

  /** The default widths give a five-entry srcset, from 640w up to 1920w. */
  lemma DefaultSrcSet(c: Config, path: string)
    requires c.mode.JsDelivr?
    requires ',' !in ImageUrl(c, path)
    ensures |SplitList(SrcSet(c, path, DefaultWidths))| == 5
    ensures ParseSrcSetEntry(SplitList(SrcSet(c, path, DefaultWidths))[0]) == Some(Candidate(ImageUrl(c, path), 640))
    ensures ParseSrcSetEntry(SplitList(SrcSet(c, path, DefaultWidths))[4]) == Some(Candidate(ImageUrl(c, path), 1920))
  {
    SrcSetRoundTrip(c, path, DefaultWidths);
  }

  /** The development build serves an asset from the local assets folder. */
  lemma DevelopmentImageUrl()
    ensures ImageUrl(SiteConfig("development"), "trivarna/p1.JPG") == "/src/assets/trivarna/p1.JPG"
  {
    assert SiteConfig("development").mode.Local?;
  }

  /** The production build serves the same asset from jsDelivr. */
  lemma ProductionImageUrl()
    ensures ImageUrl(SiteConfig("production"), "trivarna/p1.JPG")
         == "https://cdn.jsdelivr.net/gh/hmishra/vedica@main/src/assets/trivarna/p1.JPG"
  {
    var c := SiteConfig("production");
    assert c.mode.JsDelivr?;
    var s0 := "https://cdn.jsdelivr.net/gh" + "/";
    assert s0 == "https://cdn.jsdelivr.net/gh/";
    var s1 := s0 + "hmishra" + "/";
    assert s1 == "https://cdn.jsdelivr.net/gh/hmishra/";
    var s2 := s1 + "vedica" + "@";
    assert s2 == "https://cdn.jsdelivr.net/gh/hmishra/vedica@";
    var s3 := s2 + "main" + "/src/assets";
    assert s3 == "https://cdn.jsdelivr.net/gh/hmishra/vedica@main/src/assets";
    assert BaseUrl(c) == s3;
    assert s3 + "/" + "trivarna/p1.JPG" == "https://cdn.jsdelivr.net/gh/hmishra/vedica@main/src/assets/trivarna/p1.JPG";
  }
}
