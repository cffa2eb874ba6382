/**
 * The read-only queries of `GitHubAPI` in js/app.js, over a snapshot of the
 * client's state: the URL templates, `getRepoInfo`, `getRepoSize`,
 * `getFileContent`, `getFolderContents` and `getBackgroundMusicUrl`.
 * Every query but `getRepoInfo` turns every failure into a fallback value.
 */
module Api {
  import opened Wrappers
  import opened JsText
  import opened Platform

  const BaseUrl: string := "https://api.github.com"
  const RawHost: string := "https://raw.githubusercontent.com/"
  const Branch: string := "main"
  const MusicFile: string := "music/background.txt"

  /** The fields of a `GitHubAPI` object; `username`, `repo` and `token` are `null` until `init`. */
  datatype Config = Config(baseUrl: string, username: Option<string>, repo: Option<string>, token: Option<string>)

  /** The `Authorization` header `fetchWithAuth` sends. */
  function AuthHeader(c: Config): string
  {
    "token " + OrNull(c.token)
  }

  /** `${baseUrl}/repos/${username}/${repo}` */
  function RepoUrl(c: Config): string
  {
    c.baseUrl + "/repos/" + OrNull(c.username) + "/" + OrNull(c.repo)
  }

  /** `${baseUrl}/repos/${username}/${repo}/contents/${path}` */
  function ContentsUrl(c: Config, path: string): string
  {
    RepoUrl(c) + "/contents/" + path
  }

  /** `https://raw.githubusercontent.com/${username}/${repo}/main/${imagePath}` */
  function RawUrl(c: Config, imagePath: string): string
  {
    RawHost + OrNull(c.username) + "/" + OrNull(c.repo) + "/" + Branch + "/" + imagePath
  }

  /** Two strings with a common prefix are equal only if what follows is. */
  lemma SuffixCancel(pre: string, a: string, b: string)
    requires pre + a == pre + b
    ensures a == b
  {
    assert a == (pre + a)[|pre|..];
    assert b == (pre + b)[|pre|..];
  }

  /** Distinct paths are requested at distinct URLs. */
  lemma ContentsUrlInjective(c: Config, p1: string, p2: string)
    requires ContentsUrl(c, p1) == ContentsUrl(c, p2)
    ensures p1 == p2
  {
    SuffixCancel(RepoUrl(c) + "/contents/", p1, p2);
  }

  /** Distinct image paths resolve to distinct asset URLs. */
  lemma RawUrlInjective(c: Config, p1: string, p2: string)
    requires RawUrl(c, p1) == RawUrl(c, p2)
    ensures p1 == p2
  {
    SuffixCancel(RawHost + OrNull(c.username) + "/" + OrNull(c.repo) + "/" + Branch + "/", p1, p2);
  }

  /** For a client set up with a user and a repository, the asset URL is the raw host, owner, repository, branch and path in that order. */
  lemma RawUrlShape(c: Config, u: string, r: string, path: string)
    requires c.username == Some(u) && c.repo == Some(r)
    ensures RawUrl(c, path) == "https://raw.githubusercontent.com/" + u + "/" + r + "/main/" + path
  {
  }

  /** `getRepoInfo`: the repository metadata, or `None` where it throws (any status that is not ok, or a failed request). */
  function RepoInfo(h: Host, c: Config): (size: Option<int>)
    ensures size.Some? <==> h.repoMeta(RepoUrl(c), AuthHeader(c)).Ok?
    ensures size.Some? ==> size.value == h.repoMeta(RepoUrl(c), AuthHeader(c)).body
  {
    match h.repoMeta(RepoUrl(c), AuthHeader(c))
    case Ok(size) => Some(size)
    case NotOk(_) => None
    case Rejected => None
  }

  /**
   * `Math.round(size / 1024)` for an integer size: the nearest integer, halves
   * rounded up. GitHub reports `size` in kilobytes, so this is megabytes, which
   * the page shows as `${size}MB`.
   */
  function RoundMb(size: int): (mb: int)
    ensures mb * 1024 - 512 <= size < mb * 1024 + 512
    ensures size >= 0 ==> mb >= 0
  {
    (size + 512) / 1024
  }

  /** The rounding is the unique nearest integer, so it agrees with any other rounding to nearest with halves up. */
  lemma RoundMbUnique(size: int, k: int)
    requires k * 1024 - 512 <= size < k * 1024 + 512
    ensures RoundMb(size) == k
  {
    var r := RoundMb(size);
    assert (r - k) * 1024 < 1024 && (k - r) * 1024 < 1024;
  }

  /** `getRepoSize`: the rounded size when the metadata call succeeds, 0 on any failure. */
  function RepoSize(h: Host, c: Config): (mb: int)
    ensures RepoInfo(h, c).None? ==> mb == 0
    ensures RepoInfo(h, c).Some? ==>
      mb * 1024 - 512 <= RepoInfo(h, c).value < mb * 1024 + 512
  {
    match RepoInfo(h, c)
    case Some(size) => RoundMb(size)
    case None => 0
  }

  /**
   * `getFileContent`: the decoded content of a file, or `null` on a 404, on
   * any other status that is not ok, on a failed request and on content
   * `atob` rejects. It never throws.
   */
  function FileContent(h: Host, c: Config, path: string): (content: Option<string>)
    ensures content.Some? <==>
      (h.fileBody(ContentsUrl(c, path), AuthHeader(c)).Ok? &&
       h.atob(h.fileBody(ContentsUrl(c, path), AuthHeader(c)).body).Some?)
    ensures content.Some? ==> content == h.atob(h.fileBody(ContentsUrl(c, path), AuthHeader(c)).body)
  {
    match h.fileBody(ContentsUrl(c, path), AuthHeader(c))
    case Ok(encoded) => h.atob(encoded)
    // 404 returns null; every other status throws, and the catch returns null
    case NotOk(_) => None
    case Rejected => None
  }

  /** `getFolderContents`: the listing, or `[]` on a 404, on any other status that is not ok and on a failed request. */
  function FolderContents(h: Host, c: Config, path: string): (entries: seq<Entry>)
    ensures h.listing(ContentsUrl(c, path), AuthHeader(c)).Ok? ==>
      entries == h.listing(ContentsUrl(c, path), AuthHeader(c)).body
    ensures !h.listing(ContentsUrl(c, path), AuthHeader(c)).Ok? ==> entries == []
  {
    match h.listing(ContentsUrl(c, path), AuthHeader(c))
    case Ok(entries) => entries
    // 404 returns []; every other status throws, and the catch returns []
    case NotOk(_) => []
    case Rejected => []
  }

  /** `getBackgroundMusicUrl`: the trimmed content of music/background.txt, or `null` when it is missing or empty. */
  function BackgroundMusicUrl(h: Host, c: Config): (url: Option<string>)
    ensures url.Some? <==> FileContent(h, c, MusicFile).Some? && FileContent(h, c, MusicFile).value != ""
    ensures url.Some? ==> url.value == Trim(FileContent(h, c, MusicFile).value)
  {
    match FileContent(h, c, MusicFile)
    case Some(text) => if text != "" then Some(Trim(text)) else None
    case None => None
  }

  /** `setupBackgroundMusic` uses the URL only when it is truthy: present and not empty. */
  function MusicSource(url: Option<string>): Option<string>
  {
    match url
    case Some(u) => if u != "" then Some(u) else None
    case None => None
  }

  /**
   * Music plays exactly when music/background.txt can be read and holds a
   * character other than whitespace, and it plays the trimmed content.
   */
  lemma MusicPlaysIff(h: Host, c: Config)
    ensures MusicSource(BackgroundMusicUrl(h, c)).Some? <==>
      FileContent(h, c, MusicFile).Some? && !AllWhitespace(FileContent(h, c, MusicFile).value)
    ensures MusicSource(BackgroundMusicUrl(h, c)).Some? ==>
      MusicSource(BackgroundMusicUrl(h, c)).value == Trim(FileContent(h, c, MusicFile).value)
  {
    var content := FileContent(h, c, MusicFile);
    if content.Some? {
      TrimEmptyIff(content.value);
      if content.value == "" {
        assert AllWhitespace(content.value);
      }
    }
  }
}
