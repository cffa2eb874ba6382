/**
 * The `GitHubAPI` object of js/app.js: its mutable coordinates, `init`, and
 * the collection loader as the loop the source runs.
 */
module Client {
  import opened Wrappers
  import opened Platform
  import opened Api
  import opened Collections

  class GitHubApi {
    var username: Option<string>
    var repo: Option<string>
    var token: Option<string>
    const baseUrl: string

    /** A fresh client: no coordinates yet, talking to the public GitHub API. */
    constructor()
      ensures username == None && repo == None && token == None
      ensures baseUrl == BaseUrl
    {
      username, repo, token := None, None, None;
      baseUrl := BaseUrl;
    }

    /** The client's state as a value. */
    function Current(): Config
      reads this
    {
      Config(baseUrl, username, repo, token)
    }

    /**
     * `init`: stores the coordinates (whatever happens next) and reads the
     * repository metadata; `None` stands for the error it rethrows.
     */
    method Init(u: string, r: string, t: string, h: Host) returns (info: Option<int>)
      modifies this
      ensures username == Some(u) && repo == Some(r) && token == Some(t)
      ensures info == RepoInfo(h, Current())
    {
      username, repo, token := Some(u), Some(r), Some(t);
      info := RepoInfo(h, Current());
    }

    /**
     * `getMemories`, `getStudents` and `getDevelopers`: one pass over the
     * folder listing that pushes each loadable entry's rewritten record.
     */
    method GetCollection(coll: Collection, h: Host) returns (records: seq<Fields>)
      ensures records == LoadCollection(h, Current(), Folder(coll))
      ensures |records| <= |Dirs(FolderContents(h, Current(), Folder(coll)))|
    {
      var folder := Folder(coll);
      var folders := FolderContents(h, Current(), folder);
      records := [];
      var i := 0;
      while i < |folders|
        invariant 0 <= i <= |folders|
        invariant records == Gather(h, Current(), folder, folders[..i])
      {
        var entry := folders[i];
        assert folders[..i + 1][..i] == folders[..i];
        if entry.kind == "dir" {
          var dataContent := FileContent(h, Current(), DataPath(folder, entry.name));
          if dataContent.Some? && dataContent.value != "" {
            match h.parse(dataContent.value)
            case Some(JObject(data)) =>
              records := records + [Rewrite(Current(), data)];
            case Some(JNull) =>
            case None =>
          }
        }
        i := i + 1;
      }
      assert folders[..i] == folders;
      GatherBound(h, Current(), folder, folders);
    }
  }
}
