/** A candidate snapshot of a project in the git bridge: the files of a newly
    pushed working tree, each paired with the file at the same path in the
    previous version, and the JSON document that announces the snapshot to
    the web application. Changed files are also written out as attachments
    the web application fetches back through their `url`. */
module CandidateSnapshot {
  import opened Wrappers

  /** Java's `int`. */
  type Int32 = x: int | -0x8000_0000 <= x < 0x8000_0000

  datatype RawFile = RawFile(path: string, contents: seq<bv8>)

  /** A directory's file table, as the entries its map yields in iteration
      order (key, file). */
  datatype RawDirectory = RawDirectory(entries: seq<(string, RawFile)>)

  /** A new file, and the file the previous version had at its path (null in
      the source when there is none). */
  datatype ServletFile = ServletFile(file: RawFile, oldFile: Option<RawFile>)

  datatype Snapshot = Snapshot(projectName: string, currentVersion: Int32, files: seq<ServletFile>)

  /** The JSON values the snapshot is serialised to; an object keeps its
      members in insertion order. */
  datatype Json =
    | JNumber(n: int)
    | JString(s: string)
    | JArray(items: seq<Json>)
    | JObject(members: seq<(string, Json)>)

  /** The table is keyed by file path, as the bridge builds it. */
  predicate KeyedByPath(dir: RawDirectory) {
    forall i :: 0 <= i < |dir.entries| ==> dir.entries[i].0 == dir.entries[i].1.path
  }

  function Keys(dir: RawDirectory): seq<string>
  {
    seq(|dir.entries|, i requires 0 <= i < |dir.entries| => dir.entries[i].0)
  }

  function Paths(files: seq<ServletFile>): seq<string>
  {
    seq(|files|, i requires 0 <= i < |files| => files[i].file.path)
  }

  /** The table's lookup: the file stored under `key`, if any. */
  function Get(dir: RawDirectory, key: string): (r: Option<RawFile>)
    ensures r.None? <==> forall i :: 0 <= i < |dir.entries| ==> dir.entries[i].0 != key
    ensures r.Some? ==> exists i :: 0 <= i < |dir.entries| && dir.entries[i] == (key, r.value)
  {
    GetEntry(dir.entries, key)
  }

  function GetEntry(entries: seq<(string, RawFile)>, key: string): (r: Option<RawFile>)
    ensures r.None? <==> forall i :: 0 <= i < |entries| ==> entries[i].0 != key
    ensures r.Some? ==> exists i :: 0 <= i < |entries| && entries[i] == (key, r.value)
  {
    if entries == [] then None
    else if entries[0].0 == key then Some(entries[0].1)
    else
      var rest := GetEntry(entries[1..], key);
      assert rest.Some? ==> exists i :: 1 <= i < |entries| && entries[i] == (key, rest.value) by {
        if rest.Some? {
          var i :| 0 <= i < |entries[1..]| && entries[1..][i] == (key, rest.value);
          assert entries[i + 1] == entries[1..][i];
        }
      }
      assert forall i :: 1 <= i < |entries| ==> entries[i] == entries[1..][i - 1];
      rest
  }

  /** Pairs every file of the new table with the old table's file at its
      path. Old files with no counterpart in the new table are not listed. */
  method Diff(dir: RawDirectory, oldDir: RawDirectory) returns (files: seq<ServletFile>)
    ensures |files| == |dir.entries|
    ensures forall i :: 0 <= i < |files| ==>
      files[i].file == dir.entries[i].1 && files[i].oldFile == Get(oldDir, dir.entries[i].1.path)
    ensures KeyedByPath(dir) ==> Paths(files) == Keys(dir)
    ensures KeyedByPath(oldDir) ==> forall i :: 0 <= i < |files| && files[i].oldFile.Some? ==>
      files[i].oldFile.value.path == files[i].file.path
  {
    files := [];
    var i := 0;
    while i < |dir.entries|
      invariant 0 <= i <= |dir.entries|
      invariant |files| == i
      invariant forall k :: 0 <= k < i ==>
        files[k].file == dir.entries[k].1 && files[k].oldFile == Get(oldDir, dir.entries[k].1.path)
    {
      var file := dir.entries[i].1;
      files := files + [ServletFile(file, Get(oldDir, file.path))];
      i := i + 1;
    }
  }

  /** The snapshot of `dir` against the previous version `oldDir`. */
  method NewCandidateSnapshot(projectName: string, currentVersion: Int32, dir: RawDirectory, oldDir: RawDirectory)
    returns (s: Snapshot)
    ensures s.projectName == projectName && GetProjectName(s) == projectName
    ensures s.currentVersion == currentVersion
    ensures |s.files| == |dir.entries|
    ensures forall i :: 0 <= i < |s.files| ==>
      s.files[i].file == dir.entries[i].1 && s.files[i].oldFile == Get(oldDir, dir.entries[i].1.path)
  {
    var files := Diff(dir, oldDir);
    s := Snapshot(projectName, currentVersion, files);
  }

  /** The project name the snapshot was built for. */
  function GetProjectName(s: Snapshot): string
  {
    s.projectName
  }

  /** The files `isChanged` selects, in list order. */
  function ChangedFiles(files: seq<ServletFile>, isChanged: ServletFile -> bool): (r: seq<ServletFile>)
    ensures |r| <= |files|
    ensures forall f :: f in r <==> f in files && isChanged(f)
  {
    if files == [] then []
    else
      var rest := ChangedFiles(files[1..], isChanged);
      assert forall f :: f in files <==> f == files[0] || f in files[1..];
      if isChanged(files[0]) then [files[0]] + rest else rest
  }

  /** Selecting from a concatenation selects from each part in turn, so the
      selection keeps the order of the list. */
  lemma {:induction false} ChangedFilesAppend(a: seq<ServletFile>, b: seq<ServletFile>, isChanged: ServletFile -> bool)
    ensures ChangedFiles(a + b, isChanged) == ChangedFiles(a, isChanged) + ChangedFiles(b, isChanged)
  {
    if a == [] {
      assert a + b == b;
    } else {
      assert (a + b)[0] == a[0];
      assert (a + b)[1..] == a[1..] + b;
      ChangedFilesAppend(a[1..], b, isChanged);
    }
  }

  /** Extending the list by one file extends the selection by that file
      exactly when it changed. */
  lemma ChangedFilesSnoc(files: seq<ServletFile>, file: ServletFile, isChanged: ServletFile -> bool)
    ensures ChangedFiles(files + [file], isChanged)
         == ChangedFiles(files, isChanged) + (if isChanged(file) then [file] else [])
  {
    ChangedFilesAppend(files, [file], isChanged);
    assert [file][1..] == [];
  }

  /** The attachment directory of a project below the git root. */
  function AttsDirectory(root: string, projectName: string): string {
    root + "/" + ".wlgb/atts/" + projectName
  }

  /** The files the snapshot writes to disk, and where: exactly the changed
      files, in list order, into the project's attachment directory. */
  method WriteServletFiles(s: Snapshot, root: string, isChanged: ServletFile -> bool)
    returns (directory: string, written: seq<ServletFile>)
    ensures directory == AttsDirectory(root, s.projectName)
    ensures written == ChangedFiles(s.files, isChanged)
    ensures forall f :: f in written <==> f in s.files && isChanged(f)
  {
    directory := AttsDirectory(root, s.projectName);
    written := [];
    var i := 0;
    while i < |s.files|
      invariant 0 <= i <= |s.files|
      invariant written == ChangedFiles(s.files[..i], isChanged)
    {
      var file := s.files[i];
      ChangedFilesSnoc(s.files[..i], file, isChanged);
      assert s.files[..i + 1] == s.files[..i] + [file];
      if isChanged(file) {
        written := written + [file];
      }
      i := i + 1;
    }
    assert s.files[..i] == s.files;
  }

  /** The project's URL below the web application's postback base. */
  function ProjectUrl(postbackBase: string, projectName: string): string {
    postbackBase + projectName
  }

  /** Where the web application fetches a changed file from. */
  function FileUrl(projectUrl: string, path: string, postbackKey: string): string {
    projectUrl + "/" + path + "?key=" + postbackKey
  }

  /** Where the web application reports the outcome of the snapshot. */
  function PostbackUrl(projectUrl: string, postbackKey: string): string {
    projectUrl + "/" + postbackKey + "/postback"
  }

  /** The value of an object's member `key`, if it has one. */
  function Member(j: Json, key: string): Option<Json> {
    if !j.JObject? then None else Lookup(j.members, key)
  }

  function Lookup(members: seq<(string, Json)>, key: string): Option<Json> {
    if members == [] then None
    else if members[0].0 == key then Some(members[0].1)
    else Lookup(members[1..], key)
  }

  /** A file's JSON object: its name, and a url only when it changed. */
  function FileAsJson(f: ServletFile, projectUrl: string, postbackKey: string, isChanged: ServletFile -> bool)
    : (j: Json)
    ensures j.JObject? && |j.members| <= 2
    ensures Member(j, "name") == Some(JString(f.file.path))
    ensures Member(j, "url").Some? <==> isChanged(f)
    ensures isChanged(f) ==> Member(j, "url") == Some(JString(FileUrl(projectUrl, f.file.path, postbackKey)))
  {
    assert "name" != "url" by { assert |"name"| != |"url"|; }
    if isChanged(f) then
      var members := [("name", JString(f.file.path)), ("url", JString(projectUrl + "/" + f.file.path + "?key=" + postbackKey))];
      assert Lookup(members[1..], "url") == Some(members[1].1);
      JObject(members)
    else
      var members := [("name", JString(f.file.path))];
      assert Lookup(members[1..], "url") == None;
      JObject(members)
  }

  /** The `files` array: one object per snapshot file, in the same order. */
  function FilesAsJson(files: seq<ServletFile>, projectUrl: string, postbackKey: string, isChanged: ServletFile -> bool)
    : (items: seq<Json>)
    ensures |items| == |files|
    ensures forall i :: 0 <= i < |items| ==> items[i] == FileAsJson(files[i], projectUrl, postbackKey, isChanged)
  {
    if files == [] then []
    else
      [FileAsJson(files[0], projectUrl, postbackKey, isChanged)]
        + FilesAsJson(files[1..], projectUrl, postbackKey, isChanged)
  }

  /** The snapshot's JSON: its version, its files and its postback URL. */
  function JsonRepresentation(s: Snapshot, postbackBase: string, postbackKey: string, isChanged: ServletFile -> bool)
    : (j: Json)
    ensures Member(j, "latestVerId") == Some(JNumber(s.currentVersion))
    ensures Member(j, "postbackUrl") == Some(JString(PostbackUrl(ProjectUrl(postbackBase, s.projectName), postbackKey)))
    ensures Member(j, "files").Some? && Member(j, "files").value.JArray?
    ensures Member(j, "files")
         == Some(JArray(FilesAsJson(s.files, ProjectUrl(postbackBase, s.projectName), postbackKey, isChanged)))
    ensures var items := Member(j, "files").value.items;
      && |items| == |s.files|
      && forall i :: 0 <= i < |items| ==>
           && Member(items[i], "name") == Some(JString(s.files[i].file.path))
           && (Member(items[i], "url").Some? <==> isChanged(s.files[i]))
  {
    var projectUrl := postbackBase + s.projectName;
    var members := [
      ("latestVerId", JNumber(s.currentVersion)),
      ("files", JArray(FilesAsJson(s.files, projectUrl, postbackKey, isChanged))),
      ("postbackUrl", JString(projectUrl + "/" + postbackKey + "/postback"))
    ];
    assert "files" != "latestVerId" by { assert |"files"| != |"latestVerId"|; }
    assert "postbackUrl" != "latestVerId" by { assert "postbackUrl"[0] != "latestVerId"[0]; }
    assert "postbackUrl" != "files" by { assert |"postbackUrl"| != |"files"|; }
    assert Lookup(members[1..], "files") == Some(members[1].1);
    assert Lookup(members[2..], "postbackUrl") == Some(members[2].1);
    assert Lookup(members[1..], "postbackUrl") == Lookup(members[1..][1..], "postbackUrl");
    assert members[1..][1..] == members[2..];
    JObject(members)
  }

  /** Reads back, from a `files` array, the names of the entries that carry
      a url. */
  function NamesWithUrl(items: seq<Json>): seq<string> {
    if items == [] then []
    else
      var rest := NamesWithUrl(items[1..]);
      match (Member(items[0], "name"), Member(items[0], "url"))
      case (Some(JString(name)), Some(_)) => [name] + rest
      case _ => rest
  }

  /** The files the JSON announces with a url are exactly the files written
      to disk, in the same order. */
  lemma {:induction false} UrlsMatchWrittenFiles(files: seq<ServletFile>, projectUrl: string, postbackKey: string,
                                                 isChanged: ServletFile -> bool)
    ensures NamesWithUrl(FilesAsJson(files, projectUrl, postbackKey, isChanged))
         == Paths(ChangedFiles(files, isChanged))
  {
    if files != [] {
      var items := FilesAsJson(files, projectUrl, postbackKey, isChanged);
      assert items[1..] == FilesAsJson(files[1..], projectUrl, postbackKey, isChanged);
      UrlsMatchWrittenFiles(files[1..], projectUrl, postbackKey, isChanged);
    }
  }

  /** Read at the level of the whole document: the `files` entries that
      carry a url name exactly the files written to disk, in order. */
  lemma JsonAnnouncesWrittenFiles(s: Snapshot, postbackBase: string, postbackKey: string, isChanged: ServletFile -> bool)
    ensures var j := JsonRepresentation(s, postbackBase, postbackKey, isChanged);
      Member(j, "files").Some? && Member(j, "files").value.JArray?
      && NamesWithUrl(Member(j, "files").value.items) == Paths(ChangedFiles(s.files, isChanged))
  {
    var projectUrl := ProjectUrl(postbackBase, s.projectName);
    var j := JsonRepresentation(s, postbackBase, postbackKey, isChanged);
    assert j.members[1] == ("files", JArray(FilesAsJson(s.files, projectUrl, postbackKey, isChanged)));
    assert "files" != "latestVerId" by { assert |"files"| != |"latestVerId"|; }
    assert Member(j, "files") == Lookup(j.members[1..], "files");
    UrlsMatchWrittenFiles(s.files, projectUrl, postbackKey, isChanged);
  }

  /** The middle of `s` between `prefix` and `suffix`, if it has both. */
  function StripAffixes(prefix: string, suffix: string, s: string): (r: Option<string>)
    ensures r.Some? ==> prefix + r.value + suffix == s
  {
    if |s| >= |prefix| + |suffix| && s[..|prefix|] == prefix && s[|s| - |suffix|..] == suffix then
      var mid := s[|prefix|..|s| - |suffix|];
      assert prefix + mid + suffix == s by {
        assert s == s[..|prefix|] + s[|prefix|..|s| - |suffix|] + s[|s| - |suffix|..];
      }
      Some(mid)
    else None
  }

  lemma StripAffixesRoundTrip(prefix: string, mid: string, suffix: string)
    ensures StripAffixes(prefix, suffix, prefix + mid + suffix) == Some(mid)
  {
  }

  /** Recovers a file's path from its url. */
  function PathOfFileUrl(projectUrl: string, postbackKey: string, url: string): (r: Option<string>)
    ensures r.Some? ==> FileUrl(projectUrl, r.value, postbackKey) == url
  {
    StripAffixes(projectUrl + "/", "?key=" + postbackKey, url)
  }

  /** A file's url determines its path. */
  lemma FileUrlRoundTrip(projectUrl: string, path: string, postbackKey: string)
    ensures PathOfFileUrl(projectUrl, postbackKey, FileUrl(projectUrl, path, postbackKey)) == Some(path)
  {
    assert FileUrl(projectUrl, path, postbackKey) == (projectUrl + "/") + path + ("?key=" + postbackKey);
    StripAffixesRoundTrip(projectUrl + "/", path, "?key=" + postbackKey);
  }

  /** Recovers the postback key from the postback URL. */
  function KeyOfPostbackUrl(projectUrl: string, url: string): (r: Option<string>)
    ensures r.Some? ==> PostbackUrl(projectUrl, r.value) == url
  {
    StripAffixes(projectUrl + "/", "/postback", url)
  }

  /** The postback URL determines the key. */
  lemma PostbackUrlRoundTrip(projectUrl: string, postbackKey: string)
    ensures KeyOfPostbackUrl(projectUrl, PostbackUrl(projectUrl, postbackKey)) == Some(postbackKey)
  {
    StripAffixesRoundTrip(projectUrl + "/", postbackKey, "/postback");
  }
}
