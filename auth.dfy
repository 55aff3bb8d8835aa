/** The page-level access check (utils/auth.py): a page may be shown when
    its file name, with directories stripped, is the file name of one of the
    role's allowed pages. */
module Auth {
  import opened Wrappers

  /** `os.path.basename` on POSIX paths: the text after the last '/'. */
  function Basename(p: string): (r: string)
    ensures '/' !in r
    ensures |r| <= |p| && r == p[|p| - |r|..]
    ensures r != p ==> p[|p| - |r| - 1] == '/'
  {
    if p == [] then []
    else if p[|p| - 1] == '/' then []
    else
      var init := p[..|p| - 1];
      var r := Basename(init);
      assert init[|init| - |r|..] == p[|p| - 1 - |r|..|p| - 1];
      assert p[|p| - 1 - |r|..] == p[|p| - 1 - |r|..|p| - 1] + [p[|p| - 1]];
      r + [p[|p| - 1]]
  }

  /** Appending a character other than '/' extends the basename by it. */
  lemma BasenameSnoc(p: string, c: char)
    requires c != '/'
    ensures Basename(p + [c]) == Basename(p) + [c]
  {
    assert (p + [c])[..|p + [c]| - 1] == p;
  }

  /** A directory prefix, however deep, does not change the basename. */
  lemma {:induction false} BasenameIgnoresDirectory(dir: string, file: string)
    requires '/' !in file
    ensures Basename(dir + "/" + file) == file
    ensures Basename(file) == file
    decreases |file|
  {
    if file == [] {
      assert dir + "/" + file == dir + "/";
    } else {
      var last := file[|file| - 1];
      var init := file[..|file| - 1];
      assert init + [last] == file;
      BasenameIgnoresDirectory(dir, init);
      assert dir + "/" + file == (dir + "/" + init) + [last];
      BasenameSnoc(dir + "/" + init, last);
      BasenameSnoc(init, last);
    }
  }

  /** `[os.path.basename(p) for p in allowed_pages]`. */
  function Basenames(paths: seq<string>): (r: seq<string>)
    ensures |r| == |paths|
    ensures forall i :: 0 <= i < |paths| ==> r[i] == Basename(paths[i])
  {
    if paths == [] then [] else [Basename(paths[0])] + Basenames(paths[1..])
  }

  /** enforce_access: `Continue` (no effect) when allowed, `Stop` after the
      restriction message otherwise.  The role is not consulted. */
  function EnforceAccess(role: string, allowedPages: seq<string>, currentFile: string): (flow: Flow)
    ensures flow == Continue <==> exists p :: p in allowedPages && Basename(p) == Basename(currentFile)
    ensures flow != Continue ==> flow == Stop
  {
    var allowed := Basenames(allowedPages);
    assert forall f :: f in allowed <==> exists p :: p in allowedPages && Basename(p) == f by {
      forall f ensures f in allowed <==> exists p :: p in allowedPages && Basename(p) == f {
        if f in allowed {
          var i :| 0 <= i < |allowed| && allowed[i] == f;
          assert allowedPages[i] in allowedPages;
        }
        if exists p :: p in allowedPages && Basename(p) == f {
          var p :| p in allowedPages && Basename(p) == f;
          var i :| 0 <= i < |allowedPages| && allowedPages[i] == p;
          assert allowed[i] == f;
        }
      }
    }
    if Basename(currentFile) in allowed then Continue else Stop
  }

  /** An empty list of allowed pages denies every page. */
  lemma EmptyListDenies(role: string, currentFile: string)
    ensures EnforceAccess(role, [], currentFile) == Stop
  {
  }

  /** "pages/x.py" in the list admits "/any/dir/x.py". */
  lemma DirectoriesIgnored(role: string, allowedDir: string, currentDir: string, file: string, others: seq<string>)
    requires '/' !in file
    ensures EnforceAccess(role, others + [allowedDir + "/" + file], currentDir + "/" + file) == Continue
  {
    BasenameIgnoresDirectory(allowedDir, file);
    BasenameIgnoresDirectory(currentDir, file);
    assert allowedDir + "/" + file in others + [allowedDir + "/" + file];
  }
}
