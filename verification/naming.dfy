/** POSIX path helpers the batch runner relies on: `os.path.join`,
    `os.path.basename`, `os.path.splitext`, and the composition
    `get_filename_without_ext`. */
module Naming {
  import opened Common

  /** Position of the last occurrence of `c` in `s` (`str.rfind`). */
  function LastIndex(s: string, c: char): (r: Option<nat>)
    ensures r.None? <==> c !in s
    ensures r.Some? ==> r.value < |s| && s[r.value] == c && c !in s[r.value + 1..]
  {
    if |s| == 0 then None
    else if s[|s| - 1] == c then Some(|s| - 1)
    else
      var r := LastIndex(s[..|s| - 1], c);
      assert r.Some? ==> s[r.value + 1..] == s[..|s| - 1][r.value + 1..] + [s[|s| - 1]];
      assert r.None? ==> s == s[..|s| - 1] + [s[|s| - 1]];
      r
  }

  /** `os.path.basename`: everything after the last `/`. */
  function Basename(path: string): (name: string)
    ensures '/' !in name
    ensures |name| <= |path| && name == path[|path| - |name|..]
    ensures |name| < |path| ==> path[|path| - |name| - 1] == '/'
  {
    match LastIndex(path, '/')
    case None => path
    case Some(i) => path[i + 1..]
  }

  /** `os.path.join(dir, name)` for two components: an absolute name
      replaces the directory, an empty directory contributes nothing, and a
      separator is inserted only when the directory does not already end
      with one. */
  function Join(dir: string, name: string): (path: string)
    ensures |name| > 0 && name[0] == '/' ==> path == name
    ensures !(|name| > 0 && name[0] == '/') && dir == "" ==> path == name
    ensures !(|name| > 0 && name[0] == '/') && dir != "" && dir[|dir| - 1] == '/' ==>
      path == dir + name
    ensures !(|name| > 0 && name[0] == '/') && dir != "" && dir[|dir| - 1] != '/' ==>
      path == dir + "/" + name
  {
    if |name| > 0 && name[0] == '/' then name
    else if dir == "" || dir[|dir| - 1] == '/' then dir + name
    else dir + "/" + name
  }

  /** A joined path ends with the name; what precedes it is the directory,
      possibly followed by one added separator; and after a non-empty
      directory the name always follows a `/`. */
  lemma JoinEndsWithName(dir: string, name: string)
    ensures |Join(dir, name)| >= |name|
    ensures Join(dir, name)[|Join(dir, name)| - |name|..] == name
    ensures !(|name| > 0 && name[0] == '/') ==>
      Join(dir, name)[..|Join(dir, name)| - |name|] in {dir, dir + "/"}
    ensures !(|name| > 0 && name[0] == '/') && dir != "" ==>
      |Join(dir, name)| > |name| && Join(dir, name)[|Join(dir, name)| - |name| - 1] == '/'
  {
    var path := Join(dir, name);
    if !(|name| > 0 && name[0] == '/') && dir != "" {
      var prefix := if dir[|dir| - 1] == '/' then dir else dir + "/";
      assert path == prefix + name;
      assert path[..|path| - |name|] == prefix;
      assert path[|path| - |name| - 1] == prefix[|prefix| - 1];
    }
  }

  predicate AllDots(s: string) {
    forall i :: 0 <= i < |s| ==> s[i] == '.'
  }

  /** The two halves `os.path.splitext` returns. */
  datatype RootExt = RootExt(root: string, ext: string)

  /** `os.path.splitext` on a POSIX path: the extension starts at the last
      dot of the final component, provided that dot is preceded within the
      component by something other than dots (so `.bashrc` has none). */
  function SplitExt(path: string): (r: RootExt)
    ensures r.root + r.ext == path
    ensures r.ext == "" || (r.ext[0] == '.' && '.' !in r.ext[1..] && '/' !in r.ext)
  {
    var sepEnd := match LastIndex(path, '/') case None => 0 case Some(i) => i + 1;
    match LastIndex(path, '.')
    case None => RootExt(path, "")
    case Some(dot) =>
      if dot >= sepEnd && !AllDots(path[sepEnd..dot])
      then RootExt(path[..dot], path[dot..])
      else RootExt(path, "")
  }

  /** For a name without separators, the extension is the suffix from the
      last dot exactly when some non-dot character precedes that dot. */
  lemma SplitExtOfName(name: string)
    requires '/' !in name
    ensures SplitExt(name).ext != "" <==>
      (exists d :: 0 <= d < |name| && name[d] == '.' && '.' !in name[d + 1..] && !AllDots(name[..d]))
    ensures SplitExt(name).ext != "" ==> '.' !in SplitExt(name).ext[1..] && !AllDots(SplitExt(name).root)
  {
  }

  /** `get_filename_without_ext`: the final component without its extension. */
  function Stem(path: string): (stem: string)
    ensures '/' !in stem
    ensures stem + SplitExt(Basename(path)).ext == Basename(path)
  {
    SplitExt(Basename(path)).root
  }

  /** Joining a separator-free name onto a directory and taking the base
      name gives the name back. */
  lemma BasenameOfJoin(dir: string, name: string)
    requires '/' !in name
    ensures Basename(Join(dir, name)) == name
  {
    JoinEndsWithName(dir, name);
  }

  /** The stem of a directory entry's joined path is the entry's own stem. */
  lemma StemOfEntry(dir: string, name: string)
    requires '/' !in name
    ensures Stem(Join(dir, name)) == SplitExt(name).root
  {
    BasenameOfJoin(dir, name);
  }
}
