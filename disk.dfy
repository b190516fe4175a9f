/**
 * The local file system the downloaders and mergers write to, as a map
 * from path to contents, and POSIX path joining.
 */
module Files {
  import opened Text
  import opened Bytes

  class Disk {
    var files: map<string, bytes>

    constructor (initial: map<string, bytes>)
      ensures files == initial
    {
      files := initial;
    }

    /** `os.path.exists` / `fs.existsSync`. */
    predicate Exists(path: string)
      reads this
    {
      path in files
    }

    /** Create or overwrite a file. */
    method Write(path: string, data: bytes)
      modifies this
      ensures files == old(files)[path := data]
    {
      files := files[path := data];
    }

    /** `os.remove` / `fs.unlinkSync` of an existing file. */
    method Remove(path: string)
      modifies this
      requires path in files
      ensures files == old(files) - {path}
    {
      files := files - {path};
    }

    /**
     * `fs.remove(dir)`: every file below `dir` goes; removing a missing tree
     * is no error, and the empty path names no tree, so nothing goes.
     */
    method RemoveTree(dir: string)
      modifies this
      ensures files == Without(old(files), dir)
    {
      files := Without(files, dir);
    }
  }

  /** The files that are not below `dir`; the empty path is below no file. */
  function Without(files: map<string, bytes>, dir: string): (r: map<string, bytes>)
    ensures dir == "" ==> r == files
    ensures dir != "" ==> forall p :: p in r <==> p in files && !StartsWith(p, dir + "/")
    ensures forall p :: p in r ==> r[p] == files[p]
  {
    if dir == "" then files else map p | p in files && !StartsWith(p, dir + "/") :: files[p]
  }

  /**
   * Joining a directory and a relative file name: a separator is put in
   * unless the directory is empty or already ends in one.
   */
  function PathJoin(dir: string, name: string): string {
    if dir == "" || EndsWith(dir, "/") then dir + name else dir + "/" + name
  }

  /** For one directory, different names give different paths. */
  lemma PathJoinInjective(dir: string, a: string, b: string)
    requires PathJoin(dir, a) == PathJoin(dir, b)
    ensures a == b
  {
    var p := if dir == "" || EndsWith(dir, "/") then dir else dir + "/";
    assert PathJoin(dir, a) == p + a && PathJoin(dir, b) == p + b;
    assert a == (p + a)[|p|..];
    assert b == (p + b)[|p|..];
  }

  /** `os.path.basename`: what follows the last `/`. */
  function Basename(p: string): (r: string)
    ensures EndsWith(p, r)
  {
    var i := LastIndexOfChar(p, '/');
    var r := p[i + 1..];
    assert |r| == |p| - (i + 1);
    assert p[|p| - |r|..] == r;
    r
  }

  /** The base name holds no `/`, and it is the whole path when the path holds none. */
  lemma BasenameHasNoSlash(p: string)
    ensures forall k :: 0 <= k < |Basename(p)| ==> Basename(p)[k] != '/'
    ensures (forall k :: 0 <= k < |p| ==> p[k] != '/') ==> Basename(p) == p
  {
    var i := LastIndexOfChar(p, '/');
    forall k | 0 <= k < |Basename(p)| ensures Basename(p)[k] != '/' {
      assert Basename(p)[k] == p[i + 1 + k];
    }
  }

  predicate AllSlashes(s: string) {
    forall k :: 0 <= k < |s| ==> s[k] == '/'
  }

  /**
   * `os.path.dirname`: everything up to the last `/`, with the trailing
   * slashes dropped unless that leaves nothing but slashes.
   */
  function Dirname(p: string): (r: string)
    ensures r == "" || AllSlashes(r) || !EndsWith(r, "/")
  {
    var head := p[..LastIndexOfChar(p, '/') + 1];
    if head != "" && !AllSlashes(head) then
      TrimEndIsPrefix(head, c => c == '/');
      TrimEnd(head, c => c == '/')
    else head
  }

  /** `os.path.join(dir, name)`: an absolute name replaces the directory. */
  function PyPathJoin(dir: string, name: string): string {
    if StartsWith(name, "/") then name else PathJoin(dir, name)
  }

  /**
   * A name without `/` joined to a directory as `dirname` leaves it comes
   * back out of `dirname` and `basename` unchanged.
   */
  lemma DirnameBasenameOfJoin(dir: string, name: string)
    requires dir == "" || AllSlashes(dir) || !EndsWith(dir, "/")
    requires forall k :: 0 <= k < |name| ==> name[k] != '/'
    ensures Dirname(PyPathJoin(dir, name)) == dir
    ensures Basename(PyPathJoin(dir, name)) == name
  {
    var p := PyPathJoin(dir, name);
    assert !StartsWith(name, "/") by {
      assert |name| >= 1 ==> name[0] != '/';
    }
    if dir == "" {
      assert p == name;
      BasenameHasNoSlash(name);
    } else if EndsWith(dir, "/") {
      assert p == dir + name;
      forall j | |dir| - 1 < j < |p| ensures p[j] != '/' {
        assert p[j] == name[j - |dir|];
      }
      LastIndexOfCharIs(p, '/', |dir| - 1);
      assert p[..|dir|] == dir;
      assert p[|dir|..] == name;
    } else {
      assert p == dir + "/" + name;
      forall j | |dir| < j < |p| ensures p[j] != '/' {
        assert p[j] == name[j - |dir| - 1];
      }
      LastIndexOfCharIs(p, '/', |dir|);
      var head := p[..|dir| + 1];
      assert head == dir + "/";
      assert !AllSlashes(head) by {
        assert head[|dir| - 1] != '/';
      }
      assert head[..|head| - 1] == dir;
      assert TrimEnd(head, c => c == '/') == TrimEnd(dir, c => c == '/');
      assert p[|dir| + 1..] == name;
    }
  }
}
