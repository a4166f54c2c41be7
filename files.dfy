/** The output filesystem, seen as the set of existing directories and the log of
    the operations the generator performed on it. */
module Files {
  import opened PyOps
  import opened PosixPath

  datatype Event =
    | MadeDirs(path: string)
    | Wrote(path: string, content: string)
    | CopiedTree(src: string, dst: string)

  datatype Disk = Disk(dirs: set<string>, log: seq<Event>)

  /** The files written, in order, as (path, content) pairs. */
  function Writes(log: seq<Event>): seq<(string, string)>
  {
    if log == [] then []
    else Writes(log[..|log| - 1]) + match log[|log| - 1] {
      case Wrote(p, c) => [(p, c)]
      case _ => []
    }
  }

  lemma {:induction false} WritesAppend(a: seq<Event>, b: seq<Event>)
    ensures Writes(a + b) == Writes(a) + Writes(b)
    decreases |b|
  {
    if b != [] {
      var b' := b[..|b| - 1];
      assert (a + b)[..|a + b| - 1] == a + b';
      WritesAppend(a, b');
    } else {
      assert a + b == a;
    }
  }

  /** The prefixes of `p` of length at most `n` that end where a path component ends. */
  function ComponentPrefixes(p: string, n: nat): set<string>
    requires n <= |p|
  {
    if n == 0 then {}
    else ComponentPrefixes(p, n - 1) + (if n == |p| || p[n] == '/' then {p[..n]} else {})
  }

  /** `p` and each of its parent directories. */
  function Ancestors(p: string): (r: set<string>)
    ensures p != "" ==> p in r
  {
    assert p[..|p|] == p;
    ComponentPrefixes(p, |p|)
  }

  /** `os.makedirs(p)` */
  function MakeDirs(d: Disk, p: string): Disk {
    Disk(d.dirs + Ancestors(p), d.log + [MadeDirs(p)])
  }

  /** The guard `if not os.path.exists(p) or not os.path.isdir(p): os.makedirs(p)`. */
  function EnsureDir(d: Disk, p: string): (r: Disk)
    ensures p != "" ==> p in r.dirs
    ensures p in d.dirs ==> r == d
    ensures d.dirs <= r.dirs && Writes(r.log) == Writes(d.log)
  {
    if p in d.dirs then d
    else
      var r := MakeDirs(d, p);
      assert r.log[..|r.log| - 1] == d.log;
      r
  }

  /** `_write_file(filename, content)`: creates the file's directory when the name
      holds a '/' and the directory is missing, then writes the file. */
  function WriteFile(d: Disk, filename: string, content: string): (r: Disk)
    ensures '/' in filename && Dirname(filename) != "" ==> Dirname(filename) in r.dirs
    ensures d.dirs <= r.dirs
    ensures Writes(r.log) == Writes(d.log) + [(filename, content)]
  {
    var dir := Dirname(filename);
    var d1 := if '/' in filename && dir !in d.dirs then MakeDirs(d, dir) else d;
    assert Writes(d1.log) == Writes(d.log) by {
      if d1 != d { assert d1.log[..|d1.log| - 1] == d.log; }
    }
    var r := Disk(d1.dirs, d1.log + [Wrote(filename, content)]);
    assert r.log[..|r.log| - 1] == d1.log;
    r
  }

  /** `copytree_(src, dst)`, whose body is not part of this model: only the call is recorded. */
  function CopyTree(d: Disk, src: string, dst: string): (r: Disk)
    ensures r.dirs == d.dirs && Writes(r.log) == Writes(d.log)
  {
    var r := Disk(d.dirs, d.log + [CopiedTree(src, dst)]);
    assert r.log[..|r.log| - 1] == d.log;
    r
  }
}
