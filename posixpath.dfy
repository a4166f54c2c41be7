/** The `os.path` functions the generator uses, for POSIX paths ('/' separator). */
module PosixPath {
  import opened PyOps

  /** Every character of `s` is `c`. */
  predicate AllChar(s: string, c: char) {
    forall k :: 0 <= k < |s| ==> s[k] == c
  }

  /** The position of the last `c` in a text is determined by its contents. */
  lemma {:induction false} RFindCharAt(s: string, c: char, m: nat)
    requires m < |s| && s[m] == c
    requires forall k :: m < k < |s| ==> s[k] != c
    ensures RFindChar(s, c) == m
  {
  }

  /** `os.path.basename(p)`: the text after the last '/'. */
  function Basename(p: string): (r: string)
    ensures EndsWith(p, r) && '/' !in r
  {
    p[RFindChar(p, '/') + 1..]
  }

  /** `os.path.dirname(p)`: the text up to the last '/', with trailing slashes
      removed unless it consists of slashes only. */
  function Dirname(p: string): (r: string)
    ensures StartsWith(p, r)
  {
    var head := p[..RFindChar(p, '/') + 1];
    if head != "" && !AllChar(head, '/') then RStrip(head, '/') else head
  }

  /** `os.path.splitext(p)`: the extension starts at the last '.' of the last
      component, unless only dots precede it there. */
  function SplitExt(p: string): (r: (string, string))
    ensures r.0 + r.1 == p
    ensures r.1 == "" || (r.1[0] == '.' && '/' !in r.1)
  {
    var sepIndex := RFindChar(p, '/');
    var dotIndex := RFindChar(p, '.');
    if dotIndex > sepIndex && exists k :: sepIndex < k < dotIndex && p[k] != '.' then
      (p[..dotIndex], p[dotIndex..])
    else
      (p, "")
  }

  /** The file name without directory and extension, as `Post.__init__` computes it. */
  function Stem(f: string): string {
    SplitExt(Basename(f)).0
  }

  /** The directory of `dir/leaf` is `dir`, for a leaf without '/' and a directory
      that does not end in '/'. */
  lemma {:induction false} DirnameOfChild(dir: string, leaf: string)
    requires dir != [] && dir[|dir| - 1] != '/' && '/' !in leaf
    ensures Dirname(dir + "/" + leaf) == dir
  {
    var p := dir + "/" + leaf;
    RFindCharAt(p, '/', |dir|);
    assert p[..|dir| + 1] == dir + "/";
    assert !AllChar(dir + "/", '/') by {
      assert (dir + "/")[|dir| - 1] != '/';
    }
    assert (dir + "/")[..|dir|] == dir;
  }

  /** The last component of `dir/leaf` is `leaf`, for a leaf without '/'. */
  lemma {:induction false} BasenameOfChild(dir: string, leaf: string)
    requires '/' !in leaf
    ensures Basename(dir + "/" + leaf) == leaf
  {
    var p := dir + "/" + leaf;
    RFindCharAt(p, '/', |dir|);
    assert p[|dir| + 1..] == leaf;
  }

  /** `name.ext` splits at its one '.', when the name is not empty and neither part
      holds '/' or '.'. */
  lemma {:induction false} SplitExtOfLeaf(name: string, ext: string)
    requires name != [] && '/' !in name && '.' !in name && '/' !in ext && '.' !in ext
    ensures SplitExt(name + "." + ext).0 == name
  {
    var leaf := name + "." + ext;
    RFindCharAt(leaf, '.', |name|);
    assert RFindChar(leaf, '/') == -1;
    assert leaf[0] == name[0] && leaf[0] != '.';
    assert leaf[..|name|] == name;
  }

  /** A source file `dir/name.ext` has stem `name` when neither part holds '/' or
      '.' and the name is not empty. */
  lemma {:induction false} StemOfSource(dir: string, name: string, ext: string)
    requires name != [] && '/' !in name && '.' !in name && '/' !in ext && '.' !in ext
    ensures Stem(dir + "/" + name + "." + ext) == name
  {
    var leaf := name + "." + ext;
    assert dir + "/" + name + "." + ext == dir + "/" + leaf;
    BasenameOfChild(dir, leaf);
    SplitExtOfLeaf(name, ext);
  }
}
