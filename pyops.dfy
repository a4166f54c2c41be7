/** The Python built-ins on `str` and `list` that the generator relies on. */
module PyOps {
  import opened Wrappers

  /** `s.startswith(p)` */
  predicate StartsWith(s: string, p: string) {
    p <= s
  }

  /** `s.endswith(p)` */
  predicate EndsWith(s: string, p: string) {
    |p| <= |s| && s[|s| - |p|..] == p
  }

  /** `sep` occurs in `s` at index `i`. */
  predicate OccursAt(s: string, sep: string, i: int) {
    0 <= i && i + |sep| <= |s| && s[i..i + |sep|] == sep
  }

  /** `s.find(sep, start)`: the first occurrence of `sep` at or after `start`. */
  function Find(s: string, sep: string, start: nat): (r: Option<nat>)
    ensures r.Some? ==> start <= r.value && OccursAt(s, sep, r.value)
    ensures r.Some? ==> forall k :: start <= k < r.value ==> !OccursAt(s, sep, k)
    ensures r.None? ==> forall k :: start <= k ==> !OccursAt(s, sep, k)
    decreases |s| - start
  {
    if |s| < start + |sep| then None
    else if OccursAt(s, sep, start) then Some(start)
    else Find(s, sep, start + 1)
  }

  /** Searching a suffix of `s` is searching `s` from the suffix's offset. */
  lemma {:induction false} FindInSuffix(s: string, sep: string, a: nat)
    requires a <= |s|
    ensures Find(s[a..], sep, 0).Some? == Find(s, sep, a).Some?
    ensures Find(s, sep, a).Some? ==> Find(s[a..], sep, 0).value == Find(s, sep, a).value - a
  {
    forall k | 0 <= k
      ensures OccursAt(s[a..], sep, k) <==> OccursAt(s, sep, a + k)
    {
      if k + |sep| <= |s| - a {
        assert s[a..][k..k + |sep|] == s[a + k..a + k + |sep|];
      }
    }
    var r1, r2 := Find(s[a..], sep, 0), Find(s, sep, a);
    if r1.Some? {
      assert OccursAt(s, sep, a + r1.value);
    }
    if r2.Some? {
      assert OccursAt(s[a..], sep, r2.value - a);
    }
  }

  /** `sep.join(parts)` */
  function Join(parts: seq<string>, sep: string): string
  {
    if |parts| == 0 then ""
    else if |parts| == 1 then parts[0]
    else parts[0] + sep + Join(parts[1..], sep)
  }

  /** Joining two or three parts puts the separator between neighbours. */
  lemma {:induction false} JoinSmall(a: string, b: string, c: string, sep: string)
    ensures Join([a, b], sep) == a + sep + b
    ensures Join([a, b, c], sep) == a + sep + b + sep + c
  {
    assert [a, b][1..] == [b];
    assert [a, b, c][1..] == [b, c];
    assert [b, c][1..] == [c];
    assert Join([b, c], sep) == b + sep + c;
    assert Join([a, b, c], sep) == a + sep + Join([b, c], sep);
  }

  /** Joining four parts puts the separator between neighbours. */
  lemma {:induction false} JoinFour(a: string, b: string, c: string, d: string, sep: string)
    ensures Join([a, b, c, d], sep) == a + sep + b + sep + c + sep + d
  {
    assert [a, b, c, d][1..] == [b, c, d];
    JoinSmall(b, c, d, sep);
    assert Join([a, b, c, d], sep) == a + sep + Join([b, c, d], sep);
  }

  /** `s.split(sep, maxsplit)`, where a negative `maxsplit` means no limit. */
  function Split(s: string, sep: string, maxsplit: int): (parts: seq<string>)
    requires sep != []
    ensures 1 <= |parts|
    ensures 0 <= maxsplit ==> |parts| <= maxsplit + 1
    decreases |s|
  {
    if maxsplit == 0 then [s]
    else match Find(s, sep, 0)
      case None => [s]
      case Some(i) => [s[..i]] + Split(s[i + |sep|..], sep, if maxsplit > 0 then maxsplit - 1 else maxsplit)
  }

  /** Splitting and joining back with the same separator gives the text back. */
  lemma {:induction false} JoinSplit(s: string, sep: string, maxsplit: int)
    requires sep != []
    ensures Join(Split(s, sep, maxsplit), sep) == s
    decreases |s|
  {
    if maxsplit != 0 {
      var f := Find(s, sep, 0);
      if f.Some? {
        var i := f.value;
        var rest := s[i + |sep|..];
        var m := if maxsplit > 0 then maxsplit - 1 else maxsplit;
        JoinSplit(rest, sep, m);
        var tail := Split(rest, sep, m);
        assert Split(s, sep, maxsplit) == [s[..i]] + tail;
        assert ([s[..i]] + tail)[1..] == tail;
        assert s == s[..i] + s[i..i + |sep|] + rest;
      }
    }
  }

  /** A split into two pieces or more cut at the first occurrence of the separator. */
  lemma {:induction false} SplitCut(s: string, sep: string, maxsplit: int)
    requires sep != [] && |Split(s, sep, maxsplit)| >= 2
    ensures maxsplit != 0 && Find(s, sep, 0).Some?
    ensures var i := Find(s, sep, 0).value;
      Split(s, sep, maxsplit) ==
        [s[..i]] + Split(s[i + |sep|..], sep, if maxsplit > 0 then maxsplit - 1 else maxsplit)
  {
  }

  /** The text before the first occurrence of `sep` holds no occurrence of it. */
  lemma {:induction false} BeforeFind(s: string, sep: string, i: nat, k: int)
    requires sep != [] && Find(s, sep, 0) == Some(i)
    ensures !OccursAt(s[..i], sep, k)
  {
    if 0 <= k && k + |sep| <= i {
      assert s[..i][k..k + |sep|] == s[k..k + |sep|];
      assert !OccursAt(s, sep, k);
    }
  }

  /** Indexing past the head of a sequence built by prepending one element. */
  lemma ConsIndex<T>(x: T, t: seq<T>, j: nat)
    requires 1 <= j <= |t|
    ensures ([x] + t)[j] == t[j - 1]
  {
  }

  /** Past the first piece, the pieces of a split are those of the rest after the
      first separator, split once fewer. */
  lemma {:induction false} SplitTail(s: string, sep: string, maxsplit: int, j: nat) returns (rest: string, m: int)
    requires sep != [] && 1 <= j < |Split(s, sep, maxsplit)|
    ensures |rest| < |s| && |Split(rest, sep, m)| == |Split(s, sep, maxsplit)| - 1
    ensures Split(s, sep, maxsplit)[j] == Split(rest, sep, m)[j - 1]
  {
    SplitCut(s, sep, maxsplit);
    var i := Find(s, sep, 0).value;
    rest, m := s[i + |sep|..], if maxsplit > 0 then maxsplit - 1 else maxsplit;
    var parts, tail := Split(s, sep, maxsplit), Split(rest, sep, m);
    assert parts == [s[..i]] + tail;
    ConsIndex(s[..i], tail, j);
  }

  /** The first piece of a split into two pieces or more holds no separator. */
  lemma {:induction false} FirstPieceFree(s: string, sep: string, maxsplit: int, k: int)
    requires sep != [] && |Split(s, sep, maxsplit)| >= 2
    ensures !OccursAt(Split(s, sep, maxsplit)[0], sep, k)
  {
    SplitCut(s, sep, maxsplit);
    BeforeFind(s, sep, Find(s, sep, 0).value, k);
  }

  /** The pieces in front of the last one never contain the separator. */
  lemma {:induction false} SplitPiecesFree(s: string, sep: string, maxsplit: int, j: nat, k: int)
    requires sep != []
    requires j + 1 < |Split(s, sep, maxsplit)|
    ensures !OccursAt(Split(s, sep, maxsplit)[j], sep, k)
    decreases |s|
  {
    if j == 0 {
      FirstPieceFree(s, sep, maxsplit, k);
    } else {
      var rest, m := SplitTail(s, sep, maxsplit, j);
      SplitPiecesFree(rest, sep, m, j - 1, k);
    }
  }

  /** One step of splitting: cut at the first occurrence, split the rest with one split fewer. */
  lemma {:induction false} SplitStep(s: string, sep: string, maxsplit: int, i: nat)
    requires sep != [] && maxsplit > 0
    requires Find(s, sep, 0) == Some(i)
    ensures Split(s, sep, maxsplit) == [s[..i]] + Split(s[i + |sep|..], sep, maxsplit - 1)
  {
  }

  /** Splitting at most twice, with the second cut located in the rest of the text. */
  lemma {:induction false} SplitTwiceInRest(s: string, sep: string, i: nat, j: nat)
    requires sep != [] && i + |sep| <= j && j + |sep| <= |s|
    requires Find(s, sep, 0) == Some(i)
    requires Find(s[i + |sep|..], sep, 0).Some? && Find(s[i + |sep|..], sep, 0).value == j - (i + |sep|)
    ensures Split(s, sep, 2) == [s[..i], s[i + |sep|..j], s[j + |sep|..]]
  {
    var rest := s[i + |sep|..];
    var k := j - (i + |sep|);
    SplitStep(s, sep, 2, i);
    SplitStep(rest, sep, 1, k);
    assert Split(rest[k + |sep|..], sep, 0) == [rest[k + |sep|..]];
    ThreeSlices(s, i, i + |sep|, k, j, |sep|);
  }

  /** Splitting at most twice cuts at the first two occurrences of the separator. */
  lemma {:induction false} SplitTwice(s: string, sep: string, i: nat, j: nat)
    requires sep != []
    requires Find(s, sep, 0) == Some(i) && Find(s, sep, i + |sep|) == Some(j)
    ensures Split(s, sep, 2) == [s[..i], s[i + |sep|..j], s[j + |sep|..]]
  {
    FindInSuffix(s, sep, i + |sep|);
    SplitTwiceInRest(s, sep, i, j);
  }

  /** Three pieces cut from a suffix are three pieces cut from the whole sequence. */
  lemma ThreeSlices<T>(s: seq<T>, i: nat, a: nat, k: nat, j: nat, n: nat)
    requires i <= a && k == j - a && j + n <= |s|
    ensures [s[..i], s[a..][..k], s[a..][k + n..]] == [s[..i], s[a..j], s[j + n..]]
  {
    assert s[a..][..k] == s[a..j];
    assert s[a..][k + n..] == s[j + n..];
  }

  /** With a single occurrence, splitting at most twice yields two pieces. */
  lemma {:induction false} SplitOnce(s: string, sep: string, i: nat)
    requires sep != []
    requires Find(s, sep, 0) == Some(i) && Find(s, sep, i + |sep|) == None
    ensures Split(s, sep, 2) == [s[..i], s[i + |sep|..]]
  {
    FindInSuffix(s, sep, i + |sep|);
  }

  /** Searching for a single character finds its first index, when there is one. */
  lemma {:induction false} FindChar(s: string, c: char)
    ensures Find(s, [c], 0).Some? <==> c in s
    ensures Find(s, [c], 0).Some? ==>
      var i := Find(s, [c], 0).value;
      i < |s| && s[i] == c && c !in s[..i]
  {
    var r := Find(s, [c], 0);
    var n := if r.Some? then r.value else |s|;
    forall k | 0 <= k < n && k < |s|
      ensures s[k] != c
    {
      assert !OccursAt(s, [c], k);
      assert s[k..k + 1] == [s[k]];
    }
    if r.Some? {
      assert s[n..n + 1] == [c];
      assert s[n] == c;
      assert c !in s[..n];
    } else {
      assert c !in s;
    }
  }

  /** Unlimited splitting: the first piece runs up to the first separator, and the
      second is the first piece of the rest. */
  lemma {:induction false} SplitHead(s: string, sep: string, maxsplit: int)
    requires sep != [] && maxsplit < 0
    ensures Find(s, sep, 0).None? ==> Split(s, sep, maxsplit) == [s]
    ensures Find(s, sep, 0).Some? ==>
      var i := Find(s, sep, 0).value;
      |Split(s, sep, maxsplit)| >= 2 && Split(s, sep, maxsplit)[0] == s[..i] &&
      Split(s, sep, maxsplit)[1] == Split(s[i + |sep|..], sep, maxsplit)[0]
  {
    match Find(s, sep, 0)
    case None =>
    case Some(i) =>
      var parts, rest := Split(s, sep, maxsplit), Split(s[i + |sep|..], sep, maxsplit);
      assert parts == [s[..i]] + rest;
      assert parts[0] == s[..i] && parts[1] == rest[0];
  }

  /** Unlimited splitting on one character: the first piece is the longest prefix
      free of that character. */
  lemma {:induction false} SplitFirstPiece(s: string, c: char)
    ensures var m := Split(s, [c], -1)[0];
      StartsWith(s, m) && c !in m && (|m| == |s| || s[|m|] == c)
  {
    FindChar(s, c);
    SplitHead(s, [c], -1);
  }

  /** `s.lstrip(c)` */
  function LStrip(s: string, c: char): (r: string)
    ensures EndsWith(s, r) && (r == [] || r[0] != c)
    ensures forall k :: 0 <= k < |s| - |r| ==> s[k] == c
    decreases |s|
  {
    if s != [] && s[0] == c then
      var r := LStrip(s[1..], c);
      assert s[|s| - |r|..] == s[1..][|s| - 1 - |r|..];
      assert forall k :: 1 <= k < |s| - |r| ==> s[k] == s[1..][k - 1];
      r
    else s
  }

  /** `s.rstrip(c)` */
  function RStrip(s: string, c: char): (r: string)
    ensures StartsWith(s, r) && (r == [] || r[|r| - 1] != c)
    ensures forall k :: |r| <= k < |s| ==> s[k] == c
    decreases |s|
  {
    if s != [] && s[|s| - 1] == c then RStrip(s[..|s| - 1], c) else s
  }

  /** `r` is the slice of `s` that starts at `i`, and everything of `s` before and
      after that slice is `c`. */
  predicate TrimmedAt(s: string, r: string, c: char, i: nat) {
    i + |r| <= |s| && r == s[i..i + |r|] &&
    (forall k :: 0 <= k < i ==> s[k] == c) &&
    (forall k :: i + |r| <= k < |s| ==> s[k] == c)
  }

  /** `s.strip(c)`: a middle slice of `s` that neither starts nor ends with `c`, with
      only `c` cut from either end. */
  function Strip(s: string, c: char): (r: string)
    ensures |r| <= |s|
    ensures r == [] || (r[0] != c && r[|r| - 1] != c)
    ensures exists i :: TrimmedAt(s, r, c, i)
  {
    var l := LStrip(s, c);
    var r := RStrip(l, c);
    TrimmedSlice(s, l, r, c);
    r
  }

  /** A prefix `r` of a suffix `l` of `s`, where `s` holds only `c` before `l` and `l`
      only `c` after `r`, is trimmed out of `s`. */
  lemma {:induction false} TrimmedSlice(s: string, l: string, r: string, c: char)
    requires EndsWith(s, l) && StartsWith(l, r)
    requires forall k :: 0 <= k < |s| - |l| ==> s[k] == c
    requires forall k :: |r| <= k < |l| ==> l[k] == c
    ensures TrimmedAt(s, r, c, |s| - |l|)
  {
    var i := |s| - |l|;
    assert l == s[i..];
    assert r == s[i..i + |r|];
    forall k | i + |r| <= k < |s|
      ensures s[k] == c
    {
      assert s[k] == l[k - i];
    }
  }

  /** Stripping text that already has no `c` at either end changes nothing. */
  lemma {:induction false} StripStable(s: string, c: char)
    requires s == [] || (s[0] != c && s[|s| - 1] != c)
    ensures Strip(s, c) == s
  {
  }

  /** `s.rfind(c)` for a single character: the last index of `c`, or -1. */
  function RFindChar(s: string, c: char): (r: int)
    ensures -1 <= r < |s|
    ensures 0 <= r ==> s[r] == c
    ensures forall k :: r < k < |s| ==> s[k] != c
    decreases |s|
  {
    if s == [] then -1
    else if s[|s| - 1] == c then |s| - 1
    else RFindChar(s[..|s| - 1], c)
  }

  /** `s[:n]` on a list: the first `n` items, where a negative `n` drops `-n` items from the end. */
  function PrefixSlice<T>(s: seq<T>, n: int): (r: seq<T>)
    ensures r <= s
    ensures 0 <= n ==> |r| == if n < |s| then n else |s|
    ensures n < 0 ==> |r| == if |s| + n < 0 then 0 else |s| + n
  {
    if 0 <= n then (if n < |s| then s[..n] else s)
    else if |s| + n < 0 then []
    else s[..|s| + n]
  }

  /** `s.count(x)` on a list. */
  function Count<T(==)>(s: seq<T>, x: T): nat
  {
    if s == [] then 0
    else Count(s[..|s| - 1], x) + (if s[|s| - 1] == x then 1 else 0)
  }

  /** An item is in a list exactly when the list counts it. */
  lemma {:induction false} CountPositive<T>(s: seq<T>, x: T)
    ensures Count(s, x) > 0 <==> x in s
  {
    if s != [] {
      CountPositive(s[..|s| - 1], x);
      assert s == s[..|s| - 1] + [s[|s| - 1]];
    }
  }

  /** `[x] * n` */
  function Repeat<T>(x: T, n: nat): (r: seq<T>)
    ensures |r| == n && forall i :: 0 <= i < n ==> r[i] == x
  {
    seq(n, _ => x)
  }
}
