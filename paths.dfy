/**
 * Paths as sequences of name components, the way `std::path::Path` compares
 * and joins them. The empty sequence is the filesystem root.
 */
module Paths {
  import opened Wrappers

  type Name = string
  type Path = seq<Name>

  /** `Path::starts_with`: `base` is a component-wise prefix of `p`. */
  predicate StartsWith(p: Path, base: Path) {
    |base| <= |p| && p[..|base|] == base
  }

  /** Neither path lies inside (or is) the other. */
  predicate Disjoint(a: Path, b: Path) {
    !StartsWith(a, b) && !StartsWith(b, a)
  }

  /** `Path::parent`: the root has none. */
  function Parent(p: Path): (r: Option<Path>)
    ensures r.None? <==> p == []
    ensures r.Some? ==> |r.value| + 1 == |p| && StartsWith(p, r.value)
  {
    if |p| == 0 then None else Some(p[..|p| - 1])
  }

  /** The parent of a path known not to be the root. */
  function ParentDir(p: Path): Path
    requires |p| > 0
  {
    p[..|p| - 1]
  }

  /** `Path::file_name` of a path that is not the root. */
  function FileName(p: Path): Name
    requires |p| > 0
  {
    p[|p| - 1]
  }

  /** `Path::join` with a single name. */
  function Join(dir: Path, name: Name): (r: Path)
    ensures |r| > 0 && ParentDir(r) == dir && FileName(r) == name
    ensures Parent(r) == Some(dir)
  {
    dir + [name]
  }

  /** The path `p` would have if the subtree at `from` were moved to `to`. */
  function Rebase(p: Path, from: Path, to: Path): Path
    requires StartsWith(p, from)
  {
    to + p[|from|..]
  }

  lemma SplitJoin(p: Path)
    requires |p| > 0
    ensures Join(ParentDir(p), FileName(p)) == p
  {
  }

  lemma RebaseFacts(p: Path, from: Path, to: Path)
    requires StartsWith(p, from)
    ensures StartsWith(Rebase(p, from, to), to)
    ensures Rebase(Rebase(p, from, to), to, from) == p
    ensures |Rebase(p, from, to)| == |p| - |from| + |to|
  {
    var s := p[|from|..];
    assert Rebase(p, from, to)[|to|..] == s;
    assert p == from + s;
  }

  lemma RebaseSelf(p: Path, from: Path)
    requires StartsWith(p, from)
    ensures Rebase(p, from, from) == p
  {
    assert p == p[..|from|] + p[|from|..];
  }

  /** Two prefixes of one path are prefixes of each other. */
  lemma PrefixesComparable(q: Path, a: Path, b: Path)
    requires StartsWith(q, a) && StartsWith(q, b) && |a| <= |b|
    ensures StartsWith(b, a)
  {
    assert b[..|a|] == q[..|b|][..|a|];
  }

  lemma StartsWithTransitive(a: Path, b: Path, c: Path)
    requires StartsWith(a, b) && StartsWith(b, c)
    ensures StartsWith(a, c)
  {
    assert a[..|c|] == a[..|b|][..|c|];
  }

  /** A proper prefix of a path is a prefix of its parent. */
  lemma ProperPrefixOfParent(p: Path, a: Path)
    requires |p| > 0 && StartsWith(p, a) && |a| < |p|
    ensures StartsWith(ParentDir(p), a)
  {
    assert ParentDir(p)[..|a|] == p[..|a|];
  }

  lemma SameLengthPrefix(p: Path, a: Path)
    requires StartsWith(p, a) && |a| == |p|
    ensures p == a
  {
  }

  /** A path inside `z`, other than `z` itself, has every sibling inside `z` too. */
  lemma SiblingPrefix(x: Path, y: Path, z: Path)
    requires |x| > 0 && |y| > 0 && ParentDir(x) == ParentDir(y)
    ensures StartsWith(x, z) && x != z ==> StartsWith(y, z)
  {
    if StartsWith(x, z) && x != z {
      assert |z| < |x|;
      ProperPrefixOfParent(x, z);
      StartsWithTransitive(y, ParentDir(y), z);
    }
  }
}
