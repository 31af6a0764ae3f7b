/**
 * An abstract file system: a map from path strings to nodes, and the four
 * Symfony `Filesystem` calls the installer makes (`mkdir`, `mirror`,
 * `copy`, `remove`) plus `dumpFile`, stated on that map. A path lies under
 * another when it equals it or continues it after a `/`.
 */
module FileTree {
  import opened Types

  type Path = string

  datatype Node = File(contents: string) | Dir

  type Tree = map<Path, Node>

  /** `p` is `root` or lies below it. */
  predicate Under(p: Path, root: Path)
  {
    p == root || root + "/" <= p
  }

  /** `p` lies under one of `roots`. */
  predicate UnderAny(p: Path, roots: seq<Path>)
  {
    exists i :: 0 <= i < |roots| && Under(p, roots[i])
  }

  /** What a file-system call did: whether it threw, and the tree it left behind. */
  datatype Effect = Effect(outcome: Outcome, tree: Tree)

  /** The directories `mkdir` may have to create for `p`: `p` and every proper prefix ending before a `/`. */
  function Chain(p: Path): set<Path>
  {
    {p} + set i | 0 < i < |p| && p[i] == '/' :: p[..i]
  }

  /**
   * `Filesystem::mkdir(p)`: creates `p` and its missing ancestors; throws
   * when one of them is a file.
   */
  function MkdirSpec(t: Tree, p: Path): Effect
  {
    if exists a :: a in Chain(p) && a in t && t[a].File? then Effect(Fail(WrongKind(p)), t)
    else Effect(Pass, t + map a | a in Chain(p) && a !in t :: Dir)
  }

  /** When no directory on the way is a file, `mkdir` succeeds, makes `p` a directory and keeps every existing entry. */
  lemma MkdirCreates(t: Tree, p: Path)
    requires forall a :: a in Chain(p) && a in t ==> t[a].Dir?
    ensures MkdirSpec(t, p).outcome == Pass
    ensures p in MkdirSpec(t, p).tree && MkdirSpec(t, p).tree[p].Dir?
    ensures forall q :: q in t ==> q in MkdirSpec(t, p).tree && MkdirSpec(t, p).tree[q] == t[q]
    ensures forall q :: q in MkdirSpec(t, p).tree && q !in t ==> q in Chain(p) && MkdirSpec(t, p).tree[q].Dir?
  {
    assert p in Chain(p);
  }

  /** When a directory on the way is a file, `mkdir` throws and changes nothing. */
  lemma MkdirFailsOnFile(t: Tree, p: Path, a: Path)
    requires a in Chain(p) && a in t && t[a].File?
    ensures MkdirSpec(t, p) == Effect(Fail(WrongKind(p)), t)
  {
  }

  /** A tree with the subtrees at `roots` deleted. */
  function Prune(t: Tree, roots: seq<Path>): Tree
  {
    map p | p in t && !UnderAny(p, roots) :: t[p]
  }

  /** The paths the subtree at `src` occupies once copied onto `dst`. */
  function MirroredPaths(t: Tree, src: Path, dst: Path): (r: set<Path>)
    ensures forall p :: p in r ==> dst <= p && src + p[|dst|..] in t && Under(src + p[|dst|..], src)
  {
    MirroredPathsCome(t, src, dst);
    set q | q in t && Under(q, src) :: dst + q[|src|..]
  }

  /** Each mirrored path comes from the path with the same continuation under `src`. */
  lemma MirroredPathsCome(t: Tree, src: Path, dst: Path)
    ensures forall p :: p in (set q | q in t && Under(q, src) :: dst + q[|src|..]) ==>
                          dst <= p && src + p[|dst|..] in t && Under(src + p[|dst|..], src)
  {
    forall p | p in (set q | q in t && Under(q, src) :: dst + q[|src|..])
      ensures dst <= p && src + p[|dst|..] in t && Under(src + p[|dst|..], src)
    {
      var q :| q in t && Under(q, src) && p == dst + q[|src|..];
      UnderIsPrefix(q, src);
      assert p[|dst|..] == q[|src|..];
      assert src + p[|dst|..] == q;
    }
  }

  /**
   * A tree with the subtree at `src` copied onto `dst`: each path under
   * `src` gets its copy under `dst`, overwriting what was there.
   */
  function MirrorTree(t: Tree, src: Path, dst: Path): Tree
  {
    var copied := MirroredPaths(t, src, dst);
    map p | p in t.Keys + copied :: if p in copied then t[src + p[|dst|..]] else t[p]
  }

  /** `Filesystem::mirror(src, dst)`: throws unless `src` is a directory. */
  function MirrorSpec(t: Tree, src: Path, dst: Path): Effect
  {
    if src !in t then Effect(Fail(NotFound(src)), t)
    else if t[src].File? then Effect(Fail(WrongKind(src)), t)
    else Effect(Pass, MirrorTree(t, src, dst))
  }

  /**
   * `Filesystem::copy(src, dst)`: throws unless `src` is a file, and when
   * `dst` is a directory; otherwise `dst` gets the contents of `src`.
   */
  function CopySpec(t: Tree, src: Path, dst: Path): Effect
  {
    if src !in t || t[src].Dir? then Effect(Fail(NotFound(src)), t)
    else if dst in t && t[dst].Dir? then Effect(Fail(WrongKind(dst)), t)
    else Effect(Pass, t[dst := t[src]])
  }

  /** The file system a run works on; each method is one library call. */
  class FileSystem {
    var nodes: Tree

    constructor (initial: Tree)
      ensures nodes == initial
    {
      nodes := initial;
    }

    /** `is_dir(p) || is_file(p)`. */
    predicate Exists(p: Path)
      reads this
    {
      p in nodes
    }

    /** `SplFileInfo::getContents` of a file the caller found. */
    method Read(p: Path) returns (contents: string)
      requires p in nodes && nodes[p].File?
      ensures nodes[p] == File(contents)
    {
      contents := nodes[p].contents;
    }

    method Mkdir(p: Path) returns (o: Outcome)
      modifies this
      ensures Effect(o, nodes) == MkdirSpec(old(nodes), p)
    {
      var e := MkdirSpec(nodes, p);
      o, nodes := e.outcome, e.tree;
    }

    method Mirror(src: Path, dst: Path) returns (o: Outcome)
      modifies this
      ensures Effect(o, nodes) == MirrorSpec(old(nodes), src, dst)
    {
      var e := MirrorSpec(nodes, src, dst);
      o, nodes := e.outcome, e.tree;
    }

    method Copy(src: Path, dst: Path) returns (o: Outcome)
      modifies this
      ensures Effect(o, nodes) == CopySpec(old(nodes), src, dst)
    {
      var e := CopySpec(nodes, src, dst);
      o, nodes := e.outcome, e.tree;
    }

    /** `Filesystem::remove(p)`: deletes `p` and everything under it; nothing happens when `p` is absent. */
    method Remove(p: Path)
      modifies this
      ensures nodes == Prune(old(nodes), [p])
    {
      nodes := Prune(nodes, [p]);
    }

    /** `Filesystem::dumpFile(p, contents)`: overwrites the whole file. */
    method DumpFile(p: Path, contents: string)
      modifies this
      ensures nodes == old(nodes)[p := File(contents)]
    {
      nodes := nodes[p := File(contents)];
    }

    /** The files the shell command leaves behind, laid over the tree. */
    method Absorb(created: Tree)
      modifies this
      ensures nodes == old(nodes) + created
    {
      nodes := nodes + created;
    }
  }

  // ---------------------------------------------------------------------
  // Paths

  /** A path continuation: empty, or starting at a `/`. */
  predicate IsTail(b: string)
  {
    b == [] || b[0] == '/'
  }

  /** The first component of a path: everything before its first `/`. */
  function Head(p: string): string
    decreases |p|
  {
    if p == [] || p[0] == '/' then [] else [p[0]] + Head(p[1..])
  }

  /** A component followed by a continuation has that component as its head. */
  lemma {:induction false} HeadOfComponent(a: string, b: string)
    requires '/' !in a && IsTail(b)
    ensures Head(a + b) == a
    decreases |a|
  {
    if a == [] {
      assert a + b == b;
    } else {
      assert a[0] in a;
      assert (a + b)[1..] == a[1..] + b;
      assert forall c :: c in a[1..] ==> c in a;
      HeadOfComponent(a[1..], b);
      assert a == [a[0]] + a[1..];
    }
  }

  /** Extending a path that already holds a `/` does not change its head. */
  lemma {:induction false} HeadOfExtension(r: string, s: string)
    requires '/' in r
    ensures Head(r + s) == Head(r)
    decreases |r|
  {
    if r[0] != '/' {
      assert (r + s)[1..] == r[1..] + s;
      assert '/' in r[1..] by {
        var i :| 0 <= i < |r| && r[i] == '/';
        assert r[1..][i - 1] == '/';
      }
      HeadOfExtension(r[1..], s);
    }
  }

  /** A path under `root` starts with `root`. */
  lemma UnderIsPrefix(p: Path, root: Path)
    requires Under(p, root)
    ensures root <= p && p[..|root|] == root
  {
    if p != root {
      assert (root + "/")[..|root|] == root;
    }
  }

  /**
   * Paths are compared component by component: when `a` and `x` are single
   * components, `a + b` lies under `x + y` only if the components agree and
   * the rest lies under the rest.
   */
  lemma UnderSplit(a: string, b: string, x: string, y: string)
    requires '/' !in a && '/' !in x
    requires IsTail(b) && IsTail(y)
    ensures Under(a + b, x + y) ==> a == x && Under(b, y)
  {
    var p, r := a + b, x + y;
    HeadOfComponent(a, b);
    HeadOfComponent(x, y);
    if p == r {
      assert a == x;
      assert b == p[|a|..] == r[|x|..] == y;
    } else if r + "/" <= p {
      var r' := r + "/";
      assert r' == x + (y + "/");
      HeadOfComponent(x, y + "/");
      assert '/' in r' by { assert r'[|r|] == '/'; }
      assert p == r' + p[|r'|..];
      HeadOfExtension(r', p[|r'|..]);
      assert a == x;
      assert b == p[|a|..];
      assert (y + "/") == r'[|x|..];
      assert y + "/" <= b;
    }
  }

  /**
   * Behind a common prefix `d`, a component `a` with its continuation lies
   * under a component `x` with its continuation only if `a == x` and the
   * continuations nest.
   */
  lemma UnderAfterPrefix(d: string, a: string, b: string, x: string, y: string)
    requires '/' !in a && '/' !in x
    requires IsTail(b) && IsTail(y)
    ensures Under(d + a + b, d + x + y) ==> a == x && Under(b, y)
  {
    assert d + a + b == d + (a + b);
    assert d + x + y == d + (x + y);
    UnderCommonPrefix(d, a + b, x + y);
    UnderSplit(a, b, x, y);
  }

  /** Behind a common prefix, a single component does not lie under a path with more components. */
  lemma ComponentNotUnderDeeperAfter(d: string, a: string, r: string)
    ensures Under(d + a, d + r) && '/' in r ==> '/' in a
  {
    UnderCommonPrefix(d, a, r);
    SlashUnderSlash(a, r);
  }

  /** A path under a root that holds a `/` holds a `/` itself. */
  lemma SlashUnderSlash(a: string, r: string)
    ensures Under(a, r) && '/' in r ==> '/' in a
  {
    if Under(a, r) && '/' in r {
      UnderIsPrefix(a, r);
      var i :| 0 <= i < |r| && r[i] == '/';
      assert a[i] == '/';
    }
  }

  /** Under a common prefix, `d + x` lies under `d + y` exactly when `x` lies under `y`. */
  lemma UnderCommonPrefix(d: string, x: string, y: string)
    ensures Under(d + x, d + y) <==> Under(x, y)
  {
    if d + x == d + y {
      assert x == (d + x)[|d|..] == (d + y)[|d|..] == y;
    }
    if (d + y) + "/" <= d + x {
      assert (d + x)[|d|..][..|y| + 1] == ((d + y) + "/")[|d|..];
      assert y + "/" <= x;
    }
    if y + "/" <= x {
      assert (d + y) + "/" == d + (y + "/");
      assert (d + y) + "/" <= d + x;
    }
  }

  // ---------------------------------------------------------------------
  // Properties of the tree operations

  /** Deleting two lists of subtrees one after the other is deleting both at once, in either order. */
  lemma PruneTwice(t: Tree, a: seq<Path>, b: seq<Path>)
    ensures Prune(Prune(t, a), b) == Prune(t, a + b)
  {
    forall p ensures UnderAny(p, a + b) <==> UnderAny(p, a) || UnderAny(p, b) {
      if UnderAny(p, a + b) {
        var i :| 0 <= i < |a + b| && Under(p, (a + b)[i]);
        if i < |a| { assert Under(p, a[i]); } else { assert Under(p, b[i - |a|]); }
      }
      if UnderAny(p, a) {
        var i :| 0 <= i < |a| && Under(p, a[i]);
        assert (a + b)[i] == a[i];
      }
      if UnderAny(p, b) {
        var i :| 0 <= i < |b| && Under(p, b[i]);
        assert (a + b)[|a| + i] == b[i];
      }
    }
  }

  /** After deleting the subtrees, exactly the paths under none of the roots remain, unchanged. */
  lemma PruneExactly(t: Tree, roots: seq<Path>, p: Path)
    ensures p in Prune(t, roots) <==> p in t && !UnderAny(p, roots)
    ensures p in Prune(t, roots) ==> Prune(t, roots)[p] == t[p]
  {
  }

  /** Mirroring copies each node under `src` to the same place under `dst`. */
  lemma MirrorCopies(t: Tree, src: Path, dst: Path, rel: string)
    requires IsTail(rel) && src + rel in t
    ensures dst + rel in MirrorTree(t, src, dst)
    ensures MirrorTree(t, src, dst)[dst + rel] == t[src + rel]
  {
    var q := src + rel;
    assert q[|src|..] == rel;
    if rel != [] {
      assert q[..|src| + 1] == src + "/";
    }
    assert Under(q, src);
    var copied := MirroredPaths(t, src, dst);
    assert dst + q[|src|..] in copied;
    assert (dst + rel)[|dst|..] == rel;
  }

  /**
   * Mirroring overlays rather than replaces: a path under `dst` that no
   * node under `src` is copied onto keeps what it held.
   */
  lemma MirrorKeepsUncopied(t: Tree, src: Path, dst: Path, rel: string)
    requires dst + rel in t && src + rel !in t
    ensures dst + rel in MirrorTree(t, src, dst)
    ensures MirrorTree(t, src, dst)[dst + rel] == t[dst + rel]
  {
    assert (dst + rel)[|dst|..] == rel;
  }

  /** Every path mirroring adds lies under `dst` and is the copy of a node under `src`. */
  lemma MirrorAddsOnlyCopies(t: Tree, src: Path, dst: Path, p: Path)
    requires p in MirrorTree(t, src, dst) && p !in t
    ensures Under(p, dst) && src + p[|dst|..] in t
  {
    var rel := p[|dst|..];
    assert Under(src + rel, src);
    if rel != [] {
      assert (src + rel)[..|src| + 1] == src + "/";
      assert rel[0] == (src + rel)[|src|];
      assert p[..|dst| + 1] == dst + "/";
    } else {
      assert p == dst;
    }
  }

  /** Mirroring leaves every path outside `dst` as it was, and adds nothing outside `dst`. */
  lemma MirrorFrame(t: Tree, src: Path, dst: Path, p: Path)
    requires !Under(p, dst)
    ensures p in MirrorTree(t, src, dst) <==> p in t
    ensures p in t ==> MirrorTree(t, src, dst)[p] == t[p]
  {
    forall q | q in t && Under(q, src) ensures dst + q[|src|..] != p {
      var rel := q[|src|..];
      assert q == src || src + "/" <= q;
      assert q == src ==> rel == [];
      assert src + "/" <= q ==> rel[0] == '/' by {
        if src + "/" <= q { assert q[|src|] == (src + "/")[|src|]; }
      }
      if rel != [] {
        assert (dst + rel)[..|dst| + 1] == dst + "/";
      }
      assert Under(dst + rel, dst);
    }
  }
}
