/** Staging plans (controller/paths.py) over a finite file system with symbolic links. */
module Paths {
  import opened Base
  import opened Manifests

  /** What a directory entry resolves to: a canonical path, or nothing. */
  datatype Target = Broken | To(path: Path)

  datatype Child = Child(name: string, target: Target)

  datatype Node = DirNode(children: seq<Child>) | FileNode | OtherNode

  /** Every existing canonical path, by its components. */
  type Fs = map<Path, Node>

  predicate HasChild(children: seq<Child>, name: string, path: Path) {
    exists i | 0 <= i < |children| :: children[i] == Child(name, To(path))
  }

  /** Entries of a directory have distinct, proper names; a canonical path is its own entry's target. */
  predicate WellFormed(fs: Fs) {
    && (forall p | p in fs && fs[p].DirNode? :: ChildrenOk(fs, fs[p].children))
    && (forall p {:trigger InItsParent(fs, p)} :: p in fs && p != [] ==> InItsParent(fs, p))
  }

  /** The parent directory lists a path under its own last name. */
  predicate InItsParent(fs: Fs, p: Path)
    requires p != []
  {
    && p[..|p| - 1] in fs && fs[p[..|p| - 1]].DirNode?
    && HasChild(fs[p[..|p| - 1]].children, p[|p| - 1], p)
  }

  predicate ChildrenOk(fs: Fs, cs: seq<Child>) {
    && (forall i | 0 <= i < |cs| :: Component(cs[i].name) && (cs[i].target.To? ==> cs[i].target.path in fs))
    && (forall i, j | 0 <= i < j < |cs| :: cs[i].name != cs[j].name)
  }

  lemma FewerChildren(fs: Fs, cs: seq<Child>)
    requires ChildrenOk(fs, cs) && |cs| > 0
    ensures ChildrenOk(fs, cs[1..])
  {
    assert forall i | 0 <= i < |cs[1..]| :: cs[1..][i] == cs[i + 1];
  }

  predicate Under(root: Path, p: Path) {
    |root| <= |p| && p[..|root|] == root
  }

  /** The entries staged for one child, before the children after it; None is a refusal. */
  function WalkDir(fs: Fs, dir: Path, root: Path, dest: Path, stack: set<Path>): Option<seq<Entry>>
    requires WellFormed(fs) && dir in fs && fs[dir].DirNode?
    decreases |fs.Keys - stack|, 0
  {
    if dir in stack then None
    else
      Shrinks(fs, dir, stack);
      WalkChildren(fs, fs[dir].children, root, dest, stack + {dir})
  }

  function WalkChildren(fs: Fs, cs: seq<Child>, root: Path, dest: Path, stack: set<Path>): Option<seq<Entry>>
    requires WellFormed(fs) && ChildrenOk(fs, cs)
    decreases |fs.Keys - stack|, |cs| + 1
  {
    if |cs| == 0 then Some([])
    else
      var first := WalkChild(fs, cs[0], root, dest, stack);
      var rest := WalkChildren(fs, cs[1..], root, dest, stack);
      if first.None? || rest.None? then None else Some(first.value + rest.value)
  }

  /** Broken, escaping, cyclic and special entries are refused; the rest is staged under its own name. */
  function WalkChild(fs: Fs, c: Child, root: Path, dest: Path, stack: set<Path>): Option<seq<Entry>>
    requires WellFormed(fs) && (c.target.To? ==> c.target.path in fs)
    decreases |fs.Keys - stack|, 1
  {
    if c.target.Broken? || !Under(root, c.target.path) then None
    else
      match fs[c.target.path]
      case DirNode(_) =>
        var inner := WalkDir(fs, c.target.path, root, dest + [c.name], stack);
        if inner.None? then None else Some([Entry(Directory, dest + [c.name])] + inner.value)
      case FileNode => Some([Entry(File, dest + [c.name])])
      case OtherNode => None
  }

  /** The measure of the walk: the directories not yet on the stack. */
  lemma Shrinks(fs: Fs, dir: Path, stack: set<Path>)
    requires dir in fs && dir !in stack
    ensures |fs.Keys - (stack + {dir})| < |fs.Keys - stack|
  {
    assert fs.Keys - stack == (fs.Keys - (stack + {dir})) + {dir};
  }

  /** Every destination is at or below a path, and valid. */
  predicate Within(es: seq<Entry>, prefix: Path) {
    forall i | 0 <= i < |es| :: Under(prefix, es[i].destination) && ValidPath(es[i].destination)
  }

  predicate Below(es: seq<Entry>, prefix: Path) {
    forall i | 0 <= i < |es| :: Ancestor(prefix, es[i].destination) && ValidPath(es[i].destination)
  }

  /** Two sets of entries with no destination in common and no ancestor between them. */
  predicate Disjoint(a: seq<Entry>, b: seq<Entry>) {
    forall i, j | 0 <= i < |a| && 0 <= j < |b| ::
      && a[i].destination != b[j].destination
      && !Ancestor(a[i].destination, b[j].destination)
      && !Ancestor(b[j].destination, a[i].destination)
  }

  lemma JoinOk(a: seq<Entry>, b: seq<Entry>)
    requires ManifestOk(a) && ManifestOk(b) && Disjoint(a, b)
    ensures ManifestOk(a + b)
  {
    var m := a + b;
    forall i, j | 0 <= i < |m| && 0 <= j < |m| && m[i].kind.File?
      ensures !Ancestor(m[i].destination, m[j].destination)
    {
      if i < |a| && j < |a| {
        assert a[i].kind.File?;
      } else if i >= |a| && j >= |a| {
        assert b[i - |a|].kind.File? && b[j - |a|] == m[j];
      }
    }
    assert forall j | |a| <= j < |m| :: m[j] == b[j - |a|];
  }

  /** An ancestor agrees with its descendants as far as it goes. */
  lemma AncestorsShare(x: Path, y: Path, n: nat)
    requires n <= |x| && n <= |y|
    ensures Ancestor(x, y) ==> x[..n] == y[..n]
  {
    if Ancestor(x, y) {
      assert x == y[..|x|];
    }
  }

  /** A directory above its own contents. */
  lemma DirectoryAbove(d: Path, inner: seq<Entry>)
    requires ManifestOk(inner) && Below(inner, d) && ValidPath(d)
    ensures ManifestOk([Entry(Directory, d)] + inner)
    ensures Within([Entry(Directory, d)] + inner, d)
  {
    var m := [Entry(Directory, d)] + inner;
    assert forall i | 1 <= i < |m| :: m[i] == inner[i - 1];
    assert forall i | 0 <= i < |inner| :: |inner[i].destination| > |d|;
    forall i, j | 0 <= i < |m| && 0 <= j < |m| && m[i].kind.File?
      ensures !Ancestor(m[i].destination, m[j].destination)
    {
      assert i > 0 && inner[i - 1].kind.File?;
      if j > 0 {
        assert !Ancestor(inner[i - 1].destination, inner[j - 1].destination);
      }
    }
  }

  lemma ChildPath(dest: Path, name: string)
    requires ValidPath(dest) && Component(name)
    ensures ValidPath(dest + [name]) && Ancestor(dest, dest + [name])
  {
  }

  lemma WithinBelow(es: seq<Entry>, p: Path, q: Path)
    requires Within(es, q) && Ancestor(p, q)
    ensures Below(es, p)
  {
    forall i | 0 <= i < |es|
      ensures Ancestor(p, es[i].destination)
    {
      var d := es[i].destination;
      assert d[..|q|] == q && q[..|p|] == p;
      assert d[..|q|][..|p|] == d[..|p|];
    }
  }

  /** Whatever the links, a walk that succeeds stages a sound manifest below its destination. */
  lemma {:induction false} WalkDirOk(fs: Fs, dir: Path, root: Path, dest: Path, stack: set<Path>)
    requires WellFormed(fs) && dir in fs && fs[dir].DirNode? && ValidPath(dest)
    ensures
      var es := WalkDir(fs, dir, root, dest, stack);
      es.Some? ==> ManifestOk(es.value) && Below(es.value, dest)
    decreases |fs.Keys - stack|, 0
  {
    if dir !in stack {
      Shrinks(fs, dir, stack);
      WalkChildrenOk(fs, fs[dir].children, root, dest, stack + {dir});
    }
  }

  lemma {:induction false} WalkChildOk(fs: Fs, c: Child, root: Path, dest: Path, stack: set<Path>)
    requires WellFormed(fs) && (c.target.To? ==> c.target.path in fs) && ValidPath(dest) && Component(c.name)
    ensures
      var es := WalkChild(fs, c, root, dest, stack);
      es.Some? ==> ManifestOk(es.value) && Within(es.value, dest + [c.name])
    decreases |fs.Keys - stack|, 1
  {
    ChildPath(dest, c.name);
    if c.target.To? && fs[c.target.path].DirNode? {
      var inner := WalkDir(fs, c.target.path, root, dest + [c.name], stack);
      WalkDirOk(fs, c.target.path, root, dest + [c.name], stack);
      if inner.Some? {
        DirectoryAbove(dest + [c.name], inner.value);
      }
    }
  }

  predicate Listed(cs: seq<Child>, name: string) {
    exists k | 0 <= k < |cs| :: cs[k].name == name
  }

  /** Where the entries of the remaining children are: each below one of their names. */
  predicate BelowOneOf(es: seq<Entry>, dest: Path, cs: seq<Child>) {
    forall i | 0 <= i < |es| ::
      && |es[i].destination| > |dest|
      && Under(dest, es[i].destination)
      && ValidPath(es[i].destination)
      && Listed(cs, es[i].destination[|dest|])
  }

  lemma OtherSiblings(a: seq<Entry>, b: seq<Entry>, dest: Path, name: string, cs: seq<Child>)
    requires Within(a, dest + [name]) && BelowOneOf(b, dest, cs)
    requires forall k | 0 <= k < |cs| :: cs[k].name != name
    ensures Disjoint(a, b)
  {
    forall i, j | 0 <= i < |a| && 0 <= j < |b|
      ensures
        && a[i].destination != b[j].destination
        && !Ancestor(a[i].destination, b[j].destination)
        && !Ancestor(b[j].destination, a[i].destination)
    {
      var x, y, n := a[i].destination, b[j].destination, |dest| + 1;
      assert x[..n] == dest + [name] && x[|dest|] == name;
      assert y[|dest|] != name;
      assert y[..n][|dest|] == y[|dest|];
      AncestorsShare(x, y, n);
      AncestorsShare(y, x, n);
    }
  }

  lemma OneOfFirst(es: seq<Entry>, dest: Path, cs: seq<Child>)
    requires |cs| > 0 && Within(es, dest + [cs[0].name])
    ensures BelowOneOf(es, dest, cs)
  {
    forall i | 0 <= i < |es|
      ensures
        && |es[i].destination| > |dest|
        && Under(dest, es[i].destination)
        && Listed(cs, es[i].destination[|dest|])
    {
      var d, n := es[i].destination, |dest| + 1;
      assert d[..n] == dest + [cs[0].name];
      assert d[..n][..|dest|] == d[..|dest|];
      assert d[|dest|] == d[..n][|dest|];
    }
  }

  lemma OneOfRest(es: seq<Entry>, dest: Path, cs: seq<Child>)
    requires |cs| > 0 && BelowOneOf(es, dest, cs[1..])
    ensures BelowOneOf(es, dest, cs)
  {
    forall i | 0 <= i < |es|
      ensures
        && |es[i].destination| > |dest|
        && Under(dest, es[i].destination)
        && ValidPath(es[i].destination)
        && Listed(cs, es[i].destination[|dest|])
    {
      var k :| 0 <= k < |cs[1..]| && cs[1..][k].name == es[i].destination[|dest|];
      assert cs[k + 1].name == es[i].destination[|dest|];
    }
  }

  lemma {:induction false} WalkChildrenOk(fs: Fs, cs: seq<Child>, root: Path, dest: Path, stack: set<Path>)
    requires WellFormed(fs) && ChildrenOk(fs, cs) && ValidPath(dest)
    ensures
      var es := WalkChildren(fs, cs, root, dest, stack);
      es.Some? ==> ManifestOk(es.value) && BelowOneOf(es.value, dest, cs) && Below(es.value, dest)
    decreases |fs.Keys - stack|, |cs| + 1
  {
    if |cs| > 0 {
      var first := WalkChild(fs, cs[0], root, dest, stack);
      var rest := WalkChildren(fs, cs[1..], root, dest, stack);
      FewerChildren(fs, cs);
      WalkChildOk(fs, cs[0], root, dest, stack);
      WalkChildrenOk(fs, cs[1..], root, dest, stack);
      if first.Some? && rest.Some? {
        OtherSiblings(first.value, rest.value, dest, cs[0].name, cs[1..]);
        JoinOk(first.value, rest.value);
        OneOfFirst(first.value, dest, cs);
        OneOfRest(rest.value, dest, cs);
        ChildPath(dest, cs[0].name);
        WithinBelow(first.value, dest, dest + [cs[0].name]);
      }
    }
  }

  /** The kind a canonical path is staged as. */
  predicate StagedAs(fs: Fs, p: Path, kind: Kind) {
    p in fs && (if kind.Directory? then fs[p].DirNode? else fs[p].FileNode?)
  }

  /** The entry of each child is among the staged ones. */
  lemma {:induction false} ChildStaged(fs: Fs, cs: seq<Child>, root: Path, dest: Path, stack: set<Path>, i: nat)
    requires WellFormed(fs) && ChildrenOk(fs, cs) && i < |cs|
    requires WalkChildren(fs, cs, root, dest, stack).Some?
    ensures WalkChild(fs, cs[i], root, dest, stack).Some?
    ensures forall e | e in WalkChild(fs, cs[i], root, dest, stack).value ::
              e in WalkChildren(fs, cs, root, dest, stack).value
    decreases |cs|
  {
    if i > 0 {
      assert cs[1..][i - 1] == cs[i];
      ChildStaged(fs, cs[1..], root, dest, stack, i - 1);
    }
  }

  /** Parents of canonical paths are directories. */
  lemma {:induction false} PrefixIsDirectory(fs: Fs, p: Path, n: nat)
    requires WellFormed(fs) && p in fs && n < |p|
    ensures p[..n] in fs && fs[p[..n]].DirNode?
    decreases |p|
  {
    assert InItsParent(fs, p);
    if n < |p| - 1 {
      PrefixIsDirectory(fs, p[..|p| - 1], n);
      assert p[..|p| - 1][..n] == p[..n];
    }
  }

  /** The first step from a directory towards a canonical path below it. */
  lemma CanonicalChild(fs: Fs, dir: Path, p: Path)
    requires WellFormed(fs) && dir in fs && fs[dir].DirNode? && p in fs && Ancestor(dir, p)
    ensures
      var q := p[..|dir| + 1];
      && q in fs && HasChild(fs[dir].children, p[|dir|], q)
      && (|q| < |p| ==> fs[q].DirNode? && Ancestor(q, p))
  {
    var q := p[..|dir| + 1];
    if |q| == |p| {
      assert q == p;
    } else {
      PrefixIsDirectory(fs, p, |q|);
    }
    assert InItsParent(fs, q);
    assert q[..|q| - 1] == dir && q[|q| - 1] == p[|dir|];
  }

  /** What is staged for one entry of a walked directory. */
  lemma StepStaged(fs: Fs, dir: Path, root: Path, dest: Path, stack: set<Path>, name: string, q: Path)
    requires WellFormed(fs) && dir in fs && fs[dir].DirNode? && q in fs
    requires WalkDir(fs, dir, root, dest, stack).Some? && HasChild(fs[dir].children, name, q)
    ensures dir !in stack
    ensures
      var staged := WalkChild(fs, Child(name, To(q)), root, dest, stack + {dir});
      staged.Some? && forall e | e in staged.value :: e in WalkDir(fs, dir, root, dest, stack).value
  {
    Shrinks(fs, dir, stack);
    var cs := fs[dir].children;
    var i :| 0 <= i < |cs| && cs[i] == Child(name, To(q));
    ChildStaged(fs, cs, root, dest, stack + {dir}, i);
  }

  /** The entry of a child itself, and where the contents of a directory child are. */
  lemma ChildEntries(fs: Fs, name: string, q: Path, root: Path, dest: Path, stack: set<Path>)
    requires WellFormed(fs) && q in fs && WalkChild(fs, Child(name, To(q)), root, dest, stack).Some?
    ensures
      var staged := WalkChild(fs, Child(name, To(q)), root, dest, stack).value;
      && (fs[q].FileNode? ==> Entry(File, dest + [name]) in staged)
      && (fs[q].DirNode? ==>
            && Entry(Directory, dest + [name]) in staged
            && WalkDir(fs, q, root, dest + [name], stack).Some?
            && forall e | e in WalkDir(fs, q, root, dest + [name], stack).value :: e in staged)
  {
    var staged := WalkChild(fs, Child(name, To(q)), root, dest, stack).value;
    if fs[q].DirNode? {
      var inner := WalkDir(fs, q, root, dest + [name], stack).value;
      assert staged == [Entry(Directory, dest + [name])] + inner;
      assert staged[0] == Entry(Directory, dest + [name]);
    } else if fs[q].FileNode? {
      assert staged[0] == Entry(File, dest + [name]);
    }
  }

  /**
   * A successful walk is complete: every canonical path below the directory
   * is staged at the corresponding place, with its own kind.
   */
  lemma {:induction false} WalkCovers(fs: Fs, dir: Path, root: Path, dest: Path, stack: set<Path>, p: Path, kind: Kind)
    requires WellFormed(fs) && dir in fs && fs[dir].DirNode?
    requires WalkDir(fs, dir, root, dest, stack).Some?
    requires Ancestor(dir, p) && StagedAs(fs, p, kind)
    ensures Entry(kind, dest + p[|dir|..]) in WalkDir(fs, dir, root, dest, stack).value
    decreases |p| - |dir|
  {
    var q, name := p[..|dir| + 1], p[|dir|];
    CanonicalChild(fs, dir, p);
    StepStaged(fs, dir, root, dest, stack, name, q);
    ChildEntries(fs, name, q, root, dest, stack + {dir});
    RelativeStep(dest, p, |dir|);
    if |q| < |p| {
      WalkCovers(fs, q, root, dest + [name], stack + {dir}, p, kind);
    } else {
      assert q == p;
    }
  }

  lemma RelativeStep(dest: Path, p: Path, n: nat)
    requires n < |p|
    ensures dest + p[n..] == (dest + [p[n]]) + p[n + 1..]
    ensures |p| == n + 1 ==> dest + p[n..] == dest + [p[n]]
  {
  }

  /** The child of a directory with a given name, if it has one. */
  function ChildNamed(cs: seq<Child>, name: string): Option<Child> {
    if |cs| == 0 then None else if cs[0].name == name then Some(cs[0]) else ChildNamed(cs[1..], name)
  }

  lemma {:induction false} NamedIsChild(cs: seq<Child>, name: string)
    ensures ChildNamed(cs, name).Some? ==> ChildNamed(cs, name).value in cs && ChildNamed(cs, name).value.name == name
    decreases |cs|
  {
    if |cs| > 0 && cs[0].name != name {
      NamedIsChild(cs[1..], name);
    }
  }

  lemma {:induction false} ChildIsNamed(fs: Fs, cs: seq<Child>, i: nat)
    requires ChildrenOk(fs, cs) && i < |cs|
    ensures ChildNamed(cs, cs[i].name) == Some(cs[i])
    decreases |cs|
  {
    if i > 0 {
      FewerChildren(fs, cs);
      ChildIsNamed(fs, cs[1..], i - 1);
    }
  }

  /** Where a route of names leads from a directory, through whatever links. */
  function Reached(fs: Fs, dir: Path, names: seq<string>): Option<Path>
    decreases |names|
  {
    if |names| == 0 then Some(dir)
    else if dir !in fs || !fs[dir].DirNode? then None
    else
      var c := ChildNamed(fs[dir].children, names[0]);
      if c.None? || c.value.target.Broken? then None else Reached(fs, c.value.target.path, names[1..])
  }

  /**
   * A route ends at an obstacle: a broken link, an entry that leads out of the
   * root, one that is neither file nor directory, or a directory that the
   * route is in already.
   */
  predicate Obstacle(fs: Fs, root: Path, trail: set<Path>, dir: Path, names: seq<string>)
    decreases |names|
  {
    && dir in fs && fs[dir].DirNode? && |names| > 0
    && var c := ChildNamed(fs[dir].children, names[0]);
       c.Some? &&
       if c.value.target.Broken? then |names| == 1
       else
         var p := c.value.target.path;
         if !Under(root, p) then |names| == 1
         else
           && p in fs
           && match fs[p]
              case OtherNode => |names| == 1
              case FileNode => false
              case DirNode(_) =>
                if p in trail + {dir} then |names| == 1 else Obstacle(fs, root, trail + {dir}, p, names[1..])
  }

  /** Some route from a directory, entered with nothing behind it, ends at an obstacle. */
  ghost predicate Obstructed(fs: Fs, root: Path, dir: Path) {
    exists names: seq<string>, trail: set<Path> :: trail == {} && Obstacle(fs, root, trail, dir, names)
  }

  /** A refused list of children has a refused child. */
  lemma {:induction false} ChildRefused(fs: Fs, cs: seq<Child>, root: Path, dest: Path, stack: set<Path>) returns (i: nat)
    requires WellFormed(fs) && ChildrenOk(fs, cs) && WalkChildren(fs, cs, root, dest, stack).None?
    ensures i < |cs| && WalkChild(fs, cs[i], root, dest, stack).None?
    decreases |cs|
  {
    if WalkChild(fs, cs[0], root, dest, stack).None? {
      return 0;
    }
    FewerChildren(fs, cs);
    var j := ChildRefused(fs, cs[1..], root, dest, stack);
    return j + 1;
  }

  /** A refused walk has an obstacle on some route. */
  lemma {:induction false} RefusalHasObstacle(fs: Fs, dir: Path, root: Path, dest: Path, stack: set<Path>)
    returns (names: seq<string>)
    requires WellFormed(fs) && dir in fs && fs[dir].DirNode? && dir !in stack
    requires WalkDir(fs, dir, root, dest, stack).None?
    ensures Obstacle(fs, root, stack, dir, names)
    decreases |fs.Keys - stack|
  {
    Shrinks(fs, dir, stack);
    var cs := fs[dir].children;
    var i := ChildRefused(fs, cs, root, dest, stack + {dir});
    var c := cs[i];
    ChildIsNamed(fs, cs, i);
    names := [c.name];
    if c.target.To? && Under(root, c.target.path) && fs[c.target.path].DirNode? && c.target.path !in stack + {dir} {
      var rest := RefusalHasObstacle(fs, c.target.path, root, dest + [c.name], stack + {dir});
      names := [c.name] + rest;
      assert names[1..] == rest;
    }
  }

  /** An obstacle on any route is a refusal. */
  lemma {:induction false} ObstacleRefuses(fs: Fs, dir: Path, root: Path, dest: Path, stack: set<Path>,
                                           names: seq<string>)
    requires WellFormed(fs) && dir in fs && fs[dir].DirNode? && Obstacle(fs, root, stack, dir, names)
    ensures WalkDir(fs, dir, root, dest, stack).None?
    decreases |names|
  {
    if dir in stack {
      return;
    }
    Shrinks(fs, dir, stack);
    var cs := fs[dir].children;
    var c := ChildNamed(cs, names[0]).value;
    NamedIsChild(cs, names[0]);
    var i :| 0 <= i < |cs| && cs[i] == c;
    if c.target.To? && Under(root, c.target.path) && fs[c.target.path].DirNode? && c.target.path !in stack + {dir} {
      ObstacleRefuses(fs, c.target.path, root, dest + [c.name], stack + {dir}, names[1..]);
    }
    if WalkChildren(fs, cs, root, dest, stack + {dir}).Some? {
      ChildStaged(fs, cs, root, dest, stack + {dir}, i);
    }
  }

  /** Whatever a route leads to is staged under its names. */
  lemma {:induction false} ReachedIsStaged(fs: Fs, dir: Path, root: Path, dest: Path, stack: set<Path>,
                                           names: seq<string>, kind: Kind)
    requires WellFormed(fs) && dir in fs && fs[dir].DirNode? && |names| > 0
    requires WalkDir(fs, dir, root, dest, stack).Some?
    requires Reached(fs, dir, names).Some? && StagedAs(fs, Reached(fs, dir, names).value, kind)
    ensures Entry(kind, dest + names) in WalkDir(fs, dir, root, dest, stack).value
    decreases |names|
  {
    var cs := fs[dir].children;
    var c := ChildNamed(cs, names[0]).value;
    NamedIsChild(cs, names[0]);
    var i :| 0 <= i < |cs| && cs[i] == c;
    var q := c.target.path;
    StepStaged(fs, dir, root, dest, stack, c.name, q);
    ChildEntries(fs, c.name, q, root, dest, stack + {dir});
    assert dest + names == (dest + [c.name]) + names[1..];
    if |names| > 1 {
      ReachedIsStaged(fs, q, root, dest + [c.name], stack + {dir}, names[1..], kind);
    } else {
      assert names == [c.name];
    }
  }

  /** An entry staged for some children was staged for one of them. */
  lemma {:induction false} StagedForChild(fs: Fs, cs: seq<Child>, root: Path, dest: Path, stack: set<Path>, e: Entry)
    returns (i: nat)
    requires WellFormed(fs) && ChildrenOk(fs, cs)
    requires WalkChildren(fs, cs, root, dest, stack).Some? && e in WalkChildren(fs, cs, root, dest, stack).value
    ensures i < |cs| && WalkChild(fs, cs[i], root, dest, stack).Some?
    ensures e in WalkChild(fs, cs[i], root, dest, stack).value
    decreases |cs|
  {
    if e in WalkChild(fs, cs[0], root, dest, stack).value {
      return 0;
    }
    FewerChildren(fs, cs);
    var j := StagedForChild(fs, cs[1..], root, dest, stack, e);
    return j + 1;
  }

  /** Whatever is staged lies at the end of a route. */
  lemma {:induction false} StagedIsReached(fs: Fs, dir: Path, root: Path, dest: Path, stack: set<Path>, e: Entry)
    returns (names: seq<string>)
    requires WellFormed(fs) && dir in fs && fs[dir].DirNode?
    requires WalkDir(fs, dir, root, dest, stack).Some? && e in WalkDir(fs, dir, root, dest, stack).value
    ensures |names| > 0 && e.destination == dest + names
    ensures Reached(fs, dir, names).Some? && StagedAs(fs, Reached(fs, dir, names).value, e.kind)
    decreases |fs.Keys - stack|
  {
    Shrinks(fs, dir, stack);
    var cs := fs[dir].children;
    var i := StagedForChild(fs, cs, root, dest, stack + {dir}, e);
    var c := cs[i];
    ChildIsNamed(fs, cs, i);
    names := [c.name];
    assert names[1..] == [];
    if fs[c.target.path].DirNode? && e != Entry(Directory, dest + [c.name]) {
      var rest := StagedIsReached(fs, c.target.path, root, dest + [c.name], stack + {dir}, e);
      names := [c.name] + rest;
      assert names[1..] == rest && dest + names == (dest + [c.name]) + rest;
    }
  }

  /**
   * A walk, exactly. It is refused if and only if some route from its
   * directory ends at an obstacle; and otherwise it stages, under the names of
   * each route, the file or directory that the route leads to, through
   * whatever links, and nothing else.
   */
  lemma WalkExactly(fs: Fs, dir: Path, root: Path, dest: Path)
    requires WellFormed(fs) && dir in fs && fs[dir].DirNode?
    ensures WalkDir(fs, dir, root, dest, {}).None? <==> Obstructed(fs, root, dir)
    ensures WalkDir(fs, dir, root, dest, {}).Some? ==>
              forall kind, names: seq<string> | |names| > 0 ::
                Entry(kind, dest + names) in WalkDir(fs, dir, root, dest, {}).value <==>
                Reached(fs, dir, names).Some? && StagedAs(fs, Reached(fs, dir, names).value, kind)
  {
    var start: set<Path> := {};
    if WalkDir(fs, dir, root, dest, start).None? {
      var names := RefusalHasObstacle(fs, dir, root, dest, start);
      assert start == {} && Obstacle(fs, root, start, dir, names);
    } else {
      if Obstructed(fs, root, dir) {
        var names, trail: set<Path> :| trail == {} && Obstacle(fs, root, trail, dir, names);
        ObstacleRefuses(fs, dir, root, dest, trail, names);
        assert false;
      }
      forall kind, names: seq<string> | |names| > 0
        ensures Entry(kind, dest + names) in WalkDir(fs, dir, root, dest, {}).value <==>
                Reached(fs, dir, names).Some? && StagedAs(fs, Reached(fs, dir, names).value, kind)
      {
        RouteExactly(fs, dir, root, dest, names, kind);
      }
    }
  }

  lemma RouteExactly(fs: Fs, dir: Path, root: Path, dest: Path, names: seq<string>, kind: Kind)
    requires WellFormed(fs) && dir in fs && fs[dir].DirNode? && |names| > 0
    requires WalkDir(fs, dir, root, dest, {}).Some?
    ensures Entry(kind, dest + names) in WalkDir(fs, dir, root, dest, {}).value <==>
            Reached(fs, dir, names).Some? && StagedAs(fs, Reached(fs, dir, names).value, kind)
  {
    if Entry(kind, dest + names) in WalkDir(fs, dir, root, dest, {}).value {
      var route := StagedIsReached(fs, dir, root, dest, {}, Entry(kind, dest + names));
      assert (dest + names)[|dest|..] == names && (dest + route)[|dest|..] == route;
    }
    if Reached(fs, dir, names).Some? && StagedAs(fs, Reached(fs, dir, names).value, kind) {
      ReachedIsStaged(fs, dir, root, dest, {}, names, kind);
    }
  }

  // The planner.

  const TREES: string := "trees"
  const FILES: string := "files"

  /** The file system object a canonical path reaches, as its device and inode tell: mounts can make two paths one. */
  type Identity = Path -> nat

  /** A configured mapping: the object its local root reaches, if any, and where it leads. */
  datatype Mapping = Mapping(local: Option<nat>, remote: Path)

  /** Two existing roots are the same object. */
  predicate Collide(a: Mapping, b: Mapping) {
    a.local.Some? && a.local == b.local
  }

  /** Every existing root by its identity; duplicate and conflicting roots are refused, missing ones left out. */
  method ResolveRoots(mappings: seq<Mapping>) returns (roots: Option<map<nat, Path>>)
    ensures roots.Some? <==> forall i, j | 0 <= i < j < |mappings| :: !Collide(mappings[i], mappings[j])
    ensures roots.Some? ==>
              forall id, remote ::
                (id in roots.value && roots.value[id] == remote) <==> Mapping(Some(id), remote) in mappings
  {
    var found: map<nat, Path> := map[];
    for n := 0 to |mappings|
      invariant forall i, j | 0 <= i < j < n :: !Collide(mappings[i], mappings[j])
      invariant forall id, remote ::
                  (id in found && found[id] == remote) <==> Mapping(Some(id), remote) in mappings[..n]
    {
      var m := mappings[n];
      assert mappings[..n + 1] == mappings[..n] + [m];
      if m.local.Some? {
        if m.local.value in found {
          assert Mapping(m.local, found[m.local.value]) in mappings[..n];
          return None;
        }
        forall i | 0 <= i < n
          ensures !Collide(mappings[i], m)
        {
          assert mappings[i] in mappings[..n];
          assert mappings[i].local.Some? ==>
                   mappings[i] == Mapping(Some(mappings[i].local.value), mappings[i].remote);
        }
        found := found[m.local.value := m.remote];
      }
    }
    assert mappings[..|mappings|] == mappings;
    return Some(found);
  }

  /** The configured mapping of the nearest mapped ancestor, with the rest of the path. */
  function Mapped(identity: Identity, roots: map<nat, Path>, p: Path): Option<Path>
    decreases |p|
  {
    if identity(p) in roots then Some(roots[identity(p)])
    else if p == [] then None
    else
      var above := Mapped(identity, roots, p[..|p| - 1]);
      if above.None? then None else Some(above.value + [p[|p| - 1]])
  }

  /** The path's first n components reach a mapped root, and no longer ancestor does. */
  predicate NearestRoot(identity: Identity, roots: map<nat, Path>, p: Path, n: nat) {
    && n <= |p|
    && identity(p[..n]) in roots
    && forall k | n < k <= |p| :: identity(p[..k]) !in roots
  }

  /** The mapping applied is that of the most specific mapped ancestor. */
  lemma {:induction false} MappedIsNearest(identity: Identity, roots: map<nat, Path>, p: Path)
    ensures Mapped(identity, roots, p).None? <==> forall n | 0 <= n <= |p| :: identity(p[..n]) !in roots
    ensures forall n: nat | NearestRoot(identity, roots, p, n) ::
              Mapped(identity, roots, p) == Some(roots[identity(p[..n])] + p[n..])
    decreases |p|
  {
    assert p[..|p|] == p;
    if identity(p) !in roots && p != [] {
      var q := p[..|p| - 1];
      MappedIsNearest(identity, roots, q);
      assert forall n | 0 <= n < |p| :: q[..n] == p[..n];
      forall n: nat | NearestRoot(identity, roots, p, n)
        ensures Mapped(identity, roots, p) == Some(roots[identity(p[..n])] + p[n..])
      {
        assert NearestRoot(identity, roots, q, n);
        assert p[n..] == q[n..] + [p[|p| - 1]];
        Assoc(roots[identity(p[..n])], q[n..], [p[|p| - 1]]);
      }
    } else if identity(p) in roots {
      assert p[|p|..] == [];
      assert roots[identity(p)] + [] == roots[identity(p)];
    }
  }

  /** What a plan answers: a remote path, or the staged destination a template names. */
  datatype Planned = Remote(path: Path) | Staged(destination: Path)

  /** A namespace the runner generates: a proper component without dots. */
  predicate Namespace(n: string) {
    Component(n) && '.' !in n
  }

  /** A suffix of a file name: empty, or a dot and more. */
  predicate SuffixOk(s: string) {
    s == [] || (s[0] == '.' && |s| > 1 && '/' !in s && '\0' !in s)
  }

  /** The part of a name before its first dot. */
  function Stem(name: string): string {
    if name == [] || name[0] == '.' then [] else [name[0]] + Stem(name[1..])
  }

  lemma {:induction false} StemOf(n: string, suffix: string)
    requires '.' !in n && SuffixOk(suffix)
    ensures Stem(n + suffix) == n
  {
    if n == [] {
      assert n + suffix == suffix;
    } else {
      StemOf(n[1..], suffix);
      assert (n + suffix)[1..] == n[1..] + suffix;
      assert [n[0]] + n[1..] == n;
    }
  }

  /** A file's staged name is a proper component. */
  lemma FileNameOk(n: string, suffix: string)
    requires Namespace(n) && SuffixOk(suffix)
    ensures Component(n + suffix)
  {
    assert (n + suffix)[0] == n[0] && n[0] in n;
  }

  /** Which namespaces the staged destinations belong to. */
  predicate Spaces(m: seq<Entry>, trees: set<string>, files: set<string>) {
    forall i | 0 <= i < |m| ::
      && |m[i].destination| >= 2
      && (|| (m[i].destination[0] == TREES && m[i].destination[1] in trees)
          || (m[i].destination[0] == FILES && Stem(m[i].destination[1]) in files))
  }

  lemma KindsOfSpaceDiffer()
    ensures TREES != FILES && Component(TREES) && Component(FILES)
  {
    assert TREES[0] != FILES[0];
  }

  /** Entries of a namespace never used before do not meet the others. */
  lemma NewSpaceDisjoint(m: seq<Entry>, es: seq<Entry>, p: Path, trees: set<string>, files: set<string>)
    requires Spaces(m, trees, files) && Within(es, p) && |p| == 2
    requires || (p[0] == TREES && p[1] !in trees)
             || (p[0] == FILES && Stem(p[1]) !in files)
    ensures Disjoint(m, es)
  {
    KindsOfSpaceDiffer();
    forall i, j | 0 <= i < |m| && 0 <= j < |es|
      ensures
        && m[i].destination != es[j].destination
        && !Ancestor(m[i].destination, es[j].destination)
        && !Ancestor(es[j].destination, m[i].destination)
    {
      var x, y := m[i].destination, es[j].destination;
      assert y[..2] == p && y[..2][0] == y[0] && y[..2][1] == y[1];
      assert x[..2] != p by {
        assert x[..2][0] == x[0] && x[..2][1] == x[1];
      }
      AncestorsShare(x, y, 2);
      AncestorsShare(y, x, 2);
    }
  }

  /** Every canonical path at or below a staged root is staged at the corresponding place. */
  predicate Covers(m: seq<Entry>, fs: Fs, root: Path, dest: Path) {
    && root in fs && fs[root].DirNode?
    && Entry(Directory, dest) in m
    && forall p | p in fs && Ancestor(root, p) ::
         && (fs[p].DirNode? ==> Entry(Directory, dest + p[|root|..]) in m)
         && (fs[p].FileNode? ==> Entry(File, dest + p[|root|..]) in m)
  }

  predicate AllCovered(m: seq<Entry>, fs: Fs, roots: seq<(Path, Path)>) {
    forall i | 0 <= i < |roots| :: Covers(m, fs, roots[i].0, roots[i].1)
  }

  lemma CoversMore(m: seq<Entry>, more: seq<Entry>, fs: Fs, roots: seq<(Path, Path)>)
    requires AllCovered(m, fs, roots)
    ensures AllCovered(m + more, fs, roots)
  {
    assert forall e | e in m :: e in m + more;
  }

  /** A new tree, added to a manifest. */
  lemma NewTree(m: seq<Entry>, fs: Fs, roots: seq<(Path, Path)>, trees: set<string>, files: set<string>,
                source: Path, ns: string, es: seq<Entry>)
    requires WellFormed(fs) && source in fs && fs[source].DirNode?
    requires ManifestOk(m) && AllValid(m) && Spaces(m, trees, files) && AllCovered(m, fs, roots)
    requires Namespace(ns) && ns !in trees
    requires WalkDir(fs, source, source, [TREES, ns], {}) == Some(es)
    ensures
      var n := m + ([Entry(Directory, [TREES, ns])] + es);
      && ManifestOk(n) && AllValid(n) && Spaces(n, trees + {ns}, files)
      && AllCovered(n, fs, roots + [(source, [TREES, ns])])
  {
    KindsOfSpaceDiffer();
    var d := [TREES, ns];
    var added := [Entry(Directory, d)] + es;
    WalkDirOk(fs, source, source, d, {});
    DirectoryAbove(d, es);
    NewSpaceDisjoint(m, added, d, trees, files);
    JoinOk(m, added);
    forall p | p in fs && Ancestor(source, p)
      ensures fs[p].DirNode? ==> Entry(Directory, d + p[|source|..]) in es
      ensures fs[p].FileNode? ==> Entry(File, d + p[|source|..]) in es
    {
      if fs[p].DirNode? {
        WalkCovers(fs, source, source, d, {}, p, Directory);
      } else if fs[p].FileNode? {
        WalkCovers(fs, source, source, d, {}, p, File);
      }
    }
    CoversMore(m, added, fs, roots);
    NewSpaces(m, added, d, trees, files);
    assert Covers(m + added, fs, source, d) by {
      assert added[0] == Entry(Directory, d);
      assert forall e | e in es :: e in added;
      assert forall e | e in added :: e in m + added;
    }
  }

  lemma NewSpaces(m: seq<Entry>, added: seq<Entry>, d: Path, trees: set<string>, files: set<string>)
    requires Spaces(m, trees, files) && AllValid(m) && Within(added, d) && |d| == 2
    requires d[0] == TREES || d[0] == FILES
    ensures d[0] == TREES ==> Spaces(m + added, trees + {d[1]}, files)
    ensures d[0] == FILES ==> Spaces(m + added, trees, files + {Stem(d[1])})
    ensures AllValid(m + added)
  {
    forall j | 0 <= j < |added|
      ensures |added[j].destination| >= 2
      ensures added[j].destination[0] == d[0] && added[j].destination[1] == d[1]
    {
      var y := added[j].destination;
      assert y[..2] == d && y[..2][0] == y[0] && y[..2][1] == y[1];
    }
    assert forall i | 0 <= i < |m + added| :: (m + added)[i] == if i < |m| then m[i] else added[i - |m|];
  }

  /** A new file, added to a manifest. */
  lemma NewFile(m: seq<Entry>, fs: Fs, roots: seq<(Path, Path)>, trees: set<string>, files: set<string>,
                ns: string, suffix: string)
    requires ManifestOk(m) && AllValid(m) && Spaces(m, trees, files) && AllCovered(m, fs, roots)
    requires Namespace(ns) && ns !in files && SuffixOk(suffix)
    ensures
      var n := m + [Entry(File, [FILES, ns + suffix])];
      && ManifestOk(n) && AllValid(n) && Spaces(n, trees, files + {ns}) && AllCovered(n, fs, roots)
  {
    KindsOfSpaceDiffer();
    FileNameOk(ns, suffix);
    StemOf(ns, suffix);
    var d := [FILES, ns + suffix];
    var added := [Entry(File, d)];
    assert Within(added, d);
    NewSpaceDisjoint(m, added, d, trees, files);
    JoinOk(m, added);
    NewSpaces(m, added, d, trees, files);
    CoversMore(m, added, fs, roots);
  }

  class PathPlanner {
    const fs: Fs
    const identity: Identity
    const mappings: map<nat, Path>
    var stagedFiles: seq<Entry>
    var remoteChecks: seq<(Path, Kind)>
    var stagedRoots: seq<(Path, Path)>
    ghost var trees: set<string>
    ghost var files: set<string>

    /** The manifest is one every check accepts, and it holds all of every staged root. */
    ghost predicate Valid()
      reads this
    {
      && WellFormed(fs)
      && ManifestOk(stagedFiles) && AllValid(stagedFiles)
      && Spaces(stagedFiles, trees, files)
      && AllCovered(stagedFiles, fs, stagedRoots)
    }

    constructor (fs: Fs, identity: Identity, mappings: map<nat, Path>)
      requires WellFormed(fs)
      ensures Valid() && this.fs == fs && this.identity == identity && this.mappings == mappings
      ensures trees == {} && files == {}
      ensures stagedFiles == [] && remoteChecks == []
    {
      this.fs, this.identity, this.mappings := fs, identity, mappings;
      stagedFiles, remoteChecks, stagedRoots := [], [], [];
      trees, files := {}, {};
    }

    /** The walk of one directory; it terminates because each level adds a directory to the stack. */
    method Walk(resolved: Path, root: Path, destination: Path, stack: set<Path>) returns (raised: bool)
      requires WellFormed(fs) && resolved in fs && fs[resolved].DirNode?
      modifies this`stagedFiles
      ensures raised <==> WalkDir(fs, resolved, root, destination, stack).None?
      ensures !raised ==> stagedFiles == old(stagedFiles) + WalkDir(fs, resolved, root, destination, stack).value
      decreases |fs.Keys - stack|, 0
    {
      if resolved in stack {
        return true;
      }
      Shrinks(fs, resolved, stack);
      var next := stack + {resolved};
      var children := fs[resolved].children;
      ghost var whole := WalkChildren(fs, children, root, destination, next);
      ghost var start := stagedFiles;
      assert children[0..] == children;
      for i := 0 to |children|
        invariant ChildrenOk(fs, children[i..])
        invariant WalksTo(start, whole, stagedFiles, WalkChildren(fs, children[i..], root, destination, next))
      {
        assert children[i..][0] == children[i] && children[i..][1..] == children[i + 1..];
        FewerChildren(fs, children[i..]);
        ghost var rest := WalkChildren(fs, children[i + 1..], root, destination, next);
        ghost var before := stagedFiles;
        var refused := WalkEntry(children[i], root, destination, next);
        if refused {
          return true;
        }
        WalksOn(start, whole, before, WalkChild(fs, children[i], root, destination, next).value, rest);
      }
      assert stagedFiles + [] == stagedFiles;
      return false;
    }

    method WalkEntry(child: Child, root: Path, destination: Path, stack: set<Path>) returns (raised: bool)
      requires WellFormed(fs) && (child.target.To? ==> child.target.path in fs)
      modifies this`stagedFiles
      ensures raised <==> WalkChild(fs, child, root, destination, stack).None?
      ensures !raised ==> stagedFiles == old(stagedFiles) + WalkChild(fs, child, root, destination, stack).value
      decreases |fs.Keys - stack|, 1
    {
      if child.target.Broken? {
        return true;
      }
      var resolved := child.target.path;
      if !Under(root, resolved) {
        return true;
      }
      var target := destination + [child.name];
      match fs[resolved] {
        case DirNode(_) =>
          ghost var before := stagedFiles;
          stagedFiles := stagedFiles + [Entry(Directory, target)];
          raised := Walk(resolved, root, target, stack);
          if !raised {
            AssocEntries(before, [Entry(Directory, target)], WalkDir(fs, resolved, root, target, stack).value);
          }
        case FileNode =>
          stagedFiles := stagedFiles + [Entry(File, target)];
          raised := false;
        case OtherNode =>
          raised := true;
      }
    }

    /** The staged place of a path inside a staged root, by the most specific root. */
    method ExistingStaged(path: Path) returns (destination: Option<Path>)
      ensures destination.None? ==> forall i | 0 <= i < |stagedRoots| :: !Under(stagedRoots[i].0, path)
      ensures destination.Some? ==>
                exists i | 0 <= i < |stagedRoots| ::
                  && Under(stagedRoots[i].0, path)
                  && destination.value == stagedRoots[i].1 + path[|stagedRoots[i].0|..]
                  && forall j | 0 <= j < |stagedRoots| && Under(stagedRoots[j].0, path) ::
                       |stagedRoots[j].0| <= |stagedRoots[i].0|
    {
      destination := None;
      var best := 0;
      for i := 0 to |stagedRoots|
        invariant destination.None? ==> forall j | 0 <= j < i :: !Under(stagedRoots[j].0, path)
        invariant destination.Some? ==>
                    && best < i && Under(stagedRoots[best].0, path)
                    && destination.value == stagedRoots[best].1 + path[|stagedRoots[best].0|..]
                    && forall j | 0 <= j < i && Under(stagedRoots[j].0, path) ::
                         |stagedRoots[j].0| <= |stagedRoots[best].0|
      {
        var (root, dest) := stagedRoots[i];
        if Under(root, path) && (destination.None? || |root| > |stagedRoots[best].0|) {
          best := i;
          destination := Some(dest + path[|root|..]);
        }
      }
    }

    /** A path inside a staged root is in the manifest already. */
    lemma ExistingIsStaged(path: Path, destination: Path)
      requires Valid() && path in fs && (fs[path].DirNode? || fs[path].FileNode?)
      requires exists i | 0 <= i < |stagedRoots| ::
                 Under(stagedRoots[i].0, path) && destination == stagedRoots[i].1 + path[|stagedRoots[i].0|..]
      ensures Entry(if fs[path].DirNode? then Directory else File, destination) in stagedFiles
    {
      var i :| 0 <= i < |stagedRoots|
               && Under(stagedRoots[i].0, path) && destination == stagedRoots[i].1 + path[|stagedRoots[i].0|..];
      var (root, dest) := stagedRoots[i];
      assert Covers(stagedFiles, fs, root, dest);
      if |root| == |path| {
        assert root == path && path[|root|..] == [] && dest + [] == dest;
      } else {
        assert Ancestor(root, path);
      }
    }

    /**
     * Plan a search directory: mapped, already staged, or walked into a new
     * tree. The staged destination it answers is a directory of the manifest.
     */
    method PlanDirectory(source: Option<Path>, ns: string) returns (planned: Option<Planned>)
      requires Valid() && Namespace(ns) && ns !in trees
      requires source.Some? ==> source.value in fs
      modifies this
      ensures planned.Some? ==> Valid() && old(stagedFiles) <= stagedFiles
      ensures trees == old(trees) || trees == old(trees) + {ns}
      ensures files == old(files)
      ensures planned.Some? && planned.value.Remote? ==>
                && source.Some? && Mapped(identity, mappings, source.value) == Some(planned.value.path)
                && remoteChecks == old(remoteChecks) + [(planned.value.path, Directory)]
      ensures planned.Some? && planned.value.Staged? ==>
                && Entry(Directory, planned.value.destination) in stagedFiles
                && remoteChecks == old(remoteChecks)
      ensures source.None? || !fs[source.value].DirNode? ==> planned.None?
      ensures source.Some? && fs[source.value].DirNode? && Mapped(identity, mappings, source.value).Some? ==>
                planned == Some(Remote(Mapped(identity, mappings, source.value).value))
      ensures source.Some? && fs[source.value].DirNode? && Mapped(identity, mappings, source.value).None? ==>
                if exists i | 0 <= i < |old(stagedRoots)| :: Under(old(stagedRoots)[i].0, source.value)
                then planned.Some? && stagedFiles == old(stagedFiles)
                else planned.None? <==> WalkDir(fs, source.value, source.value, [TREES, ns], {}).None?
    {
      if source.None? || !fs[source.value].DirNode? {
        return None;
      }
      var path := source.value;
      var mapped := Mapped(identity, mappings, path);
      if mapped.Some? {
        remoteChecks := remoteChecks + [(mapped.value, Directory)];
        return Some(Remote(mapped.value));
      }
      var existing := ExistingStaged(path);
      if existing.Some? {
        ExistingIsStaged(path, existing.value);
        return Some(Staged(existing.value));
      }
      planned := StageTree(path, ns);
    }

    method StageTree(path: Path, ns: string) returns (planned: Option<Planned>)
      requires Valid() && Namespace(ns) && ns !in trees && path in fs && fs[path].DirNode?
      modifies this`stagedFiles, this`stagedRoots, this`trees
      ensures planned.None? <==> WalkDir(fs, path, path, [TREES, ns], {}).None?
      ensures planned.Some? ==>
                && Valid() && planned == Some(Staged([TREES, ns]))
                && stagedFiles == old(stagedFiles) +
                     ([Entry(Directory, [TREES, ns])] + WalkDir(fs, path, path, [TREES, ns], {}).value)
                && Entry(Directory, [TREES, ns]) in stagedFiles
      ensures trees == old(trees) || trees == old(trees) + {ns}
    {
      var destination := [TREES, ns];
      ghost var m, roots, used := stagedFiles, stagedRoots, trees;
      stagedRoots := stagedRoots + [(path, destination)];
      stagedFiles := stagedFiles + [Entry(Directory, destination)];
      var raised := Walk(path, path, destination, {});
      if raised {
        return None;
      }
      ghost var es := WalkDir(fs, path, path, destination, {}).value;
      NewTree(m, fs, roots, used, files, path, ns, es);
      AssocEntries(m, [Entry(Directory, destination)], es);
      trees := trees + {ns};
      assert stagedFiles[|m|] == Entry(Directory, destination);
      return Some(Staged(destination));
    }

    /** Plan one file: mapped, already staged, or staged under its namespace with its suffix. */
    method PlanFile(source: Option<Path>, ns: string, suffix: string) returns (planned: Option<Planned>)
      requires Valid() && Namespace(ns) && ns !in files && SuffixOk(suffix)
      requires source.Some? ==> source.value in fs
      modifies this
      ensures Valid() && old(stagedFiles) <= stagedFiles && trees == old(trees)
      ensures files == old(files) || files == old(files) + {ns}
      ensures planned.Some? && planned.value.Remote? ==>
                && source.Some? && Mapped(identity, mappings, source.value) == Some(planned.value.path)
                && remoteChecks == old(remoteChecks) + [(planned.value.path, File)]
      ensures planned.Some? && planned.value.Staged? ==>
                && Entry(File, planned.value.destination) in stagedFiles
                && remoteChecks == old(remoteChecks)
      ensures planned.None? <==> source.None? || !fs[source.value].FileNode?
      ensures planned.Some? ==> (planned.value.Remote? <==> Mapped(identity, mappings, source.value).Some?)
      ensures planned.Some? && planned.value.Staged? ==>
                if exists i | 0 <= i < |old(stagedRoots)| :: Under(old(stagedRoots)[i].0, source.value)
                then stagedFiles == old(stagedFiles)
                else stagedFiles == old(stagedFiles) + [Entry(File, [FILES, ns + suffix])]
    {
      if source.None? || !fs[source.value].FileNode? {
        return None;
      }
      var path := source.value;
      var mapped := Mapped(identity, mappings, path);
      if mapped.Some? {
        remoteChecks := remoteChecks + [(mapped.value, File)];
        return Some(Remote(mapped.value));
      }
      var existing := ExistingStaged(path);
      if existing.Some? {
        ExistingIsStaged(path, existing.value);
        return Some(Staged(existing.value));
      }
      NewFile(stagedFiles, fs, stagedRoots, trees, files, ns, suffix);
      stagedFiles := stagedFiles + [Entry(File, [FILES, ns + suffix])];
      files := files + {ns};
      assert stagedFiles[|stagedFiles| - 1] == Entry(File, [FILES, ns + suffix]);
      return Some(Staged([FILES, ns + suffix]));
    }
  }

  /** A source the runner names: where it resolves, its namespace, and a file's suffix. */
  datatype Wanted = Wanted(source: Option<Path>, namespace: string, suffix: string)

  predicate WantedOk(fs: Fs, ws: seq<Wanted>) {
    && (forall i | 0 <= i < |ws| ::
          && Namespace(ws[i].namespace) && SuffixOk(ws[i].suffix)
          && (ws[i].source.Some? ==> ws[i].source.value in fs))
    && forall i, j | 0 <= i < j < |ws| :: ws[i].namespace != ws[j].namespace
  }

  function NamespacesOf(ws: seq<Wanted>): set<string> {
    set w | w in ws :: w.namespace
  }

  /** Every staged answer names an entry of the manifest, of the right kind. */
  predicate Named(m: seq<Entry>, planned: seq<Planned>, kind: Kind) {
    forall i | 0 <= i < |planned| :: planned[i].Staged? ==> Entry(kind, planned[i].destination) in m
  }

  lemma NamespaceIsNew(ws: seq<Wanted>, i: nat)
    requires i < |ws| && forall j, k | 0 <= j < k < |ws| :: ws[j].namespace != ws[k].namespace
    ensures ws[i].namespace !in NamespacesOf(ws[..i])
    ensures NamespacesOf(ws[..i + 1]) == NamespacesOf(ws[..i]) + {ws[i].namespace}
  {
    forall w | w in ws[..i]
      ensures w.namespace != ws[i].namespace
    {
      var k :| 0 <= k < i && ws[k] == w;
    }
    assert ws[..i + 1] == ws[..i] + [ws[i]];
  }

  /** Some configured root is the nearest one above the path. */
  ghost predicate UnderMapping(identity: Identity, m: Mapping, mappings: seq<Mapping>, p: Path, n: nat) {
    && n <= |p| && m in mappings && m.local == Some(identity(p[..n]))
    && forall k, other | n < k <= |p| && other in mappings :: other.local != Some(identity(p[..k]))
  }

  /** No configured root is above a path. */
  ghost predicate Unmapped(identity: Identity, mappings: seq<Mapping>, p: Path) {
    forall m, n: nat | m in mappings && n <= |p| :: m.local != Some(identity(p[..n]))
  }

  /** A source under a configured root is answered by its place below that root; any other one is staged. */
  ghost predicate MappedOrStaged(identity: Identity, mappings: seq<Mapping>, wanted: Wanted, planned: Planned) {
    wanted.source.Some? &&
    var p := wanted.source.value;
    match planned
    case Remote(path) => exists m, n: nat :: UnderMapping(identity, m, mappings, p, n) && path == m.remote + p[n..]
    case Staged(_) => Unmapped(identity, mappings, p)
  }

  /** The nearest mapped ancestor of a mapped path. */
  lemma {:induction false} NearestExists(identity: Identity, roots: map<nat, Path>, p: Path) returns (n: nat)
    requires Mapped(identity, roots, p).Some?
    ensures NearestRoot(identity, roots, p, n)
    decreases |p|
  {
    assert p[..|p|] == p;
    if identity(p) in roots {
      return |p|;
    }
    var q := p[..|p| - 1];
    n := NearestExists(identity, roots, q);
    assert forall k | 0 <= k < |p| :: q[..k] == p[..k];
  }

  /** What was answered from the resolved roots is right by the configured mappings. */
  lemma RootsApply(identity: Identity, mappings: seq<Mapping>, roots: map<nat, Path>, wanted: Wanted,
                   planned: Planned)
    requires forall id, remote :: (id in roots && roots[id] == remote) <==> Mapping(Some(id), remote) in mappings
    requires wanted.source.Some?
    requires Mapped(identity, roots, wanted.source.value) == if planned.Remote? then Some(planned.path) else None
    ensures MappedOrStaged(identity, mappings, wanted, planned)
  {
    var p := wanted.source.value;
    MappedIsNearest(identity, roots, p);
    forall m | m in mappings && m.local.Some?
      ensures m.local.value in roots
    {
      assert m == Mapping(Some(m.local.value), m.remote);
    }
    if planned.Remote? {
      var n := NearestExists(identity, roots, p);
      var m := Mapping(Some(identity(p[..n])), roots[identity(p[..n])]);
      assert m in mappings;
      assert UnderMapping(identity, m, mappings, p, n);
    }
  }

  /** Every answer so far is the right one for its source. */
  ghost predicate Answered(identity: Identity, mappings: seq<Mapping>, ws: seq<Wanted>, planned: seq<Planned>) {
    |planned| <= |ws| && forall i | 0 <= i < |planned| :: MappedOrStaged(identity, mappings, ws[i], planned[i])
  }

  lemma AnsweredOne(identity: Identity, mappings: seq<Mapping>, roots: map<nat, Path>, ws: seq<Wanted>,
                    planned: seq<Planned>, next: Planned)
    requires Answered(identity, mappings, ws, planned) && |planned| < |ws|
    requires forall id, remote :: (id in roots && roots[id] == remote) <==> Mapping(Some(id), remote) in mappings
    requires ws[|planned|].source.Some?
    requires Mapped(identity, roots, ws[|planned|].source.value) == if next.Remote? then Some(next.path) else None
    ensures Answered(identity, mappings, ws, planned + [next])
  {
    RootsApply(identity, mappings, roots, ws[|planned|], next);
  }

  /** A search directory that is not there, or that is under no root and has an obstacle on some route. */
  ghost predicate DirectoryRefused(fs: Fs, identity: Identity, mappings: seq<Mapping>, w: Wanted) {
    || w.source.None? || w.source.value !in fs || !fs[w.source.value].DirNode?
    || (Unmapped(identity, mappings, w.source.value) && Obstructed(fs, w.source.value, w.source.value))
  }

  lemma RefusedDirectory(fs: Fs, identity: Identity, mappings: seq<Mapping>, roots: map<nat, Path>, ws: seq<Wanted>,
                         i: nat)
    requires WellFormed(fs) && i < |ws|
    requires forall id, remote :: (id in roots && roots[id] == remote) <==> Mapping(Some(id), remote) in mappings
    requires ws[i].source.Some? && ws[i].source.value in fs && fs[ws[i].source.value].DirNode? ==>
               && Mapped(identity, roots, ws[i].source.value).None?
               && WalkDir(fs, ws[i].source.value, ws[i].source.value, [TREES, ws[i].namespace], {}).None?
    ensures exists w :: w in ws && DirectoryRefused(fs, identity, mappings, w)
  {
    var w := ws[i];
    if w.source.Some? && w.source.value in fs && fs[w.source.value].DirNode? {
      WalkExactly(fs, w.source.value, w.source.value, [TREES, w.namespace]);
      RootsApply(identity, mappings, roots, w, Staged([]));
    }
    assert w in ws && DirectoryRefused(fs, identity, mappings, w);
  }

  /** Every search directory is one. */
  predicate AllThere(fs: Fs, ws: seq<Wanted>) {
    forall w | w in ws :: w.source.Some? && w.source.value in fs && fs[w.source.value].DirNode?
  }

  lemma ThereOn(fs: Fs, ws: seq<Wanted>, i: nat)
    requires i < |ws| && AllThere(fs, ws[..i])
    ensures ws[i].source.Some? && ws[i].source.value in fs && fs[ws[i].source.value].DirNode? ==>
              AllThere(fs, ws[..i + 1])
  {
    assert ws[..i + 1] == ws[..i] + [ws[i]];
  }

  predicate FileRefused(fs: Fs, w: Wanted) {
    w.source.None? || w.source.value !in fs || !fs[w.source.value].FileNode?
  }

  method PlanDirectories(planner: PathPlanner, ghost mappings: seq<Mapping>, ws: seq<Wanted>)
    returns (trees: Option<seq<Planned>>)
    requires planner.Valid() && planner.trees == {} && planner.files == {} && WantedOk(planner.fs, ws)
    requires forall id, remote ::
               (id in planner.mappings && planner.mappings[id] == remote) <==> Mapping(Some(id), remote) in mappings
    modifies planner
    ensures trees.Some? ==>
              && planner.Valid() && planner.files == {} && |trees.value| == |ws|
              && Named(planner.stagedFiles, trees.value, Directory)
              && Answered(planner.identity, mappings, ws, trees.value)
    ensures trees.None? ==> exists w :: w in ws && DirectoryRefused(planner.fs, planner.identity, mappings, w)
    ensures trees.Some? ==> AllThere(planner.fs, ws)
  {
    var answers := [];
    for i := 0 to |ws|
      invariant AllThere(planner.fs, ws[..i])
      invariant planner.Valid() && planner.trees <= NamespacesOf(ws[..i]) && planner.files == {}
      invariant |answers| == i && Named(planner.stagedFiles, answers, Directory)
      invariant Answered(planner.identity, mappings, ws, answers)
    {
      NamespaceIsNew(ws, i);
      ghost var before := planner.stagedFiles;
      var planned := planner.PlanDirectory(ws[i].source, ws[i].namespace);
      ThereOn(planner.fs, ws, i);
      if planned.None? {
        RefusedDirectory(planner.fs, planner.identity, mappings, planner.mappings, ws, i);
        return None;
      }
      assert forall e | e in before :: e in planner.stagedFiles;
      AnsweredOne(planner.identity, mappings, planner.mappings, ws, answers, planned.value);
      answers := answers + [planned.value];
    }
    assert ws[..|ws|] == ws;
    return Some(answers);
  }

  lemma RefusedFile(fs: Fs, ws: seq<Wanted>, i: nat)
    requires i < |ws| && FileRefused(fs, ws[i])
    ensures exists w :: w in ws && FileRefused(fs, w)
  {
  }

  lemma NoneRefused(fs: Fs, ws: seq<Wanted>)
    requires forall k | 0 <= k < |ws| :: !FileRefused(fs, ws[k])
    ensures !exists w :: w in ws && FileRefused(fs, w)
  {
  }

  method PlanFiles(planner: PathPlanner, ghost mappings: seq<Mapping>, ws: seq<Wanted>)
    returns (images: Option<seq<Planned>>)
    requires planner.Valid() && planner.files == {} && WantedOk(planner.fs, ws)
    requires forall id, remote ::
               (id in planner.mappings && planner.mappings[id] == remote) <==> Mapping(Some(id), remote) in mappings
    modifies planner
    ensures planner.Valid() && old(planner.stagedFiles) <= planner.stagedFiles
    ensures images.Some? ==>
              && |images.value| == |ws|
              && Named(planner.stagedFiles, images.value, File)
              && Answered(planner.identity, mappings, ws, images.value)
    ensures images.None? <==> exists w :: w in ws && FileRefused(planner.fs, w)
  {
    var answers := [];
    for i := 0 to |ws|
      invariant forall k | 0 <= k < i :: !FileRefused(planner.fs, ws[k])
      invariant planner.Valid() && planner.files <= NamespacesOf(ws[..i])
      invariant old(planner.stagedFiles) <= planner.stagedFiles
      invariant |answers| == i && Named(planner.stagedFiles, answers, File)
      invariant Answered(planner.identity, mappings, ws, answers)
    {
      NamespaceIsNew(ws, i);
      ghost var before := planner.stagedFiles;
      var planned := planner.PlanFile(ws[i].source, ws[i].namespace, ws[i].suffix);
      if planned.None? {
        RefusedFile(planner.fs, ws, i);
        return None;
      }
      assert forall e | e in before :: e in planner.stagedFiles;
      AnsweredOne(planner.identity, mappings, planner.mappings, ws, answers, planned.value);
      answers := answers + [planned.value];
    }
    NoneRefused(planner.fs, ws);
    return Some(answers);
  }

  /**
   * Plan a whole session: its search directories, then its files, each under
   * its own namespace. Whatever the file system and its links, a plan that is
   * not refused has a manifest that every staging check accepts. A source
   * below a configured root is answered by its place under the nearest one;
   * any other is staged, and its place is an entry of the manifest of the
   * right kind. Roots that reach the same object are refused, and so is a
   * file or directory that is not there; otherwise only a search directory
   * that has to be walked and has an obstacle on some route is.
   */
  method PlanSession(fs: Fs, identity: Identity, mappings: seq<Mapping>, directories: seq<Wanted>, files: seq<Wanted>)
    returns (manifest: Option<seq<Entry>>, trees: seq<Planned>, images: seq<Planned>)
    requires WellFormed(fs) && WantedOk(fs, directories) && WantedOk(fs, files)
    ensures manifest.Some? ==>
              && ManifestOk(manifest.value) && AllValid(manifest.value)
              && |trees| == |directories| && |images| == |files|
              && Named(manifest.value, trees, Directory) && Named(manifest.value, images, File)
              && Answered(identity, mappings, directories, trees) && Answered(identity, mappings, files, images)
    ensures manifest.Some? ==> forall i, j | 0 <= i < j < |mappings| :: !Collide(mappings[i], mappings[j])
    ensures manifest.Some? ==> forall w | w in files :: !FileRefused(fs, w)
    ensures manifest.Some? ==> AllThere(fs, directories)
    ensures manifest.None? ==>
              || (exists i, j | 0 <= i < j < |mappings| :: Collide(mappings[i], mappings[j]))
              || (exists w :: w in files && FileRefused(fs, w))
              || (exists w :: w in directories && DirectoryRefused(fs, identity, mappings, w))
  {
    var roots := ResolveRoots(mappings);
    if roots.None? {
      return None, [], [];
    }
    var planner := new PathPlanner(fs, identity, roots.value);
    var planned := PlanDirectories(planner, mappings, directories);
    if planned.None? {
      return None, [], [];
    }
    ghost var before := planner.stagedFiles;
    var staged := PlanFiles(planner, mappings, files);
    if staged.None? {
      return None, [], [];
    }
    assert forall e | e in before :: e in planner.stagedFiles;
    return Some(planner.stagedFiles), planned.value, staged.value;
  }

  /** What the planner stages, the controller archives, the helper extracts and the answer confirms. */
  lemma PlannedIsAccepted(m: seq<Entry>, ms: seq<Member>)
    requires ManifestOk(m) && AllValid(m) && ArchiveOf(ms, m)
    ensures ArchiveOk(ms) && Manifests.Entries(Reads(ms)) == m
    ensures ResponseOk(Names(m, File), Names(m, Directory))
  {
    forall i | 0 <= i < |m|
      ensures PosixPath(m[i].destination)
    {
      assert ValidPath(m[i].destination);
      assert forall k | 0 <= k < |m[i].destination| :: Component(m[i].destination[k]);
    }
    ArchiveExactly(ms, m);
    ResponseExactly(m);
  }

  /** The rest of a walk, from here, ends where the whole walk ends. */
  predicate WalksTo(start: seq<Entry>, whole: Option<seq<Entry>>, now: seq<Entry>, rest: Option<seq<Entry>>) {
    (whole.None? <==> rest.None?) && (whole.Some? ==> now + rest.value == start + whole.value)
  }

  lemma WalksOn(start: seq<Entry>, whole: Option<seq<Entry>>, now: seq<Entry>, first: seq<Entry>,
                rest: Option<seq<Entry>>)
    requires WalksTo(start, whole, now, if rest.None? then None else Some(first + rest.value))
    ensures WalksTo(start, whole, now + first, rest)
  {
    if rest.Some? {
      AssocEntries(now, first, rest.value);
    }
  }

  lemma AssocEntries(a: seq<Entry>, b: seq<Entry>, c: seq<Entry>)
    ensures a + (b + c) == (a + b) + c
  {
    Assoc(a, b, c);
  }
}
