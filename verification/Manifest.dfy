/**
 * One staged manifest, checked three times: by the controller before it
 * archives (controller/staging.py), by the helper before it extracts
 * (helper/staging.py), and by the controller on the helper's answer
 * (protocol/responses.py).
 */
module Manifests {
  import opened Base

  /** The components of a relative POSIX path. */
  type Path = seq<string>

  datatype Kind = Directory | File

  datatype Entry = Entry(kind: Kind, destination: Path)

  const DOT: string := ['.']
  const DOT_DOT: string := ['.', '.']

  predicate Component(c: string) {
    c != [] && c != DOT && c != DOT_DOT && '/' !in c && '\0' !in c
  }

  predicate ValidPath(p: Path) {
    p != [] && forall i | 0 <= i < |p| :: Component(p[i])
  }

  /** A proper ancestor, among `path.parents`. */
  predicate Ancestor(a: Path, p: Path) {
    |a| < |p| && a == p[..|a|]
  }

  predicate NoFileAncestor(m: seq<Entry>) {
    forall i, j | 0 <= i < |m| && 0 <= j < |m| :: m[i].kind.File? ==> !Ancestor(m[i].destination, m[j].destination)
  }

  predicate DistinctDestinations(m: seq<Entry>) {
    forall i, j | 0 <= i < j < |m| :: m[i].destination != m[j].destination
  }

  /** What the controller requires of a manifest. */
  predicate ManifestOk(m: seq<Entry>) {
    DistinctDestinations(m) && NoFileAncestor(m)
  }

  predicate AllValid(m: seq<Entry>) {
    forall i | 0 <= i < |m| :: ValidPath(m[i].destination)
  }

  // Names: paths as text.

  function Join(p: Path): string {
    if |p| == 0 then [] else if |p| == 1 then p[0] else p[0] + (['/'] + Join(p[1..]))
  }

  /** str.split("/"): never empty. */
  function Split(s: string): (parts: seq<string>)
    ensures |parts| > 0
  {
    if s == [] then [[]]
    else
      var rest := Split(s[1..]);
      if s[0] == '/' then [[]] + rest else [[s[0]] + rest[0]] + rest[1..]
  }

  lemma {:induction false} SplitOne(c: string)
    requires '/' !in c
    ensures Split(c) == [c]
  {
    if c != [] {
      SplitOne(c[1..]);
      assert [c[0]] + c[1..] == c;
    }
  }

  lemma {:induction false} SplitFirst(c: string, rest: string)
    requires '/' !in c
    ensures Split(c + (['/'] + rest)) == [c] + Split(rest)
  {
    var s := c + (['/'] + rest);
    if c == [] {
      assert s == ['/'] + rest && s[1..] == rest;
    } else {
      SplitFirst(c[1..], rest);
      assert s[1..] == c[1..] + (['/'] + rest);
      assert [c[0]] + c[1..] == c;
    }
  }

  /** Splitting a joined path gives back its components. */
  lemma {:induction false} SplitJoin(p: Path)
    requires p != [] && forall i | 0 <= i < |p| :: '/' !in p[i]
    ensures Split(Join(p)) == p
    decreases |p|
  {
    if |p| == 1 {
      SplitOne(p[0]);
    } else {
      SplitJoin(p[1..]);
      SplitFirst(p[0], Join(p[1..]));
      assert [p[0]] + p[1..] == p;
    }
  }

  /** And joining a split name gives back the name: names and component lists are the same thing. */
  lemma {:induction false} JoinSplit(s: string)
    ensures Join(Split(s)) == s
    ensures forall i | 0 <= i < |Split(s)| :: '/' !in Split(s)[i]
    decreases |s|
  {
    if s != [] {
      JoinSplit(s[1..]);
      var rest := Split(s[1..]);
      if s[0] == '/' {
        assert ([[]] + rest)[1..] == rest;
        assert ['/'] + s[1..] == s;
      } else {
        JoinFirst([s[0]], rest);
        assert [s[0]] + s[1..] == s;
      }
    }
  }

  /** Text put before a joined path joins its first component. */
  lemma JoinFirst(c: string, p: Path)
    requires p != []
    ensures Join([c + p[0]] + p[1..]) == c + Join(p)
  {
    var q := [c + p[0]] + p[1..];
    if |p| > 1 {
      assert q[1..] == p[1..];
      Assoc(c, p[0], ['/'] + Join(p[1..]));
    }
  }

  predicate Plain(c: string) {
    c != [] && c != DOT
  }

  /** The components PurePosixPath keeps. */
  function Kept(parts: seq<string>): Path {
    if |parts| == 0 then [] else (if Plain(parts[0]) then [parts[0]] else []) + Kept(parts[1..])
  }

  lemma {:induction false} KeptAll(parts: seq<string>)
    requires forall i | 0 <= i < |parts| :: Plain(parts[i])
    ensures Kept(parts) == parts
    decreases |parts|
  {
    if |parts| > 0 {
      KeptAll(parts[1..]);
      assert [parts[0]] + parts[1..] == parts;
    }
  }

  predicate Absolute(name: string) {
    name != [] && name[0] == '/'
  }

  /** str(PurePosixPath(name)) for a relative name. */
  function Normal(name: string): string {
    var kept := Kept(Split(name));
    if kept == [] then DOT else Join(kept)
  }

  predicate GoodParts(name: string) {
    forall i | 0 <= i < |Split(name)| :: Split(name)[i] != [] && Split(name)[i] != DOT && Split(name)[i] != DOT_DOT
  }

  /** _valid_manifest_path. */
  predicate ValidName(name: string) {
    name != [] && '\0' !in name && !Absolute(name) && Normal(name) == name && GoodParts(name)
  }

  lemma {:induction false} JoinKeepsCharacters(p: Path, c: char)
    requires c != '/'
    ensures c in Join(p) <==> exists i | 0 <= i < |p| :: c in p[i]
    decreases |p|
  {
    if |p| > 1 {
      JoinKeepsCharacters(p[1..], c);
      assert forall i | 0 <= i < |p[1..]| :: p[1..][i] == p[i + 1];
      if exists i | 0 <= i < |p| :: c in p[i] {
        var i :| 0 <= i < |p| && c in p[i];
        assert i > 0 ==> c in p[1..][i - 1];
      }
    }
  }

  /** The name checks accept exactly the names of valid paths. */
  lemma NamesExactly(name: string)
    ensures ValidName(name) <==> ValidPath(Split(name))
    ensures ValidName(name) ==> Kept(Split(name)) == Split(name)
  {
    JoinSplit(name);
    JoinKeepsCharacters(Split(name), '\0');
    if GoodParts(name) {
      KeptAll(Split(name));
    }
    if ValidPath(Split(name)) {
      assert forall i | 0 <= i < |Split(name)| :: Component(Split(name)[i]);
    }
  }

  // The controller.

  /** controller/staging.py _validate_manifest: destinations first, then file ancestors. */
  method ValidateManifest(m: seq<Entry>) returns (files: seq<string>, directories: seq<string>, raised: bool)
    ensures raised <==> !ManifestOk(m)
    ensures !raised ==> files == Names(m, File) && directories == Names(m, Directory)
  {
    files, directories := [], [];
    var paths: set<Path> := {};
    var filePaths: set<Path> := {};
    for i := 0 to |m|
      invariant forall p :: p in paths <==> exists k | 0 <= k < i :: m[k].destination == p
      invariant forall p :: p in filePaths <==> exists k | 0 <= k < i :: m[k].kind.File? && m[k].destination == p
      invariant forall j, k | 0 <= j < k < i :: m[j].destination != m[k].destination
    {
      if m[i].destination in paths {
        ghost var k :| 0 <= k < i && m[k].destination == m[i].destination;
        return [], [], true;
      }
      paths := paths + {m[i].destination};
      if m[i].kind.File? {
        filePaths := filePaths + {m[i].destination};
      }
    }
    for i := 0 to |m|
      invariant forall j | 0 <= j < i :: !UnderFile(filePaths, m[j].destination)
    {
      var p := m[i].destination;
      for n := 0 to |p|
        invariant forall k | 0 <= k < n :: p[..k] !in filePaths
      {
        if p[..n] in filePaths {
          AncestorFound(m, i, p[..n]);
          return [], [], true;
        }
      }
    }
    NoneUnderFile(m, filePaths);
    return Names(m, File), Names(m, Directory), false;
  }

  predicate UnderFile(files: set<Path>, p: Path) {
    exists n | 0 <= n < |p| :: p[..n] in files
  }

  lemma AncestorFound(m: seq<Entry>, i: nat, a: Path)
    requires i < |m| && Ancestor(a, m[i].destination)
    requires exists k | 0 <= k < |m| :: m[k].kind.File? && m[k].destination == a
    ensures !ManifestOk(m)
  {
    var k :| 0 <= k < |m| && m[k].kind.File? && m[k].destination == a;
    assert m[k].kind.File? && Ancestor(m[k].destination, m[i].destination);
  }

  lemma NoneUnderFile(m: seq<Entry>, files: set<Path>)
    requires forall p :: p in files <==> exists k | 0 <= k < |m| :: m[k].kind.File? && m[k].destination == p
    requires forall j | 0 <= j < |m| :: !UnderFile(files, m[j].destination)
    ensures NoFileAncestor(m)
  {
    forall i, j | 0 <= i < |m| && 0 <= j < |m| && m[i].kind.File?
      ensures !Ancestor(m[i].destination, m[j].destination)
    {
      assert m[i].destination in files;
      var n := |m[i].destination|;
      if n < |m[j].destination| {
        assert m[j].destination[..n] !in files;
      }
    }
  }

  /** The names of one kind, in manifest order. */
  function Names(m: seq<Entry>, kind: Kind): seq<string> {
    if |m| == 0 then [] else (if m[0].kind == kind then [Join(m[0].destination)] else []) + Names(m[1..], kind)
  }

  // The helper.

  /** A tar member: its name, its type, and its size. */
  datatype MemberType = DirectoryType | RegularType | OtherType

  datatype Member = Member(name: string, kind: MemberType, size: nat)

  /** A directory's name may carry one trailing slash. */
  function MemberName(m: Member): string {
    if m.kind.DirectoryType? && m.name != [] && m.name[|m.name| - 1] == '/' then m.name[..|m.name| - 1] else m.name
  }

  /** valid_member, apart from duplicates: the member's path, or None where it raises. */
  function MemberPath(m: Member): Option<Path> {
    var name := MemberName(m);
    if name == [] || name == DOT || !GoodParts(name) || '\0' in name then None
    else if Absolute(name) || Normal(name) != name then None
    else if m.kind.OtherType? || (m.kind.DirectoryType? && m.size != 0) then None
    else Some(Kept(Split(name)))
  }

  function KindOf(m: Member): Kind {
    if m.kind.DirectoryType? then Directory else File
  }

  function EntryOf(m: Member): Option<Entry> {
    var p := MemberPath(m);
    if p.None? then None else Some(Entry(KindOf(m), p.value))
  }

  /** What each member of an archive reads as. */
  function Reads(ms: seq<Member>): seq<Option<Entry>>
    decreases |ms|
  {
    if |ms| == 0 then [] else Reads(ms[..|ms| - 1]) + [EntryOf(ms[|ms| - 1])]
  }

  /** The entries, when every member reads as one. */
  function Entries(rs: seq<Option<Entry>>): seq<Entry>
    requires forall i | 0 <= i < |rs| :: rs[i].Some?
  {
    seq(|rs|, i requires 0 <= i < |rs| => rs[i].value)
  }

  predicate ReadOk(rs: seq<Option<Entry>>) {
    (forall i | 0 <= i < |rs| :: rs[i].Some?) && ManifestOk(Entries(rs))
  }

  /** What the helper extracts: every member valid, none twice, no file above another member. */
  predicate ArchiveOk(ms: seq<Member>) {
    ReadOk(Reads(ms))
  }

  lemma {:induction false} ReadsPrefix(ms: seq<Member>, n: nat)
    requires n <= |ms|
    ensures |Reads(ms)| == |ms| && Reads(ms)[..n] == Reads(ms[..n])
    decreases |ms|
  {
    if |ms| > 0 {
      var front := ms[..|ms| - 1];
      ReadsPrefix(front, if n < |ms| then n else |ms| - 1);
      assert Reads(ms) == Reads(front) + [EntryOf(ms[|ms| - 1])];
      if n < |ms| {
        assert ms[..n] == front[..n];
        assert Reads(ms)[..n] == Reads(front)[..n];
      } else {
        assert ms[..n] == ms;
      }
    }
  }

  /** helper/staging.py valid_member, with the paths seen so far. */
  method ValidMember(m: Member, seen: set<Path>) returns (path: Option<Path>)
    ensures path.Some? ==> EntryOf(m) == Some(Entry(KindOf(m), path.value)) && path.value !in seen
    ensures path.None? ==> EntryOf(m).None? || EntryOf(m).value.destination in seen
  {
    var name := m.name;
    if m.kind.DirectoryType? && name != [] && name[|name| - 1] == '/' {
      name := name[..|name| - 1];
    }
    if name == [] || name == DOT || !GoodParts(name) || '\0' in name {
      return None;
    }
    if Absolute(name) || Normal(name) != name {
      return None;
    }
    var p := Kept(Split(name));
    if p in seen {
      return None;
    }
    if m.kind.OtherType? || (m.kind.DirectoryType? && m.size != 0) {
      return None;
    }
    return Some(p);
  }

  /** A duplicate or an unreadable member, once read, spoils the archive. */
  lemma SpoiledRead(rs: seq<Option<Entry>>, i: nat)
    requires i < |rs|
    requires rs[i].None? || exists k | 0 <= k < i :: rs[k].Some? && rs[k].value.destination == rs[i].value.destination
    ensures !ReadOk(rs)
  {
    if forall x | 0 <= x < |rs| :: rs[x].Some? {
      var k :| 0 <= k < i && rs[k].Some? && rs[k].value.destination == rs[i].value.destination;
      assert Entries(rs)[k].destination == Entries(rs)[i].destination;
    }
  }

  function Destinations(m: seq<Entry>): set<Path> {
    set e | e in m :: e.destination
  }

  lemma DestinationsSnoc(m: seq<Entry>, e: Entry)
    requires DistinctDestinations(m) && e.destination !in Destinations(m)
    ensures DistinctDestinations(m + [e])
    ensures Destinations(m + [e]) == Destinations(m) + {e.destination}
  {
    var n := m + [e];
    assert forall x :: x in n <==> x in m || x == e;
    forall i, j | 0 <= i < j < |n|
      ensures n[i].destination != n[j].destination
    {
      assert i < |m| && n[i] == m[i] && m[i] in m;
    }
  }

  /** Where each readable member's target resolves, links on disk included: strictly below the staging root. */
  predicate Contained(root: Path, resolve: Path -> Path, rs: seq<Option<Entry>>) {
    forall i | 0 <= i < |rs| && rs[i].Some? :: Ancestor(root, resolve(rs[i].value.destination))
  }

  /** Without links, every target is where it says. */
  lemma UnlinkedIsContained(root: Path, ms: seq<Member>)
    ensures Contained(root, p => root + p, Reads(ms))
  {
    ReadsPrefix(ms, |ms|);
    forall i | 0 <= i < |ms| && Reads(ms)[i].Some?
      ensures Ancestor(root, root + Reads(ms)[i].value.destination)
    {
      ReadAt(ms, i);
      assert Reads(ms)[i].value.destination != [];
    }
  }

  /** The first members read as these entries, and none twice. */
  ghost predicate ReadSoFar(all: seq<Option<Entry>>, entries: seq<Entry>) {
    && |entries| <= |all|
    && (forall k | 0 <= k < |entries| :: all[k] == Some(entries[k]))
    && DistinctDestinations(entries)
  }

  /** The next member spoils the archive: it reads as nothing, or as a destination already there. */
  lemma ReadStops(all: seq<Option<Entry>>, entries: seq<Entry>)
    requires ReadSoFar(all, entries) && |entries| < |all|
    requires all[|entries|].None? || all[|entries|].value.destination in Destinations(entries)
    ensures !ReadOk(all)
  {
    if all[|entries|].Some? {
      var e :| e in entries && e.destination == all[|entries|].value.destination;
      var k :| 0 <= k < |entries| && entries[k] == e;
      assert all[k] == Some(e);
    }
    SpoiledRead(all, |entries|);
  }

  lemma ReadOn(all: seq<Option<Entry>>, entries: seq<Entry>, e: Entry)
    requires ReadSoFar(all, entries) && |entries| < |all| && all[|entries|] == Some(e)
    requires e.destination !in Destinations(entries)
    ensures ReadSoFar(all, entries + [e])
    ensures Destinations(entries + [e]) == Destinations(entries) + {e.destination}
  {
    DestinationsSnoc(entries, e);
  }

  /** All members read: what is left to check are the file ancestors. */
  lemma AllRead(all: seq<Option<Entry>>, entries: seq<Entry>)
    requires ReadSoFar(all, entries) && |entries| == |all|
    ensures (forall k | 0 <= k < |all| :: all[k].Some?) && entries == Entries(all)
    ensures ReadOk(all) <==> NoFileAncestor(entries)
  {
    assert entries == Entries(all);
  }

  /**
   * helper/staging.py _validate_archive: the whole archive, before anything is
   * extracted. `resolve` gives the canonical path of a target below the root.
   */
  method ValidateArchive(ms: seq<Member>, root: Path, resolve: Path -> Path)
    returns (entries: seq<Entry>, raised: bool)
    ensures raised <==> !ArchiveOk(ms) || !Contained(root, resolve, Reads(ms))
    ensures !raised ==> entries == Entries(Reads(ms))
  {
    entries := [];
    var seen: set<Path> := {};
    ghost var all := Reads(ms);
    ReadsPrefix(ms, |ms|);
    for i := 0 to |ms|
      invariant |entries| == i && seen == Destinations(entries)
      invariant ReadSoFar(all, entries)
      invariant forall k | 0 <= k < i :: Ancestor(root, resolve(entries[k].destination))
    {
      ReadAt(ms, i);
      var path := ValidMember(ms[i], seen);
      if path.None? {
        ReadStops(all, entries);
        return [], true;
      }
      if !Ancestor(root, resolve(path.value)) {
        assert !Contained(root, resolve, all) by { assert all[i].Some?; }
        return [], true;
      }
      var entry := Entry(KindOf(ms[i]), path.value);
      ReadOn(all, entries, entry);
      seen := seen + {path.value};
      entries := entries + [entry];
    }
    AllRead(all, entries);
    return entries, !NoFileAncestor(entries);
  }

  lemma ReadAt(ms: seq<Member>, i: nat)
    requires i < |ms|
    ensures |Reads(ms)| == |ms| && Reads(ms)[i] == EntryOf(ms[i])
  {
    ReadsPrefix(ms, i + 1);
    assert Reads(ms)[i] == Reads(ms[..i + 1])[i];
    ReadsPrefix(ms[..i], i);
    assert ms[..i + 1][..i] == ms[..i];
  }

  /** The members the controller archives for a manifest; a directory name may end in a slash. */
  function MemberOf(e: Entry, slash: bool, size: nat): Member {
    if e.kind.Directory? then Member(Join(e.destination) + if slash then ['/'] else [], DirectoryType, 0)
    else Member(Join(e.destination), RegularType, size)
  }

  /** The parts of a relative PurePosixPath: never empty, dot or slashed, but perhaps dot-dot or with a NUL. */
  predicate PosixPath(p: Path) {
    p != [] && forall i | 0 <= i < |p| :: Plain(p[i]) && '/' !in p[i]
  }

  /** Whether the name of a POSIX path passes the name checks: exactly when the path is valid. */
  lemma PosixNames(p: Path)
    requires PosixPath(p)
    ensures Split(Join(p)) == p && Kept(p) == p
    ensures ValidName(Join(p)) <==> ValidPath(p)
  {
    assert forall i | 0 <= i < |p| :: Plain(p[i]) && '/' !in p[i];
    SplitJoin(p);
    KeptAll(p);
    NamesExactly(Join(p));
  }

  /** The trailing slash of a directory's name does not matter. */
  lemma MemberNameIs(e: Entry, slash: bool, size: nat)
    requires PosixPath(e.destination)
    ensures MemberName(MemberOf(e, slash, size)) == Join(e.destination)
    ensures Join(e.destination) != []
  {
    var name := Join(e.destination);
    JoinEnds(e.destination);
    assert (name + ['/'])[..|name|] == name;
    assert name + [] == name;
  }

  /** An entry survives archiving, with its kind and path, exactly when its path is valid. */
  lemma EntryRoundTrip(e: Entry, slash: bool, size: nat)
    requires PosixPath(e.destination)
    ensures EntryOf(MemberOf(e, slash, size)) == if ValidPath(e.destination) then Some(e) else None
  {
    MemberNameIs(e, slash, size);
    PosixNames(e.destination);
    if Join(e.destination) == DOT {
      SplitOne(DOT);
    }
  }

  /** A path's name does not end in a slash. */
  lemma {:induction false} JoinEnds(p: Path)
    requires PosixPath(p)
    ensures Join(p) != [] && Join(p)[|Join(p)| - 1] != '/'
    decreases |p|
  {
    assert Plain(p[0]) && '/' !in p[0];
    if |p| > 1 {
      assert forall i | 0 <= i < |p[1..]| :: p[1..][i] == p[i + 1];
      JoinEnds(p[1..]);
    }
  }

  predicate AllPosix(m: seq<Entry>) {
    forall i | 0 <= i < |m| :: PosixPath(m[i].destination)
  }

  /** The archive of a manifest: one member per entry, whatever the sizes and trailing slashes. */
  predicate ArchiveOf(ms: seq<Member>, m: seq<Entry>) {
    && |ms| == |m|
    && forall i | 0 <= i < |m| :: exists slash: bool :: ms[i] == MemberOf(m[i], slash, ms[i].size)
  }

  /** The helper accepts the archive of a manifest exactly when the controller would, and every path is valid. */
  lemma ArchiveExactly(ms: seq<Member>, m: seq<Entry>)
    requires AllPosix(m) && ArchiveOf(ms, m)
    ensures ArchiveOk(ms) <==> ManifestOk(m) && AllValid(m)
    ensures ArchiveOk(ms) ==> Entries(Reads(ms)) == m
  {
    ReadsPrefix(ms, |ms|);
    var all := Reads(ms);
    forall i | 0 <= i < |m|
      ensures all[i] == if ValidPath(m[i].destination) then Some(m[i]) else None
    {
      ReadAt(ms, i);
      var slash: bool :| ms[i] == MemberOf(m[i], slash, ms[i].size);
      EntryRoundTrip(m[i], slash, ms[i].size);
    }
    if AllValid(m) {
      assert Entries(all) == m;
    } else {
      var i :| 0 <= i < |m| && !ValidPath(m[i].destination);
      assert all[i].None?;
    }
  }

  // The answer.

  /** protocol/responses.py: the path conditions of a STAGED response. */
  predicate ResponseOk(files: seq<string>, directories: seq<string>) {
    && NamesOk(files) && NamesOk(directories)
    && Distinct(files) && Distinct(directories)
    && Apart(files, directories)
    && !ListsFileAncestor(files, files) && !ListsFileAncestor(files, directories)
  }

  predicate ListsFileAncestor(files: seq<string>, paths: seq<string>) {
    exists i, j | 0 <= i < |files| && 0 <= j < |paths| :: Ancestor(Kept(Split(files[i])), Kept(Split(paths[j])))
  }

  /** The names of a kind are those of its entries. */
  lemma {:induction false} NamesMembers(m: seq<Entry>, kind: Kind)
    ensures forall x | x in Names(m, kind) :: exists i :: 0 <= i < |m| && m[i].kind == kind && Join(m[i].destination) == x
    ensures forall i | 0 <= i < |m| && m[i].kind == kind :: Join(m[i].destination) in Names(m, kind)
    decreases |m|
  {
    if |m| > 0 {
      NamesMembers(m[1..], kind);
      assert forall i | 0 <= i < |m[1..]| :: m[1..][i] == m[i + 1];
      forall x | x in Names(m, kind)
        ensures exists i :: 0 <= i < |m| && m[i].kind == kind && Join(m[i].destination) == x
      {
        if m[0].kind == kind && x == Join(m[0].destination) {
        } else {
          var i :| 0 <= i < |m[1..]| && m[1..][i].kind == kind && Join(m[1..][i].destination) == x;
          assert m[i + 1].kind == kind && Join(m[i + 1].destination) == x;
        }
      }
    }
  }

  /** Equal names are equal paths. */
  lemma JoinInjective(p: Path, q: Path)
    requires PosixPath(p) && PosixPath(q)
    ensures Join(p) == Join(q) <==> p == q
  {
    PosixNames(p);
    PosixNames(q);
  }

  predicate DistinctOf(m: seq<Entry>, kind: Kind) {
    forall i, j | 0 <= i < j < |m| :: m[i].kind == kind && m[j].kind == kind ==> m[i].destination != m[j].destination
  }

  lemma {:induction false} NamesDistinct(m: seq<Entry>, kind: Kind)
    requires AllPosix(m)
    ensures Distinct(Names(m, kind)) <==> DistinctOf(m, kind)
    decreases |m|
  {
    if |m| > 0 {
      var rest := m[1..];
      assert forall i | 0 <= i < |rest| :: rest[i] == m[i + 1];
      NamesDistinct(rest, kind);
      NamesMembers(rest, kind);
      if m[0].kind == kind {
        DistinctCons(Join(m[0].destination), Names(rest, kind));
        forall j | 0 <= j < |rest| && rest[j].kind == kind
          ensures m[0].destination == rest[j].destination <==> Join(m[0].destination) == Join(rest[j].destination)
        {
          assert PosixPath(m[j + 1].destination);
          JoinInjective(m[0].destination, rest[j].destination);
        }
        DistinctOfCons(m, kind);
      } else {
        assert Names(m, kind) == Names(rest, kind);
        DistinctOfCons(m, kind);
      }
    }
  }

  lemma DistinctCons(x: string, xs: seq<string>)
    ensures Distinct([x] + xs) <==> x !in xs && Distinct(xs)
  {
    var all := [x] + xs;
    assert forall i | 0 <= i < |xs| :: all[i + 1] == xs[i];
    if x in xs {
      var i :| 0 <= i < |xs| && xs[i] == x;
      assert all[0] == all[i + 1];
    }
    if Distinct(all) {
      forall i, j | 0 <= i < j < |xs|
        ensures xs[i] != xs[j]
      {
        assert all[i + 1] != all[j + 1];
      }
    }
  }

  lemma DistinctOfCons(m: seq<Entry>, kind: Kind)
    requires |m| > 0
    ensures DistinctOf(m, kind) <==>
            && DistinctOf(m[1..], kind)
            && (m[0].kind == kind ==>
                  forall j | 0 <= j < |m[1..]| :: m[1..][j].kind == kind ==> m[1..][j].destination != m[0].destination)
  {
    var rest := m[1..];
    assert forall i | 0 <= i < |rest| :: rest[i] == m[i + 1];
    if DistinctOf(m, kind) {
      forall i, j | 0 <= i < j < |rest| && rest[i].kind == kind && rest[j].kind == kind
        ensures rest[i].destination != rest[j].destination
      {
        assert m[i + 1].destination != m[j + 1].destination;
      }
    }
  }

  lemma ListedMeansAncestor(m: seq<Entry>, kind: Kind)
    requires AllPosix(m) && ListsFileAncestor(Names(m, File), Names(m, kind))
    ensures exists i, j | 0 <= i < |m| && 0 <= j < |m| ::
              m[i].kind.File? && m[j].kind == kind && Ancestor(m[i].destination, m[j].destination)
  {
    NamesMembers(m, File);
    NamesMembers(m, kind);
    var files, names := Names(m, File), Names(m, kind);
    var x, y :| 0 <= x < |files| && 0 <= y < |names| && Ancestor(Kept(Split(files[x])), Kept(Split(names[y])));
    assert files[x] in files && names[y] in names;
    var i :| 0 <= i < |m| && m[i].kind.File? && Join(m[i].destination) == files[x];
    var j :| 0 <= j < |m| && m[j].kind == kind && Join(m[j].destination) == names[y];
    PosixNames(m[i].destination);
    PosixNames(m[j].destination);
  }

  lemma AncestorMeansListed(m: seq<Entry>, kind: Kind, i: nat, j: nat)
    requires AllPosix(m) && i < |m| && j < |m|
    requires m[i].kind.File? && m[j].kind == kind && Ancestor(m[i].destination, m[j].destination)
    ensures ListsFileAncestor(Names(m, File), Names(m, kind))
  {
    NamesMembers(m, File);
    NamesMembers(m, kind);
    var files, names := Names(m, File), Names(m, kind);
    PosixNames(m[i].destination);
    PosixNames(m[j].destination);
    var x :| 0 <= x < |files| && files[x] == Join(m[i].destination);
    var y :| 0 <= y < |names| && names[y] == Join(m[j].destination);
    assert Ancestor(Kept(Split(files[x])), Kept(Split(names[y])));
  }

  /** Listed ancestors are manifest ancestors. */
  lemma ListedAncestors(m: seq<Entry>, kind: Kind)
    requires AllPosix(m)
    ensures ListsFileAncestor(Names(m, File), Names(m, kind)) <==>
            exists i, j | 0 <= i < |m| && 0 <= j < |m| ::
              m[i].kind.File? && m[j].kind == kind && Ancestor(m[i].destination, m[j].destination)
  {
    if ListsFileAncestor(Names(m, File), Names(m, kind)) {
      ListedMeansAncestor(m, kind);
    }
    forall i, j | 0 <= i < |m| && 0 <= j < |m|
                  && m[i].kind.File? && m[j].kind == kind && Ancestor(m[i].destination, m[j].destination)
      ensures ListsFileAncestor(Names(m, File), Names(m, kind))
    {
      AncestorMeansListed(m, kind, i, j);
    }
  }

  /** No name is listed twice over, as a file and as a directory. */
  predicate Apart(files: seq<string>, directories: seq<string>) {
    forall i, j | 0 <= i < |files| && 0 <= j < |directories| :: files[i] != directories[j]
  }

  predicate KindsApart(m: seq<Entry>) {
    forall i, j | 0 <= i < |m| && 0 <= j < |m| && m[i].kind.File? && m[j].kind.Directory? ::
      m[i].destination != m[j].destination
  }

  lemma NamesApart(m: seq<Entry>)
    requires AllPosix(m)
    ensures Apart(Names(m, File), Names(m, Directory)) <==> KindsApart(m)
  {
    NamesMembers(m, File);
    NamesMembers(m, Directory);
    var files, directories := Names(m, File), Names(m, Directory);
    if !KindsApart(m) {
      var i, j :| 0 <= i < |m| && 0 <= j < |m| && m[i].kind.File? && m[j].kind.Directory?
                  && m[i].destination == m[j].destination;
      var x :| 0 <= x < |files| && files[x] == Join(m[i].destination);
      var y :| 0 <= y < |directories| && directories[y] == Join(m[j].destination);
      assert files[x] == directories[y];
    }
    if !Apart(files, directories) {
      var x, y :| 0 <= x < |files| && 0 <= y < |directories| && files[x] == directories[y];
      assert files[x] in files && directories[y] in directories;
      var i :| 0 <= i < |m| && m[i].kind.File? && Join(m[i].destination) == files[x];
      var j :| 0 <= j < |m| && m[j].kind.Directory? && Join(m[j].destination) == directories[y];
      JoinInjective(m[i].destination, m[j].destination);
    }
  }

  predicate NamesOk(names: seq<string>) {
    forall i | 0 <= i < |names| :: ValidName(names[i])
  }

  predicate ValidOf(m: seq<Entry>, kind: Kind) {
    forall i | 0 <= i < |m| && m[i].kind == kind :: ValidPath(m[i].destination)
  }

  lemma NamesValid(m: seq<Entry>, kind: Kind)
    requires AllPosix(m)
    ensures NamesOk(Names(m, kind)) <==> ValidOf(m, kind)
  {
    NamesMembers(m, kind);
    var names := Names(m, kind);
    if !ValidOf(m, kind) {
      var i :| 0 <= i < |m| && m[i].kind == kind && !ValidPath(m[i].destination);
      var x :| 0 <= x < |names| && names[x] == Join(m[i].destination);
      PosixNames(m[i].destination);
      assert !ValidName(names[x]);
    }
    if !NamesOk(names) {
      var x :| 0 <= x < |names| && !ValidName(names[x]);
      assert names[x] in names;
      var i :| 0 <= i < |m| && m[i].kind == kind && Join(m[i].destination) == names[x];
      PosixNames(m[i].destination);
    }
  }

  /** Distinctness over a manifest is distinctness within each kind and between the two. */
  lemma DistinctByKind(m: seq<Entry>)
    ensures DistinctDestinations(m) <==>
            && DistinctOf(m, File) && DistinctOf(m, Directory)
            && KindsApart(m)
  {
  }

  /** The helper's answer about a manifest is accepted exactly when the manifest is, and every path is valid. */
  lemma ResponseExactly(m: seq<Entry>)
    requires AllPosix(m)
    ensures ResponseOk(Names(m, File), Names(m, Directory)) <==> ManifestOk(m) && AllValid(m)
  {
    NamesValid(m, File);
    NamesValid(m, Directory);
    NamesDistinct(m, File);
    NamesDistinct(m, Directory);
    NamesApart(m);
    DistinctByKind(m);
    ListedAncestors(m, File);
    ListedAncestors(m, Directory);
  }

  /**
   * The three checks agree. For every manifest of POSIX paths, the helper
   * accepts its archive if and only if the controller accepts the helper's
   * answer, and both accept exactly the manifests that the controller's own
   * check passes and whose paths are all valid; that check alone misses
   * dot-dot and NUL.
   */
  lemma ChecksAgree(ms: seq<Member>, m: seq<Entry>)
    requires AllPosix(m) && ArchiveOf(ms, m)
    ensures ArchiveOk(ms) <==> ResponseOk(Names(m, File), Names(m, Directory))
    ensures ArchiveOk(ms) <==> ManifestOk(m) && AllValid(m)
    ensures AllValid(m) ==> (ManifestOk(m) <==> ArchiveOk(ms))
  {
    ArchiveExactly(ms, m);
    ResponseExactly(m);
  }

  /** A NUL in a destination passes the controller's first check and neither of the others. */
  lemma NulIsCaughtLate(size: nat)
    ensures
      var m := [Entry(File, [['a', '\0']])];
      && AllPosix(m) && ManifestOk(m)
      && !ArchiveOk([MemberOf(m[0], false, size)])
      && !ResponseOk(Names(m, File), Names(m, Directory))
  {
    var m := [Entry(File, [['a', '\0']])];
    assert '\0' in m[0].destination[0];
    assert !ValidPath(m[0].destination);
    var ms := [MemberOf(m[0], false, size)];
    assert ms[0] == MemberOf(m[0], false, ms[0].size);
    ChecksAgree(ms, m);
  }
}
