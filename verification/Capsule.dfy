/**
 * The recovery capsule's copy walk: top-down over a symlink-free tree, pruning protected
 * directories, skipping protected files and sources that an earlier section already copied.
 */
module Capsule {
  import opened Common
  import opened Paths

  datatype Node = File | Dir(entries: seq<Entry>)
  datatype Entry = Entry(name: Name, node: Node)

  /** `_is_protected`, on the texts of the resolved paths. */
  predicate Protected(p: Path, shields: seq<Path>) {
    exists i :: 0 <= i < |shields| && PathRelation(PathText(p), PathText(shields[i])) in {Equal, Inside}
  }

  // ---- reference: the unpruned walk, then one pass that filters ----

  function FilesOf(p: Path, es: seq<Entry>): seq<Path> {
    if es == [] then []
    else (if es[0].node.File? then [p + [es[0].name]] else []) + FilesOf(p, es[1..])
  }

  /** Every file below the directory, in `os.walk` order: a directory's own files come first. */
  function Walk(p: Path, es: seq<Entry>): seq<Path>
    decreases es, 1
  {
    FilesOf(p, es) + WalkDirs(p, es)
  }

  function WalkDirs(p: Path, es: seq<Entry>): seq<Path>
    decreases es, 0
  {
    if es == [] then []
    else (if es[0].node.Dir? then Walk(p + [es[0].name], es[0].node.entries) else [])
         + WalkDirs(p, es[1..])
  }

  function WalkNode(p: Path, source: Option<Node>): seq<Path> {
    match source
    case None => []
    case Some(File) => [p]
    case Some(Dir(es)) => Walk(p, es)
  }

  /** The copies once each listed file that is neither protected nor already copied is copied. */
  function Copied(done: seq<Path>, shields: seq<Path>, files: seq<Path>): seq<Path>
    decreases files
  {
    if files == [] then done
    else
      var f := files[0];
      Copied(if Protected(f, shields) || f in done then done else done + [f], shields, files[1..])
  }

  // ---- the pruned walk ----

  datatype Frame = Frame(path: Path, entries: seq<Entry>)

  /** The subdirectories that survive the in-place pruning of `directories`. */
  function KeptDirs(p: Path, es: seq<Entry>, shields: seq<Path>): seq<Frame> {
    if es == [] then []
    else
      var e := es[0];
      (if e.node.Dir? && !Protected(p + [e.name], shields)
       then [Frame(p + [e.name], e.node.entries)] else [])
      + KeptDirs(p, es[1..], shields)
  }

  function Pending(work: seq<Frame>): seq<Path> {
    if work == [] then [] else Walk(work[0].path, work[0].entries) + Pending(work[1..])
  }

  function Size(es: seq<Entry>): nat {
    if es == [] then 1
    else (match es[0].node case File => 0 case Dir(sub) => Size(sub)) + Size(es[1..])
  }

  function Load(work: seq<Frame>): nat {
    if work == [] then 0 else Size(work[0].entries) + Load(work[1..])
  }

  predicate NoDuplicates<T(==)>(s: seq<T>) {
    forall i, j :: 0 <= i < j < |s| ==> s[i] != s[j]
  }

  class CapsuleBuilder {
    const shields: seq<Path>
    /** Keys of the sources already copied. */
    var copiedSources: set<string>
    /** What was copied, in order. */
    var copies: seq<Path>

    /** The capsule itself is protected, and the archive if there is one. */
    constructor (capsule: Path, archive: Option<Path>)
      ensures Valid() && copies == []
      ensures shields == match archive case None => [capsule] case Some(path) => [capsule, path]
    {
      shields := if archive.None? then [capsule] else [capsule, archive.value];
      copiedSources := {};
      copies := [];
    }

    ghost predicate Valid()
      reads this
    {
      && NoDuplicates(copies)
      && copiedSources == set c | c in copies :: PathText(c)
    }

    method CopyFile(f: Path) returns (copied: bool)
      requires Valid()
      modifies this
      ensures Valid()
      ensures copied <==> !Protected(f, shields) && f !in old(copies)
      ensures copies == if copied then old(copies) + [f] else old(copies)
    {
      KeyDecides(copies, f);
      copied := !Protected(f, shields) && PathText(f) !in copiedSources;
      if copied {
        copiedSources := copiedSources + {PathText(f)};
        copies := copies + [f];
      }
    }

    /** The body of one `os.walk` iteration. */
    method CopyDirectory(p: Path, es: seq<Entry>) returns (copied: bool)
      requires Valid()
      modifies this
      ensures Valid()
      ensures copies == Copied(old(copies), shields, FilesOf(p, es))
      ensures copied <==> copies != old(copies)
    {
      copied := false;
      var i := 0;
      while i < |es|
        invariant 0 <= i <= |es|
        invariant Valid()
        invariant Copied(copies, shields, FilesOf(p, es[i..])) == Copied(old(copies), shields, FilesOf(p, es))
        invariant old(copies) <= copies
        invariant copied <==> copies != old(copies)
      {
        DirectoryStep(copies, shields, p, es, i);
        if es[i].node.File? {
          var one := CopyFile(p + [es[i].name]);
          copied := copied || one;
        }
        i := i + 1;
      }
    }

    method CopyTree(p: Path, source: Option<Node>) returns (copied: bool)
      requires Valid()
      modifies this
      ensures Valid()
      ensures copies == if p == [] && [] in shields then old(copies)
                        else Copied(old(copies), shields, WalkNode(p, source))
      ensures copied <==> copies != old(copies)
    {
      ProtectedMeaning(p, shields);
      if Protected(p, shields) {
        if p != [] {
          WalkNodeBelow(p, source);
          NothingToCopy(copies, shields, p, WalkNode(p, source));
        }
        return false;
      }
      match source
      case None =>
        copied := false;
      case Some(File) =>
        copied := CopyFile(p);
      case Some(Dir(es)) =>
        copied := false;
        var work := [Frame(p, es)];
        assert Pending(work) == Walk(p, es);
        while work != []
          invariant Valid()
          invariant Copied(copies, shields, Pending(work)) == Copied(old(copies), shields, Walk(p, es))
          invariant old(copies) <= copies
          invariant copied <==> copies != old(copies)
          decreases Load(work)
        {
          var f := work[0];
          Visit(copies, shields, work);
          VisitShrinks(shields, work);
          CopiedExtends(copies, shields, FilesOf(f.path, f.entries));
          var any := CopyDirectory(f.path, f.entries);
          var kept := KeptDirs(f.path, f.entries, shields);
          copied := copied || any;
          work := kept + work[1..];
        }
    }

    /** Every child of the durable root but the capsule folder. */
    method CapturePersistRoot(root: Path, children: seq<Entry>)
      requires Valid()
      modifies this
      ensures Valid()
      ensures copies == Copied(old(copies), shields, Listing(PersistSections(root, children), shields))
    {
      var i := 0;
      while i < |children|
        invariant 0 <= i <= |children|
        invariant Valid()
        invariant Copied(copies, shields, Listing(PersistSections(root, children[i..]), shields))
               == Copied(old(copies), shields, Listing(PersistSections(root, children), shields))
      {
        var child := children[i];
        PersistStep(copies, shields, root, children, i);
        if !CapsulesName(child.name) {
          var _ := CopyTree(root + [child.name], Some(child.node));
        }
        i := i + 1;
      }
    }

    /** One call per configured source, sharing the set of copied keys. */
    method CaptureSources(sources: seq<(Path, Option<Node>)>)
      requires Valid()
      modifies this
      ensures Valid()
      ensures copies == Copied(old(copies), shields, Listing(sources, shields))
    {
      var i := 0;
      while i < |sources|
        invariant 0 <= i <= |sources|
        invariant Valid()
        invariant Copied(copies, shields, Listing(sources[i..], shields))
               == Copied(old(copies), shields, Listing(sources, shields))
      {
        SectionStep(copies, shields, sources, i);
        var _ := CopyTree(sources[i].0, sources[i].1);
        i := i + 1;
      }
    }

    /** The durable root, if there is one, then the configured sources. */
    method CaptureState(root: Path, children: Option<seq<Entry>>, sources: seq<(Path, Option<Node>)>)
      requires Valid()
      modifies this
      ensures Valid()
      ensures copies == Copied(old(copies), shields, Listing(Sections(root, children, sources), shields))
    {
      if children.Some? {
        SectionsSplit(copies, shields, PersistSections(root, children.value), sources);
        CapturePersistRoot(root, children.value);
      }
      CaptureSources(sources);
    }
  }

  /** name.casefold() == "capsules": the letters in either case, and the long s for an s. */
  predicate CapsulesName(name: Name) {
    |name| == 8 && forall i :: 0 <= i < 8 ==> FoldsTo(name[i], "capsules"[i])
  }

  /** Written out, letter by letter. */
  lemma {:induction false} CapsulesNameIs(name: Name)
    ensures CapsulesName(name) <==>
      && |name| == 8
      && name[0] in {'c', 'C'} && name[1] in {'a', 'A'} && name[2] in {'p', 'P'} && name[3] in {'s', 'S', '\U{17f}'}
      && name[4] in {'u', 'U'} && name[5] in {'l', 'L'} && name[6] in {'e', 'E'} && name[7] in {'s', 'S', '\U{17f}'}
  {
  }

  predicate FoldsTo(c: char, letter: char) {
    c == letter || c as int + 32 == letter as int || (letter == 's' && c == '\U{17f}')
  }

  function PersistSections(root: Path, children: seq<Entry>): seq<(Path, Option<Node>)> {
    if children == [] then []
    else (if CapsulesName(children[0].name) then [] else [(root + [children[0].name], Some(children[0].node))])
         + PersistSections(root, children[1..])
  }

  function Sections(root: Path, children: Option<seq<Entry>>, sources: seq<(Path, Option<Node>)>): seq<(Path, Option<Node>)> {
    if children.None? then sources else PersistSections(root, children.value) + sources
  }

  lemma {:induction false} ListingAppend(a: seq<(Path, Option<Node>)>, b: seq<(Path, Option<Node>)>, shields: seq<Path>)
    ensures Listing(a + b, shields) == Listing(a, shields) + Listing(b, shields)
  {
    if a == [] {
      assert a + b == b;
    } else {
      assert (a + b)[1..] == a[1..] + b;
      ListingAppend(a[1..], b, shields);
    }
  }

  lemma {:induction false} NextSection(
    done: seq<Path>, shields: seq<Path>, section: (Path, Option<Node>), rest: seq<(Path, Option<Node>)>)
    ensures Copied(done, shields, Listing([section] + rest, shields))
         == Copied(Copied(done, shields, SectionFiles(section, shields)), shields, Listing(rest, shields))
  {
    assert ([section] + rest)[1..] == rest;
    CopiedAppend(done, shields, SectionFiles(section, shields), Listing(rest, shields));
  }

  lemma {:induction false} SectionStep(done: seq<Path>, shields: seq<Path>, sources: seq<(Path, Option<Node>)>, i: nat)
    requires i < |sources|
    ensures Copied(done, shields, Listing(sources[i..], shields))
         == Copied(Copied(done, shields, SectionFiles(sources[i], shields)), shields, Listing(sources[i + 1..], shields))
  {
    assert sources[i..] == [sources[i]] + sources[i + 1..];
    NextSection(done, shields, sources[i], sources[i + 1..]);
  }

  lemma {:induction false} PersistStep(done: seq<Path>, shields: seq<Path>, root: Path, children: seq<Entry>, i: nat)
    requires i < |children|
    ensures Copied(done, shields, Listing(PersistSections(root, children[i..]), shields))
         == Copied(if CapsulesName(children[i].name) then done
                   else Copied(done, shields, SectionFiles((root + [children[i].name], Some(children[i].node)), shields)),
                   shields, Listing(PersistSections(root, children[i + 1..]), shields))
  {
    var rest := PersistSections(root, children[i + 1..]);
    assert children[i..][1..] == children[i + 1..] && children[i..][0] == children[i];
    if CapsulesName(children[i].name) {
      assert PersistSections(root, children[i..]) == rest;
    } else {
      NextSection(done, shields, (root + [children[i].name], Some(children[i].node)), rest);
    }
  }

  lemma {:induction false} SectionsSplit(
    done: seq<Path>, shields: seq<Path>, a: seq<(Path, Option<Node>)>, b: seq<(Path, Option<Node>)>)
    ensures Copied(done, shields, Listing(a + b, shields))
         == Copied(Copied(done, shields, Listing(a, shields)), shields, Listing(b, shields))
  {
    ListingAppend(a, b, shields);
    CopiedAppend(done, shields, Listing(a, shields), Listing(b, shields));
  }

  /** What an unpruned walk of the section lists; a protected root hides the whole section. */
  function SectionFiles(section: (Path, Option<Node>), shields: seq<Path>): seq<Path> {
    if section.0 == [] && [] in shields then [] else WalkNode(section.0, section.1)
  }

  function Listing(sources: seq<(Path, Option<Node>)>, shields: seq<Path>): seq<Path> {
    if sources == [] then [] else SectionFiles(sources[0], shields) + Listing(sources[1..], shields)
  }

  // ---- the filtering pass ----

  lemma {:induction false} KeyDecides(copies: seq<Path>, f: Path)
    ensures PathText(f) in (set c | c in copies :: PathText(c)) <==> f in copies
  {
    if PathText(f) in (set c | c in copies :: PathText(c)) {
      var c :| c in copies && PathText(c) == PathText(f);
      PathTextInjective(c, f);
    }
  }

  lemma {:induction false} CopyOne(done: seq<Path>, shields: seq<Path>, f: Path, rest: seq<Path>)
    ensures Copied(done, shields, [f] + rest)
         == Copied(if Protected(f, shields) || f in done then done else done + [f], shields, rest)
  {
    assert ([f] + rest)[1..] == rest;
  }

  function WithEntry(done: seq<Path>, shields: seq<Path>, p: Path, e: Entry): seq<Path> {
    var f := p + [e.name];
    if e.node.File? && !Protected(f, shields) && f !in done then done + [f] else done
  }

  /** What one entry of a directory adds. */
  lemma {:induction false} DirectoryStep(done: seq<Path>, shields: seq<Path>, p: Path, es: seq<Entry>, i: nat)
    requires i < |es|
    ensures Copied(done, shields, FilesOf(p, es[i..])) == Copied(WithEntry(done, shields, p, es[i]), shields, FilesOf(p, es[i + 1..]))
  {
    assert es[i..][1..] == es[i + 1..] && es[i..][0] == es[i];
    if es[i].node.File? {
      CopyOne(done, shields, p + [es[i].name], FilesOf(p, es[i + 1..]));
    } else {
      assert FilesOf(p, es[i..]) == FilesOf(p, es[i + 1..]);
    }
  }

  lemma {:induction false} CopiedAppend(done: seq<Path>, shields: seq<Path>, a: seq<Path>, b: seq<Path>)
    ensures Copied(done, shields, a + b) == Copied(Copied(done, shields, a), shields, b)
    decreases a
  {
    if a == [] {
      assert a + b == b;
    } else {
      assert (a + b)[1..] == a[1..] + b;
      var f := a[0];
      CopiedAppend(if Protected(f, shields) || f in done then done else done + [f], shields, a[1..], b);
    }
  }

  lemma {:induction false} CopiedExtends(done: seq<Path>, shields: seq<Path>, files: seq<Path>)
    ensures done <= Copied(done, shields, files)
    decreases files
  {
    if files != [] {
      var f := files[0];
      CopiedExtends(if Protected(f, shields) || f in done then done else done + [f], shields, files[1..]);
    }
  }

  /** The pass adds the listed, unprotected files, each once, and nothing else. */
  lemma {:induction false} CopiedExactly(done: seq<Path>, shields: seq<Path>, files: seq<Path>)
    requires NoDuplicates(done)
    ensures NoDuplicates(Copied(done, shields, files))
    ensures forall f :: f in Copied(done, shields, files) <==> f in done || (f in files && !Protected(f, shields))
    decreases files
  {
    if files != [] {
      var f := files[0];
      CopiedExactly(if Protected(f, shields) || f in done then done else done + [f], shields, files[1..]);
    }
  }

  // ---- why pruning loses nothing ----

  /** `q` shields `p`, read on path components: a root shields nothing but itself. */
  predicate Shields(q: Path, p: Path) {
    q <= p && (q == [] ==> p == [])
  }

  lemma {:induction false} ShieldsByText(p: Path, q: Path)
    ensures PathRelation(PathText(p), PathText(q)) in {Equal, Inside} <==> Shields(q, p)
  {
    RelationIsComponentwise(p, q);
  }

  lemma {:induction false} ProtectedMeaning(p: Path, shields: seq<Path>)
    ensures Protected(p, shields) <==> exists i :: 0 <= i < |shields| && Shields(shields[i], p)
  {
    if Protected(p, shields) {
      var i :| 0 <= i < |shields| && PathRelation(PathText(p), PathText(shields[i])) in {Equal, Inside};
      ShieldsByText(p, shields[i]);
    }
    if i :| 0 <= i < |shields| && Shields(shields[i], p) {
      ShieldsByText(p, shields[i]);
    }
  }

  /** Protection is inherited by everything below, unless it came from the root alone. */
  lemma {:induction false} ProtectionInherited(p: Path, f: Path, shields: seq<Path>)
    requires p != [] && p <= f && Protected(p, shields)
    ensures Protected(f, shields)
  {
    ProtectedMeaning(p, shields);
    ProtectedMeaning(f, shields);
    var i :| 0 <= i < |shields| && Shields(shields[i], p);
    assert Shields(shields[i], f);
  }

  lemma {:induction false} NothingToCopy(done: seq<Path>, shields: seq<Path>, p: Path, files: seq<Path>)
    requires p != [] && Protected(p, shields)
    requires forall i :: 0 <= i < |files| ==> p <= files[i]
    ensures Copied(done, shields, files) == done
  {
    if files != [] {
      ProtectionInherited(p, files[0], shields);
      NothingToCopy(done, shields, p, files[1..]);
    }
  }

  predicate AllBelow(p: Path, files: seq<Path>) {
    forall i :: 0 <= i < |files| ==> p <= files[i]
  }

  lemma {:induction false} BelowChild(p: Path, name: Name, files: seq<Path>)
    requires AllBelow(p + [name], files)
    ensures AllBelow(p, files)
  {
    forall i | 0 <= i < |files| ensures p <= files[i] {
      assert p <= p + [name];
    }
  }

  lemma {:induction false} FilesOfBelow(p: Path, es: seq<Entry>)
    ensures AllBelow(p, FilesOf(p, es))
  {
    if es != [] {
      FilesOfBelow(p, es[1..]);
    }
  }

  lemma {:induction false} WalkBelow(p: Path, es: seq<Entry>)
    ensures AllBelow(p, Walk(p, es))
    decreases es, 1
  {
    FilesOfBelow(p, es);
    WalkDirsBelow(p, es);
  }

  lemma {:induction false} WalkDirsBelow(p: Path, es: seq<Entry>)
    ensures AllBelow(p, WalkDirs(p, es))
    decreases es, 0
  {
    if es != [] {
      WalkDirsBelow(p, es[1..]);
      if es[0].node.Dir? {
        WalkBelow(p + [es[0].name], es[0].node.entries);
        BelowChild(p, es[0].name, Walk(p + [es[0].name], es[0].node.entries));
      }
    }
  }

  lemma {:induction false} WalkNodeBelow(p: Path, source: Option<Node>)
    ensures AllBelow(p, WalkNode(p, source))
  {
    match source
    case Some(Dir(es)) => WalkBelow(p, es);
    case _ =>
  }

  lemma {:induction false} PendingAppend(a: seq<Frame>, b: seq<Frame>)
    ensures Pending(a + b) == Pending(a) + Pending(b)
    ensures Load(a + b) == Load(a) + Load(b)
  {
    if a == [] {
      assert a + b == b;
    } else {
      assert (a + b)[1..] == a[1..] + b;
      PendingAppend(a[1..], b);
    }
  }

  function EntryWalk(p: Path, e: Entry): seq<Path> {
    if e.node.Dir? then Walk(p + [e.name], e.node.entries) else []
  }

  /** What the first entry leaves pending. */
  lemma {:induction false} PendingKept(p: Path, es: seq<Entry>, shields: seq<Path>)
    requires es != []
    ensures Pending(KeptDirs(p, es, shields))
         == (if Protected(p + [es[0].name], shields) then [] else EntryWalk(p, es[0])) + Pending(KeptDirs(p, es[1..], shields))
  {
    var e, rest := es[0], KeptDirs(p, es[1..], shields);
    if e.node.Dir? && !Protected(p + [e.name], shields) {
      var frame := Frame(p + [e.name], e.node.entries);
      assert KeptDirs(p, es, shields) == [frame] + rest;
      assert ([frame] + rest)[1..] == rest;
    } else {
      assert KeptDirs(p, es, shields) == rest;
    }
  }

  lemma {:induction false} WalkDirsHead(p: Path, es: seq<Entry>)
    requires es != []
    ensures WalkDirs(p, es) == EntryWalk(p, es[0]) + WalkDirs(p, es[1..])
  {
  }

  /** A protected entry would add nothing. */
  lemma {:induction false} ProtectedEntry(done: seq<Path>, shields: seq<Path>, p: Path, e: Entry)
    requires Protected(p + [e.name], shields)
    ensures Copied(done, shields, EntryWalk(p, e)) == done
  {
    if e.node.Dir? {
      WalkBelow(p + [e.name], e.node.entries);
      NothingToCopy(done, shields, p + [e.name], EntryWalk(p, e));
    }
  }

  /** Dropping the protected subdirectories changes nothing that would be copied. */
  lemma {:induction false} PruningIsInvisible(done: seq<Path>, shields: seq<Path>, p: Path, es: seq<Entry>)
    ensures Copied(done, shields, Pending(KeptDirs(p, es, shields))) == Copied(done, shields, WalkDirs(p, es))
    decreases es
  {
    if es != [] {
      var sub, kept := EntryWalk(p, es[0]), Pending(KeptDirs(p, es[1..], shields));
      PendingKept(p, es, shields);
      WalkDirsHead(p, es);
      PruningIsInvisible(Copied(done, shields, sub), shields, p, es[1..]);
      CopiedAppend(done, shields, sub, WalkDirs(p, es[1..]));
      if Protected(p + [es[0].name], shields) {
        ProtectedEntry(done, shields, p, es[0]);
        assert [] + kept == kept;
      } else {
        CopiedAppend(done, shields, sub, kept);
      }
    }
  }

  lemma {:induction false} KeptDirsShrink(p: Path, es: seq<Entry>, shields: seq<Path>)
    ensures Load(KeptDirs(p, es, shields)) < Size(es)
  {
    if es != [] {
      KeptDirsShrink(p, es[1..], shields);
      var e, rest := es[0], KeptDirs(p, es[1..], shields);
      if e.node.Dir? && !Protected(p + [e.name], shields) {
        PendingAppend([Frame(p + [e.name], e.node.entries)], rest);
        assert Load([Frame(p + [e.name], e.node.entries)]) == Size(e.node.entries);
      } else {
        assert KeptDirs(p, es, shields) == rest;
      }
    }
  }

  /** Replacing `dirs` by `kept`, which add the same copies, after `own` and before `rest`. */
  lemma {:induction false} SameInside(
    done: seq<Path>, shields: seq<Path>, own: seq<Path>, kept: seq<Path>, dirs: seq<Path>, rest: seq<Path>)
    requires Copied(Copied(done, shields, own), shields, kept) == Copied(Copied(done, shields, own), shields, dirs)
    ensures Copied(Copied(done, shields, own), shields, kept + rest) == Copied(done, shields, own + (dirs + rest))
  {
    var mid := Copied(done, shields, own);
    CopiedAppend(mid, shields, kept, rest);
    CopiedAppend(mid, shields, dirs, rest);
    CopiedAppend(done, shields, own, dirs + rest);
  }

  lemma {:induction false} PendingHead(work: seq<Frame>)
    requires work != []
    ensures Pending(work)
         == FilesOf(work[0].path, work[0].entries) + (WalkDirs(work[0].path, work[0].entries) + Pending(work[1..]))
  {
  }

  /** One iteration of the walk gets closer to its end. */
  lemma {:induction false} VisitShrinks(shields: seq<Path>, work: seq<Frame>)
    requires work != []
    ensures Load(KeptDirs(work[0].path, work[0].entries, shields) + work[1..]) < Load(work)
  {
    PendingAppend(KeptDirs(work[0].path, work[0].entries, shields), work[1..]);
    KeptDirsShrink(work[0].path, work[0].entries, shields);
  }

  /** One iteration of the walk keeps what remains to be copied. */
  lemma {:induction false} Visit(done: seq<Path>, shields: seq<Path>, work: seq<Frame>)
    requires work != []
    ensures var f := work[0];
            && Copied(Copied(done, shields, FilesOf(f.path, f.entries)), shields,
                      Pending(KeptDirs(f.path, f.entries, shields) + work[1..]))
               == Copied(done, shields, Pending(work))
  {
    var f, rest := work[0], Pending(work[1..]);
    var kept, own := KeptDirs(f.path, f.entries, shields), FilesOf(f.path, f.entries);
    PendingAppend(kept, work[1..]);
    PruningIsInvisible(Copied(done, shields, own), shields, f.path, f.entries);
    SameInside(done, shields, own, Pending(kept), WalkDirs(f.path, f.entries), rest);
    PendingHead(work);
  }

  // ---- what a capsule holds ----

  /** There is a file at the end of this relative path. */
  predicate HasFile(node: Node, rel: Path)
    decreases rel
  {
    match node
    case File => rel == []
    case Dir(es) => rel != [] && exists i :: 0 <= i < |es| && es[i].name == rel[0] && HasFile(es[i].node, rel[1..])
  }

  lemma {:induction false} FilesOfExactly(p: Path, es: seq<Entry>, f: Path)
    ensures f in FilesOf(p, es) <==> exists i :: 0 <= i < |es| && es[i].node.File? && f == p + [es[i].name]
  {
    if es != [] {
      FilesOfExactly(p, es[1..], f);
      if i :| 0 <= i < |es| && es[i].node.File? && f == p + [es[i].name] {
        assert i > 0 ==> es[1..][i - 1] == es[i];
      }
      if j :| 0 <= j < |es[1..]| && es[1..][j].node.File? && f == p + [es[1..][j].name] {
        assert es[j + 1] == es[1..][j];
      }
    }
  }

  predicate InSubdirectory(p: Path, es: seq<Entry>, i: int, f: Path)
    requires 0 <= i < |es|
  {
    es[i].node.Dir? && f in Walk(p + [es[i].name], es[i].node.entries)
  }

  lemma {:induction false} SubdirectoryShift(p: Path, es: seq<Entry>, f: Path)
    requires es != []
    ensures (exists i :: 0 <= i < |es| && InSubdirectory(p, es, i, f))
       <==> InSubdirectory(p, es, 0, f) || exists j :: 0 <= j < |es[1..]| && InSubdirectory(p, es[1..], j, f)
  {
    if i :| 0 <= i < |es| && InSubdirectory(p, es, i, f) {
      assert i > 0 ==> es[1..][i - 1] == es[i] && InSubdirectory(p, es[1..], i - 1, f);
    }
    if j :| 0 <= j < |es[1..]| && InSubdirectory(p, es[1..], j, f) {
      assert es[1..][j] == es[j + 1] && InSubdirectory(p, es, j + 1, f);
    }
  }

  lemma {:induction false} WalkDirsExactly(p: Path, es: seq<Entry>, f: Path)
    ensures f in WalkDirs(p, es) <==> exists i :: 0 <= i < |es| && InSubdirectory(p, es, i, f)
  {
    if es != [] {
      WalkDirsExactly(p, es[1..], f);
      assert f in WalkDirs(p, es) <==> InSubdirectory(p, es, 0, f) || f in WalkDirs(p, es[1..]);
      SubdirectoryShift(p, es, f);
    }
  }

  /** The walk lists a path exactly when the tree has a file there. */
  lemma {:induction false} WalkExactly(p: Path, es: seq<Entry>, f: Path)
    ensures f in Walk(p, es) <==> p <= f && HasFile(Dir(es), f[|p|..])
    decreases es
  {
    FilesOfExactly(p, es, f);
    WalkDirsExactly(p, es, f);
    forall i | 0 <= i < |es|
      ensures InSubdirectory(p, es, i, f) <==> es[i].node.Dir? && EntryHolds(p, es[i], f)
      ensures es[i].node.File? ==> (f == p + [es[i].name] <==> EntryHolds(p, es[i], f))
    {
      if es[i].node.Dir? {
        WalkExactly(p + [es[i].name], es[i].node.entries, f);
      }
      ChildPath(p, es[i], f);
    }
    WalkExactlyStep(p, es, f);
  }

  predicate EntryHolds(p: Path, e: Entry, f: Path) {
    p < f && e.name == f[|p|] && HasFile(e.node, f[|p| + 1..])
  }

  lemma {:induction false} ChildPath(p: Path, e: Entry, f: Path)
    ensures EntryHolds(p, e, f) <==> p + [e.name] <= f && HasFile(e.node, f[|p| + 1..])
    ensures e.node.File? ==> (f == p + [e.name] <==> EntryHolds(p, e, f))
  {
    if p < f && e.name == f[|p|] {
      assert f[..|p| + 1] == p + [e.name];
      assert f == f[..|p| + 1] + f[|p| + 1..];
    }
  }

  lemma {:induction false} WalkExactlyStep(p: Path, es: seq<Entry>, f: Path)
    requires forall i :: 0 <= i < |es| ==> (InSubdirectory(p, es, i, f) <==> es[i].node.Dir? && EntryHolds(p, es[i], f))
    requires forall i :: 0 <= i < |es| && es[i].node.File? ==> (f == p + [es[i].name] <==> EntryHolds(p, es[i], f))
    ensures f in Walk(p, es) <==> p <= f && HasFile(Dir(es), f[|p|..])
  {
    FilesOfExactly(p, es, f);
    WalkDirsExactly(p, es, f);
    assert f in Walk(p, es) <==> exists i :: 0 <= i < |es| && EntryHolds(p, es[i], f);
    if p < f {
      assert f[|p|..][1..] == f[|p| + 1..] && f[|p|..][0] == f[|p|];
      assert forall i :: 0 <= i < |es| ==> (EntryHolds(p, es[i], f) <==> es[i].name == f[|p|..][0] && HasFile(es[i].node, f[|p|..][1..]));
    }
  }

  predicate SectionHas(section: (Path, Option<Node>), f: Path) {
    section.1.Some? && section.0 <= f && HasFile(section.1.value, f[|section.0|..])
  }

  /** Sections the walk enters: all but a protected root. */
  predicate Entered(section: (Path, Option<Node>), shields: seq<Path>) {
    section.0 != [] || [] !in shields
  }

  lemma {:induction false} WalkNodeExactly(p: Path, source: Option<Node>, f: Path)
    ensures f in WalkNode(p, source) <==> SectionHas((p, source), f)
  {
    match source
    case None =>
    case Some(File) =>
      if p <= f && f[|p|..] == [] {
        assert f == p;
      }
    case Some(Dir(es)) => WalkExactly(p, es, f);
  }

  lemma {:induction false} SectionExactly(section: (Path, Option<Node>), shields: seq<Path>, f: Path)
    ensures f in SectionFiles(section, shields) <==> Entered(section, shields) && SectionHas(section, f)
  {
    WalkNodeExactly(section.0, section.1, f);
  }

  lemma {:induction false} ListingExactly(sources: seq<(Path, Option<Node>)>, shields: seq<Path>, f: Path)
    ensures f in Listing(sources, shields)
       <==> exists k :: 0 <= k < |sources| && Entered(sources[k], shields) && SectionHas(sources[k], f)
  {
    if sources != [] {
      SectionExactly(sources[0], shields, f);
      ListingExactly(sources[1..], shields, f);
      if k :| 0 <= k < |sources| && Entered(sources[k], shields) && SectionHas(sources[k], f) {
        assert k > 0 ==> sources[1..][k - 1] == sources[k];
      }
      if j :| 0 <= j < |sources[1..]| && Entered(sources[1..][j], shields) && SectionHas(sources[1..][j], f) {
        assert sources[j + 1] == sources[1..][j];
      }
    }
  }

  /**
   * For all protected paths: a capsule holds each file of each section it enters once, except the files
   * that a protected path shields, which it never holds.
   */
  lemma {:induction false} CapsuleHoldsExactly(sources: seq<(Path, Option<Node>)>, shields: seq<Path>, f: Path)
    ensures var copies := Copied([], shields, Listing(sources, shields));
            && NoDuplicates(copies)
            && (f in copies <==>
                  && (exists k :: 0 <= k < |sources| && Entered(sources[k], shields) && SectionHas(sources[k], f))
                  && !(exists i :: 0 <= i < |shields| && Shields(shields[i], f)))
  {
    CopiedExactly([], shields, Listing(sources, shields));
    ListingExactly(sources, shields, f);
    ProtectedMeaning(f, shields);
  }

  /** The durable root contributes exactly the files below its children outside the capsule folder. */
  lemma {:induction false} PersistExactly(root: Path, children: seq<Entry>, f: Path)
    ensures (exists k :: 0 <= k < |PersistSections(root, children)| && SectionHas(PersistSections(root, children)[k], f))
       <==> exists i :: 0 <= i < |children| && !CapsulesName(children[i].name) && EntryHolds(root, children[i], f)
  {
    if children != [] {
      var all, rest := PersistSections(root, children), PersistSections(root, children[1..]);
      PersistExactly(root, children[1..], f);
      ChildPath(root, children[0], f);
      if k :| 0 <= k < |all| && SectionHas(all[k], f) {
        if CapsulesName(children[0].name) {
          assert all[k] == rest[k];
        } else if k > 0 {
          assert all[k] == rest[k - 1];
        }
      }
      if k :| 0 <= k < |rest| && SectionHas(rest[k], f) {
        assert all[k + |all| - |rest|] == rest[k];
      }
      if i :| 0 <= i < |children| && !CapsulesName(children[i].name) && EntryHolds(root, children[i], f) {
        assert i > 0 ==> children[1..][i - 1] == children[i];
        assert i == 0 ==> SectionHas(all[0], f);
      }
      if i :| 0 <= i < |children[1..]| && !CapsulesName(children[1..][i].name) && EntryHolds(root, children[1..][i], f) {
        assert children[i + 1] == children[1..][i];
      }
    }
  }

  /** When the text test answers what the path components answer: exactly unless the root alone covers `p`. */
  lemma {:induction false} TextTestIsComponentwise(p: Path, shields: seq<Path>)
    ensures (Protected(p, shields) <==> exists i :: 0 <= i < |shields| && shields[i] <= p)
       <==> ([] !in shields || p == [] || exists i :: 0 <= i < |shields| && shields[i] != [] && shields[i] <= p)
  {
    ProtectedMeaning(p, shields);
    if [] in shields {
      var r :| 0 <= r < |shields| && shields[r] == [];
      assert shields[r] <= p;
      assert p == [] ==> Shields(shields[r], p);
    }
    if i :| 0 <= i < |shields| && shields[i] != [] && shields[i] <= p {
      assert Shields(shields[i], p);
    }
    if [] !in shields && exists i :: 0 <= i < |shields| && shields[i] <= p {
      var i :| 0 <= i < |shields| && shields[i] <= p;
      assert shields[i] in shields;
      assert Shields(shields[i], p);
    }
  }

  lemma {:induction false} NothingAdded(done: seq<Path>, shields: seq<Path>, files: seq<Path>)
    requires NoDuplicates(done)
    ensures Copied(done, shields, files) == done <==> forall f :: f in files && !Protected(f, shields) ==> f in done
  {
    CopiedExactly(done, shields, files);
    CopiedExtends(done, shields, files);
    var result := Copied(done, shields, files);
    assert |result| > |done| ==> result[|done|] in result;
  }

  /** A protected path other than the root is at or above `f`. */
  predicate Below(shields: seq<Path>, f: Path) {
    exists i :: 0 <= i < |shields| && shields[i] != [] && shields[i] <= f
  }

  lemma {:induction false} RootShieldsItself(shields: seq<Path>, f: Path)
    requires [] in shields
    ensures Protected(f, shields) <==> f == [] || Below(shields, f)
  {
    ProtectedMeaning(f, shields);
    var r :| 0 <= r < |shields| && shields[r] == [];
    assert Shields(shields[r], f) <==> f == [];
    if i :| 0 <= i < |shields| && shields[i] != [] && shields[i] <= f {
      assert Shields(shields[i], f);
    }
  }

  /**
   * A protected root makes the walk skip the section that starts there. That loses nothing against filtering
   * the unpruned walk exactly when every file of the tree lies below another protected path or was copied before.
   */
  lemma {:induction false} RootSection(done: seq<Path>, shields: seq<Path>, source: Option<Node>)
    requires NoDuplicates(done) && [] in shields
    ensures Copied(done, shields, WalkNode([], source)) == done
       <==> forall f :: SectionHas(([], source), f) && f != [] && !Below(shields, f) ==> f in done
  {
    NothingAdded(done, shields, WalkNode([], source));
    forall f ensures f in WalkNode([], source) <==> SectionHas(([], source), f) {
      WalkNodeExactly([], source, f);
    }
    forall f ensures Protected(f, shields) <==> f == [] || Below(shields, f) {
      RootShieldsItself(shields, f);
    }
  }
}
