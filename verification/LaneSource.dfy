/** The source projection of scripts/check_workspace.py: `previous_manifest` and `sync_source` on a lane
    directory that may stop after any single file operation. File contents are identified with their
    SHA-256 digests. */
module LaneSource {
  import opened Wrappers

  /** A path below `src`, as its components; never empty. */
  type Path = seq<string>

  datatype Entry = Entry(mode: int, digest: string)

  datatype Node = Dir | File(mode: int, digest: string) | Symlink

  /** A decoded manifest value; `Other` is any JSON that is not a pair of an integer and a string. */
  datatype RawValue = Pair(mode: int, digest: string) | Other

  datatype ManifestFile = Missing | Link | Unreadable | Stored(entries: map<Path, RawValue>)

  datatype Marker = Absent | Present | MarkerLink

  datatype Fault =
    | SymlinkedMetadata | InvalidManifest | BadSourceDirectory | UnexpectedPath
    | UnlinkFailed | NotADirectory | IsADirectory | SnapshotMissing | PermissionDenied | VerificationFailed

  /** `Died` is the process being stopped between two file operations. */
  datatype Outcome = Done | Raised(fault: Fault) | Died

  // ----- paths

  predicate Above(d: Path, p: Path) {
    0 < |d| < |p| && p[..|d|] == d
  }

  predicate AboveSome(d: Path, names: set<Path>) {
    exists p | p in names :: Above(d, p)
  }

  /** No name lies below another, as in any real listing of files. */
  predicate PrefixFree(names: set<Path>) {
    forall p, q | p in names && q in names :: !Above(p, q)
  }

  predicate Names(names: set<Path>) {
    [] !in names
  }

  // ----- the persisted manifest

  predicate ValidComponent(c: string) {
    c != "" && c != "." && c != ".." && '/' !in c
  }

  predicate ValidDigest(digest: string) {
    |digest| == 64 && forall i | 0 <= i < 64 :: '0' <= digest[i] <= '9' || 'a' <= digest[i] <= 'f'
  }

  predicate ValidRaw(name: Path, value: RawValue) {
    && name != [] && (forall i | 0 <= i < |name| :: ValidComponent(name[i]))
    && value.Pair? && 0 <= value.mode <= 0x1FF && ValidDigest(value.digest)
  }

  /** Where the file system arrives from `base` by these components. */
  function Resolve(base: Path, name: Path): Path {
    if name == [] then base else Step(Resolve(base, name[..|name| - 1]), name[|name| - 1])
  }

  function Step(at: Path, c: string): Path {
    if c == "" || c == "." then at
    else if c == ".." then (if at == [] then [] else at[..|at| - 1])
    else at + [c]
  }

  lemma StepAppends(at: Path, c: string)
    requires '/' !in c
    ensures Step(at, c) == at + [c] <==> ValidComponent(c)
  {
    if Step(at, c) == at + [c] { assert |Step(at, c)| == |at| + 1; }
  }

  /** The accepted names are exactly those that lead down from any base, a step for each component. */
  lemma ValidNamesLeadDown(base: Path, name: Path)
    requires forall i :: 0 <= i < |name| ==> '/' !in name[i]
    ensures (forall i :: 0 <= i < |name| ==> ValidComponent(name[i])) <==>
      forall k :: 0 <= k <= |name| ==> Resolve(base, name[..k]) == base + name[..k]
  {
    hide ValidComponent;
    if forall k :: 0 <= k <= |name| ==> Resolve(base, name[..k]) == base + name[..k] {
      forall i | 0 <= i < |name| ensures ValidComponent(name[i]) {
        assert name[..i + 1][..i] == name[..i];
        StepDown(base, name[..i + 1]);
      }
    }
    if forall i :: 0 <= i < |name| ==> ValidComponent(name[i]) {
      forall k | 0 <= k <= |name| ensures Resolve(base, name[..k]) == base + name[..k] { LeadsDown(base, name, k); }
    }
  }

  lemma StepDown(base: Path, name: Path)
    requires name != [] && '/' !in name[|name| - 1]
    requires Resolve(base, name[..|name| - 1]) == base + name[..|name| - 1]
    ensures Resolve(base, name) == base + name <==> ValidComponent(name[|name| - 1])
  {
    hide ValidComponent, Step;
    var before, last := name[..|name| - 1], name[|name| - 1];
    StepAppends(base + before, last);
    assert name == before + [last];
    assert base + name == base + before + [last];
  }

  lemma {:induction false} LeadsDown(base: Path, name: Path, k: nat)
    requires k <= |name| && forall i :: 0 <= i < |name| ==> ValidComponent(name[i])
    ensures Resolve(base, name[..k]) == base + name[..k]
  {
    hide ValidComponent;
    if k > 0 {
      LeadsDown(base, name, k - 1);
      assert name[..k][..k - 1] == name[..k - 1];
      NoSlash(name[k - 1]);
      StepDown(base, name[..k]);
    }
  }

  lemma NoSlash(c: string)
    requires ValidComponent(c)
    ensures '/' !in c
  {
  }

  function PreviousManifest(file: ManifestFile): Result<map<Path, Entry>, Fault> {
    match file
    case Missing => Ok(map[])
    case Link => Err(SymlinkedMetadata)
    case Unreadable => Err(InvalidManifest)
    case Stored(raw) =>
      if forall name | name in raw :: ValidRaw(name, raw[name])
      then Ok(map name | name in raw :: Entry(raw[name].mode, raw[name].digest))
      else Err(InvalidManifest)
  }

  function Written(entries: map<Path, Entry>): ManifestFile {
    Stored(map name | name in entries :: Pair(entries[name].mode, entries[name].digest))
  }

  // ----- the tree

  type Tree = map<Path, Node>

  /** Every path has its parent directories. */
  predicate WellFormed(tree: Tree) {
    forall p | p in tree :: Parented(tree, p)
  }

  predicate Parented(tree: Tree, p: Path) {
    p != [] && forall k | 1 <= k < |p| :: p[..k] in tree && tree[p[..k]] == Dir
  }

  predicate IsFile(tree: Tree, p: Path) {
    p in tree && tree[p].File?
  }

  predicate IsDir(tree: Tree, p: Path) {
    p in tree && tree[p].Dir?
  }

  /** The scan before any change: only previously owned files and their directories. */
  predicate Owned(tree: Tree, p: Path, previous: set<Path>)
    requires p in tree
  {
    match tree[p]
    case Symlink => false
    case Dir => AboveSome(p, previous)
    case File(_, _) => p in previous
  }

  predicate ScanOk(tree: Tree, previous: set<Path>) {
    forall p | p in tree :: Owned(tree, p, previous)
  }

  predicate Matches(tree: Tree, name: Path, entry: Entry) {
    name in tree && tree[name] == File(entry.mode, entry.digest)
  }

  /** The tree holds the entries and nothing else: their files, with mode and digest, and the
      directories above them. */
  predicate Exact(tree: Tree, entries: map<Path, Entry>) {
    && (forall name | name in entries :: Matches(tree, name, entries[name]))
    && (forall p | p in tree :: p in entries || (tree[p] == Dir && AboveSome(p, entries.Keys)))
    && WellFormed(tree)
  }

  /** What no stop may violate: every file is an old one left alone or a new entry's, and the only old
      files gone are previously owned ones that the new entries drop. */
  ghost predicate Safe(before: Tree, tree: Tree, previous: set<Path>, entries: set<Path>) {
    && WellFormed(tree)
    && (forall p | p in tree ::
          p in entries || (p in before && tree[p] == before[p]) || (tree[p] == Dir && AboveSome(p, entries)))
    && (forall p | IsFile(before, p) && !IsFile(tree, p) :: p in previous && p !in entries)
    && (forall p | p in before && before[p].Dir? && p !in tree :: AboveSome(p, previous))
    && (forall p | p in tree :: !tree[p].Symlink?)
  }

  /** No symlink, and nothing but entries and the directories above them. */
  predicate Tidy(tree: Tree, entries: set<Path>) {
    forall p | p in tree ::
      match tree[p]
      case Symlink => false
      case Dir => AboveSome(p, entries)
      case File(_, _) => p in entries
  }

  // ----- permission bits of files the lane's user owns

  /** The owner's read bit, 0o400. */
  predicate Readable(mode: int) {
    (mode / 0x100) % 2 == 1
  }

  /** The owner's write bit, 0o200. */
  predicate Writable(mode: int) {
    (mode / 0x80) % 2 == 1
  }

  /** The digest of an old file can be read, and what has to be rewritten may be: the captured copy carries
      the entry's mode, the old file its own. */
  predicate MayWrite(tree: Tree, name: Path, entry: Entry) {
    if IsFile(tree, name)
    then Readable(tree[name].mode)
         && (tree[name].digest == entry.digest || (Readable(entry.mode) && Writable(tree[name].mode)))
    else Readable(entry.mode)
  }

  /** What the permission bits must allow: every entry is readable, and so is every old file under an entry's
      name, which must be writable too when its content changes. Checked on the tree before the sync. */
  predicate Permitted(tree: Tree, entries: map<Path, Entry>) {
    forall name | name in entries ::
      && Readable(entries[name].mode)
      && (IsFile(tree, name) ==>
            Readable(tree[name].mode) && (tree[name].digest == entries[name].digest || Writable(tree[name].mode)))
  }

  predicate AllMayWrite(tree: Tree, entries: map<Path, Entry>) {
    forall name | name in entries :: MayWrite(tree, name, entries[name])
  }

  predicate AllReadable(entries: map<Path, Entry>) {
    forall name | name in entries :: Readable(entries[name].mode)
  }

  lemma PermittedParts(tree: Tree, entries: map<Path, Entry>)
    ensures Permitted(tree, entries) <==> AllMayWrite(tree, entries) && AllReadable(entries)
  {
    hide Readable, Writable;
    forall name | name in entries && AllReadable(entries)
      ensures MayWrite(tree, name, entries[name]) <==>
        (IsFile(tree, name) ==>
           Readable(tree[name].mode) && (tree[name].digest == entries[name].digest || Writable(tree[name].mode)))
    {
      assert Readable(entries[name].mode);
    }
    if Permitted(tree, entries) {
      assert AllReadable(entries);
    }
  }

  /** The entries' own files are the same in both trees. */
  predicate SameFiles(a: Tree, b: Tree, names: set<Path>) {
    forall p | p in names :: (IsFile(a, p) <==> IsFile(b, p)) && (IsFile(a, p) ==> a[p] == b[p])
  }

  lemma SameMayWrite(a: Tree, b: Tree, name: Path, entry: Entry)
    requires SameFiles(a, b, {name})
    ensures MayWrite(a, name, entry) <==> MayWrite(b, name, entry)
  {
    hide Readable, Writable;
  }

  lemma ExactHolds(tree: Tree, entries: map<Path, Entry>, name: Path)
    requires name in entries
    ensures Exact(tree, entries) ==> Matches(tree, name, entries[name]) && Parented(tree, name)
  {
    assert name in tree ==> (WellFormed(tree) ==> Parented(tree, name));
  }

  /** Writing `name` leaves the other written entries as they were. */
  lemma StillMatch(was: Tree, tree: Tree, entries: map<Path, Entry>, todo: set<Path>, name: Path)
    requires forall p :: IsFile(was, p) ==> IsFile(tree, p) && (p != name ==> tree[p] == was[p])
    ensures forall p | p in entries && p !in todo && p != name && Matches(was, p, entries[p]) ::
              Matches(tree, p, entries[p])
  {
    forall p | p in entries && p !in todo && p != name && Matches(was, p, entries[p])
      ensures Matches(tree, p, entries[p])
    {
      assert IsFile(was, p);
    }
  }

  lemma SameFilesMayWrite(a: Tree, b: Tree, entries: map<Path, Entry>)
    requires SameFiles(a, b, entries.Keys)
    ensures AllMayWrite(a, entries) <==> AllMayWrite(b, entries)
  {
    hide Readable, Writable, IsFile;
    forall name | name in entries ensures MayWrite(a, name, entries[name]) <==> MayWrite(b, name, entries[name]) {
    }
  }

  lemma RemovalKeepsEntries(before: Tree, tree: Tree, previous: set<Path>, entries: set<Path>)
    requires Safe(before, tree, previous, entries)
    requires forall p :: p in tree ==> p in before && tree[p] == before[p]
    ensures SameFiles(before, tree, entries)
  {
  }

  // ----- single file operations keep a stop safe

  lemma UnlinkIsSafe(before: Tree, tree: Tree, previous: set<Path>, entries: set<Path>, p: Path)
    requires Safe(before, tree, previous, entries)
    requires IsFile(tree, p) && p in previous && p !in entries
    ensures Safe(before, tree - {p}, previous, entries)
  {
    forall q | q in tree - {p} ensures Parented(tree - {p}, q) { assert Parented(tree, q); }
  }

  lemma RmdirIsSafe(before: Tree, tree: Tree, previous: set<Path>, entries: set<Path>, d: Path)
    requires Safe(before, tree, previous, entries)
    requires IsDir(tree, d) && AboveSome(d, previous) && forall q | q in tree :: !Above(d, q)
    ensures Safe(before, tree - {d}, previous, entries)
  {
    forall q | q in tree - {d} ensures Parented(tree - {d}, q) {
      assert Parented(tree, q);
      forall k | 1 <= k < |q| ensures q[..k] != d { assert q[..k] == d ==> Above(d, q); }
    }
  }

  lemma MkdirIsSafe(before: Tree, tree: Tree, previous: set<Path>, entries: set<Path>, d: Path)
    requires Safe(before, tree, previous, entries) && Tidy(tree, entries)
    requires d !in tree && Parented(tree, d) && AboveSome(d, entries)
    ensures Safe(before, tree[d := Dir], previous, entries) && Tidy(tree[d := Dir], entries)
  {
    var grown := tree[d := Dir];
    forall q | q in grown ensures Parented(grown, q) {
      assert q in tree ==> Parented(tree, q);
    }
  }

  lemma WriteIsSafe(before: Tree, tree: Tree, previous: set<Path>, entries: set<Path>, p: Path, node: Node)
    requires Safe(before, tree, previous, entries) && Tidy(tree, entries)
    requires !IsDir(tree, p) && Parented(tree, p) && p in entries && node.File?
    ensures Safe(before, tree[p := node], previous, entries) && Tidy(tree[p := node], entries)
    ensures Parented(tree[p := node], p)
  {
    var grown := tree[p := node];
    forall q | q in grown ensures Parented(grown, q) {
      if q in tree {
        assert Parented(tree, q);
        forall k | 1 <= k < |q| ensures q[..k] != p { }
      }
    }
  }

  lemma TidyHasNoLink(tree: Tree, entries: set<Path>, name: Path)
    requires Tidy(tree, entries) && name in entries
    ensures name in tree ==> !tree[name].Symlink? && (PrefixFree(entries) ==> !tree[name].Dir?)
  {
  }

  lemma NotPrefixFree(entries: set<Path>, p: Path, q: Path)
    requires p in entries && q in entries && Above(p, q)
    ensures !PrefixFree(entries)
  {
  }

  // ----- removing directories, deepest first

  /** `todo` is what is left to try: the directories no deeper than any already kept. */
  ghost predicate Pruning(start: Tree, tree: Tree, todo: set<Path>, previous: set<Path>, entries: set<Path>) {
    && (forall p | p in tree :: p in start && tree[p] == start[p])
    && (forall p | IsFile(start, p) :: p in tree)
    && (forall p | p in tree :: if tree[p].Dir? then AboveSome(p, previous) else tree[p].File? && p in entries)
    && (forall d | d in todo :: IsDir(tree, d))
    && (forall d | IsDir(tree, d) && d !in todo :: AboveSome(d, entries))
    && (forall c, d | c !in todo && d in todo && IsDir(tree, c) :: |d| <= |c|)
  }

  lemma PruneStarts(before: Tree, tree: Tree, todo: set<Path>, previous: set<Path>, entries: set<Path>)
    requires Safe(before, tree, previous, entries)
    requires forall p :: p in tree ==> if tree[p].Dir? then AboveSome(p, previous) else p in entries
    requires todo == set p | p in tree && tree[p].Dir?
    ensures Pruning(tree, tree, todo, previous, entries)
  {
  }

  lemma PruneKeepsFiles(start: Tree, tree: Tree, todo: set<Path>, previous: set<Path>, entries: set<Path>)
    requires Pruning(start, tree, todo, previous, entries)
    ensures forall p :: p in tree ==> p in start && tree[p] == start[p]
    ensures forall p :: IsFile(start, p) ==> p in tree
    ensures todo == {} ==> Tidy(tree, entries)
  {
  }

  lemma PruneKeeps(before: Tree, start: Tree, tree: Tree, todo: set<Path>, previous: set<Path>, entries: set<Path>,
                   d: Path)
    requires Safe(before, tree, previous, entries) && Pruning(start, tree, todo, previous, entries)
    requires d in todo && NoDeeper(todo, d)
    requires exists q :: q in tree && Above(d, q)
    ensures Pruning(start, tree, todo - {d}, previous, entries)
  {
    KeptIsAbove(tree, entries, todo, d);
  }

  lemma PruneDrops(before: Tree, start: Tree, tree: Tree, todo: set<Path>, previous: set<Path>, entries: set<Path>,
                   d: Path)
    requires Safe(before, tree, previous, entries) && Pruning(start, tree, todo, previous, entries)
    requires d in todo && NoDeeper(todo, d)
    requires forall q :: q in tree ==> !Above(d, q)
    ensures Safe(before, tree - {d}, previous, entries)
    ensures Pruning(start, tree - {d}, todo - {d}, previous, entries)
  {
    RmdirIsSafe(before, tree, previous, entries, d);
  }

  /** One lane directory; `fuel` is how many file operations happen before the process dies, none when it is
      left to finish. `superuser` is a process that permission bits do not bind. */
  class Lane {
    var tree: Tree
    var manifest: ManifestFile
    var marker: Marker
    var fuel: Option<nat>
    const newFileMode: int
    const superuser: bool

    constructor (tree: Tree, manifest: ManifestFile, marker: Marker, fuel: Option<nat>, newFileMode: int,
                 superuser: bool)
      ensures this.tree == tree && this.manifest == manifest && this.marker == marker && this.fuel == fuel
      ensures this.superuser == superuser
    {
      this.tree, this.manifest, this.marker, this.fuel := tree, manifest, marker, fuel;
      this.newFileMode, this.superuser := newFileMode, superuser;
    }

    method Tick() returns (alive: bool)
      modifies `fuel
      ensures fuel.None? <==> old(fuel).None?
      ensures !alive ==> fuel == Some(0)
    {
      alive := fuel != Some(0);
      if alive && fuel.Some? { fuel := Some(fuel.value - 1); }
    }

    /** Unlink every previously owned file the new entries drop. */
    method RemoveStale(previous: set<Path>, entries: set<Path>, ghost before: Tree) returns (outcome: Outcome)
      requires tree == before && Safe(before, tree, previous, entries)
      modifies `tree, `fuel
      ensures Safe(before, tree, previous, entries)
      ensures forall p :: p in tree ==> p in before && tree[p] == before[p]
      ensures outcome == Done ==> forall p :: p in tree ==> p !in previous - entries
      ensures outcome.Raised? ==> exists p :: p in previous - entries && IsDir(before, p)
      ensures (fuel.None? <==> old(fuel).None?) && (outcome == Died ==> fuel == Some(0))
    {
      var todo := previous - entries;
      while todo != {}
        invariant todo <= previous - entries
        invariant fuel.None? <==> old(fuel).None?
        invariant Safe(before, tree, previous, entries)
        invariant forall p :: p in tree ==> p in before && tree[p] == before[p]
        invariant forall p :: p in tree && p in previous - entries ==> p in todo
        decreases todo
      {
        var name :| name in todo;
        if name in tree {
          if tree[name].Dir? { return Raised(UnlinkFailed); }
          var alive := Tick();
          if !alive { return Died; }
          UnlinkIsSafe(before, tree, previous, entries, name);
          tree := tree - {name};
        }
        todo := todo - {name};
      }
      return Done;
    }

    /** Try to remove every directory, deepest first; one that is not empty stays. */
    method PruneDirectories(previous: set<Path>, entries: set<Path>, ghost before: Tree) returns (outcome: Outcome)
      requires Safe(before, tree, previous, entries)
      requires forall p :: p in tree ==> if tree[p].Dir? then AboveSome(p, previous) else p in entries
      modifies `tree, `fuel
      ensures Safe(before, tree, previous, entries)
      ensures forall p :: p in tree ==> p in old(tree) && tree[p] == old(tree)[p]
      ensures forall p :: IsFile(old(tree), p) ==> p in tree
      ensures outcome == Done ==> Tidy(tree, entries)
      ensures !outcome.Raised?
      ensures (fuel.None? <==> old(fuel).None?) && (outcome == Died ==> fuel == Some(0))
    {
      hide Safe, Pruning, AboveSome;
      var todo := set p | p in tree && tree[p].Dir?;
      PruneStarts(before, tree, todo, previous, entries);
      while todo != {}
        invariant fuel.None? <==> old(fuel).None?
        invariant Safe(before, tree, previous, entries) && Pruning(old(tree), tree, todo, previous, entries)
        decreases todo
      {
        ghost var deepest := Deepest(todo);
        var d :| d in todo && NoDeeper(todo, d);
        var alive := Tick();
        if !alive {
          PruneKeepsFiles(old(tree), tree, todo, previous, entries);
          return Died;
        }
        if exists q :: q in tree && Above(d, q) {
          PruneKeeps(before, old(tree), tree, todo, previous, entries, d);
        } else {
          PruneDrops(before, old(tree), tree, todo, previous, entries, d);
          tree := tree - {d};
        }
        todo := todo - {d};
      }
      PruneKeepsFiles(old(tree), tree, todo, previous, entries);
      return Done;
    }

    /** `target.parent.mkdir(parents=True, exist_ok=True)` */
    method MakeParents(name: Path, ghost previous: set<Path>, ghost entries: set<Path>, ghost before: Tree)
      returns (outcome: Outcome)
      requires Safe(before, tree, previous, entries) && Tidy(tree, entries)
      requires name in entries && name != []
      modifies `tree, `fuel
      ensures Safe(before, tree, previous, entries) && Tidy(tree, entries)
      ensures forall p :: p in old(tree) ==> p in tree && tree[p] == old(tree)[p]
      ensures forall p :: p in tree && p !in old(tree) ==> tree[p] == Dir
      ensures outcome == Done ==> Parented(tree, name)
      ensures Parented(old(tree), name) ==> tree == old(tree)
      ensures PrefixFree(entries) ==> !outcome.Raised?
      ensures (fuel.None? <==> old(fuel).None?) && (outcome == Died ==> fuel == Some(0))
    {
      hide Safe, PrefixFree;
      for k := 1 to |name|
        invariant Safe(before, tree, previous, entries) && Tidy(tree, entries)
        invariant forall p :: p in old(tree) ==> p in tree && tree[p] == old(tree)[p]
        invariant forall p :: p in tree && p !in old(tree) ==> tree[p] == Dir
        invariant forall j :: 1 <= j < k ==> IsDir(tree, name[..j])
        invariant fuel.None? <==> old(fuel).None?
        invariant Parented(old(tree), name) ==> tree == old(tree)
      {
        var d := name[..k];
        assert Above(d, name);
        assert forall j :: 1 <= j < k ==> d[..j] == name[..j];
        if d !in tree {
          var alive := Tick();
          if !alive { return Died; }
          MkdirIsSafe(before, tree, previous, entries, d);
          tree := tree[d := Dir];
        } else if !tree[d].Dir? {
          NotPrefixFree(entries, d, name);
          return Raised(NotADirectory);
        }
      }
      return Done;
    }

    /** Write one entry: its parent directories, its bytes unless they are already there, its mode.
        Writing truncates first, so a stop can leave the file with no valid content. */
    method WriteEntry(name: Path, entry: Entry, snapshot: map<Path, string>,
                      ghost previous: set<Path>, ghost entries: set<Path>, ghost before: Tree)
      returns (outcome: Outcome)
      requires Safe(before, tree, previous, entries) && Tidy(tree, entries)
      requires name in entries && name != []
      modifies `tree, `fuel
      ensures Safe(before, tree, previous, entries) && Tidy(tree, entries)
      ensures forall p :: IsFile(old(tree), p) ==> IsFile(tree, p) && (p != name ==> tree[p] == old(tree)[p])
      ensures forall p :: IsFile(tree, p) && p != name ==> IsFile(old(tree), p)
      ensures outcome == Done ==> IsFile(tree, name) && tree[name].mode == entry.mode
      ensures outcome == Done && name in snapshot && snapshot[name] == entry.digest ==>
        Matches(tree, name, entry)
      ensures PrefixFree(entries) && name in snapshot ==>
        if superuser || MayWrite(old(tree), name, entry) then !outcome.Raised?
        else outcome in {Died, Raised(PermissionDenied)}
      ensures Matches(old(tree), name, entry) && Parented(old(tree), name) ==> tree == old(tree)
      ensures (fuel.None? <==> old(fuel).None?) && (outcome == Died ==> fuel == Some(0))
    {
      hide Safe, Tidy, Parented, PrefixFree, Readable, Writable;
      outcome := MakeParents(name, previous, entries, before);
      if outcome != Done { return; }
      outcome := WriteFile(name, entry, snapshot, previous, entries, before);
    }

    method WriteFile(name: Path, entry: Entry, snapshot: map<Path, string>,
                     ghost previous: set<Path>, ghost entries: set<Path>, ghost before: Tree)
      returns (outcome: Outcome)
      requires Safe(before, tree, previous, entries) && Tidy(tree, entries)
      requires name in entries && Parented(tree, name)
      modifies `tree, `fuel
      ensures Safe(before, tree, previous, entries) && Tidy(tree, entries)
      ensures forall p :: IsFile(old(tree), p) ==> IsFile(tree, p) && (p != name ==> tree[p] == old(tree)[p])
      ensures forall p :: IsFile(tree, p) && p != name ==> IsFile(old(tree), p)
      ensures outcome == Done ==> IsFile(tree, name) && tree[name].mode == entry.mode
      ensures outcome == Done && name in snapshot && snapshot[name] == entry.digest ==>
        Matches(tree, name, entry)
      ensures PrefixFree(entries) && name in snapshot ==>
        if superuser || MayWrite(old(tree), name, entry) then !outcome.Raised?
        else outcome in {Died, Raised(PermissionDenied)}
      ensures Matches(old(tree), name, entry) ==> tree == old(tree)
      ensures (fuel.None? <==> old(fuel).None?) && (outcome == Died ==> fuel == Some(0))
    {
      hide Safe, Parented, Tidy, Readable, Writable;
      TidyHasNoLink(tree, entries, name);
      if name in tree && tree[name].Dir? { return Raised(IsADirectory); }
      if name in tree && !superuser && !Readable(tree[name].mode) { return Raised(PermissionDenied); }
      if name !in tree || tree[name].digest != entry.digest {
        if name !in snapshot { return Raised(SnapshotMissing); }
        if !superuser && !Readable(entry.mode) { return Raised(PermissionDenied); }
        if name in tree && !superuser && !Writable(tree[name].mode) { return Raised(PermissionDenied); }
        var mode := if name in tree then tree[name].mode else newFileMode;
        var alive := Tick();
        if !alive { return Died; }
        WriteIsSafe(before, tree, previous, entries, name, File(mode, ""));
        tree := tree[name := File(mode, "")];
        alive := Tick();
        if !alive { return Died; }
        WriteIsSafe(before, tree, previous, entries, name, File(mode, snapshot[name]));
        tree := tree[name := File(mode, snapshot[name])];
      }
      var alive := Tick();
      if !alive { return Died; }
      WriteIsSafe(before, tree, previous, entries, name, File(entry.mode, tree[name].digest));
      tree := tree[name := File(entry.mode, tree[name].digest)];
      return Done;
    }

    method WriteEntries(entries: map<Path, Entry>, snapshot: map<Path, string>,
                        ghost previous: set<Path>, ghost before: Tree) returns (outcome: Outcome)
      requires Safe(before, tree, previous, entries.Keys) && Tidy(tree, entries.Keys) && Names(entries.Keys)
      modifies `tree, `fuel
      ensures Safe(before, tree, previous, entries.Keys) && Tidy(tree, entries.Keys)
      ensures outcome == Done ==> forall name :: name in entries ==> IsFile(tree, name)
      ensures outcome == Done && Faithful(snapshot, entries) ==>
        forall name :: name in entries ==> Matches(tree, name, entries[name])
      ensures PrefixFree(entries.Keys) && Faithful(snapshot, entries) ==>
        if superuser || AllMayWrite(old(tree), entries) then !outcome.Raised?
        else outcome in {Died, Raised(PermissionDenied)}
      ensures Exact(old(tree), entries) ==> tree == old(tree)
      ensures (fuel.None? <==> old(fuel).None?) && (outcome == Died ==> fuel == Some(0))
    {
      hide Safe, Tidy, Exact, MayWrite, Readable, Writable, PrefixFree, Parented, Matches;
      var todo := entries.Keys;
      while todo != {}
        invariant todo <= entries.Keys
        invariant Safe(before, tree, previous, entries.Keys) && Tidy(tree, entries.Keys)
        invariant forall name :: name in entries && name !in todo ==> IsFile(tree, name)
        invariant Faithful(snapshot, entries) ==>
          forall name :: name in entries && name !in todo ==> Matches(tree, name, entries[name])
        invariant Exact(old(tree), entries) ==> tree == old(tree)
        invariant SameFiles(old(tree), tree, todo)
        invariant PrefixFree(entries.Keys) && Faithful(snapshot, entries) && !superuser ==>
          forall name :: name in entries && name !in todo ==> MayWrite(old(tree), name, entries[name])
        invariant fuel.None? <==> old(fuel).None?
        decreases todo
      {
        var name :| name in todo;
        ghost var was := tree;
        ExactHolds(tree, entries, name);
        SameMayWrite(old(tree), tree, name, entries[name]);
        outcome := WriteEntry(name, entries[name], snapshot, previous, entries.Keys, before);
        if outcome != Done { return; }
        StillMatch(was, tree, entries, todo, name);
        todo := todo - {name};
      }
      return Done;
    }

    /** The verification loop: modes first, then digests, which must be readable. */
    method Verify(entries: map<Path, Entry>) returns (outcome: Outcome)
      requires forall name :: name in entries ==> IsFile(tree, name)
      ensures outcome == Done <==>
        && (forall name :: name in entries ==> Matches(tree, name, entries[name]))
        && (superuser || AllReadable(entries))
      ensures outcome in {Done, Raised(VerificationFailed), Raised(PermissionDenied)}
      ensures (forall name :: name in entries ==> Matches(tree, name, entries[name])) ==>
        outcome != Raised(VerificationFailed)
    {
      hide Readable;
      var todo := entries.Keys;
      while todo != {}
        invariant todo <= entries.Keys
        invariant forall name :: name in entries && name !in todo ==>
          Matches(tree, name, entries[name]) && (superuser || Readable(entries[name].mode))
        decreases todo
      {
        var name :| name in todo;
        if tree[name].mode != entries[name].mode { return Raised(VerificationFailed); }
        if !superuser && !Readable(entries[name].mode) { return Raised(PermissionDenied); }
        if tree[name].digest != entries[name].digest { return Raised(VerificationFailed); }
        todo := todo - {name};
      }
      return Done;
    }

    /** Everything between the marker and the manifest. */
    method Project(snapshot: map<Path, string>, entries: map<Path, Entry>, previous: set<Path>)
      returns (outcome: Outcome)
      requires WellFormed(tree) && Names(entries.Keys) && ScanOk(tree, previous)
      modifies `tree, `fuel
      ensures Safe(old(tree), tree, previous, entries.Keys)
      ensures outcome == Done ==> Exact(tree, entries)
      ensures PrefixFree(previous) && PrefixFree(entries.Keys) && Faithful(snapshot, entries) ==>
        if superuser || Permitted(old(tree), entries) then !outcome.Raised?
        else outcome in {Died, Raised(PermissionDenied)}
      ensures Exact(old(tree), entries) && previous == entries.Keys ==> tree == old(tree)
      ensures (fuel.None? <==> old(fuel).None?) && (outcome == Died ==> fuel == Some(0))
    {
      hide Safe, Tidy, Exact, ScanOk, PrefixFree, Faithful, Permitted, AllMayWrite, AllReadable, SameFiles;
      ghost var before := tree;
      ScanIsSafe(tree, previous, entries.Keys);
      outcome := RemoveStale(previous, entries.Keys, before);
      UnchangedIfExact(before, tree, previous, entries);
      if outcome.Raised? { OwnedDirectory(before, previous); }
      if outcome != Done { return; }
      AfterStale(before, tree, previous, entries.Keys);
      outcome := PruneDirectories(previous, entries.Keys, before);
      UnchangedIfExact(before, tree, previous, entries);
      if outcome != Done { return; }
      RemovalKeepsEntries(before, tree, previous, entries.Keys);
      SameFilesMayWrite(before, tree, entries);
      PermittedParts(before, entries);
      outcome := WriteEntries(entries, snapshot, previous, before);
      if outcome != Done { return; }
      outcome := Verify(entries);
      if outcome == Done { VerifiedIsExact(before, tree, previous, entries); }
    }

    /** `sync_source`. `sourceOk` is whether the private-directory check on `src` passes. */
    method SyncSource(snapshot: map<Path, string>, entries: map<Path, Entry>, sourceOk: bool)
      returns (outcome: Outcome)
      requires WellFormed(tree) && Names(entries.Keys)
      modifies this
      // Nothing changes before the marker exists, at whatever point the process stops.
      ensures tree != old(tree) || manifest != old(manifest) ==> marker == Present
      ensures marker == old(marker) || marker == Present
      // No file outside the previous manifest and the new entries is touched.
      ensures tree == old(tree) || (PreviousManifest(old(manifest)).Ok?
        && Safe(old(tree), tree, PreviousManifest(old(manifest)).value.Keys, entries.Keys))
      // The stored manifest is replaced only once the tree is exactly the entries.
      ensures manifest != old(manifest) ==> Exact(tree, entries)
      ensures outcome == Done ==> Exact(tree, entries) && manifest == Written(entries) && marker == Present
      // An honest snapshot of a real listing into an untampered lane succeeds
      // exactly when permission bits allow it; left to finish, it completes or leaves the lane blocked.
      ensures Ready(old(tree), old(manifest), old(marker), snapshot, entries) && sourceOk ==>
        if superuser || Permitted(old(tree), entries) then !outcome.Raised? else outcome != Done
      ensures Ready(old(tree), old(manifest), old(marker), snapshot, entries) && sourceOk && old(fuel).None? ==>
        && (outcome == Done <==> superuser || Permitted(old(tree), entries))
        && (outcome != Done ==> outcome == Raised(PermissionDenied) && marker == Present)
      // A refused lane is left as it was, and nothing else keeps the marker from being set.
      ensures if Refused(old(tree), old(manifest), old(marker), sourceOk)
        then outcome.Raised? && tree == old(tree) && manifest == old(manifest) && marker == old(marker)
        else marker == Present || outcome == Died
      ensures old(manifest) == Link || old(marker) == MarkerLink ==> outcome == Raised(SymlinkedMetadata)
      ensures old(marker) != MarkerLink && PreviousManifest(old(manifest)).Ok? ==>
        && (!sourceOk ==> outcome == Raised(BadSourceDirectory))
        && (sourceOk && !ScanOk(old(tree), PreviousManifest(old(manifest)).value.Keys) ==>
              outcome == Raised(UnexpectedPath))
      // A lane that already holds the entries is not rewritten.
      ensures Exact(old(tree), entries) && PreviousManifest(old(manifest)) == Ok(entries) ==> tree == old(tree)
      ensures (fuel.None? <==> old(fuel).None?) && (outcome == Died ==> fuel == Some(0))
    {
      hide Safe, Exact, ScanOk, PrefixFree, Written, Faithful, Permitted;
      if manifest == Link || marker == MarkerLink { return Raised(SymlinkedMetadata); }
      var loaded := PreviousManifest(manifest);
      if loaded.Err? { return Raised(loaded.error); }
      var previous := loaded.value;
      if !sourceOk { return Raised(BadSourceDirectory); }
      if !ScanOk(tree, previous.Keys) { return Raised(UnexpectedPath); }
      var alive := Tick();
      if !alive { return Died; }
      marker := Present;
      outcome := Project(snapshot, entries, previous.Keys);
      if outcome != Done { return; }
      alive := Tick();
      if !alive { return Died; }
      manifest := Unreadable;
      alive := Tick();
      if !alive { return Died; }
      manifest := Written(entries);
      return Done;
    }
  }

  /** The snapshot holds every entry's captured bytes. */
  predicate Faithful(snapshot: map<Path, string>, entries: map<Path, Entry>) {
    forall name | name in entries :: name in snapshot && snapshot[name] == entries[name].digest
  }

  /** What stops a sync before it changes anything: linked metadata, a manifest that does not validate, a
      source directory that is not private, or a path the previous sync did not leave. */
  predicate Refused(tree: Tree, manifest: ManifestFile, marker: Marker, sourceOk: bool) {
    || manifest == Link || marker == MarkerLink || !sourceOk
    || PreviousManifest(manifest).Err? || !ScanOk(tree, PreviousManifest(manifest).value.Keys)
  }

  predicate Ready(tree: Tree, manifest: ManifestFile, marker: Marker,
                  snapshot: map<Path, string>, entries: map<Path, Entry>) {
    && marker == Absent && PreviousManifest(manifest).Ok?
    && ScanOk(tree, PreviousManifest(manifest).value.Keys)
    && PrefixFree(PreviousManifest(manifest).value.Keys) && PrefixFree(entries.Keys)
    && Faithful(snapshot, entries)
  }

  lemma ScanIsSafe(tree: Tree, previous: set<Path>, entries: set<Path>)
    requires WellFormed(tree) && ScanOk(tree, previous)
    ensures Safe(tree, tree, previous, entries)
  {
  }

  lemma AfterStale(before: Tree, tree: Tree, previous: set<Path>, entries: set<Path>)
    requires ScanOk(before, previous)
    requires forall p :: p in tree ==> p in before && tree[p] == before[p]
    requires forall p :: p in tree ==> p !in previous - entries
    ensures forall p :: p in tree ==> if tree[p].Dir? then AboveSome(p, previous) else p in entries
  {
    forall p | p in tree ensures if tree[p].Dir? then AboveSome(p, previous) else p in entries {
      assert Owned(before, p, previous);
    }
  }

  /** With nothing stale, removing empty directories removes none of an exact tree. */
  lemma UnchangedIfExact(before: Tree, tree: Tree, previous: set<Path>, entries: map<Path, Entry>)
    requires Safe(before, tree, previous, entries.Keys)
    requires forall p :: p in tree ==> p in before && tree[p] == before[p]
    ensures Exact(before, entries) && previous == entries.Keys ==> tree == before
  {
    if Exact(before, entries) && previous == entries.Keys {
      forall p | p in before ensures p in tree {
        if p in entries {
          assert Matches(before, p, entries[p]) && IsFile(before, p);
        } else {
          var q :| q in entries && Above(p, q);
          assert Matches(before, q, entries[q]) && IsFile(before, q);
          assert Parented(tree, q) && q[..|p|] == p;
        }
      }
    }
  }

  lemma VerifiedIsExact(before: Tree, tree: Tree, previous: set<Path>, entries: map<Path, Entry>)
    requires Safe(before, tree, previous, entries.Keys) && Tidy(tree, entries.Keys)
    requires forall name :: name in entries ==> Matches(tree, name, entries[name])
    ensures Exact(tree, entries)
  {
  }

  lemma OwnedDirectory(tree: Tree, previous: set<Path>)
    requires ScanOk(tree, previous) && exists p :: p in previous && IsDir(tree, p)
    ensures !PrefixFree(previous)
  {
    var p :| p in previous && IsDir(tree, p);
    assert Owned(tree, p, previous);
    var q :| q in previous && Above(p, q);
  }

  predicate NoDeeper(todo: set<Path>, d: Path) {
    forall c | c in todo :: |c| <= |d|
  }

  lemma {:induction false} Deepest(todo: set<Path>) returns (d: Path)
    requires todo != {}
    ensures d in todo && NoDeeper(todo, d)
  {
    var p :| p in todo;
    var rest := todo - {p};
    d := p;
    if rest == {} {
      assert forall c | c in todo :: c == p by { assert todo == rest + {p}; }
    } else {
      hide NoDeeper;
      var e := Deepest(rest);
      Deeper(todo, rest, p, e);
      d := if |p| <= |e| then e else p;
    }
  }

  lemma Deeper(todo: set<Path>, rest: set<Path>, p: Path, e: Path)
    requires rest == todo - {p} && NoDeeper(rest, e)
    ensures NoDeeper(todo, if |p| <= |e| then e else p)
  {
  }

  /** A directory that could not be removed lies above a file that stays. */
  lemma KeptIsAbove(tree: Tree, entries: set<Path>, todo: set<Path>, d: Path)
    requires WellFormed(tree) && d in todo && IsDir(tree, d)
    requires forall p :: p in tree ==> tree[p].Dir? || p in entries
    requires NoDeeper(todo, d)
    requires forall c :: IsDir(tree, c) && c !in todo ==> AboveSome(c, entries)
    requires exists q :: q in tree && Above(d, q)
    ensures AboveSome(d, entries)
  {
    var q :| q in tree && Above(d, q);
    if tree[q].Dir? {
      assert IsDir(tree, q) && q !in todo;
      var r :| r in entries && Above(q, r);
      assert r[..|d|] == q[..|d|];
      assert Above(d, r);
    }
  }

  // ----- what the result means for the next run

  /** The projected tree is determined by the entries alone, whatever the lane held before. */
  lemma ExactIsUnique(a: Tree, b: Tree, entries: map<Path, Entry>)
    requires Exact(a, entries) && Exact(b, entries)
    ensures a == b
  {
    ExactWithin(a, b, entries);
    ExactWithin(b, a, entries);
  }

  lemma ExactWithin(a: Tree, b: Tree, entries: map<Path, Entry>)
    requires Exact(a, entries) && Exact(b, entries)
    ensures forall p :: p in a ==> p in b && b[p] == a[p]
  {
    forall p | p in a ensures p in b && b[p] == a[p] {
      if p !in entries {
        var q :| q in entries && Above(p, q);
        assert Matches(b, q, entries[q]) && Parented(b, q);
        assert q[..|p|] == p;
      }
    }
  }

  predicate NamesAndDigestsOk(entries: map<Path, Entry>) {
    forall name | name in entries ::
      name != [] && (forall i | 0 <= i < |name| :: ValidComponent(name[i])) && ValidDigest(entries[name].digest)
  }

  predicate PlainModes(entries: map<Path, Entry>) {
    forall name | name in entries :: 0 <= entries[name].mode <= 0x1FF
  }

  /** What a completed sync leaves passes the next sync's ownership scan; its stored manifest passes validation,
      and reads back as the entries, exactly when no mode has a bit beyond 0o777. */
  lemma ExactIsAccepted(tree: Tree, entries: map<Path, Entry>)
    requires Exact(tree, entries) && NamesAndDigestsOk(entries)
    ensures ScanOk(tree, entries.Keys) && PrefixFree(entries.Keys)
    ensures PreviousManifest(Written(entries)) == if PlainModes(entries) then Ok(entries) else Err(InvalidManifest)
  {
    hide ValidComponent, ValidDigest;
    ExactIsScanned(tree, entries);
    var raw := Written(entries).entries;
    forall name | name in entries
      ensures ValidRaw(name, raw[name]) <==> 0 <= entries[name].mode <= 0x1FF
    {
      assert raw[name] == Pair(entries[name].mode, entries[name].digest);
    }
    if PlainModes(entries) {
      assert PreviousManifest(Written(entries)).value == entries;
    }
  }

  lemma ExactIsScanned(tree: Tree, entries: map<Path, Entry>)
    requires Exact(tree, entries)
    ensures ScanOk(tree, entries.Keys) && PrefixFree(entries.Keys)
  {
    forall p, q | p in entries && q in entries ensures !Above(p, q) {
      assert Matches(tree, p, entries[p]) && Matches(tree, q, entries[q]) && Parented(tree, q);
      assert !(tree[p] == Dir);
    }
  }

  /** A digest of one repeated digit. */
  function Digits(c: char): (r: string)
    ensures '0' <= c <= '9' ==> ValidDigest(r)
  {
    seq(64, _ => c)
  }

  function OneFile(mode: int, digest: string): Tree {
    map[["a"] := File(mode, digest)]
  }

  function OneEntry(mode: int, digest: string): map<Path, Entry> {
    map[["a"] := Entry(mode, digest)]
  }

  lemma OneFileIsExact(mode: int, digest: string)
    ensures Exact(OneFile(mode, digest), OneEntry(mode, digest)) && PrefixFree(OneEntry(mode, digest).Keys)
    ensures ValidDigest(digest) ==> NamesAndDigestsOk(OneEntry(mode, digest))
  {
    hide ValidDigest;
    assert OneEntry(mode, digest).Keys == {["a"]};
  }

  /** One set-user-ID file, mode 0o4755, permitted and projected like any other, and the lane's own manifest is
      refused from then on. */
  lemma SetUserIdLocksOut() returns (tree: Tree, entries: map<Path, Entry>)
    ensures Exact(tree, entries) && NamesAndDigestsOk(entries) && Permitted(map[], entries)
    ensures PreviousManifest(Written(entries)) == Err(InvalidManifest)
  {
    hide ValidDigest, PreviousManifest, Exact;
    tree, entries := OneFile(0x9ED, Digits('1')), OneEntry(0x9ED, Digits('1'));
    OneFileIsExact(0x9ED, Digits('1'));
    assert ["a"] in entries && entries[["a"]].mode == 0x9ED;
    ExactIsAccepted(tree, entries);
  }

  /** After a completed sync of `earlier`, permission for the next capture is a matter of the two captures: nothing
      in the new one may be unreadable, nothing kept may have been, and nothing whose content changes may have
      been recorded without owner write. */
  lemma NextSyncPermitted(tree: Tree, earlier: map<Path, Entry>, entries: map<Path, Entry>)
    requires Exact(tree, earlier)
    ensures Permitted(tree, entries) <==>
      forall name | name in entries ::
        && Readable(entries[name].mode)
        && (name in earlier ==>
              && Readable(earlier[name].mode)
              && (earlier[name].digest == entries[name].digest || Writable(earlier[name].mode)))
  {
    hide Readable, Writable;
    forall name | name in entries
      ensures IsFile(tree, name) <==> name in earlier
      ensures name in earlier ==> tree[name] == File(earlier[name].mode, earlier[name].digest)
    {
      if name in earlier { assert Matches(tree, name, earlier[name]); }
    }
  }

  /** A read-only file whose content changes between two captures: the lane is in order, the snapshot honest, and
      the sync cannot complete. */
  lemma ReadOnlyChangeBlocks()
    returns (tree: Tree, entries: map<Path, Entry>, snapshot: map<Path, string>, previous: map<Path, Entry>)
    ensures Exact(tree, previous) && Ready(tree, Written(previous), Absent, snapshot, entries)
    ensures !Permitted(tree, entries)
  {
    hide ValidDigest, PreviousManifest, Exact, ScanOk, PrefixFree, NamesAndDigestsOk;
    var name, before, after := ["a"], Digits('1'), Digits('2');
    previous, entries := OneEntry(0x124, before), OneEntry(0x124, after);
    tree, snapshot := OneFile(0x124, before), map[name := after];
    OneFileIsExact(0x124, before);
    OneFileIsExact(0x124, after);
    assert name in previous && previous[name].mode == 0x124;
    ExactIsAccepted(tree, previous);
    assert before[0] != after[0] && name in entries && IsFile(tree, name);
    assert !Writable(0x124);
  }
}
