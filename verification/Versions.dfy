/** Versions of project documents: a forest of files linked to the version before, walked up and down again. */
module Versions {
  import opened Outcomes

  datatype Category = Scope | Budget | Mockup | Documentation | OtherDocument

  /** A file is named by its position; files are soft-deleted, so positions stay. */
  datatype File = File(
    parent: Option<nat>,
    version: nat,
    deleted: bool,
    project: Option<nat>,
    category: Option<Category>,
    clientVisible: bool)

  datatype Error = FileNotFound | InvalidFileType

  // ---------------------------------------------------------------- the forest

  /** A link points at an older file of the version before; a file without a link is the first version. */
  predicate LinkOk(files: seq<File>, i: nat)
    requires i < |files|
  {
    match files[i].parent
    case None => files[i].version == 1
    case Some(p) => p < i && files[i].version == files[p].version + 1
  }

  predicate IsLiveChild(files: seq<File>, i: nat, c: nat) {
    c < |files| && files[c].parent == Some(i) && !files[c].deleted
  }

  predicate OneLiveChild(files: seq<File>, c: nat, d: nat)
    requires c < |files| && d < |files|
  {
    files[c].parent.Some? && files[c].parent == files[d].parent ==> files[c].deleted || files[d].deleted
  }

  predicate Forest(files: seq<File>) {
    && (forall i {:trigger LinkOk(files, i)} :: 0 <= i < |files| ==> LinkOk(files, i))
    && (forall c, d {:trigger OneLiveChild(files, c, d)} :: 0 <= c < d < |files| ==> OneLiveChild(files, c, d))
  }

  function Root(files: seq<File>, i: nat): (r: nat)
    requires Forest(files) && i < |files|
    ensures r < |files|
  {
    assert LinkOk(files, i);
    if files[i].parent.None? then i else Root(files, files[i].parent.value)
  }

  predicate InTree(files: seq<File>, root: nat, i: nat)
    requires Forest(files)
  {
    i < |files| && Root(files, i) == root
  }

  lemma {:induction false} VersionsAreBounded(files: seq<File>, i: nat)
    requires Forest(files) && i < |files|
    ensures 1 <= files[i].version <= i + 1
    ensures files[i].version == 1 <==> i == Root(files, i)
    ensures files[Root(files, i)].parent.None?
  {
    assert LinkOk(files, i);
    if files[i].parent.Some? {
      VersionsAreBounded(files, files[i].parent.value);
    }
  }

  // ---------------------------------------------------------------- creating versions

  /** The live child with the highest version among the first files. */
  function LiveChildUpTo(files: seq<File>, i: nat, n: nat): (found: Option<nat>)
    requires n <= |files|
    ensures found.Some? ==> found.value < n && IsLiveChild(files, i, found.value)
    ensures found.Some? ==> forall c :: 0 <= c < n && IsLiveChild(files, i, c) ==>
          files[c].version <= files[found.value].version
    ensures found.None? ==> forall c :: 0 <= c < n ==> !IsLiveChild(files, i, c)
  {
    if n == 0 then None
    else
      var best := LiveChildUpTo(files, i, n - 1);
      if IsLiveChild(files, i, n - 1) && (best.None? || files[best.value].version < files[n - 1].version)
      then Some(n - 1) else best
  }

  function LiveChild(files: seq<File>, i: nat): Option<nat> {
    LiveChildUpTo(files, i, |files|)
  }

  /** The last file of the walk down through live children; behind a deleted one, newer files can be out of reach. */
  function Head(files: seq<File>, i: nat): (h: nat)
    requires Forest(files) && i < |files|
    ensures h < |files|
    decreases |files| - i
  {
    var child := LiveChild(files, i);
    if child.None? then i
    else
      assert LinkOk(files, child.value);
      Head(files, child.value)
  }

  /** The head is in the same tree, no older than where the walk started, and nothing live follows it. */
  lemma {:induction false} HeadEndsTheChain(files: seq<File>, i: nat)
    requires Forest(files) && i < |files|
    ensures var h := Head(files, i);
            && Root(files, h) == Root(files, i) && files[i].version <= files[h].version
            && (forall c: nat :: !IsLiveChild(files, h, c))
            && (h != i ==> !files[h].deleted)
    decreases |files| - i
  {
    var child := LiveChild(files, i);
    if child.Some? {
      assert LinkOk(files, child.value);
      HeadEndsTheChain(files, child.value);
    }
  }

  function Upload(files: seq<File>, project: Option<nat>, category: Option<Category>, visible: bool): seq<File> {
    files + [File(None, 1, false, project, category, visible)]
  }

  function CreateVersion(files: seq<File>, i: nat): Result<seq<File>, Error>
    requires Forest(files)
  {
    if i >= |files| then Err(FileNotFound)
    else
      var head := files[Head(files, i)];
      if head.project.None? then Err(InvalidFileType)
      else
        var parent := Some(Head(files, i));
        var next := File(parent, head.version + 1, false, head.project, head.category, head.clientVisible);
        Ok(files + [next])
  }

  /**
   * A new version hangs from a file of the tree that nothing live follows, one version higher, and is that file's
   * document: same project, category and visibility. It is refused only where there is no project document.
   */
  ghost predicate Follows(files: seq<File>, i: nat, r: Result<seq<File>, Error>)
    requires Forest(files)
  {
    && (r == Err(FileNotFound) <==> i >= |files|)
    && (r.Err? && i < |files| ==>
          && r == Err(InvalidFileType)
          && exists h: nat :: InTree(files, Root(files, i), h) && files[h].project.None? &&
               forall c: nat :: !IsLiveChild(files, h, c))
    && (r.Ok? ==>
          && i < |files| && |r.value| == |files| + 1 && r.value[..|files|] == files
          && var next := r.value[|files|];
             && next.parent.Some? && next.parent.value < |files| && !next.deleted
             && var head := files[next.parent.value];
                && Root(files, next.parent.value) == Root(files, i)
                && (forall c: nat :: !IsLiveChild(files, next.parent.value, c))
                && next.version == head.version + 1 && next.project == head.project && next.project.Some?
                && next.category == head.category && next.clientVisible == head.clientVisible)
  }

  lemma NewVersionFollowsItsHead(files: seq<File>, i: nat)
    requires Forest(files)
    ensures Follows(files, i, CreateVersion(files, i))
  {
    if i < |files| {
      HeadEndsTheChain(files, i);
      assert InTree(files, Root(files, i), Head(files, i));
    }
  }

  function SoftDelete(files: seq<File>, i: nat): Result<seq<File>, Error> {
    if i >= |files| then Err(FileNotFound)
    else if files[i].project.None? then Err(InvalidFileType)
    else Ok(files[i := files[i].(deleted := true)])
  }

  lemma ForestGrows(files: seq<File>, file: File)
    requires Forest(files)
    requires file.parent.None? ==> file.version == 1
    requires file.parent.Some? ==>
      && file.parent.value < |files| && file.version == files[file.parent.value].version + 1
      && (forall c: nat :: !IsLiveChild(files, file.parent.value, c))
    ensures Forest(files + [file])
  {
    var all := files + [file];
    forall i | 0 <= i < |all|
      ensures LinkOk(all, i)
    {
      if i < |files| {
        assert LinkOk(files, i);
      }
    }
    forall c, d | 0 <= c < d < |all|
      ensures OneLiveChild(all, c, d)
    {
      if d < |files| {
        assert OneLiveChild(files, c, d);
      } else if file.parent.Some? {
        assert !IsLiveChild(files, file.parent.value, c);
      }
    }
  }

  /** Uploading, creating versions and deleting keep the forest: versions grow along links, nothing live forks. */
  lemma OperationsKeepForest(files: seq<File>, i: nat, project: Option<nat>, category: Option<Category>, visible: bool)
    requires Forest(files)
    ensures Forest(Upload(files, project, category, visible))
    ensures CreateVersion(files, i).Ok? ==> Forest(CreateVersion(files, i).value)
    ensures SoftDelete(files, i).Ok? ==> Forest(SoftDelete(files, i).value)
  {
    ForestGrows(files, File(None, 1, false, project, category, visible));
    if CreateVersion(files, i).Ok? {
      HeadEndsTheChain(files, i);
      ForestGrows(files, CreateVersion(files, i).value[|files|]);
    }
    if SoftDelete(files, i).Ok? {
      DeletingKeepsForest(files, i);
    }
  }

  lemma DeletingKeepsForest(files: seq<File>, i: nat)
    requires Forest(files) && i < |files|
    ensures Forest(files[i := files[i].(deleted := true)])
  {
    var after := files[i := files[i].(deleted := true)];
    forall j | 0 <= j < |after|
      ensures LinkOk(after, j)
    {
      assert LinkOk(files, j);
    }
    forall c, d | 0 <= c < d < |after|
      ensures OneLiveChild(after, c, d)
    {
      assert OneLiveChild(files, c, d);
    }
  }

  /**
   * A version number is not used once only: deleting the newest version of a document and creating another one from the
   * version before gives the same number again.
   */
  lemma DeletedNumberIsReused(files: seq<File>, i: nat)
    requires Forest(files) && i < |files| && files[i].parent.Some? && files[i].project.Some?
    requires !files[i].deleted && files[i].parent.value < |files| && files[files[i].parent.value].project.Some?
    ensures var before := SoftDelete(files, i).value;
            && SoftDelete(files, i).Ok? && Forest(before)
            && var r := CreateVersion(before, files[i].parent.value);
               r.Ok? && |r.value| == |files| + 1
               && r.value[|files|].parent == files[i].parent && r.value[|files|].version == files[i].version
  {
    var before := SoftDelete(files, i).value;
    var p := files[i].parent.value;
    DeletingKeepsForest(files, i);
    assert LinkOk(files, i);
    forall c: nat | c < |files|
      ensures !IsLiveChild(before, p, c)
    {
      if c < i {
        assert OneLiveChild(files, c, i);
      } else if c > i {
        assert OneLiveChild(files, i, c);
      }
    }
    assert LiveChild(before, p).None?;
  }

  // ---------------------------------------------------------------- when version numbers are unique

  ghost predicate UniqueNumbers(files: seq<File>, root: nat)
    requires Forest(files)
  {
    forall i: nat, j: nat :: i < j && InTree(files, root, i) && InTree(files, root, j) ==>
      files[i].version != files[j].version
  }

  /** Two versions made from the same one, whether they were deleted or not. */
  predicate Siblings(files: seq<File>, i: nat, j: nat)
    requires i < |files| && j < |files|
  {
    files[i].parent.Some? && files[i].parent == files[j].parent
  }

  ghost predicate NoSiblings(files: seq<File>, root: nat)
    requires Forest(files)
  {
    forall i: nat, j: nat :: i < j && InTree(files, root, i) && InTree(files, root, j) ==> !Siblings(files, i, j)
  }

  lemma {:induction false} SameNumberIsSameFile(files: seq<File>, root: nat, i: nat, j: nat)
    requires Forest(files) && NoSiblings(files, root) && InTree(files, root, i) && InTree(files, root, j)
    requires files[i].version == files[j].version
    ensures i == j
    decreases files[i].version
  {
    VersionsAreBounded(files, i);
    VersionsAreBounded(files, j);
    assert LinkOk(files, i) && LinkOk(files, j);
    if files[i].parent.Some? {
      SameNumberIsSameFile(files, root, files[i].parent.value, files[j].parent.value);
      assert i != j ==> Siblings(files, i, j) && Siblings(files, j, i);
    }
  }

  /** The version numbers of a document are unique exactly when no two of its files were made from the same one. */
  lemma NumbersAreUniqueExactly(files: seq<File>, root: nat)
    requires Forest(files)
    ensures UniqueNumbers(files, root) <==> NoSiblings(files, root)
  {
    if NoSiblings(files, root) {
      forall i: nat, j: nat | i < j && InTree(files, root, i) && InTree(files, root, j)
        ensures files[i].version != files[j].version
      {
        if files[i].version == files[j].version {
          SameNumberIsSameFile(files, root, i, j);
        }
      }
    }
    if UniqueNumbers(files, root) {
      forall i: nat, j: nat | i < j && InTree(files, root, i) && InTree(files, root, j)
        ensures !Siblings(files, i, j)
      {
        assert LinkOk(files, i) && LinkOk(files, j);
      }
    }
  }

  lemma {:induction false} RootIsKept(files: seq<File>, all: seq<File>, i: nat)
    requires Forest(files) && Forest(all) && files <= all && i < |files|
    ensures Root(all, i) == Root(files, i)
  {
    assert all[i] == files[i];
    assert LinkOk(files, i);
    if files[i].parent.Some? {
      RootIsKept(files, all, files[i].parent.value);
    }
  }

  /** Some file, deleted or not, was made from this one. */
  predicate HasChild(files: seq<File>, i: nat) {
    exists c :: 0 <= c < |files| && files[c].parent == Some(i)
  }

  /** A new file hung from a file of the tree has a sibling exactly if that file has a child already. */
  lemma HangingKeepsNoSiblings(files: seq<File>, all: seq<File>, root: nat)
    requires Forest(files) && Forest(all) && files <= all && |all| == |files| + 1 && NoSiblings(files, root)
    requires all[|files|].parent.Some? && InTree(files, root, all[|files|].parent.value)
    ensures NoSiblings(all, root) <==> !HasChild(files, all[|files|].parent.value)
  {
    var last, p := |files|, all[|files|].parent.value;
    assert LinkOk(all, last);
    RootIsKept(files, all, p);
    forall i: nat | i < |files|
      ensures all[i] == files[i] && (InTree(all, root, i) <==> InTree(files, root, i))
    {
      RootIsKept(files, all, i);
    }
    if HasChild(files, p) {
      var c: nat :| c < |files| && files[c].parent == Some(p);
      assert LinkOk(files, c);
      assert InTree(all, root, c) && InTree(all, root, last) && Siblings(all, c, last);
    } else {
      forall i: nat, j: nat | i < j && InTree(all, root, i) && InTree(all, root, j)
        ensures !Siblings(all, i, j)
      {
        if j < |files| {
          assert !Siblings(files, i, j);
        } else {
          assert files[i].parent != Some(p);
        }
      }
    }
  }

  /**
   * In a document whose numbers are unique, a new version keeps them unique exactly when no file was ever made from the
   * head, deleted ones included.
   */
  lemma NewNumberIsUniqueExactly(files: seq<File>, i: nat)
    requires Forest(files) && CreateVersion(files, i).Ok? && UniqueNumbers(files, Root(files, i))
    ensures Forest(CreateVersion(files, i).value)
    ensures UniqueNumbers(CreateVersion(files, i).value, Root(files, i)) <==> !HasChild(files, Head(files, i))
  {
    var all, root := CreateVersion(files, i).value, Root(files, i);
    OperationsKeepForest(files, i, None, None, false);
    HeadEndsTheChain(files, i);
    NumbersAreUniqueExactly(files, root);
    NumbersAreUniqueExactly(all, root);
    HangingKeepsNoSiblings(files, all, root);
  }

  // ---------------------------------------------------------------- the stored files

  function Insert(files: seq<File>, sorted: seq<nat>, i: nat): (r: seq<nat>)
    requires i < |files| && forall k :: 0 <= k < |sorted| ==> sorted[k] < |files|
    ensures forall k :: 0 <= k < |r| ==> r[k] < |files|
  {
    if sorted == [] || files[sorted[|sorted| - 1]].version <= files[i].version then sorted + [i]
    else Insert(files, sorted[..|sorted| - 1], i) + [sorted[|sorted| - 1]]
  }

  /** A stable sort by version. */
  function SortByVersion(files: seq<File>, ids: seq<nat>): (r: seq<nat>)
    requires forall k :: 0 <= k < |ids| ==> ids[k] < |files|
    ensures forall k :: 0 <= k < |r| ==> r[k] < |files|
  {
    if ids == [] then [] else Insert(files, SortByVersion(files, ids[..|ids| - 1]), ids[|ids| - 1])
  }

  predicate Ascending(files: seq<File>, ids: seq<nat>) {
    && (forall k :: 0 <= k < |ids| ==> ids[k] < |files|)
    && (forall j, k :: 0 <= j < k < |ids| ==> files[ids[j]].version <= files[ids[k]].version)
  }

  lemma {:induction false} SortOfAscending(files: seq<File>, ids: seq<nat>)
    requires Ascending(files, ids)
    ensures SortByVersion(files, ids) == ids
  {
    if ids != [] {
      SortOfAscending(files, ids[..|ids| - 1]);
    }
  }

  /** The tree up to a version: each file once, in ascending order. */
  ghost predicate Listed(files: seq<File>, root: nat, upTo: nat, ids: seq<nat>)
    requires Forest(files)
  {
    && Ascending(files, ids)
    && (forall i: nat :: i in ids <==> InTree(files, root, i) && files[i].version <= upTo)
    && (forall j, k :: 0 <= j < k < |ids| ==> ids[j] != ids[k])
  }

  /** One level of the tree. */
  ghost predicate Level(files: seq<File>, root: nat, version: nat, ids: seq<nat>)
    requires Forest(files)
  {
    && (forall i: nat :: i in ids <==> InTree(files, root, i) && files[i].version == version)
    && (forall j, k :: 0 <= j < k < |ids| ==> ids[j] != ids[k])
  }

  /** The children of a level are the next one. */
  lemma ChildrenAreNextLevel(files: seq<File>, root: nat, version: nat, ids: seq<nat>, i: nat)
    requires Forest(files) && Level(files, root, version, ids) && version >= 1 && i < |files|
    ensures files[i].parent.Some? && files[i].parent.value in ids <==>
            InTree(files, root, i) && files[i].version == version + 1
  {
    assert LinkOk(files, i);
  }

  /** Below an empty level there is nothing. */
  lemma {:induction false} NothingBelow(files: seq<File>, root: nat, version: nat, i: nat)
    requires Forest(files) && InTree(files, root, i) && files[i].version >= version >= 1
    ensures exists j: nat :: InTree(files, root, j) && files[j].version == version
  {
    assert LinkOk(files, i);
    if files[i].version > version {
      NothingBelow(files, root, version, files[i].parent.value);
    }
  }

  /** A level added to what is listed above it. */
  lemma ListedGrows(files: seq<File>, root: nat, version: nat, ids: seq<nat>, next: seq<nat>)
    requires Forest(files) && Listed(files, root, version, ids) && Level(files, root, version + 1, next)
    ensures Listed(files, root, version + 1, ids + next)
  {
    var all := ids + next;
    forall k | 0 <= k < |next|
      ensures next[k] < |files| && files[next[k]].version == version + 1 && next[k] !in ids
    {
      assert next[k] in next;
    }
    forall k | 0 <= k < |ids|
      ensures files[ids[k]].version <= version
    {
      assert ids[k] in ids;
    }
  }

  /** What is listed is everything, once some level at or just below its end is empty. */
  lemma ListedIsWhole(files: seq<File>, root: nat, version: nat, ids: seq<nat>, empty: nat)
    requires Forest(files) && Listed(files, root, version, ids) && 1 <= empty <= version + 1
    requires Level(files, root, empty, [])
    ensures forall i: nat :: i in ids <==> InTree(files, root, i)
  {
    forall i: nat | InTree(files, root, i)
      ensures i in ids
    {
      if files[i].version > version {
        NothingBelow(files, root, empty, i);
      }
    }
  }

  /** The files a query selects: the root if asked for, and the children of the given files; each once. */
  ghost predicate Selects(files: seq<File>, root: Option<nat>, parents: seq<nat>, ids: seq<nat>) {
    && (forall i: nat :: i in ids <==>
          i < |files| && (root == Some(i) || (files[i].parent.Some? && files[i].parent.value in parents)))
    && (forall j, k :: 0 <= j < k < |ids| ==> ids[j] < ids[k])
  }

  lemma NextLevel(files: seq<File>, root: nat, version: nat, parents: seq<nat>, ids: seq<nat>)
    requires Forest(files) && version >= 1 && Level(files, root, version, parents) && Selects(files, None, parents, ids)
    ensures Level(files, root, version + 1, ids)
    ensures Ascending(files, ids)
  {
    forall i: nat | i < |files|
      ensures i in ids <==> InTree(files, root, i) && files[i].version == version + 1
    {
      ChildrenAreNextLevel(files, root, version, parents, i);
    }
    forall k | 0 <= k < |ids|
      ensures ids[k] < |files| && files[ids[k]].version == version + 1
    {
      assert ids[k] in ids;
    }
  }

  lemma RootIsFirstLevel(files: seq<File>, root: nat)
    requires Forest(files) && root < |files| && files[root].parent.None?
    ensures InTree(files, root, root) && Level(files, root, 1, [root])
  {
    forall i: nat | InTree(files, root, i)
      ensures files[i].version == 1 <==> i == root
    {
      VersionsAreBounded(files, i);
    }
  }

  /** The first query, for the root and its children, is the tree up to its second version. */
  lemma FirstTwoLevels(files: seq<File>, root: nat, ids: seq<nat>)
    requires Forest(files) && root < |files| && files[root].parent.None? && Selects(files, Some(root), [root], ids)
    ensures Listed(files, root, 2, ids)
  {
    RootIsFirstLevel(files, root);
    forall i: nat | i < |files|
      ensures i in ids <==> InTree(files, root, i) && files[i].version <= 2
      ensures i in ids && i != root ==> files[i].version == 2 && root < i
    {
      ChildrenAreNextLevel(files, root, 1, [root], i);
      VersionsAreBounded(files, i);
      assert LinkOk(files, i);
    }
    forall k | 0 <= k < |ids|
      ensures ids[k] < |files|
    {
      assert ids[k] in ids;
    }
    forall j, k | 0 <= j < k < |ids|
      ensures files[ids[j]].version <= files[ids[k]].version
    {
      assert ids[j] in ids && ids[k] in ids;
    }
  }

  function Without(ids: seq<nat>, root: nat): (r: seq<nat>)
    ensures forall i :: i in r <==> i in ids && i != root
  {
    if ids == [] then []
    else
      var last := ids[|ids| - 1];
      assert ids == ids[..|ids| - 1] + [last];
      var rest := Without(ids[..|ids| - 1], root);
      if last == root then rest else rest + [last]
  }

  lemma {:induction false} WithoutIsDistinct(ids: seq<nat>, root: nat)
    requires forall j, k :: 0 <= j < k < |ids| ==> ids[j] != ids[k]
    ensures forall j, k :: 0 <= j < k < |Without(ids, root)| ==> Without(ids, root)[j] != Without(ids, root)[k]
  {
    if ids != [] {
      var rest := Without(ids[..|ids| - 1], root);
      WithoutIsDistinct(ids[..|ids| - 1], root);
      forall k | 0 <= k < |rest|
        ensures rest[k] != ids[|ids| - 1]
      {
        assert rest[k] in rest;
      }
    }
  }

  lemma SecondLevel(files: seq<File>, root: nat, ids: seq<nat>)
    requires Forest(files) && root < |files| && files[root].parent.None? && Listed(files, root, 2, ids)
    ensures Level(files, root, 2, Without(ids, root))
  {
    WithoutIsDistinct(ids, root);
    forall i: nat | InTree(files, root, i)
      ensures i in Without(ids, root) <==> files[i].version == 2
    {
      VersionsAreBounded(files, i);
    }
  }

  class Store {
    var files: seq<File>

    predicate Valid()
      reads this
    {
      Forest(files)
    }

    constructor ()
      ensures Valid() && files == []
    {
      files := [];
    }

    method UploadFile(project: Option<nat>, category: Option<Category>, visible: bool) returns (id: nat)
      requires Valid()
      modifies this
      ensures Valid() && files == Upload(old(files), project, category, visible) && id == |old(files)|
    {
      OperationsKeepForest(files, 0, project, category, visible);
      id := |files|;
      files := files + [File(None, 1, false, project, category, visible)];
    }

    /** The walk down to the newest live version. */
    method FindHeadVersion(i: nat) returns (head: Option<nat>)
      requires Valid()
      ensures head == if i < |files| then Some(Head(files, i)) else None
    {
      if i >= |files| {
        return None;
      }
      var current := i;
      while true
        invariant current < |files| && Head(files, current) == Head(files, i)
        decreases |files| - current
      {
        var child: Option<nat> := None;
        for c := 0 to |files|
          invariant child == LiveChildUpTo(files, current, c)
        {
          if IsLiveChild(files, current, c) && (child.None? || files[child.value].version < files[c].version) {
            child := Some(c);
          }
        }
        if child.None? {
          break;
        }
        assert LinkOk(files, child.value);
        current := child.value;
      }
      head := Some(current);
    }

    method AddVersion(i: nat) returns (r: Result<nat, Error>)
      requires Valid()
      modifies this
      ensures Valid()
      ensures match CreateVersion(old(files), i)
              case Ok(after) => files == after && r == Ok(|old(files)|)
              case Err(e) => files == old(files) && r == Err(e)
      ensures Follows(old(files), i, if r.Ok? then Ok(files) else Err(r.error))
    {
      NewVersionFollowsItsHead(files, i);
      var found := FindHeadVersion(i);
      if found.None? {
        return Err(FileNotFound);
      }
      var head := files[found.value];
      if head.project.None? {
        return Err(InvalidFileType);
      }
      OperationsKeepForest(files, i, None, None, false);
      files := files + [File(found, head.version + 1, false, head.project, head.category, head.clientVisible)];
      r := Ok(|files| - 1);
    }

    method SoftDeleteDocument(i: nat) returns (error: Option<Error>)
      requires Valid()
      modifies this
      ensures Valid()
      ensures match SoftDelete(old(files), i)
              case Ok(after) => files == after && error.None?
              case Err(e) => files == old(files) && error == Some(e)
      ensures error == if i >= |old(files)| then Some(FileNotFound)
                       else if old(files)[i].project.None? then Some(InvalidFileType)
                       else None
    {
      if i >= |files| {
        return Some(FileNotFound);
      }
      if files[i].project.None? {
        return Some(InvalidFileType);
      }
      DeletingKeepsForest(files, i);
      files := files[i := files[i].(deleted := true)];
      error := None;
    }

    method FindMany(root: Option<nat>, parents: seq<nat>) returns (ids: seq<nat>)
      ensures Selects(files, root, parents, ids)
    {
      ids := [];
      for i := 0 to |files|
        invariant forall j: nat :: j in ids <==>
          j < i && (root == Some(j) || (files[j].parent.Some? && files[j].parent.value in parents))
        invariant forall j, k :: 0 <= j < k < |ids| ==> ids[j] < ids[k]
        invariant forall k :: 0 <= k < |ids| ==> ids[k] < i
      {
        if root == Some(i) || (files[i].parent.Some? && files[i].parent.value in parents) {
          ids := ids + [i];
        }
      }
    }

    /** The walk up to the root. */
    method FindRoot(i: nat) returns (root: nat)
      requires Valid() && i < |files|
      ensures root == Root(files, i)
    {
      root := i;
      while files[root].parent.Some?
        invariant root < |files| && Root(files, root) == Root(files, i)
        decreases root
      {
        assert LinkOk(files, root);
        root := files[root].parent.value;
      }
    }

    /** From any version of a document: all of its versions, deleted ones included, each once, in ascending order. */
    method ListVersions(i: nat) returns (r: Result<seq<nat>, Error>)
      requires Valid()
      ensures r == Err(FileNotFound) <==> i >= |files|
      ensures i < |files| ==>
        && r.Ok? && Ascending(files, r.value)
        && (forall j: nat :: j in r.value <==> InTree(files, Root(files, i), j))
        && (forall j, k :: 0 <= j < k < |r.value| ==> r.value[j] != r.value[k])
    {
      if i >= |files| {
        return Err(FileNotFound);
      }
      var root := FindRoot(i);
      VersionsAreBounded(files, i);
      var all := FindMany(Some(root), [root]);
      FirstTwoLevels(files, root, all);
      SortOfAscending(files, all);
      var result := SortByVersion(files, all);
      SecondLevel(files, root, all);
      var frontier := Without(result, root);
      ghost var version := 2;
      while |frontier| > 0
        invariant version >= 2
        invariant Listed(files, root, version, result) && Level(files, root, version, frontier)
        decreases |files| - version
      {
        assert frontier[0] in frontier;
        VersionsAreBounded(files, frontier[0]);
        var next := FindMany(None, frontier);
        NextLevel(files, root, version, frontier, next);
        if |next| == 0 {
          ListedIsWhole(files, root, version, result, version + 1);
          break;
        }
        SortOfAscending(files, next);
        next := SortByVersion(files, next);
        ListedGrows(files, root, version, result, next);
        result := result + next;
        frontier := next;
        version := version + 1;
      }
      if |frontier| == 0 {
        ListedIsWhole(files, root, version, result, version);
      }
      SortOfAscending(files, result);
      r := Ok(SortByVersion(files, result));
    }
  }
}
