/**
 * The cleaning phase of the wiper: the static methods `deleteDirectory`,
 * `deleteFile` and `cleanExternalStorage` of the Java class `IOUtil`
 * (IOUtil.java), kept apart from the module IOUtil because they work on the
 * file tree. `deleteDirectory` is a recursive delete that stops at the first
 * child it cannot delete, `deleteFile` a single-file delete, and
 * `cleanExternalStorage` a best-effort sweep over the entries of the storage
 * root.
 *
 * The file system is a tree of entries whose answers to `exists`, `isFile`,
 * `isDirectory`, `list` and `delete` are fixed in the tree. The effect of a
 * deletion is the list of paths whose `delete` succeeded, in the order it ran.
 */
module Cleaner {
  import opened Wrappers

  type Path = seq<string>

  /** What `isFile` / `isDirectory` say of an existing entry; `Other` is neither (a device, a socket). */
  datatype Kind = RegularFile | Directory | Other

  /** What `File.delete()` does: returns true, returns false, or throws. */
  datatype DeleteOutcome = Removed | Refused | Throws

  /**
   * One entry of the tree. `listable` is false when `list()` of a directory
   * returns null; `children` is what it returns otherwise.
   */
  datatype Entry = Entry(
    name: string,
    present: bool,
    kind: Kind,
    listable: bool,
    children: seq<Entry>,
    onDelete: DeleteOutcome)

  /** The outcome of a deletion: the value returned and the paths removed, in order. */
  datatype Deletion = Deletion(success: bool, removed: seq<Path>)

  function PathOf(parent: Path, e: Entry): Path {
    parent + [e.name]
  }

  predicate IsListedDirectory(e: Entry) {
    e.present && e.kind == Directory && e.listable
  }

  // ---------------------------------------------------------------------------
  // Specification of deleteDirectory
  // ---------------------------------------------------------------------------

  /**
   * The entry's own `delete()`, reached with the flag `success` holding `flag`
   * and `before` already removed. A throwing delete leaves the flag as it was.
   */
  function OwnDelete(e: Entry, parent: Path, flag: bool, before: seq<Path>): Deletion {
    match e.onDelete
    case Removed => Deletion(true, before + [PathOf(parent, e)])
    case Refused => Deletion(false, before)
    case Throws => Deletion(flag, before)
  }

  /** deleteDirectory on the entry `e` found in directory `parent`. */
  function DeleteDir(e: Entry, parent: Path): Deletion
    decreases e, 1
  {
    if !e.present then Deletion(false, [])
    else if e.kind == Directory then
      if !e.listable then Deletion(false, [])  // iterating a null listing throws; the flag is still false
      else
        var c := DeleteChildren(e.children, PathOf(parent, e));
        if !c.success then Deletion(false, c.removed)
        else OwnDelete(e, parent, |e.children| > 0, c.removed)
    else OwnDelete(e, parent, false, [])
  }

  /** The child loop of deleteDirectory: success means that no child failed. */
  function DeleteChildren(children: seq<Entry>, dir: Path): Deletion
    decreases children, 0
  {
    if children == [] then Deletion(true, [])
    else
      var first := DeleteDir(children[0], dir);
      if !first.success then Deletion(false, first.removed)
      else
        var rest := DeleteChildren(children[1..], dir);
        Deletion(rest.success, first.removed + rest.removed)
  }

  // ---------------------------------------------------------------------------
  // Reference definitions
  // ---------------------------------------------------------------------------

  /** No `list` or `delete` in the tree throws. */
  predicate NoExceptions(e: Entry)
    decreases e
  {
    e.onDelete != Throws
    && (e.present && e.kind == Directory ==> e.listable && forall c :: c in e.children ==> NoExceptions(c))
  }

  /** Every entry of the tree exists and can be deleted. */
  predicate Erasable(e: Entry)
    decreases e
  {
    e.present && e.onDelete == Removed
    && (e.kind == Directory ==> e.listable && forall c :: c in e.children ==> Erasable(c))
  }

  /** All paths of the tree, children before their directory. */
  function PostOrder(e: Entry, parent: Path): seq<Path>
    decreases e, 1
  {
    (if e.kind == Directory then PostOrderAll(e.children, PathOf(parent, e)) else [])
    + [PathOf(parent, e)]
  }

  function PostOrderAll(es: seq<Entry>, dir: Path): seq<Path>
    decreases es, 0
  {
    if es == [] then [] else PostOrder(es[0], dir) + PostOrderAll(es[1..], dir)
  }

  /** `p` lies strictly below `dir`. */
  predicate Below(p: Path, dir: Path) {
    |p| > |dir| && p[..|dir|] == dir
  }

  // ---------------------------------------------------------------------------
  // Properties of deleteDirectory
  // ---------------------------------------------------------------------------

  /** A deletion removes only the entry itself and paths below it. */
  lemma {:induction false} RemovedWithin(e: Entry, parent: Path)
    ensures forall p :: p in DeleteDir(e, parent).removed ==> p == PathOf(parent, e) || Below(p, PathOf(parent, e))
    decreases e, 1
  {
    var path := PathOf(parent, e);
    if IsListedDirectory(e) {
      RemovedWithinAll(e.children, path);
    }
  }

  lemma {:induction false} RemovedWithinAll(es: seq<Entry>, dir: Path)
    ensures forall p :: p in DeleteChildren(es, dir).removed ==> Below(p, dir)
    decreases es, 0
  {
    if es != [] {
      RemovedWithin(es[0], dir);
      RemovedWithinAll(es[1..], dir);
      forall p | p in DeleteDir(es[0], dir).removed
        ensures Below(p, dir)
      {
        if p != PathOf(dir, es[0]) {
          assert Below(p, PathOf(dir, es[0]));
          assert p[..|dir|] == p[..|dir| + 1][..|dir|];
        }
      }
    }
  }

  /**
   * The returned value and the removal of the entry itself: its path is removed
   * exactly when its own delete succeeded, a false result never removes it, and
   * a true result without removing it comes only from a throwing delete, and
   * only when children were deleted before it: a throwing delete of a file or
   * of an empty directory gives false.
   */
  lemma {:induction false} DeleteDirResult(e: Entry, parent: Path)
    ensures var d := DeleteDir(e, parent);
      && (PathOf(parent, e) in d.removed ==> d.success && e.onDelete == Removed)
      && (d.success ==> PathOf(parent, e) in d.removed || e.onDelete == Throws)
      && (e.onDelete == Throws && !(IsListedDirectory(e) && |e.children| > 0) ==> !d.success)
  {
    var path := PathOf(parent, e);
    if IsListedDirectory(e) {
      RemovedWithinAll(e.children, path);
    }
  }

  /**
   * Once a child fails, the children after it are never visited: appending
   * more siblings changes neither the result nor what is removed.
   */
  lemma {:induction false} LaterSiblingsUntouched(children: seq<Entry>, later: seq<Entry>, dir: Path)
    requires !DeleteChildren(children, dir).success
    ensures DeleteChildren(children + later, dir) == DeleteChildren(children, dir)
  {
    assert children != [];
    assert (children + later)[0] == children[0];
    if DeleteDir(children[0], dir).success {
      assert (children + later)[1..] == children[1..] + later;
      LaterSiblingsUntouched(children[1..], later, dir);
    }
  }

  /** A directory with a failing child is reported as failed and is itself not removed. */
  lemma FailedChildKeepsDirectory(e: Entry, parent: Path)
    requires IsListedDirectory(e)
    requires !DeleteChildren(e.children, PathOf(parent, e)).success
    ensures !DeleteDir(e, parent).success
    ensures PathOf(parent, e) !in DeleteDir(e, parent).removed
  {
    DeleteDirResult(e, parent);
  }

  /**
   * The swallowed exception of a non-empty directory's own delete: every child
   * went, the directory stays, and yet the result is true.
   */
  lemma ThrowingDeleteAfterChildrenReportsSuccess(e: Entry, parent: Path)
    requires IsListedDirectory(e) && e.onDelete == Throws && |e.children| > 0
    requires DeleteChildren(e.children, PathOf(parent, e)).success
    ensures DeleteDir(e, parent).success
    ensures PathOf(parent, e) !in DeleteDir(e, parent).removed
  {
    DeleteDirResult(e, parent);
  }

  /**
   * Without exceptions, deleteDirectory returns true exactly when the whole
   * tree exists and can be deleted, and then it removes every path of the
   * tree, children before their directory.
   */
  lemma {:induction false} DeleteDirComplete(e: Entry, parent: Path)
    requires NoExceptions(e)
    ensures DeleteDir(e, parent).success <==> Erasable(e)
    ensures Erasable(e) ==> DeleteDir(e, parent).removed == PostOrder(e, parent)
    decreases e, 1
  {
    if e.present && e.kind == Directory {
      DeleteChildrenComplete(e.children, PathOf(parent, e));
    }
  }

  lemma {:induction false} DeleteChildrenComplete(es: seq<Entry>, dir: Path)
    requires forall c :: c in es ==> NoExceptions(c)
    ensures DeleteChildren(es, dir).success <==> forall c :: c in es ==> Erasable(c)
    ensures (forall c :: c in es ==> Erasable(c)) ==> DeleteChildren(es, dir).removed == PostOrderAll(es, dir)
    decreases es, 0
  {
    if es != [] {
      DeleteDirComplete(es[0], dir);
      DeleteChildrenComplete(es[1..], dir);
      assert forall c :: c in es ==> c == es[0] || c in es[1..];
    }
  }

  // ---------------------------------------------------------------------------
  // The operations
  // ---------------------------------------------------------------------------

  /**
   * deleteDirectory: a missing entry fails at once; a directory deletes its
   * children in order and returns false at the first failing one; then the
   * entry's own delete runs, an exception leaving `success` as it was.
   */
  method DeleteDirectory(e: Entry, parent: Path) returns (success: bool, removed: seq<Path>)
    ensures Deletion(success, removed) == DeleteDir(e, parent)
    ensures !e.present ==> !success && removed == []
    decreases e
  {
    if !e.present {
      return false, [];
    }
    success := false;
    removed := [];
    if e.kind == Directory {
      if !e.listable {
        return;
      }
      var path := PathOf(parent, e);
      var i := 0;
      while i < |e.children|
        invariant i <= |e.children|
        invariant success == (i > 0)
        invariant DeleteChildren(e.children, path)
               == var rest := DeleteChildren(e.children[i..], path); Deletion(rest.success, removed + rest.removed)
      {
        assert e.children[i..][1..] == e.children[i + 1..];
        var childRemoved;
        success, childRemoved := DeleteDirectory(e.children[i], path);
        removed := removed + childRemoved;
        if !success {
          return false, removed;
        }
        i := i + 1;
      }
      assert e.children[i..] == [];
    }
    match e.onDelete
    case Removed =>
      success := true;
      removed := removed + [PathOf(parent, e)];
    case Refused =>
      success := false;
    case Throws =>
  }

  /** deleteFile: true exactly when the entry exists and its delete succeeded. */
  function DeleteFileSpec(e: Entry, parent: Path): Deletion {
    if e.present && e.onDelete == Removed then Deletion(true, [PathOf(parent, e)])
    else Deletion(false, [])
  }

  method DeleteFile(e: Entry, parent: Path) returns (success: bool, removed: seq<Path>)
    ensures Deletion(success, removed) == DeleteFileSpec(e, parent)
    ensures success <==> e.present && e.onDelete == Removed
    ensures success ==> removed == [PathOf(parent, e)]
    ensures !success ==> removed == []
  {
    removed := [];
    success := false;
    if e.present {
      match e.onDelete
      case Removed =>
        success := true;
        removed := [PathOf(parent, e)];
      case Refused =>
      case Throws =>
    }
  }

  /** What the sweep does with one top-level entry: results are ignored, only removals remain. */
  function SweepEntry(e: Entry, root: Path): seq<Path> {
    if !e.present then []
    else if e.kind == RegularFile then DeleteFileSpec(e, root).removed
    else if e.kind == Directory then DeleteDir(e, root).removed
    else []
  }

  function Sweep(entries: seq<Entry>, root: Path): seq<Path> {
    if entries == [] then [] else SweepEntry(entries[0], root) + Sweep(entries[1..], root)
  }

  /**
   * Every top-level entry is visited whatever happened to the ones before it:
   * what the sweep removes for entry k is part of what the whole sweep removes.
   */
  lemma {:induction false} SweepVisitsEveryEntry(entries: seq<Entry>, root: Path, k: nat)
    requires k < |entries|
    ensures forall p :: p in SweepEntry(entries[k], root) ==> p in Sweep(entries, root)
  {
    if k > 0 {
      SweepVisitsEveryEntry(entries[1..], root, k - 1);
    }
  }

  /**
   * An erasable top-level file or directory is removed completely, whatever
   * the other entries do.
   */
  lemma ErasableEntryIsSwept(entries: seq<Entry>, root: Path, k: nat)
    requires k < |entries|
    requires Erasable(entries[k]) && NoExceptions(entries[k])
    requires entries[k].kind != Other
    ensures forall p :: p in PostOrder(entries[k], root) ==> p in Sweep(entries, root)
  {
    SweepVisitsEveryEntry(entries, root, k);
    if entries[k].kind == Directory {
      DeleteDirComplete(entries[k], root);
    }
  }

  /**
   * cleanExternalStorage over the listing of the storage root (None when the
   * listing is null): files are deleted with deleteFile, directories with
   * deleteDirectory, anything else is skipped, and every result is ignored.
   */
  method CleanExternalStorage(listing: Option<seq<Entry>>, root: Path) returns (removed: seq<Path>)
    ensures listing.None? ==> removed == []
    ensures listing.Some? ==> removed == Sweep(listing.value, root)
  {
    removed := [];
    if listing.None? || |listing.value| <= 0 {
      return;
    }
    var files := listing.value;
    var i := 0;
    while i < |files|
      invariant i <= |files|
      invariant removed + Sweep(files[i..], root) == Sweep(files, root)
    {
      assert files[i..][1..] == files[i + 1..];
      var file := files[i];
      var gone: seq<Path> := [];
      if file.present && file.kind == RegularFile {
        var _, r := DeleteFile(file, root);
        gone := r;
      } else if file.present && file.kind == Directory {
        var _, r := DeleteDirectory(file, root);
        gone := r;
      }
      removed := removed + gone;
      i := i + 1;
    }
    assert files[i..] == [];
  }
}
