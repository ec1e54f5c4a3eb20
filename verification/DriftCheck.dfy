/**
 * The drift check of a generator: toolkit/cli/sync.py, _run_with_check and _restore_snapshots.
 * Snapshot the listed files, run the generator, compare after normalization, and put everything back.
 */
module DriftCheck {
  import opened Prelude

  type Bytes = seq<int>

  /** A file, by its directory and name. */
  datatype Path = Path(dir: string, name: string)

  /** The files of the work tree; a path not in it does not exist. */
  type Tree = map<Path, Bytes>

  /** `Interrupt`: an interrupt or an exit, which are no `Exception` and are not caught. */
  datatype End = Returned | Failed | Interrupt

  /** What the generator made of the tree, and how it ended. */
  datatype Generated = Generated(tree: Tree, end: End)

  type Generator = Tree -> Generated

  datatype Outcome = Raised | Interrupted | Checked(inSync: bool)

  type Snapshots = map<Path, Option<Bytes>>

  function At(tree: Tree, path: Path): Option<Bytes> {
    if path in tree then Some(tree[path]) else None
  }

  class WorkTree {
    var files: Tree

    method Write(path: Path, content: Bytes)
      modifies this
      ensures files == old(files)[path := content]
    {
      files := files[path := content];
    }

    /** unlink(missing_ok=True). */
    method Unlink(path: Path)
      modifies this
      ensures files == old(files) - {path}
    {
      files := files - {path};
    }

    method Run(sync: Generator) returns (end: End)
      modifies this
      ensures files == sync(old(files)).tree && end == sync(old(files)).end
    {
      var result := sync(files);
      files, end := result.tree, result.end;
    }
  }

  /** `tree` with every snapshotted path as the snapshot has it. */
  function Restored(tree: Tree, snapshots: Snapshots): Tree {
    map path | path in tree.Keys + snapshots.Keys
               && (if path in snapshots then snapshots[path].Some? else path in tree)
      :: if path in snapshots then snapshots[path].value else tree[path]
  }

  lemma RestoredAt(tree: Tree, snapshots: Snapshots, path: Path)
    ensures At(Restored(tree, snapshots), path) == if path in snapshots then snapshots[path] else At(tree, path)
  {
  }

  lemma SameTree(a: Tree, b: Tree)
    requires forall path :: At(a, path) == At(b, path)
    ensures a == b
  {
    forall path
      ensures path in a <==> path in b
      ensures path in a ==> a[path] == b[path]
    {
      assert At(a, path) == At(b, path);
    }
  }

  method RestoreSnapshots(t: WorkTree, snapshots: Snapshots)
    modifies t
    ensures t.files == Restored(old(t.files), snapshots)
  {
    var todo := snapshots.Keys;
    while todo != {}
      invariant todo <= snapshots.Keys
      invariant forall path ::
        At(t.files, path) == if path in snapshots && path !in todo then snapshots[path] else At(old(t.files), path)
      decreases todo
    {
      var path :| path in todo;
      todo := todo - {path};
      if snapshots[path] == None {
        t.Unlink(path);
      } else {
        t.Write(path, snapshots[path].value);
      }
    }
    SameTree(t.files, Restored(old(t.files), snapshots));
  }

  /** The paths whose fate is checked: the listed ones, and every file then directly in the directory. */
  ghost function Watched(listed: seq<Path>, outputDir: Option<string>, after: Tree): set<Path> {
    (set path | path in listed)
    + (set path | path in after && outputDir == Some(path.dir))
  }

  /**
   * What the check takes a watched path to have been: as listed, or new. A file that was in the
   * directory without being listed is taken to be new.
   */
  ghost function Taken(listed: seq<Path>, before: Tree, path: Path): Option<Bytes> {
    if path in listed then At(before, path) else None
  }

  /** The tree a check that ended normally leaves. */
  ghost predicate Leaves(left: Tree, listed: seq<Path>, before: Tree, after: Tree, outputDir: Option<string>) {
    forall path ::
      At(left, path) == if path in Watched(listed, outputDir, after) then Taken(listed, before, path)
                        else At(after, path)
  }

  /** The tree a generator that raised leaves: only the listed files are put back. */
  ghost predicate LeavesRaised(left: Tree, listed: seq<Path>, before: Tree, after: Tree) {
    forall path :: At(left, path) == if path in listed then At(before, path) else At(after, path)
  }

  /** A path that is there in only one of the two, or in both with contents that normalize differently. */
  ghost predicate Differs(before: Option<Bytes>, after: Option<Bytes>, normalize: Bytes -> Bytes) {
    || before.Some? != after.Some?
    || (before.Some? && after.Some? && normalize(before.value) != normalize(after.value))
  }

  /**
   * The verdict: no listed file appeared, vanished or changed but for what normalization hides, and
   * no unlisted file is in the directory.
   */
  ghost predicate InSync(listed: seq<Path>, before: Tree, after: Tree, outputDir: Option<string>,
                         normalize: Bytes -> Bytes)
  {
    && (forall path :: path in listed ==> (path in before <==> path in after))
    && (forall path :: path in listed && path in before && path in after ==>
          normalize(before[path]) == normalize(after[path]))
    && (forall path :: path in after && path !in listed ==> outputDir != Some(path.dir))
  }

  method TakeSnapshots(t: WorkTree, listed: seq<Path>) returns (snapshots: Snapshots)
    ensures forall path :: path in snapshots <==> path in listed
    ensures forall path :: path in snapshots ==> snapshots[path] == At(t.files, path)
  {
    snapshots := map[];
    for i := 0 to |listed|
      invariant forall path :: path in snapshots <==> path in listed[..i]
      invariant forall path :: path in snapshots ==> snapshots[path] == At(t.files, path)
    {
      snapshots := snapshots[listed[i] := At(t.files, listed[i])];
    }
  }

  /** Adds, as not there before, every file now directly in the directory that was not listed. */
  method AddNewFiles(t: WorkTree, snapshots: Snapshots, outputDir: Option<string>) returns (all: Snapshots)
    ensures forall path :: path in all <==>
      path in snapshots || (path in t.files && outputDir == Some(path.dir))
    ensures forall path :: path in all ==> all[path] == if path in snapshots then snapshots[path] else None
  {
    all := snapshots;
    if outputDir.Some? {
      var new_ := set path | path in t.files && path.dir == outputDir.value && path !in snapshots;
      all := snapshots + map path | path in new_ :: None;
    }
  }

  method Drifted(snapshots: Snapshots, newContents: Snapshots, normalize: Bytes -> Bytes) returns (drifted: set<Path>)
    requires newContents.Keys == snapshots.Keys
    ensures forall path :: path in drifted <==>
      path in snapshots && Differs(snapshots[path], newContents[path], normalize)
  {
    drifted := {};
    var todo := snapshots.Keys;
    while todo != {}
      invariant todo <= snapshots.Keys
      invariant forall path :: path in drifted <==>
        path in snapshots && path !in todo && Differs(snapshots[path], newContents[path], normalize)
      decreases todo
    {
      var path :| path in todo;
      todo := todo - {path};
      var before, after := snapshots[path], newContents[path];
      if before == None && after == None {
      } else if before == None || after == None {
        drifted := drifted + {path};
      } else if normalize(before.value) != normalize(after.value) {
        drifted := drifted + {path};
      }
    }
  }

  /** The verdict over the paths that are watched, each against what it is taken to have been. */
  lemma InSyncMeans(listed: seq<Path>, before: Tree, after: Tree, outputDir: Option<string>,
                    normalize: Bytes -> Bytes)
    ensures InSync(listed, before, after, outputDir, normalize) <==>
      forall path :: path in Watched(listed, outputDir, after) ==>
        !Differs(Taken(listed, before, path), At(after, path), normalize)
  {
    if forall path :: path in Watched(listed, outputDir, after) ==>
      !Differs(Taken(listed, before, path), At(after, path), normalize)
    {
      forall path
        ensures path in listed ==> !Differs(At(before, path), At(after, path), normalize)
        ensures path in after && path !in listed ==> outputDir != Some(path.dir)
      {
        if path in listed || (path in after && outputDir == Some(path.dir)) {
          assert path in Watched(listed, outputDir, after);
        }
      }
    }
  }

  /** An interrupted generator leaves what it wrote; after any other end the snapshots are put back. */
  method RunWithCheck(t: WorkTree, listed: seq<Path>, sync: Generator, normalize: Bytes -> Bytes,
                      outputDir: Option<string>)
    returns (r: Outcome)
    modifies t
    ensures var gen := sync(old(t.files));
            && (r == Raised <==> gen.end == Failed) && (r == Interrupted <==> gen.end == Interrupt)
            && (r == Raised ==> LeavesRaised(t.files, listed, old(t.files), gen.tree))
            && (r == Interrupted ==> t.files == gen.tree)
            && (r.Checked? ==>
                  && Leaves(t.files, listed, old(t.files), gen.tree, outputDir)
                  && (r.inSync <==> InSync(listed, old(t.files), gen.tree, outputDir, normalize)))
  {
    var snapshots := TakeSnapshots(t, listed);
    ghost var before, after := t.files, sync(t.files).tree;
    var end := t.Run(sync);
    if end == Interrupt {
      return Interrupted;
    }
    if end == Failed {
      RestoreSnapshots(t, snapshots);
      forall path
        ensures At(t.files, path) == if path in listed then At(before, path) else At(after, path)
      {
        RestoredAt(after, snapshots, path);
      }
      return Raised;
    }
    var all := AddNewFiles(t, snapshots, outputDir);
    forall path
      ensures path in all <==> path in Watched(listed, outputDir, after)
      ensures path in all ==> all[path] == Taken(listed, before, path)
    {
    }
    var newContents: Snapshots := map path | path in all :: At(t.files, path);
    RestoreSnapshots(t, all);
    forall path
      ensures At(t.files, path) == if path in Watched(listed, outputDir, after) then Taken(listed, before, path)
                                   else At(after, path)
    {
      RestoredAt(after, all, path);
    }
    var drifted := Drifted(all, newContents, normalize);
    r := Checked(drifted == {});
    InSyncMeans(listed, before, after, outputDir, normalize);
  }

  // ---------------------------------------------------------------- what the check leaves

  /**
   * The generator kept to what the check can undo: an unlisted path is as it was, unless it is a file
   * of the directory that did not exist before. A file that was in the directory, unlisted, breaks it
   * even when the generator never touched it.
   */
  ghost predicate Undoable(listed: seq<Path>, before: Tree, after: Tree, outputDir: Option<string>) {
    forall path :: path !in listed ==>
      if path in after && outputDir == Some(path.dir) then path !in before else At(after, path) == At(before, path)
  }

  /** The tree is exactly as before if and only if the generator kept to that. */
  lemma NoTraceIffUndoable(left: Tree, listed: seq<Path>, before: Tree, after: Tree, outputDir: Option<string>)
    requires Leaves(left, listed, before, after, outputDir)
    ensures left == before <==> Undoable(listed, before, after, outputDir)
  {
    if Undoable(listed, before, after, outputDir) {
      forall path
        ensures At(left, path) == At(before, path)
      {
        assert path in Watched(listed, outputDir, after) <==>
          path in listed || (path in after && outputDir == Some(path.dir));
      }
      SameTree(left, before);
    } else {
      var path :| path !in listed
                  && !(if path in after && outputDir == Some(path.dir) then path !in before
                       else At(after, path) == At(before, path));
      assert At(left, path) != At(before, path);
    }
  }

  /** The promised case: only listed files and new files of the directory, all of whose files are listed. */
  lemma PromisedCaseIsUndoable(listed: seq<Path>, before: Tree, after: Tree, outputDir: Option<string>)
    requires forall path :: path !in listed && At(after, path) != At(before, path) ==>
      path !in before && outputDir == Some(path.dir)
    requires forall path :: path in before && outputDir == Some(path.dir) ==> path in listed
    ensures Undoable(listed, before, after, outputDir)
  {
  }

  /** The other case: the check itself deletes a file it was not told of. */
  lemma UnlistedFileIsDeleted(content: Bytes, left: Tree)
    requires var kept := map[Path("out", "kept.md") := content];
             Leaves(left, [], kept, kept, Some("out"))
    ensures left == map[]
  {
    var kept := map[Path("out", "kept.md") := content];
    forall path
      ensures At(left, path) == None
    {
      assert path in Watched([], Some("out"), kept) <==> path in kept;
    }
    SameTree(left, map[]);
  }

  /**
   * In sync, with the normalizer the identity and the promise kept, means the generator changed
   * nothing at all.
   */
  lemma InSyncMeansNoChange(listed: seq<Path>, before: Tree, after: Tree, outputDir: Option<string>,
                            normalize: Bytes -> Bytes)
    requires forall content :: normalize(content) == content
    requires Undoable(listed, before, after, outputDir)
    ensures InSync(listed, before, after, outputDir, normalize) <==> after == before
  {
    if InSync(listed, before, after, outputDir, normalize) {
      forall path
        ensures At(after, path) == At(before, path)
      {
        assert path !in listed ==> !(path in after && outputDir == Some(path.dir));
      }
      SameTree(after, before);
    }
  }
}
