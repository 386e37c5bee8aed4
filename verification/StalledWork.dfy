/** Which paths hold work that no review has seen: the reconciliation of one round (tools/agent_review_loop.py). */
module StalledWork {
  import opened Options

  type Path = string
  type Blob = string

  /** Device and inode. */
  datatype Identity = Identity(device: nat, inode: nat)

  /** The work tree as the loop reads it: the dirty paths, the content git would name and the filesystem object at a
      path, where there is one, and the paths that hold a symlink or a non-empty file. */
  datatype Tree = Tree(dirty: set<Path>, blobs: map<Path, Blob>, objects: map<Path, Identity>, filled: set<Path>)

  /** What the loop sees of a round's implementer: the tree before and after it, the names git reports as moved, whether
      the round added porcelain lines, and whether it committed, at once or when it was handed back. */
  datatype Round = Round(before: Tree, after: Tree, moved: map<Path, Path>, newLines: bool, committed: bool,
                         committedOnRetry: bool, heldByGit: set<Blob>)

  predicate LeftBehind(r: Round) {
    !r.committed && r.newLines
  }

  predicate Commits(r: Round, stallRetry: bool) {
    if LeftBehind(r) && stallRetry then r.committedOnRetry else r.committed
  }

  predicate Kept(r: Round, stallRetry: bool) {
    LeftBehind(r) && !stallRetry
  }

  /** A round that committed nothing and added no line of its own. */
  predicate FirstLanding(r: Round, stallRetry: bool) {
    !Commits(r, stallRetry) && !LeftBehind(r)
  }

  function BlobAt(blobs: map<Path, Blob>, path: Path): Option<Blob> {
    if path in blobs then Some(blobs[path]) else None
  }

  function Followed(moved: map<Path, Path>, path: Path): Path {
    if path in moved then moved[path] else path
  }

  /** The content the round found at a path that was dirty when it began. */
  function Inherited(r: Round, path: Path): Option<Blob> {
    if path in r.before.dirty then BlobAt(r.before.blobs, path) else None
  }

  /** The inherited-dirty paths the round rewrote. */
  predicate Rewritten(r: Round, path: Path) {
    && path in r.after.dirty && path in r.before.dirty
    && (|| BlobAt(r.after.blobs, path) != Inherited(r, path)
        || (path !in r.after.blobs && path in r.after.filled))
  }

  /** The paths that now hold an object an outstanding path held, by inode or by content the round put there. */
  predicate Relocated(r: Round, outstanding: set<Path>, path: Path) {
    && path in r.after.dirty
    && (|| (path in r.after.objects
            && exists p :: p in outstanding && p in r.before.objects && r.before.objects[p] == r.after.objects[path])
        || (path in r.after.blobs
            && (exists p :: p in outstanding && Inherited(r, p) == Some(r.after.blobs[path]))
            && Inherited(r, path) != Some(r.after.blobs[path])))
  }

  /** A followed name is gone with no rename to explain it. */
  predicate Vanishes(r: Round, outstanding: set<Path>) {
    exists p :: p in outstanding && Followed(r.moved, p) !in r.after.dirty
  }

  /** The outstanding paths after the round. */
  function Reconcile(outstanding: set<Path>, r: Round, stallRetry: bool): set<Path> {
    var survived := set p | p in outstanding && Followed(r.moved, p) in r.after.dirty :: Followed(r.moved, p);
    var vanished := Vanishes(r, outstanding);
    var carried := if !Kept(r, stallRetry) && !vanished then {} else
                     (r.after.dirty - r.before.dirty)
                     + (set p | p in r.after.dirty && Relocated(r, outstanding, p))
                     + (set p | p in r.after.dirty && vanished && Rewritten(r, p));
    var landed := set p | p in r.after.dirty && FirstLanding(r, stallRetry) && Rewritten(r, p);
    survived + carried + landed
  }

  /** The operator's dirty paths that left the dirty set with content nothing holds any more. */
  function Destroyed(r: Round, operatorDirt: set<Path>): set<Path> {
    set p | p in operatorDirt && Inherited(r, p).Some? && p !in r.after.dirty
            && Inherited(r, p).value !in r.heldByGit
            && !(exists q :: q in r.after.dirty && BlobAt(r.after.blobs, q) == Inherited(r, p))
  }

  /** What the path held when the round began is held by nothing any more, neither git nor a dirty path. */
  predicate Gone(r: Round, p: Path) {
    && Inherited(r, p).Some? && Inherited(r, p).value !in r.heldByGit
    && !exists q :: q in r.after.dirty && BlobAt(r.after.blobs, q) == Inherited(r, p)
  }

  /** The path was dirty all along, and holds something else now. */
  predicate Overwritten(r: Round, p: Path) {
    p in r.before.dirty && p in r.after.dirty && BlobAt(r.after.blobs, p) != Inherited(r, p)
  }

  /** Where the guards end: content of the operator's that is gone is neither reported as destroyed nor outstanding
      exactly when its path was overwritten where it stands, by a round that committed or added a line, with no followed
      name vanished, no followed name on the path and no stalled object in it that the round left uncommitted. */
  lemma OverwriteUnnoticedExactly(outstanding: set<Path>, r: Round, stallRetry: bool, operatorDirt: set<Path>, p: Path)
    requires p in operatorDirt && Gone(r, p)
    ensures p !in Destroyed(r, operatorDirt) && p !in Reconcile(outstanding, r, stallRetry) <==>
              && Overwritten(r, p) && !FirstLanding(r, stallRetry) && !Vanishes(r, outstanding)
              && !IsFollowedTo(outstanding, r, p) && !(Kept(r, stallRetry) && Relocated(r, outstanding, p))
  {
    OutstandingExactly(outstanding, r, stallRetry, p);
  }

  // ----- Following an object -----

  /** An outstanding path, followed through git's records, is now at q. */
  predicate IsFollowedTo(outstanding: set<Path>, r: Round, q: Path) {
    exists o :: o in outstanding && Followed(r.moved, o) == q
  }

  /** The path q is carried for the object in it: the round left work uncommitted, or lost sight of a followed name. */
  predicate IsCarried(outstanding: set<Path>, r: Round, stallRetry: bool, q: Path) {
    (Kept(r, stallRetry) || Vanishes(r, outstanding)) && (q !in r.before.dirty || Relocated(r, outstanding, q))
  }

  /** The path q is kept because the round wrote into it where work may have gone. */
  predicate IsSuspect(outstanding: set<Path>, r: Round, stallRetry: bool, q: Path) {
    (Vanishes(r, outstanding) || FirstLanding(r, stallRetry)) && Rewritten(r, q)
  }

  lemma OutstandingExactly(outstanding: set<Path>, r: Round, stallRetry: bool, q: Path)
    ensures q in Reconcile(outstanding, r, stallRetry) <==>
              && q in r.after.dirty
              && (IsFollowedTo(outstanding, r, q) || IsCarried(outstanding, r, stallRetry, q)
                  || IsSuspect(outstanding, r, stallRetry, q))
  {
  }

  predicate SameObject(r: Round, p: Path, q: Path) {
    p in r.before.objects && q in r.after.objects && r.before.objects[p] == r.after.objects[q]
  }

  /** For every round: an outstanding object, dirty at q after it, is outstanding there exactly when the round was kept
      uncommitted, some followed name vanished, some followed name is q, or a first landing wrote into q. */
  lemma ObjectIsFollowedExactly(outstanding: set<Path>, r: Round, stallRetry: bool, p: Path, q: Path)
    requires p in outstanding && q in r.after.dirty && SameObject(r, p, q)
    ensures q in Reconcile(outstanding, r, stallRetry) <==>
              || Kept(r, stallRetry) || Vanishes(r, outstanding) || IsFollowedTo(outstanding, r, q)
              || (FirstLanding(r, stallRetry) && Rewritten(r, q))
  {
    OutstandingExactly(outstanding, r, stallRetry, q);
    assert Relocated(r, outstanding, q);
  }

  /** For every round: an outstanding path that is still dirty is outstanding exactly when some followed name is it, the
      round is carried for the object in it, or the round wrote into it where work may have gone. What is not enough is
      that it is still there: a copy record sends its name elsewhere. */
  lemma PathStaysExactly(outstanding: set<Path>, r: Round, stallRetry: bool, p: Path)
    requires p in outstanding && p in r.after.dirty
    ensures p in Reconcile(outstanding, r, stallRetry) <==>
              || IsFollowedTo(outstanding, r, p)
              || IsCarried(outstanding, r, stallRetry, p) || IsSuspect(outstanding, r, stallRetry, p)
  {
    OutstandingExactly(outstanding, r, stallRetry, p);
  }

  /** An object that was at path p before the round is at the dirty path q after it, and got there in a way the loop
      means to follow: it stayed, git reports its rename, or its name left the dirty set and it is under a name new to
      the round, under its own inode, with its own content the round put there, or in a file the round rewrote. */
  predicate Follows(r: Round, p: Path, q: Path) {
    && q in r.after.dirty
    && (|| (q == p && p !in r.moved)
        || (p in r.moved && q == r.moved[p])
        || (Followed(r.moved, p) !in r.after.dirty
            && (|| q !in r.before.dirty
                || (p in r.before.objects && q in r.after.objects && r.before.objects[p] == r.after.objects[q])
                || Rewritten(r, q))))
  }

  /** Outstanding work that a round moves stays outstanding. */
  lemma WorkStaysOutstanding(outstanding: set<Path>, r: Round, stallRetry: bool, p: Path, q: Path)
    requires p in outstanding && Follows(r, p, q)
    ensures q in Reconcile(outstanding, r, stallRetry)
  {
    if Followed(r.moved, p) in r.after.dirty {
      assert q == Followed(r.moved, p);
    } else {
      assert Vanishes(r, outstanding);
      if q in r.before.dirty && !Rewritten(r, q) { assert Relocated(r, outstanding, q); }
    }
  }

  /** How work becomes outstanding: a round left it uncommitted and was not handed back, or committed nothing and put
      it in a file that was dirty before. */
  predicate Leaves(r: Round, stallRetry: bool, q: Path) {
    || (Kept(r, stallRetry) && q in r.after.dirty - r.before.dirty)
    || (FirstLanding(r, stallRetry) && Rewritten(r, q))
  }

  lemma LeftWorkIsOutstanding(outstanding: set<Path>, r: Round, stallRetry: bool, q: Path)
    requires Leaves(r, stallRetry, q)
    ensures q in Reconcile(outstanding, r, stallRetry)
  {
    OutstandingExactly(outstanding, r, stallRetry, q);
  }

  /** The round leaves the path alone: it stays dirty with what was in it, nothing is renamed to it, and the object
      there is no other path's. */
  ghost predicate LeavesAlone(r: Round, q: Path) {
    && q in r.before.dirty && !Rewritten(r, q)
    && (forall o :: o in r.moved && r.moved[o] == q ==> o == q)
    && (forall o :: SameObject(r, o, q) ==> o == q)
  }

  /** What a round leaves alone does not become outstanding, whatever else it does. */
  lemma LeftAloneIsNotOutstanding(outstanding: set<Path>, r: Round, stallRetry: bool, q: Path)
    requires LeavesAlone(r, q) && q !in outstanding
    ensures q !in Reconcile(outstanding, r, stallRetry)
  {
    OutstandingExactly(outstanding, r, stallRetry, q);
    forall o | o in outstanding ensures Followed(r.moved, o) != q && !SameObject(r, o, q) {
      assert o != q;
    }
  }

  /** With nothing outstanding, a round that is not kept uncommitted and rewrote nothing leaves nothing outstanding. */
  lemma CleanRoundStaysClean(r: Round, stallRetry: bool)
    ensures Reconcile({}, r, stallRetry) == {} <==>
              && (Kept(r, stallRetry) ==> r.after.dirty <= r.before.dirty)
              && (FirstLanding(r, stallRetry) ==> forall p :: p in r.after.dirty ==> !Rewritten(r, p))
  {
    var left := Reconcile({}, r, stallRetry);
    assert forall p :: p in left <==> Leaves(r, stallRetry, p);
    if left == {} {
      forall p | p in r.after.dirty ensures !Leaves(r, stallRetry, p) {
        assert p !in left;
      }
    }
  }

  /** The one outstanding object, moved under its own inode by a round that commits something and reports no rename, is
      followed exactly when its old name is not dirty any more. */
  lemma MoveIsFollowedExactly(r: Round, stallRetry: bool, p: Path, q: Path)
    requires p != q && q in r.after.dirty && r.moved == map[] && Commits(r, stallRetry) && SameObject(r, p, q)
    ensures q in Reconcile({p}, r, stallRetry) <==> p !in r.after.dirty
  {
    ObjectIsFollowedExactly({p}, r, stallRetry, p, q);
    assert Vanishes(r, {p}) <==> Followed(r.moved, p) !in r.after.dirty;
  }

  /** A round that commits something and loses sight of no followed name keeps an outstanding path that is still dirty
      exactly when some followed name is it. */
  lemma StayIsFollowedExactly(outstanding: set<Path>, r: Round, stallRetry: bool, p: Path)
    requires p in outstanding && p in r.after.dirty && Commits(r, stallRetry) && !Vanishes(r, outstanding)
    ensures p in Reconcile(outstanding, r, stallRetry) <==> IsFollowedTo(outstanding, r, p)
  {
    PathStaysExactly(outstanding, r, stallRetry, p);
  }
}
