/** The repository commands of Repo.java over an in-memory repository: the working
    directory, the blob store, the commit store, the branch table, the active-branch
    name and the staging area are fields of one `Repo` object. SHA-1 and Java
    serialization are parameters of the object. */
module Repository {
  import opened Common
  import opened Staging
  import opened Commits
  import opened Graph
  import opened MergeRules
  import opened Resolution

  /** What a command prints before it ends, and `Exception` for an exception the source
      does not catch, which ends the command with what was written so far kept. */
  datatype Diag =
    | FileDoesNotExist
    | NoCommitMessage
    | NoChanges
    | NoReasonToRemove
    | FileNotInCommit
    | NoCommitWithId
    | NoNeedToCheckout
    | NoSuchBranch
    | UntrackedInTheWay
    | FoundNoCommit
    | BranchExists
    | BranchMissing
    | CannotRemoveCurrent
    | MergeBranchMissing
    | CannotMergeSelf
    | UncommittedChanges
    | GivenIsAncestor
    | FastForwarded
    | MergeConflict
    | Exception

  /** The text the source prints for each diagnostic. */
  function Text(d: Diag): string
  {
    match d
    case FileDoesNotExist => "File does not exist."
    case NoCommitMessage => "Please enter a commit message."
    case NoChanges => "No changes added to the commit."
    case NoReasonToRemove => "No reason to remove the file."
    case FileNotInCommit => "File does not exist in that commit."
    case NoCommitWithId => "No commit with that id exists."
    case NoNeedToCheckout => "No need to checkout the current branch."
    case NoSuchBranch => "No such branch exists."
    case UntrackedInTheWay => "There is an untracked file in the way; delete it, or add and commit it first."
    case FoundNoCommit => "Found no commit with that message"
    case BranchExists => "A branch with that name already exists."
    case BranchMissing => "A branch with that name does not exist."
    case CannotRemoveCurrent => "Cannot remove the current branch."
    case MergeBranchMissing => "A branch with that name does not exists."
    case CannotMergeSelf => "Cannot merge a branch with itself."
    case UncommittedChanges => "You have uncommitted changes."
    case GivenIsAncestor => "Given branch is an ancestor of the current branch."
    case FastForwarded => "Current branch fast-forwarded."
    case MergeConflict => "Encountered a merge conflict."
    case Exception => ""
  }

  /** What `checkout2` finds for a file: a diagnostic it stops with before writing, or
      the blob file it restores from. */
  datatype Lookup = Fails(d: Diag) | Restores(key: string)

  /** The commit `init` writes. */
  function RootCommit(): CommitRec
  {
    CommitRec("initial commit", Epoch, map[], None, None, None, None)
  }

  /** `id` or its parents are no other id's file name, so the marking map `bfs` starts
      with holds no commit id. */
  ghost predicate NoIdIsFileName(ids: set<string>)
  {
    forall k :: k in ids ==> k !in FileNames(ids)
  }

  /** Files in the working directory that the current head does not track and the target
      does: each makes `checkout3` and `reset` print a warning. */
  function UntrackedInWay(cwd: map<string, string>, headTrack: map<string, string>,
                          target: map<string, string>): (u: set<string>)
    ensures forall f :: f in u <==> f in cwd && f !in headTrack && f in target
  {
    set f | f in cwd && f !in headTrack && f in target
  }

  /** One warning per untracked file in the way. */
  function Warnings(u: set<string>): (d: seq<Diag>)
    ensures |d| == |u| && forall i :: 0 <= i < |d| ==> d[i] == UntrackedInTheWay
  {
    seq(|u|, _ => UntrackedInTheWay)
  }

  /** The working directory `checkout3` and `reset` leave when every blob is present:
      each file of the target written from its blob, each file only the old head tracks
      deleted, every other file kept. */
  function Synced(cwd: map<string, string>, headTrack: map<string, string>,
                  target: map<string, string>, blobs: map<string, string>): (r: map<string, string>)
    requires forall f :: f in target ==> target[f] in blobs
    ensures forall f :: f in target ==> f in r && r[f] == blobs[target[f]]
    ensures forall f :: f in headTrack && f !in target ==> f !in r
    ensures forall f :: f !in headTrack && f !in target ==> Get(r, f) == Get(cwd, f)
    ensures r.Keys == (cwd.Keys + target.Keys) - (headTrack.Keys - target.Keys)
  {
    (cwd + map f | f in target :: blobs[target[f]]) - (headTrack.Keys - target.Keys)
  }

  /** Checking out a commit and then the one checked out from leaves the working
      directory that checking out the second from the first would: the intermediate
      state is forgotten. */
  lemma SyncedBack(cwd: map<string, string>, H: map<string, string>, T: map<string, string>,
                   blobs: map<string, string>)
    requires forall f :: f in H ==> H[f] in blobs
    requires forall f :: f in T ==> T[f] in blobs
    ensures Synced(Synced(cwd, H, T, blobs), T, H, blobs) == Synced(cwd, T, H, blobs)
  {
    var a := Synced(Synced(cwd, H, T, blobs), T, H, blobs);
    var b := Synced(cwd, T, H, blobs);
    assert a.Keys == b.Keys;
    forall f | f in a
      ensures a[f] == b[f]
    {
      if f in H {
      } else {
        assert Get(a, f) == Get(cwd, f) == Get(b, f);
      }
    }
  }

  /** Every file-name lookup `log` makes succeeds on a commit unless its merge line cannot
      be printed: `substring(0, 7)` of each parent id, which throws for a null first parent
      or an id shorter than seven characters. */
  predicate MergeLineFails(r: CommitRec)
  {
    r.parent2.Some? && (|r.parent2.value| < 7 || r.parent.None? || |r.parent.value| < 7)
  }

  /** The ids `find` prints, in listing order: each listed commit whose message is `msg`. */
  function FindSpec(names: seq<string>, store: Store, msg: string): seq<string>
    requires forall i :: 0 <= i < |names| ==> names[i] in FileNames(store.Keys)
  {
    if names == [] then []
    else
      assert names[0] in FileNames(store.Keys);
      StoredName(names[0], store.Keys);
      var k := names[0][..|names[0]| - 4];
      (if store[k].message == msg then [k] else []) + FindSpec(names[1..], store, msg)
  }

  /** A file name of a stored commit ends in four characters after the commit's id. */
  lemma StoredName(n: string, ids: set<string>)
    requires n in FileNames(ids)
    ensures |n| >= 4 && n[..|n| - 4] in ids && n == FileName(n[..|n| - 4])
  {
    var k :| k in ids && n == FileName(k);
    StripFileName(k);
  }

  /** The ids `find` prints are exactly the listed commits with that message. */
  lemma {:induction false} FindSpecMembers(names: seq<string>, store: Store, msg: string, id: string)
    requires forall i :: 0 <= i < |names| ==> names[i] in FileNames(store.Keys)
    ensures id in FindSpec(names, store, msg) <==>
              id in store && store[id].message == msg && FileName(id) in names
    decreases |names|
  {
    if names != [] {
      assert names[0] in FileNames(store.Keys);
      StoredName(names[0], store.Keys);
      var k := names[0][..|names[0]| - 4];
      FindSpecMembers(names[1..], store, msg, id);
      assert FileName(id) in names <==> FileName(id) == names[0] || FileName(id) in names[1..];
      if FileName(id) == names[0] {
        assert id == k by {
          StripFileName(id);
        }
      }
    }
  }

  lemma FindSpecAppend(names: seq<string>, n: string, store: Store, msg: string)
    requires forall i :: 0 <= i < |names| ==> names[i] in FileNames(store.Keys)
    requires n in FileNames(store.Keys)
    ensures forall i :: 0 <= i < |names + [n]| ==> (names + [n])[i] in FileNames(store.Keys)
    ensures |n| >= 4 && n[..|n| - 4] in store
    ensures FindSpec(names + [n], store, msg) ==
              FindSpec(names, store, msg) + (if store[n[..|n| - 4]].message == msg then [n[..|n| - 4]] else [])
  {
    StoredName(n, store.Keys);
    if names != [] {
      assert (names + [n])[1..] == names[1..] + [n];
      FindSpecAppend(names[1..], n, store, msg);
    }
  }

  /** Over the full listing, `find` prints every commit with that message and no other. */
  lemma FindComplete(names: seq<string>, store: Store, msg: string, id: string)
    requires IsListing(names, store.Keys)
    ensures forall i :: 0 <= i < |names| ==> names[i] in FileNames(store.Keys)
    ensures id in FindSpec(names, store, msg) <==> id in store && store[id].message == msg
  {
    assert forall i :: 0 <= i < |names| ==> names[i] in FileNames(store.Keys) by {
      forall i | 0 <= i < |names|
        ensures names[i] in FileNames(store.Keys)
      {
        assert names[i] in names;
      }
    }
    FindSpecMembers(names, store, msg, id);
    if id in store {
      assert FileName(id) in FileNames(store.Keys);
    }
  }

  /** The loop of `find` over the commit directory's listing: read each commit and keep
      the hash of the ones whose message is `msg`; with every record stored under its
      hash, those are the ids `FindSpec` lists. */
  method FindLoop(listing: seq<string>, store: Store, msg: string, commitId: CommitRec -> string)
    returns (ids: seq<string>, commitE: bool)
    requires forall i :: 0 <= i < |listing| ==> listing[i] in FileNames(store.Keys)
    requires forall id :: id in store ==> commitId(store[id]) == id
    ensures ids == FindSpec(listing, store, msg)
    ensures commitE <==> ids != []
  {
    ids := [];
    commitE := false;
    for i := 0 to |listing|
      invariant ids == FindSpec(listing[..i], store, msg)
      invariant commitE <==> ids != []
    {
      var s := listing[i];
      assert listing[..i + 1] == listing[..i] + [s];
      FindSpecAppend(listing[..i], s, store, msg);
      var com := store[s[..|s| - 4]];
      if com.message == msg {
        commitE := true;
        ids := ids + [commitId(com)];
      }
    }
    assert listing[..|listing|] == listing;
  }

  /** The loop of `merge` over the working files: it stops at the first one the head
      does not track. */
  method HasUntracked(cwdFiles: set<string>, track: map<string, string>) returns (found: bool)
    ensures found <==> !(cwdFiles <= track.Keys)
  {
    var files := cwdFiles;
    while files != {}
      invariant files <= cwdFiles
      invariant forall f :: f in cwdFiles - files ==> f in track
      decreases files
    {
      var file :| file in files;
      if file !in track {
        return true;
      }
      files := files - {file};
    }
    assert cwdFiles - files == cwdFiles;
    found := false;
  }

  /** The name `merge` reads the split commit under: `getCommit(null)` looks for the
      file `null.txt`. */
  function SplitName(r: BfsResult): string
  {
    if r.Found? then r.id else "null"
  }

  /** The record `commitMerge` builds: constructed without parents, so timestamped at the
      epoch; the head's map, then the staged additions; parents and labels set afterwards.
      Its removal loop passes map entries to `remove`, which match no file name, so the
      staged removals change nothing. */
  method NewMergeCommit(message: string, headRec: CommitRec, s: StagingArea, headName1: string,
                        commitName: string, now: int)
    returns (rec: CommitRec)
    ensures rec == CommitRec(message, Epoch, headRec.track + s.addFile, Some(headName1), Some(commitName),
                             Some(headName1), Some(commitName))
  {
    var commit2 := new Commit(message, None, None, now);
    var head := new Commit.Load(headRec);
    commit2.track := commit2.track + head.track;
    commit2.track := commit2.track + s.addFile;
    assert commit2.track == headRec.track + s.addFile;
    commit2.SetParent(Some(headName1));
    commit2.SetParent2(Some(commitName));
    commit2.SetBranch(Some(headName1));
    commit2.SetBranch2(Some(commitName));
    rec := commit2.Snapshot();
  }

  /** The record `commit` builds with the `Commit` class: a new commit on `parentName`,
      its tracked map the parent's with the staging area applied. */
  method NewCommit(message: string, parentName: string, parentRec: CommitRec, s: StagingArea, now: int)
    returns (rec: CommitRec)
    ensures rec == CommitRec(message, now, ApplyStaging(parentRec.track, s.addFile, s.removeFile),
                             Some(parentName), None, None, None)
  {
    var parent := new Commit.Load(parentRec);
    var curr := new Commit(message, Some(parentName), None, now);
    curr.Combine(parent);
    assert curr.track == parent.track;
    curr.EditHash(s);
    rec := curr.Snapshot();
  }

  /** The branch `mergeT` takes: no split point found, the other head is the split
      point, a fast-forward, or nothing to do. */
  datatype MergeTCase = NoSplit | Ancestor | FastForward | Proceed

  /** The messages a turn of the loop in `merge` can print: those of `checkout2`. */
  predicate LookupDiags(diags: seq<Diag>)
  {
    forall i :: 0 <= i < |diags| ==> diags[i] in {FileNotInCommit, NoCommitWithId}
  }

  /** Messages of turns put together are still messages of turns. */
  lemma LookupDiagsAppend(a: seq<Diag>, b: seq<Diag>)
    requires LookupDiags(a) && LookupDiags(b)
    ensures LookupDiags(a + b) && MergeConflict !in a + b && Exception !in a + b
  {
    assert forall i :: 0 <= i < |a + b| ==> (a + b)[i] == if i < |a| then a[i] else b[i - |a|];
  }

  /** The messages of a merge that commits: those of `mergeT`, those of the loop's turns
      and the conflict report, which is the only `MergeConflict` among them. */
  lemma TailDiags(t: seq<Diag>, l: seq<Diag>, conflict: bool)
    requires Exception !in t && MergeConflict !in t && LookupDiags(l)
    ensures var d := t + l + (if conflict then [MergeConflict] else []);
            Exception !in d && (MergeConflict in d <==> conflict)
  {
    assert Exception !in l && MergeConflict !in l;
  }

  /** Everything a command reads and leaves behind: the working directory, the blob
      store, the commit store, the branch table, the active branch and what is staged. */
  datatype RepoState = RepoState(
    cwd: map<string, string>,
    blobs: map<string, string>,
    commits: map<string, CommitRec>,
    branches: map<string, string>,
    active: string,
    add: map<string, string>,
    rem: map<string, string>)

  /** Both heads of a merge of branch `b` are stored. */
  ghost predicate HeadsStored(s: RepoState, b: string)
  {
    s.active in s.branches && s.branches[s.active] in s.commits
    && b in s.branches && s.branches[b] in s.commits
  }

  /** The keys `splitSection` puts in its marking map: every listed file name. */
  method MarkingKeys(listing: seq<string>) returns (markingCom: set<string>)
    ensures forall x :: x in markingCom <==> x in listing
  {
    markingCom := {};
    for i := 0 to |listing|
      invariant forall x :: x in markingCom <==> x in listing[..i]
    {
      assert listing[..i + 1] == listing[..i] + [listing[i]];
      markingCom := markingCom + {listing[i]};
    }
    assert listing[..|listing|] == listing;
  }

  /** What the fast-forward of `mergeT` onto branch `b` does from state `s0`, leaving
      `s1`: it reports the fast-forward and warns about each untracked file in the way;
      a missing blob of the other head throws, leaving the active branch and the staging
      area as they were; otherwise the working directory is synced to the other head,
      that branch becomes active and nothing is staged. The stores are untouched. */
  ghost predicate FFOutcome(b: string, s0: RepoState, diags: seq<Diag>, s1: RepoState)
    requires HeadsStored(s0, b)
  {
    var h := s0.commits[s0.branches[s0.active]].track;
    var target := s0.commits[s0.branches[b]].track;
    var warn := Warnings(UntrackedInWay(s0.cwd, h, target));
    && s1.commits == s0.commits && s1.branches == s0.branches && s1.blobs == s0.blobs
    && if exists f :: f in target && target[f] !in s0.blobs then
         && diags == [FastForwarded] + warn + [Exception]
         && s1.active == s0.active && s1.add == s0.add && s1.rem == s0.rem
       else
         && diags == [FastForwarded] + warn
         && s1.cwd == Synced(s0.cwd, h, target, s0.blobs)
         && s1.active == b && s1.add == map[] && s1.rem == map[]
  }

  /** What `mergeT` of branch `b` does from state `s0` when it takes branch `k`, leaving
      `s1`: no split point throws, a split point that is the other head reports an
      ancestor, and neither those nor going on change anything; a fast-forward goes as
      `FFOutcome` says. */
  ghost predicate TOutcome(b: string, k: MergeTCase, s0: RepoState, diags: seq<Diag>, s1: RepoState)
    requires HeadsStored(s0, b)
  {
    && (k != FastForward ==>
          && s1 == s0
          && diags == match k
                      case NoSplit => [Exception]
                      case Ancestor => [GivenIsAncestor]
                      case _ => [])
    && (k == FastForward ==> FFOutcome(b, s0, diags, s1))
  }

  /** What `merge` of branch `b` does from state `s0` once its checks pass, leaving `s1`,
      with `k` the branch `mergeT` takes and `split` the split commit: `mergeT`
      finding no split point throws with nothing changed, a merge with a split point that
      is `LoopSafe` does not throw, and a merge that does not throw commits as
      `MergeCommitted` says. Whether `checkout2` inside `m1` finds the other head's own
      file depends on the names in `listing`, the commit directory. */
  ghost predicate RunOutcome(b: string, k: MergeTCase, split: string, listing: seq<string>,
                             s0: RepoState, diags: seq<Diag>, s1: RepoState)
    requires HeadsStored(s0, b) && split in s0.commits
  {
    var headName := s0.branches[s0.active];
    var h := s0.commits[headName].track;
    var c := s0.commits[s0.branches[b]].track;
    var sp := s0.commits[split].track;
    var resolves := Unambiguous(listing, s0.branches[b]);
    && (k == NoSplit ==> diags == [Exception] && s1 == s0)
    && (k != NoSplit && LoopSafe(h, c, sp, s0.blobs, resolves) ==> Exception !in diags)
    && (Exception !in diags ==>
          MergeCommitted(b, s0.active, headName, s0.branches[b], h, c, sp,
                         k == FastForward, resolves, MergeConflict in diags,
                         s0.commits, s0.branches, s0.blobs,
                         s1.active, s1.commits, s1.branches, s1.blobs, s1.add, s1.rem, s1.cwd)
          && OthersKept(h, c, sp, s0.cwd, s1.cwd))
  }

  /** After `mergeT`, with nothing staged at the start: a throw ends the merge as
      `RunOutcome` says; otherwise there was a split point, nothing is reported as a
      conflict, the stores are unchanged, the other branch is active exactly after a
      fast-forward (tracking the other head's files `c`, and the head's `h` otherwise),
      nothing is staged and only working files of the two heads differ. */
  lemma TStep(b: string, k: MergeTCase, split: string, listing: seq<string>,
              s0: RepoState, diags: seq<Diag>, s1: RepoState,
              h: map<string, string>, c: map<string, string>, sp: map<string, string>)
    requires HeadsStored(s0, b) && split in s0.commits && s0.add == map[] && s0.rem == map[]
    requires h == s0.commits[s0.branches[s0.active]].track && c == s0.commits[s0.branches[b]].track
    requires sp == s0.commits[split].track
    requires TOutcome(b, k, s0, diags, s1)
    ensures Exception in diags ==> RunOutcome(b, k, split, listing, s0, diags, s1)
    ensures Exception !in diags ==>
              && k != NoSplit && MergeConflict !in diags
              && s1.commits == s0.commits && s1.branches == s0.branches && s1.blobs == s0.blobs
              && s1.active == (if k == FastForward then b else s0.active)
              && s1.active in s1.branches && s1.branches[s1.active] in s1.commits
              && s1.commits[s1.branches[s1.active]].track == (if k == FastForward then c else h)
              && s1.add == map[] && s1.rem == map[]
              && forall f :: f !in h && f !in c ==> Get(s1.cwd, f) == Get(s0.cwd, f)
  {
    if k == FastForward {
      var warn := Warnings(UntrackedInWay(s0.cwd, h, c));
      if exists f :: f in c && c[f] !in s0.blobs {
        MissingBlobUnsafe(h, c, sp, s0.blobs, Unambiguous(listing, s0.branches[b]));
      } else {
        assert Exception !in [FastForwarded] + warn && MergeConflict !in [FastForwarded] + warn;
      }
    }
  }

  /** Whichever of the two heads is checked out, it tracks every file both heads track. */
  lemma SharedTracked(h: map<string, string>, c: map<string, string>, t: map<string, string>, ff: bool)
    requires t == (if ff then c else h)
    ensures h.Keys * c.Keys <= t.Keys
  {
  }

  /** A run whose maps and names are those of `s0`, that continues from working files
      `cwdT` which differ from those of `s0` only in files of the two heads, and that
      commits as `MergeCommitted` says from there when it does not throw, ends as
      `RunOutcome` says. */
  lemma CommittedRun(b: string, k: MergeTCase, split: string, listing: seq<string>,
                     s0: RepoState, diags: seq<Diag>,
                     s1: RepoState, headName: string, commitName: string,
                     h: map<string, string>, c: map<string, string>, sp: map<string, string>,
                     cwdT: map<string, string>)
    requires HeadsStored(s0, b) && split in s0.commits && k != NoSplit
    requires headName == s0.branches[s0.active] && commitName == s0.branches[b]
    requires h == s0.commits[headName].track && c == s0.commits[commitName].track
    requires sp == s0.commits[split].track
    requires forall f :: f !in h && f !in c ==> Get(cwdT, f) == Get(s0.cwd, f)
    requires LoopSafe(h, c, sp, s0.blobs, Unambiguous(listing, commitName)) ==> Exception !in diags
    requires Exception !in diags ==>
               MergeCommitted(b, s0.active, headName, commitName, h, c, sp, k == FastForward,
                              Unambiguous(listing, commitName), MergeConflict in diags, s0.commits, s0.branches, s0.blobs,
                              s1.active, s1.commits, s1.branches, s1.blobs,
                              s1.add, s1.rem, s1.cwd)
               && OthersKept(h, c, sp, cwdT, s1.cwd)
    ensures RunOutcome(b, k, split, listing, s0, diags, s1)
  {
    if Exception !in diags {
      forall f | f !in MergeFiles(h, c, sp)
        ensures Get(s1.cwd, f) == Get(s0.cwd, f)
      {
        assert Get(s1.cwd, f) == Get(cwdT, f);
      }
      assert OthersKept(h, c, sp, s0.cwd, s1.cwd);
    }
  }

  /** What `merge` does with nothing staged: an untracked working file refuses the merge
      with nothing changed; otherwise the merge with split commit `split` runs as
      `RunOutcome` says. */
  ghost predicate CleanOutcome(b: string, k: MergeTCase, split: string, listing: seq<string>,
                               s0: RepoState, diags: seq<Diag>, s1: RepoState)
    requires HeadsStored(s0, b) && split in s0.commits
  {
    var h := s0.commits[s0.branches[s0.active]].track;
    && (!(s0.cwd.Keys <= h.Keys) ==> diags == [UntrackedInTheWay] && s1 == s0)
    && (s0.cwd.Keys <= h.Keys ==> RunOutcome(b, k, split, listing, s0, diags, s1))
  }

  /** What `merge` does once the split commit `split` is read: staged changes refuse the
      merge with nothing changed, and otherwise it goes on as `CleanOutcome` says. */
  ghost predicate ReadyOutcome(b: string, k: MergeTCase, split: string, listing: seq<string>,
                               s0: RepoState, diags: seq<Diag>, s1: RepoState)
    requires HeadsStored(s0, b) && split in s0.commits
  {
    && (!(|s0.add| == 0 && |s0.rem| == 0) ==> diags == [UncommittedChanges] && s1 == s0)
    && (|s0.add| == 0 && |s0.rem| == 0 ==> CleanOutcome(b, k, split, listing, s0, diags, s1))
  }

  /** What `merge` of an existing other branch does: a split commit `split` that cannot
      be read throws with nothing changed, and otherwise the merge goes on as
      `ReadyOutcome` says. */
  ghost predicate MergeOutcome(b: string, k: MergeTCase, split: string, listing: seq<string>,
                               s0: RepoState, diags: seq<Diag>, s1: RepoState)
    requires HeadsStored(s0, b)
  {
    && (split !in s0.commits ==> diags == [Exception] && s1 == s0)
    && (split in s0.commits ==> ReadyOutcome(b, k, split, listing, s0, diags, s1))
  }

  class Repo {
    /** `Utils.sha1` on a string. */
    const Sha1: string -> string
    /** `Utils.sha1(Utils.serialize(c))`: the id of a commit with the given record. */
    const CommitId: CommitRec -> string
    /** `Utils.serialize` of a string, as `writeObject` stores it. */
    const SerializeText: string -> string

    /** The plain files of the working directory: file name to content. */
    var cwd: map<string, string>
    /** `.gitlet/blobs`: blob id to stored content. */
    var blobs: map<string, string>
    /** `.gitlet/commits`: commit id to record. */
    var commits: map<string, CommitRec>
    /** `.gitlet/branches`: branch name to commit id. */
    var branches: map<string, string>
    /** `.gitlet/activeBranch.txt`. */
    var active: string
    /** `.gitlet/stagings.txt`. */
    const staging: StagingArea
    /** Termination witness for walks over parent links. */
    ghost var rank: map<string, nat>

    /** Two records with the same id. */
    ghost predicate IdClash(a: CommitRec, b: CommitRec)
    {
      CommitId(a) == CommitId(b)
    }

    /** Distinct records have distinct ids: SHA-1 is taken to be collision-free. */
    ghost predicate Injective()
    {
      forall a: CommitRec, b: CommitRec {:trigger IdClash(a, b)} :: IdClash(a, b) ==> a == b
    }

    function RootId(): string
    {
      CommitId(RootCommit())
    }

    /** The invariant every command keeps: commits are stored under their ids, parent
        links are acyclic and stay inside the store, the root commit is stored and is the
        only one without a first parent, and every branch points at a stored commit. */
    ghost predicate Valid()
      reads this`commits, this`rank, this`branches, this`active
    {
      && Injective()
      && Ranked(commits, rank)
      && (forall id :: id in commits ==> CommitId(commits[id]) == id)
      && RootId() in commits
      && OnlyRootOrphan(commits, RootId())
      && (forall n :: n in branches ==> branches[n] in commits)
      && HeadStored()
    }

    /** The active branch exists and points at a stored commit. */
    ghost predicate HeadStored()
      reads this`commits, this`branches, this`active
    {
      active in branches && branches[active] in commits
    }

    /** The state `init` creates: the root commit, branch `master` pointing at it and
        active, nothing staged, no blobs. Distinct commit records get distinct ids. */
    constructor Init(sha1: string -> string, commitId: CommitRec -> string,
                     serializeText: string -> string, files: map<string, string>)
      requires forall a: CommitRec, b: CommitRec :: commitId(a) == commitId(b) ==> a == b
      ensures Valid()
      ensures commits == map[RootId() := RootCommit()]
      ensures branches == map["master" := RootId()] && active == "master"
      ensures blobs == map[] && cwd == files
      ensures staging.addFile == map[] && staging.removeFile == map[]
      ensures fresh(staging)
    {
      Sha1 := sha1;
      CommitId := commitId;
      SerializeText := serializeText;
      var root := CommitRec("initial commit", Epoch, map[], None, None, None, None);
      var id := commitId(root);
      cwd := files;
      blobs := map[];
      commits := map[id := root];
      branches := map["master" := id];
      active := "master";
      staging := new StagingArea();
      rank := map[id := 0];
    }

    /** The active branch's commit id. */
    function Head(): string
      requires HeadStored()
      reads this`commits, this`branches, this`active
      ensures Head() in commits
    {
      branches[active]
    }

    /** The files the head commit tracks. */
    function HeadTrack(): map<string, string>
      requires HeadStored()
      reads this`commits, this`branches, this`active
    {
      commits[Head()].track
    }

    /** The repository's state as a value. */
    ghost function State(): RepoState
      reads this, staging
    {
      RepoState(cwd, blobs, commits, branches, active, staging.addFile, staging.removeFile)
    }

    /** The root is stored under its id; with distinct ids for distinct records it is the
        record `init` writes. */
    lemma RootStored()
      requires Valid()
      ensures commits[RootId()] == RootCommit()
    {
      assert IdClash(commits[RootId()], RootCommit());
    }

    /** Store `rec` under its id. An id already stored holds `rec` itself, because ids
        are content hashes. */
    method WriteCommit(rec: CommitRec) returns (id: string)
      requires Valid()
      requires rec.parent.Some? && rec.parent.value in commits
      requires rec.parent2.Some? ==> rec.parent2.value in commits
      modifies this`commits, this`rank
      ensures Valid()
      ensures id == CommitId(rec) && commits == old(commits)[id := rec]
      ensures old(commits).Keys <= commits.Keys
    {
      id := CommitId(rec);
      if id in commits {
        assert IdClash(commits[id], rec);
        assert commits[id := rec] == commits;
      } else {
        var p := rec.parent.value;
        ghost var r := 1 + rank[p] + (if rec.parent2.Some? then rank[rec.parent2.value] else 0);
        RankedInsert(commits, rank, id, rec, r);
        rank := rank[id := r];
        commits := commits[id := rec];
      }
    }

    /** Write `id` into the file of branch `name`. */
    method PointBranch(name: string, id: string)
      requires Valid() && id in commits
      modifies this`branches
      ensures Valid() && branches == old(branches)[name := id]
    {
      branches := branches[name := id];
    }

    /** `add(fileName)`. */
    method Add(fileName: string) returns (diags: seq<Diag>)
      requires Valid()
      modifies this`blobs, staging
      ensures Valid()
      ensures fileName !in cwd ==>
                diags == [FileDoesNotExist] && blobs == old(blobs) && unchanged(staging)
      ensures fileName in cwd ==>
                var bSha := Sha1(cwd[fileName]) + Sha1(fileName);
                && diags == []
                && staging.removeFile == old(staging.removeFile) - {fileName}
                && (Get(HeadTrack(), fileName) == Some(bSha) ==>
                      staging.addFile == old(staging.addFile) - {fileName} && blobs == old(blobs))
                && (Get(HeadTrack(), fileName) != Some(bSha) ==>
                      && staging.addFile == old(staging.addFile)[fileName := bSha]
                      && bSha in blobs
                      && blobs == if bSha in old(blobs) then old(blobs) else old(blobs)[bSha := cwd[fileName]])
    {
      if fileName !in cwd {
        return [FileDoesNotExist];
      }
      var head := commits[branches[active]];
      var blob := cwd[fileName];
      var bSha := Sha1(blob) + Sha1(fileName);
      var headHash := head.track;
      if Get(headHash, fileName) == Some(bSha) {
        staging.RemoveAdd(fileName);
      } else {
        if bSha !in blobs {
          blobs := blobs[bSha := blob];
        }
        staging.Add(fileName, bSha);
      }
      staging.RemoveRemove(fileName);
      diags := [];
    }

    /** The record `commit(message)` writes at time `now`: the head's files with the
        staging area applied, on top of the head. */
    ghost function StagedCommit(message: string, now: int): CommitRec
      requires HeadStored()
      reads this`commits, this`branches, this`active, staging
    {
      CommitRec(message, now, ApplyStaging(HeadTrack(), staging.addFile, staging.removeFile),
                Some(Head()), None, None, None)
    }

    /** `commit(message)`, with `now` the wall clock. */
    method Commit(message: string, now: int) returns (diags: seq<Diag>)
      requires Valid()
      modifies this`commits, this`rank, this`branches, staging
      ensures Valid()
      ensures diags == (if |message| < 1 then [NoCommitMessage] else []) +
                       (if old(staging.IsEmpty()) then [NoChanges] else [])
      ensures old(staging.IsEmpty()) ==>
                commits == old(commits) && branches == old(branches) && unchanged(staging)
      ensures !old(staging.IsEmpty()) ==>
                var rec := old(StagedCommit(message, now));
                && commits == old(commits)[CommitId(rec) := rec]
                && branches == old(branches)[active := CommitId(rec)]
                && staging.addFile == map[] && staging.removeFile == map[]
    {
      diags := [];
      if |message| < 1 {
        diags := [NoCommitMessage];
      }
      if staging.IsEmpty() {
        return diags + [NoChanges];
      }
      CommitStaged(message, now);
    }

    /** The part of `commit` after its checks: write the new commit, move the active
        branch to it and clear the staging area. */
    method CommitStaged(message: string, now: int)
      requires Valid()
      modifies this`commits, this`rank, this`branches, staging
      ensures Valid()
      ensures var rec := old(StagedCommit(message, now));
              && commits == old(commits)[CommitId(rec) := rec]
              && branches == old(branches)[active := CommitId(rec)]
              && staging.addFile == map[] && staging.removeFile == map[]
    {
      var parentName := branches[active];
      var rec := NewCommit(message, parentName, commits[parentName], staging, now);
      assert rec == StagedCommit(message, now);
      var id := WriteCommit(rec);
      PointBranch(active, id);
      staging.Clear();
    }

    /** `remove(fileName)`. */
    method Remove(fileName: string) returns (diags: seq<Diag>)
      requires Valid()
      modifies this`cwd, staging
      ensures Valid()
      ensures fileName !in old(HeadTrack()) && fileName !in old(staging.addFile) ==>
                diags == [NoReasonToRemove] && cwd == old(cwd) && unchanged(staging)
      ensures fileName in old(HeadTrack()) || fileName in old(staging.addFile) ==> diags == []
      ensures fileName in old(HeadTrack()) || fileName in old(staging.addFile) ==>
                if fileName !in old(cwd) then
                  // the design unstages the addition here; the source stages a removal of ""
                  && staging.removeFile == old(staging.removeFile)[fileName := EmptyMarker]
                  && staging.addFile == old(staging.addFile) && cwd == old(cwd)
                else
                  && staging.addFile == old(staging.addFile) - {fileName}
                  && (fileName in old(HeadTrack()) ==>
                        && staging.removeFile == old(staging.removeFile)[fileName := Sha1(old(cwd)[fileName])]
                        && cwd == old(cwd) - {fileName})
                  && (fileName !in old(HeadTrack()) ==>
                        staging.removeFile == old(staging.removeFile) && cwd == old(cwd))
    {
      var head := commits[branches[active]];
      var sAdd := staging.addFile;
      var headHash := head.track;
      if fileName !in headHash && fileName !in sAdd {
        return [NoReasonToRemove];
      }
      diags := [];
      if fileName !in cwd {
        staging.RemoveEmpty(fileName);
      } else {
        var blobSha := Sha1(cwd[fileName]);
        staging.RemoveAdd(fileName);
        if fileName in head.track {
          staging.Remove(fileName, blobSha);
          cwd := cwd - {fileName};
        }
      }
    }

    /** `branch(branchName)`. */
    method Branch(branchName: string) returns (diags: seq<Diag>)
      requires Valid()
      modifies this`branches
      ensures Valid()
      ensures branchName in old(branches) ==> diags == [BranchExists] && branches == old(branches)
      ensures branchName !in old(branches) ==>
                diags == [] && branches == old(branches)[branchName := old(Head())]
    {
      if branchName in branches {
        return [BranchExists];
      }
      branches := branches[branchName := branches[active]];
      diags := [];
    }

    /** `rmBranch(branchName)`. */
    method RmBranch(branchName: string) returns (diags: seq<Diag>)
      requires Valid()
      modifies this`branches
      ensures Valid()
      ensures branchName !in old(branches) ==> diags == [BranchMissing] && branches == old(branches)
      ensures branchName in old(branches) && branchName == active ==>
                diags == [CannotRemoveCurrent] && branches == old(branches)
      ensures branchName in old(branches) && branchName != active ==>
                diags == [] && branches == old(branches) - {branchName}
    {
      if branchName !in branches {
        return [BranchMissing];
      }
      if active == branchName {
        return [CannotRemoveCurrent];
      }
      branches := branches - {branchName};
      diags := [];
    }

    /** Write the blob `blobId` names into working file `fileName`, creating the file empty
        first as `createNewFile` does; a missing blob file throws. */
    method RestoreFile(fileName: string, blobId: string) returns (crashed: bool)
      modifies this`cwd
      ensures crashed <==> blobId !in blobs
      ensures !crashed ==> cwd == old(cwd)[fileName := blobs[blobId]]
      ensures crashed ==> cwd == if fileName in old(cwd) then old(cwd) else old(cwd)[fileName := ""]
    {
      if fileName !in cwd {
        cwd := cwd[fileName := ""];
      }
      if blobId !in blobs {
        return true;
      }
      cwd := cwd[fileName := blobs[blobId]];
      crashed := false;
    }

    /** `checkout1(fileName)`: restore a file from the head. A file the head does not
        track looks up the blob file `null.txt`. */
    method Checkout1(fileName: string) returns (diags: seq<Diag>)
      requires Valid()
      modifies this`cwd
      ensures Valid()
      ensures var key := NameOf(Get(HeadTrack(), fileName));
              && (key in blobs <==> diags == [])
              && (key in blobs ==> cwd == old(cwd)[fileName := blobs[key]])
              && (key !in blobs ==> diags == [Exception])
    {
      var com := commits[branches[active]];
      var blobFileName := NameOf(Get(com.track, fileName));
      var crashed := RestoreFile(fileName, blobFileName);
      diags := if crashed then [Exception] else [];
    }

    /** The commit id `checkout2` and `reset` look up for `commitID`: the resolved name
        without its last four characters, or `None` when the source throws. */
    function ResolvedId(listing: seq<string>, commitID: string): Option<string>
    {
      StripTxt(ResolveSpec(listing, commitID))
    }

    /** What `checkout2(commitID, fileName)` finds. The tracking check is made against
        the head, not the commit named. */
    function CheckoutLookup(listing: seq<string>, commitID: string, fileName: string): Lookup
      requires HeadStored()
      reads this`commits, this`branches, this`active
    {
      if fileName !in HeadTrack() then Fails(FileNotInCommit)
      else match ResolvedId(listing, commitID)
        case None => Fails(Exception)
        case Some(id) =>
          if id !in commits then Fails(NoCommitWithId)
          else Restores(NameOf(Get(commits[id].track, fileName)))
    }

    /** A full stored id that no other listed name contains restores the file from that
        commit, for a file the head tracks. */
    lemma CheckoutFullId(listing: seq<string>, commitID: string, fileName: string)
      requires HeadStored() && IsListing(listing, commits.Keys)
      requires fileName in HeadTrack() && commitID in commits && Unambiguous(listing, commitID)
      ensures CheckoutLookup(listing, commitID, fileName) == Restores(NameOf(Get(commits[commitID].track, fileName)))
    {
      ResolveFullId(listing, commits.Keys, commitID);
    }

    /** An id no listed name contains, too short to lose its last four characters, makes
        `checkout2` throw, for a file the head tracks. */
    lemma CheckoutShortId(listing: seq<string>, commitID: string, fileName: string)
      requires Valid() && fileName in HeadTrack() && |commitID| < 4
      requires forall i :: 0 <= i < |listing| ==> !Contains(listing[i], commitID)
      ensures CheckoutLookup(listing, commitID, fileName) == Fails(Exception)
    {
      ResolveNoMatch(listing, commitID);
    }

    /** `checkout2(commitID, fileName)`: restore a file from the commit the lookup finds. */
    method Checkout2(commitID: string, fileName: string, listing: seq<string>) returns (diags: seq<Diag>)
      requires HeadStored() && IsListing(listing, commits.Keys)
      modifies this`cwd
      ensures forall f :: f != fileName ==> Get(cwd, f) == Get(old(cwd), f)
      ensures var l := CheckoutLookup(listing, commitID, fileName);
              && (l.Fails? ==> diags == [l.d] && cwd == old(cwd))
              && (l.Restores? && l.key in blobs ==> diags == [] && cwd == old(cwd)[fileName := blobs[l.key]])
              && (l.Restores? && l.key !in blobs ==> diags == [Exception])
    {
      var head := commits[branches[active]];
      if fileName !in head.track {
        return [FileNotInCommit];
      }
      var resolved := ResolveId(listing, commitID);
      if |resolved| < 4 {
        return [Exception];
      }
      var id := resolved[..|resolved| - 4];
      if id !in commits {
        return [NoCommitWithId];
      }
      var comOb := commits[id];
      var blobFileName := NameOf(Get(comOb.track, fileName));
      var crashed := RestoreFile(fileName, blobFileName);
      diags := if crashed then [Exception] else [];
    }

    /** The first loop `checkout3` and `reset` share: write every file of `target` from
        its blob, creating it empty first. A missing blob file throws. */
    method WriteTarget(target: map<string, string>) returns (crashed: bool)
      modifies this`cwd
      ensures crashed <==> exists f :: f in target && target[f] !in blobs
      ensures !crashed ==> cwd == old(cwd) + map f | f in target :: blobs[target[f]]
    {
      var keys := target.Keys;
      while keys != {}
        invariant keys <= target.Keys
        invariant forall f :: f in target.Keys - keys ==> target[f] in blobs
        invariant cwd == old(cwd) + map f | f in target.Keys - keys :: blobs[target[f]]
        decreases keys
      {
        var fileName :| fileName in keys;
        if fileName !in cwd {
          cwd := cwd[fileName := ""];
        }
        var blobFile := target[fileName];
        if blobFile !in blobs {
          return true;
        }
        cwd := cwd[fileName := blobs[blobFile]];
        keys := keys - {fileName};
      }
      assert target.Keys - keys == target.Keys;
      crashed := false;
    }

    /** The second loop: delete every working file the old head tracks and the target
        does not. */
    method DeleteStale(headTrack: map<string, string>, target: map<string, string>)
      modifies this`cwd
      ensures cwd == old(cwd) - (headTrack.Keys - target.Keys)
    {
      var files := cwd.Keys;
      while files != {}
        invariant files <= old(cwd).Keys
        invariant cwd == old(cwd) - ((old(cwd).Keys - files) * (headTrack.Keys - target.Keys))
        decreases files
      {
        var file :| file in files;
        if file in headTrack && file !in target {
          cwd := cwd - {file};
        }
        files := files - {file};
      }
      assert old(cwd).Keys - files == old(cwd).Keys;
    }

    /** The two loops of `checkout3` and `reset` together. */
    method SyncWorkingTree(headTrack: map<string, string>, target: map<string, string>)
      returns (crashed: bool)
      modifies this`cwd
      ensures crashed <==> exists f :: f in target && target[f] !in blobs
      ensures !crashed ==> cwd == Synced(old(cwd), headTrack, target, blobs)
    {
      crashed := WriteTarget(target);
      if !crashed {
        DeleteStale(headTrack, target);
      }
    }

    /** `checkout3(branchName)`. The untracked-file check only prints. */
    method Checkout3(branchName: string) returns (diags: seq<Diag>)
      requires Valid()
      modifies this`cwd, this`active, staging
      ensures Valid()
      ensures branchName == old(active) ==>
                diags == [NoNeedToCheckout] && cwd == old(cwd) && active == old(active) && unchanged(staging)
      ensures branchName != old(active) && branchName !in branches ==>
                diags == [NoSuchBranch] && cwd == old(cwd) && active == old(active) && unchanged(staging)
      ensures branchName != old(active) && branchName in branches ==>
                var target := commits[branches[branchName]].track;
                var warn := Warnings(UntrackedInWay(old(cwd), old(HeadTrack()), target));
                if exists f :: f in target && target[f] !in blobs then
                  diags == warn + [Exception] && active == old(active) && unchanged(staging)
                else
                  && diags == warn
                  && cwd == Synced(old(cwd), old(HeadTrack()), target, blobs)
                  && active == branchName
                  && staging.addFile == map[] && staging.removeFile == map[]
    {
      if active == branchName {
        return [NoNeedToCheckout];
      }
      if branchName !in branches {
        return [NoSuchBranch];
      }
      var head := commits[branches[active]];
      var com := commits[branches[branchName]];
      diags := Warnings(UntrackedInWay(cwd, head.track, com.track));
      var crashed := SyncWorkingTree(head.track, com.track);
      if crashed {
        return diags + [Exception];
      }
      active := branchName;
      staging.Clear();
    }

    /** `reset(commitID)`: resolve the id, then go on as `ResetTo`. */
    method Reset(commitID: string, listing: seq<string>) returns (diags: seq<Diag>)
      requires Valid() && IsListing(listing, commits.Keys)
      modifies this`cwd, this`branches, staging
      ensures Valid()
      ensures ResolvedId(listing, commitID).None? ==>
                diags == [Exception] && cwd == old(cwd) && branches == old(branches) && unchanged(staging)
      ensures ResolvedId(listing, commitID).Some? && ResolvedId(listing, commitID).value !in commits ==>
                diags == [NoCommitWithId] && cwd == old(cwd) && branches == old(branches) && unchanged(staging)
      ensures ResolvedId(listing, commitID).Some? && ResolvedId(listing, commitID).value in commits ==>
                var id := ResolvedId(listing, commitID).value;
                var target := commits[id].track;
                var warn := Warnings(UntrackedInWay(old(cwd), old(HeadTrack()), target));
                if exists f :: f in target && target[f] !in blobs then
                  diags == warn + [Exception] && branches == old(branches) && unchanged(staging)
                else
                  && diags == warn
                  && cwd == Synced(old(cwd), old(HeadTrack()), target, blobs)
                  && branches == old(branches)[active := id]
                  && staging.addFile == map[] && staging.removeFile == map[]
    {
      ghost var cwd0, branches0, track0 := cwd, branches, HeadTrack();
      var resolved := ResolveId(listing, commitID);
      assert cwd == cwd0 && branches == branches0;
      assert HeadTrack() == track0;
      if |resolved| < 4 {
        return [Exception];
      }
      var id := resolved[..|resolved| - 4];
      if id !in commits {
        return [NoCommitWithId];
      }
      diags := ResetTo(id);
    }

    /** `reset` once the id `id` of a stored commit is resolved: like `checkout3`, but the
        active branch's pointer moves to that commit. */
    method ResetTo(id: string) returns (diags: seq<Diag>)
      requires Valid() && id in commits
      modifies this`cwd, this`branches, staging
      ensures Valid()
      ensures var target := commits[id].track;
              var warn := Warnings(UntrackedInWay(old(cwd), old(HeadTrack()), target));
              if exists f :: f in target && target[f] !in blobs then
                diags == warn + [Exception] && branches == old(branches) && unchanged(staging)
              else
                && diags == warn
                && cwd == Synced(old(cwd), old(HeadTrack()), target, blobs)
                && branches == old(branches)[active := id]
                && staging.addFile == map[] && staging.removeFile == map[]
    {
      var head := commits[branches[active]];
      var com := commits[id];
      diags := Warnings(UntrackedInWay(cwd, head.track, com.track));
      var crashed := SyncWorkingTree(head.track, com.track);
      if crashed {
        return diags + [Exception];
      }
      PointBranch(active, id);
      staging.Clear();
    }

    /** `find(msg)`: the ids of the listed commits whose message is `msg`, in listing
        order. It prints the hash of each record read, which is the id it is stored under. */
    method Find(msg: string, listing: seq<string>) returns (ids: seq<string>, diags: seq<Diag>)
      requires Valid() && IsListing(listing, commits.Keys)
      ensures forall i :: 0 <= i < |listing| ==> listing[i] in FileNames(commits.Keys)
      ensures ids == FindSpec(listing, commits, msg)
      ensures forall id :: id in ids <==> id in commits && commits[id].message == msg
      ensures diags == if ids == [] then [FoundNoCommit] else []
    {
      FindComplete(listing, commits, msg, "");
      var commitE;
      ids, commitE := FindLoop(listing, commits, msg, CommitId);
      forall id
        ensures id in ids <==> id in commits && commits[id].message == msg
      {
        FindComplete(listing, commits, msg, id);
      }
      diags := if !commitE then [FoundNoCommit] else [];
    }

    /** The first-parent walk of `log` from the head: the ids it prints a block for, and
        whether it throws on a merge commit's abbreviated parent ids. */
    method Log() returns (ids: seq<string>, crashed: bool)
      requires Valid()
      ensures var chain := FirstParentChain(commits, rank, Head());
              && (crashed <==> exists i :: 0 <= i < |chain| && MergeLineFails(commits[chain[i]]))
              && (!crashed ==> ids == chain)
              && (crashed ==> 0 < |ids| <= |chain| && ids == chain[..|ids|]
                              && MergeLineFails(commits[ids[|ids| - 1]])
                              && forall i :: 0 <= i < |ids| - 1 ==> !MergeLineFails(commits[ids[i]]))
    {
      ghost var chain := FirstParentChain(commits, rank, Head());
      var commitName: Option<string> := Some(branches[active]);
      ids := [];
      ghost var k := 0;
      while commitName.Some?
        invariant 0 <= k <= |chain| && ids == chain[..k]
        invariant commitName.Some? <==> k < |chain|
        invariant commitName.Some? ==> commitName.value == chain[k]
        invariant forall i :: 0 <= i < k ==> !MergeLineFails(commits[chain[i]])
        decreases |chain| - k
      {
        var curr := commits[commitName.value];
        ids := ids + [commitName.value];
        assert ids == chain[..k + 1];
        if MergeLineFails(curr) {
          assert chain == FirstParentChain(commits, rank, Head());
          assert k < |chain| && MergeLineFails(commits[chain[k]]);
          return ids, true;
        }
        if k < |chain| - 1 {
          assert curr.parent == Some(chain[k + 1]);
        } else {
          assert curr.parent.None?;
        }
        commitName := curr.parent;
        k := k + 1;
      }
      assert chain[..k] == chain;
      crashed := false;
    }

    /** The result of `splitSection(branchName)`: breadth-first search from the head for
        the first commit in both histories, the marking map holding the file names of all
        stored commits. */
    ghost function SplitOf(branchName: string): BfsResult
      requires Valid() && branchName in branches
      reads this`commits, this`rank, this`branches, this`active
    {
      RankedParentsStored(commits, rank);
      BfsSpec(commits, History(commits, rank, Head()) * History(commits, rank, branches[branchName]),
              [Head()], FileNames(commits.Keys) + {Head()})
    }

    /** The root is in both histories, so the search never reaches the missing parent of
        the root, and what it finds is in both histories. When no id is also another's
        file name, it finds a split point. */
    lemma SplitPoint(branchName: string)
      requires Valid() && branchName in branches
      ensures SplitOf(branchName) != NullParent
      ensures SplitOf(branchName).Found? ==>
                && SplitOf(branchName).id in History(commits, rank, Head())
                && SplitOf(branchName).id in History(commits, rank, branches[branchName])
      ensures NoIdIsFileName(commits.Keys) ==> SplitOf(branchName).Found?
    {
      RankedParentsStored(commits, rank);
      var common := History(commits, rank, Head()) * History(commits, rank, branches[branchName]);
      var marks := FileNames(commits.Keys) + {Head()};
      RootInHistory(commits, rank, RootId(), Head());
      RootInHistory(commits, rank, RootId(), branches[branchName]);
      BfsNeverNull(commits, RootId(), common, [Head()], marks);
      BfsFoundInCommon(commits, common, [Head()], marks);
      if NoIdIsFileName(commits.Keys) {
        BfsFinds(commits, rank, RootId(), common, [Head()], marks, {});
      }
    }

    /** `splitSection(branchName)`. */
    method SplitSection(branchName: string, listing: seq<string>) returns (split: BfsResult)
      requires Valid() && branchName in branches && IsListing(listing, commits.Keys)
      ensures split == SplitOf(branchName)
    {
      RankedParentsStored(commits, rank);
      var passingBranchName := branches[branchName];
      var headName := branches[active];
      var currComHistory := History(commits, rank, headName);
      var mergeComHistory := History(commits, rank, passingBranchName);
      var commAn := currComHistory * mergeComHistory;
      var markingCom := MarkingKeys(listing);
      assert markingCom == FileNames(commits.Keys);
      ghost var enqueued;
      split, enqueued := Bfs(commits, commAn, headName, markingCom);
    }

    /** The branch `mergeT(branchName)` takes on this state. */
    ghost function MergeTCaseOf(branchName: string): MergeTCase
      requires Valid() && branchName in branches
      reads this`commits, this`rank, this`branches, this`active
    {
      SplitPoint(branchName);
      var sp := SplitOf(branchName);
      if !sp.Found? then NoSplit
      else if sp.id == branches[branchName] then Ancestor
      else if commits[sp.id].timestamp == commits[Head()].timestamp then FastForward
      else Proceed
    }

    /** The fast-forward of `mergeT`: report it, then `checkout3` of the other branch. */
    method FastForwardTo(branchName: string) returns (diags: seq<Diag>)
      requires Valid() && branchName in branches && branchName != active
      modifies this`cwd, this`active, staging
      ensures Valid() && HeadsStored(old(State()), branchName)
      ensures FFOutcome(branchName, old(State()), diags, State())
    {
      var d := Checkout3(branchName);
      diags := [FastForwarded] + d;
    }

    /** `mergeT(branchName)`: report a split point that is the other head, or fast-forward
        to the other branch with `checkout3` when the split point shares the head's
        timestamp. A search that found nothing throws. */
    method MergeT(branchName: string, listing: seq<string>) returns (diags: seq<Diag>, ghost k: MergeTCase)
      requires Valid() && branchName in branches && IsListing(listing, commits.Keys)
      modifies this`cwd, this`active, staging
      ensures Valid() && k == old(MergeTCaseOf(branchName)) && HeadsStored(old(State()), branchName)
      ensures TOutcome(branchName, k, old(State()), diags, State())
    {
      k := MergeTCaseOf(branchName);
      var headName := branches[active];
      var head := commits[headName];
      var commitName := branches[branchName];
      var splitPlaceSHA1 := SplitSection(branchName, listing);
      SplitPoint(branchName);
      if !splitPlaceSHA1.Found? {
        // `getCommit(null)` reads `null.txt`; when that exists, `null.equals` throws
        return [Exception], k;
      }
      var splitPlace := commits[splitPlaceSHA1.id];
      if splitPlaceSHA1.id == commitName {
        assert k == Ancestor;
        return [GivenIsAncestor], k;
      }
      if splitPlace.timestamp == head.timestamp {
        assert k == FastForward && branchName != active;
        diags := FastForwardTo(branchName);
        return diags, k;
      }
      assert k == Proceed;
      diags := [];
    }

    /** `m1(s, h, c, m, p)`: when the other branch changed a file the head did not, check
        out the other's version with `checkout2` and stage the file for addition with the
        empty marker and for removal with the other's blob id. A throw in `checkout2`
        ends it before the staging area is written. */
    method M1(s: string, h: map<string, string>, c: map<string, string>, sp: map<string, string>,
              commitName: string, listing: seq<string>) returns (diags: seq<Diag>)
      requires HeadStored() && IsListing(listing, commits.Keys)
      requires s in h && s in c && s in sp
      modifies this`cwd, staging
      ensures forall f :: f != s ==> Get(cwd, f) == Get(old(cwd), f)
      ensures !TakesOther(Some(h[s]), Some(c[s]), Some(sp[s])) ==>
                diags == [] && cwd == old(cwd) && unchanged(staging)
      ensures TakesOther(Some(h[s]), Some(c[s]), Some(sp[s])) ==>
                var l := CheckoutLookup(listing, commitName, s);
                && (l.Fails? ==> diags == [l.d] && cwd == old(cwd))
                && (l.Restores? && l.key in blobs ==> diags == [] && cwd == old(cwd)[s := blobs[l.key]])
                && (l.Restores? && l.key !in blobs ==> diags == [Exception])
                && (diags == [Exception] ==> unchanged(staging))
                && (diags != [Exception] ==>
                      && staging.addFile == old(staging.addFile)[s := EmptyMarker]
                      && staging.removeFile == old(staging.removeFile)[s := c[s]])
    {
      if c[s] != sp[s] && h[s] == sp[s] {
        diags := Checkout2(commitName, s, listing);
        if diags == [Exception] {
          return;
        }
        staging.AddEmpty(s);
        staging.Remove(s, c[s]);
      } else {
        diags := [];
      }
    }

    /** `merge2(s, head, com, split)`: when the if-chain finds a conflict, read the blobs of
        the sides present (a missing blob file throws), write the conflict text as a blob
        keyed by the hashes of the text and of the file name and into the working file,
        and stage the file for addition with the empty marker. */
    method Merge2(s: string, h: map<string, string>, c: map<string, string>, sp: map<string, string>)
      returns (conflict: bool, crashed: bool)
      requires s in h || s in c
      modifies this`blobs, this`cwd, staging
      ensures var d := Merge2Decision(Get(h, s), Get(c, s), Get(sp, s));
              && (crashed <==> (d in {HeadAbsent, BothPresent} && c[s] !in old(blobs)) ||
                               (d in {OtherAbsent, BothPresent} && h[s] !in old(blobs)))
              && (crashed || d == NoConflict ==>
                    !conflict && cwd == old(cwd) && blobs == old(blobs) && unchanged(staging))
              && (!crashed && d != NoConflict ==>
                    var w := ConflictText(if d == HeadAbsent then "" else old(blobs)[h[s]],
                                          if d == OtherAbsent then "" else old(blobs)[c[s]]);
                    && conflict
                    && cwd == old(cwd)[s := w]
                    && blobs == old(blobs)[Sha1(w) + Sha1(s) := SerializeText(w)]
                    && staging.addFile == old(staging.addFile)[s := EmptyMarker]
                    && staging.removeFile == old(staging.removeFile))
    {
      var d := Merge2Decision(Get(h, s), Get(c, s), Get(sp, s));
      if d == NoConflict {
        return false, false;
      }
      var writing := "";
      if d == HeadAbsent {
        if c[s] !in blobs {
          return false, true;
        }
        writing := ConflictText("", blobs[c[s]]);
      } else if d == OtherAbsent {
        if h[s] !in blobs {
          return false, true;
        }
        writing := ConflictText(blobs[h[s]], "");
      } else {
        if h[s] !in blobs || c[s] !in blobs {
          return false, true;
        }
        writing := ConflictText(blobs[h[s]], blobs[c[s]]);
      }
      var blobName := Sha1(writing) + Sha1(s);
      blobs := blobs[blobName := SerializeText(writing)];
      cwd := cwd[s := writing];
      staging.AddEmpty(s);
      conflict, crashed := true, false;
    }

    /** `merge3(s, com)`: write the other's version of a file and stage it for addition with
        the other's blob id. A missing blob file throws. */
    method Merge3(s: string, c: map<string, string>) returns (crashed: bool)
      requires s in c
      modifies this`cwd, staging
      ensures crashed <==> c[s] !in blobs
      ensures crashed ==> cwd == old(cwd) && unchanged(staging)
      ensures !crashed ==>
                && cwd == old(cwd)[s := blobs[c[s]]]
                && staging.addFile == old(staging.addFile)[s := c[s]]
                && staging.removeFile == old(staging.removeFile)
    {
      if c[s] !in blobs {
        return true;
      }
      cwd := cwd[s := blobs[c[s]]];
      staging.Add(s, c[s]);
      crashed := false;
    }

    /** `merge4(s, head, split)`: a file the head left as the split had it is deleted from
        the working directory and staged for removal with the head's blob id. */
    method Merge4(s: string, h: map<string, string>, sp: map<string, string>)
      requires s in h
      modifies this`cwd, staging
      ensures Get(sp, s) == Some(h[s]) ==>
                && cwd == old(cwd) - {s}
                && staging.removeFile == old(staging.removeFile)[s := h[s]]
                && staging.addFile == old(staging.addFile)
      ensures Get(sp, s) != Some(h[s]) ==> cwd == old(cwd) && unchanged(staging)
    {
      if Get(sp, s) == Some(h[s]) {
        cwd := cwd - {s};
        staging.Remove(s, h[s]);
      }
    }

    /** A turn for a file all three snapshots track: `m1`, then `merge2`. `commitName` is
        the other head, whose files are `c`; the file is one the current head tracks. */
    method TurnInAll(s: string, h: map<string, string>, c: map<string, string>, sp: map<string, string>,
                     commitName: string, listing: seq<string>)
      returns (conflict: bool, diags: seq<Diag>, crashed: bool)
      requires HeadStored() && IsListing(listing, commits.Keys)
      requires commitName in commits && commits[commitName].track == c && s in HeadTrack()
      requires s in h && s in c && s in sp
      modifies this`blobs, this`cwd, staging
      ensures TurnEffect(s, h, c, sp, old(staging.addFile), old(staging.removeFile), old(cwd), old(blobs),
                         staging.addFile, staging.removeFile, cwd, blobs,
                         Unambiguous(listing, commitName), conflict, crashed)
      ensures LookupDiags(diags)
    {
      HelpersExclusive(Get(h, s), Get(c, s), Get(sp, s));
      if Unambiguous(listing, commitName) {
        CheckoutFullId(listing, commitName, s);
      }
      diags := M1(s, h, c, sp, commitName, listing);
      if diags == [Exception] {
        return false, [], true;
      }
      conflict, crashed := Merge2(s, h, c, sp);
    }

    /** A turn for a file the head and the split track and the other does not: `merge2`,
        then `merge4`. */
    method TurnNotInOther(s: string, h: map<string, string>, c: map<string, string>, sp: map<string, string>,
                          ghost resolves: bool)
      returns (conflict: bool, crashed: bool)
      requires s in h && s !in c && s in sp
      modifies this`blobs, this`cwd, staging
      ensures TurnEffect(s, h, c, sp, old(staging.addFile), old(staging.removeFile), old(cwd), old(blobs),
                         staging.addFile, staging.removeFile, cwd, blobs, resolves, conflict, crashed)
    {
      HelpersExclusive(Get(h, s), Get(c, s), Get(sp, s));
      conflict, crashed := Merge2(s, h, c, sp);
      if !crashed {
        Merge4(s, h, sp);
      }
    }

    /** A turn for a file only the other tracks: `merge3`. */
    method TurnOnlyInOther(s: string, h: map<string, string>, c: map<string, string>, sp: map<string, string>,
                           ghost resolves: bool)
      returns (crashed: bool)
      requires s !in h && s in c && s !in sp
      modifies this`cwd, staging
      ensures TurnEffect(s, h, c, sp, old(staging.addFile), old(staging.removeFile), old(cwd), blobs,
                         staging.addFile, staging.removeFile, cwd, blobs, resolves, false, crashed)
    {
      crashed := Merge3(s, c);
    }

    /** A turn for a file the other and exactly one of head and split track: `merge2`
        alone. */
    method TurnMerge2(s: string, h: map<string, string>, c: map<string, string>, sp: map<string, string>,
                      ghost resolves: bool)
      returns (conflict: bool, crashed: bool)
      requires s in c && (s in h <==> s !in sp)
      modifies this`blobs, this`cwd, staging
      ensures TurnEffect(s, h, c, sp, old(staging.addFile), old(staging.removeFile), old(cwd), old(blobs),
                         staging.addFile, staging.removeFile, cwd, blobs, resolves, conflict, crashed)
    {
      conflict, crashed := Merge2(s, h, c, sp);
    }

    /** One turn of the loop in `merge`: the helpers called for file `s`, by which of the
        three snapshots track it. */
    method MergeOne(s: string, h: map<string, string>, c: map<string, string>, sp: map<string, string>,
                    commitName: string, listing: seq<string>)
      returns (conflict: bool, diags: seq<Diag>, crashed: bool)
      requires HeadStored() && commitName in commits && commits[commitName].track == c && h.Keys * c.Keys <= HeadTrack().Keys && IsListing(listing, commits.Keys)
      modifies this`blobs, this`cwd, staging
      ensures TurnEffect(s, h, c, sp, old(staging.addFile), old(staging.removeFile), old(cwd), old(blobs),
                         staging.addFile, staging.removeFile, cwd, blobs,
                         Unambiguous(listing, commitName), conflict, crashed)
      ensures LookupDiags(diags)
    {
      ghost var resolves := Unambiguous(listing, commitName);
      conflict, diags, crashed := false, [], false;
      if s in h && s in c && s in sp {
        conflict, diags, crashed := TurnInAll(s, h, c, sp, commitName, listing);
      } else if s !in h && s in c && s !in sp {
        crashed := TurnOnlyInOther(s, h, c, sp, resolves);
      } else if s in h && s !in c && s in sp {
        conflict, crashed := TurnNotInOther(s, h, c, sp, resolves);
      } else if s !in h && s in c && s in sp {
        conflict, crashed := TurnMerge2(s, h, c, sp, resolves);
      } else if s in h && s in c && s !in sp {
        conflict, crashed := TurnMerge2(s, h, c, sp, resolves);
      }
    }

    /** One turn of the loop in `merge`, and what it adds to the loop's state. */
    method Visit(ghost done: set<string>, s: string, h: map<string, string>, c: map<string, string>,
                 sp: map<string, string>, commitName: string, listing: seq<string>,
                 ghost add0: map<string, string>, ghost rem0: map<string, string>,
                 ghost cwd0: map<string, string>, ghost blobs0: map<string, string>,
                 ghost resolves: bool, conflict: bool, diags: seq<Diag>)
      returns (conflict': bool, diags': seq<Diag>, crashed: bool)
      requires HeadStored() && commitName in commits && commits[commitName].track == c && h.Keys * c.Keys <= HeadTrack().Keys && IsListing(listing, commits.Keys) && s !in done && LookupDiags(diags)
      requires resolves == Unambiguous(listing, commitName)
      requires LoopState(done, h, c, sp, add0, rem0, cwd0, blobs0,
                         staging.addFile, staging.removeFile, cwd, blobs, resolves, conflict)
      modifies this`blobs, this`cwd, staging
      ensures crashed ==> ActionOf(h, c, sp, s) in {TakeOther, Adopt, Conflict}
      ensures crashed ==>
                || (ActionOf(h, c, sp, s) == TakeOther && !resolves)
                || (s in h && h[s] !in blobs0) || (s in c && c[s] !in blobs0)
      ensures !crashed ==>
                && LookupDiags(diags')
                && LoopState(done + {s}, h, c, sp, add0, rem0, cwd0, blobs0,
                             staging.addFile, staging.removeFile, cwd, blobs, resolves, conflict')
    {
      ghost var add, rem, cwdA, blobsA := staging.addFile, staging.removeFile, cwd, blobs;
      var turnConflict, turnDiags;
      turnConflict, turnDiags, crashed := MergeOne(s, h, c, sp, commitName, listing);
      if crashed {
        return conflict, diags + turnDiags, true;
      }
      TurnStep(done, s, h, c, sp, add0, rem0, cwd0, blobs0, add, rem, cwdA, blobsA, resolves, conflict,
               staging.addFile, staging.removeFile, cwd, blobs, turnConflict);
      LookupDiagsAppend(diags, turnDiags);
      conflict', diags' := turnConflict || conflict, diags + turnDiags;
    }

    /** The loop of `merge` over every file the split, the other head or the head tracks,
        with the tracked maps as read before `mergeT`. A throw ends it. Blob contents are
        not stated here: a conflict blob written for one file may replace a blob another
        file is later restored from, so what a file ends up holding can depend on the
        order of the visit. */
    method MergeLoop(h: map<string, string>, c: map<string, string>, sp: map<string, string>,
                     commitName: string, listing: seq<string>)
      returns (conflict: bool, diags: seq<Diag>, crashed: bool)
      requires HeadStored() && commitName in commits && commits[commitName].track == c && h.Keys * c.Keys <= HeadTrack().Keys && IsListing(listing, commits.Keys)
      modifies this`blobs, this`cwd, staging
      ensures crashed ==> exists f :: f in MergeFiles(h, c, sp) && ActionOf(h, c, sp, f) in {TakeOther, Adopt, Conflict}
      ensures LoopSafe(h, c, sp, old(blobs), Unambiguous(listing, commitName)) ==> !crashed
      ensures !crashed ==>
                && LookupDiags(diags)
                && LoopState(MergeFiles(h, c, sp), h, c, sp,
                             old(staging.addFile), old(staging.removeFile), old(cwd), old(blobs),
                             staging.addFile, staging.removeFile, cwd, blobs,
                             Unambiguous(listing, commitName), conflict)
    {
      ghost var add0, rem0, cwd0, blobs0 := staging.addFile, staging.removeFile, cwd, blobs;
      ghost var resolves := Unambiguous(listing, commitName);
      var bSet := MergeFiles(h, c, sp);
      var todo := bSet;
      ghost var done: set<string> := {};
      conflict, diags, crashed := false, [], false;
      while todo != {}
        invariant done + todo == bSet && done !! todo
        invariant LookupDiags(diags)
        invariant LoopState(done, h, c, sp, add0, rem0, cwd0, blobs0,
                            staging.addFile, staging.removeFile, cwd, blobs, resolves, conflict)
        decreases todo
      {
        var s :| s in todo;
        conflict, diags, crashed := Visit(done, s, h, c, sp, commitName, listing,
                                          add0, rem0, cwd0, blobs0, resolves, conflict, diags);
        if crashed {
          CrashedTurn(h, c, sp, blobs0, resolves, s);
          return;
        }
        VisitedOne(done, todo, s);
        todo := todo - {s};
        done := done + {s};
      }
      assert done == bSet;
    }

    /** `commitMerge(otherBranchName, headName1, commitName)`: commit the staged additions
        on top of the active branch's head as a merge commit with parents `headName1` and
        `commitName`, move the active branch to it and clear the staging area. */
    method CommitMerge(otherBranchName: string, headName1: string, commitName: string, now: int)
      requires Valid() && headName1 in commits && commitName in commits
      modifies this`commits, this`rank, this`branches, staging
      ensures Valid()
      ensures var rec := CommitRec("Merged " + otherBranchName + " into " + active + ".", Epoch,
                                   old(HeadTrack()) + old(staging.addFile), Some(headName1), Some(commitName),
                                   Some(headName1), Some(commitName));
              && commits == old(commits)[CommitId(rec) := rec]
              && branches == old(branches)[active := CommitId(rec)]
      ensures staging.addFile == map[] && staging.removeFile == map[]
    {
      var activeBranchName := active;
      var message := "Merged " + otherBranchName + " into " + activeBranchName + ".";
      var headName := branches[active];
      var rec := NewMergeCommit(message, commits[headName], staging, headName1, commitName, now);
      var newComSha := WriteCommit(rec);
      PointBranch(active, newComSha);
      staging.Clear();
    }

    /** What `merge` does after `mergeT` returned without throwing: the loop over the
        files, `commitMerge` and the conflict report, with `tdiags` the messages printed so
        far. `ff` says whether `mergeT` fast-forwarded, which leaves the other branch active
        with its head's files tracked. */
    method MergeTail(branchName: string, ghost oldActive: string, headName: string, commitName: string,
                     h: map<string, string>, c: map<string, string>, sp: map<string, string>,
                     ghost ff: bool, listing: seq<string>, now: int, tdiags: seq<Diag>,
                     ghost commits0: map<string, CommitRec>, ghost branches0: map<string, string>,
                     ghost blobs0: map<string, string>, ghost cwd0: map<string, string>)
      returns (diags: seq<Diag>)
      requires Valid() && IsListing(listing, commits.Keys)
      requires headName in commits && commitName in commits && commits[commitName].track == c
      requires active == (if ff then branchName else oldActive)
      requires HeadTrack() == (if ff then c else h)
      requires staging.addFile == map[] && staging.removeFile == map[]
      requires Exception !in tdiags && MergeConflict !in tdiags
      requires commits == commits0 && branches == branches0 && blobs == blobs0 && cwd == cwd0
      modifies this`cwd, this`blobs, this`commits, this`rank, this`branches, staging
      ensures Valid()
      ensures LoopSafe(h, c, sp, blobs0, Unambiguous(listing, commitName)) ==> Exception !in diags
      ensures Exception !in diags ==>
                MergeCommitted(branchName, oldActive, headName, commitName, h, c, sp, ff,
                               Unambiguous(listing, commitName), MergeConflict in diags,
                               commits0, branches0, blobs0,
                               active, commits, branches, blobs, staging.addFile, staging.removeFile, cwd)
                && OthersKept(h, c, sp, cwd0, cwd)
    {
      SharedTracked(h, c, HeadTrack(), ff);
      var conflict, ldiags, crashed := MergeLoop(h, c, sp, commitName, listing);
      if crashed {
        return tdiags + ldiags + [Exception];
      }
      ghost var cwdL, addL, remL, blobsL := cwd, staging.addFile, staging.removeFile, blobs;
      CommitMerge(branchName, headName, commitName, now);
      diags := tdiags + ldiags + (if conflict then [MergeConflict] else []);
      TailDiags(tdiags, ldiags, conflict);
      LoopCommitted(branchName, oldActive, headName, commitName, h, c, sp, ff,
                    Unambiguous(listing, commitName), MergeConflict in diags,
                    commits0, branches0,
                    active, commits, branches, staging.addFile, staging.removeFile, cwd,
                    old(staging.removeFile), cwd0, blobs0, addL, remL, blobsL, conflict);
    }

    /** `mergeT` as `merge` calls it once its checks pass, with `h`, `c` and `sp` the
        maps of the two heads and of split commit `splitName`: a run that throws ends
        there as `RunOutcome` says; otherwise the stores are as before, the head's map is
        the other head's after a fast-forward and `h` otherwise, nothing is staged, and
        only files of the two heads were written. */
    method MergeTStep(branchName: string, listing: seq<string>,
                      h: map<string, string>, c: map<string, string>, sp: map<string, string>,
                      ghost splitName: string, ghost k: MergeTCase, ghost s0: RepoState)
      returns (tdiags: seq<Diag>)
      requires Valid() && IsListing(listing, commits.Keys)
      requires branchName in branches && branchName != active
      requires h == HeadTrack() && c == commits[branches[branchName]].track
      requires splitName in commits && sp == commits[splitName].track
      requires staging.addFile == map[] && staging.removeFile == map[]
      requires k == MergeTCaseOf(branchName) && s0 == State()
      modifies this`cwd, this`active, staging
      ensures Valid() && HeadsStored(s0, branchName) && splitName in s0.commits
      ensures Exception in tdiags ==> RunOutcome(branchName, k, splitName, listing, s0, tdiags, State())
      ensures Exception !in tdiags ==>
                && k != NoSplit && MergeConflict !in tdiags
                && commits == s0.commits && branches == s0.branches && blobs == s0.blobs
                && active == (if k == FastForward then branchName else s0.active)
                && HeadTrack() == (if k == FastForward then c else h)
                && staging.addFile == map[] && staging.removeFile == map[]
                && forall f :: f !in h && f !in c ==> Get(cwd, f) == Get(s0.cwd, f)
    {
      ghost var k';
      tdiags, k' := MergeT(branchName, listing);
      TStep(branchName, k, splitName, listing, s0, tdiags, State(), h, c, sp);
    }

    /** What `merge` does after `mergeT` returned without throwing, in the state
        `MergeTStep` leaves: the rest of the merge ends as `RunOutcome` says. */
    method MergeAfterT(branchName: string, listing: seq<string>, now: int, headName: string,
                       commitName: string, h: map<string, string>, c: map<string, string>,
                       sp: map<string, string>, tdiags: seq<Diag>,
                       ghost splitName: string, ghost k: MergeTCase, ghost s0: RepoState)
      returns (diags: seq<Diag>)
      requires Valid() && IsListing(listing, commits.Keys)
      requires HeadsStored(s0, branchName) && splitName in s0.commits
      requires headName == s0.branches[s0.active] && commitName == s0.branches[branchName]
      requires h == s0.commits[headName].track && c == s0.commits[commitName].track
      requires sp == s0.commits[splitName].track
      requires && k != NoSplit && Exception !in tdiags && MergeConflict !in tdiags
               && commits == s0.commits && branches == s0.branches && blobs == s0.blobs
               && active == (if k == FastForward then branchName else s0.active)
               && HeadTrack() == (if k == FastForward then c else h)
               && staging.addFile == map[] && staging.removeFile == map[]
               && forall f :: f !in h && f !in c ==> Get(cwd, f) == Get(s0.cwd, f)
      modifies this`cwd, this`blobs, this`commits, this`rank, this`branches, staging
      ensures Valid()
      ensures RunOutcome(branchName, k, splitName, listing, s0, diags, State())
    {
      ghost var cwdT := cwd;
      diags := MergeTail(branchName, s0.active, headName, commitName, h, c, sp, k == FastForward,
                         listing, now, tdiags, s0.commits, s0.branches, s0.blobs, cwdT);
      CommittedRun(branchName, k, splitName, listing, s0, diags, State(), headName, commitName, h, c, sp, cwdT);
    }

    /** What `merge` does once its checks pass: `mergeT`, then the rest of the merge with
        the maps `h`, `c` and `sp` read before it, `sp` the files of split commit
        `splitName`. `k` and `s0` are the branch `mergeT` takes and the state on entry. */
    method MergeRun(branchName: string, listing: seq<string>, now: int, headName: string,
                    h: map<string, string>, c: map<string, string>, sp: map<string, string>,
                    ghost splitName: string, ghost k: MergeTCase, ghost s0: RepoState)
      returns (diags: seq<Diag>)
      requires Valid() && IsListing(listing, commits.Keys)
      requires branchName in branches && branchName != active
      requires headName == Head() && h == HeadTrack() && c == commits[branches[branchName]].track
      requires splitName in commits && sp == commits[splitName].track
      requires staging.addFile == map[] && staging.removeFile == map[]
      requires k == MergeTCaseOf(branchName) && s0 == State()
      modifies this`cwd, this`blobs, this`commits, this`rank, this`branches, this`active, staging
      ensures Valid()
      ensures HeadsStored(s0, branchName) && splitName in s0.commits
      ensures RunOutcome(branchName, k, splitName, listing, s0, diags, State())
    {
      var commitName := branches[branchName];
      var tdiags := MergeTStep(branchName, listing, h, c, sp, splitName, k, s0);
      if Exception in tdiags {
        return tdiags;
      }
      diags := MergeAfterT(branchName, listing, now, headName, commitName, h, c, sp, tdiags, splitName, k, s0);
    }

    /** `merge(branchName)` once the other branch is known to exist and to differ from the
        active one: read the split commit, then go on as `MergeReady`. The search for an
        untracked working file changes nothing and reads nothing the checks before it
        change, so it runs here beside `splitSection`; its answer is used at the point
        where the source's loop runs. */
    method MergeChecked(branchName: string, listing: seq<string>, now: int,
                        ghost k: MergeTCase, ghost s0: RepoState) returns (diags: seq<Diag>)
      requires Valid() && IsListing(listing, commits.Keys)
      requires branchName in branches && branchName != active
      requires k == MergeTCaseOf(branchName) && s0 == State()
      modifies this`cwd, this`blobs, this`commits, this`rank, this`branches, this`active, staging
      ensures Valid()
      ensures HeadsStored(s0, branchName)
      ensures MergeOutcome(branchName, k, SplitName(old(SplitOf(branchName))), listing, s0, diags, State())
    {
      var split := SplitSection(branchName, listing);
      var untracked := HasUntracked(cwd.Keys, commits[branches[active]].track);
      assert State() == s0;
      assert MergeTCaseOf(branchName) == k;
      assert Valid();
      var splitPlaceSHA1 := SplitName(split);
      if splitPlaceSHA1 !in commits {
        return [Exception];
      }
      diags := MergeReady(branchName, splitPlaceSHA1, untracked, listing, now, k, s0);
    }

    /** `merge(branchName)` once the split commit `splitName` is read: refuse a merge with
        staged changes, otherwise go on as `MergeClean`. */
    method MergeReady(branchName: string, splitName: string, untracked: bool, listing: seq<string>,
                      now: int, ghost k: MergeTCase, ghost s0: RepoState)
      returns (diags: seq<Diag>)
      requires Valid() && IsListing(listing, commits.Keys)
      requires branchName in branches && branchName != active && splitName in commits
      requires untracked <==> !(cwd.Keys <= HeadTrack().Keys)
      requires k == MergeTCaseOf(branchName) && s0 == State()
      modifies this`cwd, this`blobs, this`commits, this`rank, this`branches, this`active, staging
      ensures Valid()
      ensures HeadsStored(s0, branchName) && ReadyOutcome(branchName, k, splitName, listing, s0, diags, State())
    {
      if !staging.IsEmpty() {
        return [UncommittedChanges];
      }
      diags := MergeClean(branchName, splitName, untracked, listing, now, k, s0);
    }

    /** `merge(branchName)` with nothing staged: refuse a merge with an untracked working
        file (`untracked`, what the loop over the working files found), otherwise run the
        merge. */
    method MergeClean(branchName: string, splitName: string, untracked: bool, listing: seq<string>,
                      now: int, ghost k: MergeTCase, ghost s0: RepoState)
      returns (diags: seq<Diag>)
      requires Valid() && IsListing(listing, commits.Keys)
      requires branchName in branches && branchName != active && splitName in commits
      requires untracked <==> !(cwd.Keys <= HeadTrack().Keys)
      requires staging.IsEmpty()
      requires k == MergeTCaseOf(branchName) && s0 == State()
      modifies this`cwd, this`blobs, this`commits, this`rank, this`branches, this`active, staging
      ensures Valid()
      ensures HeadsStored(s0, branchName) && CleanOutcome(branchName, k, splitName, listing, s0, diags, State())
    {
      var headName := branches[active];
      var head := commits[headName];
      var com := commits[branches[branchName]];
      var splitPlace := commits[splitName];
      if untracked {
        return [UntrackedInTheWay];
      }
      diags := MergeRun(branchName, listing, now, headName, head.track, com.track, splitPlace.track,
                       splitName, k, s0);
    }

    /** `merge(branchName)`. */
    method Merge(branchName: string, listing: seq<string>, now: int) returns (diags: seq<Diag>)
      requires Valid() && IsListing(listing, commits.Keys)
      modifies this`cwd, this`blobs, this`commits, this`rank, this`branches, this`active, staging
      ensures Valid()
      ensures branchName !in old(branches) ==>
                diags == [MergeBranchMissing] && unchanged(this) && unchanged(staging)
      ensures branchName in old(branches) && branchName == old(active) ==>
                diags == [CannotMergeSelf] && unchanged(this) && unchanged(staging)
      ensures branchName in old(branches) && branchName != old(active) ==>
                && HeadsStored(old(State()), branchName)
                && MergeOutcome(branchName, old(MergeTCaseOf(branchName)), SplitName(old(SplitOf(branchName))),
                                listing, old(State()), diags, State())
    {
      if branchName !in branches {
        return [MergeBranchMissing];
      }
      if active == branchName {
        return [CannotMergeSelf];
      }
      diags := MergeChecked(branchName, listing, now, MergeTCaseOf(branchName), State());
    }
  }
}
