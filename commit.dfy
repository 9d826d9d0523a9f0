/** Commit.java: a snapshot node. `CommitRec` is the serialized value kept in the commit
    store; `Commit` is the in-memory object the source builds and edits before writing it. */
module Commits {
  import opened Common
  import opened Staging

  /** `new Date(0)`: the Unix epoch, in milliseconds. */
  const Epoch: int := 0

  /** The serialized form of a commit: every field of Commit.java, timestamps in
      milliseconds, null references as `None`. */
  datatype CommitRec = CommitRec(
    message: string,
    timestamp: int,
    track: map<string, string>,
    parent: Option<string>,
    parent2: Option<string>,
    branch: Option<string>,
    branch2: Option<string>)

  /** The mapping `editHash` produces from `track`: staged additions are put first,
      then every staged removal is deleted, so a removal wins over an addition of the
      same file and every file staged for neither keeps its old entry. */
  function ApplyStaging(track: map<string, string>, add: map<string, string>,
                        rem: map<string, string>): (r: map<string, string>)
    ensures forall f :: f in rem ==> f !in r
    ensures forall f :: f in add && f !in rem ==> f in r && r[f] == add[f]
    ensures forall f :: f !in add && f !in rem ==> Get(r, f) == Get(track, f)
    ensures r.Keys == (track.Keys + add.Keys) - rem.Keys
  {
    (track + add) - rem.Keys
  }

  class Commit {
    var message: string
    var timestamp: int
    /** Tracked files: file name to blob id. */
    var track: map<string, string>
    var parent: Option<string>
    var parent2: Option<string>
    /** Labels recorded on merge commits; never read back by the source. */
    var branch: Option<string>
    var branch2: Option<string>

    /** `new Commit(message, parent, parent2)`. `now` stands for the wall clock
        (`new Date()`); a commit whose first parent is null is pinned to the epoch. */
    constructor (message1: string, parents: Option<string>, parent2s: Option<string>, now: int)
      ensures message == message1 && parent == parents && parent2 == parent2s
      ensures parents.None? ==> timestamp == Epoch
      ensures parents.Some? ==> timestamp == now
      ensures track == map[] && branch == None && branch2 == None
    {
      message := message1;
      parent := parents;
      parent2 := parent2s;
      timestamp := now;
      if parents.None? {
        timestamp := Epoch;
      }
      track := map[];
      branch := None;
      branch2 := None;
    }

    /** `Utils.readObject(file, Commit.class)`: a fresh object holding a stored record. */
    constructor Load(r: CommitRec)
      ensures Snapshot() == r
    {
      message := r.message;
      timestamp := r.timestamp;
      track := r.track;
      parent := r.parent;
      parent2 := r.parent2;
      branch := r.branch;
      branch2 := r.branch2;
    }

    /** The value `Utils.serialize` writes for this object. */
    function Snapshot(): CommitRec
      reads this
    {
      CommitRec(message, timestamp, track, parent, parent2, branch, branch2)
    }

    /** `setParent`: only the first parent changes (the timestamp chosen at construction stays). */
    method SetParent(parents: Option<string>)
      modifies this`parent
      ensures parent == parents
    {
      parent := parents;
    }

    /** `setParent2`: only the second parent changes. */
    method SetParent2(parent2s: Option<string>)
      modifies this`parent2
      ensures parent2 == parent2s
    {
      parent2 := parent2s;
    }

    /** `setBranch`: only the first label changes. */
    method SetBranch(branch1: Option<string>)
      modifies this`branch
      ensures branch == branch1
    {
      branch := branch1;
    }

    /** `setBranch2`: only the second label changes. */
    method SetBranch2(branch2s: Option<string>)
      modifies this`branch2
      ensures branch2 == branch2s
    {
      branch2 := branch2s;
    }

    /** `combine(other)`: every file `other` tracks is put into this commit's map with
        other's blob id; files `other` does not track keep their entries. */
    method Combine(other: Commit)
      modifies this`track
      ensures forall f :: f in old(other.track) ==> f in track && track[f] == old(other.track)[f]
      ensures forall f :: f !in old(other.track) ==> Get(track, f) == Get(old(track), f)
      ensures track == old(track) + old(other.track)
    {
      var src := other.track;
      var keys := src.Keys;
      while keys != {}
        invariant keys <= src.Keys
        invariant track == old(track) + (map f | f in src.Keys - keys :: src[f])
        decreases keys
      {
        var f :| f in keys;
        track := track[f := src[f]];
        keys := keys - {f};
      }
      assert src.Keys - keys == src.Keys;
    }

    /** `editHash(s)`: apply the staging area to the tracked map, additions first and
        removals second. */
    method EditHash(s: StagingArea)
      modifies this`track
      ensures track == ApplyStaging(old(track), s.addFile, s.removeFile)
    {
      var addFiles := s.addFile;
      var rmFiles := s.removeFile;
      var keys := addFiles.Keys;
      while keys != {}
        invariant keys <= addFiles.Keys
        invariant track == old(track) + (map f | f in addFiles.Keys - keys :: addFiles[f])
        decreases keys
      {
        var f :| f in keys;
        track := track[f := addFiles[f]];
        keys := keys - {f};
      }
      assert addFiles.Keys - keys == addFiles.Keys;
      ghost var added := track;
      var rems := rmFiles.Keys;
      while rems != {}
        invariant rems <= rmFiles.Keys
        invariant track == added - (rmFiles.Keys - rems)
        decreases rems
      {
        var rem :| rem in rems;
        track := track - {rem};
        rems := rems - {rem};
      }
      assert added == old(track) + addFiles;
      assert rmFiles.Keys - rems == rmFiles.Keys;
    }
  }
}
