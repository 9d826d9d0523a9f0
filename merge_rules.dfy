/** The per-file decisions of `merge` in Repo.java, as pure functions of the blob ids a
    file has in the head (`h`), the other branch's head (`c`) and the split point (`sp`),
    `None` meaning the snapshot does not track the file; and the conflict text `merge2`
    writes. */
module MergeRules {
  import opened Common
  import opened Staging
  import opened Commits

  const HeadMarker: string := "<<<<<<< HEAD\n"
  const Separator: string := "=======\n"
  const EndMarker: string := ">>>>>>>\n"

  /** The text `merge2` writes for a conflicted file: the head's content and the other
      branch's content between the three markers, an absent side left empty. Each side
      can be cut back out of the text by its position. */
  function ConflictText(headText: string, otherText: string): (w: string)
    ensures |w| == |HeadMarker| + |headText| + |Separator| + |otherText| + |EndMarker|
    ensures w[..|HeadMarker|] == HeadMarker
    ensures w[|HeadMarker|..|HeadMarker| + |headText|] == headText
    ensures w[|HeadMarker| + |headText|..|HeadMarker| + |headText| + |Separator|] == Separator
    ensures w[|HeadMarker| + |headText| + |Separator|..|w| - |EndMarker|] == otherText
    ensures w[|w| - |EndMarker|..] == EndMarker
  {
    var w := HeadMarker + headText + Separator + otherText + EndMarker;
    assert w == (((HeadMarker + headText) + Separator) + otherText) + EndMarker;
    w
  }

  /** Two conflict texts with head sides of equal length are equal exactly when both
      sides are: the text records each side without loss. */
  lemma ConflictTextInjective(a: string, b: string, a2: string, b2: string)
    requires |a| == |a2|
    ensures ConflictText(a, b) == ConflictText(a2, b2) <==> a == a2 && b == b2
  {
    if ConflictText(a, b) == ConflictText(a2, b2) {
      var w := ConflictText(a, b);
      assert a == w[|HeadMarker|..|HeadMarker| + |a|] == a2;
      assert |b| == |b2|;
      assert b == w[|HeadMarker| + |a| + |Separator|..|w| - |EndMarker|] == b2;
    }
  }

  /** Which of the five branches of the loop in `merge` a file falls into, by whether
      head, other and split track it. */
  datatype FileCase =
    | InAll          // head, other and split
    | OnlyInOther    // other only: merge3
    | NotInOther     // head and split: merge2 then merge4
    | NotInHead      // other and split: merge2
    | NotInSplit     // head and other: merge2
    | Untouched      // head only, or split only: no call

  function CaseOf(h: Option<string>, c: Option<string>, sp: Option<string>): (k: FileCase)
    ensures k == InAll <==> h.Some? && c.Some? && sp.Some?
    ensures k == OnlyInOther <==> h.None? && c.Some? && sp.None?
    ensures k == NotInOther <==> h.Some? && c.None? && sp.Some?
    ensures k == NotInHead <==> h.None? && c.Some? && sp.Some?
    ensures k == NotInSplit <==> h.Some? && c.Some? && sp.None?
  {
    if h.Some? && c.Some? && sp.Some? then InAll
    else if h.None? && c.Some? && sp.None? then OnlyInOther
    else if h.Some? && c.None? && sp.Some? then NotInOther
    else if h.None? && c.Some? && sp.Some? then NotInHead
    else if h.Some? && c.Some? && sp.None? then NotInSplit
    else Untouched
  }

  /** The loop calls `merge2` in four of the five branches. */
  predicate CallsMerge2(h: Option<string>, c: Option<string>, sp: Option<string>)
  {
    CaseOf(h, c, sp) in {InAll, NotInOther, NotInHead, NotInSplit}
  }

  /** `m1`: the other branch changed the file and the head did not. */
  predicate TakesOther(h: Option<string>, c: Option<string>, sp: Option<string>)
  {
    CaseOf(h, c, sp) == InAll && c != sp && h == sp
  }

  /** `merge4`: the other branch deleted a file the head left unchanged. */
  predicate DeletesFile(h: Option<string>, c: Option<string>, sp: Option<string>)
  {
    CaseOf(h, c, sp) == NotInOther && h == sp
  }

  /** Which conflict branch of `merge2` is taken, following its if-chain. */
  datatype Merge2Branch = HeadAbsent | OtherAbsent | BothPresent | NoConflict

  /** The if-chain of `merge2`. The caller never passes a file that neither side tracks
      (the source would dereference a null blob id). */
  function Merge2Decision(h: Option<string>, c: Option<string>, sp: Option<string>): (d: Merge2Branch)
    requires h.Some? || c.Some?
    ensures d == HeadAbsent ==> h.None? && c != sp
    ensures d == OtherAbsent ==> c.None? && h != sp
    ensures d == BothPresent ==> h.Some? && c.Some? && h != sp && c != sp
  {
    if h.None? && c != sp then HeadAbsent
    else if c.None? && h != sp then OtherAbsent
    else if h.Some? && c.Some? && h != sp then
      if c != sp then BothPresent else NoConflict
    else NoConflict
  }

  /** Wherever the loop calls `merge2` (the split tracks the file, or both heads do), it
      reports a conflict exactly when each side differs from the split. A side that is
      absent differs from a split that tracks the file. */
  lemma Merge2ConflictIff(h: Option<string>, c: Option<string>, sp: Option<string>)
    requires CallsMerge2(h, c, sp)
    ensures Merge2Decision(h, c, sp) != NoConflict <==> h != sp && c != sp
  {
  }

  /** The decision does not depend on which side is called the head. */
  lemma Merge2Symmetric(h: Option<string>, c: Option<string>, sp: Option<string>)
    requires CallsMerge2(h, c, sp)
    ensures CallsMerge2(c, h, sp)
    ensures (Merge2Decision(h, c, sp) == NoConflict) == (Merge2Decision(c, h, sp) == NoConflict)
  {
    Merge2ConflictIff(h, c, sp);
    Merge2ConflictIff(c, h, sp);
  }

  /** Two identical changes on both sides still conflict: the source never compares the
      head's blob with the other's. */
  lemma SameChangeConflicts(v: string, sp: Option<string>)
    requires sp != Some(v)
    ensures Merge2Decision(Some(v), Some(v), sp) == BothPresent
  {
  }

  /** What happens to one file in a merge. */
  datatype FileAction =
    | Keep        // no change to the working file or the staging area
    | TakeOther   // checkout of the other's version; staged additions of ""; staged removal of its blob id
    | Adopt       // the other's version written and staged for addition
    | Delete      // the working file deleted and staged for removal
    | Conflict    // conflict text written, staged for addition as ""

  /** The combined effect of the helpers the loop in `merge` calls for one file. */
  function CodeAction(h: Option<string>, c: Option<string>, sp: Option<string>): FileAction
  {
    match CaseOf(h, c, sp)
    case InAll =>
      if TakesOther(h, c, sp) then TakeOther
      else if Merge2Decision(h, c, sp) != NoConflict then Conflict
      else Keep
    case OnlyInOther => Adopt
    case NotInOther =>
      if Merge2Decision(h, c, sp) != NoConflict then Conflict
      else if DeletesFile(h, c, sp) then Delete
      else Keep
    case NotInHead =>
      if Merge2Decision(h, c, sp) != NoConflict then Conflict else Keep
    case NotInSplit =>
      if Merge2Decision(h, c, sp) != NoConflict then Conflict else Keep
    case Untouched => Keep
  }

  /** The helpers never both act on one file: `m1` and a `merge2` conflict exclude each
      other, and so do a `merge2` conflict and `merge4`'s deletion. */
  lemma HelpersExclusive(h: Option<string>, c: Option<string>, sp: Option<string>)
    ensures TakesOther(h, c, sp) ==> Merge2Decision(h, c, sp) == NoConflict
    ensures DeletesFile(h, c, sp) ==> Merge2Decision(h, c, sp) == NoConflict
  {
  }

  /** The rule table of the three-way merge, as designed: a side "changed" when its blob
      id differs from the split's, absence included. */
  function DesignAction(h: Option<string>, c: Option<string>, sp: Option<string>): FileAction
  {
    match CaseOf(h, c, sp)
    case InAll =>
      if c != sp && h == sp then TakeOther
      else if h != sp && c != sp && h != c then Conflict
      else Keep
    case OnlyInOther => Adopt
    case NotInOther => if h == sp then Delete else Conflict
    case NotInHead => if c == sp then Keep else Conflict
    case NotInSplit => if h != c then Conflict else Keep
    case Untouched => Keep
  }

  /** The source agrees with the design table on every file except where both sides hold
      the same blob id and it differs from the split's: the design keeps the file, the
      source reports a conflict. */
  lemma CodeMatchesDesign(h: Option<string>, c: Option<string>, sp: Option<string>)
    ensures CodeAction(h, c, sp) == DesignAction(h, c, sp) <==> !(h.Some? && h == c && h != sp)
    ensures CodeAction(h, c, sp) != DesignAction(h, c, sp) ==>
              CodeAction(h, c, sp) == Conflict && DesignAction(h, c, sp) == Keep
  {
  }

  /** A file both heads add with different blob ids, and one both change differently, is
      a conflict; a file only the other branch changed is taken from it. */
  lemma CodeActionCases(h: Option<string>, c: Option<string>, sp: Option<string>)
    ensures CodeAction(h, c, sp) == Conflict <==> CallsMerge2(h, c, sp) && h != sp && c != sp
    ensures CodeAction(h, c, sp) == TakeOther <==> TakesOther(h, c, sp)
    ensures CodeAction(h, c, sp) == Adopt <==> CaseOf(h, c, sp) == OnlyInOther
    ensures CodeAction(h, c, sp) == Delete <==> DeletesFile(h, c, sp)
  {
    if CallsMerge2(h, c, sp) {
      Merge2ConflictIff(h, c, sp);
    }
  }

  /** The files the loop in `merge` visits: every file the split, the other head or the
      current head tracks. */
  function MergeFiles(h: map<string, string>, c: map<string, string>, sp: map<string, string>): set<string>
  {
    sp.Keys + c.Keys + h.Keys
  }

  /** The action the loop takes on file `f`, given the three tracked maps. */
  function ActionOf(h: map<string, string>, c: map<string, string>, sp: map<string, string>, f: string): FileAction
  {
    CodeAction(Get(h, f), Get(c, f), Get(sp, f))
  }

  /** The blob id the helpers stage a file for addition with, if any: `m1` and a
      `merge2` conflict stage the empty marker, `merge3` the other's blob id. */
  function AddedAs(h: Option<string>, c: Option<string>, sp: Option<string>): (r: Option<string>)
    ensures r.Some? <==> CodeAction(h, c, sp) in {TakeOther, Adopt, Conflict}
    ensures CodeAction(h, c, sp) == Adopt ==> r == c
    ensures CodeAction(h, c, sp) in {TakeOther, Conflict} ==> r == Some(EmptyMarker)
  {
    match CodeAction(h, c, sp)
    case TakeOther => Some(EmptyMarker)
    case Conflict => Some(EmptyMarker)
    case Adopt => c
    case _ => None
  }

  /** The blob id the helpers stage a file for removal with, if any: `m1` records the
      other's blob id, `merge4` the head's. */
  function RemovedAs(h: Option<string>, c: Option<string>, sp: Option<string>): (r: Option<string>)
    ensures r.Some? <==> CodeAction(h, c, sp) in {TakeOther, Delete}
    ensures CodeAction(h, c, sp) == TakeOther ==> r == c
    ensures CodeAction(h, c, sp) == Delete ==> r == h
  {
    match CodeAction(h, c, sp)
    case TakeOther => c
    case Delete => h
    case _ => None
  }

  /** The additions the loop stages over `files`. */
  function Additions(files: set<string>, h: map<string, string>, c: map<string, string>,
                     sp: map<string, string>): (r: map<string, string>)
    ensures forall f :: f in r <==> f in files && AddedAs(Get(h, f), Get(c, f), Get(sp, f)).Some?
    ensures forall f :: f in r ==> Some(r[f]) == AddedAs(Get(h, f), Get(c, f), Get(sp, f))
  {
    map f | f in files && AddedAs(Get(h, f), Get(c, f), Get(sp, f)).Some? ::
      AddedAs(Get(h, f), Get(c, f), Get(sp, f)).value
  }

  /** The removals the loop stages over `files`. */
  function Removals(files: set<string>, h: map<string, string>, c: map<string, string>,
                    sp: map<string, string>): (r: map<string, string>)
    ensures forall f :: f in r <==> f in files && RemovedAs(Get(h, f), Get(c, f), Get(sp, f)).Some?
    ensures forall f :: f in r ==> Some(r[f]) == RemovedAs(Get(h, f), Get(c, f), Get(sp, f))
  {
    map f | f in files && RemovedAs(Get(h, f), Get(c, f), Get(sp, f)).Some? ::
      RemovedAs(Get(h, f), Get(c, f), Get(sp, f)).value
  }

  /** Updating a union at one key is the union with the update. */
  lemma UnionUpdate(base: map<string, string>, m: map<string, string>, s: string, v: string)
    ensures (base + m)[s := v] == base + m[s := v]
  {
  }

  /** Visiting one more file extends the additions staged on top of `base` by that file's
      entry alone. */
  lemma AdditionsStep(base: map<string, string>, files: set<string>, s: string, h: map<string, string>,
                      c: map<string, string>, sp: map<string, string>)
    requires s !in files
    ensures base + Additions(files + {s}, h, c, sp) ==
              var a := AddedAs(Get(h, s), Get(c, s), Get(sp, s));
              if a.Some? then (base + Additions(files, h, c, sp))[s := a.value] else base + Additions(files, h, c, sp)
  {
    var a := AddedAs(Get(h, s), Get(c, s), Get(sp, s));
    var next, prev := Additions(files + {s}, h, c, sp), Additions(files, h, c, sp);
    var want := if a.Some? then prev[s := a.value] else prev;
    assert forall f :: f in next <==> f in want;
    assert forall f :: f in next ==> next[f] == want[f];
    assert next == want;
    if a.Some? {
      UnionUpdate(base, prev, s, a.value);
    }
  }

  /** Visiting one more file extends the removals staged on top of `base` by that file's
      entry alone. */
  lemma RemovalsStep(base: map<string, string>, files: set<string>, s: string, h: map<string, string>,
                     c: map<string, string>, sp: map<string, string>)
    requires s !in files
    ensures base + Removals(files + {s}, h, c, sp) ==
              var r := RemovedAs(Get(h, s), Get(c, s), Get(sp, s));
              if r.Some? then (base + Removals(files, h, c, sp))[s := r.value] else base + Removals(files, h, c, sp)
  {
    var r := RemovedAs(Get(h, s), Get(c, s), Get(sp, s));
    var next, prev := Removals(files + {s}, h, c, sp), Removals(files, h, c, sp);
    var want := if r.Some? then prev[s := r.value] else prev;
    assert forall f :: f in next <==> f in want;
    assert forall f :: f in next ==> next[f] == want[f];
    assert next == want;
    if r.Some? {
      UnionUpdate(base, prev, s, r.value);
    }
  }

  /** What the commit `commitMerge` writes tracks for each file, when it starts from the
      head's map and the loop's additions: the other's blob id for a file only the other
      added, the empty marker for a file taken from the other or in conflict, and the
      head's entry for every other file, including one the other branch deleted, since
      the staged removals never reach the map. */
  lemma MergedTrack(h: map<string, string>, c: map<string, string>, sp: map<string, string>, f: string)
    ensures var t := h + Additions(MergeFiles(h, c, sp), h, c, sp);
            var k := CodeAction(Get(h, f), Get(c, f), Get(sp, f));
            && (k == Adopt ==> Get(t, f) == Get(c, f))
            && (k in {TakeOther, Conflict} ==> Get(t, f) == Some(EmptyMarker))
            && (k in {Keep, Delete} ==> Get(t, f) == Get(h, f))
  {
    var k := CodeAction(Get(h, f), Get(c, f), Get(sp, f));
    if k != Keep {
      assert f in MergeFiles(h, c, sp);
    }
  }

  /** Whether a file with action `k` is present once its turn has run without a throw:
      adopted and conflicted files always are, and a taken-over file is when `checkout2`
      resolves the other head's id to its own file (`resolves`). */
  ghost predicate Placed(k: FileAction, resolves: bool)
  {
    k in {Adopt, Conflict} || (resolves && k == TakeOther)
  }

  /** What one turn of the loop in `merge` does for file `s`, from staging maps, working
      directory and blob store `add0`, `rem0`, `cwd0`, `blobs0` to `add1`, `rem1`, `cwd1`,
      `blobs1`: only `s` is touched; without a throw it is staged as `AddedAs` and
      `RemovedAs` say, reported as a conflict exactly when it is one, present when
      `Placed` and absent when deleted; a throw needs a helper that reads a blob, and it
      happens only for a missing blob or, for a taken-over file, when `checkout2` does
      not resolve the other head's id to its own file (`resolves` false). */
  ghost predicate TurnEffect(s: string, h: map<string, string>, c: map<string, string>, sp: map<string, string>,
                             add0: map<string, string>, rem0: map<string, string>,
                             cwd0: map<string, string>, blobs0: map<string, string>,
                             add1: map<string, string>, rem1: map<string, string>,
                             cwd1: map<string, string>, blobs1: map<string, string>,
                             resolves: bool, conflict: bool, crashed: bool)
  {
    var k := ActionOf(h, c, sp, s);
    var a := AddedAs(Get(h, s), Get(c, s), Get(sp, s));
    var r := RemovedAs(Get(h, s), Get(c, s), Get(sp, s));
    && (forall f :: f != s ==> Get(cwd1, f) == Get(cwd0, f))
    && blobs0.Keys <= blobs1.Keys
    && (crashed ==> k in {TakeOther, Adopt, Conflict})
    && (k == Keep ==> !crashed && cwd1 == cwd0)
    && ((k != TakeOther || resolves) && (s in h ==> h[s] in blobs0) && (s in c ==> c[s] in blobs0) ==> !crashed)
    && (!crashed ==>
          && (conflict <==> k == Conflict)
          && (Placed(k, resolves) ==> s in cwd1)
          && (k == Delete ==> s !in cwd1)
          && add1 == (if a.Some? then add0[s := a.value] else add0)
          && rem1 == (if r.Some? then rem0[s := r.value] else rem0))
  }

  /** What the loop in `merge` has done after visiting the files `done`: only those files
      are touched, blobs are only added, the conflict flag says whether one of them is a
      conflict, the staging maps hold their additions and removals, and `Placed` files are
      present and deleted ones absent. */
  ghost predicate LoopState(done: set<string>, h: map<string, string>, c: map<string, string>,
                            sp: map<string, string>,
                            add0: map<string, string>, rem0: map<string, string>,
                            cwd0: map<string, string>, blobs0: map<string, string>,
                            add: map<string, string>, rem: map<string, string>,
                            cwd: map<string, string>, blobs: map<string, string>,
                            resolves: bool, conflict: bool)
  {
    && (forall f :: f !in done ==> Get(cwd, f) == Get(cwd0, f))
    && blobs0.Keys <= blobs.Keys
    && (conflict <==> exists f :: f in done && ActionOf(h, c, sp, f) == Conflict)
    && add == add0 + Additions(done, h, c, sp)
    && rem == rem0 + Removals(done, h, c, sp)
    && (forall f :: f in done && Placed(ActionOf(h, c, sp, f), resolves) ==> f in cwd)
    && (forall f :: f in done && ActionOf(h, c, sp, f) == Delete ==> f !in cwd)
  }

  /** The state a merge that did not throw leaves: the active branch (the other one after
      a fast-forward) points at the merge commit of `headName` and `commitName`, which tracks the
      map of the head `commitMerge` read with the loop's additions; nothing is staged; a
      conflict is reported (`reported`) exactly when some file is one; `Placed` files are
      present and deleted ones absent. Against the state before the merge
      (`commits0`, `branches0`, `blobs0`) nothing else changes: one commit is written,
      only the active branch moves and no blob is lost. */
  ghost predicate MergeCommitted(branchName: string, oldActive: string, headName: string, commitName: string,
                                 h: map<string, string>, c: map<string, string>, sp: map<string, string>,
                                 ff: bool, resolves: bool, reported: bool,
                                 commits0: map<string, CommitRec>, branches0: map<string, string>,
                                 blobs0: map<string, string>,
                                 active: string, commits: map<string, CommitRec>, branches: map<string, string>,
                                 blobs: map<string, string>,
                                 add: map<string, string>, rem: map<string, string>, cwd: map<string, string>)
  {
    var files := MergeFiles(h, c, sp);
    && active == (if ff then branchName else oldActive)
    && active in branches && branches[active] in commits
    && commits[branches[active]] ==
         CommitRec("Merged " + branchName + " into " + active + ".", Epoch,
                   (if ff then c else h) + Additions(files, h, c, sp),
                   Some(headName), Some(commitName), Some(headName), Some(commitName))
    && add == map[] && rem == map[]
    && (reported <==> exists f :: f in files && ActionOf(h, c, sp, f) == Conflict)
    && (forall f :: f in files && Placed(ActionOf(h, c, sp, f), resolves) ==> f in cwd)
    && (forall f :: f in files && ActionOf(h, c, sp, f) == Delete ==> f !in cwd)
    && commits == commits0[branches[active] := commits[branches[active]]]
    && branches == branches0[active := branches[active]]
    && blobs0.Keys <= blobs.Keys
  }

  /** A working file outside the merge's files is as in `cwd0`. */
  ghost predicate OthersKept(h: map<string, string>, c: map<string, string>, sp: map<string, string>,
                             cwd0: map<string, string>, cwd: map<string, string>)
  {
    forall f :: f !in MergeFiles(h, c, sp) ==> Get(cwd, f) == Get(cwd0, f)
  }

  /** The loop throws for no file: every blob of the two heads it reads is stored, and
      when a file is taken over, `checkout2` resolves the other head's id to its own file
      (`resolves`). */
  ghost predicate LoopSafe(h: map<string, string>, c: map<string, string>, sp: map<string, string>,
                           blobs: map<string, string>, resolves: bool)
  {
    forall f :: f in MergeFiles(h, c, sp) ==>
      (ActionOf(h, c, sp, f) != TakeOther || resolves) && (f in h ==> h[f] in blobs) && (f in c ==> c[f] in blobs)
  }

  /** A file of the other head whose blob is missing makes a merge unsafe. */
  lemma MissingBlobUnsafe(h: map<string, string>, c: map<string, string>, sp: map<string, string>,
                          blobs: map<string, string>, resolves: bool)
    requires exists f :: f in c && c[f] !in blobs
    ensures !LoopSafe(h, c, sp, blobs, resolves)
  {
    var f :| f in c && c[f] !in blobs;
    assert f in MergeFiles(h, c, sp);
  }

  /** A turn that throws on a file of the loop shows that the merge was not safe. */
  lemma CrashedTurn(h: map<string, string>, c: map<string, string>, sp: map<string, string>,
                    blobs: map<string, string>, resolves: bool, s: string)
    requires s in MergeFiles(h, c, sp) && ActionOf(h, c, sp, s) in {TakeOther, Adopt, Conflict}
    requires (ActionOf(h, c, sp, s) == TakeOther && !resolves) || (s in h && h[s] !in blobs) || (s in c && c[s] !in blobs)
    ensures exists f :: f in MergeFiles(h, c, sp) && ActionOf(h, c, sp, f) in {TakeOther, Adopt, Conflict}
    ensures !LoopSafe(h, c, sp, blobs, resolves)
  {
  }

  /** Moving one file from the files still to visit to the visited ones keeps the two a
      partition of the same set. */
  lemma VisitedOne(done: set<string>, todo: set<string>, s: string)
    requires s in todo && done !! todo
    ensures (done + {s}) + (todo - {s}) == done + todo && (done + {s}) !! (todo - {s})
  {
  }

  /** A turn that does not throw extends the loop's state by its file. */
  lemma TurnStep(done: set<string>, s: string, h: map<string, string>, c: map<string, string>,
                 sp: map<string, string>,
                 add0: map<string, string>, rem0: map<string, string>,
                 cwd0: map<string, string>, blobs0: map<string, string>,
                 add: map<string, string>, rem: map<string, string>,
                 cwd: map<string, string>, blobs: map<string, string>,
                 resolves: bool, conflict: bool,
                 add1: map<string, string>, rem1: map<string, string>,
                 cwd1: map<string, string>, blobs1: map<string, string>,
                 turnConflict: bool)
    requires s !in done
    requires LoopState(done, h, c, sp, add0, rem0, cwd0, blobs0, add, rem, cwd, blobs, resolves, conflict)
    requires TurnEffect(s, h, c, sp, add, rem, cwd, blobs, add1, rem1, cwd1, blobs1, resolves, turnConflict, false)
    ensures LoopState(done + {s}, h, c, sp, add0, rem0, cwd0, blobs0, add1, rem1, cwd1, blobs1,
                      resolves, turnConflict || conflict)
  {
    AdditionsStep(add0, done, s, h, c, sp);
    RemovalsStep(rem0, done, s, h, c, sp);
    CwdStep(done, s, h, c, sp, resolves, cwd0, cwd, cwd1);
  }

  /** The working-directory part of `TurnStep`: a turn that touches only its own file
      keeps the files visited before where they were, and places its own. */
  lemma CwdStep(done: set<string>, s: string, h: map<string, string>, c: map<string, string>,
                sp: map<string, string>, resolves: bool, cwd0: map<string, string>,
                cwd: map<string, string>, cwd1: map<string, string>)
    requires forall f :: f !in done ==> Get(cwd, f) == Get(cwd0, f)
    requires forall f :: f != s ==> Get(cwd1, f) == Get(cwd, f)
    requires forall f :: f in done && Placed(ActionOf(h, c, sp, f), resolves) ==> f in cwd
    requires forall f :: f in done && ActionOf(h, c, sp, f) == Delete ==> f !in cwd
    requires Placed(ActionOf(h, c, sp, s), resolves) ==> s in cwd1
    requires ActionOf(h, c, sp, s) == Delete ==> s !in cwd1
    ensures forall f :: f !in done + {s} ==> Get(cwd1, f) == Get(cwd0, f)
    ensures forall f :: f in done + {s} && Placed(ActionOf(h, c, sp, f), resolves) ==> f in cwd1
    ensures forall f :: f in done + {s} && ActionOf(h, c, sp, f) == Delete ==> f !in cwd1
  {
    forall f | f in done + {s} && f != s
      ensures Get(cwd1, f) == Get(cwd, f)
    {
    }
  }


  /** The loop over every file, followed by the merge commit of the head's files and the
      staged additions, leaves the state `MergeCommitted` describes. */
  lemma LoopCommitted(branchName: string, oldActive: string, headName: string, commitName: string,
                      h: map<string, string>, c: map<string, string>, sp: map<string, string>,
                      ff: bool, resolves: bool, reported: bool,
                      commits0: map<string, CommitRec>, branches0: map<string, string>,
                      active: string, commits: map<string, CommitRec>, branches: map<string, string>,
                      add: map<string, string>, rem: map<string, string>, cwd: map<string, string>,
                      rem0: map<string, string>, cwd0: map<string, string>, blobs0: map<string, string>,
                      addL: map<string, string>, remL: map<string, string>, blobsL: map<string, string>,
                      conflict: bool)
    requires LoopState(MergeFiles(h, c, sp), h, c, sp, map[], rem0, cwd0, blobs0,
                       addL, remL, cwd, blobsL, resolves, conflict)
    requires reported == conflict
    requires active == (if ff then branchName else oldActive)
    requires active in branches && branches[active] in commits
    requires commits[branches[active]] ==
               CommitRec("Merged " + branchName + " into " + active + ".", Epoch,
                         (if ff then c else h) + addL,
                         Some(headName), Some(commitName), Some(headName), Some(commitName))
    requires add == map[] && rem == map[]
    requires commits == commits0[branches[active] := commits[branches[active]]]
    requires branches == branches0[active := branches[active]]
    ensures MergeCommitted(branchName, oldActive, headName, commitName, h, c, sp, ff, resolves, reported,
                           commits0, branches0, blobs0,
                           active, commits, branches, blobsL, add, rem, cwd)
    ensures OthersKept(h, c, sp, cwd0, cwd)
  {
    assert map[] + Additions(MergeFiles(h, c, sp), h, c, sp) == Additions(MergeFiles(h, c, sp), h, c, sp);
  }
}
