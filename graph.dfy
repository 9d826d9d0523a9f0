/** The commit graph of Repo.java: the ancestor set `commitHis`, the breadth-first
    search `bfs` that `splitSection` uses to pick a split point, and the first-parent
    chain that `log` walks. The commit store is a map from commit id to record. */
module Graph {
  import opened Common
  import opened Commits

  type Store = map<string, CommitRec>

  /** Both parents of every stored commit are stored. */
  ghost predicate ParentsStored(store: Store)
  {
    forall id :: id in store ==>
      && (store[id].parent.Some? ==> store[id].parent.value in store)
      && (store[id].parent2.Some? ==> store[id].parent2.value in store)
  }

  /** `p`, if present, is a stored commit of smaller rank than `id`. */
  ghost predicate RankedBelow(store: Store, rank: map<string, nat>, id: string, p: Option<string>)
    requires id in rank
  {
    p.Some? ==> p.value in store && p.value in rank && rank[p.value] < rank[id]
  }

  /** `rank` witnesses that the parent links are acyclic: every parent of a stored
      commit is stored and has a smaller rank. */
  ghost predicate Ranked(store: Store, rank: map<string, nat>)
  {
    forall id :: id in store ==>
      && id in rank
      && RankedBelow(store, rank, id, store[id].parent)
      && RankedBelow(store, rank, id, store[id].parent2)
  }

  /** The only stored commit without a first parent is the root. */
  ghost predicate OnlyRootOrphan(store: Store, root: string)
  {
    forall id :: id in store && store[id].parent.None? ==> id == root
  }

  /** Storing a new commit whose parents are stored, at a rank above theirs, keeps the
      parent links ranked. */
  lemma RankedInsert(store: Store, rank: map<string, nat>, id: string, rec: CommitRec, r: nat)
    requires Ranked(store, rank) && id !in store
    requires rec.parent.Some? ==> rec.parent.value in store && rank[rec.parent.value] < r
    requires rec.parent2.Some? ==> rec.parent2.value in store && rank[rec.parent2.value] < r
    ensures Ranked(store[id := rec], rank[id := r])
  {
    var s2, r2 := store[id := rec], rank[id := r];
    forall x | x in s2
      ensures x in r2 && RankedBelow(s2, r2, x, s2[x].parent) && RankedBelow(s2, r2, x, s2[x].parent2)
    {
      if x != id {
        assert RankedBelow(store, rank, x, store[x].parent);
        assert RankedBelow(store, rank, x, store[x].parent2);
      }
    }
  }

  lemma RankedParentsStored(store: Store, rank: map<string, nat>)
    requires Ranked(store, rank)
    ensures ParentsStored(store)
  {
  }

  /** `commitHis(id)`: the commit itself plus the histories of both parents. */
  function History(store: Store, ghost rank: map<string, nat>, id: string): (h: set<string>)
    requires Ranked(store, rank) && id in store
    ensures id in h && h <= store.Keys
    decreases rank[id]
  {
    var r := store[id];
    (if r.parent.Some? then History(store, rank, r.parent.value) else {})
    + {id}
    + (if r.parent2.Some? then History(store, rank, r.parent2.value) else {})
  }

  /** `S` contains both parents of each of its stored members. */
  ghost predicate ClosedUnderParents(store: Store, S: set<string>)
  {
    forall x :: x in S && x in store ==>
      && (store[x].parent.Some? ==> store[x].parent.value in S)
      && (store[x].parent2.Some? ==> store[x].parent2.value in S)
  }

  /** The history is closed under `parent` and `parent2`. */
  lemma {:induction false} HistoryClosed(store: Store, rank: map<string, nat>, id: string)
    requires Ranked(store, rank) && id in store
    ensures ClosedUnderParents(store, History(store, rank, id))
    decreases rank[id]
  {
    var r := store[id];
    if r.parent.Some? {
      HistoryClosed(store, rank, r.parent.value);
    }
    if r.parent2.Some? {
      HistoryClosed(store, rank, r.parent2.value);
    }
  }

  /** The history is the least such set: any parent-closed set holding `id` holds all
      of it. With HistoryClosed, the history is exactly the reflexive-transitive
      closure of the parent relation from `id`. */
  lemma {:induction false} HistoryLeast(store: Store, rank: map<string, nat>, id: string, S: set<string>)
    requires Ranked(store, rank) && id in store
    requires id in S && ClosedUnderParents(store, S)
    ensures History(store, rank, id) <= S
    decreases rank[id]
  {
    var r := store[id];
    if r.parent.Some? {
      HistoryLeast(store, rank, r.parent.value, S);
    }
    if r.parent2.Some? {
      HistoryLeast(store, rank, r.parent2.value, S);
    }
  }

  /** Histories nest: an ancestor's history is part of the descendant's. */
  lemma HistoryTransitive(store: Store, rank: map<string, nat>, id: string, x: string)
    requires Ranked(store, rank) && id in store && x in History(store, rank, id)
    ensures History(store, rank, x) <= History(store, rank, id)
  {
    HistoryClosed(store, rank, id);
    HistoryLeast(store, rank, x, History(store, rank, id));
  }

  /** The root lies in every history when it is the only commit without a first parent. */
  lemma {:induction false} RootInHistory(store: Store, rank: map<string, nat>, root: string, id: string)
    requires Ranked(store, rank) && OnlyRootOrphan(store, root) && id in store
    ensures root in History(store, rank, id)
    decreases rank[id]
  {
    if store[id].parent.Some? {
      RootInHistory(store, rank, root, store[id].parent.value);
    }
  }

  /** What `bfs` ends with: the split point found, the queue running dry (`return null`),
      or the NullPointerException `ArrayDeque.add(null)` throws for a missing first parent. */
  datatype BfsResult = Found(id: string) | Exhausted | NullParent

  /** The queue holds stored commits only. */
  ghost predicate QueueStored(store: Store, queue: seq<string>)
  {
    forall i :: 0 <= i < |queue| ==> queue[i] in store
  }

  lemma ProperSubsetSmaller(A: set<string>, B: set<string>)
    requires A < B
    ensures |A| < |B|
  {
    assert exists y :: y in B && y !in A;
    var x :| x in B && x !in A;
    assert x in B - A;
    assert B == A + (B - A);
    assert A * (B - A) == {};
  }

  /** Enqueue `p` and mark it, unless it is marked already (`if (!m.containsKey(p))`). */
  function Enqueue(store: Store, queue: seq<string>, marked: set<string>, p: string): (res: (seq<string>, set<string>))
    requires QueueStored(store, queue) && p in store
    ensures QueueStored(store, res.0) && res.1 == marked + {p}
    ensures res.0 == if p in marked then queue else queue + [p]
    ensures p in marked ==> res.1 == marked
    ensures p !in marked ==> |store.Keys - res.1| < |store.Keys - marked|
  {
    if p in marked then (queue, marked)
    else
      assert (store.Keys - (marked + {p})) < (store.Keys - marked) by {
        assert p in store.Keys - marked;
      }
      ProperSubsetSmaller(store.Keys - (marked + {p}), store.Keys - marked);
      (queue + [p], marked + {p})
  }

  /** One expansion step of `bfs` for dequeued `x`: enqueue and mark the first parent,
      then the second parent, each only when not marked yet. */
  function Expand(store: Store, x: string, rest: seq<string>, marked: set<string>): (res: (seq<string>, set<string>))
    requires ParentsStored(store) && x in store && store[x].parent.Some?
    requires QueueStored(store, rest)
    ensures QueueStored(store, res.0) && marked <= res.1 && |rest| <= |res.0|
    ensures |store.Keys - res.1| < |store.Keys - marked| || (res.1 == marked && res.0 == rest)
  {
    var first := Enqueue(store, rest, marked, store[x].parent.value);
    if store[x].parent2.Some? then
      var second := Enqueue(store, first.0, first.1, store[x].parent2.value);
      assert |store.Keys - second.1| <= |store.Keys - first.1| by {
        if store[x].parent2.value in first.1 {
          assert second.1 == first.1;
        }
      }
      second
    else first
  }

  /** Expanding `x` marks both its parents, enqueues every commit it newly marks, and
      keeps the rest of the queue. */
  lemma ExpandCovers(store: Store, x: string, rest: seq<string>, marked: set<string>)
    requires ParentsStored(store) && x in store && store[x].parent.Some?
    requires QueueStored(store, rest)
    ensures var next := Expand(store, x, rest, marked);
            && Expanded(store, x, next.1)
            && (forall y :: y in next.1 && y !in marked ==> y in next.0)
            && (forall y :: y in rest ==> y in next.0)
  {
    var first := Enqueue(store, rest, marked, store[x].parent.value);
    assert forall y :: y in rest ==> y in first.0;
    if store[x].parent2.Some? {
      var second := Enqueue(store, first.0, first.1, store[x].parent2.value);
      assert forall y :: y in first.0 ==> y in second.0;
    }
  }

  /** The parents of `x` that expanding it newly marks, first parent first. */
  function NewParents(store: Store, x: string, marked: set<string>): (added: seq<string>)
    requires x in store && store[x].parent.Some?
    ensures NoDuplicates(added)
    ensures forall i :: 0 <= i < |added| ==> added[i] !in marked
  {
    var p := store[x].parent.value;
    var a1: seq<string> := if p in marked then [] else [p];
    if store[x].parent2.Some? && store[x].parent2.value !in marked + {p} then a1 + [store[x].parent2.value]
    else a1
  }

  /** Expanding `x` appends `NewParents` to the queue and marks both parents. */
  lemma ExpandAppends(store: Store, x: string, rest: seq<string>, marked: set<string>)
    requires ParentsStored(store) && x in store && store[x].parent.Some?
    requires QueueStored(store, rest)
    ensures var next := Expand(store, x, rest, marked);
            && next.0 == rest + NewParents(store, x, marked)
            && next.1 == marked + {store[x].parent.value}
                        + (if store[x].parent2.Some? then {store[x].parent2.value} else {})
  {
  }

  /** Expanding `x` appends to the queue exactly the parents it newly marks: each
      once, none marked before, and nothing else is marked. */
  lemma ExpandFresh(store: Store, x: string, rest: seq<string>, marked: set<string>)
    requires ParentsStored(store) && x in store && store[x].parent.Some?
    requires QueueStored(store, rest)
    ensures var next := Expand(store, x, rest, marked);
            var added := next.0[|rest|..];
            && next.0 == rest + added
            && NoDuplicates(added)
            && (forall i :: 0 <= i < |added| ==> added[i] !in marked && added[i] in next.1)
            && (forall y :: y in next.1 ==> y in marked || y in added)
  {
    var next := Expand(store, x, rest, marked);
    var added := NewParents(store, x, marked);
    ExpandAppends(store, x, rest, marked);
    assert next.0[|rest|..] == added;
  }

  /** The run of `bfs` from a queue and a marked set: dequeue the front; stop when it
      is in `common`; otherwise expand it and go on. */
  function BfsSpec(store: Store, common: set<string>, queue: seq<string>, marked: set<string>): BfsResult
    requires ParentsStored(store) && QueueStored(store, queue)
    decreases |store.Keys - marked|, |queue|
  {
    if queue == [] then Exhausted
    else
      var x := queue[0];
      if x in common then Found(x)
      else if store[x].parent.None? then NullParent
      else
        var next := Expand(store, x, queue[1..], marked);
        BfsSpec(store, common, next.0, next.1)
  }

  /** A split point `bfs` returns lies in the common history and in the store. */
  lemma {:induction false} BfsFoundInCommon(store: Store, common: set<string>, queue: seq<string>, marked: set<string>)
    requires ParentsStored(store) && QueueStored(store, queue)
    ensures BfsSpec(store, common, queue, marked).Found? ==>
              BfsSpec(store, common, queue, marked).id in common &&
              BfsSpec(store, common, queue, marked).id in store
    decreases |store.Keys - marked|, |queue|
  {
    if queue != [] && queue[0] !in common && store[queue[0]].parent.Some? {
      var next := Expand(store, queue[0], queue[1..], marked);
      BfsFoundInCommon(store, common, next.0, next.1);
    }
  }

  /** `bfs` never enqueues a null parent when the root is a common ancestor: the root is
      the only commit without a first parent, and it is returned before it is expanded. */
  lemma {:induction false} BfsNeverNull(store: Store, root: string, common: set<string>, queue: seq<string>, marked: set<string>)
    requires ParentsStored(store) && QueueStored(store, queue)
    requires OnlyRootOrphan(store, root) && root in common
    ensures BfsSpec(store, common, queue, marked) != NullParent
    decreases |store.Keys - marked|, |queue|
  {
    if queue != [] && queue[0] !in common {
      assert queue[0] != root;
      var next := Expand(store, queue[0], queue[1..], marked);
      BfsNeverNull(store, root, common, next.0, next.1);
    }
  }

  /** Both parents of `d` are marked. */
  ghost predicate Expanded(store: Store, d: string, marked: set<string>)
    requires d in store
  {
    && (store[d].parent.Some? ==> store[d].parent.value in marked)
    && (store[d].parent2.Some? ==> store[d].parent2.value in marked)
  }

  /** A non-empty set of commits that holds the first parent of each member holds the root. */
  lemma {:induction false} ClosedReachesRoot(store: Store, rank: map<string, nat>, root: string, D: set<string>, d: string)
    requires Ranked(store, rank) && OnlyRootOrphan(store, root)
    requires d in D && D <= store.Keys
    requires forall y :: y in D && store[y].parent.Some? ==> store[y].parent.value in D
    ensures root in D
    decreases rank[d]
  {
    if store[d].parent.Some? {
      ClosedReachesRoot(store, rank, root, D, store[d].parent.value);
    }
  }

  /** `bfs` finds a split point when the root is a common ancestor and every marked
      commit has been enqueued: `done` holds the commits dequeued and expanded so far. */
  lemma {:induction false} BfsFinds(store: Store, rank: map<string, nat>, root: string, common: set<string>,
                                    queue: seq<string>, marked: set<string>, done: set<string>)
    requires Ranked(store, rank) && OnlyRootOrphan(store, root) && root in common
    requires QueueStored(store, queue)
    requires queue != [] || done != {}
    requires done <= store.Keys && root !in done
    requires forall d :: d in done ==> Expanded(store, d, marked)
    requires forall y :: y in marked && y in store ==> y in done || y in queue
    ensures BfsSpec(store, common, queue, marked).Found?
    decreases |store.Keys - marked|, |queue|
  {
    QueueNotDrained(store, rank, root, queue, marked, done);
    var x := queue[0];
    if x !in common {
      assert x != root;
      var next := ExpandStep(store, root, queue, marked, done);
      BfsFinds(store, rank, root, common, next.0, next.1, done + {x});
    }
  }

  /** While the root is not dequeued, the queue cannot run dry: the dequeued commits
      would otherwise be closed under parents, and so reach the root. */
  lemma QueueNotDrained(store: Store, rank: map<string, nat>, root: string,
                        queue: seq<string>, marked: set<string>, done: set<string>)
    requires Ranked(store, rank) && OnlyRootOrphan(store, root)
    requires queue != [] || done != {}
    requires done <= store.Keys && root !in done
    requires forall d :: d in done ==> Expanded(store, d, marked)
    requires forall y :: y in marked && y in store ==> y in done || y in queue
    ensures queue != []
  {
    if queue == [] {
      var d :| d in done;
      forall y | y in done && store[y].parent.Some?
        ensures store[y].parent.value in done
      {
        assert Expanded(store, y, marked);
      }
      ClosedReachesRoot(store, rank, root, done, d);
    }
  }

  /** Expanding the front of the queue, when it is not the root, keeps what `BfsFinds`
      needs: the dequeued commits, now with the front, have both parents marked, and
      every marked stored commit is dequeued or still queued. */
  lemma ExpandStep(store: Store, root: string, queue: seq<string>, marked: set<string>,
                   done: set<string>) returns (next: (seq<string>, set<string>))
    requires ParentsStored(store) && OnlyRootOrphan(store, root)
    requires QueueStored(store, queue) && queue != [] && queue[0] != root
    requires done <= store.Keys
    requires forall d :: d in done ==> Expanded(store, d, marked)
    requires forall y :: y in marked && y in store ==> y in done || y in queue
    ensures store[queue[0]].parent.Some?
    ensures next == Expand(store, queue[0], queue[1..], marked)
    ensures QueueStored(store, next.0) && done + {queue[0]} <= store.Keys
    ensures |store.Keys - next.1| < |store.Keys - marked| || (next.1 == marked && |next.0| < |queue|)
    ensures forall d :: d in done + {queue[0]} ==> Expanded(store, d, next.1)
    ensures forall y :: y in next.1 && y in store ==> y in done + {queue[0]} || y in next.0
  {
    var x := queue[0];
    next := Expand(store, x, queue[1..], marked);
    ExpandCovers(store, x, queue[1..], marked);
    forall y | y in next.1 && y in store
      ensures y in done + {x} || y in next.0
    {
      if y in marked && y !in done && y != x {
        assert y in queue[1..] by {
          assert y in queue;
        }
      }
    }
  }

  /** No element occurs twice. */
  ghost predicate NoDuplicates(s: seq<string>)
  {
    forall i, j :: 0 <= i < j < |s| ==> s[i] != s[j]
  }

  /** The commits the run `BfsSpec` describes puts on the queue after `queue`, in order:
      the parents each expansion newly enqueues. */
  ghost function BfsTrace(store: Store, common: set<string>, queue: seq<string>, marked: set<string>): seq<string>
    requires ParentsStored(store) && QueueStored(store, queue)
    decreases |store.Keys - marked|, |queue|
  {
    if queue == [] || queue[0] in common || store[queue[0]].parent.None? then []
    else
      var next := Expand(store, queue[0], queue[1..], marked);
      next.0[|queue| - 1..] + BfsTrace(store, common, next.0, next.1)
  }

  /** The run never enqueues a commit twice, nor one marked at its start. */
  lemma {:induction false} BfsTraceFresh(store: Store, common: set<string>, queue: seq<string>, marked: set<string>)
    requires ParentsStored(store) && QueueStored(store, queue)
    ensures var t := BfsTrace(store, common, queue, marked);
            NoDuplicates(t) && forall i :: 0 <= i < |t| ==> t[i] !in marked
    decreases |store.Keys - marked|, |queue|
  {
    if !(queue == [] || queue[0] in common || store[queue[0]].parent.None?) {
      var rest := queue[1..];
      var next := Expand(store, queue[0], rest, marked);
      ExpandFresh(store, queue[0], rest, marked);
      var added := next.0[|rest|..];
      var later := BfsTrace(store, common, next.0, next.1);
      BfsTraceFresh(store, common, next.0, next.1);
      var t := added + later;
      forall i, j | 0 <= i < j < |t|
        ensures t[i] != t[j]
      {
        if i < |added| && j >= |added| {
          assert t[i] == added[i] && added[i] in next.1;
          assert t[j] == later[j - |added|] && later[j - |added|] !in next.1;
        }
      }
    }
  }

  /** Appending a step's commits to those enqueued so far leaves the same whole. */
  lemma Regroup(done: seq<string>, added: seq<string>, later: seq<string>, whole: seq<string>)
    requires whole == added + later
    ensures (done + added) + later == done + whole
  {
  }

  /** `bfs` enqueues its start first and then no commit twice. */
  lemma BfsEnqueuesOnce(store: Store, common: set<string>, s: string, marks: set<string>)
    requires ParentsStored(store) && s in store
    ensures NoDuplicates([s] + BfsTrace(store, common, [s], marks + {s}))
  {
    BfsTraceFresh(store, common, [s], marks + {s});
  }

  /** One iteration of the `bfs` loop: a dequeued commit outside `common` with a first
      parent leaves the run that continues from its expansion. */
  lemma BfsStep(store: Store, common: set<string>, queue: seq<string>, marked: set<string>)
    requires ParentsStored(store) && QueueStored(store, queue) && queue != []
    requires queue[0] !in common && store[queue[0]].parent.Some?
    ensures var next := Expand(store, queue[0], queue[1..], marked);
            && BfsSpec(store, common, queue, marked) == BfsSpec(store, common, next.0, next.1)
            && BfsTrace(store, common, queue, marked) == next.0[|queue| - 1..] + BfsTrace(store, common, next.0, next.1)
  {
  }

  /** The part of one turn of `bfs` that puts the parents of `x` not yet marked on the
      queue and marks them. */
  method EnqueueParents(store: Store, x: string, rest: seq<string>, marked: set<string>)
    returns (queue: seq<string>, m: set<string>)
    requires ParentsStored(store) && x in store && store[x].parent.Some? && QueueStored(store, rest)
    ensures (queue, m) == Expand(store, x, rest, marked)
  {
    var comPsha := store[x].parent.value;
    var comP2sha := store[x].parent2;
    queue, m := rest, marked;
    if comPsha !in m {
      queue := queue + [comPsha];
      m := m + {comPsha};
    }
    assert (queue, m) == Enqueue(store, rest, marked, comPsha);
    if comP2sha.Some? && comP2sha.value !in m {
      queue := queue + [comP2sha.value];
      m := m + {comP2sha.value};
    }
  }

  /** `bfs(c, s, m)` as the source runs it, over an immutable store: `marks` holds the
      keys of the marking map on entry, and the result is the run `BfsSpec` describes.
      The ghost `enqueued` lists every commit put on the queue, in order: `s` first, then
      the trace of that run, so none twice. */
  method Bfs(store: Store, common: set<string>, s: string, marks: set<string>)
    returns (r: BfsResult, ghost enqueued: seq<string>)
    requires ParentsStored(store) && s in store
    ensures r == BfsSpec(store, common, [s], marks + {s})
    ensures enqueued == [s] + BfsTrace(store, common, [s], marks + {s})
    ensures NoDuplicates(enqueued)
  {
    BfsEnqueuesOnce(store, common, s, marks);
    var deq := [s];
    var m := marks + {s};
    enqueued := [s];
    while deq != []
      invariant QueueStored(store, deq)
      invariant BfsSpec(store, common, deq, m) == BfsSpec(store, common, [s], marks + {s})
      invariant enqueued + BfsTrace(store, common, deq, m) == [s] + BfsTrace(store, common, [s], marks + {s})
      decreases |store.Keys - m|, |deq|
    {
      ghost var m0 := m;
      ghost var before := deq;
      var remCom := deq[0];
      deq := deq[1..];
      ghost var rest := deq;
      var getCom := store[remCom];
      var comPsha := getCom.parent;
      assert remCom in common || comPsha.None? ==> BfsTrace(store, common, before, m0) == [];
      if remCom in common {
        r := Found(remCom);
        return;
      }
      if comPsha.None? {
        // The marking map never holds null, so the source calls deq.add(null), which throws.
        r := NullParent;
        return;
      }
      deq, m := EnqueueParents(store, remCom, deq, m);
      BfsStep(store, common, before, m0);
      ghost var e0 := enqueued;
      enqueued := enqueued + deq[|rest|..];
      Regroup(e0, deq[|rest|..], BfsTrace(store, common, deq, m), BfsTrace(store, common, before, m0));
    }
    r := Exhausted;
  }

  /** The ids `log` visits from `id`: the commit, then its first parent, and so on up to
      a commit without one. */
  function FirstParentChain(store: Store, ghost rank: map<string, nat>, id: string): (c: seq<string>)
    requires Ranked(store, rank) && id in store
    ensures |c| > 0 && c[0] == id
    ensures forall i :: 0 <= i < |c| ==> c[i] in store
    ensures store[c[|c| - 1]].parent.None?
    ensures forall i :: 0 <= i < |c| - 1 ==> store[c[i]].parent == Some(c[i + 1])
    decreases rank[id]
  {
    if store[id].parent.Some? then [id] + FirstParentChain(store, rank, store[id].parent.value)
    else [id]
  }

  /** The first-parent chain stays inside the history and ends at the root. */
  lemma {:induction false} ChainInHistory(store: Store, rank: map<string, nat>, root: string, id: string)
    requires Ranked(store, rank) && OnlyRootOrphan(store, root) && id in store
    ensures var c := FirstParentChain(store, rank, id);
            c[|c| - 1] == root &&
            forall i :: 0 <= i < |c| ==> c[i] in History(store, rank, id)
    decreases rank[id]
  {
    if store[id].parent.Some? {
      var p := store[id].parent.value;
      ChainInHistory(store, rank, root, p);
      HistoryTransitive(store, rank, id, p);
    }
  }
}
