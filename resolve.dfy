/** How `checkout2` and `reset` in Repo.java turn a possibly abbreviated commit id into
    a stored one. Commits are stored as files named `<id>.txt`; the loop over that
    directory's listing replaces the pattern by every file name that contains it, so
    each later name must contain the file name matched before it. */
module Resolution {
  import opened Common

  /** The name of the file a commit with id `id` is stored in. */
  function FileName(id: string): string
  {
    id + ".txt"
  }

  /** The file names of a set of commit ids. */
  function FileNames(ids: set<string>): set<string>
  {
    set k | k in ids :: FileName(k)
  }

  /** `s.substring(0, s.length() - 4)`: drop the `.txt` suffix; the source throws when
      `s` is shorter than four characters. */
  function StripTxt(s: string): (r: Option<string>)
    ensures |s| < 4 <==> r.None?
    ensures r.Some? ==> s == r.value + s[|s| - 4..]
  {
    if |s| < 4 then None else Some(s[..|s| - 4])
  }

  /** Stripping the name of a stored commit gives back its id. */
  lemma StripFileName(id: string)
    ensures StripTxt(FileName(id)) == Some(id)
  {
    assert FileName(id)[..|FileName(id)| - 4] == id;
  }

  /** `names` lists exactly the files of the commit directory. */
  ghost predicate IsListing(names: seq<string>, ids: set<string>)
  {
    forall x :: x in names <==> x in FileNames(ids)
  }

  /** A listed name is the file name of a stored id. */
  lemma ListedId(names: seq<string>, ids: set<string>, n: string) returns (k: string)
    requires IsListing(names, ids) && n in names
    ensures k in ids && n == FileName(k) && StripTxt(n) == Some(k)
  {
    assert n in FileNames(ids);
    k :| k in ids && n == FileName(k);
    StripFileName(k);
  }

  /** The pattern the loop ends with: the last name that contains the pattern current
      at its turn, or the query when no name does. */
  function ResolveSpec(names: seq<string>, pattern: string): string
    decreases |names|
  {
    if names == [] then pattern
    else ResolveSpec(names[1..], if Contains(names[0], pattern) then names[0] else pattern)
  }

  /** The resolution loop of `checkout2` and `reset`. */
  method ResolveId(commitFiles: seq<string>, commitID: string) returns (r: string)
    ensures r == ResolveSpec(commitFiles, commitID)
  {
    r := commitID;
    for i := 0 to |commitFiles|
      invariant ResolveSpec(commitFiles[i..], r) == ResolveSpec(commitFiles, commitID)
    {
      assert commitFiles[i..][1..] == commitFiles[i + 1..];
      var s := commitFiles[i];
      if Contains(s, r) {
        r := s;
      }
    }
  }

  /** The result contains the query: each replacement contains the pattern it replaces. */
  lemma {:induction false} ResolveContainsQuery(names: seq<string>, pattern: string)
    ensures Contains(ResolveSpec(names, pattern), pattern)
    decreases |names|
  {
    if names == [] {
      ContainsSelf(pattern);
    } else {
      var next := if Contains(names[0], pattern) then names[0] else pattern;
      ResolveContainsQuery(names[1..], next);
      if next == pattern {
      } else {
        ContainsTransitive(ResolveSpec(names[1..], next), next, pattern);
      }
    }
  }

  /** The result is the query itself or one of the listed names. */
  lemma {:induction false} ResolveFromNames(names: seq<string>, pattern: string)
    ensures ResolveSpec(names, pattern) == pattern || ResolveSpec(names, pattern) in names
    decreases |names|
  {
    if names != [] {
      var next := if Contains(names[0], pattern) then names[0] else pattern;
      ResolveFromNames(names[1..], next);
      if ResolveSpec(names, pattern) in names[1..] {
        assert names == [names[0]] + names[1..];
      }
    }
  }

  /** Without a listed name containing the query, the query comes back unchanged. */
  lemma {:induction false} ResolveNoMatch(names: seq<string>, pattern: string)
    requires forall i :: 0 <= i < |names| ==> !Contains(names[i], pattern)
    ensures ResolveSpec(names, pattern) == pattern
    decreases |names|
  {
    if names != [] {
      ResolveNoMatch(names[1..], pattern);
    }
  }

  /** A query matched by exactly one listed name `e`, which no other name contains,
      resolves to `e`: the abbreviation of an id that no other file name contains
      resolves to that id's file. */
  lemma {:induction false} ResolveUnique(names: seq<string>, q: string, e: string, cur: string)
    requires Contains(e, q) && (cur == q || cur == e)
    requires forall i :: 0 <= i < |names| && names[i] != e ==> !Contains(names[i], q) && !Contains(names[i], e)
    ensures ResolveSpec(names, cur) == if cur == e || e in names then e else q
    decreases |names|
  {
    if names != [] {
      ContainsSelf(e);
      var next := if Contains(names[0], cur) then names[0] else cur;
      assert next == q || next == e;
      assert names[0] == e ==> next == e;
      ResolveUnique(names[1..], q, e, next);
      assert e in names <==> names[0] == e || e in names[1..];
    }
  }

  /** No listed name other than the file of `id` contains `id`. A full 40-digit SHA-1
      id meets this unless another name repeats it. */
  ghost predicate Unambiguous(names: seq<string>, id: string)
  {
    forall i :: 0 <= i < |names| && names[i] != FileName(id) ==> !Contains(names[i], id)
  }

  /** A full stored id that no other file name contains resolves to its own file, and
      stripping gives the id back. */
  lemma ResolveFullId(names: seq<string>, ids: set<string>, id: string)
    requires IsListing(names, ids) && id in ids && Unambiguous(names, id)
    ensures StripTxt(ResolveSpec(names, id)) == Some(id)
  {
    var e := FileName(id);
    assert e in names by {
      assert e in FileNames(ids);
    }
    ContainsAt(e, id, 0);
    forall i | 0 <= i < |names| && names[i] != e
      ensures !Contains(names[i], e)
    {
      if Contains(names[i], e) {
        ContainsAt(e, id, 0);
        ContainsTransitive(names[i], e, id);
      }
    }
    ResolveUnique(names, id, e, id);
    StripFileName(id);
  }
}
