/** Small building blocks shared by the gitlet model: Java's nullable strings and
    map lookups, and Java's `String.contains`. */
module Common {

  /** A possibly-null Java reference: `None` stands for `null`. */
  datatype Option<+T> = None | Some(value: T)

  /** `map.get(key)` of a Java map: `null` when the key is absent. */
  function Get(m: map<string, string>, key: string): Option<string>
  {
    if key in m then Some(m[key]) else None
  }

  /** A possibly-null string as Java's `+` concatenation renders it: `null` becomes "null".
      The source builds file names as `id + ".txt"`, so a null id names the file "null.txt". */
  function NameOf(id: Option<string>): string
  {
    if id.Some? then id.value else "null"
  }

  /** Java's `s.contains(t)`: `t` occurs in `s` at some offset. */
  predicate Contains(s: string, t: string)
    decreases |s|
  {
    t <= s || (|s| > 0 && Contains(s[1..], t))
  }

  /** Every string contains itself and the empty string. */
  lemma ContainsSelf(s: string)
    ensures Contains(s, s) && Contains(s, "")
  {
  }

  /** An occurrence at an offset `k` is an occurrence. */
  lemma {:induction false} ContainsAt(s: string, t: string, k: nat)
    requires k + |t| <= |s| && s[k..k + |t|] == t
    ensures Contains(s, t)
    decreases k
  {
    if k == 0 {
      assert t <= s;
    } else {
      assert s[1..][k - 1..k - 1 + |t|] == s[k..k + |t|];
      ContainsAt(s[1..], t, k - 1);
    }
  }

  /** A string that contains `t` has `t` at some offset, so it is at least as long as `t`. */
  lemma {:induction false} ContainsOffset(s: string, t: string) returns (k: nat)
    requires Contains(s, t)
    ensures k + |t| <= |s| && s[k..k + |t|] == t
    decreases |s|
  {
    if t <= s {
      k := 0;
    } else {
      var k' := ContainsOffset(s[1..], t);
      k := k' + 1;
      assert s[k..k + |t|] == s[1..][k'..k' + |t|];
    }
  }

  /** `contains` is transitive: an occurrence of an occurrence is an occurrence. */
  lemma ContainsTransitive(a: string, b: string, c: string)
    requires Contains(a, b) && Contains(b, c)
    ensures Contains(a, c)
  {
    var i := ContainsOffset(a, b);
    var j := ContainsOffset(b, c);
    assert b == a[i..i + |b|];
    forall m | 0 <= m < |c|
      ensures a[i + j..i + j + |c|][m] == c[m]
    {
      assert c[m] == b[j + m];
    }
    assert a[i + j..i + j + |c|] == c;
    ContainsAt(a, c, i + j);
  }
}
