/** Sums over maps and strictly sorted listings of sets, used by the aggregations. */
module Tables {

  /** The sum of a table of counts. */
  ghost function Total(m: map<string, nat>): nat
    decreases |m|
  {
    if m == map[] then 0
    else
      var k :| k in m;
      m[k] + Total(m - {k})
  }

  lemma {:induction false} TotalWithout(m: map<string, nat>, k: string)
    requires k in m
    ensures Total(m) == m[k] + Total(m - {k})
    decreases |m|
  {
    var c :| c in m && Total(m) == m[c] + Total(m - {c});
    if c != k {
      TotalWithout(m - {c}, k);
      TotalWithout(m - {k}, c);
      assert m - {c} - {k} == m - {k} - {c};
    }
  }

  lemma TotalUpdate(m: map<string, nat>, k: string, n: nat)
    ensures Total(m[k := n]) + Entry(m, k) == Total(m) + n
  {
    TotalWithout(m[k := n], k);
    assert m[k := n] - {k} == m - {k};
    if k in m {
      TotalWithout(m, k);
    } else {
      assert m - {k} == m;
    }
  }

  function Entry(m: map<string, nat>, k: string): nat {
    if k in m then m[k] else 0
  }

  function Bump(m: map<string, nat>, k: string): map<string, nat> {
    m[k := Entry(m, k) + 1]
  }

  lemma BumpsCommute(m: map<string, nat>, a: string, b: string)
    ensures Bump(Bump(m, a), b) == Bump(Bump(m, b), a)
  {
  }

  ghost predicate Positive(m: map<string, nat>) {
    forall k :: k in m ==> m[k] > 0
  }

  /** What a table counts beyond the first of each. */
  ghost function Excess(m: map<string, nat>): nat {
    Total(map k | k in m :: if m[k] > 1 then m[k] - 1 else 0)
  }

  lemma {:induction false} ExcessIsTotalLessKeys(m: map<string, nat>)
    requires Positive(m)
    ensures Excess(m) + |m.Keys| == Total(m)
    decreases |m|
  {
    var over := map k | k in m :: if m[k] > 1 then m[k] - 1 else 0;
    if m != map[] {
      var k :| k in m;
      var rest := m - {k};
      ExcessIsTotalLessKeys(rest);
      TotalWithout(m, k);
      TotalWithout(over, k);
      assert over - {k} == map j | j in rest :: if rest[j] > 1 then rest[j] - 1 else 0;
      assert rest.Keys == m.Keys - {k};
    } else {
      assert over == map[];
    }
  }

  /** The greatest count of a table, 0 for an empty one. */
  ghost predicate IsLargest(m: map<string, nat>, n: nat) {
    && (forall k :: k in m ==> m[k] <= n)
    && (n == 0 || exists k :: k in m && m[k] == n)
  }

  lemma {:induction false} LargestWithinTotal(m: map<string, nat>, n: nat)
    requires IsLargest(m, n)
    ensures n <= Total(m)
  {
    if n > 0 {
      var k :| k in m && m[k] == n;
      TotalWithout(m, k);
    }
  }

  // ----------------------------------------------------------------- greatest id

  /** The greatest of `base` and the ids. */
  ghost predicate IsLatest(base: int, ids: set<int>, latest: int) {
    base <= latest && (forall id :: id in ids ==> id <= latest) && (latest == base || latest in ids)
  }

  ghost function Latest(base: int, ids: set<int>): (latest: int)
    ensures IsLatest(base, ids, latest)
    decreases |ids|
  {
    if ids == {} then base
    else
      assert (forall id :: id !in ids) ==> ids == {};
      var id :| id in ids;
      var rest := Latest(base, ids - {id});
      assert forall x :: x in ids ==> x == id || x in ids - {id};
      if id > rest then id else rest
  }

  lemma LatestIsUnique(base: int, ids: set<int>, latest: int)
    requires IsLatest(base, ids, latest)
    ensures latest == Latest(base, ids)
  {
    assert IsLatest(base, ids, Latest(base, ids));
  }

  // ---------------------------------------------------------------- permutations

  function Without<T>(s: seq<T>, i: nat): seq<T>
    requires i < |s|
  {
    s[..i] + s[i + 1..]
  }

  lemma WithoutMultiset<T>(s: seq<T>, i: nat)
    requires i < |s|
    ensures multiset(s) == multiset(Without(s, i)) + multiset{s[i]}
  {
    assert s == s[..i] + ([s[i]] + s[i + 1..]);
    assert multiset([s[i]] + s[i + 1..]) == multiset{s[i]} + multiset(s[i + 1..]);
  }

  /** An element common to two permutations can be removed from both. */
  lemma Cancel<T>(a: seq<T>, b: seq<T>, x: T) returns (i: nat)
    requires a != [] && a[|a| - 1] == x && multiset(a) == multiset(b)
    ensures i < |b| && b[i] == x && multiset(a[..|a| - 1]) == multiset(Without(b, i))
  {
    assert a[|a| - 1] in multiset(b);
    i :| 0 <= i < |b| && b[i] == x;
    WithoutMultiset(a, |a| - 1);
    WithoutMultiset(b, i);
    assert Without(a, |a| - 1) == a[..|a| - 1];
    assert multiset(a[..|a| - 1]) == multiset(a) - multiset{x};
    assert multiset(Without(b, i)) == multiset(b) - multiset{x};
  }

  // ------------------------------------------------------------------ ordering

  predicate Less(a: string, b: string)
    decreases |a|
  {
    b != "" && (a == "" || a[0] < b[0] || (a[0] == b[0] && Less(a[1..], b[1..])))
  }

  lemma {:induction false} LessTotal(a: string, b: string)
    ensures Less(a, b) || a == b || Less(b, a)
    ensures !(Less(a, b) && Less(b, a)) && !Less(a, a)
    decreases |a|
  {
    if a != "" {
      LessTotal(a[1..], a[1..]);
      if b != "" {
        LessTotal(a[1..], b[1..]);
        assert a == [a[0]] + a[1..] && b == [b[0]] + b[1..];
      }
    }
  }

  lemma {:induction false} LessTransitive(a: string, b: string, c: string)
    requires Less(a, b) && Less(b, c)
    ensures Less(a, c)
    decreases |a|
  {
    if a != "" && a[0] == b[0] == c[0] {
      LessTransitive(a[1..], b[1..], c[1..]);
    }
  }

  ghost predicate Sorted(keys: seq<string>) {
    forall i, j :: 0 <= i < j < |keys| ==> Less(keys[i], keys[j])
  }

  /** The keys of a table in increasing order, each once. */
  ghost predicate IsSortedListing(keys: seq<string>, of: set<string>) {
    Sorted(keys) && forall k :: k in keys <==> k in of
  }

  /** Only one listing is sorted. */
  lemma {:induction false} SortedListingIsUnique(a: seq<string>, b: seq<string>, of: set<string>)
    requires IsSortedListing(a, of) && IsSortedListing(b, of)
    ensures a == b
    decreases |a|
  {
    assert b != [] ==> b[0] in b;
    if a != [] {
      assert a[0] in of;
      var j :| 0 <= j < |b| && b[j] == a[0];
      assert b[0] in of;
      var i :| 0 <= i < |a| && a[i] == b[0];
      LessTotal(a[0], b[0]);
      assert a[0] == b[0];
      FirstIsLeft(a, of);
      FirstIsLeft(b, of);
      SortedListingIsUnique(a[1..], b[1..], of - {a[0]});
      assert a == [a[0]] + a[1..] && b == [b[0]] + b[1..];
    }
  }

  lemma FirstIsLeft(keys: seq<string>, of: set<string>)
    requires IsSortedListing(keys, of) && keys != []
    ensures IsSortedListing(keys[1..], of - {keys[0]})
  {
    forall k ensures k in keys[1..] <==> k in of - {keys[0]} {
      LessTotal(keys[0], keys[0]);
      if k in keys[1..] {
        var i :| 0 <= i < |keys| - 1 && keys[1..][i] == k;
        assert keys[i + 1] == k && Less(keys[0], k);
        assert k in keys;
      }
    }
  }

  /** Where `k` goes in a sorted listing. */
  method Position(keys: seq<string>, k: string) returns (n: nat)
    requires Sorted(keys) && k !in keys
    ensures n <= |keys|
    ensures forall i :: 0 <= i < n ==> Less(keys[i], k)
    ensures forall i :: n <= i < |keys| ==> Less(k, keys[i])
  {
    n := 0;
    while n < |keys| && Less(keys[n], k)
      invariant n <= |keys|
      invariant forall i :: 0 <= i < n ==> Less(keys[i], k)
    {
      n := n + 1;
    }
    if n < |keys| {
      LessTotal(keys[n], k);
      forall i | n <= i < |keys| ensures Less(k, keys[i]) {
        if n < i {
          LessTransitive(k, keys[n], keys[i]);
        }
      }
    }
  }

  method SortedKeys(of: set<string>) returns (keys: seq<string>)
    ensures IsSortedListing(keys, of)
  {
    keys := [];
    var rest := of;
    while rest != {}
      invariant rest <= of && IsSortedListing(keys, of - rest)
      decreases |rest|
    {
      var k :| k in rest;
      var n := Position(keys, k);
      var next := keys[..n] + [k] + keys[n..];
      InsertSorted(keys, n, k, of - rest);
      rest := rest - {k};
      keys := next;
      assert of - rest == (of - (rest + {k})) + {k};
    }
    assert of - {} == of;
  }

  lemma InsertSorted(keys: seq<string>, n: nat, k: string, of: set<string>)
    requires IsSortedListing(keys, of) && n <= |keys| && k !in of
    requires forall i :: 0 <= i < n ==> Less(keys[i], k)
    requires forall i :: n <= i < |keys| ==> Less(k, keys[i])
    ensures IsSortedListing(keys[..n] + [k] + keys[n..], of + {k})
  {
    var next := keys[..n] + [k] + keys[n..];
    forall i, j | 0 <= i < j < |next| ensures Less(next[i], next[j]) {
      assert i < n ==> next[i] == keys[i];
      assert i > n ==> next[i] == keys[i - 1];
      assert j < n ==> next[j] == keys[j];
      assert j > n ==> next[j] == keys[j - 1];
    }
    forall x ensures x in next <==> x in of + {k} {
      if x in of {
        var i :| 0 <= i < |keys| && keys[i] == x;
        assert if i < n then next[i] == x else next[i + 1] == x;
      }
      assert next[n] == k;
    }
  }

  // -------------------------------------------------------------- joined keys

  /** A key of two parts around a separator that the parts may hold themselves. */
  function Join(s: string, sep: char, rest: string): string {
    s + [sep] + rest
  }

  /** One first part, with the separator, starts the other. */
  predicate Overlap(s: string, t: string, sep: char) {
    s + [sep] <= t + [sep] || t + [sep] <= s + [sep]
  }

  lemma JoinedOverlaps(s: string, a: string, t: string, b: string, sep: char)
    requires Join(s, sep, a) == Join(t, sep, b)
    ensures Overlap(s, t, sep)
  {
    var key := Join(s, sep, a);
    assert s + [sep] == key[..|s| + 1] && t + [sep] == key[..|t| + 1];
  }

  lemma OverlapJoins(s: string, t: string, sep: char) returns (a: string, b: string)
    requires t + [sep] <= s + [sep]
    ensures Join(s, sep, a) == Join(t, sep, b)
  {
    a, b := "", (s + [sep])[|t| + 1..];
    assert s + [sep] == (t + [sep]) + b;
  }

  /** Two first parts can end up in the same key exactly when they overlap. */
  lemma JoinedIff(s: string, t: string, sep: char)
    ensures (exists a, b :: Join(s, sep, a) == Join(t, sep, b)) <==> Overlap(s, t, sep)
  {
    if a, b :| Join(s, sep, a) == Join(t, sep, b) {
      JoinedOverlaps(s, a, t, b, sep);
    }
    if t + [sep] <= s + [sep] {
      var a, b := OverlapJoins(s, t, sep);
    } else if s + [sep] <= t + [sep] {
      var b, a := OverlapJoins(t, s, sep);
    }
  }

  lemma ShorterIsNoPrefix(s: string, t: string, sep: char)
    requires sep !in t && |s| < |t|
    ensures !(s + [sep] <= t + [sep])
  {
    assert (s + [sep])[|s|] == sep && (t + [sep])[|s|] == t[|s|];
  }

  /** First parts without the separator overlap only when they are the same, and then the keys tell the rest. */
  lemma JoinedApart(s: string, a: string, t: string, b: string, sep: char)
    requires sep !in s && sep !in t
    ensures Join(s, sep, a) == Join(t, sep, b) <==> s == t && a == b
  {
    if Join(s, sep, a) == Join(t, sep, b) {
      JoinedOverlaps(s, a, t, b, sep);
      SameLength(s, t, sep);
      assert s == Join(s, sep, a)[..|s|] && t == Join(t, sep, b)[..|t|];
      assert a == Join(s, sep, a)[|s| + 1..] && b == Join(t, sep, b)[|t| + 1..];
    }
  }

  lemma SameLength(s: string, t: string, sep: char)
    requires sep !in s && sep !in t && Overlap(s, t, sep)
    ensures |s| == |t|
  {
    if |s| < |t| {
      ShorterIsNoPrefix(s, t, sep);
    } else if |t| < |s| {
      ShorterIsNoPrefix(t, s, sep);
    }
  }
}
