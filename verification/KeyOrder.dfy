/** The order in which Qt keeps its sorted maps: strings by code unit, devices by id and
    then by sensor. */
module KeyOrder {

  predicate Less(a: string, b: string) {
    if b == "" then false
    else if a == "" then true
    else if a[0] != b[0] then a[0] < b[0]
    else Less(a[1..], b[1..])
  }

  lemma {:induction false} LessTotal(a: string, b: string)
    ensures a == b || Less(a, b) || Less(b, a)
    ensures !(Less(a, b) && Less(b, a)) && !Less(a, a)
  {
    if a != "" && b != "" {
      LessTotal(a[1..], b[1..]);
      assert a == [a[0]] + a[1..] && b == [b[0]] + b[1..];
    }
    if a != "" { LessTotal(a[1..], a[1..]); }
  }

  /** `a` comes before `b` at their first difference, which may be the end of `a`. */
  ghost predicate DiffersBefore(a: string, b: string, n: nat) {
    n <= |a| && n < |b| && a[..n] == b[..n] && (n == |a| || a[n] < b[n])
  }

  lemma SameFirst(a: string, b: string, n: nat)
    ensures DiffersBefore(a, b, n) && n > 0 ==> a != "" && b != "" && a[0] == b[0]
  {
    if DiffersBefore(a, b, n) && n > 0 { assert a[..n][0] == b[..n][0]; }
  }

  lemma {:induction false} LessAtFirstDifference(a: string, b: string)
    ensures Less(a, b) <==> exists n :: DiffersBefore(a, b, n)
  {
    if a != "" && b != "" && a[0] == b[0] {
      LessAtFirstDifference(a[1..], b[1..]);
      if n: nat :| DiffersBefore(a[1..], b[1..], n) {
        assert a[..n + 1] == [a[0]] + a[1..][..n] && b[..n + 1] == [b[0]] + b[1..][..n];
        assert DiffersBefore(a, b, n + 1);
      }
      if n: nat :| DiffersBefore(a, b, n) {
        assert n > 0;
        assert a[1..][..n - 1] == a[..n][1..] && b[1..][..n - 1] == b[..n][1..];
        assert DiffersBefore(a[1..], b[1..], n - 1);
      }
    } else if Less(a, b) {
      assert DiffersBefore(a, b, 0);
    } else if n: nat :| DiffersBefore(a, b, n) {
      SameFirst(a, b, n);
    }
  }

  lemma {:induction false} LessTransitive(a: string, b: string, c: string)
    requires Less(a, b) && Less(b, c)
    ensures Less(a, c)
  {
    if a != "" && b[0] == a[0] && c[0] == b[0] { LessTransitive(a[1..], b[1..], c[1..]); }
  }

  ghost predicate IsLeast(k: string, keys: set<string>) {
    k in keys && forall j | j in keys :: j == k || Less(k, j)
  }

  lemma {:induction false} LeastExists(keys: set<string>) returns (k: string)
    requires keys != {}
    ensures IsLeast(k, keys)
  {
    k :| k in keys;
    var rest := keys - {k};
    assert forall j | j in keys :: j == k || j in rest;
    if rest != {} {
      var m := LeastExists(rest);
      LessTotal(m, k);
      if Less(m, k) {
        forall j | j in keys ensures j == m || Less(m, j) { assert j == k || j in rest; }
        k := m;
      } else {
        forall j | j in keys ensures j == k || Less(k, j) {
          assert j == k || j in rest;
          if j != k && j != m { LessTransitive(k, m, j); }
        }
      }
    }
  }

  ghost predicate Asymmetric<T(!new)>(less: (T, T) -> bool) {
    forall a, b :: (a == b || less(a, b) || less(b, a)) && !(less(a, b) && less(b, a))
  }

  ghost predicate Ascending<T>(less: (T, T) -> bool, s: seq<T>) {
    forall i, j | 0 <= i < j < |s| :: less(s[i], s[j])
  }

  lemma StringsAsymmetric()
    ensures Asymmetric(Less)
  {
    forall a, b ensures (a == b || Less(a, b) || Less(b, a)) && !(Less(a, b) && Less(b, a)) { LessTotal(a, b); }
  }

  ghost predicate Lists(s: seq<string>, keys: set<string>) {
    Ascending(Less, s) && forall k :: k in s <==> k in keys
  }

  lemma {:induction false} OrderExists(keys: set<string>) returns (s: seq<string>)
    ensures Lists(s, keys)
  {
    if keys == {} {
      s := [];
    } else {
      var k := LeastExists(keys);
      var rest := OrderExists(keys - {k});
      s := [k] + rest;
    }
  }

  /** The keys of a sorted map, in iteration order. */
  ghost function SortedKeys(keys: set<string>): (r: seq<string>)
    ensures Lists(r, keys)
  {
    assert exists s :: Lists(s, keys) by { var s := OrderExists(keys); }
    var r :| Lists(r, keys);
    r
  }

  /** There is only one way to put a set of keys in order. */
  lemma {:induction false} AscendingUnique<T(!new)>(less: (T, T) -> bool, a: seq<T>, b: seq<T>)
    requires Asymmetric(less) && Ascending(less, a) && Ascending(less, b)
    requires forall k :: k in a <==> k in b
    ensures a == b
  {
    assert a != [] ==> a[0] in b;
    assert b != [] ==> b[0] in a;
    if a != [] && b != [] {
      assert a[0] == b[0];
      forall k ensures k in a[1..] <==> k in b[1..] { TailMembers(less, a, k); TailMembers(less, b, k); }
      AscendingUnique(less, a[1..], b[1..]);
    }
  }

  lemma TailMembers<T(!new)>(less: (T, T) -> bool, a: seq<T>, k: T)
    requires Asymmetric(less) && a != [] && Ascending(less, a)
    ensures k in a[1..] <==> k in a && k != a[0]
  {
    forall i | 1 <= i < |a| ensures a[i] != a[0] { assert less(a[0], a[i]); }
    assert a == [a[0]] + a[1..];
  }

  /** Putting one more key into an ordered list, as a map insertion does. */
  method InsertKey(s: seq<string>, key: string) returns (r: seq<string>)
    requires Ascending(Less, s) && key !in s
    ensures Ascending(Less, r) && forall k :: k in r <==> k in s || k == key
  {
    var i := 0;
    while i < |s| && Less(s[i], key)
      invariant 0 <= i <= |s|
      invariant forall j | 0 <= j < i :: Less(s[j], key)
    {
      i := i + 1;
    }
    forall j | i <= j < |s| ensures Less(key, s[j]) {
      LessTotal(s[i], key);
      if j > i { LessTransitive(key, s[i], s[j]); }
    }
    r := s[..i] + [key] + s[i..];
    forall k ensures k in r <==> k in s || k == key { assert s == s[..i] + s[i..]; }
  }

  /** Walks a sorted map: its keys in ascending order. */
  method KeysInOrder(keys: set<string>) returns (r: seq<string>)
    ensures r == SortedKeys(keys)
  {
    var todo := keys;
    r := [];
    while todo != {}
      invariant todo <= keys && Ascending(Less, r)
      invariant forall k :: k in r <==> k in keys - todo
      decreases |todo|
    {
      var k :| k in todo;
      todo := todo - {k};
      r := InsertKey(r, k);
    }
    StringsAsymmetric();
    AscendingUnique(Less, r, SortedKeys(keys));
  }
}
