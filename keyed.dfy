/** The client keeps todo lists and todo items as arrays of records, each
    record carrying a service-assigned identifier. Every cache update in the
    stores and composables is one of four array idioms keyed by that
    identifier; this module defines each once, generically over the record
    type `T` and its identifier projection `key`, and proves what they keep.

    The four idioms and the JavaScript they stand for:
      FindIndex        s.findIndex(x => x.id === id)     (first match, or -1)
      Find             s.find(x => x.id === id)          (first match, or undefined)
      ReplaceFirst     i = s.findIndex(...); if (i !== -1) s[i] = x
      RemoveAll        s.filter(x => x.id !== id)        (every match)
    plus the guarded front insertion `if (!s.find(...)) s.unshift(x)`. */
module Keyed {
  import opened Common

  /** Some entry of `s` carries identifier `id`. */
  ghost predicate HasId<T>(s: seq<T>, key: T -> Id, id: Id) {
    exists i :: 0 <= i < |s| && key(s[i]) == id
  }

  /** No two entries of `s` carry the same identifier. */
  ghost predicate UniqueIds<T>(s: seq<T>, key: T -> Id) {
    forall i, j :: 0 <= i < j < |s| ==> key(s[i]) != key(s[j])
  }

  /** `s` and `t` carry the same identifiers at the same positions. */
  ghost predicate SameIds<T>(s: seq<T>, t: seq<T>, key: T -> Id) {
    |s| == |t| && forall j :: 0 <= j < |s| ==> key(s[j]) == key(t[j])
  }

  /** The first position of `s` holding `id`, or -1 when there is none. */
  function FindIndex<T>(s: seq<T>, key: T -> Id, id: Id): (r: int)
    ensures -1 <= r < |s|
    ensures r == -1 <==> !HasId(s, key, id)
    ensures r != -1 ==> key(s[r]) == id && forall j :: 0 <= j < r ==> key(s[j]) != id
    decreases |s|
  {
    if s == [] then -1
    else if key(s[0]) == id then 0
    else
      var k := FindIndex(s[1..], key, id);
      assert forall j :: 1 <= j < |s| ==> s[j] == s[1..][j - 1];
      if k == -1 then -1 else k + 1
  }

  /** The first entry of `s` holding `id`, if any. */
  function Find<T>(s: seq<T>, key: T -> Id, id: Id): (r: Option<T>)
    ensures r.Some? <==> HasId(s, key, id)
    ensures r.Some? ==> r.value in s && key(r.value) == id
    ensures r.Some? ==> r.value == s[FindIndex(s, key, id)]
  {
    var i := FindIndex(s, key, id);
    if i == -1 then None else Some(s[i])
  }

  /** Insert `x` at the front unless an entry with its identifier is
      already present. */
  function PrependIfAbsent<T>(s: seq<T>, key: T -> Id, x: T): (r: seq<T>)
    ensures HasId(s, key, key(x)) ==> r == s
    ensures !HasId(s, key, key(x)) ==> r == [x] + s
    ensures HasId(r, key, key(x))
    ensures UniqueIds(s, key) ==> UniqueIds(r, key)
  {
    if Find(s, key, key(x)).Some? then s
    else
      assert ([x] + s)[0] == x;
      [x] + s
  }

  /** Overwrite the first entry holding `id` with `x`; leave `s` alone when
      no entry holds `id`. */
  function ReplaceFirst<T>(s: seq<T>, key: T -> Id, id: Id, x: T): (r: seq<T>)
    ensures |r| == |s|
    ensures !HasId(s, key, id) ==> r == s
    ensures HasId(s, key, id) ==> r[FindIndex(s, key, id)] == x
    ensures forall j :: 0 <= j < |s| && j != FindIndex(s, key, id) ==> r[j] == s[j]
  {
    var i := FindIndex(s, key, id);
    if i == -1 then s else s[i := x]
  }

  /** Drop every entry holding `id`, keeping the rest in order. */
  function RemoveAll<T>(s: seq<T>, key: T -> Id, id: Id): (r: seq<T>)
    ensures |r| <= |s|
    ensures !HasId(r, key, id)
    ensures forall j :: 0 <= j < |r| ==> r[j] in s
    ensures forall j :: 0 <= j < |s| && key(s[j]) != id ==> s[j] in r
    decreases |s|
  {
    if s == [] then []
    else
      var rest := RemoveAll(s[1..], key, id);
      assert forall j :: 1 <= j < |s| ==> s[j] == s[1..][j - 1];
      if key(s[0]) == id then rest
      else
        assert forall j :: 1 <= j <= |rest| ==> ([s[0]] + rest)[j] == rest[j - 1];
        [s[0]] + rest
  }

  /** Two sequences with the same identifiers position by position have the
      same first match for every identifier. */
  lemma FindIndexSameIds<T>(s: seq<T>, t: seq<T>, key: T -> Id, id: Id)
    requires SameIds(s, t, key)
    ensures FindIndex(s, key, id) == FindIndex(t, key, id)
  {
  }

  /** Filtering distributes over concatenation. */
  lemma {:induction false} RemoveAllAppend<T>(a: seq<T>, b: seq<T>, key: T -> Id, id: Id)
    ensures RemoveAll(a + b, key, id) == RemoveAll(a, key, id) + RemoveAll(b, key, id)
    decreases |a|
  {
    if a == [] {
      assert a + b == b;
    } else {
      assert (a + b)[0] == a[0];
      assert (a + b)[1..] == a[1..] + b;
      RemoveAllAppend(a[1..], b, key, id);
    }
  }

  /** An entry with another identifier survives removal in place: it stays
      after the survivors of what preceded it and before the survivors of
      what followed it. */
  lemma RemoveAllKeepsOrder<T>(a: seq<T>, x: T, b: seq<T>, key: T -> Id, id: Id)
    requires key(x) != id
    ensures RemoveAll(a + [x] + b, key, id) == RemoveAll(a, key, id) + [x] + RemoveAll(b, key, id)
  {
    RemoveAllAppend(a + [x], b, key, id);
    RemoveAllAppend(a, [x], key, id);
    assert RemoveAll([x], key, id) == [x] by {
      assert [x][1..] == [];
    }
  }

  /** Removing an identifier that no entry holds changes nothing. */
  lemma {:induction false} RemoveAllAbsent<T>(s: seq<T>, key: T -> Id, id: Id)
    requires !HasId(s, key, id)
    ensures RemoveAll(s, key, id) == s
    decreases |s|
  {
    if s != [] {
      assert key(s[0]) != id;
      assert !HasId(s[1..], key, id) by {
        forall j | 0 <= j < |s[1..]| ensures key(s[1..][j]) != id {
          assert s[1..][j] == s[j + 1];
        }
      }
      RemoveAllAbsent(s[1..], key, id);
      assert s == [s[0]] + s[1..];
    }
  }

  /** Removing the same identifier twice is removing it once. */
  lemma RemoveAllIdempotent<T>(s: seq<T>, key: T -> Id, id: Id)
    ensures RemoveAll(RemoveAll(s, key, id), key, id) == RemoveAll(s, key, id)
  {
    RemoveAllAbsent(RemoveAll(s, key, id), key, id);
  }

  /** Entries with other identifiers keep their multiplicity. */
  lemma {:induction false} RemoveAllCounts<T>(s: seq<T>, key: T -> Id, id: Id, x: T)
    ensures multiset(RemoveAll(s, key, id))[x] == if key(x) == id then 0 else multiset(s)[x]
    decreases |s|
  {
    if s != [] {
      RemoveAllCounts(s[1..], key, id, x);
      assert s == [s[0]] + s[1..];
      assert multiset(s) == multiset{s[0]} + multiset(s[1..]);
    }
  }

  /** Removal never introduces a duplicate identifier. */
  lemma {:induction false} RemoveAllUnique<T>(s: seq<T>, key: T -> Id, id: Id)
    requires UniqueIds(s, key)
    ensures UniqueIds(RemoveAll(s, key, id), key)
    decreases |s|
  {
    if s != [] {
      var rest := RemoveAll(s[1..], key, id);
      assert UniqueIds(s[1..], key) by {
        forall i, j | 0 <= i < j < |s[1..]| ensures key(s[1..][i]) != key(s[1..][j]) {
          assert s[1..][i] == s[i + 1] && s[1..][j] == s[j + 1];
        }
      }
      RemoveAllUnique(s[1..], key, id);
      if key(s[0]) != id {
        var r := [s[0]] + rest;
        forall i, j | 0 <= i < j < |r| ensures key(r[i]) != key(r[j]) {
          if i == 0 {
            assert r[j] == rest[j - 1] && rest[j - 1] in s[1..];
            var k :| 0 <= k < |s[1..]| && s[1..][k] == rest[j - 1];
            assert s[1..][k] == s[k + 1];
          } else {
            assert r[i] == rest[i - 1] && r[j] == rest[j - 1];
          }
        }
      }
    }
  }

  /** Writing the same record over the same identifier twice is writing it
      once, provided the record carries that identifier. */
  lemma ReplaceFirstIdempotent<T>(s: seq<T>, key: T -> Id, id: Id, x: T)
    requires key(x) == id
    ensures ReplaceFirst(ReplaceFirst(s, key, id, x), key, id, x) == ReplaceFirst(s, key, id, x)
  {
    var r := ReplaceFirst(s, key, id, x);
    FindIndexSameIds(s, r, key, id);
  }

  /** Replacing a record by one with the same identifier keeps identifiers
      unique. */
  lemma ReplaceFirstUnique<T>(s: seq<T>, key: T -> Id, id: Id, x: T)
    requires key(x) == id
    requires UniqueIds(s, key)
    ensures SameIds(s, ReplaceFirst(s, key, id, x), key)
    ensures UniqueIds(ReplaceFirst(s, key, id, x), key)
  {
  }
}
