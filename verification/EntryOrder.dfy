/**
 The order of status entries: by path, and staged before unstaged where one path has both. Paths
 compare character by character, a prefix before what it is a prefix of.

 Inserting an entry behind those that are not greater gives the stable sort of the standard
 library. `ChangeEvidence` says what the sort promises; here is what one insertion does, when a
 sorted list is the only one of its entries, and how two entries of one key change places.
 */
module EntryOrder {

  datatype Entry = Entry(path: string, state: string, staged: bool)

  // ---- The key ----

  predicate PathLeq(a: string, b: string) {
    if a == "" then true
    else if b == "" then false
    else a[0] < b[0] || (a[0] == b[0] && PathLeq(a[1..], b[1..]))
  }

  /** By path; of two entries for one path the staged one comes first. */
  predicate EntryLeq(a: Entry, b: Entry) {
    if a.path == b.path then b.staged ==> a.staged else PathLeq(a.path, b.path)
  }

  predicate SameKey(a: Entry, b: Entry) {
    a.path == b.path && a.staged == b.staged
  }

  lemma {:induction false} PathLeqAntisymmetric(a: string, b: string)
    requires PathLeq(a, b) && PathLeq(b, a)
    ensures a == b
  {
    if a != "" && b != "" {
      PathLeqAntisymmetric(a[1..], b[1..]);
      assert a == [a[0]] + a[1..] && b == [b[0]] + b[1..];
    }
  }

  lemma {:induction false} PathLeqTransitive(a: string, b: string, c: string)
    requires PathLeq(a, b) && PathLeq(b, c)
    ensures PathLeq(a, c)
  {
    if a != "" && a[0] == b[0] == c[0] {
      PathLeqTransitive(a[1..], b[1..], c[1..]);
    }
  }

  lemma {:induction false} PathLeqTotal(a: string, b: string)
    ensures PathLeq(a, b) || PathLeq(b, a)
  {
    if a != "" && b != "" && a[0] == b[0] {
      PathLeqTotal(a[1..], b[1..]);
    }
  }

  lemma EntryLeqTransitive(a: Entry, b: Entry, c: Entry)
    requires EntryLeq(a, b) && EntryLeq(b, c)
    ensures EntryLeq(a, c)
  {
    if a.path != b.path && b.path != c.path {
      PathLeqTransitive(a.path, b.path, c.path);
      if a.path == c.path {
        PathLeqAntisymmetric(a.path, b.path);
      }
    }
  }

  lemma EntryLeqTotal(a: Entry, b: Entry)
    ensures EntryLeq(a, b) || EntryLeq(b, a)
    ensures EntryLeq(a, b) && EntryLeq(b, a) ==> SameKey(a, b)
  {
    PathLeqTotal(a.path, b.path);
    if a.path != b.path && PathLeq(a.path, b.path) && PathLeq(b.path, a.path) {
      PathLeqAntisymmetric(a.path, b.path);
    }
  }

  // ---- Insertion ----

  ghost predicate Sorted(s: seq<Entry>) {
    forall i, j | 0 <= i < j < |s| :: EntryLeq(s[i], s[j])
  }

  /** Inserts behind every entry that does not sort after `e`. */
  function Insert(sorted: seq<Entry>, e: Entry): seq<Entry> {
    if sorted == [] then [e]
    else
      var last := sorted[|sorted| - 1];
      if EntryLeq(last, e) then sorted + [e] else Insert(sorted[..|sorted| - 1], e) + [last]
  }

  function Sort(entries: seq<Entry>): seq<Entry> {
    if entries == [] then [] else Insert(Sort(entries[..|entries| - 1]), entries[|entries| - 1])
  }

  lemma {:induction false} InsertKeepsElements(sorted: seq<Entry>, e: Entry)
    ensures multiset(Insert(sorted, e)) == multiset(sorted) + multiset{e}
  {
    if sorted != [] {
      InsertKeepsElements(sorted[..|sorted| - 1], e);
      assert sorted == sorted[..|sorted| - 1] + [sorted[|sorted| - 1]];
    }
  }

  lemma {:induction false} InsertSorted(sorted: seq<Entry>, e: Entry)
    requires Sorted(sorted)
    ensures Sorted(Insert(sorted, e))
  {
    if sorted != [] {
      var front, last := sorted[..|sorted| - 1], sorted[|sorted| - 1];
      if EntryLeq(last, e) {
        forall i | 0 <= i < |sorted|
          ensures EntryLeq(sorted[i], e)
        {
          if i < |front| {
            EntryLeqTransitive(sorted[i], last, e);
          }
        }
      } else {
        EntryLeqTotal(last, e);
        InsertSorted(front, e);
        InsertKeepsElements(front, e);
        var inserted := Insert(front, e);
        forall i | 0 <= i < |inserted|
          ensures EntryLeq(inserted[i], last)
        {
          assert inserted[i] in multiset(inserted);
          if inserted[i] != e {
            assert inserted[i] in front;
          }
        }
      }
    }
  }

  /** Entries are told apart by their key. */
  ghost predicate KeysIdentify(entries: seq<Entry>) {
    forall a, b | a in entries && b in entries && SameKey(a, b) :: a == b
  }

  lemma {:induction false} SortedIsUnique(s: seq<Entry>, t: seq<Entry>)
    requires Sorted(s) && Sorted(t) && multiset(s) == multiset(t) && KeysIdentify(s)
    ensures s == t
    decreases |s|
  {
    if s == [] {
      assert |multiset(t)| == |t|;
    } else {
      SameLast(s, t);
      var last := s[|s| - 1];
      var front, front' := s[..|s| - 1], t[..|t| - 1];
      assert s == front + [last] && t == front' + [last];
      FrontsAgree(front, front', last);
      SortedIsUnique(front, front');
    }
  }

  lemma FrontsAgree(s: seq<Entry>, t: seq<Entry>, last: Entry)
    requires multiset(s + [last]) == multiset(t + [last])
    ensures multiset(s) == multiset(t)
  {
    assert multiset(s) == multiset(s + [last]) - multiset{last};
    assert multiset(t) == multiset(t + [last]) - multiset{last};
  }

  lemma SameMembers(s: seq<Entry>, t: seq<Entry>, e: Entry)
    requires multiset(s) == multiset(t) && e in s
    ensures e in t
  {
    assert e in multiset(t);
  }

  lemma SameLast(s: seq<Entry>, t: seq<Entry>)
    requires Sorted(s) && Sorted(t) && multiset(s) == multiset(t) && KeysIdentify(s) && s != []
    ensures t != [] && s[|s| - 1] == t[|t| - 1]
  {
    SameMembers(s, t, s[|s| - 1]);
    SameMembers(t, s, t[|t| - 1]);
    LastIsGreatest(s, t[|t| - 1]);
    LastIsGreatest(t, s[|s| - 1]);
    EntryLeqTotal(s[|s| - 1], t[|t| - 1]);
  }

  lemma LastIsGreatest(s: seq<Entry>, e: Entry)
    requires Sorted(s) && e in s
    ensures EntryLeq(e, s[|s| - 1])
  {
    EntryLeqTotal(e, e);
  }

  function WithKey(entries: seq<Entry>, key: Entry): seq<Entry> {
    if entries == [] then []
    else
      var last := entries[|entries| - 1];
      WithKey(entries[..|entries| - 1], key) + (if SameKey(last, key) then [last] else [])
  }

  lemma WithKeyAppend(entries: seq<Entry>, last: Entry, key: Entry)
    ensures SameKey(last, key) ==> WithKey(entries + [last], key) == WithKey(entries, key) + [last]
    ensures !SameKey(last, key) ==> WithKey(entries + [last], key) == WithKey(entries, key)
  {
    assert (entries + [last])[..|entries|] == entries;
  }

  lemma {:induction false} InsertIsStable(sorted: seq<Entry>, e: Entry, key: Entry)
    requires Sorted(sorted)
    ensures WithKey(Insert(sorted, e), key) == WithKey(sorted + [e], key)
  {
    if sorted == [] {
      assert [] + [e] == [e];
    } else {
      var front, last := sorted[..|sorted| - 1], sorted[|sorted| - 1];
      if !EntryLeq(last, e) {
        assert !SameKey(last, e);
        InsertIsStable(front, e, key);
        WithKeyAppend(Insert(front, e), last, key);
        WithKeyAppend(front, e, key);
        WithKeyAppend(front, last, key);
        WithKeyAppend(sorted, e, key);
        assert sorted == front + [last];
      }
    }
  }

  // ---- Two orders of the same entries ----

  /** A key is all that `WithKey` looks at. */
  lemma {:induction false} WithKeySame(entries: seq<Entry>, a: Entry, b: Entry)
    requires SameKey(a, b)
    ensures WithKey(entries, a) == WithKey(entries, b)
  {
    if entries != [] {
      WithKeySame(entries[..|entries| - 1], a, b);
    }
  }

  lemma {:induction false} FirstWithKey(entries: seq<Entry>, a: Entry)
    requires entries != [] && entries[0] == a
    ensures WithKey(entries, a) != [] && WithKey(entries, a)[0] == a
  {
    var k := |entries| - 1;
    if k > 0 {
      FirstWithKey(entries[..k], a);
    } else {
      assert WithKey(entries[..0], a) == [];
    }
  }

  lemma SwapKeepsElements(a: Entry, b: Entry, rest: seq<Entry>)
    ensures multiset([a, b] + rest) == multiset([b, a] + rest)
  {
    assert multiset([a, b] + rest) == multiset{a, b} + multiset(rest);
    assert multiset([b, a] + rest) == multiset{b, a} + multiset(rest);
  }

  lemma Without(s: seq<Entry>, a: Entry) returns (rest: seq<Entry>)
    requires a in s
    ensures multiset([a] + rest) == multiset(s)
    ensures forall b | b in s && b != a :: b in rest
  {
    var i :| 0 <= i < |s| && s[i] == a;
    rest := s[..i] + s[i + 1..];
    assert s == s[..i] + [a] + s[i + 1..];
    forall b | b in s && b != a
      ensures b in rest
    {
      var j :| 0 <= j < |s| && s[j] == b;
      assert if j < i then rest[j] == b else rest[j - 1] == b;
    }
  }

  lemma PutBack(s: seq<Entry>, most: seq<Entry>, rest: seq<Entry>, a: Entry, b: Entry)
    requires multiset([a] + most) == multiset(s) && multiset([b] + rest) == multiset(most)
    ensures multiset([a, b] + rest) == multiset(s)
  {
    assert [a, b] + rest == [a] + ([b] + rest);
    assert multiset([a] + ([b] + rest)) == multiset{a} + multiset([b] + rest);
    assert multiset([a] + most) == multiset{a} + multiset(most);
  }
}
