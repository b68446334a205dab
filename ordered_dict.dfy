/** Python's insertion-ordered dict, as a sequence of key/value entries. */
module OrderedDict {

  function Keys<K, V>(m: seq<(K, V)>): seq<K> {
    seq(|m|, i requires 0 <= i < |m| => m[i].0)
  }

  /** No key occurs twice. */
  predicate DistinctKeys<K(==), V>(m: seq<(K, V)>) {
    forall i, j :: 0 <= i < j < |m| ==> m[i].0 != m[j].0
  }

  /** The position of key k in m, or |m| where it is absent. */
  function Find<K(==), V>(m: seq<(K, V)>, k: K): (i: nat)
    ensures i <= |m|
    ensures i < |m| ==> m[i].0 == k
    ensures forall j :: 0 <= j < i ==> m[j].0 != k
  {
    if m == [] then 0 else if m[0].0 == k then 0 else 1 + Find(m[1..], k)
  }

  /** The assignment m[k] = v: a key already present keeps its position and takes
      the new value; a new key goes at the end. */
  function Assign<K(==), V>(m: seq<(K, V)>, k: K, v: V): (r: seq<(K, V)>)
    ensures Keys(r) == if k in Keys(m) then Keys(m) else Keys(m) + [k]
    ensures (k, v) in r
    ensures forall i :: 0 <= i < |m| && m[i].0 != k ==> r[i] == m[i]
    ensures DistinctKeys(m) ==> DistinctKeys(r)
  {
    var i := Find(m, k);
    if i < |m| then
      assert Keys(m)[i] == k;
      assert Keys(m[i := (k, v)]) == Keys(m);
      m[i := (k, v)]
    else
      assert k !in Keys(m);
      assert Keys(m + [(k, v)]) == Keys(m) + [k];
      m + [(k, v)]
  }

  /** Assigning a key that is not present appends one entry. */
  lemma AssignNewKey<K, V>(m: seq<(K, V)>, k: K, v: V)
    requires k !in Keys(m)
    ensures Assign(m, k, v) == m + [(k, v)]
  {
    assert forall j :: 0 <= j < |m| ==> Keys(m)[j] == m[j].0;
  }

  /** The keys of a dict filled by assigning the keys of s in turn: each key once,
      in the order of its first occurrence. */
  function Dedup<T(==)>(s: seq<T>): (r: seq<T>)
    ensures forall i :: 0 <= i < |s| ==> s[i] in r
    ensures forall i :: 0 <= i < |r| ==> r[i] in s
    ensures forall i, j :: 0 <= i < j < |r| ==> r[i] != r[j]
  {
    if s == [] then []
    else
      var init := s[..|s| - 1];
      assert s == init + [s[|s| - 1]];
      var d := Dedup(init);
      if s[|s| - 1] in init then d else d + [s[|s| - 1]]
  }

  /** The position of the first x in s, or |s| where x is absent. */
  function FirstIndex<T(==)>(s: seq<T>, x: T): (i: nat)
    ensures i <= |s|
    ensures i < |s| <==> x in s
    ensures i < |s| ==> s[i] == x
    ensures forall j :: 0 <= j < i ==> s[j] != x
  {
    if s == [] then 0
    else if s[0] == x then 0
    else 1 + FirstIndex(s[1..], x)
  }

  /** Appending to s does not move the first position of an element of s. */
  lemma FirstIndexSnoc<T>(s: seq<T>, x: T, y: T)
    requires y in s
    ensures FirstIndex(s + [x], y) == FirstIndex(s, y)
  {
    var i := FirstIndex(s, y);
    var k := FirstIndex(s + [x], y);
    assert (s + [x])[i] == y;
    assert k <= i;
    assert s[k] == (s + [x])[k];
  }

  /** The keys come in the order of their first assignment. */
  lemma {:induction false} DedupFirstOrder<T>(s: seq<T>)
    ensures forall i, j :: 0 <= i < j < |Dedup(s)| ==> FirstIndex(s, Dedup(s)[i]) < FirstIndex(s, Dedup(s)[j])
  {
    if s != [] {
      var init, x := s[..|s| - 1], s[|s| - 1];
      assert s == init + [x];
      DedupFirstOrder(init);
      var d := Dedup(init);
      forall y | y in init
        ensures FirstIndex(s, y) == FirstIndex(init, y) < |init|
      {
        FirstIndexSnoc(init, x, y);
      }
      if x !in init {
        assert FirstIndex(s, x) == |init|;
      }
    }
  }

  /** Dedup keeps exactly the elements of s. */
  lemma DedupHas<T>(s: seq<T>, x: T)
    ensures x in Dedup(s) <==> x in s
  {
    if x in s {
      var i :| 0 <= i < |s| && s[i] == x;
    }
    if x in Dedup(s) {
      var i :| 0 <= i < |Dedup(s)| && Dedup(s)[i] == x;
    }
  }

  /** Assigning one key leaves the entries of all other keys in the dict. */
  lemma AssignKeepsOthers<K, V>(m: seq<(K, V)>, k: K, v: V, e: (K, V))
    requires e in m && e.0 != k
    ensures e in Assign(m, k, v)
  {
    var i :| 0 <= i < |m| && m[i] == e;
    assert Assign(m, k, v)[i] == e;
  }

  lemma KeysSnoc<K, V>(entries: seq<(K, V)>, n: nat)
    requires n < |entries|
    ensures Keys(entries[..n + 1]) == Keys(entries[..n]) + [entries[n].0]
  {
    assert Keys(entries[..n + 1])[..n] == Keys(entries[..n]);
  }

  /** Entry j is the last one with its key among the first n entries. */
  predicate LastOfKey<K(==), V>(entries: seq<(K, V)>, j: nat, n: nat)
    requires j < n <= |entries|
  {
    forall i :: j < i < n ==> entries[i].0 != entries[j].0
  }

  /** The dict m is what assigning the first n entries, in order, to a dict
      already holding the keys fixed gives: its keys are distinct, they are the
      fixed keys followed by the assigned keys in order of first assignment, and
      each assigned key holds the value of its last assignment. */
  predicate FilledFrom<K(==), V(==)>(m: seq<(K, V)>, fixed: seq<K>, entries: seq<(K, V)>, n: nat)
    requires n <= |entries|
  {
    && DistinctKeys(m)
    && Keys(m) == fixed + Dedup(Keys(entries[..n]))
    && forall j :: 0 <= j < n && LastOfKey(entries, j, n) ==> entries[j] in m
  }

  /** Assigning to the empty dict gives one entry. */
  lemma AssignOne<K, V>(k: K, v: V)
    ensures Assign([], k, v) == [(k, v)]
    ensures Keys([(k, v)]) == [k]
  {
  }

  /** Before any assignment, a dict with distinct keys is filled from its own keys. */
  lemma FilledStart<K, V>(m: seq<(K, V)>, entries: seq<(K, V)>)
    requires DistinctKeys(m)
    ensures FilledFrom(m, Keys(m), entries, 0)
  {
    assert Keys(entries[..0]) == [];
    assert Keys(m) + [] == Keys(m);
  }

  /** Assigning the next entry keeps FilledFrom. */
  lemma AssignNext<K, V>(m: seq<(K, V)>, fixed: seq<K>, entries: seq<(K, V)>, n: nat)
    requires n < |entries| && entries[n].0 !in fixed
    requires FilledFrom(m, fixed, entries, n)
    ensures FilledFrom(Assign(m, entries[n].0, entries[n].1), fixed, entries, n + 1)
  {
    KeysSnoc(entries, n);
    AssignNextKeys(m, fixed, Keys(entries[..n]), entries[n].0, entries[n].1);
    AssignNextLast(m, entries, n);
  }

  lemma AssignNextKeys<K, V>(m: seq<(K, V)>, fixed: seq<K>, added: seq<K>, k: K, v: V)
    requires k !in fixed
    requires Keys(m) == fixed + Dedup(added)
    ensures Keys(Assign(m, k, v)) == fixed + Dedup(added + [k])
  {
    DedupSnoc(added, k);
    DedupHas(added, k);
    InAppend(fixed, Dedup(added), k);
    if k in added {
      AssignOldKey(m, k, v);
    } else {
      AssignNewKeyKeys(m, k, v);
      AppendAssoc(fixed, Dedup(added), [k]);
    }
  }

  lemma AssignOldKey<K, V>(m: seq<(K, V)>, k: K, v: V)
    requires k in Keys(m)
    ensures Keys(Assign(m, k, v)) == Keys(m)
  {
  }

  lemma AssignNewKeyKeys<K, V>(m: seq<(K, V)>, k: K, v: V)
    requires k !in Keys(m)
    ensures Keys(Assign(m, k, v)) == Keys(m) + [k]
  {
  }

  lemma AppendAssoc<T>(a: seq<T>, b: seq<T>, c: seq<T>)
    ensures a + b + c == a + (b + c)
  {
  }

  lemma InAppend<T>(a: seq<T>, b: seq<T>, x: T)
    ensures x in a + b <==> x in a || x in b
  {
  }

  lemma AssignNextLast<K, V>(m: seq<(K, V)>, entries: seq<(K, V)>, n: nat)
    requires n < |entries|
    requires forall j :: 0 <= j < n && LastOfKey(entries, j, n) ==> entries[j] in m
    ensures forall j :: 0 <= j < n + 1 && LastOfKey(entries, j, n + 1) ==>
              entries[j] in Assign(m, entries[n].0, entries[n].1)
  {
    var (k, v) := entries[n];
    forall j | 0 <= j < n && LastOfKey(entries, j, n + 1)
      ensures entries[j] in Assign(m, k, v)
    {
      assert LastOfKey(entries, j, n);
      AssignKeepsOthers(m, k, v, entries[j]);
    }
  }

  /** Dedup takes one more element at a time. */
  lemma DedupSnoc<T>(s: seq<T>, x: T)
    ensures Dedup(s + [x]) == if x in s then Dedup(s) else Dedup(s) + [x]
  {
    assert (s + [x])[..|s|] == s;
  }
}
