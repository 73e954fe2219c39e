/** Lookup in an append-only registry whose entries carry their own id. */
module Registry {
  import opened Failures

  /** `Array.prototype.find(x => key(x) === id)`: the first entry with that key. */
  function Find<T>(s: seq<T>, key: T -> nat, id: nat): (r: Option<T>)
    ensures r.Some? ==> r.value in s && key(r.value) == id
    ensures r.None? ==> forall x :: x in s ==> key(x) != id
  {
    if s == [] then None
    else if key(s[0]) == id then Some(s[0])
    else Find(s[1..], key, id)
  }

  /** When s[i] is the first entry carrying the key, that entry is what
      `find` returns, even when later entries carry the same key. */
  lemma {:induction false} FindReturnsFirst<T>(s: seq<T>, key: T -> nat, id: nat, i: nat)
    requires i < |s| && key(s[i]) == id
    requires forall j :: 0 <= j < i ==> key(s[j]) != id
    ensures Find(s, key, id) == Some(s[i])
    decreases i
  {
    if i > 0 {
      assert key(s[0]) != id;
      assert forall j :: 0 <= j < i - 1 ==> s[1..][j] == s[j + 1];
      FindReturnsFirst(s[1..], key, id, i - 1);
    }
  }

  /** Every entry's key is its position: what assigning `id: array.length`
      before each push maintains. */
  ghost predicate KeyedByIndex<T>(s: seq<T>, key: T -> nat)
  {
    forall i :: 0 <= i < |s| ==> key(s[i]) == i
  }

  /** In a registry keyed by index, finding by id is indexing. */
  lemma FindByIndex<T>(s: seq<T>, key: T -> nat, id: nat)
    requires KeyedByIndex(s, key) && id < |s|
    ensures Find(s, key, id) == Some(s[id])
  {
    FindShifted(s, key, 0, id);
  }

  lemma {:induction false} FindShifted<T>(s: seq<T>, key: T -> nat, base: nat, id: nat)
    requires forall i :: 0 <= i < |s| ==> key(s[i]) == base + i
    requires base <= id < base + |s|
    ensures Find(s, key, id) == Some(s[id - base])
    decreases |s|
  {
    if key(s[0]) != id {
      assert forall i :: 0 <= i < |s| - 1 ==> s[1..][i] == s[i + 1];
      FindShifted(s[1..], key, base + 1, id);
    }
  }

  /** Appending the entry whose key is the old length keeps the registry
      keyed by index and leaves every earlier entry where it was. */
  lemma AppendKeepsKeyedByIndex<T>(s: seq<T>, key: T -> nat, x: T)
    requires KeyedByIndex(s, key) && key(x) == |s|
    ensures KeyedByIndex(s + [x], key)
    ensures forall i :: 0 <= i < |s| ==> (s + [x])[i] == s[i]
  {
  }
}
