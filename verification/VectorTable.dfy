/**
 The lookup table kept in a vector sorted by key
 (UtilitiesInfra/shared_lookup_table.hpp, the std::vector specialisation).
 */
module VectorTable {
  import opened Options
  import opened StdAlgorithms

  ghost predicate DistinctKeys<V(!new)>(c: seq<(int, V)>) {
    forall i, j :: 0 <= i < j < |c| ==> c[i].0 != c[j].0
  }

  ghost predicate StrictlySorted<V(!new)>(c: seq<(int, V)>) {
    forall i, j :: 0 <= i < j < |c| ==> c[i].0 < c[j].0
  }

  /** The plain map a vector of pairs stands for. */
  ghost function Contents<V(!new)>(c: seq<(int, V)>): map<int, V> {
    if c == [] then map[]
    else Contents(c[..|c| - 1])[c[|c| - 1].0 := c[|c| - 1].1]
  }

  /** A key is in the map exactly when some pair has it. */
  lemma {:induction false} KeyLookup<V(!new)>(c: seq<(int, V)>, key: int)
    ensures key in Contents(c) <==> exists i :: 0 <= i < |c| && c[i].0 == key
  {
    if c != [] {
      var init := c[..|c| - 1];
      KeyLookup(init, key);
      if i :| 0 <= i < |c| && c[i].0 == key && i < |c| - 1 {
        assert init[i].0 == key;
      }
    }
  }

  /** With distinct keys, each pair is a mapping of the map. */
  lemma {:induction false} ValueLookup<V(!new)>(c: seq<(int, V)>, at: nat)
    requires DistinctKeys(c) && at < |c|
    ensures c[at].0 in Contents(c) && Contents(c)[c[at].0] == c[at].1
  {
    if at < |c| - 1 {
      ValueLookup(c[..|c| - 1], at);
    }
  }

  lemma ContentsAppend<V(!new)>(c: seq<(int, V)>, key: int, value: V)
    ensures Contents(c + [(key, value)]) == Contents(c)[key := value]
  {
    assert (c + [(key, value)])[..|c|] == c;
  }

  lemma {:induction false} ContentsUpdate<V(!new)>(c: seq<(int, V)>, at: nat, value: V)
    requires DistinctKeys(c) && at < |c|
    ensures Contents(c[at := (c[at].0, value)]) == Contents(c)[c[at].0 := value]
  {
    var d, last := c[at := (c[at].0, value)], |c| - 1;
    if at == last {
      assert d[..last] == c[..last];
    } else {
      ContentsUpdate(c[..last], at, value);
      assert d[..last] == c[..last][at := (c[at].0, value)];
    }
  }

  lemma {:induction false} ContentsErase<V(!new)>(c: seq<(int, V)>, at: nat)
    requires DistinctKeys(c) && at < |c|
    ensures Contents(EraseAt(c, at)) == Contents(c) - {c[at].0}
  {
    var d, last := EraseAt(c, at), |c| - 1;
    if at == last {
      assert d == c[..last];
      KeyLookup(c[..last], c[at].0);
    } else {
      ContentsErase(c[..last], at);
      assert d[..last - 1] == EraseAt(c[..last], at);
      assert d[last - 1] == c[last];
    }
  }

  /**
   Rearranging a vector without repeated keys changes neither fact: the keys stay distinct, the map stays the same.
   */
  lemma RearrangingKeepsContents<V(!new)>(a: seq<(int, V)>, b: seq<(int, V)>)
    requires multiset(a) == multiset(b) && DistinctKeys(a)
    ensures DistinctKeys(b) && Contents(b) == Contents(a)
  {
    RearrangingKeepsDistinct(a, b);
    RearrangingKeepsMappings(a, b);
    RearrangingKeepsMappings(b, a);
    var ma, mb := Contents(a), Contents(b);
    assert ma.Keys == mb.Keys;
    assert forall k :: k in ma ==> ma[k] == mb[k];
    assert ma == mb;
  }

  lemma RearrangingKeepsMappings<V(!new)>(a: seq<(int, V)>, b: seq<(int, V)>)
    requires multiset(a) == multiset(b) && DistinctKeys(a) && DistinctKeys(b)
    ensures Contents(a).Keys <= Contents(b).Keys
    ensures forall k :: k in Contents(a) ==> Contents(b)[k] == Contents(a)[k]
  {
    var ma, mb := Contents(a), Contents(b);
    forall k | k in ma.Keys
      ensures k in mb.Keys && mb[k] == ma[k]
    {
      KeyLookup(a, k);
      var i :| 0 <= i < |a| && a[i].0 == k;
      assert a[i] in multiset(b);
      var j :| 0 <= j < |b| && b[j] == a[i];
      ValueLookup(a, i);
      ValueLookup(b, j);
    }
  }

  lemma RearrangingKeepsDistinct<V(!new)>(a: seq<(int, V)>, b: seq<(int, V)>)
    requires multiset(a) == multiset(b) && DistinctKeys(a)
    ensures DistinctKeys(b)
  {
    forall i, j | 0 <= i < j < |b|
      ensures b[i].0 != b[j].0
    {
      if b[i].0 == b[j].0 {
        assert b[i] in multiset(a) && b[j] in multiset(a);
        CountTwice(b, i, j);
        CountOnce(a, b[i]);
        assert false;
      }
    }
  }

  lemma CountTwice<T(!new)>(s: seq<T>, i: nat, j: nat)
    requires i < j < |s| && s[i] == s[j]
    ensures multiset(s)[s[i]] >= 2
  {
    assert s == s[..i] + [s[i]] + s[i + 1..j] + [s[j]] + s[j + 1..];
  }

  lemma CountOnce<V(!new)>(c: seq<(int, V)>, x: (int, V))
    requires DistinctKeys(c)
    ensures multiset(c)[x] <= 1
  {
    if x in c {
      var i :| 0 <= i < |c| && c[i] == x;
      var before, after := c[..i], c[i + 1..];
      assert c == before + [x] + after;
      assert x !in before && x !in after;
    }
  }

  lemma SmallestKeyIsFirst<V(!new)>(a: seq<(int, V)>, b: seq<(int, V)>)
    requires StrictlySorted(a) && StrictlySorted(b) && a != []
    requires Contents(a) == Contents(b)
    ensures b != [] && b[0].0 <= a[0].0 && a[0].0 in Contents(a) && Contents(a)[a[0].0] == a[0].1
  {
    ValueLookup(a, 0);
    KeyLookup(b, a[0].0);
  }

  lemma SameHead<V(!new)>(a: seq<(int, V)>, b: seq<(int, V)>)
    requires StrictlySorted(a) && StrictlySorted(b) && (a != [] || b != [])
    requires Contents(a) == Contents(b)
    ensures a != [] && b != [] && a[0] == b[0]
    ensures Contents(a[1..]) == Contents(b[1..])
  {
    if a != [] {
      SmallestKeyIsFirst(a, b);
    }
    SmallestKeyIsFirst(b, a);
    if b[0].0 != a[0].0 {
      SmallestKeyIsFirst(a, b);
    }
    ContentsErase(a, 0);
    ContentsErase(b, 0);
    assert EraseAt(a, 0) == a[1..] && EraseAt(b, 0) == b[1..];
  }

  /** The sorted vector is a canonical form: two of them that stand for the same map are the same vector. */
  lemma {:induction false} SortedVectorIsCanonical<V(!new)>(a: seq<(int, V)>, b: seq<(int, V)>)
    requires StrictlySorted(a) && StrictlySorted(b)
    requires Contents(a) == Contents(b)
    ensures a == b
  {
    if a != [] || b != [] {
      SameHead(a, b);
      SortedVectorIsCanonical(a[1..], b[1..]);
      assert a == [a[0]] + a[1..] && b == [b[0]] + b[1..];
    }
  }

  /** The predicate remove_mapping hands to std::remove_if. */
  function Keyed<V(!new)>(key: int): ((int, V)) -> bool {
    (pair: (int, V)) => key == pair.0
  }

  /**
   remove_mapping erases at the position std::remove_if answers; that is a position, and not the end, exactly for a key
   of the map.
   */
  lemma EraseHasAPositionExactlyWhen<V(!new)>(c: seq<(int, V)>, key: int)
    requires DistinctKeys(c)
    ensures |Kept(c, Keyed<V>(key))| < |c| <==> key in Contents(c)
  {
    var drop := Keyed<V>(key);
    KeyLookup(c, key);
    if at :| 0 <= at < |c| && c[at].0 == key {
      KeptWithoutOne(c, drop, at);
    } else {
      KeptAll(c, drop);
    }
  }

  lemma ErasingKeepsSorted<V(!new)>(c: seq<(int, V)>, at: nat)
    requires StrictlySorted(c) && at < |c|
    ensures StrictlySorted(EraseAt(c, at))
  {
    var d := EraseAt(c, at);
    assert forall i :: 0 <= i < at ==> d[i] == c[i];
    assert forall i :: at <= i < |d| ==> d[i] == c[i + 1];
  }

  /** Dropping the pairs with a key takes out the one place where it stands. */
  lemma DroppingIsErasing<V(!new)>(c: seq<(int, V)>, key: int, at: nat)
    requires StrictlySorted(c) && at < |c| && c[at].0 == key
    ensures Kept(c, Keyed<V>(key)) == EraseAt(c, at)
    ensures StrictlySorted(EraseAt(c, at)) && Contents(EraseAt(c, at)) == Contents(c) - {key}
  {
    ErasingKeepsSorted(c, at);
    KeptWithoutOne(c, Keyed<V>(key), at);
    ContentsErase(c, at);
  }

  class VectorTable<V(!new)> {
    var container: seq<(int, V)>

    ghost predicate Valid()
      reads this
    {
      StrictlySorted(container)
    }

    ghost function Table(): map<int, V>
      requires Valid()
      reads this
    {
      Contents(container)
    }

    constructor ()
      ensures Valid() && Table() == map[]
    {
      container := [];
    }

    /** get_value_position_for: the first position with the key, or the end. */
    method Position(key: int) returns (at: nat)
      ensures at <= |container|
      ensures at < |container| ==> container[at].0 == key
      ensures forall i :: 0 <= i < at ==> container[i].0 != key
    {
      at := 0;
      while at < |container| && container[at].0 != key
        invariant at <= |container|
        invariant forall i :: 0 <= i < at ==> container[i].0 != key
      {
        at := at + 1;
      }
    }

    /** internal_sort */
    method Sort()
      requires DistinctKeys(container)
      modifies this
      ensures Valid() && Table() == old(Contents(container))
    {
      var sorted := SortByKey(container);
      RearrangingKeepsContents(container, sorted);
      container := sorted;
    }

    /** add_or_update_mapping: always answers true, unlike the unordered_map table. */
    method AddOrUpdate(key: int, value: V) returns (res: bool)
      requires Valid()
      modifies this
      ensures Valid() && res
      ensures Table() == old(Table())[key := value]
    {
      var at := Position(key);
      if at != |container| {
        ContentsUpdate(container, at, value);
        container := container[at := (container[at].0, value)];
      } else {
        ContentsAppend(container, key, value);
        KeyLookup(container, key);
        container := container + [(key, value)];
        Sort();
      }
      res := true;
    }

    /** value_for */
    method ValueFor(key: int) returns (res: Option<V>)
      requires Valid()
      ensures res == if key in Table() then Some(Table()[key]) else None
    {
      var at := Position(key);
      KeyLookup(container, key);
      if at != |container| {
        ValueLookup(container, at);
        res := Some(container[at].1);
      } else {
        res := None;
      }
    }

    /**
     remove_mapping: one position is erased after std::remove_if. On an empty table the call returns at once;
     on any other it needs the key, since erasing at the end iterator is undefined.
     */
    method Remove(key: int)
      requires Valid()
      requires container == [] || key in Table()
      modifies this
      ensures Valid() && Table() == old(Table()) - {key}
    {
      if container == [] {
        return;
      }
      var at := Position(key);
      KeyLookup(container, key);
      DroppingIsErasing(container, key, at);
      var moved, newEnd := RemoveIf(container, Keyed<V>(key));
      assert EraseAt(moved, newEnd) == moved[..newEnd];
      container := EraseAt(moved, newEnd);
    }

    /** clear */
    method Clear()
      requires Valid()
      modifies this
      ensures Valid() && Table() == map[]
    {
      container := [];
    }

    /** get_keys_snapshot: the keys of the map, each once, in increasing order. */
    method KeysSnapshot() returns (keys: seq<int>)
      requires Valid()
      ensures forall i, j :: 0 <= i < j < |keys| ==> keys[i] < keys[j]
      ensures forall k :: k in keys <==> k in Table()
    {
      keys := [];
      for i := 0 to |container|
        invariant |keys| == i
        invariant forall j :: 0 <= j < i ==> keys[j] == container[j].0
      {
        keys := keys + [container[i].0];
      }
      forall k
        ensures k in keys <==> k in Table()
      {
        KeyLookup(container, k);
      }
    }

    /** get_subsection_for: a new table with the mappings of the listed keys that are present. */
    method SubsectionFor(keys: seq<int>) returns (subsection: VectorTable<V>)
      requires Valid()
      ensures fresh(subsection) && subsection.Valid()
      ensures subsection.Table() == map k | k in Table() && k in keys :: Table()[k]
    {
      subsection := new VectorTable();
      for i := 0 to |keys|
        invariant fresh(subsection) && subsection.Valid()
        invariant subsection.Table() == map k | k in Table() && k in keys[..i] :: Table()[k]
      {
        var at := Position(keys[i]);
        KeyLookup(container, keys[i]);
        assert keys[..i + 1] == keys[..i] + [keys[i]];
        if at != |container| {
          ValueLookup(container, at);
          var _ := subsection.AddOrUpdate(container[at].0, container[at].1);
        }
      }
      assert keys[..|keys|] == keys;
    }
  }
}
