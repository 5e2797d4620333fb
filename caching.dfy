/** The namespaced cache facade of core/domain/caching_services.py over the
    key-value memory cache (core/platform/cache/redis_cache_services.py). Values are
    kept in the store in their serialised form; (de)serialisation is the identity. */
module Caching {
  import opened Wrappers
  import opened Strings

  const NamespaceExploration := "exploration"
  const NamespaceCollection := "collection"
  const NamespaceSkill := "skill"
  const NamespaceStory := "story"
  const NamespaceTopic := "topic"
  const NamespaceConfig := "config"
  const NamespaceDefault := "default"

  /** The namespaces that have (de)serialisation functions. */
  const Namespaces: set<string> := {
    NamespaceExploration, NamespaceCollection, NamespaceSkill, NamespaceStory,
    NamespaceTopic, NamespaceConfig, NamespaceDefault}

  /** The ValueErrors the facade raises. */
  datatype CacheError = InvalidNamespace(namespace: string) | SubNamespaceHasColon(subNamespace: string)

  type Store = map<string, string>

  /** `sub_namespace if sub_namespace else ''`. */
  function SubKey(sub: Option<string>): string {
    if sub.Some? then sub.value else ""
  }

  /** The store key of an id: "namespace:sub_namespace:id". */
  function KeyOf(ns: string, sub: Option<string>, id: string): string {
    ns + ":" + SubKey(sub) + ":" + id
  }

  /** _get_memcache_key: the store key, refused when the sub-namespace contains ':'. */
  function MemcacheKey(ns: string, sub: Option<string>, id: string): (r: Result<string, CacheError>)
    ensures r.Err? <==> Contains(SubKey(sub), ':')
    ensures r.Err? ==> r.error == SubNamespaceHasColon(SubKey(sub))
    ensures r.Ok? ==> r.value == KeyOf(ns, sub, id) && |r.value| == |ns| + |SubKey(sub)| + |id| + 2
  {
    if Contains(SubKey(sub), ':') then Err(SubNamespaceHasColon(SubKey(sub)))
    else Ok(ns + ":" + SubKey(sub) + ":" + id)
  }

  /** Within one namespace and sub-namespace, different ids have different keys. */
  lemma KeyOfInjective(ns: string, sub: Option<string>, id1: string, id2: string)
    ensures KeyOf(ns, sub, id1) == KeyOf(ns, sub, id2) ==> id1 == id2
  {
    var prefix := ns + ":" + SubKey(sub) + ":";
    assert KeyOf(ns, sub, id1) == prefix + id1 && KeyOf(ns, sub, id2) == prefix + id2;
    assert (prefix + id1)[|prefix|..] == id1 && (prefix + id2)[|prefix|..] == id2;
  }

  /** The first ':' of `a + ":" + rest` is the one after `a` when `a` has none. */
  lemma {:induction false} ColonSplit(a: string, rest: string)
    requires !Contains(a, ':')
    ensures BeforeFirst(a + ":" + rest, ':') == a
    ensures (a + ":" + rest)[|a| + 1..] == rest
    decreases |a|
  {
    if a != [] {
      assert !Contains(a[1..], ':') by {
        forall i | 0 <= i < |a[1..]| ensures a[1..][i] != ':' { assert a[1..][i] == a[i + 1]; }
      }
      ColonSplit(a[1..], rest);
      assert (a + ":" + rest)[1..] == a[1..] + ":" + rest;
    } else {
      assert (a + ":" + rest)[0] == ':';
    }
  }

  /** Key construction is injective for colon-free namespaces and sub-namespaces: two
      requests share a store key only if they name the same namespace, sub-namespace
      and id. */
  lemma KeyInjective(ns1: string, sub1: Option<string>, id1: string, ns2: string, sub2: Option<string>, id2: string)
    requires !Contains(ns1, ':') && !Contains(ns2, ':')
    requires MemcacheKey(ns1, sub1, id1).Ok? && MemcacheKey(ns2, sub2, id2).Ok?
    requires MemcacheKey(ns1, sub1, id1) == MemcacheKey(ns2, sub2, id2)
    ensures ns1 == ns2 && SubKey(sub1) == SubKey(sub2) && id1 == id2
  {
    var k := MemcacheKey(ns1, sub1, id1).value;
    assert k == ns1 + ":" + (SubKey(sub1) + ":" + id1);
    assert k == ns2 + ":" + (SubKey(sub2) + ":" + id2);
    ColonSplit(ns1, SubKey(sub1) + ":" + id1);
    ColonSplit(ns2, SubKey(sub2) + ":" + id2);
    ColonSplit(SubKey(sub1), id1);
    ColonSplit(SubKey(sub2), id2);
  }

  lemma NamespacesColonFree(ns: string)
    requires ns in Namespaces
    ensures !Contains(ns, ':')
  {
  }

  /** get_multi: the requested ids whose stored value is truthy (a non-empty string),
      with those values. An empty request returns {} before anything is checked. */
  function GetMultiSpec(store: Store, ns: string, sub: Option<string>, ids: seq<string>): (r: Result<map<string, string>, CacheError>)
    ensures |ids| == 0 ==> r == Ok(map[])
    ensures |ids| > 0 && ns !in Namespaces ==> r == Err(InvalidNamespace(ns))
    ensures |ids| > 0 && ns in Namespaces && Contains(SubKey(sub), ':') ==> r == Err(SubNamespaceHasColon(SubKey(sub)))
    ensures |ids| > 0 && ns in Namespaces && !Contains(SubKey(sub), ':') ==> r.Ok?
    ensures r.Ok? ==> forall id :: id in r.value <==>
      id in ids && KeyOf(ns, sub, id) in store && store[KeyOf(ns, sub, id)] != ""
    ensures r.Ok? ==> forall id :: id in r.value ==> r.value[id] == store[KeyOf(ns, sub, id)]
  {
    if |ids| == 0 then Ok(map[])
    else if ns !in Namespaces then Err(InvalidNamespace(ns))
    else if Contains(SubKey(sub), ':') then Err(SubNamespaceHasColon(SubKey(sub)))
    else Ok(Found(store, ns, sub, ids))
  }

  /** The truthy values of the ids, collected in request order. */
  function Found(store: Store, ns: string, sub: Option<string>, ids: seq<string>): (r: map<string, string>)
    ensures forall id :: id in r <==> id in ids && KeyOf(ns, sub, id) in store && store[KeyOf(ns, sub, id)] != ""
    ensures forall id :: id in r ==> r[id] == store[KeyOf(ns, sub, id)]
    decreases |ids|
  {
    if ids == [] then map[]
    else
      var init := Found(store, ns, sub, ids[..|ids| - 1]);
      var id := ids[|ids| - 1];
      var k := KeyOf(ns, sub, id);
      assert forall x :: x in ids <==> x in ids[..|ids| - 1] || x == id;
      if k in store && store[k] != "" then init[id := store[k]] else init
  }

  /** The keys a mapping is written under. */
  function WrittenKeys(ns: string, sub: Option<string>, ids: set<string>): set<string> {
    set id | id in ids :: KeyOf(ns, sub, id)
  }

  /** The store after set_multi: the ids' keys now hold the mapping's values and every
      other key is as it was. */
  function SetMultiSpec(store: Store, ns: string, sub: Option<string>, mapping: map<string, string>): (r: Result<Store, CacheError>)
    ensures |mapping| == 0 ==> r == Ok(store)
    ensures |mapping| > 0 && ns !in Namespaces ==> r == Err(InvalidNamespace(ns))
    ensures |mapping| > 0 && ns in Namespaces && Contains(SubKey(sub), ':') ==> r == Err(SubNamespaceHasColon(SubKey(sub)))
    ensures |mapping| > 0 && ns in Namespaces && !Contains(SubKey(sub), ':') ==> r.Ok?
    ensures r.Ok? ==> forall id :: id in mapping ==> KeyOf(ns, sub, id) in r.value && r.value[KeyOf(ns, sub, id)] == mapping[id]
    ensures r.Ok? ==> r.value.Keys == store.Keys + WrittenKeys(ns, sub, mapping.Keys)
    ensures r.Ok? ==> forall k :: k in store && k !in WrittenKeys(ns, sub, mapping.Keys) ==> r.value[k] == store[k]
  {
    if |mapping| == 0 then Ok(store)
    else if ns !in Namespaces then Err(InvalidNamespace(ns))
    else if Contains(SubKey(sub), ':') then Err(SubNamespaceHasColon(SubKey(sub)))
    else Ok(store + Written(ns, sub, mapping))
  }

  /** The mapping moved onto its store keys. */
  function Written(ns: string, sub: Option<string>, mapping: map<string, string>): (w: map<string, string>)
    ensures w.Keys == WrittenKeys(ns, sub, mapping.Keys)
    ensures forall id :: id in mapping ==> KeyOf(ns, sub, id) in w && w[KeyOf(ns, sub, id)] == mapping[id]
  {
    forall id1, id2 | id1 in mapping && id2 in mapping ensures KeyOf(ns, sub, id1) == KeyOf(ns, sub, id2) ==> id1 == id2 {
      KeyOfInjective(ns, sub, id1, id2);
    }
    map id | id in mapping :: KeyOf(ns, sub, id) := mapping[id]
  }

  /** The number of keys the store reports deleted: those present, counted once
      (the DEL command of Redis). */
  function DeletedCount(store: Store, keys: seq<string>): nat {
    |set k | k in keys && k in store|
  }

  /** The keys of the ids, in request order. */
  function KeysOf(ns: string, sub: Option<string>, ids: seq<string>): (keys: seq<string>)
    ensures |keys| == |ids| && forall i :: 0 <= i < |ids| ==> keys[i] == KeyOf(ns, sub, ids[i])
  {
    seq(|ids|, i requires 0 <= i < |ids| => KeyOf(ns, sub, ids[i]))
  }

  /** delete_multi: the store without the requested keys, and whether as many keys were
      deleted as ids were given. */
  function DeleteMultiSpec(store: Store, ns: string, sub: Option<string>, ids: seq<string>): (r: Result<(bool, Store), CacheError>)
    ensures |ids| == 0 ==> r == Ok((true, store))
    ensures |ids| > 0 && ns !in Namespaces ==> r == Err(InvalidNamespace(ns))
    ensures |ids| > 0 && ns in Namespaces && Contains(SubKey(sub), ':') ==> r == Err(SubNamespaceHasColon(SubKey(sub)))
    ensures |ids| > 0 && ns in Namespaces && !Contains(SubKey(sub), ':') ==>
      r.Ok? && r.value.0 == (DeletedCount(store, KeysOf(ns, sub, ids)) == |ids|)
    ensures r.Ok? ==> forall k :: k in r.value.1 <==> k in store && forall id :: id in ids ==> KeyOf(ns, sub, id) != k
    ensures r.Ok? ==> forall k :: k in r.value.1 ==> r.value.1[k] == store[k]
  {
    if |ids| == 0 then Ok((true, store))
    else if ns !in Namespaces then Err(InvalidNamespace(ns))
    else if Contains(SubKey(sub), ':') then Err(SubNamespaceHasColon(SubKey(sub)))
    else
      var keys := KeysOf(ns, sub, ids);
      assert forall k :: k in keys <==> exists id :: id in ids && KeyOf(ns, sub, id) == k by {
        forall k | k in keys ensures exists id :: id in ids && KeyOf(ns, sub, id) == k {
          var i :| 0 <= i < |keys| && keys[i] == k;
          assert ids[i] in ids;
        }
        forall k | exists id :: id in ids && KeyOf(ns, sub, id) == k ensures k in keys {
          var id :| id in ids && KeyOf(ns, sub, id) == k;
          var i :| 0 <= i < |ids| && ids[i] == id;
          assert keys[i] == k;
        }
      }
      Ok((DeletedCount(store, keys) == |ids|, store - set k | k in keys))
  }

  lemma SameMaps(a: map<string, string>, b: map<string, string>)
    requires forall k :: k in a <==> k in b
    requires forall k :: k in b ==> a[k] == b[k]
    ensures a == b
  {
  }

  /** A set_multi followed by a get_multi of the same ids returns the mapping, when
      every value is truthy. */
  lemma SetThenGet(store: Store, ns: string, sub: Option<string>, mapping: map<string, string>, ids: seq<string>)
    requires ns in Namespaces && !Contains(SubKey(sub), ':')
    requires |ids| > 0 && (forall id :: id in ids <==> id in mapping)
    requires forall id :: id in mapping ==> mapping[id] != ""
    ensures SetMultiSpec(store, ns, sub, mapping).Ok?
    ensures GetMultiSpec(SetMultiSpec(store, ns, sub, mapping).value, ns, sub, ids) == Ok(mapping)
  {
    assert ids[0] in mapping;
    var after := SetMultiSpec(store, ns, sub, mapping).value;
    var got := GetMultiSpec(after, ns, sub, ids).value;
    forall id | id in mapping ensures id in got && got[id] == mapping[id] {
      var k := KeyOf(ns, sub, id);
      assert k in after && after[k] == mapping[id];
    }
    SameMaps(got, mapping);
  }

  /** A key of another namespace or sub-namespace is untouched by a set_multi. */
  lemma OtherKeyUntouched(ns1: string, sub1: Option<string>, ids: set<string>,
                          ns2: string, sub2: Option<string>, id: string)
    requires ns1 in Namespaces && ns2 in Namespaces
    requires ns1 != ns2 || SubKey(sub1) != SubKey(sub2)
    requires !Contains(SubKey(sub1), ':') && !Contains(SubKey(sub2), ':')
    ensures KeyOf(ns2, sub2, id) !in WrittenKeys(ns1, sub1, ids)
  {
    forall id1 | id1 in ids ensures KeyOf(ns1, sub1, id1) != KeyOf(ns2, sub2, id) {
      NamespacesColonFree(ns1);
      NamespacesColonFree(ns2);
      if KeyOf(ns1, sub1, id1) == KeyOf(ns2, sub2, id) {
        KeyInjective(ns1, sub1, id1, ns2, sub2, id);
      }
    }
  }

  /** What is written under one namespace and sub-namespace is invisible from any other. */
  lemma NamespaceIsolation(store: Store, ns1: string, sub1: Option<string>, mapping: map<string, string>,
                           ns2: string, sub2: Option<string>, ids: seq<string>)
    requires ns1 in Namespaces && ns2 in Namespaces
    requires ns1 != ns2 || SubKey(sub1) != SubKey(sub2)
    requires SetMultiSpec(store, ns1, sub1, mapping).Ok?
    ensures GetMultiSpec(SetMultiSpec(store, ns1, sub1, mapping).value, ns2, sub2, ids) == GetMultiSpec(store, ns2, sub2, ids)
  {
    var after := SetMultiSpec(store, ns1, sub1, mapping).value;
    if |ids| > 0 && !Contains(SubKey(sub2), ':') {
      forall id | id in ids ensures KeyOf(ns2, sub2, id) !in WrittenKeys(ns1, sub1, mapping.Keys) {
        if |mapping| > 0 {
          OtherKeyUntouched(ns1, sub1, mapping.Keys, ns2, sub2, id);
        }
      }
      var a := GetMultiSpec(after, ns2, sub2, ids).value;
      var b := GetMultiSpec(store, ns2, sub2, ids).value;
      SameMaps(a, b);
    }
  }

  /** The distinct elements of a sequence are at most as many as its entries, and as
      many exactly when no entry repeats. */
  lemma {:induction false} DistinctCount<T>(s: seq<T>)
    ensures |set x | x in s| <= |s|
    ensures |set x | x in s| == |s| <==> forall i, j :: 0 <= i < j < |s| ==> s[i] != s[j]
  {
    if s != [] {
      var init := s[..|s| - 1];
      var last := s[|s| - 1];
      DistinctCount(init);
      assert (set x | x in s) == (set x | x in init) + {last};
      if last in init {
        var j :| 0 <= j < |init| && init[j] == last;
        assert s[j] == s[|s| - 1];
      } else {
        forall i, j | 0 <= i < j < |s| && (forall a, b :: 0 <= a < b < |init| ==> init[a] != init[b])
          ensures s[i] != s[j]
        {
          assert s[i] == init[i];
          if j < |init| { assert s[j] == init[j]; }
        }
      }
    }
  }

  lemma SubsetCount<T>(a: set<T>, b: set<T>)
    requires a <= b
    ensures |a| <= |b| && (|a| == |b| ==> a == b)
  {
    assert b == a + (b - a);
    if |a| == |b| {
      assert |b - a| == 0;
    }
  }

  /** delete_multi reports success exactly when no id is repeated and every id was
      stored under this namespace and sub-namespace. */
  lemma DeleteReportsAllPresent(store: Store, ns: string, sub: Option<string>, ids: seq<string>)
    requires DeleteMultiSpec(store, ns, sub, ids).Ok? && |ids| > 0
    ensures DeleteMultiSpec(store, ns, sub, ids).value.0 <==>
      (forall i, j :: 0 <= i < j < |ids| ==> ids[i] != ids[j]) &&
      (forall id :: id in ids ==> KeyOf(ns, sub, id) in store)
  {
    var keys := KeysOf(ns, sub, ids);
    var present := set k | k in keys && k in store;
    var all := set k | k in keys;
    DistinctCount(keys);
    SubsetCount(present, all);
    var distinctIds := forall i, j :: 0 <= i < j < |ids| ==> ids[i] != ids[j];
    var distinctKeys := forall i, j :: 0 <= i < j < |keys| ==> keys[i] != keys[j];
    assert distinctIds <==> distinctKeys by {
      forall i, j | 0 <= i < j < |ids| ensures keys[i] == keys[j] ==> ids[i] == ids[j] {
        KeyOfInjective(ns, sub, ids[i], ids[j]);
      }
    }
    if DeletedCount(store, keys) == |ids| {
      assert present == all;
      forall k | k in keys ensures k in store {
        assert k in all;
      }
      AllKeysPresent(store, ns, sub, ids);
    }
    if distinctIds && forall id :: id in ids ==> KeyOf(ns, sub, id) in store {
      forall k | k in all ensures k in present {
        var i :| 0 <= i < |keys| && keys[i] == k;
        assert ids[i] in ids;
      }
      assert present == all;
    }
  }

  /** When every key of the request is in the store, every id's key is. */
  lemma AllKeysPresent(store: Store, ns: string, sub: Option<string>, ids: seq<string>)
    requires forall k :: k in KeysOf(ns, sub, ids) ==> k in store
    ensures forall id :: id in ids ==> KeyOf(ns, sub, id) in store
  {
    var keys := KeysOf(ns, sub, ids);
    forall id | id in ids ensures KeyOf(ns, sub, id) in store {
      var i :| 0 <= i < |ids| && ids[i] == id;
      assert keys[i] in keys;
    }
  }


  /** After a successful delete, none of the ids can be read back. */
  lemma DeleteThenGet(store: Store, ns: string, sub: Option<string>, ids: seq<string>)
    requires DeleteMultiSpec(store, ns, sub, ids).Ok? && |ids| > 0
    ensures GetMultiSpec(DeleteMultiSpec(store, ns, sub, ids).value.1, ns, sub, ids) == Ok(map[])
  {
    var after := DeleteMultiSpec(store, ns, sub, ids).value.1;
    var got := GetMultiSpec(after, ns, sub, ids).value;
    forall id | id in ids ensures KeyOf(ns, sub, id) !in after { }
    assert forall id :: id !in got;
  }

  /** After a flush, every read returns {} (or the same error as before). */
  lemma FlushThenGet(ns: string, sub: Option<string>, ids: seq<string>)
    ensures GetMultiSpec(map[], ns, sub, ids).Ok? ==> GetMultiSpec(map[], ns, sub, ids) == Ok(map[])
  {
  }

  /** The memory cache holding the store the facade reads and writes. */
  class MemoryCache {
    var store: Store

    constructor()
      ensures store == map[]
    {
      store := map[];
    }

    /** get_multi: looks every key up and keeps the truthy values. */
    method GetMulti(ns: string, sub: Option<string>, ids: seq<string>) returns (r: Result<map<string, string>, CacheError>)
      ensures r == GetMultiSpec(store, ns, sub, ids)
    {
      if |ids| == 0 {
        return Ok(map[]);
      }
      if ns !in Namespaces {
        return Err(InvalidNamespace(ns));
      }
      if Contains(SubKey(sub), ':') {
        return Err(SubNamespaceHasColon(SubKey(sub)));
      }
      var result: map<string, string> := map[];
      var i := 0;
      while i < |ids|
        invariant 0 <= i <= |ids|
        invariant forall id :: id in result <==>
          id in ids[..i] && KeyOf(ns, sub, id) in store && store[KeyOf(ns, sub, id)] != ""
        invariant forall id :: id in result ==> result[id] == store[KeyOf(ns, sub, id)]
      {
        var key := MemcacheKey(ns, sub, ids[i]).value;
        if key in store && store[key] != "" {
          result := result[ids[i] := store[key]];
        }
        assert ids[..i + 1] == ids[..i] + [ids[i]];
        i := i + 1;
      }
      assert ids[..i] == ids;
      SameMaps(result, GetMultiSpec(store, ns, sub, ids).value);
      r := Ok(result);
    }

    /** set_multi: writes every id of the mapping under its prefixed key; True on success. */
    method SetMulti(ns: string, sub: Option<string>, mapping: map<string, string>) returns (r: Result<bool, CacheError>)
      modifies this
      ensures SetMultiSpec(old(store), ns, sub, mapping).Ok? ==>
        r == Ok(true) && store == SetMultiSpec(old(store), ns, sub, mapping).value
      ensures SetMultiSpec(old(store), ns, sub, mapping).Err? ==>
        r == Err(SetMultiSpec(old(store), ns, sub, mapping).error) && store == old(store)
    {
      var spec := SetMultiSpec(store, ns, sub, mapping);
      if spec.Err? {
        return Err(spec.error);
      }
      store := spec.value;
      r := Ok(true);
    }

    /** delete_multi: removes the prefixed keys and compares the reported count with the
        number of ids. */
    method DeleteMulti(ns: string, sub: Option<string>, ids: seq<string>) returns (r: Result<bool, CacheError>)
      modifies this
      ensures DeleteMultiSpec(old(store), ns, sub, ids).Ok? ==>
        r == Ok(DeleteMultiSpec(old(store), ns, sub, ids).value.0) &&
        store == DeleteMultiSpec(old(store), ns, sub, ids).value.1
      ensures DeleteMultiSpec(old(store), ns, sub, ids).Err? ==>
        r == Err(DeleteMultiSpec(old(store), ns, sub, ids).error) && store == old(store)
    {
      var spec := DeleteMultiSpec(store, ns, sub, ids);
      if spec.Err? {
        return Err(spec.error);
      }
      store := spec.value.1;
      r := Ok(spec.value.0);
    }

    /** flush_memory_cache. */
    method FlushMemoryCache()
      modifies this
      ensures store == map[]
    {
      store := map[];
    }
  }
}
