/** The key-prefix dispatch of core/domain/cache_services.py, which tells which domain
    type a memory-cache value was serialised from. */
module CacheTypes {
  import opened Wrappers
  import opened Strings
  import Caching

  /** The domain classes a key can name. `TopicModuleAttribute` stands for
      `topic_domain.topic`, the attribute the source returns for topic keys, which is not
      the `Topic` class the other branches would suggest. */
  datatype DomainType = Collection | Exploration | Skill | Story | Topic | TopicModuleAttribute

  /** Whether the key starts with one of the five prefixes the dispatch tests. At most
      one of them can match: they differ in the first or second character. */
  predicate StartsWithDispatchPrefix(key: string) {
    StartsWith(key, "collection") || StartsWith(key, "exploration") ||
    StartsWith(key, "skill") || StartsWith(key, "story") || StartsWith(key, "topic")
  }

  /** The characters that tell the five prefixes apart. */
  lemma PrefixChars(key: string)
    ensures StartsWith(key, "collection") ==> key[0] == 'c'
    ensures StartsWith(key, "exploration") ==> key[0] == 'e'
    ensures StartsWith(key, "skill") ==> key[0] == 's' && key[1] == 'k'
    ensures StartsWith(key, "story") ==> key[0] == 's' && key[1] == 't'
    ensures StartsWith(key, "topic") ==> key[0] == 't'
  {
    if StartsWith(key, "collection") { assert key[0] == key[..10][0]; }
    if StartsWith(key, "exploration") { assert key[0] == key[..11][0]; }
    if StartsWith(key, "skill") { assert key[0] == key[..5][0] && key[1] == key[..5][1]; }
    if StartsWith(key, "story") { assert key[0] == key[..5][0] && key[1] == key[..5][1]; }
    if StartsWith(key, "topic") { assert key[0] == key[..5][0]; }
  }

  /** get_correct_dict_type_of_key as written. */
  function GetCorrectDictTypeOfKeyAsWritten(key: string): (r: Option<DomainType>)
    ensures StartsWith(key, "collection") ==> r == Some(Collection)
    ensures StartsWith(key, "exploration") ==> r == Some(Exploration)
    ensures StartsWith(key, "skill") ==> r == Some(Skill)
    ensures StartsWith(key, "story") ==> r == Some(Story)
    ensures StartsWith(key, "topic") ==> r == Some(TopicModuleAttribute)
    ensures r == None <==> !StartsWithDispatchPrefix(key)
    ensures r != Some(Topic)
  {
    PrefixChars(key);
    if StartsWith(key, "collection") then Some(Collection)
    else if StartsWith(key, "exploration") then Some(Exploration)
    else if StartsWith(key, "skill") then Some(Skill)
    else if StartsWith(key, "story") then Some(Story)
    else if StartsWith(key, "topic") then Some(TopicModuleAttribute)
    else None
  }

  /** get_correct_dict_type_of_key with the topic branch returning the Topic class. */
  function GetCorrectDictTypeOfKey(key: string): (r: Option<DomainType>)
    ensures StartsWith(key, "collection") ==> r == Some(Collection)
    ensures StartsWith(key, "exploration") ==> r == Some(Exploration)
    ensures StartsWith(key, "skill") ==> r == Some(Skill)
    ensures StartsWith(key, "story") ==> r == Some(Story)
    ensures StartsWith(key, "topic") ==> r == Some(Topic)
    ensures r == None <==> !StartsWithDispatchPrefix(key)
    ensures r != Some(TopicModuleAttribute)
  {
    PrefixChars(key);
    if StartsWith(key, "collection") then Some(Collection)
    else if StartsWith(key, "exploration") then Some(Exploration)
    else if StartsWith(key, "skill") then Some(Skill)
    else if StartsWith(key, "story") then Some(Story)
    else if StartsWith(key, "topic") then Some(Topic)
    else None
  }

  /** The domain type a namespace of the caching facade stores, if any. */
  function NamespaceType(ns: string): Option<DomainType> {
    if ns == Caching.NamespaceCollection then Some(Collection)
    else if ns == Caching.NamespaceExploration then Some(Exploration)
    else if ns == Caching.NamespaceSkill then Some(Skill)
    else if ns == Caching.NamespaceStory then Some(Story)
    else if ns == Caching.NamespaceTopic then Some(Topic)
    else None
  }

  /** A key differing from `q` at a position inside both does not start with `q`. */
  lemma DifferAt(key: string, q: string, i: nat)
    requires i < |key| && i < |q| && key[i] != q[i]
    ensures !StartsWith(key, q)
  {
  }

  /** Every key the caching facade builds is dispatched to the type of its namespace;
      keys of the "config" and "default" namespaces get None. */
  lemma FacadeKeysDispatch(ns: string, sub: Option<string>, id: string)
    requires ns in Caching.Namespaces
    ensures GetCorrectDictTypeOfKey(Caching.KeyOf(ns, sub, id)) == NamespaceType(ns)
  {
    var rest := ":" + Caching.SubKey(sub) + ":" + id;
    var key := ns + rest;
    assert Caching.KeyOf(ns, sub, id) == key;
    assert key[..|ns|] == ns;
    var prefixes := ["collection", "exploration", "skill", "story", "topic"];
    forall q | q in prefixes && q != ns ensures !StartsWith(key, q) {
      var i :| 0 <= i < 3 && ns[i] != q[i];
      assert key[i] == ns[i];
      DifferAt(key, q, i);
    }
  }

  /** The two versions differ exactly on topic keys, and agree on every other key. */
  lemma TopicKeyDiscrepancy(key: string)
    ensures StartsWith(key, "topic") ==>
      GetCorrectDictTypeOfKeyAsWritten(key) == Some(TopicModuleAttribute) &&
      GetCorrectDictTypeOfKey(key) == Some(Topic)
    ensures !StartsWith(key, "topic") ==>
      GetCorrectDictTypeOfKeyAsWritten(key) == GetCorrectDictTypeOfKey(key)
  {
  }

  /** The key of the Findings table: a topic-namespace key built by the facade. */
  lemma TopicFacadeKeyDiscrepancy()
    ensures GetCorrectDictTypeOfKeyAsWritten(Caching.KeyOf(Caching.NamespaceTopic, None, "abc")) ==
      Some(TopicModuleAttribute)
  {
    var key := Caching.KeyOf(Caching.NamespaceTopic, None, "abc");
    assert key[..5] == "topic";
  }
}
