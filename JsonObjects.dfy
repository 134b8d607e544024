/** JSON objects as they are compared by the pipeline updater: a sequence of
    key/value members in serialisation order, and a structural similarity that
    looks up every key and so does not depend on that order. */
module JsonObjects {
  import opened Wrappers

  datatype Scalar = JNull | JBool(b: bool) | JNumber(n: int) | JString(s: string)

  datatype Member = Member(key: string, value: Scalar)

  datatype JsonObject = JsonObject(members: seq<Member>)

  /** The keys the object defines. */
  function Keys(o: JsonObject): set<string>
  {
    set m | m in o.members :: m.key
  }

  /** The value of the first member named `key`. */
  function Get(o: JsonObject, key: string): (r: Option<Scalar>)
    ensures r.Some? <==> key in Keys(o)
    ensures r.Some? ==> Member(key, r.value) in o.members
    decreases |o.members|
  {
    if o.members == [] then None
    else if o.members[0].key == key then Some(o.members[0].value)
    else Get(JsonObject(o.members[1..]), key)
  }

  /** A parsed JSON object never repeats a key. */
  predicate DistinctKeys(o: JsonObject)
  {
    forall i, j | 0 <= i < j < |o.members| :: o.members[i].key != o.members[j].key
  }

  /** Structural similarity: the same keys, each bound to the same value. */
  predicate Similar(a: JsonObject, b: JsonObject)
  {
    Keys(a) == Keys(b) && forall k | k in Keys(a) :: Get(a, k) == Get(b, k)
  }

  /** In an object without repeated keys, a member is exactly what `Get` finds. */
  lemma {:induction false} GetFindsMember(o: JsonObject, key: string, v: Scalar)
    requires DistinctKeys(o)
    ensures Get(o, key) == Some(v) <==> Member(key, v) in o.members
    decreases |o.members|
  {
    if o.members != [] {
      var rest := JsonObject(o.members[1..]);
      assert DistinctKeys(rest) by {
        forall i, j | 0 <= i < j < |rest.members|
          ensures rest.members[i].key != rest.members[j].key
        {
          assert rest.members[i] == o.members[i + 1] && rest.members[j] == o.members[j + 1];
        }
      }
      GetFindsMember(rest, key, v);
      if o.members[0].key != key && Member(key, v) in o.members {
        assert Member(key, v) in rest.members;
      }
    }
  }

  /** Re-serialising an object in another member order never makes it
      dissimilar: similarity is blind to field reordering. */
  lemma SimilarIgnoresOrder(a: JsonObject, b: JsonObject)
    requires DistinctKeys(a) && DistinctKeys(b)
    requires multiset(a.members) == multiset(b.members)
    ensures Similar(a, b)
  {
    assert forall m :: m in a.members <==> m in b.members by {
      forall m ensures m in a.members <==> m in b.members {
        assert m in a.members <==> m in multiset(a.members);
        assert m in b.members <==> m in multiset(b.members);
      }
    }
    forall k | k in Keys(a) ensures Get(a, k) == Get(b, k) {
      var v := Get(a, k).value;
      GetFindsMember(a, k, v);
      GetFindsMember(b, k, v);
    }
  }

  /** Similarity is an equivalence relation. */
  lemma SimilarIsEquivalence(a: JsonObject, b: JsonObject, c: JsonObject)
    ensures Similar(a, a)
    ensures Similar(a, b) ==> Similar(b, a)
    ensures Similar(a, b) && Similar(b, c) ==> Similar(a, c)
  {
  }
}
