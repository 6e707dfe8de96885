/** Id generation shared by the stores: `getNextId` takes the largest stored key and adds one. */
module Ids {
  import opened Collections

  lemma {:induction false} GreatestExists(keys: set<int>)
    requires keys != {}
    ensures exists m :: m in keys && forall k :: k in keys ==> k <= m
  {
    var x := Element(keys);
    var rest := keys - {x};
    if rest == {} {
      forall k | k in keys ensures k <= x { assert k !in rest; }
    } else {
      GreatestExists(rest);
      var m :| m in rest && forall k :: k in rest ==> k <= m;
      var top := if x <= m then m else x;
      forall k | k in keys ensures k <= top { if k != x { assert k in rest; } }
      assert top in keys;
    }
  }

  /** `keySet().stream().mapToLong(id -> id).max().orElse(0)`. */
  function MaxId(keys: set<int>): (m: int)
    ensures keys == {} ==> m == 0
    ensures keys != {} ==> m in keys
    ensures forall k :: k in keys ==> k <= m
  {
    if keys == {} then 0
    else
      GreatestExists(keys);
      var m :| m in keys && forall k :: k in keys ==> k <= m;
      m
  }

  /** `getNextId`: one more than the largest stored id, or 1 for an empty store. The result is larger than every
      id stored right now, and so is never in use; it is not larger than ids that were stored and deleted. */
  function NextId(keys: set<int>): (id: int)
    ensures keys == {} ==> id == 1
    ensures keys != {} ==> id - 1 in keys
    ensures forall k :: k in keys ==> k < id
    ensures id !in keys
  {
    MaxId(keys) + 1
  }

  /** Deleting the entry with the largest id hands that id out again: the next id does not exceed the deleted one. */
  lemma NextIdReusesDeletedMaximum(keys: set<int>)
    requires keys != {}
    requires forall k :: k in keys ==> k >= 1
    ensures NextId(keys - {MaxId(keys)}) <= MaxId(keys)
  {
    var m := MaxId(keys);
    var rest := keys - {m};
    if rest != {} {
      assert MaxId(rest) in keys && MaxId(rest) != m;
    }
  }

  /** A map whose entries are pairwise different has as many values as keys. */
  lemma {:induction false} InjectiveValuesCount<V>(m: map<int, V>)
    requires forall a, b :: a in m && b in m && a != b ==> m[a] != m[b]
    ensures |m.Values| == |m|
  {
    if m != map[] {
      var k := Element(m.Keys);
      var rest := m - {k};
      InjectiveValuesCount(rest);
      assert m.Values == rest.Values + {m[k]} by {
        forall v | v in m.Values ensures v in rest.Values + {m[k]} {
          var j := Element(set j | j in m && m[j] == v);
          if j != k { assert rest[j] == v; }
        }
        forall v | v in rest.Values + {m[k]} ensures v in m.Values {
          if v != m[k] {
            var j := Element(set j | j in rest && rest[j] == v);
            assert m[j] == v;
          }
        }
      }
      assert m[k] !in rest.Values by {
        forall j | j in rest ensures rest[j] != m[k] { assert m[j] == rest[j]; }
      }
      assert m.Keys == rest.Keys + {k};
    }
  }
}
