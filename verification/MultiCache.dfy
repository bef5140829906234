/** A cache keeping several values under a key, sorted, and answering with the least. */
module MultiCache {
  import opened Wrappers
  import opened Strings

  /** All values set under a key, over a history of settings. */
  ghost function ValuesUnder<K>(sets: seq<(K, string)>, key: K): multiset<string> {
    if sets == [] then multiset{}
    else
      var (k, v) := sets[|sets| - 1];
      ValuesUnder(sets[..|sets| - 1], key) + if k == key then multiset{v} else multiset{}
  }

  class MultiCache<K(==,!new)> {
    var data: map<K, seq<string>>
    ghost var sets: seq<(K, string)>

    function ValuesAt(k: K): seq<string>
      reads this
    {
      if k in data then data[k] else []
    }

    ghost predicate KeyValid(k: K)
      reads this
    {
      && Sorted(ValuesAt(k)) && multiset(ValuesAt(k)) == ValuesUnder(sets, k)
      && (k in data ==> data[k] != [])
    }

    /** The values of every key are all those ever set under it, sorted. */
    ghost predicate Valid()
      reads this
    {
      forall k :: KeyValid(k)
    }

    constructor ()
      ensures Valid() && sets == [] && data == map[]
    {
      data := map[];
      sets := [];
    }

    method AddValue(key: K, value: string)
      requires Valid()
      modifies this
      ensures Valid() && sets == old(sets) + [(key, value)]
      ensures forall k :: k != key ==> ValuesAt(k) == old(ValuesAt(k))
    {
      assert KeyValid(key);
      var values := ValuesAt(key) + [value];
      var a := new string[|values|](i requires 0 <= i < |values| => values[i]);
      assert a[..] == values;
      Sort(a);
      assert |a[..]| == |values|;
      data := data[key := a[..]];
      sets := sets + [(key, value)];
      assert sets[..|sets| - 1] == old(sets);
      forall k
        ensures KeyValid(k)
      {
        assert old(KeyValid(k));
      }
    }

    method Set(key: K, value: string)
      requires Valid()
      modifies this
      ensures Valid() && sets == old(sets) + [(key, value)]
      ensures forall k :: k != key ==> ValuesAt(k) == old(ValuesAt(k))
    {
      AddValue(key, value);
    }

    /** The least value set under the key; None is the index panic of a key never set. */
    method Get(key: K) returns (r: Option<string>)
      requires Valid()
      ensures r.None? <==> ValuesUnder(sets, key) == multiset{}
      ensures r.Some? ==> r.value in ValuesUnder(sets, key)
                          && forall v :: v in ValuesUnder(sets, key) ==>
                               v == r.value || exists k :: ComesFirstAt(r.value, v, k)
    {
      assert KeyValid(key);
      if key !in data {
        return None;
      }
      var s := data[key];
      assert s[0] in multiset(s);
      forall v | v in multiset(s)
        ensures v == s[0] || exists k :: ComesFirstAt(s[0], v, k)
      {
        assert v in s;
        AtMostIff(s[0], v);
      }
      return Some(s[0]);
    }
  }
}
