/** Dictionaries that keep insertion order, as Python's do. */
module Dictionaries {
  type Key = string

  datatype Item<+V> = Item(key: Key, value: V)

  function Keys<V>(d: seq<Item<V>>): set<Key> {
    if d == [] then {} else {d[0].key} + Keys(d[1..])
  }

  predicate DistinctKeys<V>(d: seq<Item<V>>) {
    d == [] || (d[0].key !in Keys(d[1..]) && DistinctKeys(d[1..]))
  }

  /** The entry of a key, or what to use in its place. */
  function Get<V>(d: seq<Item<V>>, key: Key, fallback: V): V {
    if d == [] then fallback else if d[0].key == key then d[0].value else Get(d[1..], key, fallback)
  }

  /** `d.pop(key, None)`. */
  function Without<V>(d: seq<Item<V>>, key: Key): (r: seq<Item<V>>)
    ensures |r| <= |d|
  {
    if d == [] then [] else if d[0].key == key then Without(d[1..], key) else [d[0]] + Without(d[1..], key)
  }

  /** `d[key] = value`: in place, or at the end. */
  function With<V>(d: seq<Item<V>>, key: Key, value: V): seq<Item<V>> {
    if d == [] then [Item(key, value)]
    else if d[0].key == key then [Item(key, value)] + d[1..]
    else [d[0]] + With(d[1..], key, value)
  }

  /** The dictionary as a map, its order forgotten. */
  function AsMap<V>(d: seq<Item<V>>): map<Key, V> {
    if d == [] then map[] else AsMap(d[1..])[d[0].key := d[0].value]
  }

  lemma {:induction false} MapKeys<V>(d: seq<Item<V>>)
    ensures AsMap(d).Keys == Keys(d)
  {
    if d != [] {
      MapKeys(d[1..]);
    }
  }

  lemma {:induction false} GetIs<V>(d: seq<Item<V>>, key: Key, fallback: V)
    ensures Get(d, key, fallback) == if key in AsMap(d) then AsMap(d)[key] else fallback
  {
    if d != [] {
      GetIs(d[1..], key, fallback);
    }
  }

  lemma Cons<V>(x: Item<V>, d: seq<Item<V>>)
    ensures Keys([x] + d) == {x.key} + Keys(d)
    ensures DistinctKeys([x] + d) <==> x.key !in Keys(d) && DistinctKeys(d)
    ensures AsMap([x] + d) == AsMap(d)[x.key := x.value]
  {
    assert ([x] + d)[1..] == d;
  }

  lemma {:induction false} WithoutFacts<V>(d: seq<Item<V>>, key: Key)
    ensures Keys(Without(d, key)) == Keys(d) - {key}
    ensures DistinctKeys(d) ==> DistinctKeys(Without(d, key))
    ensures AsMap(Without(d, key)) == AsMap(d) - {key}
    ensures key !in Keys(d) ==> Without(d, key) == d
    ensures key in Keys(d) ==> |Without(d, key)| < |d|
  {
    hide Keys, AsMap, DistinctKeys;
    if d == [] {
      NoEntries<V>();
    } else {
      WithoutFacts(d[1..], key);
      Cons(d[0], Without(d[1..], key));
      Cons(d[0], d[1..]);
      assert [d[0]] + d[1..] == d;
    }
  }

  lemma NoEntries<V>()
    ensures Keys<V>([]) == {} && AsMap<V>([]) == map[] && DistinctKeys<V>([])
  {
  }

  lemma {:induction false} WithFacts<V>(d: seq<Item<V>>, key: Key, value: V)
    requires DistinctKeys(d)
    ensures Keys(With(d, key, value)) == Keys(d) + {key}
    ensures DistinctKeys(With(d, key, value))
    ensures AsMap(With(d, key, value)) == AsMap(d)[key := value]
    ensures key !in Keys(d) ==> With(d, key, value) == d + [Item(key, value)]
  {
    if d == [] {
      Cons(Item(key, value), []);
      assert [Item(key, value)] + [] == [Item(key, value)];
    } else if d[0].key == key {
      Cons(Item(key, value), d[1..]);
    } else {
      WithFacts(d[1..], key, value);
      Cons(d[0], With(d[1..], key, value));
      assert [d[0]] + (d[1..] + [Item(key, value)]) == d + [Item(key, value)];
    }
  }

  lemma {:induction false} AppendFacts<V>(a: seq<Item<V>>, b: seq<Item<V>>)
    ensures Keys(a + b) == Keys(a) + Keys(b)
    ensures DistinctKeys(a + b) <==> DistinctKeys(a) && DistinctKeys(b) && Keys(a) !! Keys(b)
    ensures Keys(a) !! Keys(b) ==> AsMap(a + b) == AsMap(a) + AsMap(b)
  {
    if a == [] {
      assert a + b == b;
    } else {
      AppendFacts(a[1..], b);
      assert a + b == [a[0]] + (a[1..] + b);
      Cons(a[0], a[1..] + b);
      MapKeys(b);
    }
  }

  /** One more entry at the end, of a key that was not there. */
  lemma SnocFacts<V>(d: seq<Item<V>>, key: Key, value: V)
    requires key !in Keys(d)
    ensures Keys(d + [Item(key, value)]) == Keys(d) + {key}
    ensures DistinctKeys(d) ==> DistinctKeys(d + [Item(key, value)])
    ensures AsMap(d + [Item(key, value)]) == AsMap(d)[key := value]
  {
    Cons(Item(key, value), []);
    assert [Item(key, value)] + [] == [Item(key, value)];
    AppendFacts(d, [Item(key, value)]);
  }

  lemma {:induction false} DropFirst<V>(d: seq<Item<V>>)
    requires d != [] && DistinctKeys(d)
    ensures AsMap(d[1..]) == AsMap(d) - {d[0].key} && DistinctKeys(d[1..])
  {
    MapKeys(d[1..]);
  }

  lemma {:induction false} SizeIs<V>(d: seq<Item<V>>)
    requires DistinctKeys(d)
    ensures |Keys(d)| == |d|
  {
    if d != [] {
      SizeIs(d[1..]);
    }
  }

  lemma {:induction false} EntryOf<V>(d: seq<Item<V>>, i: nat)
    requires i < |d| && DistinctKeys(d)
    ensures d[i].key in AsMap(d) && AsMap(d)[d[i].key] == d[i].value
  {
    MapKeys(d[1..]);
    if i > 0 {
      EntryOf(d[1..], i - 1);
    }
  }
}
