/** The metadata of bag-info.txt (RFC 8493, section 2.2.2) as the bagit
    library keeps it: an ordered list of key/value pairs in which a key may
    repeat. get(k) lists the values of k in order, remove(k) drops every
    pair with key k and add(k, v) appends one pair. */
module BagMetadata {

  datatype Pair = Pair(key: string, value: string)

  /** The values of key, in order. */
  function ValuesOf(ps: seq<Pair>, key: string): seq<string> {
    if ps == [] then []
    else (if ps[0].key == key then [ps[0].value] else []) + ValuesOf(ps[1..], key)
  }

  /** The pairs whose key is not key, in order. */
  function Drop(ps: seq<Pair>, key: string): seq<Pair> {
    if ps == [] then []
    else (if ps[0].key == key then [] else [ps[0]]) + Drop(ps[1..], key)
  }

  /** A key has no values exactly when no pair has it. */
  lemma {:induction false} ValuesOfEmpty(ps: seq<Pair>, key: string)
    ensures ValuesOf(ps, key) == [] <==> forall i :: 0 <= i < |ps| ==> ps[i].key != key
  {
    if ps != [] {
      ValuesOfEmpty(ps[1..], key);
      assert forall i :: 1 <= i < |ps| ==> ps[i] == ps[1..][i - 1];
    }
  }

  /** Drop keeps exactly the pairs with other keys, and never grows. */
  lemma {:induction false} DropMembers(ps: seq<Pair>, key: string)
    ensures forall p :: p in Drop(ps, key) <==> p in ps && p.key != key
    ensures |Drop(ps, key)| <= |ps|
  {
    if ps != [] {
      DropMembers(ps[1..], key);
      assert ps == [ps[0]] + ps[1..];
    }
  }

  lemma {:induction false} ValuesOfConcat(a: seq<Pair>, b: seq<Pair>, key: string)
    ensures ValuesOf(a + b, key) == ValuesOf(a, key) + ValuesOf(b, key)
  {
    if a == [] {
      assert a + b == b;
    } else {
      assert (a + b)[0] == a[0];
      assert (a + b)[1..] == a[1..] + b;
      var head := if a[0].key == key then [a[0].value] else [];
      ValuesOfConcat(a[1..], b, key);
      assert ValuesOf(a + b, key) == head + ValuesOf(a[1..] + b, key);
    }
  }

  /** Appending one pair adds its value to its own key's values only. */
  lemma ValuesOfAppend(ps: seq<Pair>, p: Pair, key: string)
    ensures ValuesOf(ps + [p], key) == ValuesOf(ps, key) + if p.key == key then [p.value] else []
  {
    ValuesOfConcat(ps, [p], key);
    assert [p][1..] == [];
  }

  lemma {:induction false} ValuesOfDrop(ps: seq<Pair>, dropped: string, key: string)
    ensures ValuesOf(Drop(ps, dropped), key) == if key == dropped then [] else ValuesOf(ps, key)
  {
    if ps != [] {
      var head := if ps[0].key == dropped then [] else [ps[0]];
      ValuesOfConcat(head, Drop(ps[1..], dropped), key);
      ValuesOfDrop(ps[1..], dropped, key);
    }
  }

  /** Removing a key and appending one pair with it leaves that pair's value
      as the key's only value and every other key's values as they were. */
  lemma Replaced(ps: seq<Pair>, key: string, value: string, other: string)
    ensures ValuesOf(Drop(ps, key) + [Pair(key, value)], key) == [value]
    ensures other != key ==> ValuesOf(Drop(ps, key) + [Pair(key, value)], other) == ValuesOf(ps, other)
  {
    ValuesOfConcat(Drop(ps, key), [Pair(key, value)], key);
    ValuesOfConcat(Drop(ps, key), [Pair(key, value)], other);
    ValuesOfDrop(ps, key, key);
    ValuesOfDrop(ps, key, other);
  }

  /** bagit's Metadata object. */
  class Metadata {
    var pairs: seq<Pair>

    constructor (pairs: seq<Pair>)
      ensures this.pairs == pairs
    {
      this.pairs := pairs;
    }

    /** get: the values of key, empty when no pair has it. */
    function Get(key: string): (r: seq<string>)
      reads this
      ensures r == [] <==> forall i :: 0 <= i < |pairs| ==> pairs[i].key != key
    {
      ValuesOfEmpty(pairs, key);
      ValuesOf(pairs, key)
    }

    /** remove: every pair with key goes. */
    method Remove(key: string)
      modifies this
      ensures pairs == Drop(old(pairs), key)
    {
      pairs := Drop(pairs, key);
    }

    /** add: one pair is appended. */
    method Add(key: string, value: string)
      modifies this
      ensures pairs == old(pairs) + [Pair(key, value)]
    {
      pairs := pairs + [Pair(key, value)];
    }
  }
}
