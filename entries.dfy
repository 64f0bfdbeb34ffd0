/**
 * A JavaScript object of string attributes (`itemSpecifics`) as the ordered list of its own
 * entries, the order `Object.entries` reports: assigning to an existing key keeps its position,
 * assigning to a new key appends it, `delete` removes it.
 */
module Entries {
  import opened Wrappers

  type Entries = seq<(string, string)>

  /** An object never has two properties with the same name. */
  predicate UniqueKeys(e: Entries) {
    forall i, j :: 0 <= i < j < |e| ==> e[i].0 != e[j].0
  }

  /** The property `k` of the object, if it has one. */
  function Lookup(e: Entries, k: string): Option<string>
    decreases |e|
  {
    if e == [] then None else if e[0].0 == k then Some(e[0].1) else Lookup(e[1..], k)
  }

  lemma {:induction false} LookupFound(e: Entries, i: nat)
    requires UniqueKeys(e) && i < |e|
    ensures Lookup(e, e[i].0) == Some(e[i].1)
  {
    if i > 0 {
      assert e[1..][i - 1] == e[i];
      LookupFound(e[1..], i - 1);
    }
  }

  lemma {:induction false} LookupAbsent(e: Entries, k: string)
    ensures Lookup(e, k).None? <==> forall i :: 0 <= i < |e| ==> e[i].0 != k
  {
    if e != [] {
      LookupAbsent(e[1..], k);
      assert forall i :: 1 <= i < |e| ==> e[i] == e[1..][i - 1];
    }
  }

  /**
   * `copy[k] = v` on a copy of the object: the key then maps to `v`, every other key keeps its
   * value, an existing key keeps its position and a new key is appended.
   */
  function Put(e: Entries, k: string, v: string): (r: Entries)
    ensures Lookup(r, k) == Some(v)
    ensures forall k' :: k' != k ==> Lookup(r, k') == Lookup(e, k')
    ensures Lookup(e, k).None? ==> r == e + [(k, v)]
    ensures Lookup(e, k).Some? ==> |r| == |e|
    decreases |e|
  {
    if e == [] then [(k, v)]
    else if e[0].0 == k then [(k, v)] + e[1..]
    else [e[0]] + Put(e[1..], k, v)
  }

  lemma UniqueTail(e: Entries)
    requires UniqueKeys(e) && e != []
    ensures UniqueKeys(e[1..]) && forall i :: 0 <= i < |e[1..]| ==> e[1..][i].0 != e[0].0
  {
    forall i | 0 <= i < |e[1..]| ensures e[1..][i].0 != e[0].0 {
      assert e[1..][i] == e[i + 1];
    }
  }

  /** On an object, `copy[k] = v` replaces the value in place when the key exists, and the result
      is again an object. */
  lemma {:induction false} PutInPlace(e: Entries, k: string, v: string)
    requires UniqueKeys(e)
    ensures UniqueKeys(Put(e, k, v))
    ensures forall i :: 0 <= i < |e| ==> Put(e, k, v)[i] == (if e[i].0 == k then (k, v) else e[i])
  {
    if e != [] {
      var t := e[1..];
      var r := Put(e, k, v);
      UniqueTail(e);
      if e[0].0 == k {
        assert r == [(k, v)] + t;
        forall i | 0 <= i < |e| ensures r[i] == (if e[i].0 == k then (k, v) else e[i]) {
          if i > 0 {
            assert r[i] == t[i - 1] == e[i];
          }
        }
      } else {
        PutInPlace(t, k, v);
        var rt := Put(t, k, v);
        assert r == [e[0]] + rt;
        LookupAbsent(t, k);
        forall j | 0 <= j < |rt| ensures rt[j].0 != e[0].0 {
          if j < |t| {
            assert rt[j] == (if t[j].0 == k then (k, v) else t[j]);
          } else {
            assert rt == t + [(k, v)];
          }
        }
        forall i | 0 <= i < |e| ensures r[i] == (if e[i].0 == k then (k, v) else e[i]) {
          if i > 0 {
            assert r[i] == rt[i - 1];
            assert t[i - 1] == e[i];
          }
        }
      }
    }
  }

  /** `delete copy[k]` on a copy of the object: the key is gone, everything else is kept in order. */
  function Remove(e: Entries, k: string): (r: Entries)
    ensures Lookup(r, k) == None
    ensures forall k' :: k' != k ==> Lookup(r, k') == Lookup(e, k')
    ensures Lookup(e, k).None? ==> r == e
    ensures UniqueKeys(e) ==> UniqueKeys(r)
    ensures forall i :: 0 <= i < |r| ==> r[i] in e && r[i].0 != k
    decreases |e|
  {
    if e == [] then []
    else if e[0].0 == k then Remove(e[1..], k)
    else [e[0]] + Remove(e[1..], k)
  }

  /** With unique keys, deleting a present key shortens the object by exactly one entry. */
  lemma {:induction false} RemovePresentShrinks(e: Entries, k: string)
    requires UniqueKeys(e) && Lookup(e, k).Some?
    ensures |Remove(e, k)| == |e| - 1
  {
    if e[0].0 == k {
      LookupAbsent(e[1..], k);
      assert Lookup(e[1..], k).None? by {
        forall i | 0 <= i < |e[1..]| ensures e[1..][i].0 != k {
          assert e[1..][i] == e[i + 1];
        }
      }
    } else {
      RemovePresentShrinks(e[1..], k);
    }
  }

  /** A key no later entry has: deleting it from the object drops just the first entry. */
  lemma RemoveFirst(e: Entries)
    requires UniqueKeys(e) && e != []
    ensures Remove(e, e[0].0) == e[1..]
  {
    UniqueTail(e);
    LookupAbsent(e[1..], e[0].0);
  }

  /** On an object, deleting the key of the entry at `i` removes exactly that entry: the entries
      before it and after it stay, in their order. */
  lemma {:induction false} RemoveAt(e: Entries, i: nat)
    requires UniqueKeys(e) && i < |e|
    ensures Remove(e, e[i].0) == e[..i] + e[i + 1..]
  {
    if i == 0 {
      RemoveFirst(e);
    } else {
      var t := e[1..];
      UniqueTail(e);
      assert t[i - 1] == e[i];
      RemoveAt(t, i - 1);
      assert Remove(e, e[i].0) == [e[0]] + Remove(t, e[i].0);
      assert t[..i - 1] + t[i..] == e[1..i] + e[i + 1..];
      assert [e[0]] + e[1..i] == e[..i];
    }
  }

  /** `${key}: ${value}`, one line of the copied text. */
  function Line(entry: (string, string)): string {
    entry.0 + ": " + entry.1
  }

  /** The lines of all entries, in entry order. */
  function Lines(e: Entries): (r: seq<string>)
    ensures |r| == |e|
    ensures forall i :: 0 <= i < |e| ==> r[i] == Line(e[i])
  {
    seq(|e|, i requires 0 <= i < |e| => Line(e[i]))
  }

  /** Dropping one entry drops exactly its line. */
  lemma LinesWithout(e: Entries, i: nat)
    requires i < |e|
    ensures Lines(e[..i] + e[i + 1..]) == Lines(e)[..i] + Lines(e)[i + 1..]
  {
    var d := e[..i] + e[i + 1..];
    assert forall j :: 0 <= j < |d| ==> d[j] == (if j < i then e[j] else e[j + 1]);
  }
}
