/** The in-memory caches of `auth_router.py`: insertion-ordered dictionaries of dated entries, pruned
    by age and then by count. */
module AuthCache {
  import opened Options

  /** One item of the dictionary; `at` is its timestamp. */
  datatype Entry<V> = Entry(key: nat, at: int, value: V)

  ghost predicate Distinct<V>(es: seq<Entry<V>>) {
    forall i, j :: 0 <= i < j < |es| ==> es[i].key != es[j].key
  }

  ghost predicate InTimeOrder<V>(es: seq<Entry<V>>) {
    forall i, j :: 0 <= i < j < |es| ==> es[i].at <= es[j].at
  }

  /** The place of `key`, or the length when it is absent. */
  function Place<V>(es: seq<Entry<V>>, key: nat): (i: nat)
    ensures i <= |es| && (i < |es| ==> es[i].key == key)
    ensures forall j :: 0 <= j < i ==> es[j].key != key
  {
    if es == [] then 0
    else
      var i := Place(es[..|es| - 1], key);
      if i < |es| - 1 then i else if es[|es| - 1].key == key then |es| - 1 else |es|
  }

  predicate Has<V>(es: seq<Entry<V>>, key: nat) { Place(es, key) < |es| }

  function Find<V>(es: seq<Entry<V>>, key: nat): Entry<V>
    requires Has(es, key)
  {
    es[Place(es, key)]
  }

  function Without<V>(es: seq<Entry<V>>, key: nat): seq<Entry<V>> {
    var i := Place(es, key);
    if i < |es| then es[..i] + es[i + 1..] else es
  }

  /** The entries a pass of the comprehension in `_prune_auth_cache` does not collect. */
  function Unexpired<V>(es: seq<Entry<V>>, cutoff: int): seq<Entry<V>> {
    if es == [] then [] else
      var front, last := es[..|es| - 1], es[|es| - 1];
      if last.at < cutoff then Unexpired(front, cutoff) else Unexpired(front, cutoff) + [last]
  }

  function Newest<V>(es: seq<Entry<V>>, max: nat): seq<Entry<V>> {
    if |es| > max then es[|es| - max..] else es
  }

  /** What one pass of `_prune_auth_cache` leaves of a cache. */
  function Pruned<V>(es: seq<Entry<V>>, ttl: int, max: nat, now: int): seq<Entry<V>> {
    Newest(Unexpired(es, now - ttl), max)
  }

  lemma {:induction false} NoneUnexpired<V>(es: seq<Entry<V>>, cutoff: int)
    requires forall i :: 0 <= i < |es| ==> es[i].at < cutoff
    ensures Unexpired(es, cutoff) == []
  {
    if es != [] {
      NoneUnexpired(es[..|es| - 1], cutoff);
    }
  }

  lemma {:induction false} UnexpiredIsSuffix<V>(es: seq<Entry<V>>, cutoff: int) returns (dead: nat)
    requires InTimeOrder(es)
    ensures dead <= |es| && Unexpired(es, cutoff) == es[dead..]
    ensures forall i :: 0 <= i < |es| ==> (es[i].at < cutoff <==> i < dead)
  {
    if es == [] {
      dead := 0;
    } else if es[|es| - 1].at < cutoff {
      dead := |es|;
      NoneUnexpired(es, cutoff);
    } else {
      dead := UnexpiredIsSuffix(es[..|es| - 1], cutoff);
      SuffixGrows(es, dead);
    }
  }

  lemma SuffixGrows<V>(es: seq<Entry<V>>, from: nat)
    requires from < |es|
    ensures es[from..] == es[..|es| - 1][from..] + [es[|es| - 1]]
  {
  }

  /** Entries are stored in time order, so pruning leaves a suffix of the dictionary: exactly the
      newest `max` of its unexpired entries, or all of them. */
  lemma PruneKeepsNewestUnexpired<V>(es: seq<Entry<V>>, ttl: int, max: nat, now: int) returns (k: nat)
    requires InTimeOrder(es)
    ensures k <= |es| && Pruned(es, ttl, max, now) == es[k..] && |Pruned(es, ttl, max, now)| <= max
    ensures forall i :: 0 <= i < |es| ==> (i >= k <==> es[i].at >= now - ttl && |es| - i <= max)
  {
    hide Unexpired;
    var dead := UnexpiredIsSuffix(es, now - ttl);
    k := if |es| - dead > max then |es| - max else dead;
  }

  // ------------------------------------------------------------------
  // The pruning loops
  // ------------------------------------------------------------------

  class Cache<V> {
    var entries: seq<Entry<V>>

    constructor ()
      ensures entries == []
    {
      entries := [];
    }

    method Pop(key: nat)
      modifies this
      ensures entries == Without(old(entries), key)
    {
      var i := 0;
      while i < |entries| && entries[i].key != key
        invariant 0 <= i <= |entries| && entries == old(entries)
        invariant forall j :: 0 <= j < i ==> entries[j].key != key
      {
        i := i + 1;
      }
      if i < |entries| {
        entries := entries[..i] + entries[i + 1..];
      }
    }

    method Lookup(key: nat) returns (found: Option<Entry<V>>)
      ensures found == if Has(entries, key) then Some(Find(entries, key)) else None
    {
      var i := Place(entries, key);
      return if i < |entries| then Some(entries[i]) else None;
    }

    method Get(key: nat) returns (found: Option<V>)
      ensures found == if Has(entries, key) then Some(Find(entries, key).value) else None
    {
      var entry := Lookup(key);
      return if entry.Some? then Some(entry.value.value) else None;
    }

    /** A key not yet present goes to the end. */
    method Append(e: Entry<V>)
      modifies this
      ensures entries == old(entries) + [e]
    {
      entries := entries + [e];
    }

    /** A value changed in place keeps its position and its date. */
    method Update(key: nat, value: V)
      requires Has(entries, key)
      modifies this
      ensures var i := Place(old(entries), key);
        entries == old(entries)[i := old(entries)[i].(value := value)]
    {
      var i := Place(entries, key);
      entries := entries[i := entries[i].(value := value)];
    }

    /** Collects the expired keys, pops each, then pops from the front while over the limit. */
    method Prune(ttl: int, max: nat, now: int)
      requires Distinct(entries) && InTimeOrder(entries)
      modifies this
      ensures entries == Pruned(old(entries), ttl, max, now)
    {
      hide Unexpired, Without;
      ghost var dead := UnexpiredIsSuffix(entries, now - ttl);
      var expired := Expired(now - ttl, dead);
      var i := 0;
      while i < |expired|
        invariant 0 <= i <= |expired| == dead && entries == old(entries)[i..]
      {
        WithoutFirst(entries);
        Pop(expired[i]);
        i := i + 1;
      }
      ghost var left := entries;
      while |entries| > max
        invariant |entries| <= |left| && entries == left[|left| - |entries|..]
        invariant |entries| >= max || entries == left
        decreases |entries|
      {
        var oldest := entries[0].key;
        WithoutFirst(entries);
        Pop(oldest);
      }
    }

    method Expired(cutoff: int, ghost dead: nat) returns (keys: seq<nat>)
      requires dead <= |entries|
      requires forall i :: 0 <= i < |entries| ==> (entries[i].at < cutoff <==> i < dead)
      ensures |keys| == dead && forall j :: 0 <= j < dead ==> keys[j] == entries[j].key
    {
      keys := [];
      for i := 0 to |entries|
        invariant |keys| == if i <= dead then i else dead
        invariant forall j :: 0 <= j < |keys| ==> keys[j] == entries[j].key
      {
        if entries[i].at < cutoff {
          keys := keys + [entries[i].key];
        }
      }
    }
  }

  /** Popping the first key of a dictionary drops its first entry. */
  lemma WithoutFirst<V>(es: seq<Entry<V>>)
    requires es != []
    ensures Without(es, es[0].key) == es[1..]
  {
    assert Place(es, es[0].key) == 0;
  }
}
