/** `guess_budget.py`: the bounded ledger of stamps that password attempts and mail sends are
    counted in. `Book` is what the ledger means (an insertion-ordered map of stamp lists);
    `Ledger` is the store itself, with the key list and its index kept beside the map. */
module GuessBudget {
  import opened SlidingWindow

  // ------------------------------------------------------------------
  // The derivation of a cap
  // ------------------------------------------------------------------

  /** Draws a window may buy; probability times space, as a real, never zero. */
  function DrawsPerWindow(maxGuessProbability: real, space: nat): int {
    var draws := (maxGuessProbability * space as real).Floor;
    if draws < 1 then 1 else draws
  }

  function WindowCap(maxGuessProbability: real, space: nat, drawsPerUnit: int): int {
    var unit := if drawsPerUnit < 1 then 1 else drawsPerUnit;
    var units := DrawsPerWindow(maxGuessProbability, space) / unit;
    if units < 1 then 1 else units
  }

  /** The cap is the largest number of units the budget pays for, or one unit when it pays for
      none; the draws it hands out then stay within the stated probability. */
  lemma CapIsLargestAffordable(p: real, space: nat, drawsPerUnit: int, units: int)
    requires drawsPerUnit >= 1 && units >= 2
    ensures WindowCap(p, space, drawsPerUnit) >= 1 && WindowCap(p, space, 1 - drawsPerUnit) == WindowCap(p, space, 1)
    ensures units <= WindowCap(p, space, drawsPerUnit)
      <==> (units * drawsPerUnit) as real <= p * space as real
  {
    var draws := DrawsPerWindow(p, space);
    UnitsFit(draws, drawsPerUnit, units);
    TwoUnitsCost(drawsPerUnit, units);
  }

  /** The draws a window may buy are the most whose chance stays within the probability, and at least one. */
  lemma DrawsAreLargest(p: real, space: nat, draws: int)
    requires draws >= 2
    ensures DrawsPerWindow(p, space) >= 1
    ensures draws <= DrawsPerWindow(p, space) <==> draws as real <= p * space as real
  {}

  lemma UnitsFit(draws: int, cost: int, units: int)
    requires cost >= 1
    ensures units <= draws / cost <==> units * cost <= draws
  {
    var q := draws / cost;
    assert q * cost <= draws < (q + 1) * cost;
    if units <= q {
      assert units * cost <= q * cost;
    } else {
      assert units * cost >= (q + 1) * cost;
    }
  }

  lemma TwoUnitsCost(cost: int, units: int)
    requires cost >= 1 && units >= 2
    ensures units * cost >= 2
  {
    assert units * cost >= 2 * cost;
  }

  // ------------------------------------------------------------------
  // What the ledger means
  // ------------------------------------------------------------------

  /** Keys in order of last write, least recent first, and the stamps each holds. */
  datatype Book = Book(order: seq<string>, held: map<string, seq<int>>)

  function StampsOf(b: Book, key: string): seq<int> {
    if key in b.held then b.held[key] else []
  }

  function Without(keys: seq<string>, key: string): (rest: seq<string>)
    ensures forall k :: k in rest <==> k in keys && k != key
  {
    if keys == [] then [] else
      var front, last := keys[..|keys| - 1], keys[|keys| - 1];
      assert keys == front + [last];
      if last == key then Without(front, key) else Without(front, key) + [last]
  }

  function Forget(b: Book, key: string): Book {
    Book(Without(b.order, key), b.held - {key})
  }

  /** The answer of `_spent`. */
  predicate IsSpent(b: Book, key: string, cap: nat, cutoff: int) {
    key in b.held && |Live(b.held[key], cutoff)| > 0 && |Live(b.held[key], cutoff)| >= cap
  }

  /** What `_spent` leaves behind: the key pruned in place, or forgotten when nothing is live. */
  function Checked(b: Book, key: string, cutoff: int): Book {
    if key !in b.held then b
    else if Live(b.held[key], cutoff) == [] then Forget(b, key)
    else b.(held := b.held[key := Live(b.held[key], cutoff)])
  }

  /** The key a full ledger gives up: the front when it is dead, else whichever key was drawn. */
  function Evictee(b: Book, cutoff: int, drawn: string): string
    requires b.order != []
  {
    var front := b.order[0];
    if Live(StampsOf(b, front), cutoff) == [] || drawn !in b.order then front else drawn
  }

  function Roomed(b: Book, limit: nat, cutoff: int, drawn: string): Book {
    if b.order == [] || |b.order| < limit then b else Forget(b, Evictee(b, cutoff, drawn))
  }

  function Charged(b: Book, key: string, cap: nat, cutoff: int, now: int, limit: nat, drawn: string): Book {
    var stamps := LastN(Live(StampsOf(b, key), cutoff) + [now], cap);
    var room := if key in b.held then b else Roomed(b, limit, cutoff, drawn);
    Book(Without(room.order, key) + [key], room.held[key := stamps])
  }

  // ------------------------------------------------------------------
  // What every operation keeps
  // ------------------------------------------------------------------

  ghost predicate Distinct(keys: seq<string>) {
    keys == [] || (keys[|keys| - 1] !in keys[..|keys| - 1] && Distinct(keys[..|keys| - 1]))
  }

  function LastWrite(held: map<string, seq<int>>, key: string): int {
    if key in held && held[key] != [] then held[key][|held[key]| - 1] else 0
  }

  /** The order of the keys is the order of their last writes. */
  ghost predicate InWriteOrder(order: seq<string>, held: map<string, seq<int>>) {
    order == [] ||
    var front, last := order[..|order| - 1], order[|order| - 1];
    && InWriteOrder(front, held)
    && forall k :: k in front ==> LastWrite(held, k) <= LastWrite(held, last)
  }

  ghost predicate Sound(b: Book) {
    && Distinct(b.order)
    && (forall k :: k in b.order <==> k in b.held)
    && (forall k :: k in b.held ==> b.held[k] != [] && Sorted(b.held[k]))
    && InWriteOrder(b.order, b.held)
  }

  /** Nothing was written after `now`: what a non-decreasing clock gives every call. */
  ghost predicate WrittenBy(b: Book, now: int) {
    forall k :: k in b.held ==> LastWrite(b.held, k) <= now
  }

  lemma {:induction false} WithoutDistinct(keys: seq<string>, key: string)
    requires Distinct(keys)
    ensures Distinct(Without(keys, key))
    ensures |Without(keys, key)| == if key in keys then |keys| - 1 else |keys|
  {
    hide Distinct, Without;
    if keys == [] {
      WithoutNone(key);
    } else {
      var front, last := keys[..|keys| - 1], keys[|keys| - 1];
      assert keys == front + [last];
      DistinctOneMore(front, last);
      WithoutDistinct(front, key);
      WithoutOneMore(front, last, key);
      DistinctOneMore(Without(front, key), last);
    }
  }

  lemma WithoutNone(key: string)
    ensures Without([], key) == [] && Distinct([])
  {}

  lemma DistinctOneMore(keys: seq<string>, last: string)
    ensures Distinct(keys + [last]) <==> Distinct(keys) && last !in keys
  {
    assert (keys + [last])[..|keys|] == keys;
  }

  lemma WithoutOneMore(keys: seq<string>, last: string, key: string)
    ensures Without(keys + [last], key) == if last == key then Without(keys, key) else Without(keys, key) + [last]
  {
    assert (keys + [last])[..|keys|] == keys;
  }

  /** Dropping a key, or writing one that is not listed, keeps the others in write order. */
  lemma {:induction false} WriteOrderWithout(
    order: seq<string>, held: map<string, seq<int>>, held': map<string, seq<int>>, key: string)
    requires InWriteOrder(order, held)
    requires forall k :: k in order && k != key ==> LastWrite(held, k) == LastWrite(held', k)
    ensures InWriteOrder(Without(order, key), held')
  {
    if order != [] {
      var front, last := order[..|order| - 1], order[|order| - 1];
      assert order == front + [last];
      WriteOrderWithout(front, held, held', key);
      var rest := Without(front, key);
      if last != key {
        assert (rest + [last])[..|rest|] == rest;
      }
    }
  }

  lemma {:induction false} WriteOrderSame(
    order: seq<string>, held: map<string, seq<int>>, held': map<string, seq<int>>)
    requires InWriteOrder(order, held)
    requires forall k :: k in order ==> LastWrite(held, k) == LastWrite(held', k)
    ensures InWriteOrder(order, held')
  {
    if order != [] {
      var front := order[..|order| - 1];
      assert order == front + [order[|order| - 1]];
      WriteOrderSame(front, held, held');
    }
  }

  lemma {:induction false} FrontIsLeastRecent(order: seq<string>, held: map<string, seq<int>>, k: string)
    requires InWriteOrder(order, held) && k in order
    ensures LastWrite(held, order[0]) <= LastWrite(held, k)
  {
    var front, last := order[..|order| - 1], order[|order| - 1];
    assert order == front + [last];
    if front == [] {
    } else if k in front {
      FrontIsLeastRecent(front, held, k);
    } else {
      assert front[0] in front;
    }
  }

  /** A key's stamps are all dead exactly when its last write is. */
  lemma DeadByLastWrite(stamps: seq<int>, cutoff: int)
    requires stamps != [] && Sorted(stamps)
    ensures Live(stamps, cutoff) == [] <==> stamps[|stamps| - 1] <= cutoff
  {
    if stamps[|stamps| - 1] <= cutoff {
      assert AllBy(stamps, cutoff);
      LiveOfDead(stamps, cutoff);
    }
  }

  lemma UnprunedWhenAllLive(stamps: seq<int>, cutoff: int)
    requires Sorted(stamps)
    ensures |Live(stamps, cutoff)| == |stamps| ==> Live(stamps, cutoff) == stamps
  {
    var dead := LiveIsSuffix(stamps, cutoff);
  }

  lemma HeldSorted(b: Book, key: string)
    requires Sound(b) && key in b.held
    ensures Sorted(b.held[key])
  {
    hide Sorted, Distinct, InWriteOrder;
  }

  lemma ForgetSound(b: Book, key: string)
    requires Sound(b)
    ensures Sound(Forget(b, key))
    ensures |Forget(b, key).order| == if key in b.held then |b.order| - 1 else |b.order|
  {
    hide Sorted, Distinct, InWriteOrder, Without;
    WithoutDistinct(b.order, key);
    WriteOrderWithout(b.order, b.held, b.held - {key}, key);
  }

  lemma CheckedSound(b: Book, key: string, cutoff: int)
    requires Sound(b)
    ensures Sound(Checked(b, key, cutoff)) && |Checked(b, key, cutoff).order| <= |b.order|
    ensures forall now :: WrittenBy(b, now) ==> WrittenBy(Checked(b, key, cutoff), now)
  {
    hide Sound, Live, Without;
    if key !in b.held {
    } else if Live(b.held[key], cutoff) == [] {
      ForgetSound(b, key);
    } else {
      PrunedSound(b, key, cutoff);
    }
  }

  lemma PrunedSound(b: Book, key: string, cutoff: int)
    requires Sound(b) && key in b.held && Live(b.held[key], cutoff) != []
    ensures var b' := b.(held := b.held[key := Live(b.held[key], cutoff)]);
      Sound(b') && forall k :: LastWrite(b'.held, k) == LastWrite(b.held, k)
  {
    hide Distinct, InWriteOrder, Live, Sorted;
    var dead := LiveIsSuffix(b.held[key], cutoff);
    SuffixSorted(b.held[key], dead);
    var held := b.held[key := Live(b.held[key], cutoff)];
    assert forall k :: LastWrite(held, k) == LastWrite(b.held, k);
    WriteOrderSame(b.order, b.held, held);
  }

  lemma RoomedSound(b: Book, limit: nat, cutoff: int, drawn: string)
    requires Sound(b) && 1 <= limit && |b.order| <= limit
    ensures Sound(Roomed(b, limit, cutoff, drawn)) && |Roomed(b, limit, cutoff, drawn).order| < limit
  {
    if |b.order| == limit {
      ForgetSound(b, Evictee(b, cutoff, drawn));
    }
  }

  /** The whole invariant, through a charge: soundness, write order and the bound on keys. */
  lemma ChargedSound(b: Book, key: string, cap: nat, cutoff: int, now: int, limit: nat, drawn: string)
    requires Sound(b) && WrittenBy(b, now) && 1 <= cap && 1 <= limit && |b.order| <= limit
    ensures var b' := Charged(b, key, cap, cutoff, now, limit, drawn);
      Sound(b') && WrittenBy(b', now) && |b'.order| <= limit
  {
    if key !in b.held { RoomedSound(b, limit, cutoff, drawn); }
    var room := if key in b.held then b else Roomed(b, limit, cutoff, drawn);
    var stamps := LastN(Live(StampsOf(b, key), cutoff) + [now], cap);
    RestampedSorted(StampsOf(b, key), cap, cutoff, now);
    assert WrittenBy(room, now);
    hide *;
    WrittenSound(room, key, stamps, now);
  }

  lemma RestampedSorted(prior: seq<int>, cap: nat, cutoff: int, now: int)
    requires Sorted(prior) && (prior != [] ==> prior[|prior| - 1] <= now) && 1 <= cap
    ensures var stamps := LastN(Live(prior, cutoff) + [now], cap);
      stamps != [] && Sorted(stamps) && stamps[|stamps| - 1] == now
  {
    hide Live, Sorted;
    var dead := LiveIsSuffix(prior, cutoff);
    var longer := prior[dead..] + [now];
    SuffixSorted(prior, dead);
    AppendSorted(prior[dead..], now);
    if cap <= |longer| {
      SuffixSorted(longer, |longer| - cap);
    }
  }

  lemma AppendedInOrder(rest: seq<string>, held: map<string, seq<int>>, key: string)
    requires Distinct(rest) && key !in rest && InWriteOrder(rest, held)
    requires forall k :: k in rest ==> LastWrite(held, k) <= LastWrite(held, key)
    ensures Distinct(rest + [key]) && InWriteOrder(rest + [key], held)
  {
    assert (rest + [key])[..|rest|] == rest;
  }

  /** Writing `key` later than everything else and moving it to the back. */
  lemma MovedToBack(order: seq<string>, held: map<string, seq<int>>, held': map<string, seq<int>>, key: string)
    requires Distinct(order) && InWriteOrder(order, held)
    requires forall k :: k in order && k != key ==> LastWrite(held, k) == LastWrite(held', k) <= LastWrite(held', key)
    ensures Distinct(Without(order, key) + [key]) && InWriteOrder(Without(order, key) + [key], held')
    ensures |Without(order, key) + [key]| == if key in order then |order| else |order| + 1
  {
    hide Distinct, InWriteOrder, LastWrite;
    WithoutDistinct(order, key);
    WriteOrderWithout(order, held, held', key);
    AppendedInOrder(Without(order, key), held', key);
  }

  /** Storing a list ending at `now` under `key` and moving it to the back. */
  lemma WrittenSound(b: Book, key: string, stamps: seq<int>, now: int)
    requires Sound(b) && WrittenBy(b, now)
    requires stamps != [] && Sorted(stamps) && stamps[|stamps| - 1] == now
    ensures var b' := Book(Without(b.order, key) + [key], b.held[key := stamps]);
      && Sound(b') && WrittenBy(b', now)
      && |b'.order| == if key in b.held then |b.order| else |b.order| + 1
  {
    hide Sorted, Distinct, InWriteOrder, Without;
    var held := b.held[key := stamps];
    forall k | k in b.order && k != key
      ensures LastWrite(b.held, k) == LastWrite(held, k) <= LastWrite(held, key)
    {}
    MovedToBack(b.order, b.held, held, key);
  }

  /** A full ledger gives up a live key only when no tracked key is dead. */
  lemma LiveEvictionMeansNoneDead(b: Book, cutoff: int, drawn: string, other: string)
    requires Sound(b) && b.order != [] && other in b.held
    requires Live(StampsOf(b, Evictee(b, cutoff, drawn)), cutoff) != []
    ensures Live(b.held[other], cutoff) != []
  {
    var front := b.order[0];
    assert front in b.order;
    FrontIsLeastRecent(b.order, b.held, other);
    DeadByLastWrite(b.held[front], cutoff);
    DeadByLastWrite(b.held[other], cutoff);
  }

  // ------------------------------------------------------------------
  // The store
  // ------------------------------------------------------------------

  /** `slots` lists each tracked key once and `slotOf` is its inverse. */
  ghost predicate Indexed(slots: seq<string>, slotOf: map<string, int>, keys: set<string>) {
    && slotOf.Keys == keys
    && (forall k :: k in slotOf ==> 0 <= slotOf[k] < |slots| && slots[slotOf[k]] == k)
    && (forall i :: 0 <= i < |slots| ==> slots[i] in slotOf && slotOf[slots[i]] == i)
  }

  /** Every tracked key is drawn by exactly one draw: the eviction is uniform over the keys. */
  lemma OneDrawPerKey(slots: seq<string>, slotOf: map<string, int>, keys: set<string>, key: string)
    requires Indexed(slots, slotOf, keys)
    ensures |slots| == |keys|
    ensures key in keys <==> exists i :: 0 <= i < |slots| && slots[i] == key
    ensures forall i, j :: 0 <= i < |slots| && 0 <= j < |slots| && slots[i] == slots[j] ==> i == j
  {
    var n := 0;
    var seen: set<string> := {};
    while n < |slots|
      invariant n <= |slots| && |seen| == n && seen <= keys
      invariant forall i :: 0 <= i < n ==> slots[i] in seen
      invariant forall k :: k in seen ==> slotOf[k] < n
    {
      seen := seen + {slots[n]};
      n := n + 1;
    }
    assert seen == keys;
  }

  /** Swap-remove: the last slot takes the dropped key's place. */
  lemma IndexedWithout(slots: seq<string>, slotOf: map<string, int>, keys: set<string>, key: string)
    requires Indexed(slots, slotOf, keys) && key in keys
    ensures |slots| > 0 && key in slotOf && 0 <= slotOf[key] < |slots|
    ensures var i, last := slotOf[key], slots[|slots| - 1];
      if last == key then Indexed(slots[..|slots| - 1], slotOf - {key}, keys - {key})
      else Indexed(slots[..|slots| - 1][i := last], (slotOf - {key})[last := i], keys - {key})
  {}

  lemma IndexedWith(slots: seq<string>, slotOf: map<string, int>, keys: set<string>, key: string)
    requires Indexed(slots, slotOf, keys) && key !in keys
    ensures key !in slotOf && Indexed(slots + [key], slotOf[key := |slots|], keys + {key})
  {}

  class Ledger {
    const limit: nat
    var order: seq<string>
    var held: map<string, seq<int>>
    var slots: seq<string>
    var slotOf: map<string, int>

    ghost function View(): Book
      reads this
    {
      Book(order, held)
    }

    ghost predicate Valid()
      reads this
    {
      && 1 <= limit
      && |order| <= limit
      && Sound(View())
      && Indexed(slots, slotOf, held.Keys)
    }

    constructor (limit: nat)
      requires 1 <= limit
      ensures Valid() && this.limit == limit && View() == Book([], map[])
    {
      this.limit := limit;
      order, held, slots, slotOf := [], map[], [], map[];
    }

    method Drop(key: string)
      requires Valid()
      modifies this
      ensures Valid() && View() == Forget(old(View()), key)
    {
      hide Sound, Without, Indexed;
      ForgetSound(View(), key);
      ghost var keys := held.Keys;
      assert (held - {key}).Keys == keys - {key};
      order, held := Without(order, key), held - {key};
      DropSlot(key, keys);
    }

    /** Swap-remove: the last slot takes the dropped key's place. */
    method DropSlot(key: string, ghost keys: set<string>)
      requires Indexed(slots, slotOf, keys)
      modifies this`slots, this`slotOf
      ensures Indexed(slots, slotOf, keys - {key})
    {
      assert slotOf.Keys == keys;
      hide Indexed;
      if key !in slotOf {
        assert keys - {key} == keys;
        return;
      }
      IndexedWithout(slots, slotOf, keys, key);
      var i := slotOf[key];
      slotOf := slotOf - {key};
      var last := slots[|slots| - 1];
      slots := slots[..|slots| - 1];
      if last != key {
        slots := slots[i := last];
        slotOf := slotOf[last := i];
      }
    }

    /** Brings the store under its bound; at most one key goes, since it was never over it. */
    method MakeRoom(window: int, now: int) returns (ghost drawn: string)
      requires Valid()
      modifies this
      ensures Valid() && View() == Roomed(old(View()), limit, now - window, drawn)
      ensures |order| < limit && forall k :: k in held ==> k in old(held)
    {
      ghost var b := View();
      drawn := if order == [] then "" else order[0];
      RoomedSound(b, limit, now - window, drawn);
      while |order| > 0 && |order| >= limit
        invariant Valid()
        invariant View() == b || (|order| < limit && View() == Roomed(b, limit, now - window, drawn))
        decreases |order|
      {
        var front := order[0];
        assert front in order;
        if Live(held[front], now - window) == [] {
          ForgetSound(b, front);
          Drop(front);
          continue;
        }
        assert 0 <= slotOf[front] < |slots|;
        var draw :| 0 <= draw < |slots|;
        drawn := slots[draw];
        ForgetSound(b, drawn);
        Drop(slots[draw]);
      }
    }

    /** `_spent`: whether `cap` stamps are live, pruning as it reads, never moving the key. */
    method Spent(key: string, window: int, cap: nat, now: int) returns (spent: bool)
      requires Valid() && 1 <= cap
      modifies this
      ensures Valid() && View() == Checked(old(View()), key, now - window)
      ensures spent == IsSpent(old(View()), key, cap, now - window)
    {
      hide Sound, Indexed, Live, Forget;
      CheckedSound(View(), key, now - window);
      if key !in held {
        return false;
      }
      var stamps := Live(held[key], now - window);
      if stamps == [] {
        Drop(key);
        return false;
      }
      HeldSorted(View(), key);
      UnprunedWhenAllLive(held[key], now - window);
      assert held[key := stamps].Keys == held.Keys;
      if |stamps| != |held[key]| {
        held := held[key := stamps];
      } else {
        assert held == held[key := stamps];
      }
      return |stamps| >= cap;
    }

    /** `_charge`: one more stamp for `key`, which becomes the most recently written. */
    method Charge(key: string, window: int, cap: nat, now: int) returns (ghost drawn: string)
      requires Valid() && 1 <= cap && WrittenBy(View(), now)
      modifies this
      ensures Valid() && WrittenBy(View(), now)
      ensures View() == Charged(old(View()), key, cap, now - window, now, limit, drawn)
    {
      ghost var b := View();
      hide Sound, Live, LastN, Without, WrittenBy, Roomed, Indexed, Evictee, Charged;
      var stamps := Live(if key in held then held[key] else [], now - window);
      drawn := "";
      if key !in held {
        drawn := MakeRoom(window, now);
        IndexedWith(slots, slotOf, held.Keys, key);
        slotOf := slotOf[key := |slots|];
        slots := slots + [key];
      }
      ChargedSound(b, key, cap, now - window, now, limit, drawn);
      stamps := LastN(stamps + [now], cap);
      ChargedIs(b, if key in b.held then b else View(), key, cap, now - window, now, limit, drawn);
      assert held[key := stamps].Keys == if key in held then held.Keys else held.Keys + {key};
      held := held[key := stamps];
      order := Without(order, key) + [key];
    }
  }

  lemma ChargedIs(b: Book, room: Book, key: string, cap: nat, cutoff: int, now: int, limit: nat, drawn: string)
    requires room == if key in b.held then b else Roomed(b, limit, cutoff, drawn)
    ensures Charged(b, key, cap, cutoff, now, limit, drawn)
      == Book(Without(room.order, key) + [key], room.held[key := LastN(Live(StampsOf(b, key), cutoff) + [now], cap)])
  {}

  // ------------------------------------------------------------------
  // The budgets kept in a ledger
  // ------------------------------------------------------------------

  /** `spend_password_attempt`: check and charge in one step; a refusal charges nothing. */
  method SpendPasswordAttempt(failures: Ledger, key: string, window: int, cap: nat, now: int)
    returns (admitted: bool, ghost drawn: string)
    requires failures.Valid() && 1 <= cap && WrittenBy(failures.View(), now)
    modifies failures
    ensures failures.Valid() && WrittenBy(failures.View(), now)
    ensures admitted == !IsSpent(old(failures.View()), key, cap, now - window)
    ensures var checked := Checked(old(failures.View()), key, now - window);
      failures.View() ==
        if admitted then Charged(checked, key, cap, now - window, now, failures.limit, drawn) else checked
  {
    hide Sound, Checked, IsSpent, Charged, WrittenBy, Indexed;
    drawn := "";
    CheckedSound(failures.View(), key, now - window);
    var spent := failures.Spent(key, window, cap, now);
    if spent {
      return false, drawn;
    }
    drawn := failures.Charge(key, window, cap, now);
    return true, drawn;
  }

  /** `clear_password_failures`. */
  method ClearPasswordFailures(failures: Ledger, key: string)
    requires failures.Valid()
    modifies failures
    ensures failures.Valid() && failures.View() == Forget(old(failures.View()), key)
  {
    failures.Drop(key);
  }

  // Mail sends are counted at three levels, told apart by the first character of the key.

  function PairKey(email: string, network: string): string { "c|" + email + "|" + network }

  function AddressKey(email: string): string { "a|" + email }

  function ClientKey(network: string): string { "k|" + network }

  /** The three caps: `pairCap`, `clients` times it per address, `people` times it per client. */
  function MailCap(pairCap: nat, clients: nat, people: nat, key: string): nat {
    if |key| > 0 && key[0] == 'a' then pairCap * clients
    else if |key| > 0 && key[0] == 'k' then pairCap * people
    else pairCap
  }

  /** No two (address, client) pairs share a key, given that a network is written without `|`. */
  lemma PairKeyInjective(e1: string, n1: string, e2: string, n2: string)
    requires '|' !in n1 && '|' !in n2
    ensures PairKey(e1, n1) == PairKey(e2, n2) <==> e1 == e2 && n1 == n2
  {
    if PairKey(e1, n1) == PairKey(e2, n2) {
      SplitAtLastBar("c|" + e1, n1, "c|" + e2, n2);
      assert e1 == ("c|" + e1)[2..] && e2 == ("c|" + e2)[2..];
    }
  }

  lemma SplitAtLastBar(a1: string, n1: string, a2: string, n2: string)
    requires '|' !in n1 && '|' !in n2 && a1 + "|" + n1 == a2 + "|" + n2
    ensures a1 == a2 && n1 == n2
  {
    var k := a1 + "|" + n1;
    assert k[|a1|] == '|' && k[|a2|] == '|';
    assert forall i :: |a1| < i < |k| ==> k[i] == n1[i - |a1| - 1];
    assert forall i :: |a2| < i < |k| ==> k[i] == n2[i - |a2| - 1];
    assert |a1| == |a2|;
    assert a1 == k[..|a1|] == a2 && n1 == k[|a1| + 1..] == n2;
  }

  /** One network written as more, a bar, and the other. */
  predicate EndsAfterBar(longer: string, shorter: string) {
    |longer| > |shorter| && longer[|longer| - |shorter| - 1..] == "|" + shorter
  }

  /** A client string that does not parse as an address is used as given, and may hold the separator.
      Two different networks can share a key exactly when one ends in a bar followed by the other. */
  lemma PairKeysMeetIff(n1: string, n2: string)
    requires n1 != n2
    ensures (exists e1, e2 :: PairKey(e1, n1) == PairKey(e2, n2)) <==> EndsAfterBar(n1, n2) || EndsAfterBar(n2, n1)
  {
    hide PairKey, EndsAfterBar;
    if e1, e2 :| PairKey(e1, n1) == PairKey(e2, n2) {
      MeetingKeys(e1, n1, e2, n2);
    }
    if EndsAfterBar(n1, n2) {
      var e2 := KeyMet("", n1, n2);
    } else if EndsAfterBar(n2, n1) {
      var e1 := KeyMet("", n2, n1);
    }
  }

  lemma MeetingKeys(e1: string, n1: string, e2: string, n2: string)
    requires n1 != n2 && PairKey(e1, n1) == PairKey(e2, n2)
    ensures EndsAfterBar(n1, n2) || EndsAfterBar(n2, n1)
  {
    if |n1| < |n2| {
      TailOfKey(e2, n2, e1, n1);
    } else {
      TailOfKey(e1, n1, e2, n2);
    }
  }

  /** The end of a key, as long as the other's network and its bar, is that bar and network. */
  lemma TailOfKey(e1: string, n1: string, e2: string, n2: string)
    requires |n1| >= |n2| && PairKey(e1, n1) == PairKey(e2, n2)
    ensures n1 == n2 || EndsAfterBar(n1, n2)
  {
    var k := PairKey(e1, n1);
    assert k == ("c|" + e1 + "|") + n1 == ("c|" + e2) + ("|" + n2);
    assert k[|k| - |n1|..] == n1 && k[|k| - |n2| - 1..] == "|" + n2;
    if |n1| == |n2| {
      assert n1 == ("|" + n2)[1..];
    } else {
      assert n1[|n1| - |n2| - 1..] == k[|k| - |n2| - 1..];
    }
  }

  /** Whatever the address, the longer network's key is also the shorter one's, under another address. */
  lemma KeyMet(e1: string, n1: string, n2: string) returns (e2: string)
    requires EndsAfterBar(n1, n2)
    ensures PairKey(e1, n1) == PairKey(e2, n2)
  {
    var more := n1[..|n1| - |n2| - 1];
    e2 := e1 + "|" + more;
    assert n1 == more + ("|" + n2);
    assert PairKey(e2, n2) == "c|" + e1 + "|" + more + "|" + n2;
  }

  /** For one: a client given as `c|d` spends the budget of `d`. */
  lemma PairKeyCollision()
    ensures exists e1, e2 :: PairKey(e1, "c|d") == PairKey(e2, "d")
  {
    assert "c|d"[1..] == "|" + "d";
    PairKeysMeetIff("c|d", "d");
  }

  /** Which of the three budgets refuses, checked in order and stopping at the first. */
  predicate MailExhausted(
    b: Book, email: string, network: string, shared: bool, cutoff: int, pairCap: nat, clients: nat, people: nat)
  {
    var pair, address, client := PairKey(email, network), AddressKey(email), ClientKey(network);
    var b1 := Checked(b, pair, cutoff);
    var b2 := Checked(b1, address, cutoff);
    || IsSpent(b, pair, MailCap(pairCap, clients, people, pair), cutoff)
    || IsSpent(b1, address, MailCap(pairCap, clients, people, address), cutoff)
    || (!shared && IsSpent(b2, client, MailCap(pairCap, clients, people, client), cutoff))
  }

  /** What the checks leave behind: each budget looked at is pruned, and no other. */
  function MailChecked(
    b: Book, email: string, network: string, shared: bool, cutoff: int, pairCap: nat, clients: nat, people: nat): Book
  {
    var pair, address, client := PairKey(email, network), AddressKey(email), ClientKey(network);
    var b1 := Checked(b, pair, cutoff);
    var b2 := Checked(b1, address, cutoff);
    if IsSpent(b, pair, MailCap(pairCap, clients, people, pair), cutoff) then b1
    else if shared || IsSpent(b1, address, MailCap(pairCap, clients, people, address), cutoff) then b2
    else Checked(b2, client, cutoff)
  }

  /** `mail_sends_exhausted`, over a ledger used for mail alone. */
  method MailSendsExhausted(
    sends: Ledger, email: string, network: string, shared: bool, window: int, now: int,
    pairCap: nat, clients: nat, people: nat)
    returns (exhausted: bool)
    requires sends.Valid() && WrittenBy(sends.View(), now) && 1 <= pairCap && 1 <= clients && 1 <= people
    modifies sends
    ensures sends.Valid() && WrittenBy(sends.View(), now)
    ensures exhausted
      == MailExhausted(old(sends.View()), email, network, shared, now - window, pairCap, clients, people)
    ensures sends.View()
      == MailChecked(old(sends.View()), email, network, shared, now - window, pairCap, clients, people)
  {
    var pair, address, client := PairKey(email, network), AddressKey(email), ClientKey(network);
    hide Sound, Indexed, WrittenBy, IsSpent, Checked, PairKey, AddressKey, ClientKey, MailCap;
    MailChecksSound(sends.View(), pair, address, client, now - window);
    MailCapsPositive(pairCap, clients, people);
    exhausted := sends.Spent(pair, window, MailCap(pairCap, clients, people, pair), now);
    if exhausted {
      return true;
    }
    exhausted := sends.Spent(address, window, MailCap(pairCap, clients, people, address), now);
    if exhausted {
      return true;
    }
    if shared {
      return false;
    }
    exhausted := sends.Spent(client, window, MailCap(pairCap, clients, people, client), now);
  }

  lemma MailChecksSound(b: Book, pair: string, address: string, client: string, cutoff: int)
    requires Sound(b)
    ensures var b1 := Checked(b, pair, cutoff); var b2 := Checked(b1, address, cutoff);
      forall now :: WrittenBy(b, now) ==>
        WrittenBy(b1, now) && WrittenBy(b2, now) && WrittenBy(Checked(b2, client, cutoff), now)
  {
    hide Sound, Checked, WrittenBy;
    CheckedSound(b, pair, cutoff);
    CheckedSound(Checked(b, pair, cutoff), address, cutoff);
    CheckedSound(Checked(Checked(b, pair, cutoff), address, cutoff), client, cutoff);
  }

  lemma MailCapsPositive(pairCap: nat, clients: nat, people: nat)
    requires 1 <= pairCap && 1 <= clients && 1 <= people
    ensures forall k :: MailCap(pairCap, clients, people, k) >= 1
  {
    assert pairCap * clients >= 1 && pairCap * people >= 1;
  }

  /** `record_mail_send`: one stamp for the pair, one for the address, one for an unlisted client. */
  method RecordMailSend(
    sends: Ledger, email: string, network: string, shared: bool, window: int, now: int,
    pairCap: nat, clients: nat, people: nat)
    returns (ghost d1: string, ghost d2: string, ghost d3: string)
    requires sends.Valid() && WrittenBy(sends.View(), now) && 1 <= pairCap && 1 <= clients && 1 <= people
    modifies sends
    ensures sends.Valid() && WrittenBy(sends.View(), now)
    ensures sends.View() == MailCharged(old(sends.View()), email, network, shared, now - window, now,
      sends.limit, pairCap, clients, people, d1, d2, d3)
  {
    var pair, address, client := PairKey(email, network), AddressKey(email), ClientKey(network);
    hide Sound, Indexed, WrittenBy, Charged, PairKey, AddressKey, ClientKey, MailCap;
    MailCapsPositive(pairCap, clients, people);
    d3 := "";
    d1 := sends.Charge(pair, window, MailCap(pairCap, clients, people, pair), now);
    d2 := sends.Charge(address, window, MailCap(pairCap, clients, people, address), now);
    if !shared {
      d3 := sends.Charge(client, window, MailCap(pairCap, clients, people, client), now);
    }
  }

  function MailCharged(
    b: Book, email: string, network: string, shared: bool, cutoff: int, now: int, limit: nat,
    pairCap: nat, clients: nat, people: nat, d1: string, d2: string, d3: string): Book
  {
    var pair, address, client := PairKey(email, network), AddressKey(email), ClientKey(network);
    var b1 := Charged(b, pair, MailCap(pairCap, clients, people, pair), cutoff, now, limit, d1);
    var b2 := Charged(b1, address, MailCap(pairCap, clients, people, address), cutoff, now, limit, d2);
    if shared then b2
    else Charged(b2, client, MailCap(pairCap, clients, people, client), cutoff, now, limit, d3)
  }
}
