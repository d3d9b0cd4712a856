/** Timestamps kept oldest first, and the filters the sliding windows are built from. */
module SlidingWindow {

  /** The stamps newer than `cutoff`, in their order. */
  function Live(stamps: seq<int>, cutoff: int): seq<int> {
    if stamps == [] then [] else
      var last := stamps[|stamps| - 1];
      Live(stamps[..|stamps| - 1], cutoff) + (if last > cutoff then [last] else [])
  }

  /** The newest `n` stamps, or all of them. */
  function LastN(stamps: seq<int>, n: nat): seq<int> {
    if n <= |stamps| then stamps[|stamps| - n..] else stamps
  }

  ghost predicate Sorted(stamps: seq<int>) {
    forall i, j :: 0 <= i < j < |stamps| ==> stamps[i] <= stamps[j]
  }

  /** Every stamp is at or before `t`. */
  ghost predicate AllBy(stamps: seq<int>, t: int) {
    forall i :: 0 <= i < |stamps| ==> stamps[i] <= t
  }

  ghost predicate AllAfter(stamps: seq<int>, t: int) {
    forall i :: 0 <= i < |stamps| ==> stamps[i] > t
  }

  lemma SuffixSorted(s: seq<int>, n: nat)
    requires Sorted(s) && n <= |s|
    ensures Sorted(s[n..])
  {}

  lemma AppendSorted(s: seq<int>, x: int)
    requires Sorted(s) && (s != [] ==> s[|s| - 1] <= x)
    ensures Sorted(s + [x])
  {}

  lemma LiveOfOne(s: seq<int>, x: int, cutoff: int)
    ensures Live(s + [x], cutoff) == Live(s, cutoff) + (if x > cutoff then [x] else [])
  {
    assert (s + [x])[..|s|] == s;
  }

  lemma {:induction false} LiveConcat(a: seq<int>, b: seq<int>, cutoff: int)
    ensures Live(a + b, cutoff) == Live(a, cutoff) + Live(b, cutoff)
  {
    if b == [] {
      assert a + b == a;
    } else {
      var front := b[..|b| - 1];
      assert (a + b)[..|a + b| - 1] == a + front;
      LiveConcat(a, front, cutoff);
    }
  }

  lemma {:induction false} LiveOfDead(s: seq<int>, cutoff: int)
    requires AllBy(s, cutoff)
    ensures Live(s, cutoff) == []
  {
    if s != [] {
      LiveOfDead(s[..|s| - 1], cutoff);
    }
  }

  lemma {:induction false} LiveOfLive(s: seq<int>, cutoff: int)
    requires AllAfter(s, cutoff)
    ensures Live(s, cutoff) == s
  {
    if s != [] {
      LiveOfLive(s[..|s| - 1], cutoff);
    }
  }

  /** Pruning a sorted list drops a prefix: what it drops is dead, what it keeps is a suffix. */
  lemma {:induction false} LiveIsSuffix(s: seq<int>, cutoff: int) returns (dead: nat)
    requires Sorted(s)
    ensures dead <= |s| && Live(s, cutoff) == s[dead..]
    ensures AllBy(s[..dead], cutoff) && AllAfter(s[dead..], cutoff)
  {
    if s == [] {
      dead := 0;
    } else if s[|s| - 1] <= cutoff {
      dead := |s|;
      LiveOfDead(s, cutoff);
    } else {
      dead := LiveIsSuffix(s[..|s| - 1], cutoff);
    }
  }

  /** An earlier cutoff keeps at least as many stamps. */
  lemma {:induction false} LiveMonotone(s: seq<int>, early: int, late: int)
    requires early <= late
    ensures |Live(s, late)| <= |Live(s, early)|
  {
    if s != [] {
      LiveMonotone(s[..|s| - 1], early, late);
    }
  }

  // ------------------------------------------------------------------
  // When a short list may stand for a long one
  // ------------------------------------------------------------------

  /** `kept` is the newest part of `log`, and all of the rest had aged out by `cutoff`. */
  ghost predicate OnlyMissesDead(kept: seq<int>, log: seq<int>, cutoff: int) {
    IsNewestOf(kept, log) && AllBy(log[..|log| - |kept|], cutoff)
  }

  ghost predicate IsNewestOf(kept: seq<int>, log: seq<int>) {
    |kept| <= |log| && kept == log[|log| - |kept|..]
  }

  /** `kept` is the newest part of `log`, and what is missing cannot matter again: either `cap`
      stamps are kept, or every stamp missing had aged out by `cutoff`. */
  ghost predicate StandsFor(kept: seq<int>, log: seq<int>, cap: nat, cutoff: int) {
    OnlyMissesDead(kept, log, cutoff) || (IsNewestOf(kept, log) && |kept| >= cap)
  }

  /** To miss only dead stamps is to stand for the log at any cap. */
  lemma MissingDeadStandsAtAnyCap(kept: seq<int>, log: seq<int>, cutoff: int)
    ensures OnlyMissesDead(kept, log, cutoff) <==> forall cap: nat :: StandsFor(kept, log, cap, cutoff)
  {
    assert StandsFor(kept, log, |kept| + 1, cutoff) ==> OnlyMissesDead(kept, log, cutoff);
  }

  /** From `cutoff` on, `kept` and `log` agree on whether `cap` stamps are live. */
  lemma StandsForCounts(kept: seq<int>, log: seq<int>, cap: nat, cutoff: int, later: int)
    requires StandsFor(kept, log, cap, cutoff) && cutoff <= later && Sorted(log)
    ensures |Live(kept, later)| >= cap <==> |Live(log, later)| >= cap
  {
    var n := |log| - |kept|;
    if AllBy(log[..n], later) {
      LiveOfDead(log[..n], later);
    } else {
      LiveBehindLive(log, n, later);
      LiveOfLive(kept, later);
    }
    assert log == log[..n] + kept;
    LiveConcat(log[..n], kept, later);
  }

  lemma LiveBehindLive(log: seq<int>, n: nat, cutoff: int)
    requires n <= |log| && Sorted(log) && !AllBy(log[..n], cutoff)
    ensures AllAfter(log[n..], cutoff)
  {
    var m :| 0 <= m < n && log[..n][m] > cutoff;
    forall j | 0 <= j < |log| - n ensures log[n..][j] > cutoff {
      assert log[m] <= log[n + j];
    }
  }

  /** Pruning at a later cutoff keeps the relation. */
  lemma StandsForPruned(kept: seq<int>, log: seq<int>, cap: nat, cutoff: int, later: int)
    requires StandsFor(kept, log, cap, cutoff) && cutoff <= later && Sorted(log)
    ensures StandsFor(Live(kept, later), log, cap, later)
  {
    hide Live;
    var dead := LiveIsSuffix(kept, later);
    var n := |log| - |kept|;
    assert kept[dead..] == log[n + dead..];
    if dead > 0 {
      assert log[n + dead - 1] == kept[..dead][dead - 1] <= later;
      assert forall i :: 0 <= i < n + dead - 1 ==> log[i] <= log[n + dead - 1];
    }
  }

  /** So does appending the same stamp to both and truncating the kept one to `cap`. */
  lemma StandsForCharged(kept: seq<int>, log: seq<int>, cap: nat, cutoff: int, now: int)
    requires StandsFor(kept, log, cap, cutoff)
    ensures StandsFor(LastN(kept + [now], cap), log + [now], cap, cutoff)
  {
    var longer := kept + [now];
    var grown := log + [now];
    assert longer == grown[|log| - |kept|..];
    if |longer| <= cap {
      assert grown[..|grown| - |longer|] == log[..|log| - |kept|];
      assert LastN(longer, cap) == longer;
    } else {
      assert LastN(longer, cap) == grown[|grown| - cap..];
    }
  }
}
