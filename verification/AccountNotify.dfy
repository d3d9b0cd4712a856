/** `account_notify._admit`: at most so many account notices an hour, then one pause notice an hour. */
module AccountNotify {
  import opened Options
  import opened SlidingWindow

  datatype Limits = Limits(perHour: nat, hour: int)

  datatype Verdict = Send | Pause | Hold

  /** The deque of send times inside the hour, oldest first, and when the last pause went out. */
  datatype Budget = Budget(sentAt: seq<int>, pausedAt: Option<int>)

  function Decide(l: Limits, b: Budget, now: int): Verdict {
    if |Live(b.sentAt, now - l.hour)| < l.perHour then Send
    else if b.pausedAt.None? || now - b.pausedAt.value >= l.hour then Pause
    else Hold
  }

  function Admit(l: Limits, b: Budget, now: int): Budget {
    var kept := Live(b.sentAt, now - l.hour);
    match Decide(l, b, now)
    case Send => Budget(kept + [now], b.pausedAt)
    case Pause => Budget(kept, Some(now))
    case Hold => Budget(kept, b.pausedAt)
  }

  lemma DeadPrefix(stamps: seq<int>, dead: nat, i: nat, cutoff: int)
    requires dead <= |stamps| && AllBy(stamps[..dead], cutoff) && AllAfter(stamps[dead..], cutoff) && i < |stamps|
    ensures stamps[i] <= cutoff <==> i < dead
  {
    if i < dead {
      assert stamps[..dead][i] == stamps[i];
    } else {
      assert stamps[dead..][i - dead] == stamps[i];
    }
  }

  class Notices {
    const limits: Limits
    var sentAt: seq<int>
    var pausedAt: Option<int>

    ghost function View(): Budget
      reads this
    {
      Budget(sentAt, pausedAt)
    }

    constructor (limits: Limits)
      ensures this.limits == limits && View() == Budget([], None)
    {
      this.limits := limits;
      sentAt, pausedAt := [], None;
    }

    /** Pops what has aged out from the front, then decides. */
    method AdmitNotice(now: int) returns (verdict: Verdict)
      requires Sorted(sentAt) && AllBy(sentAt, now)
      modifies this
      ensures verdict == Decide(limits, old(View()), now)
      ensures View() == Admit(limits, old(View()), now)
      ensures Sorted(sentAt) && AllBy(sentAt, now)
    {
      hide Live;
      ghost var before := sentAt;
      ghost var dead := LiveIsSuffix(before, now - limits.hour);
      ghost var popped := 0;
      while |sentAt| > 0 && now - sentAt[0] >= limits.hour
        invariant 0 <= popped <= dead && sentAt == before[popped..] && pausedAt == old(pausedAt)
        decreases |sentAt|
      {
        DeadPrefix(before, dead, popped, now - limits.hour);
        sentAt := sentAt[1..];
        popped := popped + 1;
      }
      if popped < |before| {
        DeadPrefix(before, dead, popped, now - limits.hour);
      }
      if |sentAt| < limits.perHour {
        sentAt := sentAt + [now];
        return Send;
      }
      if pausedAt.None? || now - pausedAt.value >= limits.hour {
        pausedAt := Some(now);
        return Pause;
      }
      return Hold;
    }
  }

  // ------------------------------------------------------------------
  // Whole runs
  // ------------------------------------------------------------------

  datatype Entry = Entry(verdict: Verdict, at: int)

  datatype State = State(budget: Budget, log: seq<Entry>)

  function Step(l: Limits, s: State, now: int): State {
    State(Admit(l, s.budget, now), s.log + [Entry(Decide(l, s.budget, now), now)])
  }

  function Run(l: Limits, calls: seq<int>): State {
    if calls == [] then State(Budget([], None), [])
    else Step(l, Run(l, calls[..|calls| - 1]), calls[|calls| - 1])
  }

  /** Times of every send on the log, oldest first. */
  function Sends(log: seq<Entry>): seq<int> {
    if log == [] then [] else
      var e := log[|log| - 1];
      if e.verdict == Send then Sends(log[..|log| - 1]) + [e.at] else Sends(log[..|log| - 1])
  }

  /** Verdicts of one kind in the half-open hour from `from`. */
  function CountIn(log: seq<Entry>, v: Verdict, from: int, to: int): nat {
    if log == [] then 0 else
      var e := log[|log| - 1];
      CountIn(log[..|log| - 1], v, from, to) + if e.verdict == v && from <= e.at < to then 1 else 0
  }

  function LastPause(log: seq<Entry>): Option<int> {
    if log == [] then None
    else if log[|log| - 1].verdict == Pause then Some(log[|log| - 1].at)
    else LastPause(log[..|log| - 1])
  }

  /** How each entry of the log was decided, from the log alone. */
  ghost predicate Justified(l: Limits, log: seq<Entry>) {
    log == [] ||
    var front, e := log[..|log| - 1], log[|log| - 1];
    var recent := |Live(Sends(front), e.at - l.hour)|;
    var last := LastPause(front);
    && Justified(l, front)
    && (e.verdict == Send <==> recent < l.perHour)
    && (e.verdict == Pause ==> last.None? || e.at - last.value >= l.hour)
    && (e.verdict == Hold ==> last.Some? && e.at - last.value < l.hour)
    && (e.verdict != Send ==> recent == l.perHour)
    && (forall i :: 0 <= i < |front| ==> front[i].at <= e.at)
  }

  ghost predicate Inv(l: Limits, s: State, clock: int) {
    && Justified(l, s.log)
    && (forall i :: 0 <= i < |s.log| ==> s.log[i].at <= clock)
    && s.budget.pausedAt == LastPause(s.log)
    && Sorted(Sends(s.log)) && AllBy(Sends(s.log), clock)
    && OnlyMissesDead(s.budget.sentAt, Sends(s.log), clock - l.hour)
    && |Live(Sends(s.log), clock - l.hour)| <= l.perHour
  }

  lemma LogOne(log: seq<Entry>, e: Entry)
    ensures (log + [e])[..|log|] == log
    ensures Sends(log + [e]) == if e.verdict == Send then Sends(log) + [e.at] else Sends(log)
    ensures LastPause(log + [e]) == if e.verdict == Pause then Some(e.at) else LastPause(log)
  {
    assert (log + [e])[..|log|] == log;
  }

  lemma StepKeeps(l: Limits, s: State, clock: int, now: int)
    requires Inv(l, s, clock) && clock <= now && 0 < l.hour
    ensures Inv(l, Step(l, s, now), now)
  {
    hide Live, Sends, LastPause, OnlyMissesDead;
    var sent, log, cutoff := s.budget.sentAt, Sends(s.log), now - l.hour;
    LogOne(s.log, Entry(Decide(l, s.budget, now), now));
    LiveMonotone(log, clock - l.hour, cutoff);
    PrunedMissesDead(sent, log, clock - l.hour, cutoff, now);
    LiveOfOne(log, now, cutoff);
  }

  /** Pruning keeps every live send, then and after one more is appended. */
  lemma PrunedMissesDead(kept: seq<int>, log: seq<int>, cutoff: int, later: int, now: int)
    requires OnlyMissesDead(kept, log, cutoff) && cutoff <= later && Sorted(log)
    ensures Live(kept, later) == Live(log, later)
    ensures OnlyMissesDead(Live(kept, later), log, later)
    ensures OnlyMissesDead(Live(kept, later) + [now], log + [now], later)
  {
    hide Live, AllBy, Sorted;
    var cap := |log| + 2;
    StandsForPruned(kept, log, cap, cutoff, later);
    StandsForCharged(Live(kept, later), log, cap, later, now);
    LiveSeesThrough(kept, log, cutoff, later);
  }

  lemma LiveSeesThrough(kept: seq<int>, log: seq<int>, cutoff: int, later: int)
    requires OnlyMissesDead(kept, log, cutoff) && cutoff <= later
    ensures Live(kept, later) == Live(log, later)
  {
    hide Live;
    var n := |log| - |kept|;
    LiveOfDead(log[..n], later);
    assert log == log[..n] + kept;
    LiveConcat(log[..n], kept, later);
  }

  lemma {:induction false} RunInv(l: Limits, calls: seq<int>)
    requires Sorted(calls) && 0 < l.hour
    ensures Inv(l, Run(l, calls), if calls == [] then 0 else calls[|calls| - 1])
  {
    hide Step, Inv;
    if calls == [] {
      StartInv(l, 0);
    } else {
      var front := calls[..|calls| - 1];
      RunInv(l, front);
      if front == [] { StartInv(l, calls[|calls| - 1]); }
      StepKeeps(l, Run(l, front), if front == [] then calls[|calls| - 1] else front[|front| - 1], calls[|calls| - 1]);
    }
  }

  lemma StartInv(l: Limits, clock: int)
    ensures Inv(l, State(Budget([], None), []), clock)
  {}

  /** Sends in an hour were all still live at its last send. */
  lemma {:induction false} SendsAreLive(log: seq<Entry>, from: int, to: int, cutoff: int)
    requires cutoff < from
    ensures CountIn(log, Send, from, to) <= |Live(Sends(log), cutoff)|
  {
    if log != [] {
      SendsAreLive(log[..|log| - 1], from, to, cutoff);
      LiveOfOne(Sends(log[..|log| - 1]), log[|log| - 1].at, cutoff);
    }
  }

  lemma {:induction false} SendBound(l: Limits, log: seq<Entry>, from: int)
    requires Justified(l, log)
    ensures CountIn(log, Send, from, from + l.hour) <= l.perHour
  {
    if log != [] {
      var front, e := log[..|log| - 1], log[|log| - 1];
      SendBound(l, front, from);
      if e.verdict == Send && from <= e.at < from + l.hour {
        SendsAreLive(front, from, from + l.hour, e.at - l.hour);
      }
    }
  }

  lemma {:induction false} NoPauseSince(log: seq<Entry>, from: int, to: int)
    requires LastPause(log).None? || LastPause(log).value < from
    requires forall i, j :: 0 <= i < j < |log| ==> log[i].at <= log[j].at
    ensures CountIn(log, Pause, from, to) == 0
  {
    if log != [] {
      if log[|log| - 1].verdict == Pause {
        AllEarlier(log, from, to);
      } else {
        NoPauseSince(log[..|log| - 1], from, to);
      }
    }
  }

  lemma {:induction false} AllEarlier(log: seq<Entry>, from: int, to: int)
    requires forall i :: 0 <= i < |log| ==> log[i].at < from
    ensures CountIn(log, Pause, from, to) == 0
  {
    if log != [] {
      AllEarlier(log[..|log| - 1], from, to);
    }
  }

  lemma {:induction false} JustifiedSorted(l: Limits, log: seq<Entry>)
    requires Justified(l, log)
    ensures forall i, j :: 0 <= i < j < |log| ==> log[i].at <= log[j].at
  {
    if log != [] {
      JustifiedSorted(l, log[..|log| - 1]);
    }
  }

  lemma {:induction false} PauseBound(l: Limits, log: seq<Entry>, from: int)
    requires Justified(l, log)
    ensures CountIn(log, Pause, from, from + l.hour) <= 1
  {
    if log != [] {
      var front, e := log[..|log| - 1], log[|log| - 1];
      PauseBound(l, front, from);
      if e.verdict == Pause && from <= e.at < from + l.hour {
        JustifiedSorted(l, front);
        NoPauseSince(front, from, from + l.hour);
      }
    }
  }

  /** For any calls at non-decreasing times, every half-open hour holds at most `perHour` sends and
      at most one pause. */
  lemma NoticesPerHour(l: Limits, calls: seq<int>, from: int)
    requires Sorted(calls) && 0 < l.hour
    ensures CountIn(Run(l, calls).log, Send, from, from + l.hour) <= l.perHour
    ensures CountIn(Run(l, calls).log, Pause, from, from + l.hour) <= 1
  {
    hide Step, CountIn, Sends, Justified;
    RunInv(l, calls);
    SendBound(l, Run(l, calls).log, from);
    PauseBound(l, Run(l, calls).log, from);
  }

  /** A notice is withheld exactly when `perHour` sends lie in the hour before it, and a withheld one
      is announced by a pause exactly when no pause was sent in that hour. */
  lemma WithheldIffHourFull(l: Limits, calls: seq<int>, now: int)
    requires Sorted(calls + [now]) && 0 < l.hour
    ensures var s := Run(l, calls); var verdict := Decide(l, s.budget, now);
      && (verdict != Send <==> |Live(Sends(s.log), now - l.hour)| == l.perHour)
      && (verdict == Hold <==> verdict != Send && LastPause(s.log).Some? && now - LastPause(s.log).value < l.hour)
  {
    hide Step, Inv, Decide, Sends, LastPause, Live;
    assert calls == (calls + [now])[..|calls|];
    RunInv(l, calls);
    if calls == [] {
      StartInv(l, now);
      DecidedByLog(l, Run(l, calls), now, now);
    } else {
      var clock := calls[|calls| - 1];
      assert clock == (calls + [now])[|calls| - 1] <= (calls + [now])[|calls|];
      DecidedByLog(l, Run(l, calls), clock, now);
    }
  }

  lemma DecidedByLog(l: Limits, s: State, clock: int, now: int)
    requires Inv(l, s, clock) && clock <= now
    ensures var verdict := Decide(l, s.budget, now);
      && (verdict != Send <==> |Live(Sends(s.log), now - l.hour)| == l.perHour)
      && (verdict == Hold <==> verdict != Send && LastPause(s.log).Some? && now - LastPause(s.log).value < l.hour)
  {
    hide Sends, LastPause, Justified, Live, OnlyMissesDead;
    PrunedMissesDead(s.budget.sentAt, Sends(s.log), clock - l.hour, now - l.hour, now);
    LiveMonotone(Sends(s.log), clock - l.hour, now - l.hour);
  }
}
