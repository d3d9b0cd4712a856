/** `kdf_admit` and `kdf_release`: the count of derivation-spending requests in progress, overall and
    per client network. */
module KdfAdmission {
  import opened Options

  /** Queue depth per thread, derivation threads, and requests one client may have in flight. */
  datatype Limits = Limits(queuePerThread: nat, threads: nat, perClient: nat)

  function Ceiling(l: Limits): nat { (l.queuePerThread + 1) * l.threads }

  datatype Counters = Counters(admitted: int, inFlight: map<string, int>)

  datatype Verdict = Admitted | Busy | TooManyInFlight

  function InFlight(c: Counters, key: string): int {
    if key in c.inFlight then c.inFlight[key] else 0
  }

  /** `key` is the client's network, or None for a listed shared network. */
  function Decide(l: Limits, c: Counters, key: Option<string>): Verdict {
    if c.admitted >= Ceiling(l) then Busy
    else if key.Some? && InFlight(c, key.value) >= l.perClient then TooManyInFlight
    else Admitted
  }

  function Admit(l: Limits, c: Counters, key: Option<string>): Counters {
    if Decide(l, c, key) != Admitted then c
    else Counters(c.admitted + 1,
      if key.Some? then c.inFlight[key.value := InFlight(c, key.value) + 1] else c.inFlight)
  }

  /** With the source's clamps: the total never below zero, a key dropped at zero or less. */
  function Release(c: Counters, key: Option<string>): Counters {
    Counters(if c.admitted - 1 < 0 then 0 else c.admitted - 1,
      if key.None? then c.inFlight
      else if InFlight(c, key.value) - 1 <= 0 then c.inFlight - {key.value}
      else c.inFlight[key.value := InFlight(c, key.value) - 1])
  }

  class Admission {
    const limits: Limits
    var admitted: int
    var inFlight: map<string, int>

    ghost function View(): Counters
      reads this
    {
      Counters(admitted, inFlight)
    }

    constructor (limits: Limits)
      ensures this.limits == limits && View() == Counters(0, map[])
    {
      this.limits := limits;
      admitted, inFlight := 0, map[];
    }

    method KdfAdmit(key: Option<string>) returns (verdict: Verdict)
      modifies this
      ensures verdict == Decide(limits, old(View()), key)
      ensures View() == Admit(limits, old(View()), key)
    {
      if admitted >= (limits.queuePerThread + 1) * limits.threads {
        return Busy;
      }
      if key.Some? {
        var held := if key.value in inFlight then inFlight[key.value] else 0;
        if held >= limits.perClient {
          return TooManyInFlight;
        }
        inFlight := inFlight[key.value := held + 1];
      }
      admitted := admitted + 1;
      return Admitted;
    }

    method KdfRelease(key: Option<string>)
      modifies this
      ensures View() == Release(old(View()), key)
    {
      admitted := if admitted - 1 < 0 then 0 else admitted - 1;
      if key.None? {
        return;
      }
      var left := (if key.value in inFlight then inFlight[key.value] else 0) - 1;
      if left <= 0 {
        inFlight := inFlight - {key.value};
      } else {
        inFlight := inFlight[key.value := left];
      }
    }
  }

  // ------------------------------------------------------------------
  // Conservation over whole runs
  // ------------------------------------------------------------------

  datatype Event = Arrive(key: Option<string>) | Leave(key: Option<string>)

  /** The counters, and the admissions not yet released. */
  datatype State = State(counters: Counters, outstanding: multiset<Option<string>>)

  function Step(l: Limits, s: State, e: Event): State {
    match e
    case Arrive(key) =>
      State(Admit(l, s.counters, key),
        if Decide(l, s.counters, key) == Admitted then s.outstanding + multiset{key} else s.outstanding)
    case Leave(key) => State(Release(s.counters, key), s.outstanding - multiset{key})
  }

  function Run(l: Limits, es: seq<Event>): State {
    if es == [] then State(Counters(0, map[]), multiset{}) else Step(l, Run(l, es[..|es| - 1]), es[|es| - 1])
  }

  /** Each admission is released at most once: a release names an outstanding one. */
  ghost predicate ReleasedOnce(l: Limits, es: seq<Event>) {
    es == [] ||
    var front, e := es[..|es| - 1], es[|es| - 1];
    ReleasedOnce(l, front) && (e.Leave? ==> e.key in Run(l, front).outstanding)
  }

  /** The counters count exactly the outstanding admissions, hold no zero entry, and keep both
      limits. */
  ghost predicate Conserved(l: Limits, s: State) {
    && s.counters.admitted == |s.outstanding| <= Ceiling(l)
    && (forall k :: InFlight(s.counters, k) == s.outstanding[Some(k)] <= l.perClient)
    && (forall k :: k in s.counters.inFlight ==> s.counters.inFlight[k] > 0)
  }

  lemma StepConserves(l: Limits, s: State, e: Event)
    requires Conserved(l, s) && (e.Leave? ==> e.key in s.outstanding)
    ensures Conserved(l, Step(l, s, e))
  {
    hide Ceiling;
    match e
    case Arrive(key) =>
      var s' := Step(l, s, e);
      forall k ensures InFlight(s'.counters, k) == s'.outstanding[Some(k)] <= l.perClient {
        assert InFlight(s.counters, k) == s.outstanding[Some(k)];
      }
    case Leave(key) =>
      var s' := Step(l, s, e);
      assert |s.outstanding| == |s'.outstanding| + 1;
      forall k ensures InFlight(s'.counters, k) == s'.outstanding[Some(k)] <= l.perClient {
        assert InFlight(s.counters, k) == s.outstanding[Some(k)];
      }
  }

  lemma {:induction false} RunConserves(l: Limits, es: seq<Event>)
    requires ReleasedOnce(l, es)
    ensures Conserved(l, Run(l, es))
  {
    hide Step, Ceiling;
    if es != [] {
      RunConserves(l, es[..|es| - 1]);
      StepConserves(l, Run(l, es[..|es| - 1]), es[|es| - 1]);
    }
  }

  /** And admission is decided by them alone: busy exactly when `(queuePerThread + 1) * threads`
      admissions are outstanding, and otherwise refused exactly when the client has `perClient` of them. */
  lemma AdmittedIffRoom(l: Limits, es: seq<Event>, key: Option<string>)
    requires ReleasedOnce(l, es)
    ensures var held := Run(l, es).outstanding; var verdict := Decide(l, Run(l, es).counters, key);
      && (verdict == Busy <==> |held| == (l.queuePerThread + 1) * l.threads)
      && (verdict == TooManyInFlight <==> verdict != Busy && key.Some? && held[key] == l.perClient)
  {
    hide Step, Run, InFlight;
    RunConserves(l, es);
    if key.Some? {
      assert InFlight(Run(l, es).counters, key.value) == Run(l, es).outstanding[Some(key.value)];
    }
  }

  /** In such a run neither clamp in the release is ever reached: what is taken away was there. */
  lemma ClampsNeverReached(l: Limits, es: seq<Event>, key: Option<string>)
    requires ReleasedOnce(l, es) && key in Run(l, es).outstanding
    ensures var c := Run(l, es).counters;
      && Release(c, key).admitted == c.admitted - 1 >= 0
      && (key.Some? ==> InFlight(Release(c, key), key.value) == InFlight(c, key.value) - 1 >= 0)
  {
    hide Step, Ceiling;
    RunConserves(l, es);
    var s := Run(l, es);
    assert s.outstanding == (s.outstanding - multiset{key}) + multiset{key};
  }

  /** When every admission has been released the counters are as at the start: no slot leaks. */
  lemma AllReleasedIsIdle(l: Limits, es: seq<Event>)
    requires ReleasedOnce(l, es) && Run(l, es).outstanding == multiset{}
    ensures Run(l, es).counters == Counters(0, map[])
  {
    hide Step, Ceiling;
    RunConserves(l, es);
    var c := Run(l, es).counters;
    forall k ensures k !in c.inFlight {
      assert InFlight(c, k) == 0;
    }
    assert c.inFlight == map[];
  }
}
