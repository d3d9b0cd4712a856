/** Whether a code can still verify once a newer one has been issued for its address: exactly when it
    had expired by then with a comparison of it under way. */
module OtpNewerCode {
  import opened Options
  import opened OtpTable
  import opened OtpRuns
  import opened OtpUse

  /** The run goes on and verifies the code. */
  ghost predicate VerifiesLater(p: Params, start: int, es: seq<Event>, more: seq<Event>, id: nat) {
    InTime(p, start, es + more) && id in Run(p, start, es + more).uses
  }

  /** `e` issues a code. */
  predicate Issues(p: Params, s: State, e: Event) { e.FinishIssue? && Step(p, s, e).nextId > s.nextId }

  // ------------------------------------------------------------------
  // A code nobody is comparing, once closed, is done with
  // ------------------------------------------------------------------

  ghost predicate Idle(s: State, id: nat) {
    && id < s.nextId && id !in s.comparing
    && forall i :: 0 <= i < |s.rows| && s.rows[i].id == id ==> !Open(s.rows[i], s.clock)
  }

  lemma StepIdle(p: Params, s: State, e: Event, id: nat)
    requires Timely(p, s, e) && Idle(s, id)
    ensures Idle(Step(p, s, e), id)
    ensures id in Step(p, s, e).uses <==> id in s.uses
  {
    hide Step, RowFrom, SameCode;
    var s' := Step(p, s, e);
    StepComparing(p, s, e, id);
    forall i | 0 <= i < |s'.rows| && s'.rows[i].id == id ensures !Open(s'.rows[i], s'.clock) {
      StepRows(p, s, e, i);
      StaysClosed(s, s'.rows[i], e.at, s'.clock, id);
    }
  }

  lemma StaysClosed(s: State, r: Code, now: int, later: int, id: nat)
    requires Idle(s, id) && RowFrom(s, r, now) && r.id == id && s.clock <= now <= later
    ensures !Open(r, later)
  {}

  lemma StepComparing(p: Params, s: State, e: Event, id: nat)
    requires Timely(p, s, e) && Idle(s, id)
    ensures var s' := Step(p, s, e);
      id !in s'.comparing && s.nextId <= s'.nextId && e.at <= s'.clock && (id in s'.uses <==> id in s.uses)
  {
    hide Latest, LimitReached, Superseded, Retained, Claimed, Used, HasUnused;
    if e.BeginVerify? {
      var otp := Latest(s.rows, e.email, p.attempts, e.at);
      if otp.Some? {
        var i :| 0 <= i < |s.rows| && s.rows[i] == otp.value;
      }
    }
  }

  lemma {:induction false} IdleForever(p: Params, start: int, es: seq<Event>, more: seq<Event>, id: nat)
    requires InTime(p, start, es + more) && Idle(Run(p, start, es), id)
    ensures Idle(Run(p, start, es + more), id)
    ensures id in Run(p, start, es + more).uses <==> id in Run(p, start, es).uses
  {
    hide Step, Idle;
    if more == [] {
      assert es + more == es;
    } else {
      var front := more[..|more| - 1];
      assert (es + more)[..|es + more| - 1] == es + front;
      IdleForever(p, start, es, front, id);
      StepIdle(p, Run(p, start, es + front), more[|more| - 1], id);
    }
  }

  // ------------------------------------------------------------------
  // The exact condition
  // ------------------------------------------------------------------

  /** Expired, unused and being compared when the newer code is issued. */
  ghost predicate ExpiredUnderComparison(s: State, r: Code, at: int) {
    !r.used && r.expires <= at && r.id in s.comparing
  }

  /** After any run, when a newer code is issued for an address, a code of that address not verified
      yet can still verify in some continuation exactly when it had expired, unused, with a comparison
      of it under way. */
  lemma VerifiesAfterNewerIff(p: Params, start: int, es: seq<Event>, e: Event, i: int)
    requires Sensible(p) && InTime(p, start, es + [e]) && Issues(p, Run(p, start, es), e)
    requires 0 <= i < |Run(p, start, es).rows| && Run(p, start, es).rows[i].email == e.email
    requires Run(p, start, es).rows[i].id !in Run(p, start, es).uses
    ensures var s := Run(p, start, es);
      (exists more :: VerifiesLater(p, start, es + [e], more, s.rows[i].id))
      <==> ExpiredUnderComparison(s, s.rows[i], e.at)
  {
    hide Step, Run, InTime, Inv, Spent, Idle, Sensible, TableOk;
    var s := Run(p, start, es);
    var id := s.rows[i].id;
    RunOneMore(p, start, es, e);
    RunInv(p, start, es);
    InvTable(p, s);
    if ExpiredUnderComparison(s, s.rows[i], e.at) {
      var f := FinishVerify(id, true, true, e.created);
      ComparisonWins(p, s, e, i);
      RunOneMore(p, start, es + [e], f);
      assert VerifiesLater(p, start, es + [e], [f], id);
    } else {
      DoneAfterNewer(p, s, e, i);
      forall more ensures !VerifiesLater(p, start, es + [e], more, id) {
        if InTime(p, start, es + [e] + more) {
          if Spent(Step(p, s, e), id) {
            SpentForever(p, start, es + [e], more, id);
          } else {
            IdleForever(p, start, es + [e], more, id);
          }
        }
      }
    }
  }

  lemma RunOneMore(p: Params, start: int, es: seq<Event>, e: Event)
    ensures Run(p, start, es + [e]) == Step(p, Run(p, start, es), e)
    ensures InTime(p, start, es + [e]) <==> InTime(p, start, es) && Timely(p, Run(p, start, es), e)
  {
    hide Step, Timely;
    assert (es + [e])[..|es|] == es;
  }

  /** The pending comparison, if its guess matches, wins right after the newer code is issued. */
  lemma ComparisonWins(p: Params, s: State, e: Event, i: int)
    requires Issues(p, s, e) && Timely(p, s, e) && 0 <= i < |s.rows| && ExpiredUnderComparison(s, s.rows[i], e.at)
    ensures var s' := Step(p, s, e); var f := FinishVerify(s.rows[i].id, true, true, e.created);
      Timely(p, s', f) && s.rows[i].id in Step(p, s', f).uses
  {
    hide LimitReached, Superseded;
    var s' := Step(p, s, e);
    assert s'.rows[i] == s.rows[i];
    assert HasUnused(s'.rows, s.rows[i].id);
    var after := Step(p, s', FinishVerify(s.rows[i].id, true, true, e.created)).uses;
    assert after[|s'.uses|] == s.rows[i].id;
  }

  /** Any other code of the address is done with as soon as the newer one is issued. */
  lemma DoneAfterNewer(p: Params, s: State, e: Event, i: int)
    requires TableOk(p, s.rows, s.nextId, s.clock) && Issues(p, s, e) && Timely(p, s, e)
    requires 0 <= i < |s.rows| && s.rows[i].email == e.email && !ExpiredUnderComparison(s, s.rows[i], e.at)
    ensures Step(p, s, e).uses == s.uses
    ensures Spent(Step(p, s, e), s.rows[i].id) || Idle(Step(p, s, e), s.rows[i].id)
  {
    hide TableOk, LimitReached, Superseded;
    var s' := Step(p, s, e);
    var r := s.rows[i];
    TableRow(p, s.rows, s.nextId, s.clock, i);
    forall j | 0 <= j < |s'.rows| && s'.rows[j].id == r.id
      ensures j == i
    {
      if j < |s.rows| && i != j {
        if i < j {
          TablePair(p, s.rows, s.nextId, s.clock, i, j);
        } else {
          TablePair(p, s.rows, s.nextId, s.clock, j, i);
        }
      }
    }
  }

  // ------------------------------------------------------------------
  // For which settings it happens
  // ------------------------------------------------------------------

  /** Issuing a newer code with `e` ends the address's other codes: none not verified by then ever is. */
  ghost predicate NewerCodeEndsOlder(p: Params, start: int, es: seq<Event>, e: Event, more: seq<Event>) {
    var s := Run(p, start, es);
    InTime(p, start, es + [e]) && Issues(p, s, e) ==>
      forall i :: 0 <= i < |s.rows| && s.rows[i].email == e.email && s.rows[i].id !in s.uses ==>
        !VerifiesLater(p, start, es + [e], more, s.rows[i].id)
  }

  /** A run that verifies the older code, for any settings under which codes are issued and guessed at:
      a first code is compared, the comparison outlives it, and a second is issued meanwhile. */
  lemma ExpiredComparisonStillVerifies(p: Params) returns (es: seq<Event>, e: Event, more: seq<Event>)
    requires Sensible(p) && 1 <= p.attempts <= p.draws
    ensures var s := Run(p, 0, es);
      && InTime(p, 0, es + [e]) && Issues(p, s, e)
      && |s.rows| == 1 && s.rows[0].email == e.email && s.rows[0].id !in s.uses
      && VerifiesLater(p, 0, es + [e], more, s.rows[0].id)
    ensures !NewerCodeEndsOlder(p, 0, es, e, more)
  {
    var late := p.expiry + p.window + 1;
    var e1, e2, e3, e4 := BeginIssue("a", 0), FinishIssue("a", "", 0, 0), BeginVerify("a", 0), BeginIssue("a", late);
    e := FinishIssue("a", "", late, late);
    FirstCompared(p);
    SecondHashed(p, late);
    hide Step, Run, InTime, Sensible;
    es := [e1] + [e2] + [e3] + [e4];
    assert [] + [e1] == [e1];
    RunOneMore(p, 0, [], e1);
    RunOneMore(p, 0, [e1], e2);
    RunOneMore(p, 0, [e1] + [e2], e3);
    RunOneMore(p, 0, [e1] + [e2] + [e3], e4);
    RunOneMore(p, 0, es, e);
    NothingRun(p);
    VerifiesAfterNewerIff(p, 0, es, e, 0);
    more :| VerifiesLater(p, 0, es + [e], more, Run(p, 0, es).rows[0].id);
  }

  lemma NothingRun(p: Params)
    ensures Run(p, 0, []) == Start(0) && InTime(p, 0, [])
  {}

  function Compared(p: Params): State {
    State([Code(0, "a", "", p.expiry, 1, false, 0)], 1, 0, multiset{}, multiset{0},
      [Claim(0, "a", 0, 0)], [])
  }

  lemma FirstCompared(p: Params)
    requires Sensible(p) && 1 <= p.attempts <= p.draws
    ensures var s1 := Step(p, Start(0), BeginIssue("a", 0));
      var s2 := Step(p, s1, FinishIssue("a", "", 0, 0));
      && Timely(p, Start(0), BeginIssue("a", 0)) && Timely(p, s1, FinishIssue("a", "", 0, 0))
      && Timely(p, s2, BeginVerify("a", 0)) && Step(p, s2, BeginVerify("a", 0)) == Compared(p)
  {
    var c := Code(0, "a", "", p.expiry, 0, false, 0);
    var s1 := Step(p, Start(0), BeginIssue("a", 0));
    assert s1 == Start(0).(hashing := multiset{"a"});
    var s2 := Step(p, s1, FinishIssue("a", "", 0, 0));
    assert Issued(p, [], 0, "a", "", 0, 0) == [c];
    assert s2 == State([c], 1, 0, multiset{}, multiset{}, [], []);
    assert [c][..0] == [];
    assert Latest([c], "a", p.attempts, 0) == Some(c);
    assert Claimed([c], 0, p.attempts, 0) == [c.(attempts := 1)];
  }

  lemma SecondHashed(p: Params, late: int)
    requires Sensible(p) && 1 <= p.attempts <= p.draws && late == p.expiry + p.window + 1
    ensures var s4 := Step(p, Compared(p), BeginIssue("a", late)); var e := FinishIssue("a", "", late, late);
      && Timely(p, Compared(p), BeginIssue("a", late)) && Timely(p, s4, e) && Issues(p, s4, e)
      && s4.rows == Compared(p).rows && s4.uses == [] && ExpiredUnderComparison(s4, s4.rows[0], late)
  {
    var rows := Compared(p).rows;
    assert rows[..0] == [];
    assert Misses(rows, "a", late - p.window) == 0;
  }

  /** Nothing is ever compared when a code takes no attempts. */
  lemma {:induction false} NothingCompared(p: Params, start: int, es: seq<Event>)
    requires p.attempts == 0
    ensures Run(p, start, es).comparing == multiset{}
  {
    hide Issued, LimitReached;
    if es != [] {
      NothingCompared(p, start, es[..|es| - 1]);
    }
  }

  /** Nothing is ever issued when one code costs more than the whole budget. */
  lemma NothingIssued(p: Params, s: State, e: Event)
    requires p.attempts > p.draws
    ensures !Issues(p, s, e)
  {}

  /** That a newer code ends every older one of its address holds over all runs exactly for settings
      under which no code is ever guessed at. */
  lemma NewerCodeEndsOlderIff(p: Params)
    requires Sensible(p)
    ensures (forall start, es, e, more :: NewerCodeEndsOlder(p, start, es, e, more)) <==> !(1 <= p.attempts <= p.draws)
  {
    hide Sensible, NewerCodeEndsOlder;
    if 1 <= p.attempts <= p.draws {
      var es, e, more := ExpiredComparisonStillVerifies(p);
    } else {
      forall start, es, e, more ensures NewerCodeEndsOlder(p, start, es, e, more) {
        EndsWhenNeverGuessed(p, start, es, e, more);
      }
    }
  }

  lemma EndsWhenNeverGuessed(p: Params, start: int, es: seq<Event>, e: Event, more: seq<Event>)
    requires Sensible(p) && !(1 <= p.attempts <= p.draws)
    ensures NewerCodeEndsOlder(p, start, es, e, more)
  {
    hide Sensible, Run, InTime, Step, VerifiesLater;
    var s := Run(p, start, es);
    if InTime(p, start, es + [e]) && Issues(p, s, e) {
      if p.attempts > p.draws {
        NothingIssued(p, s, e);
      } else {
        NothingCompared(p, start, es);
        forall i | 0 <= i < |s.rows| && s.rows[i].email == e.email && s.rows[i].id !in s.uses
          ensures !VerifiesLater(p, start, es + [e], more, s.rows[i].id)
        {
          VerifiesAfterNewerIff(p, start, es, e, i);
        }
      }
    }
  }
}
