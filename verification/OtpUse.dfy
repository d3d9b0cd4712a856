/** What a code is good for over a whole run: one live code per address, one verification per code,
    none after it is superseded; and that cleaning up old codes changes no decision. */
module OtpUse {
  import opened Options
  import opened OtpTable
  import opened OtpRuns

  lemma OneLiveCode(p: Params, start: int, es: seq<Event>, i: int, j: int)
    requires Sensible(p) && InTime(p, start, es)
    requires var rows := Run(p, start, es).rows; 0 <= i < |rows| && 0 <= j < |rows|
    ensures var s := Run(p, start, es);
      s.rows[i].email == s.rows[j].email && Open(s.rows[i], s.clock) && Open(s.rows[j], s.clock) ==> i == j
  {
    hide Step, TableOk, ClaimsOk, CountsOk, UsesOk;
    RunInv(p, start, es);
    var s := Run(p, start, es);
    if i < j {
      TablePair(p, s.rows, s.nextId, s.clock, i, j);
    } else if j < i {
      TablePair(p, s.rows, s.nextId, s.clock, j, i);
    }
  }

  /** However verifications of a code interleave, it is compared against at most `attempts` guesses
      and at most one of them verifies. */
  lemma AttemptsAndSingleUse(p: Params, start: int, es: seq<Event>, id: nat)
    requires Sensible(p) && InTime(p, start, es)
    ensures var s := Run(p, start, es);
      && ClaimsOn(s.claims, id) <= p.attempts
      && forall j, k :: 0 <= j < k < |s.uses| ==> s.uses[j] != s.uses[k]
  {
    hide Step, TableOk, ClaimsOk, ClaimsOn;
    RunInv(p, start, es);
  }

  // ------------------------------------------------------------------
  // No use after use, or after a newer code
  // ------------------------------------------------------------------

  /** No unused row carries `id`, and none will be given it again. */
  ghost predicate Spent(s: State, id: nat) {
    id < s.nextId && forall i :: 0 <= i < |s.rows| && s.rows[i].id == id ==> s.rows[i].used
  }

  lemma StepSpent(p: Params, s: State, e: Event, id: nat)
    requires Timely(p, s, e) && Spent(s, id)
    ensures Spent(Step(p, s, e), id)
    ensures id in Step(p, s, e).uses <==> id in s.uses
  {
    hide Latest, LimitReached, Superseded, Retained, Claimed, Used;
    var s' := Step(p, s, e);
    forall i | 0 <= i < |s'.rows| && s'.rows[i].id == id ensures s'.rows[i].used {
      StepRows(p, s, e, i);
    }
  }

  /** The run goes on: `more` after `es`. */
  lemma {:induction false} SpentForever(p: Params, start: int, es: seq<Event>, more: seq<Event>, id: nat)
    requires InTime(p, start, es + more) && Spent(Run(p, start, es), id)
    ensures Spent(Run(p, start, es + more), id)
    ensures id in Run(p, start, es + more).uses <==> id in Run(p, start, es).uses
  {
    hide Step, Spent;
    if more == [] {
      assert es + more == es;
    } else {
      var front := more[..|more| - 1];
      assert (es + more)[..|es + more| - 1] == es + front;
      SpentForever(p, start, es, front, id);
      StepSpent(p, Run(p, start, es + front), more[|more| - 1], id);
    }
  }

  /** A code unexpired when a newer one is issued for its address verifies no guess after that, also
      not one whose comparison was already under way: `e` issues the newer one, `more` is any rest of
      the run. */
  lemma NoUseOnceSuperseded(p: Params, start: int, es: seq<Event>, e: Event, more: seq<Event>)
    requires Sensible(p) && e.FinishIssue? && InTime(p, start, es) && InTime(p, start, es + [e] + more)
    ensures var s, after := Run(p, start, es), Run(p, start, es + [e] + more).uses;
      Step(p, s, e).nextId > s.nextId ==>
        forall i :: 0 <= i < |s.rows| && s.rows[i].email == e.email && s.rows[i].expires > e.at ==>
          (s.rows[i].id in after <==> s.rows[i].id in s.uses)
  {
    hide Step, TableOk, Run, InTime, Inv, Spent;
    var s := Run(p, start, es);
    RunInv(p, start, es);
    InvTable(p, s);
    RunOne(p, start, es, e);
    if Step(p, s, e).nextId > s.nextId {
      forall i | 0 <= i < |s.rows| && s.rows[i].email == e.email && s.rows[i].expires > e.at
        ensures s.rows[i].id in Run(p, start, es + [e] + more).uses <==> s.rows[i].id in s.uses
      {
        SupersededIsSpent(p, s, e, i);
        SpentForever(p, start, es + [e], more, s.rows[i].id);
      }
    }
  }

  lemma SupersededIsSpent(p: Params, s: State, e: Event, i: int)
    requires TableOk(p, s.rows, s.nextId, s.clock) && e.FinishIssue? && Step(p, s, e).nextId > s.nextId
    requires 0 <= i < |s.rows| && s.rows[i].email == e.email && s.rows[i].expires > e.at
    ensures Spent(Step(p, s, e), s.rows[i].id) && Step(p, s, e).uses == s.uses
  {
    hide TableOk, LimitReached;
    TableRow(p, s.rows, s.nextId, s.clock, i);
    var s' := Step(p, s, e);
    forall j | 0 <= j < |s'.rows| && s'.rows[j].id == s.rows[i].id ensures s'.rows[j].used {
      if j < |s.rows| && i != j {
        if i < j {
          TablePair(p, s.rows, s.nextId, s.clock, i, j);
        } else {
          TablePair(p, s.rows, s.nextId, s.clock, j, i);
        }
      }
    }
  }

  lemma RunOne(p: Params, start: int, es: seq<Event>, e: Event)
    ensures Run(p, start, es + [e]) == Step(p, Run(p, start, es), e)
  {
    assert (es + [e])[..|es|] == es;
  }

  // ------------------------------------------------------------------
  // Cleanup changes nothing that is decided later
  // ------------------------------------------------------------------

  function StepKeeping(p: Params, s: State, e: Event): State {
    if e.Cleanup? then s.(clock := e.at) else Step(p, s, e)
  }

  /** The same run with every cleanup left out. */
  function RunKeeping(p: Params, start: int, es: seq<Event>): State {
    if es == [] then Start(start) else StepKeeping(p, RunKeeping(p, start, es[..|es| - 1]), es[|es| - 1])
  }

  lemma {:induction false} RetainedTwice(rows: seq<Code>, cutoff: int, later: int)
    requires cutoff <= later
    ensures Retained(Retained(rows, cutoff), later) == Retained(rows, later)
  {
    if rows != [] {
      var front, last := rows[..|rows| - 1], rows[|rows| - 1];
      RetainedTwice(front, cutoff, later);
      var kept := Retained(front, cutoff);
      assert (kept + [last])[..|kept|] == kept;
    }
  }

  lemma {:induction false} RetainedSuperseded(rows: seq<Code>, email: string, now: int, cutoff: int)
    ensures Retained(Superseded(rows, email, now), cutoff) == Superseded(Retained(rows, cutoff), email, now)
  {
    if rows != [] {
      var front, last := rows[..|rows| - 1], rows[|rows| - 1];
      RetainedSuperseded(front, email, now, cutoff);
      assert Superseded(rows, email, now)[..|front|] == Superseded(front, email, now);
      var kept := Retained(front, cutoff);
      assert (kept + [last])[..|kept|] == kept;
    }
  }

  lemma {:induction false} RetainedClaimed(rows: seq<Code>, id: nat, maxAttempts: nat, now: int, cutoff: int)
    ensures Retained(Claimed(rows, id, maxAttempts, now), cutoff)
      == Claimed(Retained(rows, cutoff), id, maxAttempts, now)
  {
    hide Retained, Claimed, Claimable;
    if rows == [] {
      NothingToClaim(id, maxAttempts, now, cutoff);
    } else {
      var front, last := rows[..|rows| - 1], rows[|rows| - 1];
      assert rows == front + [last];
      RetainedClaimed(front, id, maxAttempts, now, cutoff);
      ClaimedOne(front, last, id, maxAttempts, now);
      RetainedOne(front, last, cutoff);
      var last' :=
        if last.id == id && Claimable(last, maxAttempts, now) then last.(attempts := last.attempts + 1) else last;
      RetainedOne(Claimed(front, id, maxAttempts, now), last', cutoff);
      if last.expires > cutoff {
        ClaimedOne(Retained(front, cutoff), last, id, maxAttempts, now);
      } else {
        assert Retained(rows, cutoff) == Retained(front, cutoff);
      }
    }
  }

  lemma NothingToClaim(id: nat, maxAttempts: nat, now: int, cutoff: int)
    ensures Retained(Claimed([], id, maxAttempts, now), cutoff) == Claimed(Retained([], cutoff), id, maxAttempts, now)
  {}

  lemma ClaimedOne(rows: seq<Code>, r: Code, id: nat, maxAttempts: nat, now: int)
    ensures Claimed(rows + [r], id, maxAttempts, now) == Claimed(rows, id, maxAttempts, now)
      + [if r.id == id && Claimable(r, maxAttempts, now) then r.(attempts := r.attempts + 1) else r]
  {
    assert (rows + [r])[..|rows|] == rows;
  }

  lemma {:induction false} RetainedUsed(rows: seq<Code>, id: nat, cutoff: int)
    ensures Retained(Used(rows, id), cutoff) == Used(Retained(rows, cutoff), id)
  {
    if rows != [] {
      var front, last := rows[..|rows| - 1], rows[|rows| - 1];
      RetainedUsed(front, id, cutoff);
      assert Used(rows, id)[..|front|] == Used(front, id);
      var kept := Retained(front, cutoff);
      assert (kept + [last])[..|kept|] == kept;
    }
  }

  /** A lookup sees only unexpired codes, so it sees through the cleanup. */
  lemma {:induction false} LatestRetained(rows: seq<Code>, email: string, maxAttempts: nat, now: int, cutoff: int)
    requires cutoff <= now
    ensures Latest(Retained(rows, cutoff), email, maxAttempts, now) == Latest(rows, email, maxAttempts, now)
  {
    if rows != [] {
      var front, last := rows[..|rows| - 1], rows[|rows| - 1];
      LatestRetained(front, email, maxAttempts, now, cutoff);
      var kept := Retained(front, cutoff);
      assert (kept + [last])[..|kept|] == kept;
    }
  }

  /** The limit counts only codes of the last window, all of which the cleanup keeps. */
  lemma MissesSeeThrough(p: Params, rows: seq<Code>, nextId: nat, clock: int, email: string, now: int)
    requires Sensible(p) && TableOk(p, rows, nextId, clock)
    ensures Misses(Retained(rows, now - p.retention), email, now - p.window) == Misses(rows, email, now - p.window)
  {
    hide TableOk, Misses, Retained;
    forall i | 0 <= i < |rows| && rows[i].expires <= now - p.retention
      ensures rows[i].created < now - p.window
    {
      TableRow(p, rows, nextId, clock, i);
    }
    MissesRetained(rows, now - p.retention, email, now - p.window);
  }

  /** Two tables with the same unretired codes decide alike, now and later. */
  lemma SameDecisions(p: Params, s: State, t: State, email: string, now: int)
    requires Sensible(p) && TableOk(p, s.rows, s.nextId, s.clock) && TableOk(p, t.rows, t.nextId, t.clock)
    requires Alike(p, s, t) && s.clock <= now
    ensures Latest(s.rows, email, p.attempts, now) == Latest(t.rows, email, p.attempts, now)
    ensures LimitReached(p, s.rows, email, now) <==> LimitReached(p, t.rows, email, now)
  {
    hide TableOk, Retained, Latest, Misses;
    var c := now - p.retention;
    AlikeLater(p, s, t, now);
    LatestRetained(s.rows, email, p.attempts, now, c);
    LatestRetained(t.rows, email, p.attempts, now, c);
    MissesSeeThrough(p, s.rows, s.nextId, s.clock, email, now);
    MissesSeeThrough(p, t.rows, t.nextId, t.clock, email, now);
  }

  /** Equal but for codes already past their retention. */
  ghost predicate Alike(p: Params, s: State, t: State) {
    && s.clock == t.clock && s.nextId == t.nextId && s.hashing == t.hashing
    && s.comparing == t.comparing && s.claims == t.claims
    && Retained(s.rows, s.clock - p.retention) == Retained(t.rows, t.clock - p.retention)
  }

  lemma AlikeLater(p: Params, s: State, t: State, now: int)
    requires Alike(p, s, t) && s.clock <= now
    ensures Retained(s.rows, now - p.retention) == Retained(t.rows, now - p.retention)
  {
    hide Retained;
    RetainedTwice(s.rows, s.clock - p.retention, now - p.retention);
    RetainedTwice(t.rows, s.clock - p.retention, now - p.retention);
  }

  lemma UnusedAlready(rows: seq<Code>, id: nat)
    requires !HasUnused(rows, id)
    ensures Used(rows, id) == rows
  {
    hide Used;
    assert forall i :: 0 <= i < |rows| ==> Used(rows, id)[i] == rows[i];
  }

  lemma RetainedIssued(p: Params, rows: seq<Code>, nextId: nat, email: string, hash: string, at: int, created: int)
    requires Sensible(p) && at <= created <= at + p.expiry
    ensures var kept := Retained(rows, created - p.retention);
      Retained(Issued(p, rows, nextId, email, hash, at, created), created - p.retention)
        == Issued(p, kept, nextId, email, hash, at, created)
  {
    hide Retained, Superseded;
    var cutoff := created - p.retention;
    RetainedSuperseded(rows, email, at, cutoff);
    RetainedOne(Superseded(rows, email, at), Code(nextId, email, hash, at + p.expiry, 0, false, created), cutoff);
  }

  lemma IssueAlike(p: Params, s: State, t: State, email: string, hash: string, at: int, created: int)
    requires Sensible(p) && TableOk(p, s.rows, s.nextId, s.clock) && TableOk(p, t.rows, t.nextId, t.clock)
    requires Alike(p, s, t) && s.clock <= at <= created <= at + p.expiry
    ensures var e := FinishIssue(email, hash, at, created); Alike(p, Step(p, s, e), Step(p, t, e))
  {
    hide TableOk, Retained, LimitReached, Issued, Sensible;
    SameDecisions(p, s, t, email, at);
    AlikeLater(p, s, t, at);
    IssuedAlike(p, s, t, email, hash, at, created);
  }

  lemma IssuedAlike(p: Params, s: State, t: State, email: string, hash: string, at: int, created: int)
    requires Sensible(p) && Alike(p, s, t) && s.clock <= at <= created <= at + p.expiry
    ensures var cutoff := created - p.retention;
      Retained(Issued(p, s.rows, s.nextId, email, hash, at, created), cutoff)
        == Retained(Issued(p, t.rows, t.nextId, email, hash, at, created), cutoff)
  {
    hide Retained, Issued, Sensible;
    AlikeLater(p, s, t, created);
    RetainedIssued(p, s.rows, s.nextId, email, hash, at, created);
    RetainedIssued(p, t.rows, s.nextId, email, hash, at, created);
  }

  lemma VerifyAlike(p: Params, s: State, t: State, email: string, at: int)
    requires Sensible(p) && TableOk(p, s.rows, s.nextId, s.clock) && TableOk(p, t.rows, t.nextId, t.clock)
    requires Alike(p, s, t) && s.clock <= at
    ensures Alike(p, Step(p, s, BeginVerify(email, at)), Step(p, t, BeginVerify(email, at)))
  {
    hide TableOk, Retained, Latest, Claimed, Claimable, LimitReached;
    SameDecisions(p, s, t, email, at);
    AlikeLater(p, s, t, at);
    var otp := Latest(s.rows, email, p.attempts, at);
    if otp.Some? {
      RetainedClaimedBoth(s.rows, t.rows, otp.value.id, p.attempts, at, at - p.retention);
    }
  }

  lemma RetainedClaimedBoth(rows: seq<Code>, others: seq<Code>, id: nat, maxAttempts: nat, now: int, cutoff: int)
    requires Retained(rows, cutoff) == Retained(others, cutoff)
    ensures Retained(Claimed(rows, id, maxAttempts, now), cutoff)
      == Retained(Claimed(others, id, maxAttempts, now), cutoff)
  {
    hide Retained, Claimed;
    RetainedClaimed(rows, id, maxAttempts, now, cutoff);
    RetainedClaimed(others, id, maxAttempts, now, cutoff);
  }

  lemma UseAlike(p: Params, s: State, t: State, id: nat, matches: bool, admitted: bool, at: int)
    requires Alike(p, s, t) && s.clock <= at
    ensures var e := FinishVerify(id, matches, admitted, at); Alike(p, Step(p, s, e), Step(p, t, e))
  {
    hide Retained, Used, HasUnused;
    AlikeLater(p, s, t, at);
    RetainedUsed(s.rows, id, at - p.retention);
    RetainedUsed(t.rows, id, at - p.retention);
    if !HasUnused(s.rows, id) { UnusedAlready(s.rows, id); }
    if !HasUnused(t.rows, id) { UnusedAlready(t.rows, id); }
  }

  lemma StepAlike(p: Params, s: State, t: State, e: Event)
    requires Sensible(p) && TableOk(p, s.rows, s.nextId, s.clock) && TableOk(p, t.rows, t.nextId, t.clock)
    requires Alike(p, s, t) && Timely(p, s, e)
    ensures Alike(p, Step(p, s, e), StepKeeping(p, t, e))
  {
    hide TableOk, Retained, LimitReached;
    match e
    case BeginIssue(email, at) =>
      SameDecisions(p, s, t, email, at);
      AlikeLater(p, s, t, at);
    case FinishIssue(email, hash, at, created) => IssueAlike(p, s, t, email, hash, at, created);
    case BeginVerify(email, at) => VerifyAlike(p, s, t, email, at);
    case FinishVerify(id, matches, admitted, at) => UseAlike(p, s, t, id, matches, admitted, at);
    case Cleanup(at) =>
      AlikeLater(p, s, t, at);
      RetainedTwice(s.rows, at - p.retention, at - p.retention);
  }

  lemma StepKeepingTable(p: Params, t: State, e: Event)
    requires Sensible(p) && TableOk(p, t.rows, t.nextId, t.clock) && Timely(p, t, e)
    ensures TableOk(p, StepKeeping(p, t, e).rows, StepKeeping(p, t, e).nextId, StepKeeping(p, t, e).clock)
  {
    hide TableOk, Step;
    if e.Cleanup? {
      TableLater(p, t.rows, t.nextId, t.clock, t.nextId, e.at);
    } else {
      StepTable(p, t, e);
    }
  }

  /** Deleting expired codes changes no decision: with and without it, a run issues the same codes
      and takes the same guesses, and the next lookup or limit check answers the same. */
  lemma {:induction false} CleanupChangesNoDecision(p: Params, start: int, es: seq<Event>)
    requires Sensible(p) && InTime(p, start, es)
    ensures var s, t := Run(p, start, es), RunKeeping(p, start, es);
      && Alike(p, s, t) && TableOk(p, s.rows, s.nextId, s.clock) && TableOk(p, t.rows, t.nextId, t.clock)
      && forall email, now :: s.clock <= now ==>
           && Latest(s.rows, email, p.attempts, now) == Latest(t.rows, email, p.attempts, now)
           && (LimitReached(p, s.rows, email, now) <==> LimitReached(p, t.rows, email, now))
  {
    hide Step, StepKeeping, TableOk, Latest, LimitReached, Retained;
    if es != [] {
      var front, e := es[..|es| - 1], es[|es| - 1];
      CleanupChangesNoDecision(p, start, front);
      StepAlike(p, Run(p, start, front), RunKeeping(p, start, front), e);
      StepTable(p, Run(p, start, front), e);
      StepKeepingTable(p, RunKeeping(p, start, front), e);
    } else {
      StartTable(p, start);
    }
    forall email, now | Run(p, start, es).clock <= now
      ensures var s, t := Run(p, start, es), RunKeeping(p, start, es);
        && Latest(s.rows, email, p.attempts, now) == Latest(t.rows, email, p.attempts, now)
        && (LimitReached(p, s.rows, email, now) <==> LimitReached(p, t.rows, email, now))
    {
      SameDecisions(p, Run(p, start, es), RunKeeping(p, start, es), email, now);
    }
  }

  lemma StartTable(p: Params, start: int)
    ensures TableOk(p, Start(start).rows, 0, start) && Alike(p, Start(start), Start(start))
  {}
}
