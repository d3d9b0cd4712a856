/** What the cleanup job can change: no decision, and a verification only when its comparison
    outlasts the code's retention. */
module OtpCleanup {
  import opened OtpTable
  import opened OtpRuns
  import opened OtpUse

  /** Every row of `rows` is a row of `all`. */
  ghost predicate Among(rows: seq<Code>, all: seq<Code>) {
    forall i :: 0 <= i < |rows| ==> rows[i] in all
  }

  lemma SupersededAmong(rows: seq<Code>, all: seq<Code>, email: string, now: int)
    requires Among(rows, all)
    ensures Among(Superseded(rows, email, now), Superseded(all, email, now))
  {
    hide Superseded;
    forall i | 0 <= i < |rows| ensures Superseded(rows, email, now)[i] in Superseded(all, email, now) {
      var j :| 0 <= j < |all| && all[j] == rows[i];
      assert Superseded(all, email, now)[j] == Superseded(rows, email, now)[i];
    }
  }

  lemma ClaimedAmong(rows: seq<Code>, all: seq<Code>, id: nat, maxAttempts: nat, now: int)
    requires Among(rows, all)
    ensures Among(Claimed(rows, id, maxAttempts, now), Claimed(all, id, maxAttempts, now))
  {
    hide Claimed;
    forall i | 0 <= i < |rows| ensures Claimed(rows, id, maxAttempts, now)[i] in Claimed(all, id, maxAttempts, now) {
      var j :| 0 <= j < |all| && all[j] == rows[i];
      assert Claimed(all, id, maxAttempts, now)[j] == Claimed(rows, id, maxAttempts, now)[i];
    }
  }

  lemma UsedAmong(rows: seq<Code>, all: seq<Code>, id: nat)
    requires Among(rows, all)
    ensures Among(Used(rows, id), Used(all, id))
    ensures !HasUnused(rows, id) ==> Among(rows, Used(all, id))
    ensures HasUnused(rows, id) ==> HasUnused(all, id)
  {
    hide Used;
    forall i | 0 <= i < |rows| ensures Used(rows, id)[i] in Used(all, id) {
      var j :| 0 <= j < |all| && all[j] == rows[i];
      assert Used(all, id)[j] == Used(rows, id)[i];
    }
    if !HasUnused(rows, id) {
      UnusedAlready(rows, id);
    } else {
      var i :| 0 <= i < |rows| && rows[i].id == id && !rows[i].used;
      var j :| 0 <= j < |all| && all[j] == rows[i];
    }
  }

  lemma RetainedAmong(rows: seq<Code>, all: seq<Code>, cutoff: int)
    requires Among(rows, all)
    ensures Among(Retained(rows, cutoff), all)
  {
    hide Retained;
    var kept := Retained(rows, cutoff);
    forall i | 0 <= i < |kept| ensures kept[i] in all {
      assert kept[i] in rows;
    }
  }

  lemma StepAmong(p: Params, s: State, t: State, e: Event)
    requires Alike(p, s, t) && Among(s.rows, t.rows)
    requires Latest(s.rows, WhoOf(e), p.attempts, e.at) == Latest(t.rows, WhoOf(e), p.attempts, e.at)
    requires LimitReached(p, s.rows, WhoOf(e), e.at) <==> LimitReached(p, t.rows, WhoOf(e), e.at)
    ensures Among(Step(p, s, e).rows, StepKeeping(p, t, e).rows)
  {
    hide Alike, Among, Latest, LimitReached, Superseded, Claimed, Used, HasUnused, Retained;
    AlikeQueues(p, s, t);
    match e
    case BeginIssue(_, _) =>
    case FinishIssue(email, hash, at, created) =>
      SupersededAmong(s.rows, t.rows, email, at);
      AppendAmong(Superseded(s.rows, email, at), Superseded(t.rows, email, at),
        Code(s.nextId, email, hash, at + p.expiry, 0, false, created));
    case BeginVerify(email, at) =>
      var otp := Latest(s.rows, email, p.attempts, at);
      if otp.Some? {
        ClaimedAmong(s.rows, t.rows, otp.value.id, p.attempts, at);
      }
    case FinishVerify(id, _, _, _) => UsedAmong(s.rows, t.rows, id);
    case Cleanup(at) => RetainedAmong(s.rows, t.rows, at - p.retention);
  }

  function WhoOf(e: Event): string {
    if e.BeginIssue? || e.FinishIssue? || e.BeginVerify? then e.email else ""
  }

  lemma AlikeQueues(p: Params, s: State, t: State)
    requires Alike(p, s, t)
    ensures s.clock == t.clock && s.nextId == t.nextId && s.hashing == t.hashing && s.comparing == t.comparing
  {
    hide Retained;
  }

  lemma AppendAmong(rows: seq<Code>, all: seq<Code>, r: Code)
    requires Among(rows, all)
    ensures Among(rows + [r], all + [r])
  {}

  /** The cleaned table holds rows of the one that keeps everything, and all of them that are within
      their retention. */
  lemma {:induction false} CleanedIsAmongKept(p: Params, start: int, es: seq<Event>)
    requires Sensible(p) && InTime(p, start, es)
    ensures Among(Run(p, start, es).rows, RunKeeping(p, start, es).rows)
  {
    hide Step, StepKeeping, Alike, TableOk, Sensible, Among, Latest, LimitReached;
    if es == [] {
      NothingAmong([]);
    } else {
      var front, e := es[..|es| - 1], es[|es| - 1];
      CleanedIsAmongKept(p, start, front);
      CleanupChangesNoDecision(p, start, front);
      var s, t := Run(p, start, front), RunKeeping(p, start, front);
      assert s.clock <= e.at;
      StepAmong(p, s, t, e);
    }
  }

  lemma NothingAmong(all: seq<Code>)
    ensures Among([], all)
  {}

  // ------------------------------------------------------------------
  // Verifications
  // ------------------------------------------------------------------

  predicate Holds(rows: seq<Code>, id: nat) { exists i :: 0 <= i < |rows| && rows[i].id == id }

  /** A verification that would win is lost to the cleanup exactly when the code's row has been
      deleted, and then the code expired at least its retention ago. */
  lemma LostOnlyWithItsRow(p: Params, start: int, es: seq<Event>, id: nat)
    requires Sensible(p) && InTime(p, start, es)
    ensures var s, t := Run(p, start, es), RunKeeping(p, start, es);
      && (HasUnused(s.rows, id) <==> HasUnused(t.rows, id) && Holds(s.rows, id))
      && (HasUnused(t.rows, id) && !Holds(s.rows, id) ==>
            forall i :: 0 <= i < |t.rows| && t.rows[i].id == id ==> t.rows[i].expires <= t.clock - p.retention)
  {
    hide Run, RunKeeping, InTime, Sensible, TableOk, Latest, LimitReached, Retained;
    var s, t := Run(p, start, es), RunKeeping(p, start, es);
    CleanupChangesNoDecision(p, start, es);
    CleanedIsAmongKept(p, start, es);
    if Holds(s.rows, id) && HasUnused(t.rows, id) {
      SameRow(p, s, t, id);
    }
    if HasUnused(s.rows, id) {
      var i :| 0 <= i < |s.rows| && s.rows[i].id == id && !s.rows[i].used;
      var j :| 0 <= j < |t.rows| && t.rows[j] == s.rows[i];
    }
    forall i | 0 <= i < |t.rows| && t.rows[i].id == id && t.rows[i].expires > t.clock - p.retention
      ensures Holds(s.rows, id)
    {
      assert t.rows[i] in Retained(s.rows, s.clock - p.retention);
      var j :| 0 <= j < |s.rows| && s.rows[j] == t.rows[i];
    }
  }

  lemma SameRow(p: Params, s: State, t: State, id: nat)
    requires Among(s.rows, t.rows) && TableOk(p, t.rows, t.nextId, t.clock)
    requires Holds(s.rows, id) && HasUnused(t.rows, id)
    ensures HasUnused(s.rows, id)
  {
    hide TableOk;
    var i :| 0 <= i < |s.rows| && s.rows[i].id == id;
    var j :| 0 <= j < |t.rows| && t.rows[j] == s.rows[i];
    var k :| 0 <= k < |t.rows| && t.rows[k].id == id && !t.rows[k].used;
    if j < k {
      TablePair(p, t.rows, t.nextId, t.clock, j, k);
    } else if k < j {
      TablePair(p, t.rows, t.nextId, t.clock, k, j);
    }
  }

  /** The event would verify a code of the table that keeps everything. */
  predicate WouldVerify(t: State, e: Event) {
    e.FinishVerify? && e.id in t.comparing && e.matches && e.admitted && HasUnused(t.rows, e.id)
  }

  /** No comparison that would win ends after its code's row is gone. */
  ghost predicate EndsBeforeDeletion(p: Params, start: int, es: seq<Event>) {
    es == [] ||
    var front, e := es[..|es| - 1], es[|es| - 1];
    && EndsBeforeDeletion(p, start, front)
    && (WouldVerify(RunKeeping(p, start, front), e) ==> Holds(Run(p, start, front).rows, e.id))
  }

  /** A run verifies the same codes with and without the cleanup exactly when no comparison that would
      win ends after its code's row is gone; the cleanup never adds a verification. */
  lemma {:induction false} SameVerificationsIff(p: Params, start: int, es: seq<Event>)
    requires Sensible(p) && InTime(p, start, es)
    ensures var used, kept := Run(p, start, es).uses, RunKeeping(p, start, es).uses;
      && (used == kept <==> EndsBeforeDeletion(p, start, es))
      && |used| <= |kept| && (|used| == |kept| ==> used == kept)
  {
    hide Step, StepKeeping, Alike, TableOk, Sensible, WouldVerify, Holds, Latest, LimitReached;
    if es == [] {
      assert Run(p, start, es).uses == [];
    } else {
      var front, e := es[..|es| - 1], es[|es| - 1];
      SameVerificationsIff(p, start, front);
      CleanupChangesNoDecision(p, start, front);
      LostOnlyWithItsRow(p, start, front, if e.FinishVerify? then e.id else 0);
      StepUsesAlike(p, Run(p, start, front), RunKeeping(p, start, front), e);
    }
  }

  lemma StepUsesAlike(p: Params, s: State, t: State, e: Event)
    requires Alike(p, s, t)
    requires e.FinishVerify? ==> (HasUnused(s.rows, e.id) <==> HasUnused(t.rows, e.id) && Holds(s.rows, e.id))
    ensures Step(p, s, e).uses
      == if WouldVerify(t, e) && Holds(s.rows, e.id) then s.uses + [e.id] else s.uses
    ensures StepKeeping(p, t, e).uses == if WouldVerify(t, e) then t.uses + [e.id] else t.uses
  {
    hide Alike, HasUnused, Holds, Latest, LimitReached, Superseded, Claimed, Used, Retained;
    AlikeQueues(p, s, t);
  }
}
