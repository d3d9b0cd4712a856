/** That the code mailed is the code compared: which hash a guess is checked against, and that the
    holder of a mailed code gets in with it. */
module OtpDelivery {
  import opened Options
  import opened OtpTable
  import opened OtpRuns

  /** The event issues a code, which takes the next id. */
  predicate Issues(p: Params, s: State, e: Event) { e.FinishIssue? && Step(p, s, e).nextId > s.nextId }

  /** What was mailed under an id: to whom, and the hash of the code. */
  datatype Mailed = Mailed(email: string, hash: string)

  /** Every code mailed in a run, by id. */
  function MailedIn(p: Params, start: int, es: seq<Event>): map<nat, Mailed> {
    if es == [] then map[]
    else
      var front, e := es[..|es| - 1], es[|es| - 1];
      var s := Run(p, start, front);
      if Issues(p, s, e) then MailedIn(p, start, front)[s.nextId := Mailed(e.email, e.hash)]
      else MailedIn(p, start, front)
  }

  // ------------------------------------------------------------------
  // Every row carries what was mailed under its id
  // ------------------------------------------------------------------

  ghost predicate CarriesMailed(mailed: map<nat, Mailed>, r: Code) {
    r.id in mailed && mailed[r.id] == Mailed(r.email, r.hash)
  }

  ghost predicate AllCarry(mailed: map<nat, Mailed>, rows: seq<Code>) {
    forall i :: 0 <= i < |rows| ==> CarriesMailed(mailed, rows[i])
  }

  predicate SameMail(r: Code, q: Code) { r.id == q.id && r.email == q.email && r.hash == q.hash }

  /** Each row after a step has the id, address and hash of one before, or is the one just issued. */
  lemma StepCarries(p: Params, s: State, e: Event, i: int)
    requires 0 <= i < |Step(p, s, e).rows|
    ensures var r := Step(p, s, e).rows[i];
      || (exists j :: 0 <= j < |s.rows| && SameMail(s.rows[j], r))
      || (Issues(p, s, e) && r.id == s.nextId && r.email == e.email && r.hash == e.hash)
  {
    hide Step, SameMail;
    if e.Cleanup? {
      CleanedWasThere(p, s, e.at, i);
    } else {
      RowsInPlace(p, s, e);
      assert i < |s.rows| ==> SameMail(s.rows[i], Step(p, s, e).rows[i]);
    }
  }

  lemma CleanedWasThere(p: Params, s: State, at: int, i: int)
    requires 0 <= i < |Step(p, s, Cleanup(at)).rows|
    ensures exists j :: 0 <= j < |s.rows| && SameMail(s.rows[j], Step(p, s, Cleanup(at)).rows[i])
  {
    hide Retained;
    var r := Step(p, s, Cleanup(at)).rows[i];
    assert r in Retained(s.rows, at - p.retention);
    var j :| 0 <= j < |s.rows| && s.rows[j] == r;
    assert SameMail(s.rows[j], r);
  }

  /** But for the cleanup rows stay where they are, and one is added by an issue only. */
  lemma RowsInPlace(p: Params, s: State, e: Event)
    requires !e.Cleanup?
    ensures var rows := Step(p, s, e).rows;
      && |rows| == (if Issues(p, s, e) then |s.rows| + 1 else |s.rows|)
      && (forall i :: 0 <= i < |s.rows| ==> SameMail(s.rows[i], rows[i]))
      && (Issues(p, s, e) ==>
            rows[|s.rows|].id == s.nextId && rows[|s.rows|].email == e.email && rows[|s.rows|].hash == e.hash)
  {
    hide Latest, LimitReached, HasUnused, Claimed, Used, Superseded, SameMail;
    RowsKeepMail(p, s.rows, e);
    match e
    case BeginIssue(_, _) =>
    case FinishIssue(_, _, _, _) =>
    case BeginVerify(_, _) =>
    case FinishVerify(_, _, _, _) =>
  }

  /** No update touches an id, an address or a hash. */
  lemma RowsKeepMail(p: Params, rows: seq<Code>, e: Event)
    ensures forall i :: 0 <= i < |rows| ==> SameMail(rows[i], rows[i])
    ensures e.FinishIssue? ==>
      forall i :: 0 <= i < |rows| ==> SameMail(rows[i], Superseded(rows, e.email, e.at)[i])
    ensures e.BeginVerify? ==> forall id: nat, i :: 0 <= i < |rows| ==>
      SameMail(rows[i], Claimed(rows, id, p.attempts, e.at)[i])
    ensures e.FinishVerify? ==> forall i :: 0 <= i < |rows| ==> SameMail(rows[i], Used(rows, e.id)[i])
  {
    hide Claimed, Used, Superseded;
  }

  lemma {:induction false} RowsCarryMailed(p: Params, start: int, es: seq<Event>)
    requires Sensible(p) && InTime(p, start, es)
    ensures AllCarry(MailedIn(p, start, es), Run(p, start, es).rows)
    ensures forall id :: id in MailedIn(p, start, es) ==> id < Run(p, start, es).nextId
  {
    hide Step, Issues, Inv, Sensible, TableOk;
    if es == [] {
      assert Run(p, start, es).rows == [] && MailedIn(p, start, es) == map[];
    } else {
      var front, e := es[..|es| - 1], es[|es| - 1];
      var s := Run(p, start, front);
      RowsCarryMailed(p, start, front);
      RunInv(p, start, front);
      InvTable(p, s);
      IssueDrawsNext(p, s, e);
      var rows, mailed := Run(p, start, es).rows, MailedIn(p, start, es);
      forall i | 0 <= i < |rows| ensures CarriesMailed(mailed, rows[i]) {
        StepCarries(p, s, e, i);
        if j :| 0 <= j < |s.rows| && SameMail(s.rows[j], rows[i]) {
          TableRow(p, s.rows, s.nextId, s.clock, j);
          assert CarriesMailed(MailedIn(p, start, front), s.rows[j]);
        }
      }
    }
  }

  lemma IssueDrawsNext(p: Params, s: State, e: Event)
    ensures Step(p, s, e).nextId == if Issues(p, s, e) then s.nextId + 1 else s.nextId
  {}

  // ------------------------------------------------------------------
  // No use without a matching guess
  // ------------------------------------------------------------------

  /** Comparisons are honest: each answers whether the guess made matches the hash mailed under the id;
      `guess` is what was presented at each event. */
  ghost predicate Honest(
    p: Params, start: int, es: seq<Event>, check: (string, string) -> bool, guess: nat -> string)
  {
    es == [] ||
    var front, e := es[..|es| - 1], es[|es| - 1];
    && Honest(p, start, front, check, guess)
    && (e.FinishVerify? && e.id in MailedIn(p, start, front) ==>
          e.matches == check(MailedIn(p, start, front)[e.id].hash, guess(|front|)))
  }

  /** The k-th event presented a guess that matches the code mailed under the id. */
  ghost predicate GuessedRight(
    es: seq<Event>, k: nat, id: nat, hash: string, check: (string, string) -> bool, guess: nat -> string)
    requires k < |es|
  {
    es[k].FinishVerify? && es[k].id == id && check(hash, guess(k))
  }

  /** Over any interleaving, a code verified only by a guess that matches the code mailed under its id. */
  lemma {:induction false} VerifiedOnlyByItsCode(
    p: Params, start: int, es: seq<Event>, check: (string, string) -> bool, guess: nat -> string, id: nat)
    returns (k: nat)
    requires Sensible(p) && InTime(p, start, es) && Honest(p, start, es, check, guess)
    requires id in Run(p, start, es).uses
    ensures id in MailedIn(p, start, es)
    ensures k < |es| && GuessedRight(es, k, id, MailedIn(p, start, es)[id].hash, check, guess)
  {
    hide Step, Issues, Inv, Sensible, TableOk;
    if es != [] {
      var front, e := es[..|es| - 1], es[|es| - 1];
      var s := Run(p, start, front);
      RowsCarryMailed(p, start, front);
      if id in s.uses {
        k := VerifiedOnlyByItsCode(p, start, front, check, guess, id);
      } else {
        NewUse(p, s, e, id);
        var i :| 0 <= i < |s.rows| && s.rows[i].id == id;
        assert CarriesMailed(MailedIn(p, start, front), s.rows[i]);
        NoIssueByVerifying(p, s, e);
        k := |front|;
      }
    }
  }

  /** A code's hash is made exactly when the guesses taken in the window leave room in the budget for
      another code's, and the code is issued exactly when they still do once it is made. */
  lemma IssuesIffRoom(p: Params, s: State, email: string, hash: string, at: int, created: int)
    ensures Step(p, s, BeginIssue(email, at)).hashing != s.hashing <==>
      Misses(s.rows, email, at - p.window) + p.attempts <= p.draws
    ensures Issues(p, s, FinishIssue(email, hash, at, created)) <==>
      email in s.hashing && Misses(s.rows, email, at - p.window) + p.attempts <= p.draws
  {
    hide Misses, Superseded;
    assert (s.hashing + multiset{email})[email] == s.hashing[email] + 1;
  }

  /** A comparison under way verifies its code exactly when the guess matched, the person is admitted,
      and the code is stored and still unused. */
  lemma VerifiesIff(p: Params, s: State, id: nat, matches: bool, admitted: bool, at: int)
    requires id in s.comparing
    ensures Step(p, s, FinishVerify(id, matches, admitted, at)).uses ==
      if matches && admitted && exists i :: 0 <= i < |s.rows| && s.rows[i].id == id && !s.rows[i].used
      then s.uses + [id] else s.uses
  {
    hide Used;
  }

  lemma NewUse(p: Params, s: State, e: Event, id: nat)
    requires id in Step(p, s, e).uses && id !in s.uses
    ensures e.FinishVerify? && e.id == id && e.matches && exists i :: 0 <= i < |s.rows| && s.rows[i].id == id
  {
    hide Latest, LimitReached, Claimed, Used, Superseded, Retained;
  }

  lemma NoIssueByVerifying(p: Params, s: State, e: Event)
    requires e.FinishVerify?
    ensures !Issues(p, s, e)
  {}

  // ------------------------------------------------------------------
  // The mailed code gets its holder in
  // ------------------------------------------------------------------

  /** The code is stored, untouched and unexpired, and nobody is comparing it. */
  ghost predicate Waiting(p: Params, s: State, id: nat, mailed: Mailed, expires: int) {
    && id < s.nextId && id !in s.comparing && id !in s.uses
    && exists i :: 0 <= i < |s.rows| && IsWaiting(s.rows[i], id, mailed, expires)
  }

  predicate IsWaiting(r: Code, id: nat, mailed: Mailed, expires: int) {
    && r.id == id && r.email == mailed.email && r.hash == mailed.hash && r.expires == expires
    && !r.used && r.attempts == 0
  }

  /** Only ids already drawn are compared or used. */
  ghost predicate DrawnOnly(s: State) {
    && (forall id :: id in s.comparing ==> id < s.nextId)
    && (forall k :: 0 <= k < |s.uses| ==> s.uses[k] < s.nextId)
  }

  lemma {:induction false} RunDrawnOnly(p: Params, start: int, es: seq<Event>)
    requires Sensible(p) && InTime(p, start, es)
    ensures DrawnOnly(Run(p, start, es))
  {
    hide Step, Inv, Sensible, TableOk, DrawnOnly;
    if es == [] {
      assert DrawnOnly(Run(p, start, es)) by { StartDrawnOnly(start); }
    } else {
      RunDrawnOnly(p, start, es[..|es| - 1]);
      RunInv(p, start, es[..|es| - 1]);
      InvTable(p, Run(p, start, es[..|es| - 1]));
      StepDrawnOnly(p, Run(p, start, es[..|es| - 1]), es[|es| - 1]);
    }
  }

  lemma StartDrawnOnly(start: int)
    ensures DrawnOnly(Start(start))
  {}

  lemma StepDrawnOnly(p: Params, s: State, e: Event)
    requires DrawnOnly(s) && TableOk(p, s.rows, s.nextId, s.clock)
    ensures DrawnOnly(Step(p, s, e))
  {
    hide TableOk, Latest, LimitReached, Claimed, Used, Superseded, Retained, HasUnused;
    if e.BeginVerify? {
      var otp := Latest(s.rows, e.email, p.attempts, e.at);
      if otp.Some? {
        var i :| 0 <= i < |s.rows| && s.rows[i] == otp.value;
        TableRow(p, s.rows, s.nextId, s.clock, i);
      }
    }
  }

  lemma IssuedWaits(p: Params, s: State, e: Event)
    requires DrawnOnly(s) && Issues(p, s, e)
    ensures Waiting(p, Step(p, s, e), s.nextId, Mailed(e.email, e.hash), e.at + p.expiry)
  {
    hide LimitReached, Superseded;
    var rows := Step(p, s, e).rows;
    assert IsWaiting(rows[|rows| - 1], s.nextId, Mailed(e.email, e.hash), e.at + p.expiry);
  }

  /** The event does not concern the address: neither a newer code for it nor a guess at it. */
  predicate Elsewhere(e: Event, email: string) {
    (e.FinishIssue? || e.BeginVerify?) ==> e.email != email
  }

  lemma StepWaits(p: Params, s: State, e: Event, id: nat, mailed: Mailed, expires: int)
    requires Sensible(p) && TableOk(p, s.rows, s.nextId, s.clock) && Waiting(p, s, id, mailed, expires)
    requires Elsewhere(e, mailed.email) && e.at < expires
    ensures Waiting(p, Step(p, s, e), id, mailed, expires)
  {
    hide Step, TableOk;
    var s' := Step(p, s, e);
    var i :| 0 <= i < |s.rows| && IsWaiting(s.rows[i], id, mailed, expires);
    forall j | 0 <= j < |s.rows| && s.rows[j].email != mailed.email ensures s.rows[j].id != id {
      OtherId(p, s, j, i);
    }
    StepElsewhere(p, s, e, id);
    if e.Cleanup? {
      var j := CleanupSpares(p, s, e.at, i, id, mailed, expires);
    } else {
      RowSpared(p, s, e, i, id, mailed, expires);
    }
  }

  lemma CleanupSpares(p: Params, s: State, at: int, i: int, id: nat, mailed: Mailed, expires: int) returns (j: int)
    requires Sensible(p) && 0 <= i < |s.rows| && IsWaiting(s.rows[i], id, mailed, expires) && at < expires
    ensures var rows := Step(p, s, Cleanup(at)).rows; 0 <= j < |rows| && IsWaiting(rows[j], id, mailed, expires)
  {
    hide Retained;
    var rows := Retained(s.rows, at - p.retention);
    assert s.rows[i] in rows;
    j :| 0 <= j < |rows| && rows[j] == s.rows[i];
  }

  /** What concerns another address, or a comparison of another code, leaves the id alone. */
  lemma StepElsewhere(p: Params, s: State, e: Event, id: nat)
    requires TableOk(p, s.rows, s.nextId, s.clock) && id < s.nextId && id !in s.comparing && id !in s.uses
    requires forall i :: 0 <= i < |s.rows| && s.rows[i].id == id ==> Elsewhere(e, s.rows[i].email)
    ensures var s' := Step(p, s, e); id < s'.nextId && id !in s'.comparing && id !in s'.uses
  {
    hide TableOk, Latest, LimitReached, Claimed, Used, Superseded, Retained, HasUnused;
    if e.BeginVerify? {
      var otp := Latest(s.rows, e.email, p.attempts, e.at);
      if otp.Some? {
        var g :| 0 <= g < |s.rows| && s.rows[g] == otp.value;
      }
    }
  }

  lemma RowSpared(p: Params, s: State, e: Event, i: int, id: nat, mailed: Mailed, expires: int)
    requires TableOk(p, s.rows, s.nextId, s.clock) && 0 <= i < |s.rows| && IsWaiting(s.rows[i], id, mailed, expires)
    requires id !in s.comparing && Elsewhere(e, mailed.email) && !e.Cleanup?
    ensures var rows := Step(p, s, e).rows; i < |rows| && IsWaiting(rows[i], id, mailed, expires)
  {
    hide TableOk, Latest, LimitReached, Claimed, Used, Superseded, HasUnused;
    if e.BeginVerify? {
      var otp := Latest(s.rows, e.email, p.attempts, e.at);
      if otp.Some? {
        var g :| 0 <= g < |s.rows| && s.rows[g] == otp.value;
        OtherId(p, s, g, i);
      }
    }
  }

  lemma OtherId(p: Params, s: State, g: int, i: int)
    requires TableOk(p, s.rows, s.nextId, s.clock) && 0 <= g < |s.rows| && 0 <= i < |s.rows|
    requires s.rows[g].email != s.rows[i].email
    ensures s.rows[g].id != s.rows[i].id
  {
    hide TableOk;
    if g < i {
      TablePair(p, s.rows, s.nextId, s.clock, g, i);
    } else {
      TablePair(p, s.rows, s.nextId, s.clock, i, g);
    }
  }

  /** Events elsewhere, all before the code expires. */
  predicate AllElsewhere(more: seq<Event>, email: string, expires: int) {
    forall k :: 0 <= k < |more| ==> Elsewhere(more[k], email) && more[k].at < expires
  }

  lemma {:induction false} StillWaiting(
    p: Params, start: int, es: seq<Event>, more: seq<Event>, id: nat, mailed: Mailed, expires: int)
    requires Sensible(p) && InTime(p, start, es + more) && Waiting(p, Run(p, start, es), id, mailed, expires)
    requires AllElsewhere(more, mailed.email, expires)
    ensures Waiting(p, Run(p, start, es + more), id, mailed, expires)
  {
    hide Step, Waiting, Inv, Sensible, TableOk;
    if more == [] {
      assert es + more == es;
    } else {
      var front, e := more[..|more| - 1], more[|more| - 1];
      assert (es + more)[..|es + more| - 1] == es + front;
      StillWaiting(p, start, es, front, id, mailed, expires);
      RunInv(p, start, es + front);
      InvTable(p, Run(p, start, es + front));
      StepWaits(p, Run(p, start, es + front), e, id, mailed, expires);
    }
  }

  /** The next guess at the address is taken at the waiting code. */
  lemma GuessTakesWaiting(p: Params, s: State, id: nat, mailed: Mailed, expires: int, at: int)
    requires TableOk(p, s.rows, s.nextId, s.clock) && Waiting(p, s, id, mailed, expires)
    requires p.attempts >= 1 && s.clock <= at < expires
    ensures var found := Latest(s.rows, mailed.email, p.attempts, at);
      && found.Some? && found.value.id == id && found.value.hash == mailed.hash
    ensures var s' := Step(p, s, BeginVerify(mailed.email, at));
      id in s'.comparing && HasUnused(s'.rows, id) && s'.uses == s.uses && s'.clock == at
  {
    hide TableOk, Latest, Claimed, Misses;
    var i :| 0 <= i < |s.rows| && IsWaiting(s.rows[i], id, mailed, expires);
    assert s.rows[i] in s.rows;
    var found := Latest(s.rows, mailed.email, p.attempts, at);
    var g :| 0 <= g < |s.rows| && s.rows[g] == found.value;
    if g < i {
      TablePair(p, s.rows, s.nextId, s.clock, g, i);
    } else if i < g {
      TablePair(p, s.rows, s.nextId, s.clock, i, g);
    }
    var rows := Step(p, s, BeginVerify(mailed.email, at)).rows;
    assert rows[i].id == id && !rows[i].used;
  }

  lemma MatchVerifies(p: Params, s: State, id: nat, at: int)
    requires id in s.comparing && HasUnused(s.rows, id)
    ensures id in Step(p, s, FinishVerify(id, true, true, at)).uses
  {
    hide HasUnused, Used;
    var uses := Step(p, s, FinishVerify(id, true, true, at)).uses;
    assert uses[|s.uses|] == id;
  }

  /** The state a guess leads to, compared by `check` with the hash of the code claimed for it. */
  function Guess(
    p: Params, s: State, email: string, guess: string, check: (string, string) -> bool, at: int, later: int): State
  {
    var found := Latest(s.rows, email, p.attempts, at);
    var s' := Step(p, s, BeginVerify(email, at));
    if found.None? then s' else Step(p, s', FinishVerify(found.value.id, check(found.value.hash, guess), true, later))
  }

  /** End to end: when a code is issued, its hash mailed, and nothing else of the address happens
      before, the first guess at the address before the code expires is compared with that hash, and
      verifies the code exactly when it matches. */
  lemma MailedCodeVerifies(
    p: Params, start: int, es: seq<Event>, e: Event, more: seq<Event>,
    check: (string, string) -> bool, guess: string, at: int, later: int)
    requires Sensible(p) && p.attempts >= 1 && InTime(p, start, es + [e] + more) && Issues(p, Run(p, start, es), e)
    requires AllElsewhere(more, e.email, e.at + p.expiry)
    requires Run(p, start, es + [e] + more).clock <= at < e.at + p.expiry
    ensures var id, s := Run(p, start, es).nextId, Run(p, start, es + [e] + more);
      id in Guess(p, s, e.email, guess, check, at, later).uses <==> check(e.hash, guess)
  {
    hide Step, Waiting, Inv, Sensible, TableOk, Run, InTime, Latest, HasUnused, AllElsewhere;
    InTimeParts(p, start, es, e, more);
    RunDrawnOnly(p, start, es);
    RunIs(p, start, es, e);
    IssuedWaits(p, Run(p, start, es), e);
    var id, mailed := Run(p, start, es).nextId, Mailed(e.email, e.hash);
    StillWaiting(p, start, es + [e], more, id, mailed, e.at + p.expiry);
    var s := Run(p, start, es + [e] + more);
    RunInv(p, start, es + [e] + more);
    InvTable(p, s);
    GuessTakesWaiting(p, s, id, mailed, e.at + p.expiry, at);
    NotYetUsed(p, s, id, mailed, e.at + p.expiry);
    var s' := Step(p, s, BeginVerify(e.email, at));
    if check(e.hash, guess) {
      MatchVerifies(p, s', id, later);
    } else {
      MismatchVerifiesNothing(p, s', id, later);
    }
  }

  lemma NotYetUsed(p: Params, s: State, id: nat, mailed: Mailed, expires: int)
    requires Waiting(p, s, id, mailed, expires)
    ensures id !in s.uses
  {}

  lemma MismatchVerifiesNothing(p: Params, s: State, id: nat, at: int)
    ensures Step(p, s, FinishVerify(id, false, true, at)).uses == s.uses
  {}

  lemma RunIs(p: Params, start: int, es: seq<Event>, e: Event)
    ensures Run(p, start, es + [e]) == Step(p, Run(p, start, es), e)
  {
    hide Step;
    assert (es + [e])[..|es|] == es;
  }

  lemma {:induction false} InTimeParts(p: Params, start: int, es: seq<Event>, e: Event, more: seq<Event>)
    requires InTime(p, start, es + [e] + more)
    ensures InTime(p, start, es) && InTime(p, start, es + [e])
    decreases |more|
  {
    hide Run, Timely;
    if more == [] {
      assert es + [e] + more == es + [e] && (es + [e])[..|es|] == es;
    } else {
      var front := more[..|more| - 1];
      assert (es + [e] + more)[..|es + [e] + more| - 1] == es + [e] + front;
      InTimeParts(p, start, es, e, front);
    }
  }
}
