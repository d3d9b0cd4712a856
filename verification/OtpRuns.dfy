/** Every interleaving of code issuers, verifiers and the cleanup job: how many guesses one address
    can take, and which verification of a code may succeed. */
module OtpRuns {
  import opened Options
  import opened OtpTable

  // ------------------------------------------------------------------
  // The protocol, one step per stretch between awaits
  // ------------------------------------------------------------------

  /** A guess taken: the code it was spent on, that code's creation time, and when it was spent. */
  datatype Claim = Claim(id: nat, email: string, created: int, at: int)

  /** `hashing` are issuers awaiting their hash, `comparing` verifiers awaiting their comparison. */
  datatype State = State(
    rows: seq<Code>, nextId: nat, clock: int,
    hashing: multiset<string>, comparing: multiset<nat>,
    claims: seq<Claim>, uses: seq<nat>)

  datatype Event =
    | BeginIssue(email: string, at: int)
    | FinishIssue(email: string, hash: string, at: int, created: int)
    | BeginVerify(email: string, at: int)
    | FinishVerify(id: nat, matches: bool, admitted: bool, at: int)
    | Cleanup(at: int)

  function Start(at: int): State {
    State([], 0, at, multiset{}, multiset{}, [], [])
  }

  function Step(p: Params, s: State, e: Event): State {
    match e
    case BeginIssue(email, at) =>
      s.(clock := at,
         hashing := if LimitReached(p, s.rows, email, at) then s.hashing else s.hashing + multiset{email})
    case FinishIssue(email, hash, at, created) =>
      if email !in s.hashing then s.(clock := at)
      else
        var t := s.(hashing := s.hashing - multiset{email});
        if LimitReached(p, s.rows, email, at) then t.(clock := at)
        else t.(clock := created, nextId := s.nextId + 1,
                rows := Issued(p, s.rows, s.nextId, email, hash, at, created))
    case BeginVerify(email, at) =>
      var otp := Latest(s.rows, email, p.attempts, at);
      if otp.None? then s.(clock := at)
      else s.(clock := at,
              rows := Claimed(s.rows, otp.value.id, p.attempts, at),
              comparing := s.comparing + multiset{otp.value.id},
              claims := s.claims + [Claim(otp.value.id, email, otp.value.created, at)])
    case FinishVerify(id, matches, admitted, at) =>
      if id !in s.comparing then s.(clock := at)
      else
        var t := s.(clock := at, comparing := s.comparing - multiset{id});
        if matches && admitted && HasUnused(s.rows, id)
        then t.(rows := Used(s.rows, id), uses := s.uses + [id])
        else t
    case Cleanup(at) => s.(clock := at, rows := Retained(s.rows, at - p.retention))
  }

  function Run(p: Params, start: int, es: seq<Event>): State {
    if es == [] then Start(start) else Step(p, Run(p, start, es[..|es| - 1]), es[|es| - 1])
  }

  /** The clock never goes back, and a code is written before it has expired. */
  ghost predicate Timely(p: Params, s: State, e: Event) {
    s.clock <= e.at && (e.FinishIssue? ==> e.at <= e.created <= e.at + p.expiry)
  }

  ghost predicate InTime(p: Params, start: int, es: seq<Event>) {
    es == [] ||
    (InTime(p, start, es[..|es| - 1]) && Timely(p, Run(p, start, es[..|es| - 1]), es[|es| - 1]))
  }

  ghost predicate Sensible(p: Params) {
    0 < p.expiry && 0 <= p.window < p.retention
  }

  // ------------------------------------------------------------------
  // The table
  // ------------------------------------------------------------------

  ghost predicate RowOk(p: Params, r: Code, nextId: nat, clock: int) {
    && r.id < nextId && r.attempts <= p.attempts
    && r.expires - p.expiry <= r.created <= r.expires && r.created <= clock
  }

  /** What a row was issued against: other rows of its address are closed by now, and the guesses
      on the rows before it left room in the budget for its own. */
  ghost predicate RowFits(p: Params, front: seq<Code>, r: Code, clock: int) {
    && (forall i :: 0 <= i < |front| ==>
          front[i].id != r.id && (front[i].email == r.email ==> !Open(front[i], clock)))
    && Misses(front, r.email, r.expires - p.expiry - p.window) + p.attempts <= p.draws
  }

  ghost predicate TableOk(p: Params, rows: seq<Code>, nextId: nat, clock: int) {
    rows == [] ||
    var front, last := rows[..|rows| - 1], rows[|rows| - 1];
    && TableOk(p, front, nextId, clock)
    && RowOk(p, last, nextId, clock)
    && RowFits(p, front, last, clock)
  }

  lemma {:induction false} TableLater(p: Params, rows: seq<Code>, nextId: nat, clock: int, nextId': nat, later: int)
    requires TableOk(p, rows, nextId, clock) && nextId <= nextId' && clock <= later
    ensures TableOk(p, rows, nextId', later)
  {
    if rows != [] {
      TableLater(p, rows[..|rows| - 1], nextId, clock, nextId', later);
    }
  }

  lemma {:induction false} TableRow(p: Params, rows: seq<Code>, nextId: nat, clock: int, i: int)
    requires TableOk(p, rows, nextId, clock) && 0 <= i < |rows|
    ensures RowOk(p, rows[i], nextId, clock) && RowFits(p, rows[..i], rows[i], clock)
  {
    var front := rows[..|rows| - 1];
    if i < |front| {
      TableRow(p, front, nextId, clock, i);
      assert front[..i] == rows[..i];
    }
  }

  /** Ids are unique, and of two codes of one address the older is closed. */
  lemma TablePair(p: Params, rows: seq<Code>, nextId: nat, clock: int, i: int, j: int)
    requires TableOk(p, rows, nextId, clock) && 0 <= i < j < |rows|
    ensures rows[i].id != rows[j].id
    ensures rows[i].email == rows[j].email ==> !Open(rows[i], clock)
  {
    TableRow(p, rows, nextId, clock, j);
    assert rows[..j][i] == rows[i];
  }

  lemma {:induction false} MissesLater(rows: seq<Code>, email: string, since: int, later: int)
    requires since <= later
    ensures Misses(rows, email, later) <= Misses(rows, email, since)
  {
    if rows != [] {
      MissesLater(rows[..|rows| - 1], email, since, later);
    }
  }

  lemma {:induction false} MissesSuperseded(rows: seq<Code>, whose: string, now: int, email: string, since: int)
    ensures Misses(Superseded(rows, whose, now), email, since) == Misses(rows, email, since)
  {
    if rows != [] {
      var front := rows[..|rows| - 1];
      MissesSuperseded(front, whose, now, email, since);
      assert Superseded(rows, whose, now)[..|front|] == Superseded(front, whose, now);
    }
  }

  lemma {:induction false} MissesUsed(rows: seq<Code>, id: nat, email: string, since: int)
    ensures Misses(Used(rows, id), email, since) == Misses(rows, email, since)
  {
    if rows != [] {
      var front := rows[..|rows| - 1];
      MissesUsed(front, id, email, since);
      assert Used(rows, id)[..|front|] == Used(front, id);
    }
  }

  /** A claim adds one guess to the code's address, if the code is recent enough to count. */
  lemma {:induction false} MissesClaimed(
    p: Params, rows: seq<Code>, nextId: nat, clock: int, i: int, now: int, email: string, since: int)
    requires TableOk(p, rows, nextId, clock) && 0 <= i < |rows| && Claimable(rows[i], p.attempts, now)
    ensures Misses(Claimed(rows, rows[i].id, p.attempts, now), email, since)
      == Misses(rows, email, since) + if rows[i].email == email && rows[i].created >= since then 1 else 0
  {
    var front, last, id := rows[..|rows| - 1], rows[|rows| - 1], rows[i].id;
    assert Claimed(rows, id, p.attempts, now)[..|front|] == Claimed(front, id, p.attempts, now);
    if i < |front| {
      TablePair(p, rows, nextId, clock, i, |front|);
      MissesClaimed(p, front, nextId, clock, i, now, email, since);
    } else {
      forall j | 0 <= j < |front| ensures front[j].id != id {
        TablePair(p, rows, nextId, clock, j, |front|);
      }
      assert Claimed(front, id, p.attempts, now) == front;
    }
  }

  /** A claim on an open code leaves the guesses of an address with no open code alone. */
  lemma {:induction false} MissesClaimedElsewhere(
    rows: seq<Code>, id: nat, maxAttempts: nat, now: int, email: string, since: int)
    requires forall i :: 0 <= i < |rows| && rows[i].email == email ==> !Open(rows[i], now)
    ensures Misses(Claimed(rows, id, maxAttempts, now), email, since) == Misses(rows, email, since)
  {
    if rows != [] {
      var front := rows[..|rows| - 1];
      MissesClaimedElsewhere(front, id, maxAttempts, now, email, since);
      assert Claimed(rows, id, maxAttempts, now)[..|front|] == Claimed(front, id, maxAttempts, now);
    }
  }

  lemma {:induction false} MissesRetained(rows: seq<Code>, cutoff: int, email: string, since: int)
    ensures Misses(Retained(rows, cutoff), email, since) <= Misses(rows, email, since)
    ensures (forall i :: 0 <= i < |rows| && rows[i].expires <= cutoff ==> rows[i].created < since)
      ==> Misses(Retained(rows, cutoff), email, since) == Misses(rows, email, since)
  {
    hide Misses, Retained;
    if rows == [] {
      NothingRetained(cutoff);
    } else {
      var front, last := rows[..|rows| - 1], rows[|rows| - 1];
      assert rows == front + [last];
      MissesRetained(front, cutoff, email, since);
      var kept := Retained(front, cutoff);
      RetainedOne(front, last, cutoff);
      MissesOne(front, last, email, since);
      MissesOne(kept, last, email, since);
      assert kept + [] == kept;
    }
  }

  lemma NothingRetained(cutoff: int)
    ensures Retained([], cutoff) == []
  {
  }

  lemma MissesOne(rows: seq<Code>, r: Code, email: string, since: int)
    ensures Misses(rows + [r], email, since)
      == Misses(rows, email, since) + if r.email == email && r.created >= since then r.attempts else 0
  {
    assert (rows + [r])[..|rows|] == rows;
  }

  // ------------------------------------------------------------------
  // Every step keeps the table
  // ------------------------------------------------------------------

  /** Updating rows in place keeps the table, so long as it opens nothing and adds no guesses to a
      row's address before that row. */
  lemma FitsAfterUpdate(p: Params, front: seq<Code>, front': seq<Code>, r: Code, r': Code, clock: int)
    requires RowFits(p, front, r, clock) && |front'| == |front|
    requires r'.id == r.id && r'.email == r.email && r'.expires == r.expires
    requires forall i :: 0 <= i < |front| ==>
      && front'[i].id == front[i].id && front'[i].email == front[i].email
      && (Open(front'[i], clock) ==> Open(front[i], clock))
    requires var since := r.expires - p.expiry - p.window;
      Misses(front', r.email, since) <= Misses(front, r.email, since)
    ensures RowFits(p, front', r', clock)
  {
    hide Misses, Open;
  }

  lemma {:induction false} SupersededOk(p: Params, rows: seq<Code>, nextId: nat, clock: int, email: string, now: int)
    requires TableOk(p, rows, nextId, clock)
    ensures TableOk(p, Superseded(rows, email, now), nextId, clock)
  {
    hide Misses, RowFits, Superseded;
    if rows != [] {
      var front, last := rows[..|rows| - 1], rows[|rows| - 1];
      SupersededOk(p, front, nextId, clock, email, now);
      var after := Superseded(rows, email, now);
      assert after[..|front|] == Superseded(front, email, now);
      MissesSuperseded(front, email, now, last.email, last.expires - p.expiry - p.window);
      FitsAfterUpdate(p, front, after[..|front|], last, after[|front|], clock);
    }
  }

  lemma {:induction false} UsedOk(p: Params, rows: seq<Code>, nextId: nat, clock: int, id: nat)
    requires TableOk(p, rows, nextId, clock)
    ensures TableOk(p, Used(rows, id), nextId, clock)
  {
    hide Misses, RowFits, Used;
    if rows != [] {
      var front, last := rows[..|rows| - 1], rows[|rows| - 1];
      UsedOk(p, front, nextId, clock, id);
      var after := Used(rows, id);
      assert after[..|front|] == Used(front, id);
      MissesUsed(front, id, last.email, last.expires - p.expiry - p.window);
      FitsAfterUpdate(p, front, after[..|front|], last, after[|front|], clock);
    }
  }

  lemma {:induction false} ClaimedOk(p: Params, rows: seq<Code>, nextId: nat, now: int, id: nat)
    requires TableOk(p, rows, nextId, now)
    ensures TableOk(p, Claimed(rows, id, p.attempts, now), nextId, now)
  {
    hide Misses, RowFits, Claimed;
    if rows != [] {
      var front, last := rows[..|rows| - 1], rows[|rows| - 1];
      ClaimedOk(p, front, nextId, now, id);
      var after := Claimed(rows, id, p.attempts, now);
      ElsewhereUnder(p, front, last, id, now);
      assert after[..|front|] == Claimed(front, id, p.attempts, now);
      FitsAfterUpdate(p, front, after[..|front|], last, after[|front|], now);
    }
  }

  lemma ElsewhereUnder(p: Params, front: seq<Code>, r: Code, id: nat, now: int)
    requires RowFits(p, front, r, now)
    ensures forall since ::
      Misses(Claimed(front, id, p.attempts, now), r.email, since) == Misses(front, r.email, since)
  {
    forall since
      ensures Misses(Claimed(front, id, p.attempts, now), r.email, since) == Misses(front, r.email, since)
    {
      MissesClaimedElsewhere(front, id, p.attempts, now, r.email, since);
    }
  }

  lemma {:induction false} RetainedOk(p: Params, rows: seq<Code>, nextId: nat, clock: int, cutoff: int)
    requires TableOk(p, rows, nextId, clock)
    ensures TableOk(p, Retained(rows, cutoff), nextId, clock)
  {
    hide Misses, RowFits;
    if rows != [] {
      var front, last := rows[..|rows| - 1], rows[|rows| - 1];
      RetainedOk(p, front, nextId, clock, cutoff);
      if last.expires > cutoff {
        var kept := Retained(front, cutoff);
        assert (kept + [last])[..|kept|] == kept;
        RetainedFits(p, front, last, clock, cutoff);
      }
    }
  }

  lemma RetainedFits(p: Params, front: seq<Code>, r: Code, clock: int, cutoff: int)
    requires RowFits(p, front, r, clock)
    ensures RowFits(p, Retained(front, cutoff), r, clock)
  {
    hide Misses, Open;
    MissesRetained(front, cutoff, r.email, r.expires - p.expiry - p.window);
    var kept := Retained(front, cutoff);
    forall i | 0 <= i < |kept|
      ensures kept[i].id != r.id && (kept[i].email == r.email ==> !Open(kept[i], clock))
    {
      assert kept[i] in front;
      var j :| 0 <= j < |front| && front[j] == kept[i];
    }
  }

  lemma IssuedOk(
    p: Params, rows: seq<Code>, nextId: nat, clock: int, email: string, hash: string, now: int, created: int)
    requires TableOk(p, rows, nextId, clock) && clock <= now <= created <= now + p.expiry
    requires !LimitReached(p, rows, email, now)
    ensures TableOk(p, Issued(p, rows, nextId, email, hash, now, created), nextId + 1, created)
  {
    hide Superseded, Misses;
    var front := Superseded(rows, email, now);
    SupersededOk(p, rows, nextId, clock, email, now);
    TableLater(p, front, nextId, clock, nextId + 1, created);
    MissesSuperseded(rows, email, now, email, now - p.window);
    assert (Issued(p, rows, nextId, email, hash, now, created))[..|front|] == front;
    forall i | 0 <= i < |front| ensures front[i].id < nextId && (front[i].email == email ==> !Open(front[i], created)) {
      TableRow(p, rows, nextId, clock, i);
    }
  }

  lemma StepTable(p: Params, s: State, e: Event)
    requires Sensible(p) && TableOk(p, s.rows, s.nextId, s.clock) && Timely(p, s, e)
    ensures TableOk(p, Step(p, s, e).rows, Step(p, s, e).nextId, Step(p, s, e).clock)
  {
    hide TableOk, LimitReached, Issued, Latest, Claimed, Used, Retained;
    TableLater(p, s.rows, s.nextId, s.clock, s.nextId, e.at);
    match e
    case BeginIssue(email, at) =>
    case FinishIssue(email, hash, at, created) =>
      if !LimitReached(p, s.rows, email, at) {
        IssuedOk(p, s.rows, s.nextId, at, email, hash, at, created);
      }
    case BeginVerify(email, at) =>
      var otp := Latest(s.rows, email, p.attempts, at);
      if otp.Some? { ClaimedOk(p, s.rows, s.nextId, at, otp.value.id); }
    case FinishVerify(id, matches, admitted, at) => UsedOk(p, s.rows, s.nextId, at, id);
    case Cleanup(at) => RetainedOk(p, s.rows, s.nextId, at, at - p.retention);
  }

  /** The guesses on an address's codes of the last window never pass the draw budget. */
  lemma MissesWithinBudget(p: Params, rows: seq<Code>, nextId: nat, clock: int, email: string)
    requires TableOk(p, rows, nextId, clock)
    ensures Misses(rows, email, clock - p.window) <= p.draws
  {
    if rows != [] {
      var front, last := rows[..|rows| - 1], rows[|rows| - 1];
      if last.email == email {
        MissesLater(front, email, last.expires - p.expiry - p.window, clock - p.window);
      } else {
        MissesWithinBudget(p, front, nextId, clock, email);
      }
    }
  }

  // ------------------------------------------------------------------
  // The guesses and the uses
  // ------------------------------------------------------------------

  /** Guesses spent on one code. */
  function ClaimsOn(claims: seq<Claim>, id: nat): nat {
    if claims == [] then 0 else
      ClaimsOn(claims[..|claims| - 1], id) + if claims[|claims| - 1].id == id then 1 else 0
  }

  /** Guesses at an address in the half-open span (from, to], of codes created before `from`
      (`old`) or at or after it. */
  function GuessesIn(claims: seq<Claim>, email: string, from: int, to: int, ofOld: bool): nat {
    if claims == [] then 0 else
      var c := claims[|claims| - 1];
      GuessesIn(claims[..|claims| - 1], email, from, to, ofOld)
      + if c.email == email && from < c.at <= to && (c.created < from <==> ofOld) then 1 else 0
  }

  /** Each guess on the log, against each row still in the table. */
  ghost predicate ClaimFits(c: Claim, r: Code, clock: int) {
    if r.id == c.id then r.email == c.email && r.created == c.created
    else r.email == c.email ==> !Open(r, clock) || r.created >= c.at
  }

  ghost predicate ClaimsOk(s: State) {
    && (forall k :: 0 <= k < |s.claims| ==>
          s.claims[k].id < s.nextId && s.claims[k].created <= s.claims[k].at <= s.clock)
    && (forall k, i :: 0 <= k < |s.claims| && 0 <= i < |s.rows| ==> ClaimFits(s.claims[k], s.rows[i], s.clock))
    && (forall j, k :: 0 <= j < |s.claims| && 0 <= k < |s.claims| ==> SameOldCode(s.claims[j], s.claims[k]))
  }

  /** Two guesses at one address, each later than the other's code was created, are on one code. */
  ghost predicate SameOldCode(c: Claim, d: Claim) {
    c.email == d.email && c.created < d.at && d.created < c.at ==> c.id == d.id
  }

  ghost predicate CountsOk(p: Params, s: State) {
    && (forall id :: ClaimsOn(s.claims, id) <= p.attempts)
    && (forall i :: 0 <= i < |s.rows| ==> ClaimsOn(s.claims, s.rows[i].id) == s.rows[i].attempts)
    && (forall id :: id >= s.nextId ==> ClaimsOn(s.claims, id) == 0)
  }

  ghost predicate UsesOk(s: State) {
    && (forall j :: 0 <= j < |s.uses| ==> s.uses[j] < s.nextId)
    && (forall j, k :: 0 <= j < k < |s.uses| ==> s.uses[j] != s.uses[k])
    && (forall i, j :: 0 <= i < |s.rows| && 0 <= j < |s.uses| && s.rows[i].id == s.uses[j] ==> s.rows[i].used)
  }

  ghost predicate Inv(p: Params, s: State) {
    TableOk(p, s.rows, s.nextId, s.clock) && ClaimsOk(s) && CountsOk(p, s) && UsesOk(s)
  }

  /** Every row after a step was there before, no more open than it was, or has just been issued. */
  ghost predicate RowFrom(s: State, r: Code, now: int) {
    || (exists i :: 0 <= i < |s.rows| && SameCode(s.rows[i], r, now))
    || (r.id == s.nextId && r.created >= now && r.attempts == 0)
  }

  ghost predicate SameCode(before: Code, after: Code, now: int) {
    && before.id == after.id && before.email == after.email && before.created == after.created
    && (before.used ==> after.used)
    && (Open(after, now) ==> Open(before, now))
  }

  lemma StepRows(p: Params, s: State, e: Event, i: int)
    requires Timely(p, s, e) && 0 <= i < |Step(p, s, e).rows|
    ensures RowFrom(s, Step(p, s, e).rows[i], e.at)
    ensures var r := Step(p, s, e).rows[i];
      e.BeginVerify? || (r.id == s.nextId && r.attempts == 0)
      || exists j :: 0 <= j < |s.rows| && s.rows[j].id == r.id && s.rows[j].attempts == r.attempts
  {
    hide Latest, LimitReached, HasUnused, Claimed, Used, Superseded, Retained, SameCode, RowFrom;
    var r := Step(p, s, e).rows[i];
    if e.Cleanup? {
      assert r in Retained(s.rows, e.at - p.retention);
      var j :| 0 <= j < |s.rows| && s.rows[j] == r;
      Unchanged(s, j, r, e.at);
    } else if i < |s.rows| {
      Updated(s, i, r, e.at);
    } else {
      JustIssued(s, r, e.at);
    }
  }

  lemma Unchanged(s: State, i: int, r: Code, now: int)
    requires 0 <= i < |s.rows| && r == s.rows[i]
    ensures RowFrom(s, r, now)
  {
    assert SameCode(s.rows[i], r, now);
  }

  lemma Updated(s: State, i: int, r: Code, now: int)
    requires 0 <= i < |s.rows|
    requires r == s.rows[i] || r == s.rows[i].(used := true) || r == s.rows[i].(attempts := s.rows[i].attempts + 1)
    ensures RowFrom(s, r, now)
  {
    assert SameCode(s.rows[i], r, now);
  }

  lemma JustIssued(s: State, r: Code, now: int)
    requires r.id == s.nextId && r.created >= now && r.attempts == 0
    ensures RowFrom(s, r, now)
  {}

  // ------------------------------------------------------------------
  // Every step keeps the log of guesses
  // ------------------------------------------------------------------

  lemma StepClaims(p: Params, s: State, e: Event)
    requires Sensible(p) && TableOk(p, s.rows, s.nextId, s.clock) && ClaimsOk(s) && Timely(p, s, e)
    ensures ClaimsOk(Step(p, s, e))
  {
    hide TableOk, ClaimFits, SameCode, RowFrom, SameOldCode;
    hide Latest, LimitReached, Claimed, Superseded, Used, Retained, HasUnused;
    var s' := Step(p, s, e);
    var n := |s.claims|;
    OldClaimsFit(p, s, e);
    if e.BeginVerify? && Latest(s.rows, e.email, p.attempts, e.at).Some? {
      var otp := Latest(s.rows, e.email, p.attempts, e.at);
      var g :| 0 <= g < |s.rows| && s.rows[g] == otp.value;
      NewClaimFits(p, s, e, g);
      NewClaimMatches(s, s'.claims[n], g, e.at);
      TableRow(p, s.rows, s.nextId, s.clock, g);
    }
  }

  lemma OldClaimsFit(p: Params, s: State, e: Event)
    requires ClaimsOk(s) && Timely(p, s, e)
    ensures var s' := Step(p, s, e);
      && s.clock <= e.at <= s'.clock && s.nextId <= s'.nextId
      && forall k, i :: 0 <= k < |s.claims| && 0 <= i < |s'.rows| ==> ClaimFits(s.claims[k], s'.rows[i], s'.clock)
  {
    hide Step, ClaimFits, RowFrom, SameOldCode;
    var s' := Step(p, s, e);
    ClockMoves(p, s, e);
    forall k, i | 0 <= k < |s.claims| && 0 <= i < |s'.rows| ensures ClaimFits(s.claims[k], s'.rows[i], s'.clock) {
      StepRows(p, s, e, i);
      FitsLater(s, s.claims[k], s'.rows[i], e.at, s'.clock);
    }
  }

  lemma ClockMoves(p: Params, s: State, e: Event)
    requires Timely(p, s, e)
    ensures s.clock <= e.at <= Step(p, s, e).clock && s.nextId <= Step(p, s, e).nextId
  {
    hide Latest, LimitReached, Superseded, Claimed, Used, HasUnused, Retained;
  }

  lemma NewClaimMatches(s: State, c: Claim, g: int, now: int)
    requires ClaimsOk(s) && 0 <= g < |s.rows| && s.clock <= now && Open(s.rows[g], now)
    requires c == Claim(s.rows[g].id, s.rows[g].email, s.rows[g].created, now)
    ensures SameOldCode(c, c)
    ensures forall k :: 0 <= k < |s.claims| ==> SameOldCode(s.claims[k], c) && SameOldCode(c, s.claims[k])
  {
    hide ClaimFits, SameOldCode, Open;
    SameAsItself(c);
    forall k | 0 <= k < |s.claims| ensures SameOldCode(s.claims[k], c) && SameOldCode(c, s.claims[k]) {
      assert ClaimFits(s.claims[k], s.rows[g], s.clock);
      NewClaimOfOld(s.claims[k], c, s.rows[g], s.clock, now);
    }
  }

  lemma SameAsItself(c: Claim)
    ensures SameOldCode(c, c)
  {}

  lemma FitsLater(s: State, c: Claim, r: Code, now: int, later: int)
    requires RowFrom(s, r, now) && s.clock <= now <= later && c.id < s.nextId && c.at <= s.clock
    requires forall i :: 0 <= i < |s.rows| ==> ClaimFits(c, s.rows[i], s.clock)
    ensures ClaimFits(c, r, later)
  {
    if i :| 0 <= i < |s.rows| && SameCode(s.rows[i], r, now) {
      assert ClaimFits(c, s.rows[i], s.clock);
    }
  }

  /** A fresh claim is on the one open code of its address. */
  lemma NewClaimFits(p: Params, s: State, e: Event, g: int)
    requires TableOk(p, s.rows, s.nextId, s.clock) && Timely(p, s, e) && e.BeginVerify?
    requires 0 <= g < |s.rows| && Latest(s.rows, e.email, p.attempts, e.at) == Some(s.rows[g])
    ensures forall i :: 0 <= i < |s.rows| ==>
      ClaimFits(Claim(s.rows[g].id, e.email, s.rows[g].created, e.at), Step(p, s, e).rows[i], e.at)
  {
    hide TableOk, Latest, Claimed;
    forall i | 0 <= i < |s.rows|
      ensures ClaimFits(Claim(s.rows[g].id, e.email, s.rows[g].created, e.at), Step(p, s, e).rows[i], e.at)
    {
      if i < g {
        TablePair(p, s.rows, s.nextId, s.clock, i, g);
      } else if g < i {
        TablePair(p, s.rows, s.nextId, s.clock, g, i);
      }
    }
  }

  lemma NewClaimOfOld(c: Claim, newer: Claim, r: Code, clock: int, now: int)
    requires ClaimFits(c, r, clock) && clock <= now && Open(r, now)
    requires newer == Claim(r.id, r.email, r.created, now)
    ensures SameOldCode(c, newer) && SameOldCode(newer, c)
  {}

  lemma ClaimsOnAppend(claims: seq<Claim>, c: Claim, id: nat)
    ensures ClaimsOn(claims + [c], id) == ClaimsOn(claims, id) + if c.id == id then 1 else 0
  {
    assert (claims + [c])[..|claims|] == claims;
  }

  lemma StepCounts(p: Params, s: State, e: Event)
    requires Sensible(p) && TableOk(p, s.rows, s.nextId, s.clock) && CountsOk(p, s) && Timely(p, s, e)
    ensures CountsOk(p, Step(p, s, e))
  {
    hide ClaimsOn, TableOk, Latest, Claimed, RowFrom, Step, Timely, Claimable;
    var s' := Step(p, s, e);
    StepVerifies(p, s, e);
    if e.BeginVerify? && Latest(s.rows, e.email, p.attempts, e.at).Some? {
      var otp := Latest(s.rows, e.email, p.attempts, e.at).value;
      var g :| 0 <= g < |s.rows| && s.rows[g] == otp;
      ClaimCounts(p, s, e.email, g, e.at);
    } else if !e.BeginVerify? {
      forall i | 0 <= i < |s'.rows| ensures ClaimsOn(s'.claims, s'.rows[i].id) == s'.rows[i].attempts {
        StepRows(p, s, e, i);
      }
    }
  }

  /** Guesses are claimed by starting to verify a live code, and by nothing else. */
  lemma StepVerifies(p: Params, s: State, e: Event)
    requires CountsOk(p, s) && Timely(p, s, e)
    ensures !e.BeginVerify? ==> Step(p, s, e).claims == s.claims && Step(p, s, e).nextId >= s.nextId
    ensures e.BeginVerify? && Latest(s.rows, e.email, p.attempts, e.at).None? ==> CountsOk(p, Step(p, s, e))
    ensures e.BeginVerify? && Latest(s.rows, e.email, p.attempts, e.at).Some? ==>
      var r := Latest(s.rows, e.email, p.attempts, e.at).value;
      CountsOk(p, s.(
        rows := Claimed(s.rows, r.id, p.attempts, e.at), claims := s.claims + [Claim(r.id, e.email, r.created, e.at)]))
      ==> CountsOk(p, Step(p, s, e))
  {
    hide ClaimsOn, Latest, LimitReached, Superseded, Used, Retained, HasUnused, Claimed;
  }

  lemma ClaimCounts(p: Params, s: State, email: string, g: int, now: int)
    requires TableOk(p, s.rows, s.nextId, s.clock) && CountsOk(p, s)
    requires 0 <= g < |s.rows| && Claimable(s.rows[g], p.attempts, now)
    ensures CountsOk(p, s.(
      rows := Claimed(s.rows, s.rows[g].id, p.attempts, now),
      claims := s.claims + [Claim(s.rows[g].id, email, s.rows[g].created, now)]))
  {
    hide ClaimsOn, TableOk, Claimed;
    var c := Claim(s.rows[g].id, email, s.rows[g].created, now);
    forall id ensures ClaimsOn(s.claims + [c], id) == ClaimsOn(s.claims, id) + if c.id == id then 1 else 0 {
      ClaimsOnAppend(s.claims, c, id);
    }
    TableRow(p, s.rows, s.nextId, s.clock, g);
    forall i | 0 <= i < |s.rows| && i != g ensures s.rows[i].id != c.id {
      if i < g {
        TablePair(p, s.rows, s.nextId, s.clock, i, g);
      } else {
        TablePair(p, s.rows, s.nextId, s.clock, g, i);
      }
    }
  }

  lemma StepUses(p: Params, s: State, e: Event)
    requires Sensible(p) && TableOk(p, s.rows, s.nextId, s.clock) && UsesOk(s) && Timely(p, s, e)
    ensures UsesOk(Step(p, s, e))
  {
    hide TableOk, Step, Timely, HasUnused, RowFrom, SameCode;
    var s' := Step(p, s, e);
    StepNewUse(p, s, e);
    forall i, j | 0 <= i < |s'.rows| && 0 <= j < |s.uses| && s'.rows[i].id == s.uses[j] ensures s'.rows[i].used {
      StepRows(p, s, e, i);
      StaysUsed(s, s'.rows[i], e.at, s.uses[j]);
    }
  }

  /** A row of a code already used is used after a step too. */
  lemma StaysUsed(s: State, r: Code, now: int, id: nat)
    requires RowFrom(s, r, now) && r.id == id && id < s.nextId
    requires forall i :: 0 <= i < |s.rows| && s.rows[i].id == id ==> s.rows[i].used
    ensures r.used
  {}

  /** What a step adds to the uses: an id with an unused row, all of whose rows it marks. */
  lemma StepNewUse(p: Params, s: State, e: Event)
    requires TableOk(p, s.rows, s.nextId, s.clock) && UsesOk(s)
    ensures var s' := Step(p, s, e);
      && s.nextId <= s'.nextId
      && (s'.uses == s.uses || (e.FinishVerify? && s'.uses == s.uses + [e.id] && e.id < s.nextId && e.id !in s.uses
            && forall i :: 0 <= i < |s'.rows| && s'.rows[i].id == e.id ==> s'.rows[i].used))
  {
    hide TableOk, Latest, LimitReached, Superseded, Retained, Claimed, Used;
    if e.FinishVerify? && HasUnused(s.rows, e.id) {
      var i :| 0 <= i < |s.rows| && s.rows[i].id == e.id && !s.rows[i].used;
      TableRow(p, s.rows, s.nextId, s.clock, i);
    }
  }

  lemma {:induction false} RunInv(p: Params, start: int, es: seq<Event>)
    requires Sensible(p) && InTime(p, start, es)
    ensures Inv(p, Run(p, start, es))
  {
    hide TableOk, ClaimsOk, CountsOk, UsesOk, Step;
    if es == [] {
      StartInv(p, start);
    } else {
      var s, e := Run(p, start, es[..|es| - 1]), es[|es| - 1];
      RunInv(p, start, es[..|es| - 1]);
      StepTable(p, s, e);
      StepClaims(p, s, e);
      StepCounts(p, s, e);
      StepUses(p, s, e);
    }
  }

  lemma StartInv(p: Params, start: int)
    ensures Inv(p, Start(start))
  {}

  // ------------------------------------------------------------------
  // Guess bounds
  // ------------------------------------------------------------------

  /** In every reachable state the attempts on an address's codes created in the last window sum to
      at most the draw budget. */
  lemma IssueTimeBound(p: Params, start: int, es: seq<Event>, email: string)
    requires Sensible(p) && InTime(p, start, es)
    ensures var s := Run(p, start, es); Misses(s.rows, email, s.clock - p.window) <= p.draws
  {
    hide Step, Run, InTime, Inv, TableOk, Misses;
    RunInv(p, start, es);
    var s := Run(p, start, es);
    InvTable(p, s);
    MissesWithinBudget(p, s.rows, s.nextId, s.clock, email);
  }

  lemma InvTable(p: Params, s: State)
    requires Inv(p, s)
    ensures TableOk(p, s.rows, s.nextId, s.clock)
  {
    hide TableOk;
  }

  lemma GuessesAppend(claims: seq<Claim>, c: Claim, email: string, from: int, to: int, ofOld: bool)
    ensures GuessesIn(claims + [c], email, from, to, ofOld) == GuessesIn(claims, email, from, to, ofOld)
      + if c.email == email && from < c.at <= to && (c.created < from <==> ofOld) then 1 else 0
  {
    assert (claims + [c])[..|claims|] == claims;
  }

  /** While the span lasts, the guesses of codes created in it are all still in the table. */
  lemma {:induction false} NewCodeGuesses(p: Params, start: int, es: seq<Event>, email: string, from: int)
    requires Sensible(p) && InTime(p, start, es)
    ensures var s, to := Run(p, start, es), from + p.window;
      && GuessesIn(s.claims, email, from, to, false) <= p.draws
      && (s.clock <= to ==> GuessesIn(s.claims, email, from, to, false) <= Misses(s.rows, email, from))
  {
    hide TableOk, Inv, Misses, GuessesIn, Step;
    var s' := Run(p, start, es);
    var to := from + p.window;
    if es == [] {
      NoGuesses(email, from, to);
    } else {
      var s, e := Run(p, start, es[..|es| - 1]), es[|es| - 1];
      NewCodeGuesses(p, start, es[..|es| - 1], email, from);
      RunInv(p, start, es[..|es| - 1]);
      NewGuessStep(p, s, e, email, from);
      IssueTimeBound(p, start, es, email);
      if s'.clock <= to {
        MissesLater(s'.rows, email, s'.clock - p.window, from);
      }
    }
  }

  lemma NoGuesses(email: string, from: int, to: int)
    ensures GuessesIn([], email, from, to, false) == 0
  {}

  /** One step: the table gains a guess whenever the log does, and cleanup takes only older codes. */
  lemma NewGuessStep(p: Params, s: State, e: Event, email: string, from: int)
    requires Sensible(p) && Inv(p, s) && Timely(p, s, e)
    ensures var s', to := Step(p, s, e), from + p.window;
      && (e.at > to ==> GuessesIn(s'.claims, email, from, to, false) == GuessesIn(s.claims, email, from, to, false))
      && (s'.clock <= to && GuessesIn(s.claims, email, from, to, false) <= Misses(s.rows, email, from) ==>
            GuessesIn(s'.claims, email, from, to, false) <= Misses(s'.rows, email, from))
      && (e.at <= s'.clock && (s'.clock > e.at ==> s'.claims == s.claims))
  {
    hide TableOk, Misses, GuessesIn, LimitReached, Latest, Superseded, Used, Claimed, Retained, HasUnused;
    var s', to := Step(p, s, e), from + p.window;
    match e
    case BeginIssue(_, at) =>
    case FinishIssue(who, hash, at, created) =>
      MissesSuperseded(s.rows, who, at, email, from);
      if s'.rows != s.rows {
        MissesOne(Superseded(s.rows, who, at), s'.rows[|s.rows|], email, from);
      }
    case BeginVerify(who, at) =>
      var otp := Latest(s.rows, who, p.attempts, at);
      if otp.Some? {
        var g :| 0 <= g < |s.rows| && s.rows[g] == otp.value;
        MissesClaimed(p, s.rows, s.nextId, s.clock, g, at, email, from);
        GuessesAppend(s.claims, s'.claims[|s.claims|], email, from, to, false);
      }
    case FinishVerify(id, matches, admitted, at) => MissesUsed(s.rows, id, email, from);
    case Cleanup(at) =>
      if at <= to {
        forall i | 0 <= i < |s.rows| && s.rows[i].expires <= at - p.retention ensures s.rows[i].created < from {
          TableRow(p, s.rows, s.nextId, s.clock, i);
        }
      }
      MissesRetained(s.rows, at - p.retention, email, from);
  }

  predicate OldGuess(c: Claim, email: string, from: int) {
    c.email == email && c.created < from < c.at
  }

  /** Guesses in a span on codes created before it are all on one code. */
  lemma {:induction false} OldCodeGuesses(claims: seq<Claim>, email: string, from: int, to: int, id: nat)
    requires forall k :: 0 <= k < |claims| && OldGuess(claims[k], email, from) ==> claims[k].id == id
    ensures GuessesIn(claims, email, from, to, true) <= ClaimsOn(claims, id)
  {
    if claims != [] {
      OldCodeGuesses(claims[..|claims| - 1], email, from, to, id);
    }
  }

  lemma OldGuessesOnOneCode(p: Params, s: State, email: string, from: int, to: int)
    requires Inv(p, s)
    ensures GuessesIn(s.claims, email, from, to, true) <= p.attempts
  {
    hide TableOk, ClaimFits, UsesOk, ClaimsOn, GuessesIn;
    if k :| 0 <= k < |s.claims| && OldGuess(s.claims[k], email, from) {
      forall j | 0 <= j < |s.claims| && OldGuess(s.claims[j], email, from)
        ensures s.claims[j].id == s.claims[k].id
      {
        assert SameOldCode(s.claims[j], s.claims[k]);
      }
      OldCodeGuesses(s.claims, email, from, to, s.claims[k].id);
    } else {
      OldCodeGuesses(s.claims, email, from, to, s.nextId);
    }
  }

  /** In any span of one window, the guesses at an address are at most the draw budget plus one
      code's attempts: codes created in the span share the budget, and of those created before it
      only one can still be guessed at. */
  lemma GuessTimeBound(p: Params, start: int, es: seq<Event>, email: string, from: int)
    requires Sensible(p) && InTime(p, start, es)
    ensures var claims, to := Run(p, start, es).claims, from + p.window;
      && GuessesIn(claims, email, from, to, false) <= p.draws
      && GuessesIn(claims, email, from, to, true) <= p.attempts
  {
    hide Step, Inv, GuessesIn;
    NewCodeGuesses(p, start, es, email, from);
    RunInv(p, start, es);
    OldGuessesOnOneCode(p, Run(p, start, es), email, from, from + p.window);
  }
}
