/** `db/otp_codes.py` and the parts of `otp_service.py` between awaits: the table of one-time codes,
    the conditional updates on it, and the steps of issuing and verifying. */
module OtpTable {
  import opened Options

  /** `window` and `expiry` of a code, attempts one code takes, draws a window buys, and how long
      an expired code is kept. */
  datatype Params = Params(window: int, expiry: int, attempts: nat, draws: nat, retention: int)

  datatype Code = Code(
    id: nat, email: string, hash: string, expires: int, attempts: nat, used: bool, created: int)

  /** Not used and not expired; only such a code can be claimed or superseded. */
  predicate Open(c: Code, now: int) {
    !c.used && c.expires > now
  }

  predicate Claimable(c: Code, maxAttempts: nat, now: int) {
    Open(c, now) && c.attempts < maxAttempts
  }

  // ------------------------------------------------------------------
  // Queries and updates, over the rows in insertion order
  // ------------------------------------------------------------------

  /** `count_recent_misses`. */
  function Misses(rows: seq<Code>, email: string, since: int): nat {
    if rows == [] then 0 else
      var last := rows[|rows| - 1];
      Misses(rows[..|rows| - 1], email, since)
      + if last.email == email && last.created >= since then last.attempts else 0
  }

  /** `get_latest_valid_for_email`: the newest row that can be claimed. */
  function Latest(rows: seq<Code>, email: string, maxAttempts: nat, now: int): (latest: Option<Code>)
    ensures latest.Some? ==>
      latest.value in rows && latest.value.email == email && Claimable(latest.value, maxAttempts, now)
    ensures forall r :: r in rows && r.email == email && Claimable(r, maxAttempts, now) ==>
      latest.Some? && r.created <= latest.value.created
  {
    if rows == [] then None else
      var front, last := rows[..|rows| - 1], rows[|rows| - 1];
      assert rows == front + [last];
      var before := Latest(front, email, maxAttempts, now);
      if last.email == email && Claimable(last, maxAttempts, now)
         && (before.None? || before.value.created <= last.created)
      then Some(last) else before
  }

  /** `supersede_live_for_email`. */
  function Superseded(rows: seq<Code>, email: string, now: int): (rows': seq<Code>)
    ensures |rows'| == |rows|
    ensures forall i :: 0 <= i < |rows| ==>
      rows'[i] == if rows[i].email == email && Open(rows[i], now) then rows[i].(used := true) else rows[i]
  {
    if rows == [] then [] else
      var last := rows[|rows| - 1];
      Superseded(rows[..|rows| - 1], email, now)
      + [if last.email == email && Open(last, now) then last.(used := true) else last]
  }

  /** `claim_attempt`, the update. */
  function Claimed(rows: seq<Code>, id: nat, maxAttempts: nat, now: int): (rows': seq<Code>)
    ensures |rows'| == |rows|
    ensures forall i :: 0 <= i < |rows| ==>
      rows'[i] == if rows[i].id == id && Claimable(rows[i], maxAttempts, now)
                  then rows[i].(attempts := rows[i].attempts + 1) else rows[i]
  {
    if rows == [] then [] else
      var last := rows[|rows| - 1];
      Claimed(rows[..|rows| - 1], id, maxAttempts, now)
      + [if last.id == id && Claimable(last, maxAttempts, now) then last.(attempts := last.attempts + 1) else last]
  }

  /** `claim_use`, the update. */
  function Used(rows: seq<Code>, id: nat): (rows': seq<Code>)
    ensures |rows'| == |rows|
    ensures forall i :: 0 <= i < |rows| ==>
      rows'[i] == if rows[i].id == id && !rows[i].used then rows[i].(used := true) else rows[i]
  {
    if rows == [] then [] else
      var last := rows[|rows| - 1];
      Used(rows[..|rows| - 1], id) + [if last.id == id && !last.used then last.(used := true) else last]
  }

  predicate HasUnused(rows: seq<Code>, id: nat) {
    exists i :: 0 <= i < |rows| && rows[i].id == id && !rows[i].used
  }

  /** `delete_expired`: what is left once codes past their retention are gone. */
  function Retained(rows: seq<Code>, cutoff: int): (kept: seq<Code>)
    ensures |kept| <= |rows|
    ensures forall r :: r in kept <==> r in rows && r.expires > cutoff
  {
    if rows == [] then [] else
      var front, last := rows[..|rows| - 1], rows[|rows| - 1];
      assert rows == front + [last];
      if last.expires > cutoff then Retained(front, cutoff) + [last] else Retained(front, cutoff)
  }

  /** `_limit_reached`. */
  predicate LimitReached(p: Params, rows: seq<Code>, email: string, now: int) {
    Misses(rows, email, now - p.window) + p.attempts > p.draws
  }

  /** The row `issue_otp` inserts; its creation time is read when the row is written. */
  function Issued(p: Params, rows: seq<Code>, nextId: nat, email: string, hash: string, now: int, created: int)
    : seq<Code>
  {
    Superseded(rows, email, now) + [Code(nextId, email, hash, now + p.expiry, 0, false, created)]
  }

  // ------------------------------------------------------------------
  // The service over the table, one method per stretch between awaits
  // ------------------------------------------------------------------

  ghost predicate IdsUnique(rows: seq<Code>, nextId: nat) {
    && (forall i :: 0 <= i < |rows| ==> rows[i].id < nextId)
    && forall i, j :: 0 <= i < j < |rows| ==> rows[i].id != rows[j].id
  }

  lemma RetainedOne(rows: seq<Code>, r: Code, cutoff: int)
    ensures Retained(rows + [r], cutoff) == Retained(rows, cutoff) + if r.expires > cutoff then [r] else []
  {
    assert (rows + [r])[..|rows|] == rows;
  }

  lemma {:induction false} RetainedUnique(rows: seq<Code>, cutoff: int, nextId: nat)
    requires IdsUnique(rows, nextId)
    ensures IdsUnique(Retained(rows, cutoff), nextId)
  {
    if rows != [] {
      var front, last := rows[..|rows| - 1], rows[|rows| - 1];
      RetainedUnique(front, cutoff, nextId);
      var kept := Retained(front, cutoff);
      forall i | 0 <= i < |kept| ensures kept[i].id != last.id {
        assert kept[i] in front;
      }
    }
  }

  class OtpService {
    const p: Params
    var rows: seq<Code>
    var nextId: nat

    ghost predicate Valid()
      reads this
    {
      IdsUnique(rows, nextId)
    }

    constructor (p: Params)
      ensures Valid() && this.p == p && rows == [] && nextId == 0
    {
      this.p := p;
      rows, nextId := [], 0;
    }

    /** Up to the awaited hash: the limit is read, nothing is written. */
    method BeginIssue(email: string, now: int) returns (mayHash: bool)
      ensures mayHash <==> !LimitReached(p, rows, email, now)
    {
      mayHash := Misses(rows, email, now - p.window) + p.attempts <= p.draws;
    }

    /** After the hash: the limit again, then supersede and create in one transaction. */
    method FinishIssue(email: string, hash: string, now: int, created: int) returns (issued: bool)
      requires Valid()
      modifies this
      ensures Valid()
      ensures issued <==> !LimitReached(p, old(rows), email, now)
      ensures rows == if issued then Issued(p, old(rows), old(nextId), email, hash, now, created) else old(rows)
      ensures nextId == if issued then old(nextId) + 1 else old(nextId)
    {
      if Misses(rows, email, now - p.window) + p.attempts > p.draws {
        return false;
      }
      rows := Superseded(rows, email, now);
      rows := rows + [Code(nextId, email, hash, now + p.expiry, 0, false, created)];
      nextId := nextId + 1;
      return true;
    }

    /** Up to the awaited comparison: look the live code up and spend one of its attempts. */
    method BeginVerify(email: string, now: int) returns (claimed: Option<Code>)
      requires Valid()
      modifies this
      ensures Valid() && nextId == old(nextId)
      ensures claimed == Latest(old(rows), email, p.attempts, now)
      ensures rows == if claimed.Some? then Claimed(old(rows), claimed.value.id, p.attempts, now) else old(rows)
    {
      var otp := Latest(rows, email, p.attempts, now);
      if otp.None? {
        return None;
      }
      rows := Claimed(rows, otp.value.id, p.attempts, now);
      return otp;
    }

    /** After the comparison: mark the code used unless something else has, and roll that back when
        the person is refused. */
    method FinishVerify(id: nat, matches: bool, personAdmitted: bool) returns (verified: bool)
      requires Valid()
      modifies this
      ensures Valid() && nextId == old(nextId)
      ensures verified <==> matches && personAdmitted && HasUnused(old(rows), id)
      ensures rows == if verified then Used(old(rows), id) else old(rows)
    {
      if !matches {
        return false;
      }
      var before := rows;
      var unused := exists i :: 0 <= i < |rows| && rows[i].id == id && !rows[i].used;
      rows := Used(rows, id);
      if !unused || !personAdmitted {
        rows := before;
        return false;
      }
      return true;
    }

    method CleanupExpired(now: int) returns (deleted: nat)
      requires Valid()
      modifies this
      ensures Valid() && nextId == old(nextId)
      ensures rows == Retained(old(rows), now - p.retention) && deleted == |old(rows)| - |rows|
    {
      RetainedUnique(rows, now - p.retention, nextId);
      var left := Retained(rows, now - p.retention);
      deleted := |rows| - |left|;
      rows := left;
    }
  }
}
