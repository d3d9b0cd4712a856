/** `key_share_router._bound` and `key_shares.spend_token`: a token opens one call, once. */
module CustodyTokens {
  import opened Options

  // ------------------------------------------------------------------
  // One presentation of a token
  // ------------------------------------------------------------------

  /** The claims `_bound` reads; a claim of the wrong type is None. */
  datatype Claims = Claims(
    iat: Option<int>, exp: Option<int>, jti: Option<string>, method_: Option<string>, path: Option<string>,
    principal: Option<string>)

  datatype Call = Call(method_: string, principal: string)

  datatype Verdict = Accepted | Lifetime | NoJti | WrongMethod | WrongPath | WrongPrincipal | Replayed

  const MAX_TOKEN_TTL := 60
  const PREFIX := "/internal/key-shares"

  /** Whether the token was signed for this very call, and for no longer than a minute. */
  predicate BoundTo(claims: Claims, call: Call) {
    && claims.iat.Some? && claims.exp.Some? && claims.exp.value - claims.iat.value <= MAX_TOKEN_TTL
    && claims.jti.Some? && 8 <= |claims.jti.value| <= 128
    && claims.method_ == Some(call.method_)
    && claims.path == Some(PREFIX + "/" + call.principal)
    && claims.principal == Some(call.principal)
  }

  /** What a caller signs for one call. */
  function SignedFor(call: Call, iat: int, exp: int, jti: string): Claims {
    Claims(Some(iat), Some(exp), Some(jti), Some(call.method_), Some("/internal/key-shares/" + call.principal),
      Some(call.principal))
  }

  predicate Signs(claims: Claims, call: Call, iat: int, exp: int, jti: string) {
    claims == SignedFor(call, iat, exp, jti)
  }

  /** The tokens bound to a call are exactly those signed for it to live a minute at most, under an
      identifier of 8 to 128 characters; and a token is bound to one call only. */
  lemma BoundIffSignedForIt(claims: Claims, call: Call, other: Call)
    ensures BoundTo(claims, call) <==>
      exists iat, exp, jti :: Signs(claims, call, iat, exp, jti) && exp - iat <= 60 && 8 <= |jti| <= 128
    ensures BoundTo(claims, call) && BoundTo(claims, other) ==> call == other
  {
    if BoundTo(claims, call) {
      assert PREFIX + "/" == "/internal/key-shares/";
      assert Signs(claims, call, claims.iat.value, claims.exp.value, claims.jti.value);
    }
    if iat, exp, jti :| Signs(claims, call, iat, exp, jti) && exp - iat <= 60 && 8 <= |jti| <= 128 {
      assert PREFIX + "/" == "/internal/key-shares/";
    }
  }

  /** The records left once those expired for longer than `grace` are dropped. */
  function Purged(spent: map<string, int>, grace: int, now: int): map<string, int> {
    map jti | jti in spent && spent[jti] >= now - grace :: spent[jti]
  }

  function SpendResult(spent: map<string, int>, grace: int, jti: string, exp: int, now: int)
    : (bool, map<string, int>)
  {
    var left := Purged(spent, grace, now);
    if jti in left then (false, spent) else (true, left[jti := exp])
  }

  class Custody {
    const grace: int
    var spent: map<string, int>

    constructor (grace: int)
      ensures this.grace == grace && spent == map[]
    {
      this.grace := grace;
      spent := map[];
    }

    /** `spend_token`: purge and insert in one transaction, undone together when the key exists. */
    method SpendToken(jti: string, exp: int, now: int) returns (fresh_: bool)
      modifies this
      ensures (fresh_, spent) == SpendResult(old(spent), grace, jti, exp, now)
    {
      var before := spent;
      spent := Purged(spent, grace, now);
      if jti in spent {
        spent := before;
        return false;
      }
      spent := spent[jti := exp];
      return true;
    }

    /** `_bound`: a token not bound to the call is refused before it is spent. */
    method Bound(claims: Claims, call: Call, now: int) returns (verdict: Verdict)
      modifies this
      ensures verdict == Accepted ==>
        exists iat, exp, jti :: Signs(claims, call, iat, exp, jti) && exp - iat <= 60 && 8 <= |jti| <= 128
      ensures BoundTo(claims, call) ==>
        && verdict ==
             (if SpendResult(old(spent), grace, claims.jti.value, claims.exp.value, now).0 then Accepted else Replayed)
        && spent == SpendResult(old(spent), grace, claims.jti.value, claims.exp.value, now).1
      ensures !BoundTo(claims, call) ==> verdict !in {Accepted, Replayed} && spent == old(spent)
      ensures verdict == Lifetime <==>
        !(claims.iat.Some? && claims.exp.Some? && claims.exp.value - claims.iat.value <= 60)
      ensures verdict == NoJti <==>
        verdict != Lifetime && !(claims.jti.Some? && 8 <= |claims.jti.value| <= 128)
      ensures verdict == WrongMethod <==> verdict !in {Lifetime, NoJti} && claims.method_ != Some(call.method_)
      ensures verdict == WrongPath <==>
        verdict !in {Lifetime, NoJti, WrongMethod} && claims.path != Some("/internal/key-shares/" + call.principal)
    {
      BoundIffSignedForIt(claims, call, call);
      assert PREFIX + "/" == "/internal/key-shares/";
      if claims.iat.None? || claims.exp.None? || claims.exp.value - claims.iat.value > MAX_TOKEN_TTL {
        return Lifetime;
      } else if claims.jti.None? || !(8 <= |claims.jti.value| <= 128) {
        return NoJti;
      } else if claims.method_ != Some(call.method_) {
        return WrongMethod;
      } else if claims.path != Some(PREFIX + "/" + call.principal) {
        return WrongPath;
      } else if claims.principal != Some(call.principal) {
        return WrongPrincipal;
      }
      var ok := SpendToken(claims.jti.value, claims.exp.value, now);
      return if ok then Accepted else Replayed;
    }
  }

  // ------------------------------------------------------------------
  // Whole runs
  // ------------------------------------------------------------------

  /** One bound token presented: when its expiry was checked, the clock the purge reads, and when
      the transaction commits. */
  datatype Presented = Presented(jti: string, exp: int, verifiedAt: int, readAt: int, committedAt: int)

  /** `accepted` are the presentations accepted so far. */
  datatype State = State(spent: map<string, int>, clock: int, accepted: seq<Presented>)

  function Step(grace: int, s: State, p: Presented): State {
    var (ok, spent) := SpendResult(s.spent, grace, p.jti, p.exp, p.readAt);
    State(spent, p.committedAt, if ok then s.accepted + [p] else s.accepted)
  }

  function Run(grace: int, start: int, ps: seq<Presented>): State {
    if ps == [] then State(map[], start, []) else Step(grace, Run(grace, start, ps[..|ps| - 1]), ps[|ps| - 1])
  }

  /** Transactions commit in order, and no clock is read after its transaction commits. */
  ghost predicate InTime(grace: int, start: int, ps: seq<Presented>) {
    ps == [] ||
    var front, p := ps[..|ps| - 1], ps[|ps| - 1];
    && InTime(grace, start, front)
    && Run(grace, start, front).clock <= p.committedAt && p.readAt <= p.committedAt
  }

  /** The token had not expired when verified, and its record was committed within the grace. */
  predicate Prompt(grace: int, p: Presented) {
    p.verifiedAt <= p.exp && p.committedAt <= p.verifiedAt + grace
  }

  predicate AlwaysPrompt(grace: int, ps: seq<Presented>, jti: string, exp: int) {
    forall p :: p in ps && p.jti == jti && p.exp == exp ==> Prompt(grace, p)
  }

  function TimesAccepted(accepted: seq<Presented>, jti: string, exp: int): nat {
    if accepted == [] then 0 else
      var last := accepted[|accepted| - 1];
      TimesAccepted(accepted[..|accepted| - 1], jti, exp) + if last.jti == jti && last.exp == exp then 1 else 0
  }

  // ------------------------------------------------------------------
  // When a token is accepted
  // ------------------------------------------------------------------

  /** Nothing accepted since the k-th acceptance has read a clock late enough to drop its record. */
  ghost predicate Stands(grace: int, accepted: seq<Presented>, k: nat)
    requires k < |accepted|
  {
    forall r :: k < r < |accepted| ==> accepted[r].readAt <= accepted[k].exp + grace
  }

  /** The records kept are those of the acceptances that stand. */
  ghost predicate RecordsStanding(grace: int, s: State) {
    && (forall k :: 0 <= k < |s.accepted| && Stands(grace, s.accepted, k) ==>
          s.accepted[k].jti in s.spent && s.spent[s.accepted[k].jti] == s.accepted[k].exp)
    && (forall jti :: jti in s.spent ==> StandsFor(grace, s.accepted, jti))
  }

  ghost predicate StandsFor(grace: int, accepted: seq<Presented>, jti: string) {
    exists k :: 0 <= k < |accepted| && accepted[k].jti == jti && Stands(grace, accepted, k)
  }

  /** An acceptance stands after one more exactly when it stood and that one did not read too late. */
  lemma StandsAfter(grace: int, accepted: seq<Presented>, p: Presented, k: nat)
    requires k < |accepted|
    ensures Stands(grace, accepted + [p], k) <==> Stands(grace, accepted, k) && p.readAt <= accepted[k].exp + grace
  {
    var longer := accepted + [p];
    assert longer[|accepted|] == p;
    assert forall r :: 0 <= r < |accepted| ==> longer[r] == accepted[r];
  }

  lemma StepStanding(grace: int, s: State, p: Presented)
    requires RecordsStanding(grace, s)
    ensures RecordsStanding(grace, Step(grace, s, p))
  {
    hide Stands;
    var s' := Step(grace, s, p);
    var n := |s.accepted|;
    if s'.accepted != s.accepted {
      assert Stands(grace, s'.accepted, n) by { LastStands(grace, s'.accepted); }
      forall k | 0 <= k < n
        ensures Stands(grace, s'.accepted, k)
          <==> Stands(grace, s.accepted, k) && p.readAt <= s.accepted[k].exp + grace
      {
        StandsAfter(grace, s.accepted, p, k);
      }
      forall jti | jti in s'.spent ensures StandsFor(grace, s'.accepted, jti) {
        if jti == p.jti {
          assert s'.accepted[n].jti == jti;
        } else {
          var k :| 0 <= k < n && s.accepted[k].jti == jti && Stands(grace, s.accepted, k);
          assert s'.accepted[k].jti == jti;
        }
      }
    }
  }

  lemma LastStands(grace: int, accepted: seq<Presented>)
    requires accepted != []
    ensures Stands(grace, accepted, |accepted| - 1)
  {}

  lemma {:induction false} RunStanding(grace: int, start: int, ps: seq<Presented>)
    ensures RecordsStanding(grace, Run(grace, start, ps))
  {
    hide Step, RecordsStanding;
    if ps == [] {
      NothingStands(grace, start);
    } else {
      RunStanding(grace, start, ps[..|ps| - 1]);
      StepStanding(grace, Run(grace, start, ps[..|ps| - 1]), ps[|ps| - 1]);
    }
  }

  lemma NothingStands(grace: int, start: int)
    ensures RecordsStanding(grace, State(map[], start, []))
  {}

  /** Over any run, a presentation is accepted exactly when every acceptance of its identifier so far
      has lapsed: this presentation, or one accepted since, reads the clock more than the grace past
      the expiry recorded then. A refused presentation purges nothing, so it does not count. */
  lemma AcceptedIffLapsed(grace: int, start: int, ps: seq<Presented>, p: Presented)
    ensures var s := Run(grace, start, ps); var after := Step(grace, s, p).accepted;
      && (after == s.accepted + [p] || after == s.accepted)
      && (after == s.accepted + [p] <==>
            forall k :: 0 <= k < |s.accepted| && s.accepted[k].jti == p.jti ==>
              p.readAt > s.accepted[k].exp + grace || !Stands(grace, s.accepted, k))
  {
    hide Run, Stands;
    RunStanding(grace, start, ps);
    var s := Run(grace, start, ps);
    assert s.accepted + [p] != s.accepted;
  }

  // ------------------------------------------------------------------
  // Once, when presented promptly
  // ------------------------------------------------------------------

  /** No accepted presentation read the clock later than the run's own clock. */
  lemma {:induction false} ReadByNow(grace: int, start: int, ps: seq<Presented>)
    requires InTime(grace, start, ps)
    ensures var s := Run(grace, start, ps); forall k :: 0 <= k < |s.accepted| ==> s.accepted[k].readAt <= s.clock
  {
    hide SpendResult;
    if ps == [] {
      assert Run(grace, start, ps).accepted == [];
    } else {
      ReadByNow(grace, start, ps[..|ps| - 1]);
      assert Run(grace, start, ps) == Step(grace, Run(grace, start, ps[..|ps| - 1]), ps[|ps| - 1]);
    }
  }

  /** A token presented promptly is accepted at most once over any run, whatever other tokens do:
      its record outlives every instant at which it still verifies. */
  lemma {:induction false} AcceptedOnce(grace: int, start: int, ps: seq<Presented>, jti: string, exp: int)
    requires InTime(grace, start, ps) && AlwaysPrompt(grace, ps, jti, exp)
    ensures TimesAccepted(Run(grace, start, ps).accepted, jti, exp) <= 1
  {
    hide Step, TimesAccepted, Stands;
    if ps == [] {
      NoneAccepted(jti, exp);
    } else {
      var front, p := ps[..|ps| - 1], ps[|ps| - 1];
      assert p in ps && forall q :: q in front ==> q in ps;
      AcceptedOnce(grace, start, front, jti, exp);
      var s := Run(grace, start, front);
      AcceptedIffLapsed(grace, start, front, p);
      OneMore(s.accepted, p, jti, exp);
      if Step(grace, s, p).accepted == s.accepted + [p] && p.jti == jti && p.exp == exp
         && TimesAccepted(s.accepted, jti, exp) > 0 {
        var k := SomeAcceptance(s.accepted, jti, exp);
        ReadByNow(grace, start, front);
        LapsedByLateRead(grace, s.accepted, k);
        assert false;
      }
    }
  }

  lemma LapsedByLateRead(grace: int, accepted: seq<Presented>, k: nat)
    requires k < |accepted|
    ensures !Stands(grace, accepted, k) ==>
      exists r :: 0 <= r < |accepted| && accepted[r].readAt > accepted[k].exp + grace
  {}

  lemma NoneAccepted(jti: string, exp: int)
    ensures TimesAccepted([], jti, exp) == 0
  {}

  lemma OneMore(accepted: seq<Presented>, p: Presented, jti: string, exp: int)
    ensures TimesAccepted(accepted + [p], jti, exp)
      == TimesAccepted(accepted, jti, exp) + if p.jti == jti && p.exp == exp then 1 else 0
  {
    assert (accepted + [p])[..|accepted|] == accepted;
  }

  lemma {:induction false} SomeAcceptance(accepted: seq<Presented>, jti: string, exp: int) returns (k: nat)
    requires TimesAccepted(accepted, jti, exp) > 0
    ensures k < |accepted| && accepted[k].jti == jti && accepted[k].exp == exp
  {
    if accepted[|accepted| - 1].jti == jti && accepted[|accepted| - 1].exp == exp {
      k := |accepted| - 1;
    } else {
      k := SomeAcceptance(accepted[..|accepted| - 1], jti, exp);
    }
  }

  /** Without promptness a token is accepted twice, though its own second presentation reads the clock
      within the grace: one of another token, accepted in between, has purged its record. */
  lemma AcceptedTwiceWhenLate(grace: int) returns (ps: seq<Presented>)
    requires grace >= 0
    ensures InTime(grace, 0, ps) && TimesAccepted(Run(grace, 0, ps).accepted, "token-aa", 0) == 2
    ensures |ps| == 3 && (forall k :: 0 <= k < 3 ==> ps[k].verifiedAt <= ps[k].exp) && ps[2].readAt <= ps[2].exp + grace
  {
    var a := Presented("token-aa", 0, 0, 0, 0);
    var b := Presented("token-bb", 2 * grace + 2, 0, grace + 1, grace + 1);
    var c := Presented("token-aa", 0, 0, 0, grace + 2);
    ps := [a] + [b] + [c];
    RunOneMore(grace, [], a);
    assert [] + [a] == [a] && Run(grace, 0, []) == State(map[], 0, []) && InTime(grace, 0, []);
    RunOneMore(grace, [a], b);
    RunOneMore(grace, [a] + [b], c);
    assert Run(grace, 0, [a]) == State(map["token-aa" := 0], 0, [a]);
    assert Run(grace, 0, [a] + [b]).spent == map["token-bb" := 2 * grace + 2];
    assert Run(grace, 0, [a] + [b]).accepted == [a] + [b];
    hide Run, Step, InTime, TimesAccepted;
    NoneAccepted("token-aa", 0);
    OneMore([], a, "token-aa", 0);
    OneMore([a], b, "token-aa", 0);
    OneMore([a] + [b], c, "token-aa", 0);
    assert Run(grace, 0, ps).accepted == [a] + [b] + [c];
  }

  lemma RunOneMore(grace: int, ps: seq<Presented>, p: Presented)
    ensures Run(grace, 0, ps + [p]) == Step(grace, Run(grace, 0, ps), p)
    ensures InTime(grace, 0, ps + [p])
      <==> InTime(grace, 0, ps) && Run(grace, 0, ps).clock <= p.committedAt && p.readAt <= p.committedAt
  {
    assert (ps + [p])[..|ps|] == ps;
  }
}
