/** That the two dictionaries do reach one over their limit, and that a code stored, unexpired and
    presented on its own terms is then refused: `/token` prunes it before deleting it. */
module AuthCodesLimit {
  import opened AuthCache
  import opened AuthCodes

  const REQUEST := Request("client", "redirect", "", "", LOCAL)

  lemma RunMore(p: Params, es: seq<Event>, e: Event)
    ensures Run(p, 0, es + [e]) == Step(p, Run(p, 0, es), e)
    ensures InTime(p, 0, es + [e]) <==> InTime(p, 0, es) && Timely(Run(p, 0, es), e)
  {
    hide Step, Timely;
    assert (es + [e])[..|es|] == es;
  }

  /** `n` sign-ins have come and gone one at a time, all at 0, each leaving the code it was after: token
      `2 * i` was the i-th handle and `2 * i + 1` its code. */
  ghost predicate SignedIn(s: State, n: nat) {
    s.clock == 0 && s.next == 2 * n && s.pending == [] && s.held == multiset{} && Codes(s.codes, n)
  }

  /** Nothing is pruned while there is room and nothing has aged. */
  lemma NothingPruned(codes: seq<Entry<Grant>>, ttl: int, max: nat)
    requires ttl >= 0 && |codes| <= max && forall i :: 0 <= i < |codes| ==> codes[i].at == 0
    ensures Pruned(codes, ttl, max, 0) == codes
  {
    hide Pruned;
    var k := PruneKeepsNewestUnexpired(codes, ttl, max, 0);
    if codes != [] {
      assert codes[0].at >= 0 - ttl;
    }
    assert k == 0;
  }

  /** While a sign-in is under way: the request alone is pending, and `held` has looked it up. */
  ghost predicate SigningIn(s: State, n: nat, held: multiset<Held>) {
    && s.clock == 0 && s.next == 2 * n + 1 && s.pending == [Entry(2 * n, 0, REQUEST)] && s.held == held
    && Codes(s.codes, n)
  }

  ghost predicate Codes(codes: seq<Entry<Grant>>, n: nat) {
    |codes| == n && forall i :: 0 <= i < n ==> codes[i] == Entry(2 * i + 1, 0, GrantOf(REQUEST))
  }

  lemma AuthorizeOnce(p: Params, s: State, n: nat)
    requires p.ttl >= 0 && n <= p.max && SignedIn(s, n)
    ensures Timely(s, Authorize(REQUEST, 0, 0)) && SigningIn(Step(p, s, Authorize(REQUEST, 0, 0)), n, multiset{})
  {
    hide Pruned;
    NothingPruned(s.codes, p.ttl, p.max);
    NothingPending(p);
  }

  lemma BeginOnce(p: Params, s: State, n: nat)
    requires SigningIn(s, n, multiset{})
    ensures Timely(s, BeginLocal(2 * n, 0))
    ensures SigningIn(Step(p, s, BeginLocal(2 * n, 0)), n, multiset{Held(2 * n, REQUEST)})
  {
    hide Place, Codes;
    FirstPlace(s.pending, 2 * n);
  }

  lemma FinishOnce(p: Params, s: State, n: nat)
    requires p.ttl >= 0 && n <= p.max && SigningIn(s, n, multiset{Held(2 * n, REQUEST)})
    ensures var e := FinishLocal(Held(2 * n, REQUEST), 0, 0); Timely(s, e) && SignedIn(Step(p, s, e), n + 1)
  {
    hide Pruned, Place;
    FirstPlace(s.pending, 2 * n);
    assert Without(s.pending, 2 * n) == [];
    NothingPruned(s.codes, p.ttl, p.max);
    NothingPending(p);
  }

  lemma NothingPending(p: Params)
    ensures Pruned<Request>([], p.ttl, p.max, 0) == []
  {}

  /** At no time is more than one sign-in under way. */
  ghost predicate OneAtATime(p: Params, es: seq<Event>) {
    |Run(p, 0, es).held| <= 1 && (es == [] || OneAtATime(p, es[..|es| - 1]))
  }

  lemma StillOneAtATime(p: Params, es: seq<Event>, e: Event)
    requires OneAtATime(p, es) && |Run(p, 0, es + [e]).held| <= 1
    ensures OneAtATime(p, es + [e])
  {
    hide Run;
    assert (es + [e])[..|es|] == es;
  }

  lemma {:induction false} SignInMany(p: Params, n: nat) returns (es: seq<Event>)
    requires p.ttl >= 0 && n <= p.max + 1
    ensures InTime(p, 0, es) && SignedIn(Run(p, 0, es), n) && OneAtATime(p, es)
  {
    if n == 0 {
      es := [];
      assert Run(p, 0, []) == Start(0) && InTime(p, 0, []);
    } else {
      var before := SignInMany(p, n - 1);
      es := SignInNext(p, before, n - 1);
    }
  }

  /** One sign-in, while there is room, leaves every earlier code stored. */
  lemma SignInNext(p: Params, before: seq<Event>, n: nat) returns (es: seq<Event>)
    requires p.ttl >= 0 && n <= p.max && InTime(p, 0, before) && SignedIn(Run(p, 0, before), n)
    requires OneAtATime(p, before)
    ensures InTime(p, 0, es) && SignedIn(Run(p, 0, es), n + 1) && OneAtATime(p, es)
  {
    hide Run, InTime, Step, Codes, Timely, OneAtATime;
    var e1, e2, e3 := Authorize(REQUEST, 0, 0), BeginLocal(2 * n, 0), FinishLocal(Held(2 * n, REQUEST), 0, 0);
    RunMore(p, before, e1);
    AuthorizeOnce(p, Run(p, 0, before), n);
    RunMore(p, before + [e1], e2);
    BeginOnce(p, Run(p, 0, before + [e1]), n);
    RunMore(p, before + [e1] + [e2], e3);
    FinishOnce(p, Run(p, 0, before + [e1] + [e2]), n);
    StillOneAtATime(p, before, e1);
    StillOneAtATime(p, before + [e1], e2);
    StillOneAtATime(p, before + [e1] + [e2], e3);
    es := before + [e1] + [e2] + [e3];
  }

  /** The presentation is complete and meets every term of a stored code within its lifetime. */
  ghost predicate Proper(p: Params, s: State, e: Event) {
    && e.Token? && e.client != "" && e.redirect != "" && e.verifier != ""
    && exists i :: 0 <= i < |s.codes| && s.codes[i].key == e.code
        && e.client == s.codes[i].value.client && e.redirect == s.codes[i].value.redirect
        && e.later - s.codes[i].at <= p.ttl
        && (s.codes[i].value.challenge != "" ==>
              s.codes[i].value.challenge ==
                if s.codes[i].value.method_ == "S256" then p.sha256(e.verifier) else e.verifier)
  }

  /** For any limit, a run of sign-ins that never overlap fills the dictionary to one over it, and
      `/token` then refuses its oldest code to the client presenting it properly, granting nothing. */
  lemma ProperCodeRefused(p: Params) returns (es: seq<Event>, e: Event)
    requires p.ttl >= 0
    ensures var s := Run(p, 0, es);
      && InTime(p, 0, es + [e]) && OneAtATime(p, es) && |s.codes| == p.max + 1 && Proper(p, s, e)
      && Run(p, 0, es + [e]).trace == s.trace
  {
    hide Run, InTime, Inv, Step, OneAtATime;
    es := SignInMany(p, p.max + 1);
    e := Token(1, "client", "redirect", "v", 0, 0);
    RunMore(p, es, e);
    RunKeeps(p, 0, es);
    OldestRefused(p, Run(p, 0, es), e);
  }

  lemma OldestRefused(p: Params, s: State, e: Event)
    requires p.ttl >= 0 && Inv(p, s) && SignedIn(s, p.max + 1) && e == Token(1, "client", "redirect", "v", 0, 0)
    ensures Proper(p, s, e) && Timely(s, e) && Step(p, s, e).trace == s.trace
  {
    hide Inv, Pruned, Without, Place, GrantStep;
    assert s.codes[0] == Entry(1, 0, GrantOf(REQUEST));
    FirstPlace(s.codes, 1);
    GrantsAtPlace(p, s, e);
    TokenMarksOnlyGrants(p, s, e);
  }

  lemma FirstPlace<V>(es: seq<Entry<V>>, key: nat)
    requires es != [] && es[0].key == key
    ensures Place(es, key) == 0
  {
    hide Place;
  }

  lemma TokenMarksOnlyGrants(p: Params, s: State, e: Event)
    requires e.Token?
    ensures |TokenStep(p, s, e).trace| == |s.trace| + 1 || TokenStep(p, s, e).trace == s.trace
  {
    hide AnswersPkce, Pruned, Without, Place;
  }

  /** `/token` grants every proper presentation of a stored code, over every run, only where no code
      can be presented in time at all. */
  lemma ProperAlwaysGrantedIff(p: Params)
    ensures (forall start, es, e :: GrantedWhenProper(p, start, es, e)) <==> p.ttl < 0
  {
    hide GrantedWhenProper;
    if p.ttl < 0 {
      forall start, es, e ensures GrantedWhenProper(p, start, es, e) {
        NeverInTime(p, start, es, e);
      }
    } else {
      var es, e := ProperCodeRefused(p);
      assert !GrantedWhenProper(p, 0, es, e) by { NotGranted(p, es, e); }
    }
  }

  ghost predicate GrantedWhenProper(p: Params, start: int, es: seq<Event>, e: Event) {
    InTime(p, start, es + [e]) && Proper(p, Run(p, start, es), e) ==>
      |Run(p, start, es + [e]).trace| == |Run(p, start, es).trace| + 1
  }

  lemma NotGranted(p: Params, es: seq<Event>, e: Event)
    requires InTime(p, 0, es + [e]) && Proper(p, Run(p, 0, es), e)
    requires Run(p, 0, es + [e]).trace == Run(p, 0, es).trace
    ensures !GrantedWhenProper(p, 0, es, e)
  {
    hide InTime, Proper, Run;
  }

  lemma NeverInTime(p: Params, start: int, es: seq<Event>, e: Event)
    requires p.ttl < 0
    ensures GrantedWhenProper(p, start, es, e)
  {
    hide Run, Step, Inv, Proper;
    if InTime(p, start, es + [e]) {
      assert (es + [e])[..|es|] == es;
      RunKeeps(p, start, es);
      NeverProper(p, Run(p, start, es), e);
    }
  }

  lemma NeverProper(p: Params, s: State, e: Event)
    requires p.ttl < 0 && Inv(p, s) && Timely(s, e)
    ensures !Proper(p, s, e)
  {
    hide TraceOk, Behind, MintedFrom;
  }
}
