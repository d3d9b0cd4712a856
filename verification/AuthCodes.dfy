/** The authorization-code flow of `auth_router.py`: pending requests, the codes minted from them by
    local sign-in and by federation, and the two routes that consume a code. */
module AuthCodes {
  import opened AuthCache
  import opened Options

  const LOCAL := "local"

  /** A pending `/authorize` request; an empty challenge is none. */
  datatype Request = Request(
    client: string, redirect: string, challenge: string, method_: string, provider: string)

  /** What a code carries of the request it was minted from. */
  datatype Grant = Grant(client: string, redirect: string, challenge: string, method_: string)

  function GrantOf(r: Request): Grant { Grant(r.client, r.redirect, r.challenge, r.method_) }

  /** Lifetime and limit of the caches, the registered upstream providers, and the S256 transform. */
  datatype Params = Params(ttl: int, max: nat, providers: set<string>, sha256: string -> string)

  /** PKCE: the challenge a verifier answers to. */
  function ChallengeOf(p: Params, method_: string, verifier: string): string {
    if method_ == "S256" then p.sha256(verifier) else verifier
  }

  predicate AnswersPkce(p: Params, g: Grant, verifier: string) {
    g.challenge != "" ==> verifier != "" && ChallengeOf(p, g.method_, verifier) == g.challenge
  }

  /** What `/authorize` demands of a challenge. */
  predicate ChallengeAllowed(r: Request) {
    r.challenge != "" ==> r.method_ in {"S256", "plain"} && 43 <= |r.challenge| <= 128
  }

  predicate RequestAllowed(p: Params, r: Request) {
    ChallengeAllowed(r) && (r.provider == LOCAL || r.provider in p.providers)
  }

  // ------------------------------------------------------------------
  // The flow
  // ------------------------------------------------------------------

  /** A sign-in under way holds the request it looked up, also once the cache has let it go. */
  datatype Held = Held(handle: nat, request: Request)

  datatype Mark =
    | Authorized(handle: nat, request: Request)
    | Minted(code: nat, handle: nat, at: int)
    | Granted(code: nat, client: string, redirect: string, verifier: string, at: int)
    | Linked(code: nat, redirect: string, verifier: string, at: int)

  /** `next` numbers the random tokens drawn: no two are equal. */
  datatype State = State(
    pending: seq<Entry<Request>>, codes: seq<Entry<Grant>>, held: multiset<Held>,
    next: nat, clock: int, trace: seq<Mark>)

  /** `at` is each handler's first clock read and `then` the later one, where it reads two. */
  datatype Event =
    | Authorize(request: Request, at: int, later: int)
    | Federate(handle: nat, provider: string, at: int)
    | BeginLocal(handle: nat, at: int)
    | BeginCallback(handle: nat, at: int)
    | FinishLocal(signin: Held, at: int, later: int)
    | FinishCallback(signin: Held, at: int, later: int, last: int)
    | Token(code: nat, client: string, redirect: string, verifier: string, at: int, later: int)
    | Link(code: nat, redirect: string, verifier: string, at: int)

  function Start(at: int): State { State([], [], multiset{}, 0, at, []) }

  function PruneBoth(p: Params, s: State, now: int): State {
    s.(pending := Pruned(s.pending, p.ttl, p.max, now), codes := Pruned(s.codes, p.ttl, p.max, now), clock := now)
  }

  function AddPending(s: State, r: Request, at: int): State {
    s.(pending := s.pending + [Entry(s.next, at, r)], next := s.next + 1, clock := at,
       trace := s.trace + [Authorized(s.next, r)])
  }

  function AddCode(s: State, h: Held, at: int): State {
    s.(codes := s.codes + [Entry(s.next, at, GrantOf(h.request))], next := s.next + 1, clock := at,
       trace := s.trace + [Minted(s.next, h.handle, at)])
  }

  function DropCode(s: State, code: nat): State {
    s.(codes := Without(s.codes, code))
  }

  /** `/token`: the code is looked up, the caches are pruned, and only then is it checked; a code the
      pruning removed fails where it is deleted. */
  function GrantStep(p: Params, s: State, e: Event): State
    requires e.Token?
  {
    if !Has(s.codes, e.code) then s.(clock := e.at)
    else
      var entry := Find(s.codes, e.code);
      var t := PruneBoth(p, s, e.at).(clock := e.later);
      if e.client != entry.value.client || e.redirect != entry.value.redirect then t
      else if e.later - entry.at > p.ttl then DropCode(t, e.code)
      else if !AnswersPkce(p, entry.value, e.verifier) then t
      else if !Has(t.codes, e.code) then t
      else DropCode(t, e.code).(trace := t.trace + [Granted(e.code, e.client, e.redirect, e.verifier, e.later)])
  }

  /** `/token` refuses a request that leaves any of its parameters empty before it looks the code up. */
  predicate Complete(e: Event)
    requires e.Token?
  {
    e.client != "" && e.redirect != "" && e.verifier != ""
  }

  function TokenStep(p: Params, s: State, e: Event): State
    requires e.Token?
  {
    if Complete(e) then GrantStep(p, s, e) else s.(clock := e.at)
  }

  /** `/me/link-provider`: no pruning, and no client to match. */
  function LinkStep(p: Params, s: State, e: Event): State
    requires e.Link?
  {
    var t := s.(clock := e.at);
    if !Has(s.codes, e.code) then t
    else
      var entry := Find(s.codes, e.code);
      if e.redirect != entry.value.redirect then t
      else if e.at - entry.at > p.ttl then DropCode(t, e.code)
      else if !AnswersPkce(p, entry.value, e.verifier) then t
      else DropCode(t, e.code).(trace := t.trace + [Linked(e.code, e.redirect, e.verifier, e.at)])
  }

  function Step(p: Params, s: State, e: Event): State {
    match e
    case Authorize(r, at, later) =>
      if !RequestAllowed(p, r) then s.(clock := at) else AddPending(PruneBoth(p, s, at), r, later)
    case Federate(handle, provider, at) =>
      var t := s.(clock := at);
      if !Has(s.pending, handle) || Find(s.pending, handle).value.provider != LOCAL then t
      else if provider == LOCAL || provider !in p.providers then t
      else
        var i := Place(s.pending, handle);
        t.(pending := s.pending[i := s.pending[i].(value := s.pending[i].value.(provider := provider))])
    case BeginLocal(handle, at) =>
      var t := s.(clock := at);
      if !Has(s.pending, handle) || Find(s.pending, handle).value.provider != LOCAL then t
      else t.(held := s.held + multiset{Held(handle, Find(s.pending, handle).value)})
    case BeginCallback(handle, at) =>
      var t := s.(clock := at);
      if !Has(s.pending, handle) then t
      else t.(held := s.held + multiset{Held(handle, Find(s.pending, handle).value)})
    case FinishLocal(h, at, later) =>
      if h !in s.held then s.(clock := at)
      else
        var t := s.(held := s.held - multiset{h}, pending := Without(s.pending, h.handle));
        AddCode(PruneBoth(p, t, at), h, later)
    case FinishCallback(h, at, later, last) =>
      if h !in s.held then s.(clock := at)
      else PruneBoth(p, AddCode(PruneBoth(p, s.(held := s.held - multiset{h}), at), h, later), last)
    case Token(_, _, _, _, _, _) => TokenStep(p, s, e)
    case Link(_, _, _, _) => LinkStep(p, s, e)
  }

  function Run(p: Params, start: int, es: seq<Event>): State {
    if es == [] then Start(start) else Step(p, Run(p, start, es[..|es| - 1]), es[|es| - 1])
  }

  /** The clock never goes back, between handlers or inside one. */
  ghost predicate Timely(s: State, e: Event) {
    && s.clock <= e.at
    && (e.Authorize? || e.FinishLocal? || e.FinishCallback? || e.Token? ==> e.at <= e.later)
    && (e.FinishCallback? ==> e.later <= e.last)
  }

  ghost predicate InTime(p: Params, start: int, es: seq<Event>) {
    es == [] ||
    (InTime(p, start, es[..|es| - 1]) && Timely(Run(p, start, es[..|es| - 1]), es[|es| - 1]))
  }

  // ------------------------------------------------------------------
  // What every step keeps
  // ------------------------------------------------------------------

  /** The handle was given out by `/authorize` for this client, redirect and challenge. */
  ghost predicate Behind(trace: seq<Mark>, handle: nat, g: Grant) {
    exists k :: 0 <= k < |trace| && AuthorizedAs(trace[k], handle, g)
  }

  ghost predicate AuthorizedAs(m: Mark, handle: nat, g: Grant) {
    m.Authorized? && m.handle == handle && GrantOf(m.request) == g && ChallengeAllowed(m.request)
  }

  /** The code was minted at `at` for a request with these terms, authorized before. */
  ghost predicate MintedFrom(trace: seq<Mark>, code: nat, at: int, g: Grant) {
    exists k :: 0 <= k < |trace| && MintedAs(trace, k, code, at, g)
  }

  ghost predicate MintedAs(trace: seq<Mark>, k: nat, code: nat, at: int, g: Grant)
    requires k < |trace|
  {
    trace[k].Minted? && trace[k].code == code && trace[k].at == at && Behind(trace[..k], trace[k].handle, g)
  }

  predicate Consumes(m: Mark, code: nat) { (m.Granted? || m.Linked?) && m.code == code }

  /** A dictionary's keys are tokens already drawn, distinct, stored in time order, and one over the
      limit at most. */
  ghost predicate CacheOk<V>(es: seq<Entry<V>>, next: nat, clock: int, max: nat) {
    && Distinct(es) && InTimeOrder(es) && |es| <= max + 1
    && forall i :: 0 <= i < |es| ==> es[i].key < next && es[i].at <= clock
  }

  ghost predicate Inv(p: Params, s: State) {
    && CacheOk(s.pending, s.next, s.clock, p.max)
    && CacheOk(s.codes, s.next, s.clock, p.max)
    && (forall i :: 0 <= i < |s.pending| ==> Behind(s.trace, s.pending[i].key, GrantOf(s.pending[i].value)))
    && (forall h :: h in s.held ==> Behind(s.trace, h.handle, GrantOf(h.request)))
    && (forall i :: 0 <= i < |s.codes| ==> MintedFrom(s.trace, s.codes[i].key, s.codes[i].at, s.codes[i].value))
    && TraceOk(p, s)
  }

  ghost predicate TraceOk(p: Params, s: State) {
    && (forall k :: 0 <= k < |s.trace| ==> MarkOk(p, s, s.trace[..k], s.trace[k]))
    && (forall j, k :: 0 <= j < k < |s.trace| ==> Apart(s.trace[j], s.trace[k]))
  }

  /** No handle is given out twice, no code minted twice and no code consumed twice. */
  predicate Apart(m: Mark, n: Mark) {
    && (m.Authorized? && n.Authorized? ==> m.handle != n.handle)
    && (m.Minted? && n.Minted? ==> m.code != n.code)
    && (m.Granted? || m.Linked? ==> !Consumes(n, m.code))
  }

  /** Tokens are drawn from `next`; a code consumed is no longer stored, and was consumed on the
      terms it was minted on before. */
  ghost predicate MarkOk(p: Params, s: State, before: seq<Mark>, m: Mark) {
    match m
    case Authorized(handle, _) => handle < s.next
    case Minted(code, _, _) => code < s.next
    case Granted(code, client, redirect, verifier, at) =>
      code < s.next && !Has(s.codes, code) && exists g: Grant, minted ::
        g.client == client && g.redirect == redirect && Redeems(p, before, code, g, minted, verifier, at)
    case Linked(code, redirect, verifier, at) =>
      code < s.next && !Has(s.codes, code) && exists g: Grant, minted ::
        g.redirect == redirect && Redeems(p, before, code, g, minted, verifier, at)
  }

  ghost predicate Redeems(p: Params, before: seq<Mark>, code: nat, g: Grant, minted: int, verifier: string, at: int) {
    MintedFrom(before, code, minted, g) && AnswersPkce(p, g, verifier) && at - minted <= p.ttl
  }

  lemma BehindMore(trace: seq<Mark>, m: Mark, handle: nat, g: Grant)
    requires Behind(trace, handle, g)
    ensures Behind(trace + [m], handle, g)
  {
    hide AuthorizedAs;
    var k :| 0 <= k < |trace| && AuthorizedAs(trace[k], handle, g);
    assert (trace + [m])[k] == trace[k];
  }

  lemma MintedMore(trace: seq<Mark>, m: Mark, code: nat, at: int, g: Grant)
    requires MintedFrom(trace, code, at, g)
    ensures MintedFrom(trace + [m], code, at, g)
  {
    hide Behind;
    var k :| 0 <= k < |trace| && MintedAs(trace, k, code, at, g);
    assert (trace + [m])[k] == trace[k] && (trace + [m])[..k] == trace[..k];
    assert MintedAs(trace + [m], k, code, at, g);
  }

  // ---- the pieces a step is made of ----

  /** A cache after some of its entries are gone, still in order. */
  ghost predicate Thinned<V>(es: seq<Entry<V>>, rest: seq<Entry<V>>) {
    && |rest| <= |es|
    && (Distinct(es) ==> Distinct(rest)) && (InTimeOrder(es) ==> InTimeOrder(rest))
    && (forall i :: 0 <= i < |rest| ==> rest[i] in es)
  }

  lemma PrunedThinned<V>(es: seq<Entry<V>>, ttl: int, max: nat, now: int)
    requires InTimeOrder(es)
    ensures Thinned(es, Pruned(es, ttl, max, now)) && |Pruned(es, ttl, max, now)| <= max
  {
    hide Pruned;
    var k := PruneKeepsNewestUnexpired(es, ttl, max, now);
    var rest := Pruned(es, ttl, max, now);
    forall i | 0 <= i < |rest| ensures rest[i] in es {
      assert es[k + i] == rest[i];
    }
  }

  lemma WithoutThinned<V>(es: seq<Entry<V>>, key: nat)
    ensures Thinned(es, Without(es, key))
    ensures Distinct(es) ==> !Has(Without(es, key), key)
  {
    var at := Place(es, key);
    var rest := Without(es, key);
    forall i | 0 <= i < |rest| ensures rest[i] in es {
      assert es[if i < at then i else i + 1] == rest[i];
    }
  }

  /** Thinning the caches and moving the clock on keeps everything. */
  lemma ThinningKeeps(p: Params, s: State, s': State)
    requires Inv(p, s) && Thinned(s.pending, s'.pending) && Thinned(s.codes, s'.codes)
    requires s'.held <= s.held && s'.next == s.next && s'.trace == s.trace && s.clock <= s'.clock
    ensures Inv(p, s')
  {
    hide Behind, MintedFrom, Redeems, Place, Distinct, InTimeOrder, Apart;
    forall k | 0 <= k < |s'.trace| ensures MarkOk(p, s', s'.trace[..k], s'.trace[k]) {
      assert MarkOk(p, s, s.trace[..k], s.trace[k]);
      if s.trace[k].Granted? || s.trace[k].Linked? {
        ThinnedLacks(s.codes, s'.codes, s.trace[k].code);
      }
    }
  }

  lemma ThinnedLacks<V>(es: seq<Entry<V>>, rest: seq<Entry<V>>, key: nat)
    requires Thinned(es, rest) && !Has(es, key)
    ensures !Has(rest, key)
  {
    hide Distinct, InTimeOrder;
    forall i | 0 <= i < |rest| ensures rest[i].key != key {
      assert rest[i] in es;
    }
  }

  lemma HasAppended<V>(es: seq<Entry<V>>, e: Entry<V>, key: nat)
    ensures Has(es + [e], key) <==> Has(es, key) || e.key == key
  {
    assert (es + [e])[|es|] == e;
    assert forall i :: 0 <= i < |es| ==> (es + [e])[i] == es[i];
  }

  lemma CacheGrows<V>(es: seq<Entry<V>>, e: Entry<V>, next: nat, clock: int, max: nat)
    requires CacheOk(es, next, clock, max) && |es| <= max && e.key < next && clock <= e.at
    requires forall i :: 0 <= i < |es| ==> es[i].key < e.key
    ensures CacheOk(es + [e], next, e.at, max)
  {
  }

  /** A mark that is in order itself can be put on the record; a token it names is drawn with it. */
  lemma MarkKeeps(p: Params, s: State, m: Mark, next: nat)
    requires Inv(p, s) && s.next <= next
    requires MarkOk(p, s.(next := next), s.trace, m)
    requires m.Authorized? ==> m.handle == s.next
    requires m.Minted? ==> m.code == s.next
    requires m.Granted? || m.Linked? ==> forall k :: 0 <= k < |s.trace| ==> !Consumes(s.trace[k], m.code)
    ensures Inv(p, s.(trace := s.trace + [m], next := next))
  {
    hide Behind, MintedFrom, Redeems, Has, Distinct, InTimeOrder;
    var t := s.(trace := s.trace + [m], next := next);
    forall i | 0 <= i < |t.pending| ensures Behind(t.trace, t.pending[i].key, GrantOf(t.pending[i].value)) {
      BehindMore(s.trace, m, s.pending[i].key, GrantOf(s.pending[i].value));
    }
    forall h | h in t.held ensures Behind(t.trace, h.handle, GrantOf(h.request)) {
      BehindMore(s.trace, m, h.handle, GrantOf(h.request));
    }
    forall i | 0 <= i < |t.codes| ensures MintedFrom(t.trace, t.codes[i].key, t.codes[i].at, t.codes[i].value) {
      MintedMore(s.trace, m, s.codes[i].key, s.codes[i].at, s.codes[i].value);
    }
    MarkedTraceOk(p, s, m, next);
  }

  lemma MarkedTraceOk(p: Params, s: State, m: Mark, next: nat)
    requires TraceOk(p, s) && s.next <= next
    requires MarkOk(p, s.(next := next), s.trace, m)
    requires m.Authorized? ==> m.handle == s.next
    requires m.Minted? ==> m.code == s.next
    requires m.Granted? || m.Linked? ==> forall k :: 0 <= k < |s.trace| ==> !Consumes(s.trace[k], m.code)
    ensures TraceOk(p, s.(trace := s.trace + [m], next := next))
  {
    hide MintedFrom, Redeems, Has;
    var t := s.(trace := s.trace + [m], next := next);
    forall k | 0 <= k < |t.trace| ensures MarkOk(p, t, t.trace[..k], t.trace[k]) {
      assert t.trace[..k] == s.trace[..k];
      assert k < |s.trace| ==> MarkOk(p, s, s.trace[..k], s.trace[k]);
      assert s.trace[..|s.trace|] == s.trace;
    }
    forall j, k | 0 <= j < k < |t.trace| ensures Apart(t.trace[j], t.trace[k]) {
      assert MarkOk(p, s, s.trace[..j], s.trace[j]);
      assert k < |s.trace| ==> Apart(s.trace[j], s.trace[k]);
    }
  }

  lemma PendingKeeps(p: Params, s: State, e: Entry<Request>)
    requires Inv(p, s) && |s.pending| <= p.max && e.key < s.next && s.clock <= e.at
    requires forall i :: 0 <= i < |s.pending| ==> s.pending[i].key < e.key
    requires Behind(s.trace, e.key, GrantOf(e.value))
    ensures Inv(p, s.(pending := s.pending + [e], clock := e.at))
  {
    hide Behind, MintedFrom, Redeems, Has, Distinct, InTimeOrder, Apart;
    CacheGrows(s.pending, e, s.next, s.clock, p.max);
    var t := s.(pending := s.pending + [e], clock := e.at);
    forall k | 0 <= k < |t.trace| ensures MarkOk(p, t, t.trace[..k], t.trace[k]) {
      assert MarkOk(p, s, s.trace[..k], s.trace[k]);
    }
  }

  lemma CodeKeeps(p: Params, s: State, e: Entry<Grant>)
    requires Inv(p, s) && |s.codes| <= p.max && e.key < s.next && s.clock <= e.at
    requires forall i :: 0 <= i < |s.codes| ==> s.codes[i].key < e.key
    requires forall k :: 0 <= k < |s.trace| ==> !Consumes(s.trace[k], e.key)
    requires MintedFrom(s.trace, e.key, e.at, e.value)
    ensures Inv(p, s.(codes := s.codes + [e], clock := e.at))
  {
    hide Behind, MintedFrom, Redeems, Has, Distinct, InTimeOrder, Apart;
    CacheGrows(s.codes, e, s.next, s.clock, p.max);
    var t := s.(codes := s.codes + [e], clock := e.at);
    forall k | 0 <= k < |t.trace| ensures MarkOk(p, t, t.trace[..k], t.trace[k]) {
      assert MarkOk(p, s, s.trace[..k], s.trace[k]);
      if s.trace[k].Granted? || s.trace[k].Linked? {
        HasAppended(s.codes, e, s.trace[k].code);
      }
    }
  }

  lemma SameThinned<V>(es: seq<Entry<V>>)
    ensures Thinned(es, es)
  {
  }

  // ---- the steps ----

  lemma ClockKeeps(p: Params, s: State, at: int)
    requires Inv(p, s) && s.clock <= at
    ensures Inv(p, s.(clock := at))
  {
    hide TraceOk, Behind, MintedFrom, Thinned;
    SameThinned(s.pending);
    SameThinned(s.codes);
    ThinningKeeps(p, s, s.(clock := at));
  }

  lemma PruneKeeps(p: Params, s: State, now: int)
    requires Inv(p, s) && s.clock <= now
    ensures Inv(p, PruneBoth(p, s, now))
    ensures |PruneBoth(p, s, now).pending| <= p.max && |PruneBoth(p, s, now).codes| <= p.max
    ensures Thinned(s.codes, PruneBoth(p, s, now).codes)
  {
    hide TraceOk, Behind, MintedFrom, Thinned, Pruned;
    PrunedThinned(s.pending, p.ttl, p.max, now);
    PrunedThinned(s.codes, p.ttl, p.max, now);
    ThinningKeeps(p, s, PruneBoth(p, s, now));
  }

  lemma DropKeeps(p: Params, s: State, code: nat)
    requires Inv(p, s)
    ensures Inv(p, DropCode(s, code)) && !Has(DropCode(s, code).codes, code)
  {
    hide TraceOk, Behind, MintedFrom, Thinned, Has, Without;
    WithoutThinned(s.codes, code);
    SameThinned(s.pending);
    ThinningKeeps(p, s, DropCode(s, code));
  }

  lemma AuthorizeKeeps(p: Params, s: State, r: Request, at: int, later: int)
    requires Inv(p, s) && s.clock <= at <= later && ChallengeAllowed(r)
    ensures Inv(p, AddPending(PruneBoth(p, s, at), r, later))
  {
    hide TraceOk, MintedFrom, Distinct, InTimeOrder, ChallengeAllowed, Thinned, Pruned, Has;
    PruneKeeps(p, s, at);
    var t := PruneBoth(p, s, at);
    var m := Authorized(t.next, r);
    MarkKeeps(p, t, m, t.next + 1);
    assert Behind(t.trace + [m], t.next, GrantOf(r)) by {
      assert (t.trace + [m])[|t.trace|] == m;
    }
    PendingKeeps(p, t.(trace := t.trace + [m], next := t.next + 1), Entry(t.next, later, r));
  }

  /** Federation rewrites the provider of a pending request, and nothing a code is minted from. */
  lemma FederateKeeps(p: Params, s: State, i: nat, provider: string)
    requires Inv(p, s) && i < |s.pending|
    ensures Inv(p, s.(pending := s.pending[i := s.pending[i].(value := s.pending[i].value.(provider := provider))]))
  {
    hide Behind, MintedFrom, Redeems, Has, Apart;
    var t := s.(pending := s.pending[i := s.pending[i].(value := s.pending[i].value.(provider := provider))]);
    forall k | 0 <= k < |t.trace| ensures MarkOk(p, t, t.trace[..k], t.trace[k]) {
      assert MarkOk(p, s, s.trace[..k], s.trace[k]);
    }
  }

  lemma BeginKeeps(p: Params, s: State, handle: nat)
    requires Inv(p, s) && Has(s.pending, handle)
    ensures Inv(p, s.(held := s.held + multiset{Held(handle, Find(s.pending, handle).value)}))
  {
    hide Behind, MintedFrom, Redeems, Distinct, InTimeOrder;
    var t := s.(held := s.held + multiset{Held(handle, Find(s.pending, handle).value)});
    forall k | 0 <= k < |t.trace| ensures MarkOk(p, t, t.trace[..k], t.trace[k]) {
      assert MarkOk(p, s, s.trace[..k], s.trace[k]);
    }
  }

  lemma MintKeeps(p: Params, s: State, h: Held, at: int)
    requires Inv(p, s) && |s.codes| <= p.max && s.clock <= at && Behind(s.trace, h.handle, GrantOf(h.request))
    ensures Inv(p, AddCode(s, h, at))
  {
    hide TraceOk, Behind, Distinct, InTimeOrder, Has;
    var m := Minted(s.next, h.handle, at);
    MarkKeeps(p, s, m, s.next + 1);
    NotYetConsumed(p, s, s.next);
    assert MintedFrom(s.trace + [m], s.next, at, GrantOf(h.request)) by {
      assert (s.trace + [m])[|s.trace|] == m && (s.trace + [m])[..|s.trace|] == s.trace;
      assert MintedAs(s.trace + [m], |s.trace|, s.next, at, GrantOf(h.request));
    }
    CodeKeeps(p, s.(trace := s.trace + [m], next := s.next + 1), Entry(s.next, at, GrantOf(h.request)));
  }

  lemma NotYetConsumed(p: Params, s: State, code: nat)
    requires TraceOk(p, s) && (code >= s.next || Has(s.codes, code))
    ensures forall k :: 0 <= k < |s.trace| ==> !Consumes(s.trace[k], code)
  {
    hide Redeems, Has, Apart;
    forall k | 0 <= k < |s.trace| ensures !Consumes(s.trace[k], code) {
      assert MarkOk(p, s, s.trace[..k], s.trace[k]);
    }
  }

  lemma LetGoKeeps(p: Params, s: State, h: Held, pending: seq<Entry<Request>>)
    requires Inv(p, s) && Thinned(s.pending, pending) && h in s.held
    ensures Inv(p, s.(held := s.held - multiset{h}, pending := pending))
  {
    hide Inv, Thinned;
    SameThinned(s.codes);
    ThinningKeeps(p, s, s.(held := s.held - multiset{h}, pending := pending));
  }

  lemma FinishLocalKeeps(p: Params, s: State, h: Held, at: int, later: int)
    requires Inv(p, s) && s.clock <= at <= later && h in s.held
    ensures Inv(p, Step(p, s, FinishLocal(h, at, later)))
  {
    hide Inv, Behind, Thinned, Pruned, Without, Place;
    HeldBehind(p, s, h);
    WithoutThinned(s.pending, h.handle);
    LetGoKeeps(p, s, h, Without(s.pending, h.handle));
    var t := s.(held := s.held - multiset{h}, pending := Without(s.pending, h.handle));
    PruneKeeps(p, t, at);
    MintKeeps(p, PruneBoth(p, t, at), h, later);
  }

  lemma FinishCallbackKeeps(p: Params, s: State, h: Held, at: int, later: int, last: int)
    requires Inv(p, s) && s.clock <= at <= later <= last && h in s.held
    ensures Inv(p, Step(p, s, FinishCallback(h, at, later, last)))
  {
    hide Inv, Behind, Thinned, Pruned;
    HeldBehind(p, s, h);
    SameThinned(s.pending);
    LetGoKeeps(p, s, h, s.pending);
    var t := s.(held := s.held - multiset{h});
    PruneKeeps(p, t, at);
    MintKeeps(p, PruneBoth(p, t, at), h, later);
    PruneKeeps(p, AddCode(PruneBoth(p, t, at), h, later), last);
  }

  lemma HeldBehind(p: Params, s: State, h: Held)
    requires Inv(p, s) && h in s.held
    ensures Behind(s.trace, h.handle, GrantOf(h.request))
  {
    hide Behind, MintedFrom, TraceOk, CacheOk;
  }

  /** A code still stored was minted on the terms stored with it, and nothing has consumed it. */
  lemma StoredIsFresh(p: Params, s: State, code: nat)
    requires Inv(p, s) && Has(s.codes, code)
    ensures code < s.next && MintedFrom(s.trace, code, Find(s.codes, code).at, Find(s.codes, code).value)
    ensures forall k :: 0 <= k < |s.trace| ==> !Consumes(s.trace[k], code)
  {
    hide MintedFrom, Behind, TraceOk, Distinct, InTimeOrder;
    NotYetConsumed(p, s, code);
  }

  lemma TokenKeeps(p: Params, s: State, e: Event)
    requires e.Token? && Inv(p, s) && s.clock <= e.at <= e.later
    ensures Inv(p, TokenStep(p, s, e))
  {
    hide Inv, GrantStep;
    ClockKeeps(p, s, e.at);
    GrantKeeps(p, s, e);
  }

  lemma GrantKeeps(p: Params, s: State, e: Event)
    requires e.Token? && Inv(p, s) && s.clock <= e.at <= e.later
    ensures Inv(p, GrantStep(p, s, e))
  {
    hide Inv, Behind, MintedFrom, Thinned, Pruned, Place, AnswersPkce;
    if Has(s.codes, e.code) {
      var entry := Find(s.codes, e.code);
      PruneKeeps(p, s, e.at);
      ClockKeeps(p, PruneBoth(p, s, e.at), e.later);
      var t := PruneBoth(p, s, e.at).(clock := e.later);
      DropKeeps(p, t, e.code);
      if e.client == entry.value.client && e.redirect == entry.value.redirect && e.later - entry.at <= p.ttl
         && AnswersPkce(p, entry.value, e.verifier) && Has(t.codes, e.code) {
        StoredIsFresh(p, s, e.code);
        assert Redeems(p, t.trace, e.code, entry.value, entry.at, e.verifier, e.later);
        MarkKeeps(p, DropCode(t, e.code), Granted(e.code, e.client, e.redirect, e.verifier, e.later), t.next);
      }
    } else {
      ClockKeeps(p, s, e.at);
    }
  }

  lemma LinkKeeps(p: Params, s: State, e: Event)
    requires e.Link? && Inv(p, s) && s.clock <= e.at
    ensures Inv(p, LinkStep(p, s, e))
  {
    hide Inv, Behind, MintedFrom, Thinned, Place, AnswersPkce;
    ClockKeeps(p, s, e.at);
    if Has(s.codes, e.code) {
      var entry := Find(s.codes, e.code);
      var t := s.(clock := e.at);
      DropKeeps(p, t, e.code);
      if e.redirect == entry.value.redirect && e.at - entry.at <= p.ttl && AnswersPkce(p, entry.value, e.verifier) {
        StoredIsFresh(p, s, e.code);
        assert Redeems(p, t.trace, e.code, entry.value, entry.at, e.verifier, e.at);
        MarkKeeps(p, DropCode(t, e.code), Linked(e.code, e.redirect, e.verifier, e.at), t.next);
      }
    }
  }

  lemma StepKeeps(p: Params, s: State, e: Event)
    requires Inv(p, s) && Timely(s, e)
    ensures Inv(p, Step(p, s, e))
  {
    hide Inv, AddCode, AddPending, PruneBoth, TokenStep, LinkStep, Without, Place, ChallengeAllowed;
    ClockKeeps(p, s, e.at);
    match e
    case Authorize(r, at, later) =>
      if RequestAllowed(p, r) {
        AuthorizeKeeps(p, s, r, at, later);
      }
    case Federate(handle, provider, at) =>
      if Has(s.pending, handle) {
        FederateKeeps(p, s.(clock := at), Place(s.pending, handle), provider);
      }
    case BeginLocal(handle, at) =>
      if Has(s.pending, handle) {
        BeginKeeps(p, s.(clock := at), handle);
      }
    case BeginCallback(handle, at) =>
      if Has(s.pending, handle) {
        BeginKeeps(p, s.(clock := at), handle);
      }
    case FinishLocal(h, at, later) =>
      if h in s.held {
        FinishLocalKeeps(p, s, h, at, later);
      }
    case FinishCallback(h, at, later, last) =>
      if h in s.held {
        FinishCallbackKeeps(p, s, h, at, later, last);
      }
    case Token(_, _, _, _, _, _) => TokenKeeps(p, s, e);
    case Link(_, _, _, _) => LinkKeeps(p, s, e);
  }

  lemma {:induction false} RunKeeps(p: Params, start: int, es: seq<Event>)
    requires InTime(p, start, es)
    ensures Inv(p, Run(p, start, es))
  {
    hide Step, Timely, TraceOk, CacheOk;
    if es == [] {
      StartKeeps(p, start);
    } else {
      RunKeeps(p, start, es[..|es| - 1]);
      StepKeeps(p, Run(p, start, es[..|es| - 1]), es[|es| - 1]);
    }
  }

  lemma StartKeeps(p: Params, start: int)
    ensures Inv(p, Start(start))
  {
  }

  // ------------------------------------------------------------------
  // Results over whole runs
  // ------------------------------------------------------------------

  /** A code is redeemed at most once, whichever of the two routes it is taken to. */
  lemma CodesConsumedOnce(p: Params, start: int, es: seq<Event>, j: nat, k: nat, code: nat)
    requires InTime(p, start, es) && j < k < |Run(p, start, es).trace|
    requires Consumes(Run(p, start, es).trace[j], code)
    ensures !Consumes(Run(p, start, es).trace[k], code)
  {
    hide Step, CacheOk, MarkOk;
    RunKeeps(p, start, es);
    assert Apart(Run(p, start, es).trace[j], Run(p, start, es).trace[k]);
  }

  /** The one `/authorize` request and the one minting behind a code that was redeemed. */
  ghost predicate RequestBehind(trace: seq<Mark>, k: nat, code: nat, a: nat, m: nat)
    requires k < |trace|
  {
    && a < m < k && trace[a].Authorized? && trace[m].Minted?
    && trace[m].code == code && trace[m].handle == trace[a].handle
    && (forall i :: 0 <= i < |trace| && trace[i].Minted? && trace[i].code == code ==> i == m)
    && (forall i :: 0 <= i < |trace| && trace[i].Authorized? && trace[i].handle == trace[a].handle ==> i == a)
  }

  lemma OneMinting(p: Params, s: State, m: nat)
    requires TraceOk(p, s) && m < |s.trace| && s.trace[m].Minted?
    ensures forall i :: 0 <= i < |s.trace| && s.trace[i].Minted? && s.trace[i].code == s.trace[m].code ==> i == m
  {
    hide MarkOk;
    forall i | 0 <= i < |s.trace| && i != m ensures !(s.trace[i].Minted? && s.trace[i].code == s.trace[m].code) {
      assert if i < m then Apart(s.trace[i], s.trace[m]) else Apart(s.trace[m], s.trace[i]);
    }
  }

  lemma OneAuthorization(p: Params, s: State, a: nat)
    requires TraceOk(p, s) && a < |s.trace| && s.trace[a].Authorized?
    ensures forall i :: 0 <= i < |s.trace| && s.trace[i].Authorized? && s.trace[i].handle == s.trace[a].handle ==>
      i == a
  {
    hide MarkOk;
    forall i | 0 <= i < |s.trace| && i != a
      ensures !(s.trace[i].Authorized? && s.trace[i].handle == s.trace[a].handle)
    {
      assert if i < a then Apart(s.trace[i], s.trace[a]) else Apart(s.trace[a], s.trace[i]);
    }
  }

  lemma FindRequest(p: Params, s: State, k: nat, code: nat, at: int, g: Grant) returns (a: nat, m: nat)
    requires TraceOk(p, s) && k < |s.trace| && MintedFrom(s.trace[..k], code, at, g)
    ensures RequestBehind(s.trace, k, code, a, m)
    ensures s.trace[m].at == at && GrantOf(s.trace[a].request) == g && ChallengeAllowed(s.trace[a].request)
  {
    hide MarkOk, ChallengeAllowed, Apart;
    var before := s.trace[..k];
    m :| 0 <= m < |before| && MintedAs(before, m, code, at, g);
    assert before[..m] == s.trace[..m];
    a :| 0 <= a < m && AuthorizedAs(s.trace[..m][a], before[m].handle, g);
    OneMinting(p, s, m);
    OneAuthorization(p, s, a);
  }

  /** The k-th mark, a redemption, answers the challenge of the request behind its code within the
      code's lifetime and names that request's redirect; a grant names its client too. */
  ghost predicate Answers(p: Params, trace: seq<Mark>, k: nat, a: nat, m: nat)
    requires k < |trace| && (trace[k].Granted? || trace[k].Linked?)
  {
    && RequestBehind(trace, k, trace[k].code, a, m)
    && trace[k].redirect == trace[a].request.redirect
    && (trace[k].Granted? ==> trace[k].client == trace[a].request.client)
    && (var r, verifier := trace[a].request, trace[k].verifier;
        r.challenge != "" ==>
          && 43 <= |r.challenge| <= 128 && verifier != ""
          && ((r.method_ == "S256" && p.sha256(verifier) == r.challenge)
              || (r.method_ == "plain" && verifier == r.challenge)))
    && trace[k].at - trace[m].at <= p.ttl
  }

  lemma MarkAnswers(p: Params, s: State, k: nat) returns (a: nat, m: nat)
    requires TraceOk(p, s) && k < |s.trace| && (s.trace[k].Granted? || s.trace[k].Linked?)
    ensures Answers(p, s.trace, k, a, m)
  {
    hide RequestBehind, MintedFrom, Behind, Apart, Has;
    var mark := s.trace[k];
    assert MarkOk(p, s, s.trace[..k], mark);
    var g: Grant, minted :| g.redirect == mark.redirect && (mark.Granted? ==> g.client == mark.client)
      && Redeems(p, s.trace[..k], mark.code, g, minted, mark.verifier, mark.at);
    a, m := FindRequest(p, s, k, mark.code, minted, g);
  }

  /** Whoever is granted a token at `/token` named the client and the redirect of the `/authorize`
      request its code came from, answered that request's challenge, and came within the code's
      lifetime. */
  lemma GrantAnswersItsRequest(p: Params, start: int, es: seq<Event>)
    requires InTime(p, start, es)
    ensures var trace := Run(p, start, es).trace;
      forall k :: 0 <= k < |trace| && trace[k].Granted? ==> exists a, m :: Answers(p, trace, k, a, m)
  {
    hide Run, InTime, Inv, Answers, TraceOk;
    RunKeeps(p, start, es);
    var s := Run(p, start, es);
    InvTrace(p, s);
    forall k | 0 <= k < |s.trace| && s.trace[k].Granted? ensures exists a, m :: Answers(p, s.trace, k, a, m) {
      var a, m := MarkAnswers(p, s, k);
    }
  }

  /** At `/me/link-provider` nothing names the client; the rest is as at `/token`. */
  lemma LinkAnswersItsRequest(p: Params, start: int, es: seq<Event>)
    requires InTime(p, start, es)
    ensures var trace := Run(p, start, es).trace;
      forall k :: 0 <= k < |trace| && trace[k].Linked? ==> exists a, m :: Answers(p, trace, k, a, m)
  {
    hide Run, InTime, Inv, Answers, TraceOk;
    RunKeeps(p, start, es);
    var s := Run(p, start, es);
    InvTrace(p, s);
    forall k | 0 <= k < |s.trace| && s.trace[k].Linked? ensures exists a, m :: Answers(p, s.trace, k, a, m) {
      var a, m := MarkAnswers(p, s, k);
    }
  }

  lemma InvTrace(p: Params, s: State)
    requires Inv(p, s)
    ensures TraceOk(p, s)
  {
    hide TraceOk, Behind, MintedFrom, CacheOk;
  }

  /** Neither dictionary is ever more than one over its limit. */
  lemma CachesStayBounded(p: Params, start: int, es: seq<Event>)
    requires InTime(p, start, es)
    ensures |Run(p, start, es).pending| <= p.max + 1 && |Run(p, start, es).codes| <= p.max + 1
  {
    hide Step, TraceOk, Distinct, InTimeOrder;
    RunKeeps(p, start, es);
  }

  /** Where a code is stored it is stored once. */
  lemma StoredOnce<V>(es: seq<Entry<V>>, key: nat, i: nat)
    requires Distinct(es) && i < |es| && es[i].key == key
    ensures Place(es, key) == i
  {
    hide Place;
    var j := Place(es, key);
    assert j <= i;
  }

  lemma GrantsAtPlace(p: Params, s: State, e: Event)
    requires e.Token? && Inv(p, s) && Timely(s, e)
    ensures |TokenStep(p, s, e).trace| == |s.trace| + 1 <==>
      && Complete(e) && Has(s.codes, e.code) && |s.codes| - Place(s.codes, e.code) <= p.max
      && (var entry := Find(s.codes, e.code);
          && e.client == entry.value.client && e.redirect == entry.value.redirect
          && e.later - entry.at <= p.ttl && AnswersPkce(p, entry.value, e.verifier))
  {
    hide TraceOk, Behind, MintedFrom, AnswersPkce, Pruned, Without;
    if Has(s.codes, e.code) {
      var i := Place(s.codes, e.code);
      var k := PruneKeepsNewestUnexpired(s.codes, p.ttl, p.max, e.at);
      var left := Pruned(s.codes, p.ttl, p.max, e.at);
      if i >= k {
        assert left[i - k].key == e.code;
      } else {
        assert forall j :: 0 <= j < |left| ==> left[j] == s.codes[k + j];
      }
      assert Has(left, e.code) <==> i >= k;
    }
  }

  /** When `/token` grants: the request is complete; the code is stored, and not as the one entry over
      the limit that this very call prunes before deleting; and its terms are met within its lifetime:
      the client, the redirect, and the challenge where there is one. */
  lemma TokenGrantsIff(p: Params, s: State, e: Event)
    requires e.Token? && Inv(p, s) && Timely(s, e)
    ensures |TokenStep(p, s, e).trace| == |s.trace| + 1 <==>
      && e.client != "" && e.redirect != "" && e.verifier != ""
      && exists i :: 0 <= i < |s.codes| && s.codes[i].key == e.code && |s.codes| - i <= p.max
          && e.client == s.codes[i].value.client && e.redirect == s.codes[i].value.redirect
          && e.later - s.codes[i].at <= p.ttl
          && (s.codes[i].value.challenge != "" ==>
                s.codes[i].value.challenge ==
                  if s.codes[i].value.method_ == "S256" then p.sha256(e.verifier) else e.verifier)
  {
    hide TraceOk, Behind, MintedFrom, TokenStep, Place;
    GrantsAtPlace(p, s, e);
    forall i | 0 <= i < |s.codes| && s.codes[i].key == e.code ensures Place(s.codes, e.code) == i {
      StoredOnce(s.codes, e.code, i);
    }
  }

  /** And when `/me/link-provider` links: as there, but for the client and the limit, and with an empty
      verifier allowed where there is no challenge. */
  lemma LinkRedeemsIff(p: Params, s: State, e: Event)
    requires e.Link? && Inv(p, s) && Timely(s, e)
    ensures |LinkStep(p, s, e).trace| == |s.trace| + 1 <==>
      exists i :: 0 <= i < |s.codes| && s.codes[i].key == e.code && e.redirect == s.codes[i].value.redirect
        && e.at - s.codes[i].at <= p.ttl
        && (s.codes[i].value.challenge != "" ==>
              && e.verifier != ""
              && s.codes[i].value.challenge ==
                   if s.codes[i].value.method_ == "S256" then p.sha256(e.verifier) else e.verifier)
  {
    hide TraceOk, Behind, MintedFrom, Place, Without;
    forall i | 0 <= i < |s.codes| && s.codes[i].key == e.code ensures Place(s.codes, e.code) == i {
      StoredOnce(s.codes, e.code, i);
    }
  }

  // ------------------------------------------------------------------
  // What the sign-in routes leave behind
  // ------------------------------------------------------------------

  /** `/authorize` stores a request, as the newest, exactly when its challenge is of a known method and
      of 43 to 128 characters, or absent, and its provider is local or registered. */
  lemma AuthorizeStoresIff(p: Params, s: State, r: Request, at: int, later: int)
    ensures var s' := Step(p, s, Authorize(r, at, later));
      if (r.challenge == "" || ((r.method_ == "S256" || r.method_ == "plain") && 43 <= |r.challenge| <= 128))
         && (r.provider == "local" || r.provider in p.providers)
      then s'.next == s.next + 1 && s'.pending != [] && s'.pending[|s'.pending| - 1] == Entry(s.next, later, r)
      else s' == s.(clock := at)
  {
    hide Pruned;
  }

  /** A local sign-in can begin exactly while its request is pending and local. */
  lemma LocalBeginsIff(p: Params, s: State, handle: nat, at: int)
    requires Distinct(s.pending)
    ensures Step(p, s, BeginLocal(handle, at)).held != s.held <==>
      exists i :: 0 <= i < |s.pending| && s.pending[i].key == handle && s.pending[i].value.provider == "local"
  {
    hide Place;
    forall i | 0 <= i < |s.pending| && s.pending[i].key == handle ensures Place(s.pending, handle) == i {
      StoredOnce(s.pending, handle, i);
    }
    if Has(s.pending, handle) {
      var h := Held(handle, Find(s.pending, handle).value);
      assert (s.held + multiset{h})[h] == s.held[h] + 1;
    }
  }

  /** A callback goes on exactly while its request is pending, whatever its provider. */
  lemma CallbackBeginsIff(p: Params, s: State, handle: nat, at: int)
    ensures Step(p, s, BeginCallback(handle, at)).held != s.held <==>
      exists i :: 0 <= i < |s.pending| && s.pending[i].key == handle
  {
    hide Place;
    if Has(s.pending, handle) {
      var h := Held(handle, Find(s.pending, handle).value);
      assert (s.held + multiset{h})[h] == s.held[h] + 1;
    }
  }

  /** Federation rewrites the provider of that one local request, for a registered provider, and leaves
      everything else pending as it was. */
  lemma FederateRewrites(p: Params, s: State, handle: nat, provider: string, at: int, i: nat)
    requires Distinct(s.pending) && i < |s.pending|
    ensures var s', was := Step(p, s, Federate(handle, provider, at)), s.pending[i];
      && |s'.pending| == |s.pending|
      && s'.pending[i] ==
           if was.key == handle && was.value.provider == "local" && provider != "local" && provider in p.providers
           then was.(value := was.value.(provider := provider)) else was
  {
    hide Place;
    if s.pending[i].key == handle {
      StoredOnce(s.pending, handle, i);
    }
  }

  /** A finished local sign-in leaves, as the newest code, one that carries the client, redirect,
      challenge and method of the request it looked up, dated when it was minted; and no longer the
      request. */
  lemma LocalSignInMints(p: Params, s: State, h: Held, at: int, later: int)
    requires h in s.held && Inv(p, s)
    ensures var s' := Step(p, s, FinishLocal(h, at, later)); var r := h.request;
      && s'.codes != []
      && s'.codes[|s'.codes| - 1] == Entry(s.next, later, Grant(r.client, r.redirect, r.challenge, r.method_))
      && forall i :: 0 <= i < |s'.pending| ==> s'.pending[i].key != h.handle
  {
    hide TraceOk, Behind, MintedFrom, Pruned, Without, Place, Thinned;
    WithoutThinned(s.pending, h.handle);
    var left := Without(s.pending, h.handle);
    assert InTimeOrder(left) by { StillInOrder(s.pending, left); }
    PrunedThinned(left, p.ttl, p.max, at);
    ThinnedLacks(left, Pruned(left, p.ttl, p.max, at), h.handle);
  }

  lemma StillInOrder<V>(es: seq<Entry<V>>, rest: seq<Entry<V>>)
    requires Thinned(es, rest) && InTimeOrder(es)
    ensures InTimeOrder(rest)
  {
    hide Distinct, InTimeOrder;
  }

  /** So does a finished callback, unless its own last pruning takes the code away again. */
  lemma CallbackMints(p: Params, s: State, h: Held, at: int, later: int, last: int)
    requires h in s.held && Inv(p, s) && Timely(s, FinishCallback(h, at, later, last))
    requires p.max >= 1 && last - later <= p.ttl
    ensures var s' := Step(p, s, FinishCallback(h, at, later, last)); var r := h.request;
      && s'.codes != []
      && s'.codes[|s'.codes| - 1] == Entry(s.next, later, Grant(r.client, r.redirect, r.challenge, r.method_))
  {
    hide TraceOk, Behind, MintedFrom, Pruned, Thinned;
    HeldBehind(p, s, h);
    SameThinned(s.pending);
    LetGoKeeps(p, s, h, s.pending);
    var t := s.(held := s.held - multiset{h});
    PruneKeeps(p, t, at);
    MintKeeps(p, PruneBoth(p, t, at), h, later);
    var codes := AddCode(PruneBoth(p, t, at), h, later).codes;
    NewestSurvives(codes, p.ttl, p.max, last);
  }

  /** The event redeems the code, or tries to. */
  predicate Presents(e: Event, code: nat) { (e.Token? || e.Link?) && e.code == code }

  /** The last clock read at which the event prunes. */
  function PrunesAt(e: Event): int { if e.FinishCallback? then e.last else e.at }

  /** No step takes an unexpired code away from whoever it was minted for, while there is room. */
  lemma CodeStays(p: Params, s: State, e: Event, i: nat)
    requires Inv(p, s) && Timely(s, e) && i < |s.codes| < p.max
    requires !Presents(e, s.codes[i].key) && PrunesAt(e) - s.codes[i].at <= p.ttl
    ensures s.codes[i] in Step(p, s, e).codes
  {
    hide TraceOk, Behind, MintedFrom, Pruned, Without, RequestAllowed, AnswersPkce;
    SurvivesPruning(s.codes, p.ttl, p.max, e.at, i);
    var once := Pruned(s.codes, p.ttl, p.max, e.at);
    PrunedThinned(s.codes, p.ttl, p.max, e.at);
    var j :| 0 <= j < |once| && once[j] == s.codes[i];
    match e
    case Authorize(_, _, _) =>
    case Federate(_, _, _) =>
    case BeginLocal(_, _) =>
    case BeginCallback(_, _) =>
    case FinishLocal(_, _, _) =>
    case FinishCallback(h, _, later, last) =>
      KeptThenPruned(p, once, Entry(s.next, later, GrantOf(h.request)), last, j);
    case Token(code, _, _, _, _, _) => WithoutSpares(once, code, j);
    case Link(code, _, _, _) => WithoutSpares(s.codes, code, i);
  }

  lemma KeptThenPruned<V>(p: Params, es: seq<Entry<V>>, e: Entry<V>, now: int, j: nat)
    requires InTimeOrder(es) && (forall i :: 0 <= i < |es| ==> es[i].at <= e.at)
    requires j < |es| < p.max && now - es[j].at <= p.ttl
    ensures es[j] in Pruned(es + [e], p.ttl, p.max, now)
  {
    hide Pruned;
    SurvivesPruning(es + [e], p.ttl, p.max, now, j);
  }

  lemma WithoutSpares<V>(es: seq<Entry<V>>, key: nat, j: nat)
    requires j < |es| && es[j].key != key
    ensures es[j] in Without(es, key)
  {
    hide Place;
    var at, rest := Place(es, key), Without(es, key);
    assert j < at ==> rest[j] == es[j];
    assert j > at ==> rest[j - 1] == es[j];
  }

  /** The entry is of the handle and its date, and on its terms. */
  predicate SameTerms(r: Entry<Request>, q: Entry<Request>) {
    r.key == q.key && r.at == q.at && GrantOf(r.value) == GrantOf(q.value)
  }

  lemma RequestKept(p: Params, s: State, e: Event, i: nat)
    requires InTimeOrder(s.pending) && i < |s.pending| <= p.max && Timely(s, e) && !e.Federate?
    requires !(e.FinishLocal? && e.signin.handle == s.pending[i].key) && PrunesAt(e) - s.pending[i].at <= p.ttl
    ensures s.pending[i] in Step(p, s, e).pending
  {
    hide Pruned, Without, RequestAllowed, AnswersPkce, InTimeOrder, Place;
    SurvivesPruning(s.pending, p.ttl, p.max, e.at, i);
    var once := Pruned(s.pending, p.ttl, p.max, e.at);
    PrunedThinned(s.pending, p.ttl, p.max, e.at);
    var j :| 0 <= j < |once| && once[j] == s.pending[i];
    match e
    case Authorize(_, _, _) =>
    case BeginLocal(_, _) =>
    case BeginCallback(_, _) =>
    case FinishLocal(h, at, _) => LetGoSpares(p, s.pending, h.handle, at, i);
    case FinishCallback(_, _, _, last) => SurvivesPruning(once, p.ttl, p.max, last, j);
    case Token(_, _, _, _, _, _) =>
    case Link(_, _, _, _) =>
  }

  /** Nor does one let go of an unexpired request, but for the local sign-in that completes it. */
  lemma RequestStays(p: Params, s: State, e: Event, i: nat)
    requires Inv(p, s) && Timely(s, e) && i < |s.pending| <= p.max
    requires !(e.FinishLocal? && e.signin.handle == s.pending[i].key) && PrunesAt(e) - s.pending[i].at <= p.ttl
    ensures exists j :: 0 <= j < |Step(p, s, e).pending| && SameTerms(Step(p, s, e).pending[j], s.pending[i])
  {
    hide TraceOk, Behind, MintedFrom, Pruned, Without, Place, AnswersPkce, LinkStep, TokenStep, PruneBoth;
    var pending := Step(p, s, e).pending;
    if e.Federate? {
      assert SameTerms(pending[i], s.pending[i]);
    } else {
      RequestKept(p, s, e, i);
      var j :| 0 <= j < |pending| && pending[j] == s.pending[i];
      assert SameTerms(pending[j], s.pending[i]);
    }
  }

  lemma LetGoSpares(p: Params, es: seq<Entry<Request>>, key: nat, now: int, i: nat)
    requires InTimeOrder(es) && i < |es| <= p.max && es[i].key != key && now - es[i].at <= p.ttl
    ensures es[i] in Pruned(Without(es, key), p.ttl, p.max, now)
  {
    hide Pruned, Without;
    WithoutSpares(es, key, i);
    WithoutThinned(es, key);
    var rest := Without(es, key);
    var j :| 0 <= j < |rest| && rest[j] == es[i];
    SurvivesPruning(rest, p.ttl, p.max, now, j);
  }

  lemma SurvivesPruning<V>(es: seq<Entry<V>>, ttl: int, max: nat, now: int, i: nat)
    requires InTimeOrder(es) && i < |es| <= max && now - es[i].at <= ttl
    ensures es[i] in Pruned(es, ttl, max, now)
  {
    hide Pruned;
    var k := PruneKeepsNewestUnexpired(es, ttl, max, now);
    assert i >= k && es[k..][i - k] == es[i];
  }

  lemma NewestSurvives(codes: seq<Entry<Grant>>, ttl: int, max: nat, now: int)
    requires InTimeOrder(codes) && codes != [] && max >= 1 && now - codes[|codes| - 1].at <= ttl
    ensures var left := Pruned(codes, ttl, max, now); left != [] && left[|left| - 1] == codes[|codes| - 1]
  {
    hide Pruned;
    var k := PruneKeepsNewestUnexpired(codes, ttl, max, now);
    assert |codes| - 1 >= k;
  }

  // ------------------------------------------------------------------
  // The handlers over the two dictionaries
  // ------------------------------------------------------------------

  class AuthRouter {
    const p: Params
    const pkceChallenges: Cache<Request>
    const authorizationCodes: Cache<Grant>
    var next: nat

    /** The dictionaries are those of the abstract state. */
    ghost predicate Holds(s: State)
      reads this, pkceChallenges, authorizationCodes
    {
      pkceChallenges.entries == s.pending && authorizationCodes.entries == s.codes && next == s.next
    }

    constructor (p: Params, ghost start: int)
      ensures this.p == p && Holds(Start(start)) && fresh(pkceChallenges) && fresh(authorizationCodes)
    {
      this.p := p;
      pkceChallenges := new Cache();
      authorizationCodes := new Cache();
      next := 0;
    }

    method PruneAuthCache(now: int, ghost s: State)
      requires Holds(s) && Inv(p, s)
      modifies pkceChallenges, authorizationCodes
      ensures Holds(PruneBoth(p, s, now))
    {
      hide TraceOk, Behind, MintedFrom, Pruned;
      pkceChallenges.Prune(p.ttl, p.max, now);
      authorizationCodes.Prune(p.ttl, p.max, now);
    }

    method Authorize(r: Request, at: int, later: int, ghost s: State) returns (handle: Option<nat>)
      requires Holds(s) && Inv(p, s)
      modifies this, pkceChallenges, authorizationCodes
      ensures Holds(Step(p, s, Event.Authorize(r, at, later)))
      ensures handle == if RequestAllowed(p, r) then Some(old(next)) else None
    {
      hide Inv, Pruned, ChallengeAllowed;
      if !RequestAllowed(p, r) {
        return None;
      }
      PruneAuthCache(at, s);
      handle := Some(next);
      pkceChallenges.Append(Entry(next, later, r));
      next := next + 1;
    }

    method AuthorizeFederate(handle: nat, provider: string, at: int, ghost s: State)
      requires Holds(s)
      modifies pkceChallenges
      ensures Holds(Step(p, s, Federate(handle, provider, at)))
    {
      var request := pkceChallenges.Get(handle);
      if request.None? || request.value.provider != LOCAL || provider == LOCAL || provider !in p.providers {
        return;
      }
      pkceChallenges.Update(handle, request.value.(provider := provider));
    }

    /** The end of a local sign-in: the request is dropped, then a code minted for it. */
    method CompleteLocalSignin(h: Held, at: int, later: int, ghost s: State) returns (code: nat)
      requires Holds(s) && Inv(p, s) && h in s.held && s.clock <= at
      modifies this, pkceChallenges, authorizationCodes
      ensures Holds(Step(p, s, FinishLocal(h, at, later))) && code == old(next)
    {
      hide Inv, Pruned, Without, Thinned, Behind;
      pkceChallenges.Pop(h.handle);
      WithoutThinned(s.pending, h.handle);
      LetGoKeeps(p, s, h, Without(s.pending, h.handle));
      PruneAuthCache(at, s.(held := s.held - multiset{h}, pending := Without(s.pending, h.handle)));
      code := next;
      authorizationCodes.Append(Entry(next, later, GrantOf(h.request)));
      next := next + 1;
    }

    /** The end of `/callback`: prune, mint, prune again; the request stays. */
    method CompleteCallback(h: Held, at: int, later: int, last: int, ghost s: State) returns (code: nat)
      requires Holds(s) && Inv(p, s) && h in s.held && Timely(s, FinishCallback(h, at, later, last))
      modifies this, pkceChallenges, authorizationCodes
      ensures Holds(Step(p, s, FinishCallback(h, at, later, last))) && code == old(next)
    {
      hide Inv, Pruned, Thinned, Behind;
      HeldBehind(p, s, h);
      SameThinned(s.pending);
      LetGoKeeps(p, s, h, s.pending);
      ghost var t := s.(held := s.held - multiset{h});
      PruneAuthCache(at, t);
      PruneKeeps(p, t, at);
      MintKeeps(p, PruneBoth(p, t, at), h, later);
      code := next;
      authorizationCodes.Append(Entry(next, later, GrantOf(h.request)));
      next := next + 1;
      PruneAuthCache(last, AddCode(PruneBoth(p, t, at), h, later));
    }

    /** `_grant_authorization_code` up to the deletion; where that fails the request fails. */
    method GrantAuthorizationCode(
      code: nat, client: string, redirect: string, verifier: string, at: int, later: int, ghost s: State)
      returns (granted: bool)
      requires Holds(s) && Inv(p, s)
      modifies pkceChallenges, authorizationCodes
      ensures var s' := GrantStep(p, s, Token(code, client, redirect, verifier, at, later));
        Holds(s') && (granted <==> |s'.trace| == |s.trace| + 1)
    {
      hide Inv, Pruned, Without, AnswersPkce;
      granted := false;
      var place := authorizationCodes.Lookup(code);
      if place.None? {
        return;
      }
      var entry := place.value;
      PruneAuthCache(at, s);
      if client != entry.value.client || redirect != entry.value.redirect {
        return;
      }
      if later - entry.at > p.ttl {
        authorizationCodes.Pop(code);
        return;
      }
      if !AnswersPkce(p, entry.value, verifier) {
        return;
      }
      var still := authorizationCodes.Lookup(code);
      if still.None? {
        return;
      }
      authorizationCodes.Pop(code);
      return true;
    }

    /** `token_endpoint`, for an authorization code. */
    method TokenEndpoint(
      code: nat, client: string, redirect: string, verifier: string, at: int, later: int, ghost s: State)
      returns (granted: bool)
      requires Holds(s) && Inv(p, s)
      modifies pkceChallenges, authorizationCodes
      ensures var s' := Step(p, s, Token(code, client, redirect, verifier, at, later));
        Holds(s') && (granted <==> |s'.trace| == |s.trace| + 1)
    {
      hide Inv, GrantStep;
      if client == "" || redirect == "" || verifier == "" {
        return false;
      }
      granted := GrantAuthorizationCode(code, client, redirect, verifier, at, later, s);
    }

    method LinkProvider(code: nat, redirect: string, verifier: string, at: int, ghost s: State) returns (linked: bool)
      requires Holds(s)
      modifies authorizationCodes
      ensures var s' := Step(p, s, Link(code, redirect, verifier, at));
        Holds(s') && (linked <==> |s'.trace| == |s.trace| + 1)
    {
      hide Without, AnswersPkce;
      linked := false;
      var place := authorizationCodes.Lookup(code);
      if place.None? || redirect != place.value.value.redirect {
        return;
      }
      if at - place.value.at > p.ttl {
        authorizationCodes.Pop(code);
        return;
      }
      if !AnswersPkce(p, place.value.value, verifier) {
        return;
      }
      authorizationCodes.Pop(code);
      return true;
    }
  }
}
