/** What the attempt and mail budgets admit, over whole runs, said of the charges in the log alone. */
module MailBudget {
  import opened SlidingWindow
  import opened GuessBudget
  import opened GuessRuns

  // ------------------------------------------------------------------
  // One budget each
  // ------------------------------------------------------------------

  /** Every address has a budget of its own, and every network; and no address's, network's or pair's
      budget is one of another kind. */
  lemma BudgetsAreApart(email: string, other: string, network: string, another: string)
    ensures AddressKey(email) == AddressKey(other) <==> email == other
    ensures ClientKey(network) == ClientKey(another) <==> network == another
    ensures PairKey(email, network) != AddressKey(other) && PairKey(email, network) != ClientKey(another)
    ensures AddressKey(email) != ClientKey(network)
  {
    assert AddressKey(email)[2..] == email && AddressKey(other)[2..] == other;
    assert ClientKey(network)[2..] == network && ClientKey(another)[2..] == another;
    assert PairKey(email, network)[0] == 'c' && AddressKey(other)[0] == 'a' && ClientKey(another)[0] == 'k';
    assert AddressKey(email)[0] == 'a' && ClientKey(network)[0] == 'k';
  }

  /** Live charges to a key, in the unbounded log. */
  function LiveCharges(c: Config, s: State, key: string, now: int): nat {
    |Live(Recent(s.trace, key), now - c.window)|
  }

  lemma CapsAre(c: Config, pairCap: nat, clients: nat, people: nat, email: string, network: string)
    requires c.cap == (k => MailCap(pairCap, clients, people, k))
    ensures c.cap(PairKey(email, network)) == pairCap
    ensures c.cap(AddressKey(email)) == pairCap * clients
    ensures c.cap(ClientKey(network)) == pairCap * people
  {}

  /** `at` of a later check with nothing charged in between sees the same log. */
  lemma CheckedStages(c: Config, s: State, pair: string, address: string, client: string, now: int)
    requires Sensible(c) && Inv(c, s) && s.clock <= now
    ensures var s1 := CheckAt(c, s, pair, now); var s2 := CheckAt(c, s1, address, now);
      && (Spent(c, s, pair, now) <==> LiveCharges(c, s, pair, now) >= c.cap(pair))
      && (Spent(c, s1, address, now) <==> LiveCharges(c, s, address, now) >= c.cap(address))
      && (Spent(c, s2, client, now) <==> LiveCharges(c, s, client, now) >= c.cap(client))
  {
    hide Sensible, Inv, Spent, Checked, Live, Recent;
    var s1 := CheckAt(c, s, pair, now);
    var s2 := CheckAt(c, s1, address, now);
    CheckKeeps(c, s, pair, now);
    CheckKeeps(c, s1, address, now);
    SpentIsLog(c, s, pair, now);
    SpentIsLog(c, s1, address, now);
    SpentIsLog(c, s2, client, now);
  }

  /** A send is charged. */
  predicate Admits(c: Config, s: State, e: Event) { Step(c, s, e).trace != s.trace }

  /** After any run, a send is admitted exactly when the charges still in the window number fewer than
      `pairCap` for the address and network together, fewer than `pairCap * clients` for the address,
      and, unless the network is listed as shared, fewer than `pairCap * people` for the network. */
  lemma SendAdmittedIff(c: Config, es: seq<Event>, e: Event, pairCap: nat, clients: nat, people: nat)
    requires Sensible(c) && InTime(c, es + [e]) && e.op.DoSend?
    requires c.cap == (k => MailCap(pairCap, clients, people, k))
    ensures var s := Run(c, es);
      Admits(c, s, e) <==>
        && LiveCharges(c, s, "c|" + e.op.email + "|" + e.op.network, e.at) < pairCap
        && LiveCharges(c, s, "a|" + e.op.email, e.at) < pairCap * clients
        && (!e.op.shared ==> LiveCharges(c, s, "k|" + e.op.network, e.at) < pairCap * people)
  {
    hide Sensible, InTime, Inv, Spent, Live, Recent, LiveCharges, Step, Run, MailCap;
    assert InTime(c, es) && Run(c, es).clock <= e.at by { InTimeBefore(c, es, e); }
    RunKeeps(c, es);
    var s, o := Run(c, es), e.op;
    var pair, address, client := PairKey(o.email, o.network), AddressKey(o.email), ClientKey(o.network);
    CapsAre(c, pairCap, clients, people, o.email, o.network);
    CheckedStages(c, s, pair, address, client, e.at);
    SendStages(c, s, e);
  }

  lemma InTimeBefore(c: Config, es: seq<Event>, e: Event)
    requires InTime(c, es + [e])
    ensures InTime(c, es) && Run(c, es).clock <= e.at && (e.op.DoSend? ==> e.at <= e.op.chargeAt)
  {
    hide Run;
    assert (es + [e])[..|es|] == es;
  }

  /** The send goes through exactly when none of the budgets it looks at is spent. */
  lemma SendStages(c: Config, s: State, e: Event)
    requires e.op.DoSend?
    ensures var o := e.op; var pair, address := PairKey(o.email, o.network), AddressKey(o.email);
      var s1 := CheckAt(c, s, pair, e.at); var s2 := CheckAt(c, s1, address, e.at);
      Admits(c, s, e) <==>
        !Spent(c, s, pair, e.at) && !Spent(c, s1, address, e.at)
        && (!o.shared ==> !Spent(c, s2, ClientKey(o.network), e.at))
  {
    hide Spent, Checked, Charged, Loss, PairKey, AddressKey, ClientKey;
  }

  /** An admitted send charges the address and network together, the address, and an unlisted network,
      once each and nothing else; a refused one charges nothing. */
  lemma SendCharges(c: Config, s: State, e: Event, key: string, from: int, to: int)
    requires e.op.DoSend? && from < e.op.chargeAt <= to
    ensures Charges(Step(c, s, e).trace, {key}, from, to) == Charges(s.trace, {key}, from, to)
      + if Admits(c, s, e)
           && (key == "c|" + e.op.email + "|" + e.op.network || key == "a|" + e.op.email
               || (!e.op.shared && key == "k|" + e.op.network))
        then 1 else 0
  {
    hide Spent, Checked, Charges, ChargeAt, PairKey, AddressKey, ClientKey;
    var o, now := e.op, e.op.chargeAt;
    var pair, address, client := PairKey(o.email, o.network), AddressKey(o.email), ClientKey(o.network);
    KeysSpelled(o.email, o.network);
    MailKeysDiffer(o.email, o.network);
    var s1 := CheckAt(c, s, pair, e.at);
    var s2 := CheckAt(c, s1, address, e.at);
    var s3 := if o.shared then s2 else CheckAt(c, s2, client, e.at);
    var t1 := ChargeAt(c, s3, pair, now, o.d1);
    var t2 := ChargeAt(c, t1, address, now, o.d2);
    ChargeCounted(c, s3, pair, now, o.d1, {key}, from, to);
    ChargeCounted(c, t1, address, now, o.d2, {key}, from, to);
    ChargeCounted(c, t2, client, now, o.d3, {key}, from, to);
    ChargeGrows(c, s3, pair, now, o.d1);
    ChargeGrows(c, t1, address, now, o.d2);
    ChargeGrows(c, t2, client, now, o.d3);
  }

  lemma KeysSpelled(email: string, network: string)
    ensures PairKey(email, network) == "c|" + email + "|" + network
    ensures AddressKey(email) == "a|" + email && ClientKey(network) == "k|" + network
  {}

  lemma ChargeGrows(c: Config, s: State, key: string, now: int, drawn: string)
    ensures |ChargeAt(c, s, key, now, drawn).trace| > |s.trace|
  {
    hide Charged, Loss;
  }

  // ------------------------------------------------------------------
  // Password attempts
  // ------------------------------------------------------------------

  /** After any run, a password attempt is admitted, and charged once, exactly when fewer than the cap
      are in the window for its identifier; a refusal charges nothing. */
  lemma AttemptAdmittedIff(c: Config, es: seq<Event>, e: Event, key: string, from: int, to: int)
    requires Sensible(c) && InTime(c, es + [e]) && e.op.DoSpend? && from < e.at <= to
    ensures var s := Run(c, es);
      && (Admits(c, s, e) <==> LiveCharges(c, s, e.op.key, e.at) < c.cap(e.op.key))
      && Charges(Step(c, s, e).trace, {key}, from, to)
           == Charges(s.trace, {key}, from, to) + if Admits(c, s, e) && key == e.op.key then 1 else 0
  {
    hide Sensible, InTime, Inv, Spent, Live, Recent, Run, ChargeAt, Charges, Checked;
    assert InTime(c, es) && Run(c, es).clock <= e.at by { InTimeBefore(c, es, e); }
    RunKeeps(c, es);
    var s := Run(c, es);
    SpentIsLog(c, s, e.op.key, e.at);
    ChargeCounted(c, CheckAt(c, s, e.op.key, e.at), e.op.key, e.at, e.op.drawn, {key}, from, to);
    ChargeGrows(c, CheckAt(c, s, e.op.key, e.at), e.op.key, e.at, e.op.drawn);
  }

  /** Once cleared, an identifier has its whole budget again. */
  lemma ClearedStartsAnew(c: Config, es: seq<Event>, e: Event, now: int)
    requires Sensible(c) && InTime(c, es + [e]) && e.op.DoClear?
    ensures LiveCharges(c, Step(c, Run(c, es), e), e.op.key, now) == 0
  {
    hide Run, Sensible, InTime;
    Appended(Run(c, es).trace, Clear(e.op.key, e.at));
    LiveOfDead([], now - c.window);
  }

  // ------------------------------------------------------------------
  // What the store keeps
  // ------------------------------------------------------------------

  /** After a check a key is tracked exactly when it has live stamps, and holds those alone; no other key
      is touched. */
  lemma CheckKeepsOnlyLive(b: Book, key: string, cutoff: int)
    requires Sound(b)
    ensures var b' := Checked(b, key, cutoff);
      && (key in b'.held <==> key in b.held && exists i :: 0 <= i < |b.held[key]| && b.held[key][i] > cutoff)
      && (key in b'.held ==> AllAfter(b'.held[key], cutoff))
      && (forall k :: k != key ==> StampsOf(b', k) == StampsOf(b, k))
  {
    hide Live, Distinct, InWriteOrder;
    if key in b.held {
      var stamps := b.held[key];
      var dead := LiveIsSuffix(stamps, cutoff);
      assert dead < |stamps| ==> stamps[dead..][0] == stamps[dead];
      forall i | 0 <= i < |stamps| ensures stamps[i] > cutoff <==> i >= dead {
        assert i < dead ==> stamps[..dead][i] == stamps[i];
        assert i >= dead ==> stamps[dead..][i - dead] == stamps[i];
      }
    }
  }

  /** Nothing above the cap is kept. */
  ghost predicate WithinCaps(c: Config, b: Book) {
    forall k :: k in b.held ==> |b.held[k]| <= c.cap(k)
  }

  lemma CheckWithin(c: Config, s: State, key: string, now: int)
    requires WithinCaps(c, s.book) && (key in s.book.held ==> Sorted(s.book.held[key]))
    ensures WithinCaps(c, CheckAt(c, s, key, now).book)
  {
    hide Live, Sorted;
    if key in s.book.held {
      var dead := LiveIsSuffix(s.book.held[key], now - c.window);
    }
  }

  lemma ChargeWithin(c: Config, s: State, key: string, now: int, drawn: string)
    requires WithinCaps(c, s.book)
    ensures WithinCaps(c, ChargeAt(c, s, key, now, drawn).book)
  {
    hide Live, Evictee, Loss;
  }

  lemma StepWithin(c: Config, s: State, e: Event)
    requires Sensible(c) && Inv(c, s) && s.clock <= e.at && (e.op.DoSend? ==> e.at <= e.op.chargeAt)
    requires WithinCaps(c, s.book)
    ensures WithinCaps(c, Step(c, s, e).book)
  {
    hide Sensible, Inv, WithinCaps, CheckAt, ChargeAt, Spent, PairKey, AddressKey, ClientKey;
    match e.op
    case DoCheck(key) => OneCheck(c, s, key, e.at);
    case DoCharge(key, drawn) => ChargeWithin(c, s, key, e.at, drawn);
    case DoSpend(key, drawn) =>
      OneCheck(c, s, key, e.at);
      ChargeWithin(c, CheckAt(c, s, key, e.at), key, e.at, drawn);
    case DoClear(key) => ForgetWithin(c, s, key, e.at);
    case DoSend(email, network, shared, chargeAt, d1, d2, d3) =>
      var pair, address, client := PairKey(email, network), AddressKey(email), ClientKey(network);
      OneCheck(c, s, pair, e.at);
      var s1 := CheckAt(c, s, pair, e.at);
      OneCheck(c, s1, address, e.at);
      var s2 := CheckAt(c, s1, address, e.at);
      OneCheck(c, s2, client, e.at);
      var s3 := if shared then s2 else CheckAt(c, s2, client, e.at);
      ChargeWithin(c, s3, pair, chargeAt, d1);
      ChargeWithin(c, ChargeAt(c, s3, pair, chargeAt, d1), address, chargeAt, d2);
      ChargeWithin(c, ChargeAt(c, ChargeAt(c, s3, pair, chargeAt, d1), address, chargeAt, d2), client, chargeAt, d3);
  }

  lemma OneCheck(c: Config, s: State, key: string, now: int)
    requires Sensible(c) && Inv(c, s) && s.clock <= now && WithinCaps(c, s.book)
    ensures WithinCaps(c, CheckAt(c, s, key, now).book)
    ensures Inv(c, CheckAt(c, s, key, now)) && CheckAt(c, s, key, now).clock == now
  {
    hide Sensible, WithinCaps, KeyStands, Timed, WrittenBy, CheckAt;
    CheckKeeps(c, s, key, now);
    if key in s.book.held {
      HeldSorted(s.book, key);
    }
    CheckWithin(c, s, key, now);
  }

  lemma ForgetWithin(c: Config, s: State, key: string, now: int)
    requires WithinCaps(c, s.book)
    ensures WithinCaps(c, ClearAt(s, key, now).book)
  {}

  /** The memory bound, over every run: at most the limit of keys, and of each key's stamps its cap. */
  lemma {:induction false} StoreStaysBounded(c: Config, es: seq<Event>)
    requires Sensible(c) && InTime(c, es)
    ensures |Run(c, es).book.order| <= c.limit && WithinCaps(c, Run(c, es).book)
  {
    hide Sensible, Step, WithinCaps, KeyStands, Timed, WrittenBy, Sound;
    RunKeeps(c, es);
    if es == [] {
      assert WithinCaps(c, Run(c, es).book) by { NothingHeld(c); }
    } else {
      var front := es[..|es| - 1];
      StoreStaysBounded(c, front);
      RunKeeps(c, front);
      StepWithin(c, Run(c, front), es[|es| - 1]);
    }
  }

  lemma NothingHeld(c: Config)
    ensures WithinCaps(c, Book([], map[]))
  {}

  // ------------------------------------------------------------------
  // Which key a full ledger gives up
  // ------------------------------------------------------------------

  /** When every tracked key is live, each is given up by the draw of it: none is sheltered. */
  lemma AnyKeyMayGo(b: Book, limit: nat, cutoff: int, key: string)
    requires Sound(b) && key in b.held && |b.order| >= limit
    requires forall k :: k in b.held ==> Live(b.held[k], cutoff) != []
    ensures key !in Roomed(b, limit, cutoff, key).held
    ensures forall k :: k in b.held && k != key ==> k in Roomed(b, limit, cutoff, key).held
  {
    hide Live, InWriteOrder, Distinct;
    assert b.order[0] in b.order;
  }

  /** A charge costs another key its stamps only when a new key meets a full ledger, and it costs a live
      key its own only when every key tracked is live; and it costs one key at most. */
  lemma ChargeLosesOneAtMost(
    b: Book, key: string, cap: nat, cutoff: int, now: int, limit: nat, drawn: string, other: string, another: string)
    requires Sound(b) && other in b.held && other != key
    ensures var held := Charged(b, key, cap, cutoff, now, limit, drawn).held;
      && (other in held ==> held[other] == b.held[other])
      && (other !in held ==> key !in b.held && |b.order| >= limit)
      && (other !in held && Live(b.held[other], cutoff) != [] && another in b.held ==>
            Live(b.held[another], cutoff) != [])
      && (other !in held && another in b.held && another !in {other, key} ==> another in held)
  {
    hide Live, Sound, Without, LastN;
    if key !in b.held && |b.order| >= limit && b.order != [] {
      if Live(b.held[other], cutoff) != [] && Evictee(b, cutoff, drawn) == other && another in b.held {
        LiveEvictionMeansNoneDead(b, cutoff, drawn, another);
      }
    }
  }
}
