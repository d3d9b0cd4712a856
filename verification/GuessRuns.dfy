/** Whole runs of the guess-budget ledger: it answers as an unbounded log of charges would, and the
    charges it admits in any window are bounded, for one key and across the three mail budgets. */
module GuessRuns {
  import opened SlidingWindow
  import opened GuessBudget

  // ------------------------------------------------------------------
  // The unbounded log
  // ------------------------------------------------------------------

  /** One entry of the log: a charge, a clear asked for, or a live key given up to make room. */
  datatype Mark =
    | Charge(key: string, at: int)
    | Clear(key: string, at: int)
    | Evict(key: string, at: int)

  /** Charges to `key` since it was last cleared or evicted live, oldest first. */
  function Recent(trace: seq<Mark>, key: string): seq<int> {
    if trace == [] then [] else
      var front, last := trace[..|trace| - 1], trace[|trace| - 1];
      if last.key != key then Recent(front, key)
      else if last.Charge? then Recent(front, key) + [last.at]
      else []
  }

  /** Charges to `key` since it was last cleared: the full log, which evictions do not touch. */
  function SinceClear(trace: seq<Mark>, key: string): seq<int> {
    if trace == [] then [] else
      var front, last := trace[..|trace| - 1], trace[|trace| - 1];
      if last.key != key || last.Evict? then SinceClear(front, key)
      else if last.Charge? then SinceClear(front, key) + [last.at]
      else []
  }

  /** Whether `key` was evicted while live since it was last cleared. */
  predicate EvictedSinceClear(trace: seq<Mark>, key: string) {
    trace != [] &&
    var front, last := trace[..|trace| - 1], trace[|trace| - 1];
    if last.key != key || last.Charge? then EvictedSinceClear(front, key) else last.Evict?
  }

  /** Charges to any of `keys` in the half-open window (from, to]. */
  function Charges(trace: seq<Mark>, keys: set<string>, from: int, to: int): nat {
    if trace == [] then 0 else
      var last := trace[|trace| - 1];
      Charges(trace[..|trace| - 1], keys, from, to)
      + if last.Charge? && last.key in keys && from < last.at <= to then 1 else 0
  }

  /** Clears and live evictions of `key` in the half-open window (from, to]. */
  function Forgets(trace: seq<Mark>, key: string, from: int, to: int): nat {
    if trace == [] then 0 else
      var last := trace[|trace| - 1];
      Forgets(trace[..|trace| - 1], key, from, to)
      + if !last.Charge? && last.key == key && from < last.at <= to then 1 else 0
  }

  /** The marks are in time order and end by `t`. */
  ghost predicate Timed(trace: seq<Mark>, t: int) {
    trace == [] ||
    var last := trace[|trace| - 1];
    last.at <= t && Timed(trace[..|trace| - 1], last.at)
  }

  lemma Appended(trace: seq<Mark>, m: Mark)
    ensures (trace + [m])[..|trace + [m]| - 1] == trace
  {}

  lemma {:induction false} TimedLater(trace: seq<Mark>, t: int, later: int)
    requires Timed(trace, t) && t <= later
    ensures Timed(trace, later)
  {}

  lemma {:induction false} RecentSorted(trace: seq<Mark>, key: string, t: int)
    requires Timed(trace, t)
    ensures Sorted(Recent(trace, key)) && AllBy(Recent(trace, key), t)
  {
    if trace != [] {
      RecentSorted(trace[..|trace| - 1], key, trace[|trace| - 1].at);
    }
  }

  /** Forgetting can only shorten the log: what is recent is a suffix of what was charged. */
  lemma {:induction false} RecentIsSuffix(trace: seq<Mark>, key: string)
    ensures |Recent(trace, key)| <= |SinceClear(trace, key)|
    ensures Recent(trace, key) == SinceClear(trace, key)[|SinceClear(trace, key)| - |Recent(trace, key)|..]
    ensures !EvictedSinceClear(trace, key) ==> Recent(trace, key) == SinceClear(trace, key)
  {
    if trace != [] {
      RecentIsSuffix(trace[..|trace| - 1], key);
    }
  }

  lemma {:induction false} ChargesUnion(trace: seq<Mark>, some: set<string>, key: string, from: int, to: int)
    requires key !in some
    ensures Charges(trace, some + {key}, from, to) == Charges(trace, some, from, to) + Charges(trace, {key}, from, to)
  {
    if trace != [] {
      ChargesUnion(trace[..|trace| - 1], some, key, from, to);
    }
  }

  lemma {:induction false} NoKeysNoCharges(trace: seq<Mark>, from: int, to: int)
    ensures Charges(trace, {}, from, to) == 0
  {
    if trace != [] {
      NoKeysNoCharges(trace[..|trace| - 1], from, to);
    }
  }

  /** What reads as live at `to` was charged in the window ending there. */
  lemma {:induction false} LiveWereCharged(trace: seq<Mark>, key: string, from: int, to: int)
    requires Timed(trace, to)
    ensures |Live(Recent(trace, key), from)| <= Charges(trace, {key}, from, to)
  {
    if trace != [] {
      var front, last := trace[..|trace| - 1], trace[|trace| - 1];
      TimedLater(front, last.at, to);
      LiveWereCharged(front, key, from, to);
      LiveOfOne(Recent(front, key), last.at, from);
    }
  }

  // ------------------------------------------------------------------
  // The rate bound, on the log alone
  // ------------------------------------------------------------------

  /** Every charge to `key` was made while fewer than `cap` recent charges were live. */
  ghost predicate Gated(trace: seq<Mark>, key: string, cap: nat, window: int) {
    trace == [] ||
    var front, last := trace[..|trace| - 1], trace[|trace| - 1];
    && Gated(front, key, cap, window)
    && (last.Charge? && last.key == key ==> |Live(Recent(front, key), last.at - window)| < cap)
  }

  /** One cap of charges, and one more for each time the key was forgotten in the window. */
  lemma {:induction false} GatedRate(trace: seq<Mark>, key: string, cap: nat, window: int, from: int, t: int)
    requires Timed(trace, t) && Gated(trace, key, cap, window)
    ensures Charges(trace, {key}, from, from + window) <= cap * (1 + Forgets(trace, key, from, from + window))
  {
    hide Live, Recent;
    var to := from + window;
    Distribute(cap, Forgets(trace, key, from, to));
    if trace != [] {
      var front, last := trace[..|trace| - 1], trace[|trace| - 1];
      if last.at <= to {
        GatedInside(trace, key, cap, window, from, last.at);
      } else {
        GatedRate(front, key, cap, window, from, last.at);
      }
    }
  }

  /** While the window lasts: what is still live, and a cap for each time the key was forgotten. */
  lemma {:induction false} GatedInside(trace: seq<Mark>, key: string, cap: nat, window: int, from: int, t: int)
    requires Timed(trace, t) && Gated(trace, key, cap, window) && t <= from + window
    ensures |Live(Recent(trace, key), from)| <= cap
    ensures Charges(trace, {key}, from, from + window)
      <= cap * Forgets(trace, key, from, from + window) + |Live(Recent(trace, key), from)|
  {
    hide Live;
    var to := from + window;
    LiveOfDead([], from);
    if trace != [] {
      var front, last := trace[..|trace| - 1], trace[|trace| - 1];
      GatedInside(front, key, cap, window, from, last.at);
      Distribute(cap, Forgets(front, key, from, to));
      if last.key == key && last.Charge? {
        LiveMonotone(Recent(front, key), last.at - window, from);
        LiveOfOne(Recent(front, key), last.at, from);
      }
      if last.key == key && !last.Charge? && last.at <= from {
        NothingBefore(front, key, from, to, last.at);
      }
    }
  }

  lemma Distribute(cap: nat, n: nat)
    ensures cap * (1 + n) == cap * n + cap
  {}

  lemma {:induction false} NothingBefore(trace: seq<Mark>, key: string, from: int, to: int, t: int)
    requires Timed(trace, t) && t <= from
    ensures Charges(trace, {key}, from, to) == 0 && Forgets(trace, key, from, to) == 0
  {
    if trace != [] {
      NothingBefore(trace[..|trace| - 1], key, from, to, trace[|trace| - 1].at);
    }
  }

  // ------------------------------------------------------------------
  // Runs of the ledger
  // ------------------------------------------------------------------

  /** The bound on keys, the window, each key's cap, and when the process started. */
  datatype Config = Config(limit: nat, window: int, cap: string -> nat, start: int)

  ghost predicate Sensible(c: Config) {
    1 <= c.limit && forall k :: c.cap(k) >= 1
  }

  /** `Send` is one call of `_mail_send_admitted`: three checks at `at`, three charges at `chargeAt`.
      The strings `d1`, `d2`, `d3` and `drawn` are the keys the eviction draw would pick. */
  datatype Op =
    | DoCheck(key: string)
    | DoCharge(key: string, drawn: string)
    | DoSpend(key: string, drawn: string)
    | DoClear(key: string)
    | DoSend(email: string, network: string, shared: bool, chargeAt: int, d1: string, d2: string, d3: string)

  datatype Event = Event(at: int, op: Op)

  datatype State = State(book: Book, clock: int, trace: seq<Mark>)

  function CheckAt(c: Config, s: State, key: string, now: int): State {
    State(Checked(s.book, key, now - c.window), now, s.trace)
  }

  function Spent(c: Config, s: State, key: string, now: int): bool {
    IsSpent(s.book, key, c.cap(key), now - c.window)
  }

  function ClearAt(s: State, key: string, now: int): State {
    State(Forget(s.book, key), now, s.trace + [Clear(key, now)])
  }

  /** The live key a charge gives up, if it gives one up. */
  function Loss(c: Config, s: State, key: string, now: int, drawn: string): seq<Mark> {
    if key in s.book.held || s.book.order == [] || |s.book.order| < c.limit then [] else
      var evictee := Evictee(s.book, now - c.window, drawn);
      if Live(StampsOf(s.book, evictee), now - c.window) == [] then [] else [Evict(evictee, now)]
  }

  function ChargeAt(c: Config, s: State, key: string, now: int, drawn: string): State {
    State(
      Charged(s.book, key, c.cap(key), now - c.window, now, c.limit, drawn), now,
      s.trace + Loss(c, s, key, now, drawn) + [Charge(key, now)])
  }

  function Step(c: Config, s: State, e: Event): State {
    match e.op
    case DoCheck(key) => CheckAt(c, s, key, e.at)
    case DoCharge(key, drawn) => ChargeAt(c, s, key, e.at, drawn)
    case DoSpend(key, drawn) =>
      var checked := CheckAt(c, s, key, e.at);
      if Spent(c, s, key, e.at) then checked else ChargeAt(c, checked, key, e.at, drawn)
    case DoClear(key) => ClearAt(s, key, e.at)
    case DoSend(email, network, shared, chargeAt, d1, d2, d3) =>
      var pair, address, client := PairKey(email, network), AddressKey(email), ClientKey(network);
      var s1 := CheckAt(c, s, pair, e.at);
      var s2 := CheckAt(c, s1, address, e.at);
      var s3 := if shared then s2 else CheckAt(c, s2, client, e.at);
      if Spent(c, s, pair, e.at) then s1
      else if Spent(c, s1, address, e.at) then s2
      else if !shared && Spent(c, s2, client, e.at) then s3
      else
        var t2 := ChargeAt(c, ChargeAt(c, s3, pair, chargeAt, d1), address, chargeAt, d2);
        if shared then t2 else ChargeAt(c, t2, client, chargeAt, d3)
  }

  function Run(c: Config, es: seq<Event>): State {
    if es == [] then State(Book([], map[]), c.start, [])
    else Step(c, Run(c, es[..|es| - 1]), es[|es| - 1])
  }

  /** The clock never goes back. */
  ghost predicate InTime(c: Config, es: seq<Event>) {
    es == [] ||
    var front, last := es[..|es| - 1], es[|es| - 1];
    && InTime(c, front)
    && Run(c, front).clock <= last.at
    && (last.op.DoSend? ==> last.at <= last.op.chargeAt)
  }

  /** A mail step is what `mail_sends_exhausted` and then `record_mail_send` do to the store. */
  lemma SendIsCheckThenCharge(
    c: Config, s: State, e: Event, pairCap: nat, clients: nat, people: nat)
    requires e.op.DoSend? && c.cap == (k => MailCap(pairCap, clients, people, k))
    ensures var o := e.op;
      var checked := MailChecked(s.book, o.email, o.network, o.shared, e.at - c.window, pairCap, clients, people);
      Step(c, s, e).book ==
        if MailExhausted(s.book, o.email, o.network, o.shared, e.at - c.window, pairCap, clients, people)
        then checked
        else MailCharged(checked, o.email, o.network, o.shared, o.chargeAt - c.window, o.chargeAt, c.limit,
          pairCap, clients, people, o.d1, o.d2, o.d3)
  {
    hide Checked, IsSpent, Charged, PairKey, AddressKey, ClientKey, MailCap, Loss;
  }

  // ------------------------------------------------------------------
  // The store stands for the log
  // ------------------------------------------------------------------

  ghost predicate KeyStands(c: Config, s: State, key: string) {
    StandsFor(StampsOf(s.book, key), Recent(s.trace, key), c.cap(key), s.clock - c.window)
  }

  ghost predicate Inv(c: Config, s: State) {
    && Sound(s.book) && WrittenBy(s.book, s.clock) && |s.book.order| <= c.limit
    && Timed(s.trace, s.clock)
    && forall k :: KeyStands(c, s, k)
  }

  lemma StandsLater(kept: seq<int>, log: seq<int>, cap: nat, cutoff: int, later: int)
    requires StandsFor(kept, log, cap, cutoff) && cutoff <= later
    ensures StandsFor(kept, log, cap, later)
  {}

  /** A key whose held stamps are all dead stands for its log with nothing held at all. */
  lemma DeadStandsForEmpty(kept: seq<int>, log: seq<int>, cap: nat, cutoff: int, later: int)
    requires StandsFor(kept, log, cap, cutoff) && cutoff <= later && Sorted(log) && Live(kept, later) == []
    ensures StandsFor([], log, cap, later)
  {
    StandsForPruned(kept, log, cap, cutoff, later);
  }

  lemma CheckKeeps(c: Config, s: State, key: string, now: int)
    requires Sensible(c) && Inv(c, s) && s.clock <= now
    ensures Inv(c, CheckAt(c, s, key, now)) && CheckAt(c, s, key, now).clock == now
  {
    hide Sound, Timed, WrittenBy, Checked, KeyStands;
    CheckedSound(s.book, key, now - c.window);
    WrittenLater(s.book, s.clock, now);
    TimedLater(s.trace, s.clock, now);
    forall k ensures KeyStands(c, CheckAt(c, s, key, now), k) {
      CheckStands(c, s, key, now, k);
    }
  }

  lemma CheckStands(c: Config, s: State, key: string, now: int, k: string)
    requires KeyStands(c, s, k) && Timed(s.trace, s.clock) && s.clock <= now
    ensures KeyStands(c, CheckAt(c, s, key, now), k)
  {
    hide StandsFor, Live, Recent, Timed;
    var kept, log, cap := StampsOf(s.book, k), Recent(s.trace, k), c.cap(k);
    RecentSorted(s.trace, k, s.clock);
    StandsLater(kept, log, cap, s.clock - c.window, now - c.window);
    StandsForPruned(kept, log, cap, s.clock - c.window, now - c.window);
  }

  lemma WrittenLater(b: Book, t: int, later: int)
    requires WrittenBy(b, t) && t <= later
    ensures WrittenBy(b, later)
  {}

  lemma ClearKeeps(c: Config, s: State, key: string, now: int)
    requires Sensible(c) && Inv(c, s) && s.clock <= now
    ensures Inv(c, ClearAt(s, key, now))
  {
    hide Sound, WrittenBy, Forget, KeyStands;
    ForgetSound(s.book, key);
    ForgetWritten(s.book, key, now) by { WrittenLater(s.book, s.clock, now); }
    TimedLater(s.trace, s.clock, now);
    Appended(s.trace, Clear(key, now));
    hide Timed;
    forall k ensures KeyStands(c, ClearAt(s, key, now), k) {
      ClearStands(c, s, key, now, k);
    }
  }

  lemma ForgetWritten(b: Book, key: string, now: int)
    requires WrittenBy(b, now)
    ensures WrittenBy(Forget(b, key), now)
  {}

  lemma ClearStands(c: Config, s: State, key: string, now: int, k: string)
    requires KeyStands(c, s, k) && s.clock <= now
    ensures KeyStands(c, ClearAt(s, key, now), k)
  {
    Appended(s.trace, Clear(key, now));
    StandsLater(StampsOf(s.book, k), Recent(s.trace, k), c.cap(k), s.clock - c.window, now - c.window);
  }

  /** The log after a charge, seen from each key. */
  lemma ChargeLog(c: Config, s: State, key: string, now: int, drawn: string, k: string)
    requires Timed(s.trace, s.clock) && s.clock <= now
    ensures var s' := ChargeAt(c, s, key, now, drawn);
      var loss := Loss(c, s, key, now, drawn);
      && Timed(s'.trace, now)
      && Recent(s'.trace, k) ==
           if k == key then (if loss != [] && loss[0].key == key then [] else Recent(s.trace, key)) + [now]
           else if loss != [] && loss[0].key == k then [] else Recent(s.trace, k)
  {
    var loss := Loss(c, s, key, now, drawn);
    TimedLater(s.trace, s.clock, now);
    if loss != [] {
      Appended(s.trace, loss[0]);
    } else {
      assert s.trace + loss == s.trace;
    }
    Appended(s.trace + loss, Charge(key, now));
  }

  lemma ChargeKeeps(c: Config, s: State, key: string, now: int, drawn: string)
    requires Sensible(c) && Inv(c, s) && s.clock <= now
    ensures Inv(c, ChargeAt(c, s, key, now, drawn)) && ChargeAt(c, s, key, now, drawn).clock == now
  {
    hide Sound, Timed, WrittenBy, Charged, KeyStands, Loss;
    forall k ensures KeyStands(c, ChargeAt(c, s, key, now, drawn), k) {
      assert KeyStands(c, s, k);
      ChargeStands(c, s, key, now, drawn, k);
    }
    WrittenLater(s.book, s.clock, now);
    ChargedSound(s.book, key, c.cap(key), now - c.window, now, c.limit, drawn);
    ChargeLog(c, s, key, now, drawn, key);
  }

  lemma ChargeStands(c: Config, s: State, key: string, now: int, drawn: string, k: string)
    requires KeyStands(c, s, k) && Timed(s.trace, s.clock) && s.clock <= now && Sound(s.book)
    ensures KeyStands(c, ChargeAt(c, s, key, now, drawn), k)
  {
    hide Timed, StandsFor, Live, Recent, LastN, Charged, StampsOf, Loss, Sorted, AllBy, Sound, Tracked;
    SoundTracked(s.book);
    ChargeKept(c, s, key, now, drawn, k);
    ChargeLog(c, s, key, now, drawn, k);
    RecentSorted(s.trace, k, s.clock);
    var s' := ChargeAt(c, s, key, now, drawn);
    StandsAfter(StampsOf(s.book, k), Recent(s.trace, k), c.cap(k), s.clock - c.window, now - c.window, now,
      k == key, StampsOf(s'.book, k), Recent(s'.trace, k));
  }

  /** The ways a charge may change what is held under a key and what its log says. */
  lemma StandsAfter(
    kept: seq<int>, log: seq<int>, cap: nat, cutoff: int, later: int, now: int,
    charged: bool, kept': seq<int>, log': seq<int>)
    requires StandsFor(kept, log, cap, cutoff) && cutoff <= later && Sorted(log)
    requires charged ==> kept' == LastN(Live(kept, later) + [now], cap) && log' == log + [now]
    requires !charged ==>
      || (kept' == [] && log' == [])
      || (log' == log && (kept' == kept || (kept' == [] && Live(kept, later) == [])))
    ensures StandsFor(kept', log', cap, later)
  {
    if charged {
      StandsForPruned(kept, log, cap, cutoff, later);
      StandsForCharged(Live(kept, later), log, cap, later, now);
    } else if kept' == [] && log' == log && kept != [] {
      DeadStandsForEmpty(kept, log, cap, cutoff, later);
    }
  }

  ghost predicate Tracked(b: Book) {
    forall k :: k in b.order <==> k in b.held
  }

  lemma SoundTracked(b: Book)
    requires Sound(b)
    ensures Tracked(b)
  {}

  /** The stamps held after a charge, seen from each key: the evicted key alone loses any. */
  lemma ChargeKept(c: Config, s: State, key: string, now: int, drawn: string, k: string)
    requires Tracked(s.book)
    ensures var after := StampsOf(ChargeAt(c, s, key, now, drawn).book, k);
      var loss := Loss(c, s, key, now, drawn);
      if k == key then
        && after == LastN(Live(StampsOf(s.book, k), now - c.window) + [now], c.cap(k))
        && (loss != [] ==> loss[0].key != key)
      else if loss != [] && loss[0].key == k then after == []
      else after == StampsOf(s.book, k) || (after == [] && Live(StampsOf(s.book, k), now - c.window) == [])
  {
    hide Live, LastN, Without;
    var b, cutoff := s.book, now - c.window;
    if key !in b.held && b.order != [] && |b.order| >= c.limit {
      assert Evictee(b, cutoff, drawn) in b.order;
      hide Evictee;
    }
  }

  lemma StepKeeps(c: Config, s: State, e: Event)
    requires Sensible(c) && Inv(c, s) && s.clock <= e.at && (e.op.DoSend? ==> e.at <= e.op.chargeAt)
    ensures Inv(c, Step(c, s, e))
  {
    hide Inv, CheckAt, ChargeAt, PairKey, AddressKey, ClientKey, Spent;
    match e.op
    case DoCheck(key) => CheckKeeps(c, s, key, e.at);
    case DoCharge(key, drawn) => ChargeKeeps(c, s, key, e.at, drawn);
    case DoSpend(key, drawn) =>
      CheckKeeps(c, s, key, e.at);
      if !Spent(c, s, key, e.at) {
        ChargeKeeps(c, CheckAt(c, s, key, e.at), key, e.at, drawn);
      }
    case DoClear(key) => ClearKeeps(c, s, key, e.at);
    case DoSend(email, network, shared, chargeAt, d1, d2, d3) =>
      var pair, address, client := PairKey(email, network), AddressKey(email), ClientKey(network);
      var s1 := CheckAt(c, s, pair, e.at);
      CheckKeeps(c, s, pair, e.at);
      var s2 := CheckAt(c, s1, address, e.at);
      CheckKeeps(c, s1, address, e.at);
      var s3 := if shared then s2 else CheckAt(c, s2, client, e.at);
      if !shared { CheckKeeps(c, s2, client, e.at); }
      ChargeKeeps(c, s3, pair, chargeAt, d1);
      var t1 := ChargeAt(c, s3, pair, chargeAt, d1);
      ChargeKeeps(c, t1, address, chargeAt, d2);
      var t2 := ChargeAt(c, t1, address, chargeAt, d2);
      if !shared { ChargeKeeps(c, t2, client, chargeAt, d3); }
  }

  lemma {:induction false} RunKeeps(c: Config, es: seq<Event>)
    requires Sensible(c) && InTime(c, es)
    ensures Inv(c, Run(c, es))
  {
    hide Inv, Step;
    if es == [] {
      StartInv(c);
    } else {
      RunKeeps(c, es[..|es| - 1]);
      StepKeeps(c, Run(c, es[..|es| - 1]), es[|es| - 1]);
    }
  }

  lemma StartInv(c: Config)
    requires Sensible(c)
    ensures Inv(c, State(Book([], map[]), c.start, []))
  {}

  /** After any run, and at any later time, a key reads spent exactly when `cap` charges made since
      it was last cleared or evicted live are inside the window. For a key not evicted since its last
      clear that is the whole log; an evicted key can only under-count, so nobody is refused without
      `cap` real charges. */
  lemma LedgerRefinesLog(c: Config, es: seq<Event>, key: string, now: int)
    requires Sensible(c) && InTime(c, es) && Run(c, es).clock <= now
    ensures var s := Run(c, es);
      && (Spent(c, s, key, now) <==> |Live(Recent(s.trace, key), now - c.window)| >= c.cap(key))
      && (!EvictedSinceClear(s.trace, key) ==>
            (Spent(c, s, key, now) <==> |Live(SinceClear(s.trace, key), now - c.window)| >= c.cap(key)))
      && (Spent(c, s, key, now) ==> |Live(SinceClear(s.trace, key), now - c.window)| >= c.cap(key))
  {
    hide Inv, Run, InTime, Spent, Live, Recent, SinceClear, EvictedSinceClear, Sensible;
    RunKeeps(c, es);
    var s := Run(c, es);
    SpentIsLog(c, s, key, now);
    RecentIsSuffix(s.trace, key);
    var full := SinceClear(s.trace, key);
    var n := |full| - |Recent(s.trace, key)|;
    assert full == full[..n] + full[n..];
    LiveConcat(full[..n], full[n..], now - c.window);
  }

  lemma SpentIsLog(c: Config, s: State, key: string, now: int)
    requires Sensible(c) && Inv(c, s) && s.clock <= now
    ensures Spent(c, s, key, now) <==> |Live(Recent(s.trace, key), now - c.window)| >= c.cap(key)
  {
    hide Sound, WrittenBy, Timed, Recent, Live, Sorted, AllBy;
    assert KeyStands(c, s, key);
    RecentSorted(s.trace, key, s.clock);
    var kept := StampsOf(s.book, key);
    StandsForCounts(kept, Recent(s.trace, key), c.cap(key), s.clock - c.window, now - c.window);
    if key !in s.book.held {
      LiveOfDead([], now - c.window);
    }
  }

  // ------------------------------------------------------------------
  // Rate bounds over whole runs
  // ------------------------------------------------------------------

  /** No event charges `key` without checking it first in the same step. */
  predicate NeverChargedUnchecked(es: seq<Event>, key: string) {
    forall e :: e in es && e.op.DoCharge? ==> e.op.key != key
  }

  /** Fewer than `cap` recent charges to `key` are live at `now`: it may be charged. */
  ghost predicate HasRoom(c: Config, s: State, key: string, now: int) {
    |Live(Recent(s.trace, key), now - c.window)| < c.cap(key)
  }

  lemma RoomLater(c: Config, s: State, key: string, now: int, later: int)
    requires HasRoom(c, s, key, now) && now <= later
    ensures HasRoom(c, s, key, later)
  {
    LiveMonotone(Recent(s.trace, key), now - c.window, later - c.window);
  }

  /** Charging one key leaves another its room. */
  lemma RoomAfterOther(c: Config, s: State, key: string, now: int, drawn: string, other: string, later: int)
    requires Sensible(c) && Timed(s.trace, s.clock) && s.clock <= now && other != key
    requires HasRoom(c, s, other, later)
    ensures HasRoom(c, ChargeAt(c, s, key, now, drawn), other, later)
  {
    hide Recent, Timed, Loss, Charged, Live;
    ChargeLog(c, s, key, now, drawn, other);
    LiveOfDead([], later - c.window);
  }

  lemma ChargeGated(c: Config, s: State, key: string, now: int, drawn: string, k: string)
    requires Sensible(c) && Inv(c, s) && s.clock <= now
    requires Gated(s.trace, k, c.cap(k), c.window) && (k == key ==> HasRoom(c, s, key, now))
    ensures Gated(ChargeAt(c, s, key, now, drawn).trace, k, c.cap(k), c.window)
  {
    hide Inv, Live, Charged, Evictee;
    SoundTracked(s.book) by { InvParts(c, s); }
    ChargeKept(c, s, key, now, drawn, key);
    var loss := Loss(c, s, key, now, drawn);
    if loss != [] {
      Appended(s.trace, loss[0]);
    } else {
      assert s.trace + loss == s.trace;
    }
    Appended(s.trace + loss, Charge(key, now));
  }

  lemma InvParts(c: Config, s: State)
    requires Inv(c, s)
    ensures Sound(s.book) && Timed(s.trace, s.clock)
  {}

  lemma StepGated(c: Config, s: State, e: Event, k: string)
    requires Sensible(c) && Inv(c, s) && s.clock <= e.at && (e.op.DoSend? ==> e.at <= e.op.chargeAt)
    requires Gated(s.trace, k, c.cap(k), c.window) && (e.op.DoCharge? ==> e.op.key != k)
    ensures Gated(Step(c, s, e).trace, k, c.cap(k), c.window)
  {
    hide Inv, ChargeAt, Gated, HasRoom, Spent, Recent, Forget, Checked, Timed, Live;
    match e.op
    case DoCheck(key) =>
    case DoCharge(key, drawn) => ChargeGated(c, s, key, e.at, drawn, k);
    case DoSpend(key, drawn) =>
      CheckKeeps(c, s, key, e.at);
      if !Spent(c, s, key, e.at) {
        UnspentHasRoom(c, s, key, e.at, CheckAt(c, s, key, e.at), e.at);
        ChargeGated(c, CheckAt(c, s, key, e.at), key, e.at, drawn, k);
      }
    case DoClear(key) => ClearGated(c, s, key, e.at, k);
    case DoSend(email, network, shared, chargeAt, d1, d2, d3) => SendGated(c, s, e, k);
  }

  /** An unspent key has room, then and at any later state with the same log. */
  lemma UnspentHasRoom(c: Config, s: State, key: string, now: int, t: State, later: int)
    requires Sensible(c) && Inv(c, s) && s.clock <= now <= later && !Spent(c, s, key, now)
    requires t.trace == s.trace
    ensures HasRoom(c, t, key, later)
  {
    SpentIsLog(c, s, key, now);
    hide Inv, Spent, Recent, Live;
    RoomLater(c, s, key, now, later);
  }

  lemma ClearGated(c: Config, s: State, key: string, now: int, k: string)
    requires Gated(s.trace, k, c.cap(k), c.window)
    ensures Gated(ClearAt(s, key, now).trace, k, c.cap(k), c.window)
  {
    Appended(s.trace, Clear(key, now));
  }

  lemma MailKeysDiffer(email: string, network: string)
    ensures PairKey(email, network) != AddressKey(email)
    ensures AddressKey(email) != ClientKey(network) && PairKey(email, network) != ClientKey(network)
  {
    assert PairKey(email, network)[0] == 'c' && AddressKey(email)[0] == 'a' && ClientKey(network)[0] == 'k';
  }

  lemma SendGated(c: Config, s: State, e: Event, k: string)
    requires Sensible(c) && Inv(c, s) && s.clock <= e.at && e.op.DoSend? && e.at <= e.op.chargeAt
    requires Gated(s.trace, k, c.cap(k), c.window)
    ensures Gated(Step(c, s, e).trace, k, c.cap(k), c.window)
  {
    hide Inv, ChargeAt, Gated, HasRoom, Spent, Recent, Checked, PairKey, AddressKey, ClientKey, Timed, Live;
    var o, now := e.op, e.op.chargeAt;
    var pair, address, client := PairKey(o.email, o.network), AddressKey(o.email), ClientKey(o.network);
    MailKeysDiffer(o.email, o.network);
    CheckKeeps(c, s, pair, e.at);
    var s1 := CheckAt(c, s, pair, e.at);
    CheckKeeps(c, s1, address, e.at);
    var s2 := CheckAt(c, s1, address, e.at);
    if !o.shared { CheckKeeps(c, s2, client, e.at); }
    var s3 := if o.shared then s2 else CheckAt(c, s2, client, e.at);
    if !Spent(c, s, pair, e.at) && !Spent(c, s1, address, e.at) && (o.shared || !Spent(c, s2, client, e.at)) {
      UnspentHasRoom(c, s, pair, e.at, s3, now);
      UnspentHasRoom(c, s1, address, e.at, s3, now);
      if !o.shared { UnspentHasRoom(c, s2, client, e.at, s3, now); }
      ChargeGated(c, s3, pair, now, o.d1, k);
      ChargeKeeps(c, s3, pair, now, o.d1);
      var t1 := ChargeAt(c, s3, pair, now, o.d1);
      InvParts(c, s3);
      RoomAfterOther(c, s3, pair, now, o.d1, address, now);
      ChargeGated(c, t1, address, now, o.d2, k);
      if !o.shared {
        ChargeKeeps(c, t1, address, now, o.d2);
        InvParts(c, t1);
        RoomAfterOther(c, s3, pair, now, o.d1, client, now);
        RoomAfterOther(c, t1, address, now, o.d2, client, now);
        ChargeGated(c, ChargeAt(c, t1, address, now, o.d2), client, now, o.d3, k);
      }
    }
  }

  lemma {:induction false} RunGated(c: Config, es: seq<Event>, key: string)
    requires Sensible(c) && InTime(c, es) && NeverChargedUnchecked(es, key)
    ensures Gated(Run(c, es).trace, key, c.cap(key), c.window)
  {
    hide Step, Inv;
    if es != [] {
      var front, last := es[..|es| - 1], es[|es| - 1];
      assert last in es && forall e :: e in front ==> e in es;
      RunKeeps(c, front);
      RunGated(c, front, key);
      StepGated(c, Run(c, front), last, key);
    }
  }

  /** In any half-open window, the charges a key is admitted number at most one cap, plus one cap for
      each clear and each live eviction of that key inside the window. */
  lemma RateBound(c: Config, es: seq<Event>, key: string, from: int)
    requires Sensible(c) && InTime(c, es) && NeverChargedUnchecked(es, key)
    ensures var trace := Run(c, es).trace;
      Charges(trace, {key}, from, from + c.window)
        <= c.cap(key) * (1 + Forgets(trace, key, from, from + c.window))
  {
    hide Step, Charges, Forgets;
    RunKeeps(c, es);
    RunGated(c, es, key);
    InvParts(c, Run(c, es));
    GatedRate(Run(c, es).trace, key, c.cap(key), c.window, from, Run(c, es).clock);
  }

  // ------------------------------------------------------------------
  // Few clients cannot spend an address's mail
  // ------------------------------------------------------------------

  predicate OnlySends(es: seq<Event>) {
    forall e :: e in es ==> e.op.DoSend?
  }

  /** Every send to `email` charged in the window (from, to] came from one of `networks`. */
  predicate SendsComeFrom(es: seq<Event>, email: string, networks: set<string>, from: int, to: int) {
    forall e :: e in es && e.op.DoSend? && e.op.email == email && from < e.op.chargeAt <= to
      ==> e.op.network in networks
  }

  function PairKeys(email: string, networks: set<string>): set<string> {
    set n | n in networks :: PairKey(email, n)
  }

  lemma {:induction false} FewerPairKeys(email: string, networks: set<string>)
    ensures |PairKeys(email, networks)| <= |networks|
  {
    if networks != {} {
      var n :| n in networks;
      FewerPairKeys(email, networks - {n});
      assert PairKeys(email, networks) == PairKeys(email, networks - {n}) + {PairKey(email, n)};
    }
  }

  /** What a charge adds to the count of charges to `keys` in a window. */
  lemma ChargeCounted(c: Config, s: State, key: string, now: int, drawn: string, keys: set<string>, from: int, to: int)
    ensures Charges(ChargeAt(c, s, key, now, drawn).trace, keys, from, to)
      == Charges(s.trace, keys, from, to) + if key in keys && from < now <= to then 1 else 0
  {
    hide Charged, Evictee, Live;
    var loss := Loss(c, s, key, now, drawn);
    if loss != [] {
      Appended(s.trace, loss[0]);
    } else {
      assert s.trace + loss == s.trace;
    }
    Appended(s.trace + loss, Charge(key, now));
  }

  /** A send charges an address only together with one of its pairs. */
  lemma SendCounted(c: Config, s: State, e: Event, email: string, networks: set<string>, from: int, to: int)
    requires e.op.DoSend?
    requires e.op.email == email && from < e.op.chargeAt <= to ==> e.op.network in networks
    requires Charges(s.trace, {AddressKey(email)}, from, to) <= Charges(s.trace, PairKeys(email, networks), from, to)
    ensures var s' := Step(c, s, e);
      Charges(s'.trace, {AddressKey(email)}, from, to) <= Charges(s'.trace, PairKeys(email, networks), from, to)
  {
    hide Charges, ChargeAt, Checked, Spent, PairKey, PairKeys, AddressKey, ClientKey;
    var o, now, pairs := e.op, e.op.chargeAt, PairKeys(email, networks);
    var pair, address, client := PairKey(o.email, o.network), AddressKey(o.email), ClientKey(o.network);
    AddressKeyOf(email, o.email, o.network, networks);
    var s1 := CheckAt(c, s, pair, e.at);
    var s2 := CheckAt(c, s1, address, e.at);
    var s3 := if o.shared then s2 else CheckAt(c, s2, client, e.at);
    var t1 := ChargeAt(c, s3, pair, now, o.d1);
    var t2 := ChargeAt(c, t1, address, now, o.d2);
    ChargeCounted(c, s3, pair, now, o.d1, {AddressKey(email)}, from, to);
    ChargeCounted(c, s3, pair, now, o.d1, pairs, from, to);
    ChargeCounted(c, t1, address, now, o.d2, {AddressKey(email)}, from, to);
    ChargeCounted(c, t1, address, now, o.d2, pairs, from, to);
    ChargeCounted(c, t2, client, now, o.d3, {AddressKey(email)}, from, to);
    ChargeCounted(c, t2, client, now, o.d3, pairs, from, to);
  }

  /** Only a send to the address itself charges the address's key. */
  lemma AddressKeyOf(email: string, other: string, network: string, networks: set<string>)
    ensures AddressKey(other) == AddressKey(email) <==> other == email
    ensures PairKey(other, network) != AddressKey(email) && ClientKey(network) != AddressKey(email)
    ensures network in networks ==> PairKey(email, network) in PairKeys(email, networks)
  {
    assert AddressKey(other)[2..] == other && AddressKey(email)[2..] == email;
    assert PairKey(other, network)[0] == 'c' && ClientKey(network)[0] == 'k' && AddressKey(email)[0] == 'a';
  }

  lemma {:induction false} AddressWithinPairs(
    c: Config, es: seq<Event>, email: string, networks: set<string>, from: int, to: int)
    requires OnlySends(es) && SendsComeFrom(es, email, networks, from, to)
    ensures Charges(Run(c, es).trace, {AddressKey(email)}, from, to)
      <= Charges(Run(c, es).trace, PairKeys(email, networks), from, to)
  {
    hide Step, PairKeys, AddressKey;
    if es != [] {
      var front, last := es[..|es| - 1], es[|es| - 1];
      assert last in es && forall e :: e in front ==> e in es;
      AddressWithinPairs(c, front, email, networks, from, to);
      SendCounted(c, Run(c, front), last, email, networks, from, to);
    }
  }

  lemma {:induction false} PairsWithinCaps(
    c: Config, es: seq<Event>, keys: set<string>, pairCap: nat, from: int)
    requires Sensible(c) && InTime(c, es) && OnlySends(es)
    requires forall k :: k in keys ==> c.cap(k) == pairCap && Forgets(Run(c, es).trace, k, from, from + c.window) == 0
    ensures Charges(Run(c, es).trace, keys, from, from + c.window) <= pairCap * |keys|
  {
    hide Step, Charges, Forgets;
    var trace := Run(c, es).trace;
    if keys == {} {
      NoKeysNoCharges(trace, from, from + c.window);
    } else {
      var k :| k in keys;
      var rest := keys - {k};
      assert keys == rest + {k};
      PairsWithinCaps(c, es, rest, pairCap, from);
      ChargesUnion(trace, rest, k, from, from + c.window);
      RateBound(c, es, k, from);
      Distribute(pairCap, |rest|);
    }
  }

  /** In the window ending at `now` every send to the address came from `networks`, fewer than
      `clients` of them, and none of their pairs with the address was evicted live. */
  ghost predicate FewClients(c: Config, es: seq<Event>, email: string, networks: set<string>, now: int, clients: nat) {
    && Run(c, es).clock <= now && |networks| < clients
    && SendsComeFrom(es, email, networks, now - c.window, now)
    && forall n :: n in networks ==> Forgets(Run(c, es).trace, PairKey(email, n), now - c.window, now) == 0
  }

  /** Then the address's own cap is not reached. */
  lemma FewClientsNeverExhaustAddress(c: Config, es: seq<Event>, pairCap: nat, clients: nat, people: nat)
    requires Sensible(c) && InTime(c, es) && OnlySends(es)
    requires c.cap == (k => MailCap(pairCap, clients, people, k))
    ensures forall email, networks, now :: FewClients(c, es, email, networks, now, clients) ==>
      !Spent(c, Run(c, es), AddressKey(email), now)
  {
    hide Sensible, InTime, OnlySends, FewClients, Run, Spent, AddressKey, MailCap;
    forall email, networks, now | FewClients(c, es, email, networks, now, clients)
      ensures !Spent(c, Run(c, es), AddressKey(email), now)
    {
      FewClientsLeaveRoom(c, es, email, networks, now, pairCap, clients, people);
    }
  }

  lemma FewClientsLeaveRoom(
    c: Config, es: seq<Event>, email: string, networks: set<string>, now: int,
    pairCap: nat, clients: nat, people: nat)
    requires Sensible(c) && InTime(c, es) && OnlySends(es)
    requires c.cap == (k => MailCap(pairCap, clients, people, k))
    requires FewClients(c, es, email, networks, now, clients)
    ensures !Spent(c, Run(c, es), AddressKey(email), now)
  {
    hide Step, Spent, Charges, Forgets, PairKey, PairKeys, AddressKey, Live, Recent, MailCap, InTime, Run, Inv;
    var s, from, address, pairs := Run(c, es), now - c.window, AddressKey(email), PairKeys(email, networks);
    CapsOf(email, networks, pairCap, clients, people);
    assert c.cap(address) == pairCap * clients && c.cap(PairKey(email, "")) == pairCap;
    AddressWithinPairs(c, es, email, networks, from, now);
    assert from + c.window == now;
    PairsWithinCaps(c, es, pairs, pairCap, from);
    FewerPairKeys(email, networks);
    Products(pairCap, |pairs|, |networks|, clients);
    LedgerRefinesLog(c, es, address, now);
    RunKeeps(c, es);
    InvParts(c, s);
    TimedLater(s.trace, s.clock, now);
    LiveWereCharged(s.trace, address, from, now);
  }

  lemma CapsOf(email: string, networks: set<string>, pairCap: nat, clients: nat, people: nat)
    ensures MailCap(pairCap, clients, people, AddressKey(email)) == pairCap * clients
    ensures MailCap(pairCap, clients, people, PairKey(email, "")) == pairCap
    ensures forall k :: k in PairKeys(email, networks) ==>
      MailCap(pairCap, clients, people, k) == pairCap
      && exists n :: n in networks && k == PairKey(email, n)
  {}

  lemma Products(cap: nat, few: nat, some: nat, many: nat)
    requires few <= some < many && 1 <= cap
    ensures cap * few < cap * many
  {}
}
