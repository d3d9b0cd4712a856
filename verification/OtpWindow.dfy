/** Whether a window of real time never yields more guesses at an address than the draw budget, as
    `_limit_reached` says of it: exactly when no code can be guessed at in a window it was not
    created in. Times are whole units of the clock. */
module OtpWindow {
  import opened Options
  import opened OtpTable
  import opened OtpRuns

  /** Every guess at the address in the half-open window from `from`. */
  function GuessesInWindow(p: Params, start: int, es: seq<Event>, email: string, from: int): nat {
    var claims, to := Run(p, start, es).claims, from + p.window;
    GuessesIn(claims, email, from, to, false) + GuessesIn(claims, email, from, to, true)
  }

  ghost predicate WithinBudget(p: Params, start: int, es: seq<Event>, email: string, from: int) {
    InTime(p, start, es) ==> GuessesInWindow(p, start, es, email, from) <= p.draws
  }

  /** Codes are issued at all, and one created just before a window can be guessed at inside it. */
  predicate CodesOutliveWindowStart(p: Params) {
    1 <= p.attempts <= p.draws && p.window >= 1 && p.expiry >= 3
  }

  // ------------------------------------------------------------------
  // Where the budget is kept
  // ------------------------------------------------------------------

  /** A guess is taken before its code expires, and none when codes are never issued. */
  ghost predicate ClaimsPrompt(p: Params, s: State) {
    && (forall k :: 0 <= k < |s.claims| ==> s.claims[k].at < s.claims[k].created + p.expiry)
    && (p.attempts > p.draws ==> s.rows == [] && s.claims == [])
  }

  lemma {:induction false} RunPrompt(p: Params, start: int, es: seq<Event>)
    requires Sensible(p) && InTime(p, start, es)
    ensures ClaimsPrompt(p, Run(p, start, es))
  {
    hide Step, Inv, ClaimsPrompt;
    if es == [] {
      StartPrompt(p, start);
    } else {
      RunPrompt(p, start, es[..|es| - 1]);
      RunInv(p, start, es[..|es| - 1]);
      InvTable(p, Run(p, start, es[..|es| - 1]));
      StepPrompt(p, Run(p, start, es[..|es| - 1]), es[|es| - 1]);
    }
  }

  lemma StartPrompt(p: Params, start: int)
    ensures ClaimsPrompt(p, Start(start))
  {
  }

  lemma StepPrompt(p: Params, s: State, e: Event)
    requires TableOk(p, s.rows, s.nextId, s.clock) && ClaimsPrompt(p, s) && Timely(p, s, e)
    ensures ClaimsPrompt(p, Step(p, s, e))
  {
    hide TableOk, Misses, HasUnused;
    if e.BeginVerify? {
      var otp := Latest(s.rows, e.email, p.attempts, e.at);
      if otp.Some? {
        var i :| 0 <= i < |s.rows| && s.rows[i] == otp.value;
        TableRow(p, s.rows, s.nextId, s.clock, i);
      }
    }
  }

  lemma {:induction false} NoOldGuesses(p: Params, claims: seq<Claim>, email: string, from: int, to: int)
    requires forall k :: 0 <= k < |claims| ==> claims[k].at < claims[k].created + p.expiry
    requires p.expiry <= 2
    ensures GuessesIn(claims, email, from, to, true) == 0
  {
    if claims != [] {
      NoOldGuesses(p, claims[..|claims| - 1], email, from, to);
    }
  }

  lemma {:induction false} EmptyWindow(claims: seq<Claim>, email: string, from: int, ofOld: bool)
    ensures GuessesIn(claims, email, from, from, ofOld) == 0
  {
    if claims != [] {
      EmptyWindow(claims[..|claims| - 1], email, from, ofOld);
    }
  }

  lemma KeptOtherwise(p: Params, start: int, es: seq<Event>, email: string, from: int)
    requires Sensible(p) && !CodesOutliveWindowStart(p)
    ensures WithinBudget(p, start, es, email, from)
  {
    hide Step, Run, GuessesIn, Sensible;
    if InTime(p, start, es) {
      var claims, to := Run(p, start, es).claims, from + p.window;
      GuessTimeBound(p, start, es, email, from);
      RunPrompt(p, start, es);
      if p.attempts == 0 {
      } else if p.attempts > p.draws {
        NoClaims(email, from, to, true);
        NoClaims(email, from, to, false);
      } else if p.window == 0 {
        EmptyWindow(claims, email, from, true);
      } else if p.window > 0 {
        NoOldGuesses(p, claims, email, from, to);
      } else {
        SensibleWindow(p);
      }
    }
  }

  lemma SensibleWindow(p: Params)
    requires Sensible(p)
    ensures p.window >= 0 && p.expiry > 0
  {
  }

  lemma NoClaims(email: string, from: int, to: int, ofOld: bool)
    ensures GuessesIn([], email, from, to, ofOld) == 0
  {
  }

  // ------------------------------------------------------------------
  // A run that passes it: one old code guessed out, then the whole budget on new ones
  // ------------------------------------------------------------------

  const WHO := "a"

  /** At no time is more than one handler suspended. */
  ghost predicate OneAtATime(p: Params, es: seq<Event>) {
    var s := Run(p, 0, es);
    |s.hashing| + |s.comparing| <= 1 && (es == [] || OneAtATime(p, es[..|es| - 1]))
  }

  lemma StillOneAtATime(p: Params, es: seq<Event>, e: Event)
    requires OneAtATime(p, es) && |Run(p, 0, es + [e]).hashing| + |Run(p, 0, es + [e]).comparing| <= 1
    ensures OneAtATime(p, es + [e])
  {
    hide Run;
    assert (es + [e])[..|es|] == es;
  }

  /** Where such a run stands: nothing is suspended, and so many guesses of each kind have been taken
      in the window from 1. */
  ghost predicate Stands(p: Params, es: seq<Event>, fresh_: nat, ofOld: nat) {
    var s := Run(p, 0, es);
    && InTime(p, 0, es) && s.clock <= 1 + p.window && s.hashing == multiset{} && s.comparing == multiset{}
    && OneAtATime(p, es)
    && Misses(s.rows, WHO, 1) == fresh_
    && GuessesIn(s.claims, WHO, 1, 1 + p.window, false) == fresh_
    && GuessesIn(s.claims, WHO, 1, 1 + p.window, true) == ofOld
  }

  /** The newest row is a live code of the address. */
  ghost predicate Fresh(p: Params, s: State, created: int, attempts: nat) {
    s.rows != [] &&
    var last := s.rows[|s.rows| - 1];
    last.email == WHO && last.created == created && last.expires == created + p.expiry && !last.used
    && last.attempts == attempts
  }

  lemma RunMore(p: Params, es: seq<Event>, e: Event)
    ensures Run(p, 0, es + [e]) == Step(p, Run(p, 0, es), e)
    ensures InTime(p, 0, es + [e]) <==> InTime(p, 0, es) && Timely(p, Run(p, 0, es), e)
  {
    hide Step, Timely;
    assert (es + [e])[..|es|] == es;
  }

  lemma IssueOne(p: Params, s: State, at: int)
    requires s.clock <= at && !LimitReached(p, s.rows, WHO, at)
    ensures var s1 := Step(p, s, BeginIssue(WHO, at)); var s2 := Step(p, s1, FinishIssue(WHO, "", at, at));
      && s1.clock == at && s1.hashing == s.hashing + multiset{WHO} && s1.comparing == s.comparing
      && s2.clock == at && s2.hashing == s.hashing && s2.comparing == s.comparing
      && s2.claims == s.claims && Fresh(p, s2, at, 0)
      && Misses(s2.rows, WHO, 1) == Misses(s.rows, WHO, 1)
  {
    hide Misses, Superseded;
    MissesSuperseded(s.rows, WHO, at, WHO, 1);
    MissesOne(
      Superseded(s.rows, WHO, at), Code(s.nextId, WHO, "", at + p.expiry, 0, false, at), WHO, 1);
  }

  lemma Issue(p: Params, es: seq<Event>, at: int, fresh_: nat, ofOld: nat) returns (es': seq<Event>)
    requires Sensible(p) && Stands(p, es, fresh_, ofOld) && Run(p, 0, es).clock <= at <= 1 + p.window
    requires !LimitReached(p, Run(p, 0, es).rows, WHO, at)
    ensures Stands(p, es', fresh_, ofOld) && Fresh(p, Run(p, 0, es'), at, 0) && Run(p, 0, es').clock == at
  {
    hide Step, Run, InTime, Misses, GuessesIn, Fresh, LimitReached, OneAtATime;
    var e1, e2 := BeginIssue(WHO, at), FinishIssue(WHO, "", at, at);
    IssueOne(p, Run(p, 0, es), at);
    RunMore(p, es, e1);
    RunMore(p, es + [e1], e2);
    StillOneAtATime(p, es, e1);
    StillOneAtATime(p, es + [e1], e2);
    es' := es + [e1] + [e2];
  }

  lemma GuessOne(p: Params, s: State, created: int, k: nat, at: int)
    requires TableOk(p, s.rows, s.nextId, s.clock) && Fresh(p, s, created, k) && k < p.attempts
    requires s.clock <= at < created + p.expiry
    ensures s.rows != []
    ensures var last := s.rows[|s.rows| - 1];
      var s1 := Step(p, s, BeginVerify(WHO, at));
      var s' := Step(p, s1, FinishVerify(last.id, false, false, at));
      && s1.clock == at && s1.hashing == s.hashing && s1.comparing == s.comparing + multiset{last.id}
      && s'.clock == at && s'.hashing == s.hashing && s'.comparing == s.comparing
      && Fresh(p, s', created, k + 1)
      && s'.claims == s.claims + [Claim(last.id, WHO, created, at)]
      && Misses(s'.rows, WHO, 1) == Misses(s.rows, WHO, 1) + if created >= 1 then 1 else 0
  {
    hide Misses, Claimed;
    var i := |s.rows| - 1;
    NewestIsLatest(p, s, at);
    MissesClaimed(p, s.rows, s.nextId, s.clock, i, at, WHO, 1);
  }

  lemma NewestIsLatest(p: Params, s: State, at: int)
    requires s.rows != [] && TableOk(p, s.rows, s.nextId, s.clock) && s.clock <= at
    requires s.rows[|s.rows| - 1].email == WHO && Claimable(s.rows[|s.rows| - 1], p.attempts, at)
    ensures Latest(s.rows, WHO, p.attempts, at) == Some(s.rows[|s.rows| - 1])
  {
    hide Latest, TableOk, Misses;
    var last := s.rows[|s.rows| - 1];
    var found := Latest(s.rows, WHO, p.attempts, at);
    assert last in s.rows;
    var i :| 0 <= i < |s.rows| && s.rows[i] == found.value;
    if i < |s.rows| - 1 {
      TablePair(p, s.rows, s.nextId, s.clock, i, |s.rows| - 1);
    }
  }

  /** Guess `n` times at the newest code, one comparison ending before the next begins. */
  lemma {:induction false} GuessMany(p: Params, es: seq<Event>, created: int, at: int, n: nat, fresh_: nat, ofOld: nat)
    returns (es': seq<Event>)
    requires Sensible(p) && Stands(p, es, fresh_, ofOld) && Fresh(p, Run(p, 0, es), created, 0) && n <= p.attempts
    requires Run(p, 0, es).clock <= at < created + p.expiry && 1 < at <= 1 + p.window
    ensures Stands(p, es', if created >= 1 then fresh_ + n else fresh_, if created >= 1 then ofOld else ofOld + n)
    ensures Fresh(p, Run(p, 0, es'), created, n) && Run(p, 0, es').clock <= at
  {
    hide Step, Run, InTime, Misses, GuessesIn, TableOk, Inv, Fresh, OneAtATime;
    if n == 0 {
      es' := es;
    } else {
      var before := GuessMany(p, es, created, at, n - 1, fresh_, ofOld);
      var s := Run(p, 0, before);
      RunInv(p, 0, before);
      InvTable(p, s);
      GuessOne(p, s, created, n - 1, at);
      var e1, e2 := BeginVerify(WHO, at), FinishVerify(s.rows[|s.rows| - 1].id, false, false, at);
      RunMore(p, before, e1);
      RunMore(p, before + [e1], e2);
      StillOneAtATime(p, before, e1);
      StillOneAtATime(p, before + [e1], e2);
      es' := before + [e1] + [e2];
      var c := Run(p, 0, es').claims[|s.claims|];
      GuessesAppend(s.claims, c, WHO, 1, 1 + p.window, false);
      GuessesAppend(s.claims, c, WHO, 1, 1 + p.window, true);
    }
  }

  /** The old code, created at 0 and guessed out at 2. */
  lemma OldCode(p: Params) returns (es: seq<Event>)
    requires Sensible(p) && CodesOutliveWindowStart(p)
    ensures Stands(p, es, 0, p.attempts)
  {
    hide Step, Fresh, LimitReached, TableOk;
    NothingYet(p);
    var issued := Issue(p, [], 0, 0, 0);
    es := GuessMany(p, issued, 0, 2, p.attempts, 0, 0);
  }

  lemma NothingYet(p: Params)
    requires Sensible(p) && p.attempts <= p.draws
    ensures Stands(p, [], 0, 0) && Run(p, 0, []).clock == 0 && !LimitReached(p, Run(p, 0, []).rows, WHO, 0)
  {
  }

  /** Then `n` codes one window later, when the old code no longer counts, each guessed out. */
  lemma {:induction false} NewCodes(p: Params, n: nat) returns (es: seq<Event>)
    requires Sensible(p) && CodesOutliveWindowStart(p) && n * p.attempts <= p.draws
    ensures Stands(p, es, n * p.attempts, p.attempts)
  {
    hide Step, Run, Fresh, InTime, Misses, GuessesIn, TableOk;
    if n == 0 {
      es := OldCode(p);
    } else {
      OneMore(n - 1, p.attempts);
      var before := NewCodes(p, n - 1);
      var at := 1 + p.window;
      assert !LimitReached(p, Run(p, 0, before).rows, WHO, at);
      var issued := Issue(p, before, at, (n - 1) * p.attempts, p.attempts);
      es := GuessMany(p, issued, at, at, p.attempts, (n - 1) * p.attempts, p.attempts);
    }
  }

  lemma OneMore(n: nat, a: nat)
    ensures (n + 1) * a == n * a + a
  {
  }

  lemma WholeBudget(draws: nat, a: nat)
    requires a >= 1
    ensures draws / a * a <= draws < draws / a * a + a
  {
  }

  /** Then a run passes the budget though it never has two handlers suspended. */
  lemma BudgetExceeded(p: Params) returns (es: seq<Event>)
    requires Sensible(p) && CodesOutliveWindowStart(p)
    ensures InTime(p, 0, es) && OneAtATime(p, es) && GuessesInWindow(p, 0, es, WHO, 1) > p.draws
  {
    hide Step, Run, InTime, Misses, GuessesIn, OneAtATime;
    WholeBudget(p.draws, p.attempts);
    es := NewCodes(p, p.draws / p.attempts);
  }

  /** Over every run, address and window, the guesses stay within the draw budget exactly when codes
      are never issued or never outlive the start of a window; `GuessTimeBound` is what holds
      otherwise. */
  lemma WindowBudgetHoldsIff(p: Params)
    requires Sensible(p)
    ensures (forall start, es, email, from :: WithinBudget(p, start, es, email, from))
      <==> !CodesOutliveWindowStart(p)
  {
    hide Sensible, CodesOutliveWindowStart, InTime, Run, GuessesInWindow, OneAtATime;
    if CodesOutliveWindowStart(p) {
      var es := BudgetExceeded(p);
      assert !WithinBudget(p, 0, es, WHO, 1);
    } else {
      forall start, es, email, from ensures WithinBudget(p, start, es, email, from) {
        KeptOtherwise(p, start, es, email, from);
      }
    }
  }
}
