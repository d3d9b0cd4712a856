/** The two writers of a stored password: the sign-in re-hash, which replaces the hash only if it is
    still the one it verified, and the mailed reset, which checks its link again after its awaited
    derivation. Hashes are symbolic: a hash names its password, its salt and its cost, so equal
    hashes are hashes of one password, and a fingerprint stands for its hash. */
module PasswordReset {
  import opened Options

  datatype Hash = Hash(password: string, salt: nat, iters: nat)

  predicate Verifies(password: string, h: Hash) { h.password == password }

  /** `password_hash_is_current`. */
  predicate IsCurrent(h: Hash, configured: nat) { h.iters >= configured }

  datatype Account = Account(hash: Option<Hash>, emailVerified: bool, active: bool)

  /** A mailed link: whose it is, the hash the account had when it was minted, and its expiry. */
  datatype Link = Link(person: nat, fingerprint: Option<Hash>, expires: int)

  type Accounts = map<nat, Account>
  type Links = map<nat, Link>

  /** `persons.replace_password_hash`. */
  predicate StillHolds(accounts: Accounts, person: nat, expected: Hash) {
    person in accounts && accounts[person].hash == Some(expected)
  }

  function WithHash(accounts: Accounts, person: nat, h: Hash): Accounts
    requires person in accounts
  {
    accounts[person := accounts[person].(hash := Some(h))]
  }

  /** Whether a link may be mailed for the account at all. */
  predicate MayReset(accounts: Accounts, person: nat) {
    person in accounts && accounts[person].active && (accounts[person].hash.Some? || accounts[person].emailVerified)
  }

  /** `_reset_token_still_applies`. */
  predicate StillApplies(accounts: Accounts, person: nat, fingerprint: Option<Hash>) {
    MayReset(accounts, person) && accounts[person].hash == fingerprint
  }

  /** `_reset_claims`: what a stored, unexpired link says. */
  function ClaimsOf(links: Links, token: nat, now: int): Option<Link> {
    if token in links && links[token].expires > now then Some(links[token]) else None
  }

  function Unexpired(links: Links, now: int): Links {
    map t | t in links && links[t].expires >= now :: links[t]
  }

  function WithoutLinksOf(links: Links, person: nat): Links {
    map t | t in links && links[t].person != person :: links[t]
  }

  // ------------------------------------------------------------------
  // The tables
  // ------------------------------------------------------------------

  class Store {
    var accounts: Accounts
    var links: Links

    constructor ()
      ensures accounts == map[] && links == map[]
    {
      accounts, links := map[], map[];
    }

    /** The conditional update the re-hash relies on. */
    method ReplacePasswordHash(person: nat, expected: Hash, new_: Hash) returns (replaced: bool)
      modifies this`accounts
      ensures replaced <==> StillHolds(old(accounts), person, expected)
      ensures accounts == if replaced then WithHash(old(accounts), person, new_) else old(accounts)
    {
      if person !in accounts || accounts[person].hash != Some(expected) {
        return false;
      }
      accounts := accounts[person := accounts[person].(hash := Some(new_))];
      return true;
    }

    /** `_issue_reset_token`, for an account a link may be mailed to. */
    method IssueResetToken(person: nat, token: nat, ttl: int, now: int)
      requires person in accounts
      modifies this`links
      ensures links == Unexpired(old(links), now)[token := Link(person, accounts[person].hash, now + ttl)]
    {
      links := map t | t in links && links[t].expires >= now :: links[t];
      links := links[token := Link(person, accounts[person].hash, now + ttl)];
    }

    /** `_reset_claims`. */
    method ResetClaims(token: nat, now: int) returns (claims: Option<Link>)
      ensures claims == ClaimsOf(links, token, now)
    {
      if token !in links || links[token].expires <= now {
        return None;
      }
      return Some(links[token]);
    }

    /** The end of `password_reset_confirm`: check again, set the password, drop every link. */
    method CommitReset(person: nat, fingerprint: Option<Hash>, new_: Hash) returns (reset: bool)
      modifies this
      ensures reset <==> StillApplies(old(accounts), person, fingerprint)
      ensures accounts == if reset then WithHash(old(accounts), person, new_) else old(accounts)
      ensures links == if reset then WithoutLinksOf(old(links), person) else old(links)
    {
      if !StillApplies(accounts, person, fingerprint) {
        return false;
      }
      accounts := accounts[person := accounts[person].(hash := Some(new_))];
      links := map t | t in links && links[t].person != person :: links[t];
      return true;
    }
  }

  // ------------------------------------------------------------------
  // Interleavings, one step per stretch between awaits
  // ------------------------------------------------------------------

  /** A handler suspended at a derivation, with what it carries across it. */
  datatype Task =
    | Verifying(person: nat, password: string, stored: Hash)
    | Rehashing(person: nat, password: string, verified: Hash)
    | Resetting(person: nat, token: nat, fingerprint: Option<Hash>, newPassword: string)

  /** A reset that set a password; `minted` is how many links had been minted by then. */
  datatype Commit = Commit(token: nat, person: nat, password: string, minted: nat)

  datatype State = State(
    accounts: Accounts, links: Links, tasks: multiset<Task>,
    minted: seq<Link>, nextSalt: nat, commits: seq<Commit>)

  datatype Event =
    | Register(person: nat, chosen: Option<string>, emailVerified: bool, iters: nat)
    | SetFlags(person: nat, emailVerified: bool, active: bool)
    | SignIn(person: nat, password: string)
    | SignInVerified(task: Task, configured: nat)
    | RehashDerived(task: Task, iters: nat)
    | RequestReset(person: nat, ttl: int, now: int)
    | ConfirmReset(token: nat, newPassword: string, now: int)
    | ResetDerived(task: Task, iters: nat)

  function Start(): State { State(map[], map[], multiset{}, [], 0, []) }

  function Step(s: State, e: Event): State {
    match e
    case Register(person, chosen, emailVerified, iters) =>
      if person in s.accounts then s
      else
        var hash := if chosen.Some? then Some(Hash(chosen.value, s.nextSalt, iters)) else None;
        s.(accounts := s.accounts[person := Account(hash, emailVerified, true)], nextSalt := s.nextSalt + 1)
    case SetFlags(person, emailVerified, active) =>
      if person !in s.accounts then s
      else s.(accounts := s.accounts[person := Account(s.accounts[person].hash, emailVerified, active)])
    case SignIn(person, password) =>
      if person !in s.accounts || s.accounts[person].hash.None? then s
      else s.(tasks := s.tasks + multiset{Verifying(person, password, s.accounts[person].hash.value)})
    case SignInVerified(task, configured) =>
      if task !in s.tasks || !task.Verifying? then s
      else
        var t := s.(tasks := s.tasks - multiset{task});
        if Verifies(task.password, task.stored) && !IsCurrent(task.stored, configured)
        then t.(tasks := t.tasks + multiset{Rehashing(task.person, task.password, task.stored)}) else t
    case RehashDerived(task, iters) =>
      if task !in s.tasks || !task.Rehashing? then s
      else
        var t := s.(tasks := s.tasks - multiset{task}, nextSalt := s.nextSalt + 1);
        if StillHolds(s.accounts, task.person, task.verified)
        then t.(accounts := WithHash(s.accounts, task.person, Hash(task.password, s.nextSalt, iters))) else t
    case RequestReset(person, ttl, now) =>
      if !MayReset(s.accounts, person) then s
      else
        var link := Link(person, s.accounts[person].hash, now + ttl);
        s.(links := Unexpired(s.links, now)[|s.minted| := link], minted := s.minted + [link])
    case ConfirmReset(token, newPassword, now) =>
      if ClaimsOf(s.links, token, now).None? then s
      else
        var link := ClaimsOf(s.links, token, now).value;
        if !StillApplies(s.accounts, link.person, link.fingerprint) then s
        else s.(tasks := s.tasks + multiset{Resetting(link.person, token, link.fingerprint, newPassword)})
    case ResetDerived(task, iters) =>
      if task !in s.tasks || !task.Resetting? then s
      else
        var t := s.(tasks := s.tasks - multiset{task}, nextSalt := s.nextSalt + 1);
        if !StillApplies(s.accounts, task.person, task.fingerprint) then t
        else t.(
          accounts := WithHash(s.accounts, task.person, Hash(task.newPassword, s.nextSalt, iters)),
          links := WithoutLinksOf(s.links, task.person),
          commits := s.commits + [Commit(task.token, task.person, task.newPassword, |s.minted|)])
  }

  function Run(es: seq<Event>): State {
    if es == [] then Start() else Step(Run(es[..|es| - 1]), es[|es| - 1])
  }

  /** The password an account accepts. */
  function Accepts(s: State, person: nat): Option<string> {
    if person in s.accounts && s.accounts[person].hash.Some? then Some(s.accounts[person].hash.value.password) else None
  }

  // ------------------------------------------------------------------
  // What every step keeps
  // ------------------------------------------------------------------

  /** Made before the next salt is drawn, so no later hash equals it. */
  predicate Drawn(h: Option<Hash>, nextSalt: nat) { h.Some? ==> h.value.salt < nextSalt }

  /** Not the account's hash, and never to be it again. */
  ghost predicate Stale(s: State, person: nat, h: Option<Hash>) {
    person in s.accounts && s.accounts[person].hash != h && Drawn(h, s.nextSalt)
    && (h.None? ==> s.accounts[person].hash.Some?)
  }

  ghost predicate TaskOk(s: State, t: Task) {
    match t
    case Verifying(_, _, stored) => Drawn(Some(stored), s.nextSalt)
    case Rehashing(_, password, verified) => Drawn(Some(verified), s.nextSalt) && Verifies(password, verified)
    case Resetting(person, token, fingerprint, _) =>
      token < |s.minted| && s.minted[token].person == person && s.minted[token].fingerprint == fingerprint
  }

  ghost predicate Inv(s: State) {
    && (forall p :: p in s.accounts ==> Drawn(s.accounts[p].hash, s.nextSalt))
    && (forall k :: 0 <= k < |s.minted| ==> Drawn(s.minted[k].fingerprint, s.nextSalt))
    && (forall t :: t in s.links ==> t < |s.minted| && s.minted[t] == s.links[t])
    && (forall t :: t in s.tasks ==> TaskOk(s, t))
    && (forall c, k :: 0 <= c < |s.commits| && 0 <= k < |s.minted| ==> LinkDead(s, s.commits[c], k))
    && (forall c :: 0 <= c < |s.commits| ==> CommitOk(s, s.commits[c]))
  }

  /** A reset was committed for the account its link was minted for. */
  ghost predicate CommitOk(s: State, c: Commit) {
    c.token < c.minted <= |s.minted| && s.minted[c.token].person == c.person
  }

  /** Every link of the account minted before a reset committed is dead. */
  ghost predicate LinkDead(s: State, c: Commit, k: nat)
    requires k < |s.minted|
  {
    k < c.minted && s.minted[k].person == c.person ==> Stale(s, c.person, s.minted[k].fingerprint)
  }

  /** Later commits name later links: of two resets of one account, the second used a link minted
      after the first. */
  ghost predicate CommitsOrdered(s: State) {
    forall j, k :: 0 <= j < k < |s.commits| && s.commits[j].person == s.commits[k].person ==>
      s.commits[j].minted <= s.commits[k].token
  }

  /** An account's hash after a step: unchanged, or made with the salt just drawn. */
  lemma StepHash(s: State, e: Event, person: nat)
    requires Inv(s) && person in s.accounts
    ensures var s' := Step(s, e);
      && person in s'.accounts && s.nextSalt <= s'.nextSalt
      && (s'.accounts[person].hash == s.accounts[person].hash
          || (s'.accounts[person].hash.Some? && s'.accounts[person].hash.value.salt == s.nextSalt
              && s.nextSalt < s'.nextSalt))
  {
    hide Inv, MayReset, StillApplies, Unexpired, WithoutLinksOf;
  }

  lemma StepStale(s: State, e: Event, person: nat, h: Option<Hash>)
    requires Inv(s) && Stale(s, person, h)
    ensures Stale(Step(s, e), person, h)
  {
    hide Step, Inv;
    StepHash(s, e, person);
  }

  lemma StepKeeps(s: State, e: Event)
    requires Inv(s) && CommitsOrdered(s)
    ensures Inv(Step(s, e)) && CommitsOrdered(Step(s, e))
  {
    hide Step, Stale, TaskOk, LinkDead, Drawn;
    StepSalts(s, e);
    StepTasks(s, e);
    StepCommits(s, e);
  }

  /** Salts are drawn and links minted in order, and neither is taken back. */
  lemma StepGrows(s: State, e: Event)
    ensures var s' := Step(s, e);
      && s.nextSalt <= s'.nextSalt
      && |s.minted| <= |s'.minted| && s'.minted[..|s.minted|] == s.minted
      && (s'.minted == s.minted || (e.RequestReset? && s'.minted == s.minted + [
            Link(e.person, if e.person in s.accounts then s.accounts[e.person].hash else None, e.now + e.ttl)]))
  {
    hide StillHolds, StillApplies, IsCurrent, Verifies, Unexpired, WithoutLinksOf;
  }

  lemma StepSalts(s: State, e: Event)
    requires Inv(s)
    ensures var s' := Step(s, e);
      && (forall p :: p in s'.accounts ==> Drawn(s'.accounts[p].hash, s'.nextSalt))
      && (forall k :: 0 <= k < |s'.minted| ==> Drawn(s'.minted[k].fingerprint, s'.nextSalt))
      && (forall t :: t in s'.links ==> t < |s'.minted| && s'.minted[t] == s'.links[t])
  {
    hide TaskOk, LinkDead, StillApplies, StillHolds, IsCurrent, Verifies, Step;
    var s' := Step(s, e);
    StepGrows(s, e);
    forall p | p in s'.accounts ensures Drawn(s'.accounts[p].hash, s'.nextSalt) {
      AccountSalt(s, e, p);
    }
    forall t | t in s'.links ensures t < |s'.minted| && s'.minted[t] == s'.links[t] {
      LinkMinted(s, e, t);
    }
  }

  lemma AccountSalt(s: State, e: Event, p: nat)
    requires Inv(s) && p in Step(s, e).accounts
    ensures Drawn(Step(s, e).accounts[p].hash, Step(s, e).nextSalt)
  {
    if p in s.accounts {
      StepHash(s, e, p);
    }
    hide Inv, TaskOk, MayReset, StillApplies, StillHolds, Unexpired, WithoutLinksOf;
  }

  lemma LinkMinted(s: State, e: Event, t: nat)
    requires Inv(s) && t in Step(s, e).links
    ensures t < |Step(s, e).minted| && Step(s, e).minted[t] == Step(s, e).links[t]
  {
    hide TaskOk, LinkDead, StillApplies, StillHolds, IsCurrent, Verifies, MayReset, WithHash;
  }

  lemma StepTasks(s: State, e: Event)
    requires Inv(s)
    ensures forall t :: t in Step(s, e).tasks ==> TaskOk(Step(s, e), t)
  {
    hide LinkDead, TaskOk, Step;
    StepGrows(s, e);
    forall t | t in Step(s, e).tasks ensures TaskOk(Step(s, e), t) {
      if t in s.tasks {
        TaskLater(s, Step(s, e), t);
      } else {
        NewTask(s, e, t);
      }
    }
  }

  lemma TaskLater(s: State, s': State, t: Task)
    requires TaskOk(s, t) && s.nextSalt <= s'.nextSalt
    requires |s.minted| <= |s'.minted| && s'.minted[..|s.minted|] == s.minted
    ensures TaskOk(s', t)
  {
    if t.Resetting? {
      assert s'.minted[t.token] == s'.minted[..|s.minted|][t.token];
    }
  }

  lemma NewTask(s: State, e: Event, t: Task)
    requires Inv(s) && t in Step(s, e).tasks && t !in s.tasks
    ensures TaskOk(Step(s, e), t)
  {
    hide LinkDead, StillApplies, StillHolds, IsCurrent, WithoutLinksOf, Unexpired, MayReset;
    assert (e.SignInVerified? || e.RehashDerived? || e.ResetDerived?) && e.task in s.tasks ==> TaskOk(s, e.task);
  }

  lemma StepCommits(s: State, e: Event)
    requires Inv(s) && CommitsOrdered(s)
    ensures var s' := Step(s, e);
      && (forall c, k :: 0 <= c < |s'.commits| && 0 <= k < |s'.minted| ==> LinkDead(s', s'.commits[c], k))
      && (forall c :: 0 <= c < |s'.commits| ==> CommitOk(s', s'.commits[c]))
      && CommitsOrdered(s')
  {
    hide Step, Stale, LinkDead, TaskOk, Drawn;
    var s' := Step(s, e);
    StepGrows(s, e);
    forall c | 0 <= c < |s.commits| ensures CommitOk(s', s.commits[c]) {
      CommitLater(s, s', s.commits[c]);
    }
    forall c, k | 0 <= c < |s.commits| && 0 <= k < |s'.minted| ensures LinkDead(s', s.commits[c], k) {
      OldCommit(s, e, c, k);
    }
    if s'.commits != s.commits {
      StepCommitsGrow(s, e);
      NewCommit(s, e);
    }
  }

  lemma CommitLater(s: State, s': State, c: Commit)
    requires CommitOk(s, c) && |s.minted| <= |s'.minted| && s'.minted[..|s.minted|] == s.minted
    ensures CommitOk(s', c)
  {
    assert s'.minted[c.token] == s'.minted[..|s.minted|][c.token];
  }

  lemma StepCommitsGrow(s: State, e: Event)
    ensures Step(s, e).commits == s.commits || |Step(s, e).commits| > |s.commits|
  {}

  lemma OldCommit(s: State, e: Event, c: int, k: nat)
    requires Inv(s) && 0 <= c < |s.commits| && k < |Step(s, e).minted|
    ensures LinkDead(Step(s, e), s.commits[c], k)
  {
    if k < |s.minted| && k < s.commits[c].minted && s.minted[k].person == s.commits[c].person {
      assert LinkDead(s, s.commits[c], k);
      StepStale(s, e, s.commits[c].person, s.minted[k].fingerprint);
    }
  }

  lemma NewCommit(s: State, e: Event)
    requires Inv(s) && CommitsOrdered(s) && |Step(s, e).commits| > |s.commits|
    ensures var s' := Step(s, e); var c := s'.commits[|s.commits|];
      && s'.commits == s.commits + [c] && CommitOk(s', c)
      && (forall k :: 0 <= k < |s'.minted| ==> LinkDead(s', c, k))
      && (forall j :: 0 <= j < |s.commits| && s.commits[j].person == c.person ==> s.commits[j].minted <= c.token)
  {
    var s' := Step(s, e);
    var c := s'.commits[|s.commits|];
    assert TaskOk(s, e.task);
    forall j | 0 <= j < |s.commits| && s.commits[j].person == c.person ensures s.commits[j].minted <= c.token {
      assert LinkDead(s, s.commits[j], c.token);
    }
  }

  lemma {:induction false} RunInv(es: seq<Event>)
    ensures Inv(Run(es)) && CommitsOrdered(Run(es))
  {
    hide Step;
    if es != [] {
      RunInv(es[..|es| - 1]);
      StepKeeps(Run(es[..|es| - 1]), es[|es| - 1]);
    }
  }

  // ------------------------------------------------------------------
  // Over whole runs
  // ------------------------------------------------------------------

  /** No link minted before a reset committed for its account sets a password after it; and no link
      at all sets two. */
  lemma ResetUsesALaterLink(es: seq<Event>)
    ensures var commits := Run(es).commits;
      forall j, k :: 0 <= j < k < |commits| ==>
        && commits[j].token != commits[k].token
        && (commits[j].person == commits[k].person ==> commits[j].token < commits[j].minted <= commits[k].token)
  {
    hide Step, Run, LinkDead, TaskOk, Drawn;
    RunInv(es);
    var s := Run(es);
    forall j, k | 0 <= j < k < |s.commits| && s.commits[j].token == s.commits[k].token
      ensures s.commits[j].person == s.commits[k].person
    {
      assert CommitOk(s, s.commits[j]) && CommitOk(s, s.commits[k]);
    }
  }

  /** One step changes the password an account accepts only by committing a reset for it, and then
      the password is the one the reset's link holder sent. */
  lemma StepAccepts(s: State, e: Event, person: nat)
    requires Inv(s) && person in s.accounts
    ensures var s' := Step(s, e);
      if s'.commits != s.commits && s'.commits[|s'.commits| - 1].person == person
      then Accepts(s', person) == Some(s'.commits[|s'.commits| - 1].password)
      else Accepts(s', person) == Accepts(s, person)
  {
    hide Inv, Step, Accepts;
    if e.RehashDerived? {
      RehashAccepts(s, e, person);
    } else {
      OthersAccept(s, e, person);
    }
  }

  /** A re-hash is of the password it verified, so it leaves an account accepting what it did. */
  lemma RehashAccepts(s: State, e: Event, person: nat)
    requires e.RehashDerived? && Inv(s) && person in s.accounts
    ensures Step(s, e).commits == s.commits && Accepts(Step(s, e), person) == Accepts(s, person)
  {
    hide LinkDead, Drawn;
    if e.task in s.tasks {
      assert TaskOk(s, e.task);
    }
  }

  lemma OthersAccept(s: State, e: Event, person: nat)
    requires !e.RehashDerived? && person in s.accounts
    ensures var s' := Step(s, e);
      if s'.commits != s.commits && s'.commits[|s'.commits| - 1].person == person
      then Accepts(s', person) == Some(s'.commits[|s'.commits| - 1].password)
      else Accepts(s', person) == Accepts(s, person)
  {
    hide Step;
    if e.ResetDerived? {
      ResetAccepts(s, e, person);
    } else {
      OthersKeep(s, e, person);
      CommitsByReset(s, e);
    }
  }

  lemma ResetAccepts(s: State, e: Event, person: nat)
    requires e.ResetDerived? && person in s.accounts
    ensures var s' := Step(s, e);
      if s'.commits != s.commits && s'.commits[|s'.commits| - 1].person == person
      then Accepts(s', person) == Some(s'.commits[|s'.commits| - 1].password)
      else Accepts(s', person) == Accepts(s, person)
  {
    hide MayReset, StillApplies, WithoutLinksOf;
  }

  lemma CommitsByReset(s: State, e: Event)
    requires !e.ResetDerived?
    ensures Step(s, e).commits == s.commits
  {
    hide MayReset, StillApplies, StillHolds, Unexpired, IsCurrent, Verifies, ClaimsOf;
  }

  /** The password set by the last reset committed for the account among `commits`, if any. */
  function LastReset(commits: seq<Commit>, person: nat): Option<string> {
    if commits == [] then None
    else if commits[|commits| - 1].person == person then Some(commits[|commits| - 1].password)
    else LastReset(commits[..|commits| - 1], person)
  }

  /** Over any interleaving, an account accepts the password of the last reset committed for it since
      a given moment, or the one it accepted then: re-hashes never change it. */
  lemma {:induction false} AcceptsLastReset(es: seq<Event>, more: seq<Event>, person: nat)
    requires person in Run(es).accounts
    ensures var before, after := Run(es), Run(es + more);
      && person in after.accounts && before.commits <= after.commits
      && Accepts(after, person) ==
           var reset := LastReset(after.commits[|before.commits|..], person);
           if reset.Some? then reset else Accepts(before, person)
  {
    hide Step, Inv, Accepts, LastReset;
    if more == [] {
      assert es + more == es;
      assert Run(es).commits[|Run(es).commits|..] == [];
      NoReset(person);
    } else {
      var front, e := more[..|more| - 1], more[|more| - 1];
      assert (es + more)[..|es + more| - 1] == es + front;
      AcceptsLastReset(es, front, person);
      RunInv(es + front);
      var before, s := Run(es), Run(es + front);
      StepHash(s, e, person);
      StepAccepts(s, e, person);
      StepCommitsByOne(s, e);
      var s' := Step(s, e);
      var n := |before.commits|;
      if s'.commits != s.commits {
        assert s'.commits[n..] == s.commits[n..] + [s'.commits[|s.commits|]];
        OneMoreReset(s.commits[n..], s'.commits[|s.commits|], person);
      }
    }
  }

  lemma NoReset(person: nat)
    ensures LastReset([], person) == None
  {}

  lemma OneMoreReset(commits: seq<Commit>, c: Commit, person: nat)
    ensures LastReset(commits + [c], person)
      == if c.person == person then Some(c.password) else LastReset(commits, person)
  {
    assert (commits + [c])[..|commits|] == commits;
  }

  lemma StepCommitsByOne(s: State, e: Event)
    ensures var s' := Step(s, e);
      s'.commits == s.commits || (|s'.commits| == |s.commits| + 1 && s'.commits[..|s.commits|] == s.commits)
  {}

  // ------------------------------------------------------------------
  // Who a reset answers to, and when
  // ------------------------------------------------------------------

  /** The k-th link was asked for by the i-th event, which fixes whose it is and when it expires. */
  ghost predicate AskedFor(es: seq<Event>, minted: seq<Link>, k: nat, i: nat)
    requires k < |minted| && i < |es|
  {
    es[i].RequestReset? && es[i].person == minted[k].person && minted[k].expires == es[i].now + es[i].ttl
  }

  /** The j-th event confirmed the link before it expired, and sent this password. */
  ghost predicate ConfirmedInTime(es: seq<Event>, minted: seq<Link>, k: nat, chosen: string, j: nat)
    requires k < |minted| && j < |es|
  {
    es[j].ConfirmReset? && es[j].token == k && es[j].newPassword == chosen && es[j].now < minted[k].expires
  }

  ghost predicate Asked(es: seq<Event>, minted: seq<Link>, k: nat) {
    k < |minted| && exists i :: 0 <= i < |es| && AskedFor(es, minted, k, i)
  }

  ghost predicate EachAskedFor(es: seq<Event>, minted: seq<Link>) {
    forall k :: 0 <= k < |minted| ==> Asked(es, minted, k)
  }

  ghost predicate Confirmed(es: seq<Event>, minted: seq<Link>, k: nat, chosen: string) {
    k < |minted| && exists j :: 0 <= j < |es| && ConfirmedInTime(es, minted, k, chosen, j)
  }

  /** Every suspended reset, and every committed one, was confirmed in time with its password. */
  ghost predicate ResetsConfirmed(es: seq<Event>, s: State) {
    && (forall t :: t in s.tasks && t.Resetting? ==> Confirmed(es, s.minted, t.token, t.newPassword))
    && (forall c :: 0 <= c < |s.commits| ==> Confirmed(es, s.minted, s.commits[c].token, s.commits[c].password))
  }

  lemma ConfirmedLater(es: seq<Event>, e: Event, minted: seq<Link>, minted': seq<Link>, k: nat, chosen: string)
    requires Confirmed(es, minted, k, chosen) && minted <= minted'
    ensures Confirmed(es + [e], minted', k, chosen)
  {
    var j :| 0 <= j < |es| && ConfirmedInTime(es, minted, k, chosen, j);
    assert ConfirmedInTime(es + [e], minted', k, chosen, j);
  }

  lemma AskedLater(es: seq<Event>, e: Event, minted: seq<Link>, minted': seq<Link>, k: nat)
    requires Asked(es, minted, k) && minted <= minted'
    ensures Asked(es + [e], minted', k)
  {
    var i :| 0 <= i < |es| && AskedFor(es, minted, k, i);
    assert AskedFor(es + [e], minted', k, i);
  }

  lemma JustAsked(es: seq<Event>, e: Event, minted: seq<Link>)
    requires minted != [] && e.RequestReset? && minted[|minted| - 1].person == e.person
    requires minted[|minted| - 1].expires == e.now + e.ttl
    ensures Asked(es + [e], minted, |minted| - 1)
  {
    assert AskedFor(es + [e], minted, |minted| - 1, |es|);
  }

  /** A step starts a reset only by a confirmation of a stored link before it expires. */
  lemma StepConfirms(s: State, e: Event, t: Task)
    requires Inv(s) && t in Step(s, e).tasks && t.Resetting? && t !in s.tasks
    ensures e.ConfirmReset? && t.token == e.token < |s.minted| && t.newPassword == e.newPassword
    ensures e.now < s.minted[e.token].expires
  {
    hide TaskOk, LinkDead, CommitOk, Drawn, StillApplies, StillHolds, IsCurrent, Verifies, Unexpired, WithoutLinksOf;
  }

  /** And commits one only that was suspended. */
  lemma StepCommitted(s: State, e: Event)
    ensures var s' := Step(s, e);
      s'.commits == s.commits
      || (e.ResetDerived? && e.task in s.tasks && e.task.Resetting?
          && s'.commits == s.commits + [Commit(e.task.token, e.task.person, e.task.newPassword, |s.minted|)])
  {
    hide StillApplies, StillHolds, IsCurrent, Verifies, Unexpired, WithoutLinksOf;
  }

  lemma {:induction false} RunResets(es: seq<Event>)
    ensures ResetsConfirmed(es, Run(es)) && EachAskedFor(es, Run(es).minted)
  {
    hide Step, ResetsConfirmed, EachAskedFor, Inv;
    if es == [] {
      NothingReset();
    } else {
      var front, e := es[..|es| - 1], es[|es| - 1];
      assert es == front + [e];
      RunResets(front);
      RunInv(front);
      StepAsked(front, e, Run(front));
      StepConfirmed(front, e, Run(front));
    }
  }

  lemma StepAsked(front: seq<Event>, e: Event, s: State)
    requires EachAskedFor(front, s.minted)
    ensures EachAskedFor(front + [e], Step(s, e).minted)
  {
    hide Step, Asked;
    StepGrows(s, e);
    var minted := Step(s, e).minted;
    forall k | 0 <= k < |minted| ensures Asked(front + [e], minted, k) {
      if k < |s.minted| {
        AskedLater(front, e, s.minted, minted, k);
      } else {
        JustAsked(front, e, minted);
      }
    }
  }

  lemma StepConfirmed(front: seq<Event>, e: Event, s: State)
    requires Inv(s) && ResetsConfirmed(front, s)
    ensures ResetsConfirmed(front + [e], Step(s, e))
  {
    hide Step, Confirmed, Inv;
    var s' := Step(s, e);
    StepGrows(s, e);
    StepCommitted(s, e);
    forall k, chosen | Confirmed(front, s.minted, k, chosen) ensures Confirmed(front + [e], s'.minted, k, chosen) {
      ConfirmedLater(front, e, s.minted, s'.minted, k, chosen);
    }
    forall t | t in s'.tasks && t.Resetting? && t !in s.tasks
      ensures Confirmed(front + [e], s'.minted, t.token, t.newPassword)
    {
      StepConfirms(s, e, t);
      JustConfirmed(front, e, s'.minted, t.token, t.newPassword);
    }
  }

  lemma JustConfirmed(front: seq<Event>, e: Event, minted: seq<Link>, k: nat, chosen: string)
    requires e.ConfirmReset? && e.token == k < |minted| && e.newPassword == chosen && e.now < minted[k].expires
    ensures Confirmed(front + [e], minted, k, chosen)
  {
    assert ConfirmedInTime(front + [e], minted, k, chosen, |front|);
  }

  lemma NothingReset()
    ensures ResetsConfirmed([], Start()) && EachAskedFor([], Start().minted)
  {}

  /** The i-th event asked for the link and the j-th confirmed it, with the password the reset set, and
      before the lifetime it was asked for with had passed. */
  ghost predicate AskedAndConfirmed(es: seq<Event>, c: Commit, i: nat, j: nat)
    requires i < |es| && j < |es|
  {
    && es[i].RequestReset? && es[i].person == c.person
    && es[j].ConfirmReset? && es[j].token == c.token && es[j].newPassword == c.password
    && es[j].now < es[i].now + es[i].ttl
  }

  /** So it is, over any interleaving, with every reset committed. */
  lemma ResetsAreConfirmedInTime(es: seq<Event>, c: nat)
    requires c < |Run(es).commits|
    ensures exists i, j :: 0 <= i < |es| && 0 <= j < |es| && AskedAndConfirmed(es, Run(es).commits[c], i, j)
  {
    hide Step, Run, LinkDead, TaskOk, Drawn;
    RunResets(es);
    RunInv(es);
    var s := Run(es);
    var commit := s.commits[c];
    assert CommitOk(s, commit);
    assert Asked(es, s.minted, commit.token) && Confirmed(es, s.minted, commit.token, commit.password);
    var j :| 0 <= j < |es| && ConfirmedInTime(es, s.minted, commit.token, commit.password, j);
    var i :| 0 <= i < |es| && AskedFor(es, s.minted, commit.token, i);
    assert AskedAndConfirmed(es, commit, i, j);
  }

  // ------------------------------------------------------------------
  // A link that still applies is honoured
  // ------------------------------------------------------------------

  /** What takes a stored link away: expired links going when another is asked for, or a reset of its
      account. */
  predicate Discards(s: State, e: Event, token: nat)
    requires token in s.links
  {
    || (e.RequestReset? && s.links[token].expires < e.now)
    || (|Step(s, e).commits| > |s.commits| && Step(s, e).commits[|s.commits|].person == s.links[token].person)
  }

  lemma LinkStays(s: State, e: Event, token: nat)
    requires Inv(s) && token in s.links && !Discards(s, e, token)
    ensures token in Step(s, e).links && Step(s, e).links[token] == s.links[token]
  {
    hide LinkDead, TaskOk, CommitOk, Drawn, StillApplies, StillHolds, IsCurrent, Verifies;
  }

  /** A committed reset leaves no link of its account stored, and every link of another. */
  lemma CommitDropsLinks(s: State, e: Event, token: nat)
    requires |Step(s, e).commits| > |s.commits| && token in s.links
    ensures token in Step(s, e).links <==> s.links[token].person != Step(s, e).commits[|s.commits|].person
  {
    hide StillApplies;
  }

  /** A link is stored when it is mailed, naming the hash the account has then; it is mailed exactly for
      an active account that has a password or a confirmed address. */
  lemma MailedIff(s: State, person: nat, ttl: int, now: int)
    ensures var s' := Step(s, RequestReset(person, ttl, now));
      if person in s.accounts && s.accounts[person].active
         && (s.accounts[person].hash.Some? || s.accounts[person].emailVerified)
      then |s.minted| in s'.links && s'.links[|s.minted|] == Link(person, s.accounts[person].hash, now + ttl)
           && |s'.minted| == |s.minted| + 1
      else s' == s
  {
    hide Unexpired;
  }

  /** The two that write a password leave the account's standing, and every other account. */
  lemma PasswordWriteKeeps(s: State, e: Event, person: nat)
    requires (e.RehashDerived? || e.ResetDerived?) && person in s.accounts
    ensures var s' := Step(s, e);
      && person in s'.accounts
      && s'.accounts[person].(hash := None) == s.accounts[person].(hash := None)
      && (s'.accounts[person] != s.accounts[person] ==> e.task.person == person)
  {
    hide MayReset, StillApplies, StillHolds, WithoutLinksOf;
  }

  lemma OthersKeep(s: State, e: Event, person: nat)
    requires !e.RehashDerived? && !e.ResetDerived? && person in s.accounts
    ensures var s' := Step(s, e);
      && person in s'.accounts
      && s'.accounts[person] ==
           if e.SetFlags? && e.person == person then Account(s.accounts[person].hash, e.emailVerified, e.active)
           else s.accounts[person]
  {
    hide MayReset, StillApplies, Unexpired, IsCurrent, Verifies, ClaimsOf;
  }

  /** No step closes an account; only the operator's changes its standing; and its hash is changed by
      a re-hash or a reset of its own alone. */
  lemma OnlyHashesChange(s: State, e: Event, person: nat)
    requires person in s.accounts
    ensures var s' := Step(s, e);
      && person in s'.accounts
      && (var was, is_ := s.accounts[person], s'.accounts[person];
          && (if e.SetFlags? && e.person == person
              then is_.emailVerified == e.emailVerified && is_.active == e.active
              else is_.emailVerified == was.emailVerified && is_.active == was.active)
          && (is_.hash != was.hash ==> (e.RehashDerived? || e.ResetDerived?) && e.task.person == person))
  {
    hide Step;
    if e.RehashDerived? || e.ResetDerived? {
      PasswordWriteKeeps(s, e, person);
    } else {
      OthersKeep(s, e, person);
    }
  }

  /** A registration opens the account, active, with the password chosen. */
  lemma RegisterOpens(s: State, person: nat, chosen: Option<string>, emailVerified: bool, iters: nat)
    requires person !in s.accounts
    ensures var s' := Step(s, Register(person, chosen, emailVerified, iters));
      && person in s'.accounts && s'.accounts[person].active && s'.accounts[person].emailVerified == emailVerified
      && Accepts(s', person) == chosen
  {}

  /** No event of `more` discards the link while it is stored. */
  ghost predicate NeverDiscarded(es: seq<Event>, more: seq<Event>, token: nat) {
    more == [] ||
    var front, e := more[..|more| - 1], more[|more| - 1];
    && NeverDiscarded(es, front, token)
    && (token in Run(es + front).links ==> !Discards(Run(es + front), e, token))
  }

  lemma {:induction false} LinkStaysStored(es: seq<Event>, more: seq<Event>, token: nat)
    requires token in Run(es).links && NeverDiscarded(es, more, token)
    ensures token in Run(es + more).links && Run(es + more).links[token] == Run(es).links[token]
  {
    hide Step, Discards, Inv;
    if more == [] {
      assert es + more == es;
    } else {
      var front, e := more[..|more| - 1], more[|more| - 1];
      assert (es + more)[..|es + more| - 1] == es + front;
      LinkStaysStored(es, front, token);
      RunInv(es + front);
      LinkStays(Run(es + front), e, token);
    }
  }

  /** The account a stored link is of has not changed password since, and may have one set by mail. */
  predicate LinkApplies(s: State, token: nat)
    requires token in s.links
  {
    var link := s.links[token];
    && link.person in s.accounts && s.accounts[link.person].active
    && s.accounts[link.person].hash == link.fingerprint
    && (s.accounts[link.person].hash.Some? || s.accounts[link.person].emailVerified)
  }

  /** A confirmation begins a reset exactly when its link is stored, not yet expired and applies; and
      nothing else changes. */
  lemma ConfirmBeginsIff(s: State, token: nat, chosen: string, now: int)
    ensures var s' := Step(s, ConfirmReset(token, chosen, now));
      if token in s.links && now < s.links[token].expires && LinkApplies(s, token)
      then s' == s.(tasks := s.tasks
             + multiset{Resetting(s.links[token].person, token, s.links[token].fingerprint, chosen)})
      else s' == s
  {}

  /** Its derivation done, the reset commits exactly when the link still applies to the account then. */
  lemma ResetCommitsIff(s: State, task: Task, iters: nat)
    requires task in s.tasks && task.Resetting?
    ensures var s' := Step(s, ResetDerived(task, iters));
      if task.person in s.accounts && s.accounts[task.person].active
         && s.accounts[task.person].hash == task.fingerprint
         && (s.accounts[task.person].hash.Some? || s.accounts[task.person].emailVerified)
      then Accepts(s', task.person) == Some(task.newPassword)
           && s'.commits == s.commits + [Commit(task.token, task.person, task.newPassword, |s.minted|)]
      else s'.commits == s.commits && s'.accounts == s.accounts && s'.links == s.links
  {
    hide WithoutLinksOf;
  }

  /** End to end: a link mailed for an account, and not discarded since, sets the password its holder
      chooses when it is confirmed before it expires and the account still answers to it. */
  lemma LiveLinkSetsPassword(
    es: seq<Event>, more: seq<Event>, person: nat, ttl: int, asked: int, chosen: string, now: int, iters: nat)
    requires var s := Run(es);
      person in s.accounts && s.accounts[person].active
      && (s.accounts[person].hash.Some? || s.accounts[person].emailVerified)
    requires var token, mailed := |Run(es).minted|, es + [RequestReset(person, ttl, asked)];
      && NeverDiscarded(mailed, more, token)
      && now < asked + ttl
      && var t := Run(mailed + more);
           person in t.accounts && t.accounts[person].active && t.accounts[person].hash == Run(es).accounts[person].hash
           && (t.accounts[person].hash.Some? || t.accounts[person].emailVerified)
    ensures var token, before := |Run(es).minted|, es + [RequestReset(person, ttl, asked)] + more;
      var task := Resetting(person, token, Run(es).accounts[person].hash, chosen);
      Accepts(Run(before + [ConfirmReset(token, chosen, now)] + [ResetDerived(task, iters)]), person) == Some(chosen)
  {
    hide Step, Inv, Discards, Accepts, NeverDiscarded, Run;
    var token, asking := |Run(es).minted|, RequestReset(person, ttl, asked);
    MailedIff(Run(es), person, ttl, asked);
    RunOneMore(es, asking);
    LinkStaysStored(es + [asking], more, token);
    var before := es + [asking] + more;
    var confirm := ConfirmReset(token, chosen, now);
    ConfirmBeginsIff(Run(before), token, chosen, now);
    RunOneMore(before, confirm);
    var task := Resetting(person, token, Run(es).accounts[person].hash, chosen);
    ResetCommitsIff(Run(before + [confirm]), task, iters);
    RunOneMore(before + [confirm], ResetDerived(task, iters));
  }

  lemma RunOneMore(es: seq<Event>, e: Event)
    ensures Run(es + [e]) == Step(Run(es), e)
  {
    hide Step;
    assert (es + [e])[..|es|] == es;
  }

  // ------------------------------------------------------------------
  // The re-hash
  // ------------------------------------------------------------------

  /** A sign-in is verified exactly where there is a hash, against the one stored then. */
  lemma SignInVerifiesIff(s: State, person: nat, password: string)
    ensures Step(s, SignIn(person, password)) ==
      if person in s.accounts && s.accounts[person].hash.Some?
      then s.(tasks := s.tasks + multiset{Verifying(person, password, s.accounts[person].hash.value)}) else s
  {}

  /** A verified sign-in goes on to a re-hash exactly when the password is the stored hash's and that
      was derived at fewer rounds than are configured. */
  lemma RehashBeginsIff(s: State, task: Task, configured: nat)
    requires task in s.tasks && task.Verifying?
    ensures var s' := Step(s, SignInVerified(task, configured));
      s'.tasks == s.tasks - multiset{task}
        + (if task.password == task.stored.password && task.stored.iters < configured
           then multiset{Rehashing(task.person, task.password, task.stored)} else multiset{})
  {
    assert s.tasks - multiset{task} + multiset{} == s.tasks - multiset{task};
  }

  /** The new hash replaces the old exactly when that is still the one verified; it is of the same
      password, at the rounds derived. */
  lemma RehashReplacesIff(s: State, task: Task, iters: nat)
    requires task in s.tasks && task.Rehashing?
    ensures var s' := Step(s, RehashDerived(task, iters));
      if task.person in s.accounts && s.accounts[task.person].hash == Some(task.verified)
      then s'.accounts[task.person].hash == Some(Hash(task.password, s.nextSalt, iters))
           && forall p :: p in s.accounts && p != task.person ==> p in s'.accounts && s'.accounts[p] == s.accounts[p]
      else s'.accounts == s.accounts
  {}
}
