/** The identity rules of `person_service.py`: who a completed sign-in belongs to, and how identities
    are attached to and detached from an account. */
module PersonService {
  import opened Options
  import opened PersonIdentities

  /** `hasPassword` is whether a password hash is stored. Emails are taken as normalised. */
  datatype Person = Person(
    email: Option<string>, emailVerified: bool, name: string, picture: Option<string>, hasPassword: bool)

  /** The two tables; a person's id is its place, so ids are never reused. */
  datatype Tables = Tables(persons: seq<Person>, rows: seq<Row>)

  datatype Outcome =
    | Resolved(person: nat)
    | NotAllowed | LinkRefused | EmailTaken
    | UserNotFound | OtherAccount | OnlySignIn | NoSuchIdentity

  datatype Done = Done(tables: Tables, outcome: Outcome)

  /** What a provider's completed flow asserts; `vouched` is its `email_verified`, and `allowed` the
      operator's allow-list. */
  datatype Assertion = Assertion(
    id: Identity, email: string, vouched: bool, name: string, picture: Option<string>, allowed: bool)

  datatype Event =
    | SignIn(claim: Assertion)
    | Link(person: nat, id: Identity)
    | Unlink(person: nat, id: Identity)
    | CompleteLocal(person: nat)
    | Register(record: Person)
    | Edit(person: nat, record: Person)

  /** `persons.get_by_email`. */
  function Holder(persons: seq<Person>, email: string): (holder: Option<nat>)
    ensures holder.Some? ==> holder.value < |persons| && persons[holder.value].email == Some(email)
    ensures holder.None? ==> forall i :: 0 <= i < |persons| ==> persons[i].email != Some(email)
  {
    if persons == [] then None
    else if persons[|persons| - 1].email == Some(email) then Some(|persons| - 1)
    else Holder(persons[..|persons| - 1], email)
  }

  /** The unique column: no person but `except` has the address. */
  predicate EmailFree(persons: seq<Person>, email: Option<string>, except: nat) {
    email.Some? ==> forall i :: 0 <= i < |persons| && i != except ==> persons[i].email != email
  }

  function DisplayName(name: string): string { if name == "" then "User" else name }

  /** An account the identity already names takes the provider's current address, name and picture. */
  function Refreshed(person: Person, claim: Assertion): Person {
    var addressed := if person.email != Some(claim.email)
      then person.(email := Some(claim.email), emailVerified := claim.vouched) else person;
    addressed.(name := DisplayName(claim.name), picture := claim.picture)
  }

  /** An account joined by its address has only what is empty filled in. */
  function Filled(person: Person, claim: Assertion): Person {
    person.(
      name := if person.name == "" || person.name == "User" then DisplayName(claim.name) else person.name,
      picture := if person.picture in {None, Some("")} && claim.picture !in {None, Some("")}
                 then claim.picture else person.picture)
  }

  /** `get_or_create_user_by_oidc_identity`. */
  function SignInDone(t: Tables, claim: Assertion): Done {
    var named := GetByIdentity(t.rows, claim.id);
    if !claim.allowed then Done(t, NotAllowed)
    else if named.Some? && named.value.person < |t.persons| then
      var who := named.value.person;
      var refreshed := Refreshed(t.persons[who], claim);
      if !EmailFree(t.persons, refreshed.email, who) then Done(t, EmailTaken)
      else Done(t.(persons := t.persons[who := refreshed]), Resolved(who))
    else
      var claimed := if claim.email == "" then None else Holder(t.persons, claim.email);
      if claimed.Some? then
        if !claim.vouched || !t.persons[claimed.value].emailVerified then Done(t, LinkRefused)
        else Done(Tables(t.persons[claimed.value := Filled(t.persons[claimed.value], claim)],
                         t.rows + [Row(claim.id, claimed.value, true)]), Resolved(claimed.value))
      else if !EmailFree(t.persons, Some(claim.email), |t.persons|) then Done(t, EmailTaken)
      else
        var created := Person(Some(claim.email), claim.vouched, DisplayName(claim.name), claim.picture, false);
        Done(Tables(t.persons + [created], t.rows + [Row(claim.id, |t.persons|, true)]), Resolved(|t.persons|))
  }

  /** `link_identity`. */
  function LinkDone(t: Tables, person: nat, id: Identity): Done {
    var owner := GetByIdentity(t.rows, id);
    if owner.Some? then Done(t, if owner.value.person == person then Resolved(person) else OtherAccount)
    else if person >= |t.persons| then Done(t, UserNotFound)
    else Done(t.(rows := t.rows + [Row(id, person, true)]), Resolved(person))
  }

  /** `unlink_identity`. */
  function UnlinkDone(t: Tables, person: nat, id: Identity): Done {
    if person >= |t.persons| then Done(t, UserNotFound)
    else if CountVerified(t.rows, person) - 1 <= 0 && !t.persons[person].hasPassword then Done(t, OnlySignIn)
    else if |Removed(t.rows, person, id)| == |t.rows| then Done(t, NoSuchIdentity)
    else Done(t.(rows := Removed(t.rows, person, id)), Resolved(person))
  }

  /** A person's id, printed. */
  function Printed(person: nat): string {
    (if person < 10 then "" else Printed(person / 10)) + [('0' as int + person % 10) as char]
  }

  /** The account's own local identity. */
  function LocalIdentity(person: nat): Identity { Identity("oidc", "local", Printed(person)) }

  /** The identity row a local sign-in writes before its code is minted. */
  function LocalDone(t: Tables, person: nat): Done {
    var id := LocalIdentity(person);
    if person >= |t.persons| then Done(t, UserNotFound)
    else if GetByIdentity(t.rows, id).Some? then Done(t, Resolved(person))
    else Done(t.(rows := t.rows + [Row(id, person, true)]), Resolved(person))
  }

  /** Registration, and any other change to an account, address and password included. */
  function RegisterDone(t: Tables, record: Person): Done {
    if !EmailFree(t.persons, record.email, |t.persons|) then Done(t, EmailTaken)
    else Done(t.(persons := t.persons + [record]), Resolved(|t.persons|))
  }

  function EditDone(t: Tables, person: nat, record: Person): Done {
    if person >= |t.persons| then Done(t, UserNotFound)
    else if !EmailFree(t.persons, record.email, person) then Done(t, EmailTaken)
    else Done(t.(persons := t.persons[person := record]), Resolved(person))
  }

  function Step(t: Tables, e: Event): Done {
    match e
    case SignIn(claim) => SignInDone(t, claim)
    case Link(person, id) => LinkDone(t, person, id)
    case Unlink(person, id) => UnlinkDone(t, person, id)
    case CompleteLocal(person) => LocalDone(t, person)
    case Register(record) => RegisterDone(t, record)
    case Edit(person, record) => EditDone(t, person, record)
  }

  function Run(es: seq<Event>): Tables {
    if es == [] then Tables([], []) else Step(Run(es[..|es| - 1]), es[|es| - 1]).tables
  }

  // ------------------------------------------------------------------
  // The tables stay sound
  // ------------------------------------------------------------------

  /** Both unique indexes and the foreign key. */
  ghost predicate Sound(t: Tables) {
    && UniqueIds(t.rows)
    && (forall i :: 0 <= i < |t.rows| ==> t.rows[i].person < |t.persons|)
    && (forall i :: 0 <= i < |t.persons| ==> EmailFree(t.persons, t.persons[i].email, i))
  }

  lemma AttachKeeps(t: Tables, row: Row)
    requires Sound(t) && row.person < |t.persons| && GetByIdentity(t.rows, row.id).None?
    ensures Sound(t.(rows := t.rows + [row]))
  {
    hide EmailFree;
  }

  lemma RewriteKeeps(t: Tables, person: nat, record: Person)
    requires Sound(t) && person < |t.persons| && EmailFree(t.persons, record.email, person)
    ensures Sound(t.(persons := t.persons[person := record]))
  {
    var persons := t.persons[person := record];
    forall i | 0 <= i < |persons| ensures EmailFree(persons, persons[i].email, i) {
      assert EmailFree(t.persons, t.persons[i].email, i);
    }
  }

  lemma CreateKeeps(t: Tables, record: Person)
    requires Sound(t) && EmailFree(t.persons, record.email, |t.persons|)
    ensures Sound(t.(persons := t.persons + [record]))
  {
    var persons := t.persons + [record];
    forall i | 0 <= i < |persons| ensures EmailFree(persons, persons[i].email, i) {
      if i < |t.persons| {
        assert EmailFree(t.persons, t.persons[i].email, i);
      }
    }
  }

  lemma SignInKeeps(t: Tables, claim: Assertion)
    requires Sound(t)
    ensures Sound(SignInDone(t, claim).tables)
  {
    hide UniqueIds, EmailFree;
    var named := GetByIdentity(t.rows, claim.id);
    if named.Some? && claim.allowed {
      var i :| 0 <= i < |t.rows| && t.rows[i] == named.value;
      var who := named.value.person;
      if EmailFree(t.persons, Refreshed(t.persons[who], claim).email, who) {
        RewriteKeeps(t, who, Refreshed(t.persons[who], claim));
      }
    } else if claim.allowed {
      var claimed := if claim.email == "" then None else Holder(t.persons, claim.email);
      if claimed.Some? {
        var filled := Filled(t.persons[claimed.value], claim);
        assert EmailFree(t.persons, filled.email, claimed.value);
        RewriteKeeps(t, claimed.value, filled);
        AttachKeeps(t.(persons := t.persons[claimed.value := filled]), Row(claim.id, claimed.value, true));
      } else if EmailFree(t.persons, Some(claim.email), |t.persons|) {
        var created := Person(Some(claim.email), claim.vouched, DisplayName(claim.name), claim.picture, false);
        CreateKeeps(t, created);
        AttachKeeps(t.(persons := t.persons + [created]), Row(claim.id, |t.persons|, true));
      }
    }
  }

  lemma UnlinkKeeps(t: Tables, person: nat, id: Identity)
    requires Sound(t)
    ensures Sound(UnlinkDone(t, person, id).tables)
  {
    hide EmailFree, UniqueIds;
    RemovedIsScoped(t.rows, person, id);
    var left := Removed(t.rows, person, id);
    forall i | 0 <= i < |left| ensures left[i].person < |t.persons| {
      assert left[i] in t.rows;
    }
  }

  lemma StepKeeps(t: Tables, e: Event)
    requires Sound(t)
    ensures Sound(Step(t, e).tables)
  {
    hide Sound, EmailFree, SignInDone, UnlinkDone, UniqueIds;
    match e
    case SignIn(claim) => SignInKeeps(t, claim);
    case Link(person, id) =>
      if GetByIdentity(t.rows, id).None? && person < |t.persons| {
        AttachKeeps(t, Row(id, person, true));
      }
    case Unlink(person, id) => UnlinkKeeps(t, person, id);
    case CompleteLocal(person) =>
      if GetByIdentity(t.rows, LocalIdentity(person)).None? && person < |t.persons| {
        AttachKeeps(t, Row(LocalIdentity(person), person, true));
      }
    case Register(record) =>
      if EmailFree(t.persons, record.email, |t.persons|) {
        CreateKeeps(t, record);
      }
    case Edit(person, record) =>
      if person < |t.persons| && EmailFree(t.persons, record.email, person) {
        RewriteKeeps(t, person, record);
      }
  }

  lemma EmptyIsSound()
    ensures Sound(Tables([], []))
  {
  }

  lemma {:induction false} RunKeeps(es: seq<Event>)
    ensures Sound(Run(es))
  {
    hide Step, Sound;
    if es == [] {
      EmptyIsSound();
    } else {
      RunKeeps(es[..|es| - 1]);
      StepKeeps(Run(es[..|es| - 1]), es[|es| - 1]);
    }
  }

  // ------------------------------------------------------------------
  // What a reader wants to know
  // ------------------------------------------------------------------

  /** Nobody the allow-list leaves out signs in. */
  lemma AllowListDecides(t: Tables, claim: Assertion)
    ensures SignInDone(t, claim).outcome == NotAllowed <==> !claim.allowed
  {
    hide EmailFree;
  }

  /** A refused operation changes nothing. */
  lemma RefusalChangesNothing(t: Tables, e: Event)
    ensures !Step(t, e).outcome.Resolved? ==> Step(t, e).tables == t
  {
    hide EmailFree;
  }

  /** An identity the table names signs in as that person and nobody else, whatever address the
      provider asserts; only the allow-list, or another account holding the asserted address, turns
      it away. */
  lemma NamedIdentitySignsIn(t: Tables, claim: Assertion, person: nat)
    requires Sound(t) && Names(t.rows, claim.id, person)
    ensures SignInDone(t, claim).outcome ==
      if !claim.allowed then NotAllowed
      else if t.persons[person].email != Some(claim.email) && Holder(t.persons, claim.email).Some? then EmailTaken
      else Resolved(person)
    ensures SignInDone(t, claim).tables.rows == t.rows
  {
    LookupFindsNamed(t.rows, claim.id, person);
    assert EmailFree(t.persons, t.persons[person].email, person);
  }

  /** What that sign-in writes: the account follows the provider's address, which counts as confirmed
      only if the provider vouches for it or it has not changed; its password and every other account
      are left alone. */
  lemma NamedSignInWrites(t: Tables, claim: Assertion, person: nat)
    requires Sound(t) && Names(t.rows, claim.id, person) && SignInDone(t, claim).outcome.Resolved?
    ensures var before, after := t.persons, SignInDone(t, claim).tables.persons;
      && |after| == |before| && after[person].email == Some(claim.email)
      && after[person].emailVerified ==
           (if before[person].email == Some(claim.email) then before[person].emailVerified else claim.vouched)
      && after[person].hasPassword == before[person].hasPassword
      && after[person].name == (if claim.name == "" then "User" else claim.name)
      && after[person].picture == claim.picture
      && forall i :: 0 <= i < |before| && i != person ==> after[i] == before[i]
  {
    hide EmailFree;
    LookupFindsNamed(t.rows, claim.id, person);
  }

  /** A sign-in opens an account only for an identity and an address nobody has; it has no password,
      and its address is confirmed only if the provider vouches for it. */
  lemma NewAccountIsUnclaimed(t: Tables, claim: Assertion)
    requires |SignInDone(t, claim).tables.persons| > |t.persons|
    ensures var after := SignInDone(t, claim).tables; var n := |t.persons|;
      && after.persons[..n] == t.persons && |after.persons| == n + 1
      && after.persons[n].email == Some(claim.email) && after.persons[n].emailVerified == claim.vouched
      && !after.persons[n].hasPassword && Names(after.rows, claim.id, n)
      && after.persons[n].name == (if claim.name == "" then "User" else claim.name)
      && after.persons[n].picture == claim.picture
    ensures forall i :: 0 <= i < |t.persons| ==> t.persons[i].email != Some(claim.email)
    ensures Sound(t) ==> forall i :: 0 <= i < |t.rows| ==> t.rows[i].id != claim.id
  {
    hide UniqueIds;
    var rows := SignInDone(t, claim).tables.rows;
    NamesAppended(t.rows, Row(claim.id, |t.persons|, true), claim.id, |t.persons|);
  }

  /** Every operation but an unlink leaves the rows or adds one at the end. */
  lemma RowsOnlyGrow(t: Tables, e: Event)
    requires !e.Unlink?
    ensures var rows := Step(t, e).tables.rows; rows == t.rows || (rows != [] && rows == t.rows + [rows[|rows| - 1]])
  {
    hide EmailFree;
    match e
    case SignIn(claim) =>
    case Link(person, id) =>
    case CompleteLocal(person) =>
    case Register(record) =>
    case Edit(person, record) =>
  }

  /** Attachment survives every operation but an unlink by the person it names. */
  lemma StaysNamed(t: Tables, e: Event, id: Identity, person: nat)
    requires Sound(t) && Names(t.rows, id, person)
    requires !(e == Unlink(person, id) && Step(t, e).outcome.Resolved?)
    ensures Names(Step(t, e).tables.rows, id, person)
  {
    hide SignInDone, UnlinkDone, LinkDone, LocalDone, RegisterDone, EditDone, Names, Sound;
    if e.Unlink? {
      UnlinkStaysNamed(t, e.person, e.id, id, person);
    } else {
      RowsOnlyGrow(t, e);
      var rows := Step(t, e).tables.rows;
      if rows != t.rows {
        NamesAppended(t.rows, rows[|rows| - 1], id, person);
      }
    }
  }

  lemma UnlinkStaysNamed(t: Tables, who: nat, what: Identity, id: Identity, person: nat)
    requires Sound(t) && Names(t.rows, id, person)
    requires !(who == person && what == id && UnlinkDone(t, who, what).outcome.Resolved?)
    ensures Names(UnlinkDone(t, who, what).tables.rows, id, person)
  {
    hide EmailFree, UniqueIds, Names, Removed, CountVerified;
    if !(who == person && what == id) {
      RemovedStillNames(t.rows, who, what, id, person);
    }
  }

  /** The event resolved the identity to the person. */
  ghost predicate Resolves(es: seq<Event>, k: nat, id: Identity, person: nat)
    requires k < |es|
  {
    && Step(Run(es[..k]), es[k]).outcome == Resolved(person)
    && ((es[k].SignIn? && es[k].claim.id == id) || es[k] == Link(person, id))
  }

  ghost predicate Unlinks(es: seq<Event>, k: nat, id: Identity, person: nat)
    requires k < |es|
  {
    es[k] == Unlink(person, id) && Step(Run(es[..k]), es[k]).outcome.Resolved?
  }

  lemma ResolvingNames(t: Tables, e: Event, id: Identity, person: nat)
    requires Sound(t) && Step(t, e).outcome == Resolved(person)
    requires (e.SignIn? && e.claim.id == id) || e == Link(person, id)
    ensures Names(Step(t, e).tables.rows, id, person)
  {
    hide EmailFree;
    LookupFindsNamed(t.rows, id, person);
    NamesAppended(t.rows, Row(id, person, true), id, person);
  }

  lemma {:induction false} NamedUntilUnlinked(es: seq<Event>, j: nat, k: nat, id: Identity, person: nat)
    requires j < k <= |es| && Resolves(es, j, id, person)
    requires forall i :: j < i < k ==> !Unlinks(es, i, id, person)
    ensures Names(Run(es[..k]).rows, id, person)
    decreases k
  {
    hide Step, Names;
    var before := es[..k - 1];
    assert es[..k][..k - 1] == before && es[..k][k - 1] == es[k - 1];
    RunKeeps(before);
    if k == j + 1 {
      ResolvingNames(Run(before), es[j], id, person);
    } else {
      NamedUntilUnlinked(es, j, k - 1, id, person);
      assert !Unlinks(es, k - 1, id, person);
      StaysNamed(Run(before), es[k - 1], id, person);
    }
  }

  /** Once an identity has been resolved to a person, every later sign-in with it is that person's,
      over any run of sign-ins, links, unlinks, registrations and account edits, until that person
      unlinks it. */
  lemma SameIdentitySamePerson(es: seq<Event>, j: nat, k: nat, id: Identity, p: nat, q: nat)
    requires j < k < |es| && Resolves(es, j, id, p) && Resolves(es, k, id, q)
    requires forall i :: j < i < k ==> !Unlinks(es, i, id, p)
    ensures p == q
  {
    hide Step, Names, Sound;
    NamedUntilUnlinked(es, j, k, id, p);
    var t := Run(es[..k]);
    RunKeeps(es[..k]);
    SameAgain(t, es[k], id, p);
  }

  lemma SameAgain(t: Tables, e: Event, id: Identity, p: nat)
    requires Sound(t) && Names(t.rows, id, p)
    requires (e.SignIn? && e.claim.id == id) || (e.Link? && e.id == id)
    ensures Step(t, e).outcome.Resolved? ==> Step(t, e).outcome.person == p
  {
    hide EmailFree;
    LookupFindsNamed(t.rows, id, p);
  }

  /** An account's address. */
  predicate HasAddress(t: Tables, person: nat, email: string) {
    person < |t.persons| && t.persons[person].email == Some(email)
  }

  /** How a sign-in with an identity no account holds ends. Where somebody holds the address asserted, it
      is theirs when both sides have proved it and refused otherwise; where nobody does, a new account
      is opened. An empty address is nobody's to join, and no two accounts may have one. */
  lemma UnheldIdentitySignsIn(t: Tables, claim: Assertion)
    requires Sound(t) && claim.allowed && forall i :: 0 <= i < |t.rows| ==> t.rows[i].id != claim.id
    ensures forall q: nat :: HasAddress(t, q, claim.email) && claim.email != "" ==>
      SignInDone(t, claim).outcome ==
        if claim.vouched && t.persons[q].emailVerified then Resolved(q) else LinkRefused
    ensures (exists q: nat :: HasAddress(t, q, claim.email)) && claim.email == "" ==>
      SignInDone(t, claim).outcome == EmailTaken
    ensures !(exists q: nat :: HasAddress(t, q, claim.email)) ==>
      && SignInDone(t, claim).outcome == Resolved(|t.persons|)
      && |SignInDone(t, claim).tables.persons| == |t.persons| + 1
    ensures SignInDone(t, claim).outcome.Resolved? ==>
      Names(SignInDone(t, claim).tables.rows, claim.id, SignInDone(t, claim).outcome.person)
  {
    hide UniqueIds, EmailFree, Refreshed, Filled;
    NobodyNamed(t.rows, claim.id);
    AddressOfOne(t, claim.email);
    var done := SignInDone(t, claim);
    if done.outcome.Resolved? {
      NamesAppended(t.rows, Row(claim.id, done.outcome.person, true), claim.id, done.outcome.person);
    }
  }

  lemma NobodyNamed(rows: seq<Row>, id: Identity)
    requires forall i :: 0 <= i < |rows| ==> rows[i].id != id
    ensures GetByIdentity(rows, id).None?
  {
    hide GetByIdentity;
  }

  /** The lookup finds the one account with the address, and the column is free exactly when none has. */
  lemma AddressOfOne(t: Tables, email: string)
    requires Sound(t)
    ensures forall q: nat :: HasAddress(t, q, email) ==> Holder(t.persons, email) == Some(q)
    ensures Holder(t.persons, email).Some? ==> HasAddress(t, Holder(t.persons, email).value, email)
    ensures EmailFree(t.persons, Some(email), |t.persons|) <==> !exists q: nat :: HasAddress(t, q, email)
  {
    hide Holder, UniqueIds;
    forall q: nat | HasAddress(t, q, email) ensures Holder(t.persons, email) == Some(q) {
      assert EmailFree(t.persons, t.persons[q].email, q);
    }
    if !EmailFree(t.persons, Some(email), |t.persons|) {
      var i :| 0 <= i < |t.persons| && t.persons[i].email == Some(email);
      assert HasAddress(t, i, email);
    }
  }

  /** Linking an identity: another account's is refused, one's own is already there, and one nobody
      holds is attached to any account there is. */
  lemma LinksIff(t: Tables, person: nat, id: Identity)
    requires Sound(t)
    ensures LinkDone(t, person, id).outcome == Resolved(person) <==>
      || Names(t.rows, id, person)
      || (person < |t.persons| && forall i :: 0 <= i < |t.rows| ==> t.rows[i].id != id)
    ensures LinkDone(t, person, id).outcome == OtherAccount <==>
      exists q: nat :: q != person && Names(t.rows, id, q)
    ensures LinkDone(t, person, id).outcome == Resolved(person) ==>
      Names(LinkDone(t, person, id).tables.rows, id, person)
  {
    hide EmailFree;
    LookupFindsNamed(t.rows, id, person);
    NamesAppended(t.rows, Row(id, person, true), id, person);
    var owner := GetByIdentity(t.rows, id);
    if owner.Some? {
      LookupFindsNamed(t.rows, id, owner.value.person);
    }
    if q: nat :| q != person && Names(t.rows, id, q) {
      LookupFindsNamed(t.rows, id, q);
    }
  }

  /** A local sign-in leaves the account's own identity naming it, unless another account holds that. */
  lemma LocalSignInNames(t: Tables, person: nat)
    requires Sound(t) && person < |t.persons|
    ensures Names(LocalDone(t, person).tables.rows, Identity("oidc", "local", Printed(person)), person) <==>
      !exists q: nat :: q != person && Names(t.rows, Identity("oidc", "local", Printed(person)), q)
  {
    hide EmailFree, Printed;
    var id := LocalIdentity(person);
    LookupFindsNamed(t.rows, id, person);
    NamesAppended(t.rows, Row(id, person, true), id, person);
    var owner := GetByIdentity(t.rows, id);
    if owner.Some? {
      LookupFindsNamed(t.rows, id, owner.value.person);
    }
    if q: nat :| q != person && Names(t.rows, id, q) {
      LookupFindsNamed(t.rows, id, q);
    }
  }

  /** A sign-in that attaches an identity to an account already there does so on an address that
      both the provider vouches for and the account has confirmed. */
  lemma JoinsOnlyOnProvenAddress(t: Tables, claim: Assertion, person: nat)
    requires Sound(t) && person < |t.persons|
    requires !Names(t.rows, claim.id, person) && Names(SignInDone(t, claim).tables.rows, claim.id, person)
    ensures claim.vouched && t.persons[person].emailVerified && t.persons[person].email == Some(claim.email)
    ensures var after := SignInDone(t, claim).tables.persons[person];
      && after.(name := "", picture := None) == t.persons[person].(name := "", picture := None)
      && (t.persons[person].name !in {"", "User"} ==> after.name == t.persons[person].name)
      && (t.persons[person].name in {"", "User"} ==> after.name == if claim.name == "" then "User" else claim.name)
      && (t.persons[person].picture !in {None, Some("")} ==> after.picture == t.persons[person].picture)
      && (t.persons[person].picture in {None, Some("")} && claim.picture !in {None, Some("")} ==>
            after.picture == claim.picture)
  {
    hide EmailFree;
    LookupFindsNamed(t.rows, claim.id, person);
    var rows := SignInDone(t, claim).tables.rows;
    assert rows == t.rows + [rows[|rows| - 1]];
    NamesAppended(t.rows, rows[|rows| - 1], claim.id, person);
  }

  /** When an unlink goes through, and that it then leaves a password or a verified identity. */
  lemma UnlinkLeavesAWayIn(t: Tables, person: nat, id: Identity)
    requires Sound(t)
    ensures UnlinkDone(t, person, id).outcome.Resolved? <==>
      person < |t.persons| && Names(t.rows, id, person)
      && (t.persons[person].hasPassword || exists i, j ::
            0 <= i < j < |t.rows| && IsVerifiedOf(t.rows[i], person) && IsVerifiedOf(t.rows[j], person))
    ensures var after := UnlinkDone(t, person, id).tables;
      UnlinkDone(t, person, id).outcome.Resolved? ==>
        && !Names(after.rows, id, person) && after.persons == t.persons
        && (after.persons[person].hasPassword
            || exists i :: 0 <= i < |after.rows| && after.rows[i].person == person && after.rows[i].verified)
  {
    hide EmailFree, CountVerified, Removed, UniqueIds;
    TwoAreCounted(t.rows, person);
    RemovedIsScoped(t.rows, person, id);
    RemovalCostsAtMostOne(t.rows, person, id, person);
    var left := Removed(t.rows, person, id);
    VerifiedIsCounted(left, person);
    forall i | 0 <= i < |left| ensures !(left[i].id == id && left[i].person == person) {
      assert left[i] in left;
    }
  }

  /** Why one does not: no such account; else it would leave no way in; else there is nothing to unlink. */
  lemma UnlinkRefusals(t: Tables, person: nat, id: Identity)
    requires Sound(t)
    ensures var outcome := UnlinkDone(t, person, id).outcome;
      && (outcome == UserNotFound <==> person >= |t.persons|)
      && (outcome == OnlySignIn <==>
            person < |t.persons| && !t.persons[person].hasPassword && !exists i, j ::
              0 <= i < j < |t.rows| && IsVerifiedOf(t.rows[i], person) && IsVerifiedOf(t.rows[j], person))
      && (outcome == NoSuchIdentity ==> !Names(t.rows, id, person))
  {
    hide EmailFree, CountVerified, Removed, UniqueIds;
    TwoAreCounted(t.rows, person);
    RemovedIsScoped(t.rows, person, id);
  }

  /** Any account may be registered, and any edited, whose address is free. */
  lemma EditsReach(t: Tables, person: nat, record: Person)
    requires forall i :: 0 <= i < |t.persons| && i != person ==>
      record.email.None? || t.persons[i].email != record.email
    ensures person == |t.persons| ==> Step(t, Register(record)).tables == Tables(t.persons + [record], t.rows)
    ensures person < |t.persons| ==>
      Step(t, Edit(person, record)).tables == Tables(t.persons[..person] + [record] + t.persons[person + 1..], t.rows)
  {
    if person < |t.persons| {
      assert t.persons[person := record] == t.persons[..person] + [record] + t.persons[person + 1..];
    }
  }

  // ------------------------------------------------------------------
  // Over whole runs
  // ------------------------------------------------------------------

  /** The account can be signed in to: by a password or by a verified identity. */
  predicate Reachable(t: Tables, person: nat) {
    person < |t.persons| && (t.persons[person].hasPassword || CountVerified(t.rows, person) > 0)
  }

  /** The event takes the account's password away without giving another. */
  predicate DropsPassword(t: Tables, e: Event, person: nat) {
    e.Edit? && e.person == person < |t.persons| && t.persons[person].hasPassword && !e.record.hasPassword
  }

  lemma StepReachable(t: Tables, e: Event, person: nat)
    requires Sound(t) && Reachable(t, person) && !DropsPassword(t, e, person)
    ensures Reachable(Step(t, e).tables, person)
  {
    hide Step, Sound, CountVerified, EmailFree;
    StepPersons(t, e, person);
    if e.Unlink? {
      UnlinkReachable(t, e.person, e.id, person);
    } else {
      RowsOnlyGrow(t, e);
      var rows := Step(t, e).tables.rows;
      if rows != t.rows {
        CountOneMore(t.rows, rows[|rows| - 1], person);
      }
    }
  }

  /** An account keeps its password through everything but an edit that drops it. */
  lemma StepPersons(t: Tables, e: Event, person: nat)
    requires person < |t.persons| && !DropsPassword(t, e, person)
    ensures person < |Step(t, e).tables.persons|
    ensures t.persons[person].hasPassword ==> Step(t, e).tables.persons[person].hasPassword
  {
    hide EmailFree, Holder, GetByIdentity;
    match e
    case SignIn(claim) =>
    case Link(_, _) =>
    case Unlink(_, _) =>
    case CompleteLocal(_) =>
    case Register(_) =>
    case Edit(_, _) =>
  }

  lemma UnlinkReachable(t: Tables, who: nat, id: Identity, person: nat)
    requires Sound(t) && Reachable(t, person)
    ensures Reachable(Step(t, Unlink(who, id)).tables, person)
  {
    hide EmailFree, UniqueIds, CountVerified, Removed;
    RemovalCostsAtMostOne(t.rows, who, id, person);
  }

  /** An account that can be signed in to still can after any continuation of any run in which no edit
      drops its password: no sequence of links, unlinks, sign-ins and other edits locks its owner out. */
  lemma {:induction false} NeverLockedOut(es: seq<Event>, more: seq<Event>, person: nat)
    requires Reachable(Run(es), person)
    requires forall k :: 0 <= k < |more| ==> !DropsPassword(Run(es + more[..k]), more[k], person)
    ensures Reachable(Run(es + more), person)
  {
    hide Step, Reachable, DropsPassword, Sound;
    if more == [] {
      assert es + more == es;
    } else {
      var front, e := more[..|more| - 1], more[|more| - 1];
      assert (es + more)[..|es + more| - 1] == es + front;
      forall k | 0 <= k < |front| ensures !DropsPassword(Run(es + front[..k]), front[k], person) {
        assert front[..k] == more[..k];
      }
      NeverLockedOut(es, front, person);
      RunKeeps(es + front);
      assert more[..|more| - 1] == front;
      StepReachable(Run(es + front), e, person);
    }
  }

  /** The event attached the identity to the account for a reason the source allows: the account's own
      session linked it, it is the account's own local one and a local sign-in wrote it, or a sign-in
      with it either opened
      the account or matched an address both sides had proved. */
  ghost predicate Attaches(t: Tables, e: Event, id: Identity, person: nat) {
    || e == Link(person, id)
    || (e == CompleteLocal(person) && id == LocalIdentity(person))
    || (e.SignIn? && e.claim.id == id && e.claim.allowed
        && (person == |t.persons|
            || (person < |t.persons| && e.claim.vouched && t.persons[person].emailVerified
                && t.persons[person].email == Some(e.claim.email))))
  }

  lemma NewRowAttached(t: Tables, e: Event, id: Identity, person: nat)
    requires Sound(t) && !Names(t.rows, id, person) && Names(Step(t, e).tables.rows, id, person)
    ensures Attaches(t, e, id, person)
  {
    hide EmailFree, UniqueIds, Names, Removed, CountVerified;
    if e.Unlink? {
      UnlinkNamesNothingNew(t, e.person, e.id, id, person);
    } else {
      RowsOnlyGrow(t, e);
      var rows := Step(t, e).tables.rows;
      NamesAppended(t.rows, rows[|rows| - 1], id, person);
    }
  }

  lemma UnlinkNamesNothingNew(t: Tables, who: nat, what: Identity, id: Identity, person: nat)
    requires Sound(t) && Names(UnlinkDone(t, who, what).tables.rows, id, person)
    ensures Names(t.rows, id, person)
  {
    hide EmailFree, UniqueIds, Removed, CountVerified;
    RemovedIsScoped(t.rows, who, what);
    var rows := UnlinkDone(t, who, what).tables.rows;
    var i :| 0 <= i < |rows| && rows[i].id == id && rows[i].person == person;
    assert rows[i] in t.rows;
    var j :| 0 <= j < |t.rows| && t.rows[j] == rows[i];
  }

  /** Whatever run led here, an identity that names an account was attached to it for such a reason,
      and has not been unlinked from it since: no other path hands an account over. */
  lemma {:induction false} EveryIdentityWasAttached(es: seq<Event>, id: Identity, person: nat) returns (k: nat)
    requires Names(Run(es).rows, id, person)
    ensures k < |es| && Attaches(Run(es[..k]), es[k], id, person)
    ensures forall i :: k < i < |es| ==> !Unlinks(es, i, id, person)
  {
    hide Step, Names, Attaches, Unlinks, Sound;
    if es == [] {
      NothingNamed(id, person);
    } else {
      var front, e := es[..|es| - 1], es[|es| - 1];
      RunKeeps(front);
      if Names(Run(front).rows, id, person) {
        k := EveryIdentityWasAttached(front, id, person);
        assert front[..k] == es[..k];
        UnlinkedIsGone(es, id, person);
        forall i | k < i < |es| ensures !Unlinks(es, i, id, person) {
          if i < |front| {
            UnlinksInFront(es, i, id, person);
          }
        }
      } else {
        k := |front|;
        NewRowAttached(Run(front), e, id, person);
      }
    }
  }

  lemma UnlinksInFront(es: seq<Event>, i: nat, id: Identity, person: nat)
    requires i < |es| - 1
    ensures Unlinks(es, i, id, person) <==> Unlinks(es[..|es| - 1], i, id, person)
  {
    hide Step, Run;
    assert es[..|es| - 1][..i] == es[..i];
  }

  lemma UnlinkedIsGone(es: seq<Event>, id: Identity, person: nat)
    requires es != [] && Names(Run(es).rows, id, person)
    ensures !Unlinks(es, |es| - 1, id, person)
  {
    hide Step, Names, Sound, CountVerified;
    if Unlinks(es, |es| - 1, id, person) {
      RunKeeps(es[..|es| - 1]);
      UnlinkLeavesAWayIn(Run(es[..|es| - 1]), person, id);
      StepUnlinks(Run(es[..|es| - 1]), person, id);
    }
  }

  lemma StepUnlinks(t: Tables, person: nat, id: Identity)
    ensures Step(t, Unlink(person, id)) == UnlinkDone(t, person, id)
  {}

  // ------------------------------------------------------------------
  // The service over the two tables
  // ------------------------------------------------------------------

  class Accounts {
    var persons: seq<Person>
    const identities: IdentityTable

    ghost function View(): Tables
      reads this, identities
    {
      Tables(persons, identities.rows)
    }

    constructor ()
      ensures View() == Tables([], []) && fresh(identities)
    {
      persons := [];
      identities := new IdentityTable();
    }

    /** The three cases in their order. */
    method GetOrCreateByOidcIdentity(claim: Assertion) returns (outcome: Outcome)
      requires Sound(View())
      modifies this, identities
      ensures Done(View(), outcome) == SignInDone(old(View()), claim)
    {
      hide UniqueIds, EmailFree, Refreshed, Filled;
      if !claim.allowed {
        return NotAllowed;
      }
      var row := GetByIdentity(identities.rows, claim.id);
      if row.Some? && row.value.person < |persons| {
        outcome := Refresh(row.value.person, claim);
        return;
      }
      var claimed := if claim.email == "" then None else Holder(persons, claim.email);
      if claimed.Some? {
        if !claim.vouched {
          return LinkRefused;
        }
        if !persons[claimed.value].emailVerified {
          return LinkRefused;
        }
        var added := identities.Add(claimed.value, claim.id, true);
        assert added;
        FillEmpty(claimed.value, claim);
        return Resolved(claimed.value);
      }
      if !EmailFree(persons, Some(claim.email), |persons|) {
        return EmailTaken;
      }
      var created := |persons|;
      persons := persons + [Person(Some(claim.email), claim.vouched, DisplayName(claim.name), claim.picture, false)];
      var added := identities.Add(created, claim.id, true);
      assert added;
      return Resolved(created);
    }

    /** Flushing an address another account holds fails and is rolled back. */
    method Refresh(who: nat, claim: Assertion) returns (outcome: Outcome)
      requires who < |persons|
      modifies this
      ensures var refreshed := Refreshed(old(persons)[who], claim);
        if EmailFree(old(persons), refreshed.email, who)
        then outcome == Resolved(who) && persons == old(persons)[who := refreshed]
        else outcome == EmailTaken && persons == old(persons)
    {
      var before := persons;
      if persons[who].email != Some(claim.email) {
        persons := persons[who := persons[who].(email := Some(claim.email), emailVerified := claim.vouched)];
      }
      if persons[who].name != DisplayName(claim.name) {
        persons := persons[who := persons[who].(name := DisplayName(claim.name))];
      }
      if persons[who].picture != claim.picture {
        persons := persons[who := persons[who].(picture := claim.picture)];
      }
      if !EmailFree(before, persons[who].email, who) {
        persons := before;
        return EmailTaken;
      }
      return Resolved(who);
    }

    method FillEmpty(who: nat, claim: Assertion)
      requires who < |persons|
      modifies this
      ensures persons == old(persons)[who := Filled(old(persons)[who], claim)]
    {
      if persons[who].name in {"", "User"} {
        persons := persons[who := persons[who].(name := DisplayName(claim.name))];
      }
      if persons[who].picture in {None, Some("")} && claim.picture !in {None, Some("")} {
        persons := persons[who := persons[who].(picture := claim.picture)];
      }
    }

    method LinkIdentity(person: nat, id: Identity) returns (outcome: Outcome)
      modifies identities
      ensures Done(View(), outcome) == LinkDone(old(View()), person, id)
    {
      var owner := GetByIdentity(identities.rows, id);
      if owner.Some? {
        return if owner.value.person == person then Resolved(person) else OtherAccount;
      }
      if person >= |persons| {
        return UserNotFound;
      }
      var added := identities.Add(person, id, true);
      assert added;
      return Resolved(person);
    }

    method UnlinkIdentity(person: nat, id: Identity) returns (outcome: Outcome)
      requires Sound(View())
      modifies identities
      ensures Done(View(), outcome) == UnlinkDone(old(View()), person, id)
    {
      hide EmailFree, UniqueIds;
      if person >= |persons| {
        return UserNotFound;
      }
      var verified := identities.CountVerifiedOf(person);
      var remaining := verified as int - 1;
      if remaining <= 0 && !persons[person].hasPassword {
        return OnlySignIn;
      }
      RemovedIsScoped(identities.rows, person, id);
      var removed := identities.Remove(person, id);
      if removed == 0 {
        return NoSuchIdentity;
      }
      return Resolved(person);
    }
  }
}
