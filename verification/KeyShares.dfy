/** `key_shares.py`: custody of one share of each master key. The store as an object, then every
    interleaving of callers' reads and writes with the write lock taken away. */
module KeyShares {
  import opened Options

  datatype Share = Share(x: int, y: string, kcv: string)

  /** A stored row; `sealed` is the ciphertext of the share's bytes. */
  datatype Row = Row(x: int, sealed: string, kcv: string)

  type Table = map<string, Row>

  function Lookup(t: Table, principal: string): Option<Row> {
    if principal in t then Some(t[principal]) else None
  }

  /** `_open`: None for a row that does not decrypt. */
  function Open(decrypt: string -> Option<string>, r: Row): Option<Share> {
    match decrypt(r.sealed)
    case Some(y) => Some(Share(r.x, y, r.kcv))
    case None => None
  }

  function Sealed(share: Share, sealed: string): Row { Row(share.x, sealed, share.kcv) }

  /** The row is this very share, readable. */
  predicate HoldsShare(decrypt: string -> Option<string>, r: Row, share: Share) {
    r.x == share.x && r.kcv == share.kcv && decrypt(r.sealed) == Some(share.y)
  }

  datatype Decision = Insert | Same | Refuse | Replace

  /** What a caller does about the row it read. */
  function Decide(decrypt: string -> Option<string>, seen: Option<Row>, share: Share, supersedes: Option<string>)
    : Decision
  {
    match seen
    case None => Insert
    case Some(row) =>
      if Open(decrypt, row) == Some(share) then Same
      else if row.kcv != share.kcv && supersedes != Some(row.kcv) then Refuse
      else Replace
  }

  datatype Outcome = Stored | Unchanged | Replaced | Conflict

  /** The insert fails on the primary key; the update is conditioned on what was read. */
  function WriteSucceeds(now: Option<Row>, seen: Option<Row>): bool {
    match seen
    case None => now.None?
    case Some(row) => now.Some? && now.value.kcv == row.kcv && now.value.sealed == row.sealed
  }

  // ------------------------------------------------------------------
  // The store
  // ------------------------------------------------------------------

  datatype Release = Absent | Released(share: Share) | Unreadable

  class ShareStore {
    var rows: Table

    constructor ()
      ensures rows == map[]
    {
      rows := map[];
    }

    /** `store_share` under the write lock, where nothing comes between the read and the write. */
    method Store(
      decrypt: string -> Option<string>, principal: string, share: Share, sealed: string, supersedes: Option<string>)
      returns (outcome: Outcome)
      modifies this
      ensures outcome == Stored <==> principal !in old(rows)
      ensures outcome == Unchanged <==> principal in old(rows) && HoldsShare(decrypt, old(rows)[principal], share)
      ensures outcome == Conflict <==>
        && principal in old(rows) && old(rows)[principal].kcv != share.kcv
        && supersedes != Some(old(rows)[principal].kcv)
      ensures rows ==
        if outcome in {Stored, Replaced} then old(rows)[principal := Sealed(share, sealed)] else old(rows)
    {
      if principal !in rows {
        rows := rows[principal := Row(share.x, sealed, share.kcv)];
        return Stored;
      }
      var row := rows[principal];
      var found := Open(decrypt, row);
      if found == Some(share) {
        return Unchanged;
      }
      if row.kcv != share.kcv && Some(row.kcv) != supersedes {
        return Conflict;
      }
      var rowcount := 0;
      if principal in rows && rows[principal].kcv == row.kcv && rows[principal].sealed == row.sealed {
        rows := rows[principal := Row(share.x, sealed, share.kcv)];
        rowcount := 1;
      }
      if rowcount != 1 {
        return Conflict;
      }
      return Replaced;
    }

    /** `release_share`: a share that does not decrypt is never reported as absent. */
    method ReleaseShare(decrypt: string -> Option<string>, principal: string) returns (released: Release)
      ensures released.Absent? <==> principal !in rows
      ensures released == Unreadable <==> principal in rows && decrypt(rows[principal].sealed).None?
      ensures forall share ::
        released == Released(share) <==> principal in rows && HoldsShare(decrypt, rows[principal], share)
    {
      if principal !in rows {
        return Absent;
      }
      var found := Open(decrypt, rows[principal]);
      if found.None? {
        return Unreadable;
      }
      return Released(found.value);
    }
  }

  // ------------------------------------------------------------------
  // Callers interleaved
  // ------------------------------------------------------------------

  datatype Call = Call(principal: string, share: Share, sealed: string, supersedes: Option<string>)

  /** One finished call: what it read, the row at the moment it finished, and the row it left. */
  datatype Done = Done(call: Call, outcome: Outcome, seen: Option<Row>, before: Option<Row>, after: Option<Row>)

  /** `reading` are calls about to read, `writing` calls that have read and decided to write.
      `minted` is every row a ciphertext was made for. */
  datatype State = State(
    rows: Table, reading: multiset<Call>, writing: multiset<(Call, Option<Row>)>,
    minted: map<string, Row>, log: seq<Done>)

  /** `Arrive` encrypts the share; `Read` reads and decides; `Write` is the conditional statement. */
  datatype Event = Arrive(call: Call) | Read(call: Call) | Write(call: Call, seen: Option<Row>)

  function Start(): State { State(map[], multiset{}, multiset{}, map[], []) }

  function Step(decrypt: string -> Option<string>, s: State, e: Event): State {
    var now := Lookup(s.rows, e.call.principal);
    match e
    case Arrive(c) =>
      s.(reading := s.reading + multiset{c}, minted := s.minted[c.sealed := Sealed(c.share, c.sealed)])
    case Read(c) =>
      if c !in s.reading then s
      else
        var t := s.(reading := s.reading - multiset{c});
        (match Decide(decrypt, now, c.share, c.supersedes)
         case Same => t.(log := s.log + [Done(c, Unchanged, now, now, now)])
         case Refuse => t.(log := s.log + [Done(c, Conflict, now, now, now)])
         case Insert => t.(writing := s.writing + multiset{(c, now)})
         case Replace => t.(writing := s.writing + multiset{(c, now)}))
    case Write(c, seen) =>
      if (c, seen) !in s.writing then s
      else
        var t := s.(writing := s.writing - multiset{(c, seen)});
        if !WriteSucceeds(now, seen) then t.(log := s.log + [Done(c, Conflict, seen, now, now)])
        else
          var row := Sealed(c.share, c.sealed);
          t.(rows := s.rows[c.principal := row],
             log := s.log + [Done(c, if seen.None? then Stored else Replaced, seen, now, Some(row))])
  }

  function Run(decrypt: string -> Option<string>, es: seq<Event>): State {
    if es == [] then Start() else Step(decrypt, Run(decrypt, es[..|es| - 1]), es[|es| - 1])
  }

  /** Every encryption gives a ciphertext not given before. */
  ghost predicate FreshCiphertexts(decrypt: string -> Option<string>, es: seq<Event>) {
    es == [] ||
    var front, e := es[..|es| - 1], es[|es| - 1];
    FreshCiphertexts(decrypt, front) && (e.Arrive? ==> e.call.sealed !in Run(decrypt, front).minted)
  }

  /** The row the finished calls left for `principal`. */
  function Current(log: seq<Done>, principal: string): Option<Row> {
    if log == [] then None else
      var d := log[|log| - 1];
      if d.call.principal == principal && d.outcome in {Stored, Replaced} then d.after
      else Current(log[..|log| - 1], principal)
  }

  predicate Wrote(d: Done) { d.outcome in {Stored, Replaced} }

  ghost predicate DoneOk(d: Done) {
    && (Wrote(d) ==> d.seen == d.before && d.after == Some(Sealed(d.call.share, d.call.sealed)))
    && (!Wrote(d) ==> d.after == d.before)
    && (d.outcome == Stored ==> d.before == None)
    && (d.outcome == Replaced ==> d.before.Some?)
    && (d.outcome == Replaced && d.before.value.kcv != d.call.share.kcv
        ==> d.call.supersedes == Some(d.before.value.kcv))
  }

  ghost predicate LogOk(log: seq<Done>) {
    log == [] ||
    var front, d := log[..|log| - 1], log[|log| - 1];
    && LogOk(front) && DoneOk(d)
    && d.before == Current(front, d.call.principal)
  }

  ghost predicate IsMinted(minted: map<string, Row>, r: Row) {
    r.sealed in minted && minted[r.sealed] == r
  }

  ghost predicate Inv(decrypt: string -> Option<string>, s: State) {
    && LogOk(s.log)
    && (forall p :: Current(s.log, p) == Lookup(s.rows, p))
    && (forall p :: p in s.rows ==> IsMinted(s.minted, s.rows[p]))
    && (forall c :: c in s.reading ==> IsMinted(s.minted, Sealed(c.share, c.sealed)))
    && (forall w :: w in s.writing ==> WriterOk(decrypt, s.minted, w))
  }

  ghost predicate WriterOk(decrypt: string -> Option<string>, minted: map<string, Row>, w: (Call, Option<Row>)) {
    && IsMinted(minted, Sealed(w.0.share, w.0.sealed))
    && (w.1.Some? ==> IsMinted(minted, w.1.value))
    && Decide(decrypt, w.1, w.0.share, w.0.supersedes) in {Insert, Replace}
  }

  lemma LogAppend(log: seq<Done>, d: Done)
    requires LogOk(log) && DoneOk(d) && d.before == Current(log, d.call.principal)
    ensures LogOk(log + [d])
    ensures forall p ::
      Current(log + [d], p) == if Wrote(d) && d.call.principal == p then d.after else Current(log, p)
  {
    assert (log + [d])[..|log|] == log;
  }

  lemma ArriveKeeps(decrypt: string -> Option<string>, s: State, c: Call)
    requires Inv(decrypt, s) && c.sealed !in s.minted
    ensures Inv(decrypt, Step(decrypt, s, Arrive(c)))
  {
    hide LogOk, Decide, Current, IsMinted, WriterOk;
    var s' := Step(decrypt, s, Arrive(c));
    forall r ensures IsMinted(s.minted, r) ==> IsMinted(s'.minted, r) {
      MintedLater(s.minted, c, r);
    }
    MintedLater(s.minted, c, Sealed(c.share, c.sealed));
    forall w | w in s.writing ensures WriterOk(decrypt, s'.minted, w) {
      WriterLater(decrypt, s.minted, s'.minted, w);
    }
  }

  lemma MintedLater(minted: map<string, Row>, c: Call, r: Row)
    requires c.sealed !in minted
    ensures var minted' := minted[c.sealed := Sealed(c.share, c.sealed)];
      (IsMinted(minted, r) ==> IsMinted(minted', r)) && IsMinted(minted', Sealed(c.share, c.sealed))
  {}

  lemma WriterLater(
    decrypt: string -> Option<string>, minted: map<string, Row>, minted': map<string, Row>, w: (Call, Option<Row>))
    requires WriterOk(decrypt, minted, w) && forall r :: IsMinted(minted, r) ==> IsMinted(minted', r)
    ensures WriterOk(decrypt, minted', w)
  {
    hide IsMinted, Decide;
  }

  lemma ReadKeeps(decrypt: string -> Option<string>, s: State, c: Call)
    requires Inv(decrypt, s)
    ensures Inv(decrypt, Step(decrypt, s, Read(c)))
  {
    hide LogOk, Current, IsMinted, Decide, DoneOk, WriterOk;
    var now := Lookup(s.rows, c.principal);
    if c in s.reading { ReaderIsWriter(decrypt, s, c); }
    var decision := Decide(decrypt, now, c.share, c.supersedes);
    if c in s.reading && decision in {Same, Refuse} {
      var d := Done(c, if decision == Same then Unchanged else Conflict, now, now, now);
      assert DoneOk(d) by { NothingWritten(d); }
      LogAppend(s.log, d);
    }
  }

  lemma ReaderIsWriter(decrypt: string -> Option<string>, s: State, c: Call)
    requires Inv(decrypt, s) && c in s.reading
    ensures var now := Lookup(s.rows, c.principal);
      Decide(decrypt, now, c.share, c.supersedes) in {Insert, Replace} ==> WriterOk(decrypt, s.minted, (c, now))
  {
    hide LogOk, Current, Decide;
  }

  lemma NothingWritten(d: Done)
    requires !Wrote(d) && d.after == d.before
    ensures DoneOk(d)
  {}

  lemma WriteKeeps(decrypt: string -> Option<string>, s: State, c: Call, seen: Option<Row>)
    requires Inv(decrypt, s)
    ensures Inv(decrypt, Step(decrypt, s, Write(c, seen)))
  {
    hide LogOk, Current, IsMinted, Decide, DoneOk, WriteSucceeds, WriterOk;
    if (c, seen) in s.writing {
      var now := Lookup(s.rows, c.principal);
      assert WriterOk(decrypt, s.minted, (c, seen));
      var row := Sealed(c.share, c.sealed);
      WriterMinted(decrypt, s.minted, (c, seen));
      var d := if !WriteSucceeds(now, seen) then Done(c, Conflict, seen, now, now)
               else Done(c, if seen.None? then Stored else Replaced, seen, now, Some(row));
      if WriteSucceeds(now, seen) {
        SawWhatItReplaced(decrypt, s.minted, now, c, seen, d);
      } else {
        NothingWritten(d);
      }
      LogAppend(s.log, d);
    }
  }

  lemma WriterMinted(decrypt: string -> Option<string>, minted: map<string, Row>, w: (Call, Option<Row>))
    requires WriterOk(decrypt, minted, w)
    ensures IsMinted(minted, Sealed(w.0.share, w.0.sealed))
  {
    hide IsMinted, Decide;
  }

  /** Fresh ciphertexts rule out ABA: the row replaced is the row read, in every column. */
  lemma SawWhatItReplaced(
    decrypt: string -> Option<string>, minted: map<string, Row>, now: Option<Row>, c: Call, seen: Option<Row>, d: Done)
    requires WriterOk(decrypt, minted, (c, seen)) && WriteSucceeds(now, seen)
    requires now.Some? ==> IsMinted(minted, now.value)
    requires d == Done(c, if seen.None? then Stored else Replaced, seen, now, Some(Sealed(c.share, c.sealed)))
    ensures DoneOk(d)
  {}

  lemma {:induction false} RunInv(decrypt: string -> Option<string>, es: seq<Event>)
    requires FreshCiphertexts(decrypt, es)
    ensures Inv(decrypt, Run(decrypt, es))
  {
    hide Inv, Step;
    if es == [] {
      StartInv(decrypt);
    } else {
      var s := Run(decrypt, es[..|es| - 1]);
      RunInv(decrypt, es[..|es| - 1]);
      match es[|es| - 1]
      case Arrive(c) => ArriveKeeps(decrypt, s, c);
      case Read(c) => ReadKeeps(decrypt, s, c);
      case Write(c, seen) => WriteKeeps(decrypt, s, c, seen);
    }
  }

  lemma StartInv(decrypt: string -> Option<string>)
    ensures Inv(decrypt, Start())
  {}

  lemma {:induction false} LogEntry(log: seq<Done>, k: int)
    requires LogOk(log) && 0 <= k < |log|
    ensures DoneOk(log[k]) && log[k].before == Current(log[..k], log[k].call.principal)
  {
    var front := log[..|log| - 1];
    if k < |front| {
      LogEntry(front, k);
      assert front[..k] == log[..k];
    }
  }

  lemma {:induction false} NothingStoredBefore(log: seq<Done>, k: int)
    requires LogOk(log) && 0 <= k < |log| && Wrote(log[k])
    ensures Current(log, log[k].call.principal).Some?
  {
    var front := log[..|log| - 1];
    if k < |front| {
      NothingStoredBefore(front, k);
    }
  }

  /** The k-th call to finish acted on exactly the row it had read, which is the row the last
      successful caller left; it changed a key's check value only if its `supersedes` named it; and
      if it was refused or met a conflict it changed nothing. */
  ghost predicate ActedOnWhatItRead(log: seq<Done>, k: int)
    requires 0 <= k < |log|
  {
    var d := log[k];
    && d.before == Current(log[..k], d.call.principal)
    && (Wrote(d) ==> d.seen == d.before && d.after == Some(Sealed(d.call.share, d.call.sealed)))
    && (!Wrote(d) ==> d.after == d.before)
    && (Wrote(d) && d.before.Some? && d.before.value.kcv != d.call.share.kcv
        ==> d.call.supersedes == Some(d.before.value.kcv))
  }

  /** So it is with every call, with no lock at all. */
  lemma EveryWriteActedOnWhatItRead(decrypt: string -> Option<string>, es: seq<Event>)
    requires FreshCiphertexts(decrypt, es)
    ensures var log := Run(decrypt, es).log; forall k :: 0 <= k < |log| ==> ActedOnWhatItRead(log, k)
  {
    hide LogOk, Current, Step;
    RunInv(decrypt, es);
    var log := Run(decrypt, es).log;
    forall k | 0 <= k < |log| ensures ActedOnWhatItRead(log, k) {
      LogEntry(log, k);
    }
  }

  /** Of all the callers that found nothing stored for a principal, at most one stored. */
  lemma OneFirstInsert(decrypt: string -> Option<string>, es: seq<Event>)
    requires FreshCiphertexts(decrypt, es)
    ensures var log := Run(decrypt, es).log;
      forall j, k :: 0 <= j < k < |log| && log[j].outcome == Stored && log[k].outcome == Stored ==>
        log[j].call.principal != log[k].call.principal
  {
    hide LogOk, Current, Step, DoneOk;
    RunInv(decrypt, es);
    var log := Run(decrypt, es).log;
    forall j, k | 0 <= j < k < |log| && log[j].outcome == Stored && log[k].outcome == Stored
      ensures log[j].call.principal != log[k].call.principal
    {
      NotStoredTwice(log, j, k);
    }
  }

  lemma NotStoredTwice(log: seq<Done>, j: int, k: int)
    requires LogOk(log) && 0 <= j < k < |log|
    ensures !(log[j].outcome == Stored && log[k].outcome == Stored && log[j].call.principal == log[k].call.principal)
  {
    hide LogOk, Current;
    LogEntry(log, k);
    if Wrote(log[j]) {
      LogPrefix(log, k);
      assert log[..k][j] == log[j];
      NothingStoredBefore(log[..k], j);
    }
  }

  lemma {:induction false} LogPrefix(log: seq<Done>, k: int)
    requires LogOk(log) && 0 <= k <= |log|
    ensures LogOk(log[..k])
  {
    if k < |log| {
      LogPrefix(log[..|log| - 1], k);
      assert log[..|log| - 1][..k] == log[..k];
    } else {
      assert log[..k] == log;
    }
  }

  /** What is stored at the end is what the last successful caller left. */
  lemma StoredIsLastWritten(decrypt: string -> Option<string>, es: seq<Event>, principal: string)
    requires FreshCiphertexts(decrypt, es)
    ensures Lookup(Run(decrypt, es).rows, principal) == Current(Run(decrypt, es).log, principal)
  {
    hide LogOk, Step, Current;
    RunInv(decrypt, es);
  }

  // ------------------------------------------------------------------
  // What each outcome means
  // ------------------------------------------------------------------

  /** The row the call saw is of another key, which the call does not claim to supersede. */
  predicate OfAnotherKey(d: Done) {
    d.seen.Some? && d.seen.value.kcv != d.call.share.kcv && d.call.supersedes != Some(d.seen.value.kcv)
  }

  /** What a call's outcome says of the row it saw and of the row there when it finished. */
  ghost predicate OutcomeOk(decrypt: string -> Option<string>, d: Done) {
    && (d.outcome == Conflict <==> d.seen != d.before || OfAnotherKey(d))
    && (d.outcome == Stored <==> d.seen == d.before == None)
    && (d.outcome == Unchanged <==>
          d.seen == d.before && d.seen.Some? && HoldsShare(decrypt, d.seen.value, d.call.share))
  }

  lemma ReadOutcome(decrypt: string -> Option<string>, c: Call, now: Option<Row>, d: Done)
    requires Decide(decrypt, now, c.share, c.supersedes) in {Same, Refuse}
    requires d == Done(c,
      if Decide(decrypt, now, c.share, c.supersedes) == Same then Unchanged else Conflict, now, now, now)
    ensures OutcomeOk(decrypt, d)
  {}

  lemma WriteOutcome(
    decrypt: string -> Option<string>, minted: map<string, Row>, now: Option<Row>, c: Call, seen: Option<Row>, d: Done)
    requires WriterOk(decrypt, minted, (c, seen)) && (now.Some? ==> IsMinted(minted, now.value))
    requires d ==
      if !WriteSucceeds(now, seen) then Done(c, Conflict, seen, now, now)
      else Done(c, if seen.None? then Stored else Replaced, seen, now, Some(Sealed(c.share, c.sealed)))
    ensures OutcomeOk(decrypt, d)
  {}

  lemma StepOutcomes(decrypt: string -> Option<string>, s: State, e: Event)
    requires Inv(decrypt, s) && forall k :: 0 <= k < |s.log| ==> OutcomeOk(decrypt, s.log[k])
    ensures var log := Step(decrypt, s, e).log; forall k :: 0 <= k < |log| ==> OutcomeOk(decrypt, log[k])
  {
    hide LogOk, Current, IsMinted, Decide, DoneOk, WriteSucceeds, WriterOk, OutcomeOk;
    var now := Lookup(s.rows, e.call.principal);
    match e
    case Arrive(c) =>
    case Read(c) =>
      if Decide(decrypt, now, c.share, c.supersedes) == Same {
        ReadOutcome(decrypt, c, now, Done(c, Unchanged, now, now, now));
      } else if Decide(decrypt, now, c.share, c.supersedes) == Refuse {
        ReadOutcome(decrypt, c, now, Done(c, Conflict, now, now, now));
      }
    case Write(c, seen) =>
      if (c, seen) in s.writing {
        var row := Sealed(c.share, c.sealed);
        var d := if !WriteSucceeds(now, seen) then Done(c, Conflict, seen, now, now)
          else Done(c, if seen.None? then Stored else Replaced, seen, now, Some(row));
        WriteOutcome(decrypt, s.minted, now, c, seen, d);
      }
  }

  /** Over any interleaving, with no lock: a call meets a conflict exactly when the row changed under it
      or is of a key it does not supersede; it is Stored exactly when it saw nothing and nothing was
      there; and Unchanged exactly when the row it saw, and which is still there, is its share already.
      What is left is Replaced. */
  lemma {:induction false} OutcomesMean(decrypt: string -> Option<string>, es: seq<Event>)
    requires FreshCiphertexts(decrypt, es)
    ensures var log := Run(decrypt, es).log; forall k :: 0 <= k < |log| ==> OutcomeOk(decrypt, log[k])
  {
    hide Step, Inv, OutcomeOk;
    if es == [] {
      assert Run(decrypt, es).log == [];
    } else {
      OutcomesMean(decrypt, es[..|es| - 1]);
      RunInv(decrypt, es[..|es| - 1]);
      StepOutcomes(decrypt, Run(decrypt, es[..|es| - 1]), es[|es| - 1]);
    }
  }

  /** Every call's ciphertext decrypts to what it sealed. */
  predicate Truthful(decrypt: string -> Option<string>, c: Call) { decrypt(c.sealed) == Some(c.share.y) }

  ghost predicate AllTruthful(decrypt: string -> Option<string>, s: State) {
    && (forall c :: c in s.reading ==> Truthful(decrypt, c))
    && (forall w :: w in s.writing ==> Truthful(decrypt, w.0))
    && AllLeftTheirShare(decrypt, s.log)
  }

  /** Whatever it reports short of a conflict, a call finishes with its own share stored. */
  ghost predicate LeftItsShare(decrypt: string -> Option<string>, d: Done) {
    d.outcome != Conflict ==> d.after.Some? && HoldsShare(decrypt, d.after.value, d.call.share)
  }

  lemma StepTruthful(decrypt: string -> Option<string>, s: State, e: Event)
    requires AllTruthful(decrypt, s) && (e.Arrive? ==> Truthful(decrypt, e.call))
    ensures AllTruthful(decrypt, Step(decrypt, s, e))
  {
    hide Truthful, AllLeftTheirShare, Step;
    var s' := Step(decrypt, s, e);
    assert e.Write? && (e.call, e.seen) in s.writing ==> Truthful(decrypt, (e.call, e.seen).0);
    StepCalls(decrypt, s, e);
    StepLog(decrypt, s, e);
    forall w | w in s'.writing ensures Truthful(decrypt, w.0) {
      assert w in s.writing || w.0 in s.reading;
    }
  }

  /** Nobody writes who was not reading, and nobody reads who did not arrive. */
  lemma StepCalls(decrypt: string -> Option<string>, s: State, e: Event)
    ensures var s' := Step(decrypt, s, e);
      && (forall c :: c in s'.reading ==> c in s.reading || e == Arrive(c))
      && (forall w :: w in s'.writing ==> w in s.writing || w.0 in s.reading)
  {
    hide Decide, WriteSucceeds, Lookup, Sealed;
    match e
    case Arrive(c) =>
    case Read(c) => ReadCalls(decrypt, s, c);
    case Write(c, seen) =>
      var s' := Step(decrypt, s, e);
      assert s'.reading == s.reading && s'.writing <= s.writing;
  }

  lemma ReadCalls(decrypt: string -> Option<string>, s: State, c: Call)
    ensures var s' := Step(decrypt, s, Read(c));
      && s'.reading <= s.reading
      && (forall w :: w in s'.writing ==> w in s.writing || w.0 in s.reading)
  {
    hide Decide, Lookup;
    var s' := Step(decrypt, s, Read(c));
    var w0 := (c, Lookup(s.rows, c.principal));
    if c in s.reading {
      assert s'.writing <= s.writing + multiset{w0};
      forall w | w in s'.writing ensures w in s.writing || w == w0 {
        assert w in s.writing + multiset{w0};
      }
    }
  }

  ghost predicate AllLeftTheirShare(decrypt: string -> Option<string>, log: seq<Done>) {
    forall k :: 0 <= k < |log| ==> LeftItsShare(decrypt, log[k])
  }

  lemma StepLog(decrypt: string -> Option<string>, s: State, e: Event)
    requires e.Write? && (e.call, e.seen) in s.writing ==> Truthful(decrypt, e.call)
    requires AllLeftTheirShare(decrypt, s.log)
    ensures AllLeftTheirShare(decrypt, Step(decrypt, s, e).log)
  {
    hide AllLeftTheirShare, Truthful, LeftItsShare, Decide, WriteSucceeds, Lookup;
    var now := Lookup(s.rows, e.call.principal);
    match e
    case Arrive(c) =>
    case Read(c) =>
      ReadLeaves(decrypt, c, now);
      if Decide(decrypt, now, c.share, c.supersedes) == Same {
        OneMoreLeft(decrypt, s.log, Done(c, Unchanged, now, now, now));
      } else {
        OneMoreLeft(decrypt, s.log, Done(c, Conflict, now, now, now));
      }
    case Write(c, seen) =>
      if (c, seen) in s.writing {
        WriteLeaves(decrypt, c, now, seen, if seen.None? then Stored else Replaced);
        OneMoreLeft(decrypt, s.log, Done(c, Conflict, seen, now, now));
        var row := Sealed(c.share, c.sealed);
        OneMoreLeft(decrypt, s.log, Done(c, if seen.None? then Stored else Replaced, seen, now, Some(row)));
      }
  }

  lemma OneMoreLeft(decrypt: string -> Option<string>, log: seq<Done>, d: Done)
    requires AllLeftTheirShare(decrypt, log) && LeftItsShare(decrypt, d)
    ensures AllLeftTheirShare(decrypt, log + [d])
  {
    hide LeftItsShare;
  }

  lemma ReadLeaves(decrypt: string -> Option<string>, c: Call, now: Option<Row>)
    ensures Decide(decrypt, now, c.share, c.supersedes) == Same ==>
      LeftItsShare(decrypt, Done(c, Unchanged, now, now, now))
    ensures LeftItsShare(decrypt, Done(c, Conflict, now, now, now))
  {}

  lemma WriteLeaves(
    decrypt: string -> Option<string>, c: Call, now: Option<Row>, seen: Option<Row>, outcome: Outcome)
    requires Truthful(decrypt, c)
    ensures LeftItsShare(decrypt, Done(c, Conflict, seen, now, now))
    ensures LeftItsShare(decrypt, Done(c, outcome, seen, now, Some(Sealed(c.share, c.sealed))))
  {}

  lemma {:induction false} SuccessLeavesItsShare(decrypt: string -> Option<string>, es: seq<Event>)
    requires forall k :: 0 <= k < |es| && es[k].Arrive? ==> Truthful(decrypt, es[k].call)
    ensures AllTruthful(decrypt, Run(decrypt, es))
    ensures var log := Run(decrypt, es).log; forall k :: 0 <= k < |log| ==> LeftItsShare(decrypt, log[k])
  {
    hide Step, Truthful, LeftItsShare;
    if es == [] {
      assert Run(decrypt, es) == Start();
    } else {
      var front := es[..|es| - 1];
      assert forall k :: 0 <= k < |front| ==> front[k] == es[k];
      SuccessLeavesItsShare(decrypt, front);
      StepTruthful(decrypt, Run(decrypt, front), es[|es| - 1]);
    }
  }

  /** A call that nothing interleaves with always finishes, and never because the row changed under it. */
  lemma CallAlone(decrypt: string -> Option<string>, s: State, c: Call)
    ensures var now := Lookup(s.rows, c.principal);
      var t := Step(decrypt, Step(decrypt, Step(decrypt, s, Arrive(c)), Read(c)), Write(c, now));
      && |t.log| > |s.log|
      && (t.log[|s.log|].outcome == Conflict <==>
            now.Some? && now.value.kcv != c.share.kcv && c.supersedes != Some(now.value.kcv))
      && (t.log[|s.log|].outcome == Unchanged <==> now.Some? && HoldsShare(decrypt, now.value, c.share))
      && (t.log[|s.log|].outcome == Stored <==> now.None?)
  {
    hide Decide, WriteSucceeds, HoldsShare;
    var now := Lookup(s.rows, c.principal);
    var s1 := Step(decrypt, s, Arrive(c));
    assert c in s1.reading && Lookup(s1.rows, c.principal) == now;
    var s2 := Step(decrypt, s1, Read(c));
    DecideAlone(decrypt, now, c);
    if Decide(decrypt, now, c.share, c.supersedes) in {Insert, Replace} {
      assert (c, now) in s2.writing && s2.log == s.log;
    } else {
      assert |s2.log| > |s.log| && s2.log[|s.log|].outcome in {Unchanged, Conflict};
    }
  }

  lemma DecideAlone(decrypt: string -> Option<string>, now: Option<Row>, c: Call)
    ensures WriteSucceeds(now, now)
    ensures Decide(decrypt, now, c.share, c.supersedes) ==
      if now.None? then Insert
      else if HoldsShare(decrypt, now.value, c.share) then Same
      else if now.value.kcv != c.share.kcv && c.supersedes != Some(now.value.kcv) then Refuse
      else Replace
    ensures now.Some? && HoldsShare(decrypt, now.value, c.share) ==> now.value.kcv == c.share.kcv
  {}
}
