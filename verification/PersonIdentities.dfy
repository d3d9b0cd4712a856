/** `db/person_identities.py`: the table of external identities, many to a person, and its queries. */
module PersonIdentities {
  import opened Options

  datatype Identity = Identity(method_: string, provider: string, subject: string)

  datatype Row = Row(id: Identity, person: nat, verified: bool)

  /** The unique index over method, provider and subject. */
  ghost predicate UniqueIds(rows: seq<Row>) {
    forall i, j :: 0 <= i < j < |rows| ==> rows[i].id != rows[j].id
  }

  ghost predicate Names(rows: seq<Row>, id: Identity, person: nat) {
    exists i :: 0 <= i < |rows| && rows[i].id == id && rows[i].person == person
  }

  function GetByIdentity(rows: seq<Row>, id: Identity): (row: Option<Row>)
    ensures row.Some? ==> row.value in rows && row.value.id == id
    ensures row.None? ==> forall i :: 0 <= i < |rows| ==> rows[i].id != id
  {
    if rows == [] then None else
      var front, last := rows[..|rows| - 1], rows[|rows| - 1];
      assert rows == front + [last];
      if last.id == id then Some(last) else GetByIdentity(front, id)
  }

  /** `remove`, scoped by person. */
  function Removed(rows: seq<Row>, person: nat, id: Identity): seq<Row> {
    if rows == [] then [] else
      var last := rows[|rows| - 1];
      Removed(rows[..|rows| - 1], person, id) + if last.person == person && last.id == id then [] else [last]
  }

  function CountVerified(rows: seq<Row>, person: nat): nat {
    if rows == [] then 0 else
      var last := rows[|rows| - 1];
      CountVerified(rows[..|rows| - 1], person) + if last.person == person && last.verified then 1 else 0
  }

  /** The table names one person for an identity, the one a lookup finds. */
  lemma LookupFindsNamed(rows: seq<Row>, id: Identity, person: nat)
    requires UniqueIds(rows)
    ensures Names(rows, id, person) <==> GetByIdentity(rows, id).Some? && GetByIdentity(rows, id).value.person == person
  {
    var found := GetByIdentity(rows, id);
    if found.Some? {
      var i :| 0 <= i < |rows| && rows[i] == found.value;
    }
  }

  lemma RemovedOneMore(rows: seq<Row>, last: Row, person: nat, id: Identity)
    ensures Removed(rows + [last], person, id)
      == Removed(rows, person, id) + if last.person == person && last.id == id then [] else [last]
    ensures Removed([], person, id) == []
  {
    assert (rows + [last])[..|rows|] == rows;
  }

  lemma CountOneMore(rows: seq<Row>, last: Row, person: nat)
    ensures CountVerified(rows + [last], person)
      == CountVerified(rows, person) + if last.person == person && last.verified then 1 else 0
    ensures CountVerified([], person) == 0
  {
    assert (rows + [last])[..|rows|] == rows;
  }

  /** Removing takes away one person's row for one identity and leaves every other row, in order. */
  lemma {:induction false} RemovedIsScoped(rows: seq<Row>, person: nat, id: Identity)
    requires UniqueIds(rows)
    ensures Removed(rows, person, id) == rows <==> !Names(rows, id, person)
    ensures forall r :: r in Removed(rows, person, id) <==> r in rows && !(r.person == person && r.id == id)
    ensures UniqueIds(Removed(rows, person, id))
    ensures |Removed(rows, person, id)| == |rows| - if Names(rows, id, person) then 1 else 0
  {
    hide Removed, Names;
    if rows == [] {
      RemovedOneMore([], Row(id, person, true), person, id);
      NothingNamed(id, person);
    } else {
      var front, last := rows[..|rows| - 1], rows[|rows| - 1];
      assert rows == front + [last];
      RemovedIsScoped(front, person, id);
      NamesAppended(front, last, id, person);
      RemovedOneMore(front, last, person, id);
      if last.id == id {
        NamedOnce(rows, person, id);
      }
      var left := Removed(front, person, id);
      forall i | 0 <= i < |left| ensures left[i].id != last.id {
        assert left[i] in front;
      }
      assert left + [] == left;
    }
  }

  lemma NothingNamed(id: Identity, person: nat)
    ensures !Names([], id, person)
  {}

  lemma NamedOnce(rows: seq<Row>, person: nat, id: Identity)
    requires UniqueIds(rows) && rows != [] && rows[|rows| - 1].id == id
    ensures !Names(rows[..|rows| - 1], id, person)
  {}

  lemma RemovedStillNames(rows: seq<Row>, who: nat, what: Identity, id: Identity, person: nat)
    requires UniqueIds(rows) && Names(rows, id, person) && !(who == person && what == id)
    ensures Names(Removed(rows, who, what), id, person)
  {
    hide UniqueIds, Removed;
    RemovedIsScoped(rows, who, what);
    var i :| 0 <= i < |rows| && rows[i].id == id && rows[i].person == person;
    var row, left := rows[i], Removed(rows, who, what);
    assert row in left;
    var j :| 0 <= j < |left| && left[j] == row;
  }

  lemma NamesAppended(rows: seq<Row>, last: Row, id: Identity, person: nat)
    ensures Names(rows + [last], id, person) <==> Names(rows, id, person) || (last.id == id && last.person == person)
  {
    assert (rows + [last])[|rows|] == last;
    assert forall i :: 0 <= i < |rows| ==> (rows + [last])[i] == rows[i];
  }

  /** One removal costs its person at most one verified identity, and nobody else any. */
  lemma {:induction false} RemovalCostsAtMostOne(rows: seq<Row>, person: nat, id: Identity, other: nat)
    requires UniqueIds(rows)
    ensures CountVerified(Removed(rows, person, id), person) + 1 >= CountVerified(rows, person)
    ensures other != person ==> CountVerified(Removed(rows, person, id), other) == CountVerified(rows, other)
  {
    hide Removed, CountVerified, Names;
    if rows == [] {
      RemovedOneMore([], Row(id, person, true), person, id);
    } else {
      var front, last := rows[..|rows| - 1], rows[|rows| - 1];
      assert rows == front + [last];
      RemovalCostsAtMostOne(front, person, id, other);
      var left := Removed(front, person, id);
      RemovedOneMore(front, last, person, id);
      CountOneMore(front, last, person);
      CountOneMore(front, last, other);
      CountOneMore(left, last, person);
      CountOneMore(left, last, other);
      if last.id == id {
        NamedOnce(rows, person, id);
        RemovedIsScoped(front, person, id);
        assert left + [] == left;
      }
    }
  }

  lemma {:induction false} VerifiedIsCounted(rows: seq<Row>, person: nat)
    ensures CountVerified(rows, person) > 0 <==>
      exists i :: 0 <= i < |rows| && rows[i].person == person && rows[i].verified
  {
    if rows != [] {
      var front, last := rows[..|rows| - 1], rows[|rows| - 1];
      VerifiedIsCounted(front, person);
      assert forall i :: 0 <= i < |front| ==> front[i] == rows[i];
    }
  }

  /** Two are counted exactly when two rows are the person's and verified. */
  lemma {:induction false} TwoAreCounted(rows: seq<Row>, person: nat)
    ensures CountVerified(rows, person) >= 2 <==>
      exists i, j :: 0 <= i < j < |rows| && IsVerifiedOf(rows[i], person) && IsVerifiedOf(rows[j], person)
  {
    hide CountVerified;
    if rows == [] {
      CountOneMore([], Row(Identity("", "", ""), person, true), person);
    } else {
      var front, last := rows[..|rows| - 1], rows[|rows| - 1];
      assert rows == front + [last];
      TwoAreCounted(front, person);
      VerifiedIsCounted(front, person);
      CountOneMore(front, last, person);
      if i :| 0 <= i < |front| && front[i].person == person && front[i].verified {
        assert IsVerifiedOf(rows[i], person);
      }
      if i, j :| 0 <= i < j < |front| && IsVerifiedOf(front[i], person) && IsVerifiedOf(front[j], person) {
        assert IsVerifiedOf(rows[i], person) && IsVerifiedOf(rows[j], person);
      }
      if i, j :| 0 <= i < j < |rows| && IsVerifiedOf(rows[i], person) && IsVerifiedOf(rows[j], person) {
        assert IsVerifiedOf(front[i], person);
        assert j < |front| ==> IsVerifiedOf(front[j], person);
      }
    }
  }

  predicate IsVerifiedOf(r: Row, person: nat) { r.person == person && r.verified }

  // ------------------------------------------------------------------
  // The table
  // ------------------------------------------------------------------

  class IdentityTable {
    var rows: seq<Row>

    constructor ()
      ensures rows == []
    {
      rows := [];
    }

    /** The unique index lets a row in exactly under an identity no row has; otherwise the insert fails. */
    method Add(person: nat, id: Identity, verified: bool) returns (added: bool)
      modifies this
      ensures added <==> GetByIdentity(old(rows), id).None?
      ensures rows == if added then old(rows) + [Row(id, person, verified)] else old(rows)
    {
      var held := GetByIdentity(rows, id);
      if held.Some? {
        return false;
      }
      rows := rows + [Row(id, person, verified)];
      return true;
    }

    method Remove(person: nat, id: Identity) returns (removed: nat)
      requires UniqueIds(rows)
      modifies this
      ensures rows == Removed(old(rows), person, id) && removed == |old(rows)| - |rows|
    {
      RemovedIsScoped(rows, person, id);
      var left := Removed(rows, person, id);
      removed := |rows| - |left|;
      rows := left;
    }

    method CountVerifiedOf(person: nat) returns (count: nat)
      ensures count == CountVerified(rows, person)
    {
      count := 0;
      for i := 0 to |rows|
        invariant count == CountVerified(rows[..i], person)
      {
        assert rows[..i + 1][..i] == rows[..i];
        if rows[i].person == person && rows[i].verified {
          count := count + 1;
        }
      }
      assert rows[..|rows|] == rows;
    }
  }
}
