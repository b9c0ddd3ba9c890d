/**
 * The location collection: an ownership-scoped table of Location records.
 * Queries (`findOne({ _id, userId })`, `find({ userId }).sort({ createdAt: -1 })`)
 * are functions of the table; `create`, `findOneAndUpdate` and
 * `findOneAndDelete` are methods of the class that owns it. Both record handlers
 * of the application (server.js and controllers/locationController.js) run on it.
 */
module LocationStore {
  import opened Wrappers
  import opened Js
  import ObjectIds
  import opened LocationModel

  /** No two records share an `_id` (MongoDB's unique `_id` index). */
  predicate UniqueIds(rs: seq<Location>)
  {
    forall i, j :: 0 <= i < j < |rs| ==> rs[i].id != rs[j].id
  }

  predicate IdTaken(rs: seq<Location>, id: string)
  {
    exists r :: r in rs && r.id == id
  }

  /** The filter `{ _id: id, userId }`, cast: the record id first, then the owner. */
  function Filter(id: string, owner: string): (f: Result<(string, string), StoreError>)
    ensures f.Success? <==> ObjectIds.CastObjectId(id).Some? && ObjectIds.CastObjectId(owner).Some?
    ensures f.Success? ==> f.value == (ObjectIds.CastObjectId(id).value, ObjectIds.CastObjectId(owner).value)
    ensures ObjectIds.CastObjectId(id).None? ==> f == Failure(Cast("_id"))
  {
    match ObjectIds.CastObjectId(id)
    case None => Failure(Cast("_id"))
    case Some(i) =>
      match ObjectIds.CastObjectId(owner)
      case None => Failure(Cast("userId"))
      case Some(o) => Success((i, o))
  }

  predicate Matches(r: Location, id: string, owner: string)
  {
    r.id == id && r.userId == owner
  }

  /** Position of the first record matching both id and owner, `|rs|` when none does. */
  function Position(rs: seq<Location>, id: string, owner: string): (k: nat)
    ensures k <= |rs|
    ensures k < |rs| ==> Matches(rs[k], id, owner)
    ensures forall j :: 0 <= j < k ==> !Matches(rs[j], id, owner)
  {
    if rs == [] then 0
    else if Matches(rs[0], id, owner) then 0
    else 1 + Position(rs[1..], id, owner)
  }

  function Lookup(rs: seq<Location>, id: string, owner: string): Option<Location>
  {
    var k := Position(rs, id, owner);
    if k < |rs| then Some(rs[k]) else None
  }

  /** The caller's records, in table order. */
  function OwnedBy(rs: seq<Location>, owner: string): (r: seq<Location>)
    ensures forall x :: x in r <==> x in rs && x.userId == owner
    ensures |r| <= |rs|
  {
    if rs == [] then []
    else (if rs[0].userId == owner then [rs[0]] else []) + OwnedBy(rs[1..], owner)
  }

  /** `findOne({ _id: id, userId })`: a record is returned only when it has both the id and
      the owner; otherwise the answer is the same empty one whether the id is unknown or
      belongs to someone else. */
  function FindOwned(rs: seq<Location>, id: string, owner: string): (r: Result<Option<Location>, StoreError>)
    ensures r.Failure? <==> Filter(id, owner).Failure?
    ensures r.Failure? ==> r.error == Filter(id, owner).error
    ensures r.Success? ==> r.value == Lookup(rs, Filter(id, owner).value.0, Filter(id, owner).value.1)
    ensures r.Success? && r.value.Some? ==>
              r.value.value in rs && Matches(r.value.value, Filter(id, owner).value.0, Filter(id, owner).value.1)
    ensures r.Success? && r.value.None? ==>
              forall x :: x in rs ==> !Matches(x, Filter(id, owner).value.0, Filter(id, owner).value.1)
  {
    match Filter(id, owner)
    case Failure(e) => Failure(e)
    case Success(key) =>
      var found := Lookup(rs, key.0, key.1);
      assert found.None? ==> forall x :: x in rs ==> !Matches(x, key.0, key.1) by {
        if found.None? {
          forall x | x in rs ensures !Matches(x, key.0, key.1) {
            var j :| 0 <= j < |rs| && rs[j] == x;
          }
        }
      }
      Success(found)
  }

  // ---- Newest first ---------------------------------------------------------------------

  /** Sorted by `createdAt`, descending. */
  predicate NewestFirst(s: seq<Location>)
  {
    forall i, j :: 0 <= i < j < |s| ==> s[i].createdAt >= s[j].createdAt
  }

  /** Places `x` before the first record that is strictly older. */
  function Insert(x: Location, s: seq<Location>): seq<Location>
  {
    if s == [] then [x]
    else if x.createdAt >= s[0].createdAt then [x] + s
    else [s[0]] + Insert(x, s[1..])
  }

  /** Inserting adds exactly the one record. */
  lemma {:induction false} InsertPermutes(x: Location, s: seq<Location>)
    ensures multiset(Insert(x, s)) == multiset(s) + multiset{x}
  {
    if s != [] && x.createdAt < s[0].createdAt {
      InsertPermutes(x, s[1..]);
      assert s == [s[0]] + s[1..];
    }
  }

  /** Inserting into a newest-first list keeps it newest first. */
  lemma {:induction false} InsertSorted(x: Location, s: seq<Location>)
    requires NewestFirst(s)
    ensures NewestFirst(Insert(x, s))
  {
    if s == [] {
    } else if x.createdAt >= s[0].createdAt {
      PrependNewest(x, s);
    } else {
      var rest := Insert(x, s[1..]);
      InsertSorted(x, s[1..]);
      InsertPermutes(x, s[1..]);
      HeadIsOldestBound(s);
      assert forall y :: y in rest ==> s[0].createdAt >= y.createdAt by {
        forall y | y in rest ensures s[0].createdAt >= y.createdAt {
          assert y in multiset(rest);
        }
      }
      PrependNewest(s[0], rest);
    }
  }

  /** The head of a newest-first list is at least as new as everything after it. */
  lemma HeadIsOldestBound(s: seq<Location>)
    requires NewestFirst(s) && s != []
    ensures forall y :: y in multiset(s[1..]) ==> s[0].createdAt >= y.createdAt
  {
    forall y | y in multiset(s[1..]) ensures s[0].createdAt >= y.createdAt {
      var k :| 0 <= k < |s| - 1 && s[1..][k] == y;
      assert s[k + 1] == y;
    }
  }

  /** A record no older than any of a newest-first list can go in front of it. */
  lemma PrependNewest(a: Location, t: seq<Location>)
    requires NewestFirst(t)
    requires forall y :: y in t ==> a.createdAt >= y.createdAt
    ensures NewestFirst([a] + t)
  {
    var s := [a] + t;
    forall i, j | 0 <= i < j < |s| ensures s[i].createdAt >= s[j].createdAt {
      assert s[j] == t[j - 1];
      if i > 0 {
        assert s[i] == t[i - 1];
      }
    }
  }

  /** The order of `.sort({ createdAt: -1 })`. Records created at the same instant keep
      their table order; the database itself promises no order among them. */
  function SortNewestFirst(s: seq<Location>): (r: seq<Location>)
    ensures NewestFirst(r)
    ensures multiset(r) == multiset(s)
  {
    if s == [] then []
    else
      var rest := SortNewestFirst(s[1..]);
      InsertSorted(s[0], rest);
      InsertPermutes(s[0], rest);
      assert s == [s[0]] + s[1..];
      Insert(s[0], rest)
  }

  /** `find({ userId }).sort({ createdAt: -1 })`: exactly the caller's records, each as
      often as it is stored, newest first. */
  function ListOwned(rs: seq<Location>, owner: string): (r: Result<seq<Location>, StoreError>)
    ensures r.Failure? <==> ObjectIds.CastObjectId(owner).None?
    ensures r.Success? ==> NewestFirst(r.value)
    ensures r.Success? ==> multiset(r.value) == multiset(OwnedBy(rs, ObjectIds.CastObjectId(owner).value))
    ensures r.Success? ==> forall x :: x in r.value ==> x in rs && Some(x.userId) == ObjectIds.CastObjectId(owner)
  {
    match ObjectIds.CastObjectId(owner)
    case None => Failure(Cast("userId"))
    case Some(o) =>
      var l := SortNewestFirst(OwnedBy(rs, o));
      assert forall x :: x in l ==> x in OwnedBy(rs, o) by {
        forall x | x in l ensures x in OwnedBy(rs, o) {
          assert x in multiset(l);
        }
      }
      Success(l)
  }

  // ---- Properties of the queries ----------------------------------------------------------

  /** Looking a record up among the caller's records finds what looking it up in the whole
      table finds. */
  lemma {:induction false} LookupAmongOwned(rs: seq<Location>, id: string, owner: string)
    ensures Lookup(rs, id, owner) == Lookup(OwnedBy(rs, owner), id, owner)
  {
    if rs != [] {
      var tail := OwnedBy(rs[1..], owner);
      if Matches(rs[0], id, owner) {
        assert OwnedBy(rs, owner) == [rs[0]] + tail;
        assert Position(OwnedBy(rs, owner), id, owner) == 0;
      } else {
        LookupAmongOwned(rs[1..], id, owner);
        assert Position(rs, id, owner) == 1 + Position(rs[1..], id, owner);
        assert Lookup(rs, id, owner) == Lookup(rs[1..], id, owner);
        if rs[0].userId == owner {
          var o := [rs[0]] + tail;
          assert OwnedBy(rs, owner) == o;
          assert o[1..] == tail;
          assert Position(o, id, owner) == 1 + Position(tail, id, owner);
          assert Lookup(o, id, owner) == Lookup(tail, id, owner);
        } else {
          assert OwnedBy(rs, owner) == tail;
        }
      }
    }
  }

  /** Records of other users are invisible: two tables that hold the same records for the
      caller give the caller the same answers to get and to list, so a caller cannot tell
      another user's record from a missing one. */
  lemma OtherOwnersInvisible(rs1: seq<Location>, rs2: seq<Location>, id: string, owner: string)
    requires ObjectIds.CastObjectId(owner).Some?
    requires OwnedBy(rs1, ObjectIds.CastObjectId(owner).value) == OwnedBy(rs2, ObjectIds.CastObjectId(owner).value)
    ensures FindOwned(rs1, id, owner) == FindOwned(rs2, id, owner)
    ensures ListOwned(rs1, owner) == ListOwned(rs2, owner)
  {
    var o := ObjectIds.CastObjectId(owner).value;
    if ObjectIds.CastObjectId(id).Some? {
      var i := ObjectIds.CastObjectId(id).value;
      LookupAmongOwned(rs1, i, o);
      LookupAmongOwned(rs2, i, o);
    }
  }

  /** A record created strictly after every stored one is listed for its owner exactly
      once, at the head of the list. */
  lemma NewestCreatedListedFirst(rs: seq<Location>, x: Location, owner: string)
    requires ObjectIds.CastObjectId(owner) == Some(x.userId)
    requires !IdTaken(rs, x.id)
    requires forall r :: r in rs ==> r.createdAt < x.createdAt
    ensures ListOwned(rs + [x], owner).Success?
    ensures var l := ListOwned(rs + [x], owner).value; |l| > 0 && l[0] == x && multiset(l)[x] == 1
  {
    var o := x.userId;
    var l := ListOwned(rs + [x], owner).value;
    OwnedByAppend(rs, x, o);
    var mine := OwnedBy(rs, o);
    assert forall y :: y in mine ==> y.createdAt < x.createdAt;
    NewestAddedLeads(l, mine, x);
  }

  /** A newest-first arrangement of `mine` plus one record newer than all of `mine` starts
      with that record and holds it once. */
  lemma NewestAddedLeads(l: seq<Location>, mine: seq<Location>, x: Location)
    requires NewestFirst(l)
    requires multiset(l) == multiset(mine) + multiset{x}
    requires forall y :: y in mine ==> y.createdAt < x.createdAt
    ensures |l| > 0 && l[0] == x && multiset(l)[x] == 1
  {
    assert x !in multiset(mine);
    assert x in multiset(l);
    forall y | y in l && y != x ensures y.createdAt < x.createdAt {
      assert y in multiset(l);
      assert y in multiset(mine);
    }
    HeadIsNewest(l, x);
  }

  /** In a newest-first list, a member strictly newer than all others is its head. */
  lemma HeadIsNewest(l: seq<Location>, x: Location)
    requires NewestFirst(l) && x in l
    requires forall y :: y in l && y != x ==> y.createdAt < x.createdAt
    ensures l[0] == x
  {
    var j :| 0 <= j < |l| && l[j] == x;
    assert l[0].createdAt >= l[j].createdAt;
  }

  lemma OwnedByAppend(rs: seq<Location>, x: Location, owner: string)
    requires x.userId == owner
    ensures OwnedBy(rs + [x], owner) == OwnedBy(rs, owner) + [x]
  {
    if rs != [] {
      assert (rs + [x])[1..] == rs[1..] + [x];
      OwnedByAppend(rs[1..], x, owner);
    } else {
      assert OwnedBy([x], owner) == [x] + OwnedBy([], owner);
    }
  }

  /** Appending a record under a fresh id keeps ids unique. */
  lemma AppendKeepsUnique(rs: seq<Location>, x: Location)
    requires UniqueIds(rs) && !IdTaken(rs, x.id)
    ensures UniqueIds(rs + [x])
  {
    var t := rs + [x];
    forall i, j | 0 <= i < j < |t| ensures t[i].id != t[j].id {
      assert t[i] == rs[i];
      if j == |rs| {
        assert t[i] in rs;
      } else {
        assert t[j] == rs[j];
      }
    }
  }

  /** Removing the record at `k` keeps ids unique and keeps only stored records. */
  lemma RemoveKeepsUnique(rs: seq<Location>, k: nat)
    requires UniqueIds(rs) && k < |rs|
    ensures UniqueIds(rs[..k] + rs[k + 1..])
    ensures forall x :: x in rs[..k] + rs[k + 1..] ==> x in rs
  {
    var t := rs[..k] + rs[k + 1..];
    assert forall j :: 0 <= j < k ==> t[j] == rs[j];
    assert forall j :: k <= j < |t| ==> t[j] == rs[j + 1];
    forall i, j | 0 <= i < j < |t| ensures t[i].id != t[j].id {
      var i', j' := if i < k then i else i + 1, if j < k then j else j + 1;
      assert t[i] == rs[i'] && t[j] == rs[j'];
    }
    forall x | x in t ensures x in rs {
      var j :| 0 <= j < |t| && t[j] == x;
      assert x == rs[if j < k then j else j + 1];
    }
  }

  /** With unique ids, removing the first match leaves nothing that matches. */
  lemma RemoveLeavesNoMatch(rs: seq<Location>, id: string, owner: string)
    requires UniqueIds(rs) && Position(rs, id, owner) < |rs|
    ensures var k := Position(rs, id, owner); Lookup(rs[..k] + rs[k + 1..], id, owner) == None
  {
    var k := Position(rs, id, owner);
    var t := rs[..k] + rs[k + 1..];
    forall j | 0 <= j < |t| ensures !Matches(t[j], id, owner) {
      var j' := if j < k then j else j + 1;
      assert t[j] == rs[j'];
    }
  }

  // ---- The table ----------------------------------------------------------------------

  class LocationTable {
    var records: seq<Location>

    /** Ids are unique and every record meets the schema's constraints. */
    ghost predicate Valid()
      reads this
    {
      UniqueIds(records) && forall r :: r in records ==> LocationModel.Valid(r)
    }

    constructor ()
      ensures Valid() && records == []
    {
      records := [];
    }

    /** `Location.create(...)`: validates the new document, then inserts it under the
        fresh id the driver generated; an id already in use is a duplicate key. */
    method Create(id: string, owner: string, body: Body, now: nat) returns (res: Result<Location, StoreError>)
      requires Valid()
      modifies this
      ensures Valid()
      ensures NewRecord(id, owner, body, now).Failure? ==> res == NewRecord(id, owner, body, now)
      ensures NewRecord(id, owner, body, now).Success? && IdTaken(old(records), id) ==> res == Failure(DuplicateKey)
      ensures NewRecord(id, owner, body, now).Success? && !IdTaken(old(records), id) ==> res == NewRecord(id, owner, body, now)
      ensures res.Success? ==> records == old(records) + [res.value]
      ensures res.Failure? ==> records == old(records)
    {
      res := NewRecord(id, owner, body, now);
      if res.Success? {
        if exists r :: r in records && r.id == id {
          res := Failure(DuplicateKey);
        } else {
          AppendKeepsUnique(records, res.value);
          records := records + [res.value];
        }
      }
    }

    /** `findOneAndUpdate({ _id: id, userId }, body, { new: true, runValidators: true })`:
        the filter is cast, then the body is cast and validated, and only then is the one
        matching record replaced by its updated version, which is returned. */
    method Update(id: string, owner: string, body: Body, now: nat) returns (res: Result<Option<Location>, StoreError>)
      requires Valid()
      modifies this
      ensures Valid()
      ensures Filter(id, owner).Failure? ==> res == Failure(Filter(id, owner).error)
      ensures Filter(id, owner).Success? && CheckPatch(body).Failure? ==> res == Failure(CheckPatch(body).error)
      ensures res.Failure? ==> records == old(records)
      ensures res.Success? <==> Filter(id, owner).Success? && CheckPatch(body).Success?
      ensures res.Success? ==> (res.value.None? <==> FindOwned(old(records), id, owner) == Success(None))
      ensures res == Success(None) ==> records == old(records)
      ensures res.Success? && res.value.Some? ==>
                var key := Filter(id, owner).value;
                var k := Position(old(records), key.0, key.1);
                && k < |old(records)|
                && res.value.value == ApplyPatch(old(records)[k], CheckPatch(body).value, now)
                && records == old(records)[k := res.value.value]
    {
      var key :- Filter(id, owner);
      var patch :- CheckPatch(body);
      var k := Position(records, key.0, key.1);
      if k == |records| {
        return Success(None);
      }
      var updated := ApplyPatch(records[k], patch, now);
      ApplyPatchKeepsValid(records[k], body, now);
      records := records[k := updated];
      res := Success(Some(updated));
    }

    /** `findOneAndDelete({ _id: id, userId })`: removes only the matched record and returns
        it; afterwards nothing matches, so deleting again finds nothing. */
    method Delete(id: string, owner: string) returns (res: Result<Option<Location>, StoreError>)
      requires Valid()
      modifies this
      ensures Valid()
      ensures Filter(id, owner).Failure? ==> res == Failure(Filter(id, owner).error)
      ensures res.Failure? <==> Filter(id, owner).Failure?
      ensures res.Failure? ==> records == old(records)
      ensures res.Success? ==> res.value == Lookup(old(records), Filter(id, owner).value.0, Filter(id, owner).value.1)
      ensures res == Success(None) ==> records == old(records)
      ensures res.Success? && res.value.Some? ==>
                var k := Position(old(records), Filter(id, owner).value.0, Filter(id, owner).value.1);
                records == old(records)[..k] + old(records)[k + 1..]
      ensures res.Success? ==> FindOwned(records, id, owner) == Success(None)
    {
      var key :- Filter(id, owner);
      var k := Position(records, key.0, key.1);
      if k == |records| {
        return Success(None);
      }
      var gone := records[k];
      RemoveKeepsUnique(records, k);
      RemoveLeavesNoMatch(records, key.0, key.1);
      records := records[..k] + records[k + 1..];
      res := Success(Some(gone));
    }
  }
}
