/**
  The prestation catalog store: the records of app/services/prestationService.ts
  and the class that keeps them in one persisted slot of the browser's
  key-value storage.

  The storage slot is the field `slot` of `PrestationStore` (`None` when the
  key is absent), the "storage" broadcast that follows every write is counted
  by the ghost field `saves`, and the identifier that the code derives from
  the clock and a random number is a parameter of `AddPrestation`.
 */
module PrestationService {

  datatype Option<T> = None | Some(value: T)

  /** Both parts are kept as the text the operator typed ("1", "00", "30", ""). */
  datatype Duration = Duration(hours: string, minutes: string)

  datatype Category = Femmes | Hommes | Enfants

  /** The `type` field: 'prestation' (a single service) or 'forfait' (a package). */
  datatype Kind = SingleService | Forfait

  datatype Status = Active | Pending

  datatype Source = Manual | Flyer

  /** A catalog record; `source` is optional in the stored data. */
  datatype Prestation = Prestation(
    id: string,
    category: Category,
    kind: Kind,
    name: string,
    price: string,
    startingPrice: bool,
    duration: Duration,
    description: string,
    photos: seq<string>,
    status: Status,
    source: Option<Source>)

  /** What `addPrestation` is given: a record without `id` and `status`. */
  datatype Draft = Draft(
    category: Category,
    kind: Kind,
    name: string,
    price: string,
    startingPrice: bool,
    duration: Duration,
    description: string,
    photos: seq<string>,
    source: Option<Source>)

  /** The fields of a record other than `id` and `status`. */
  function DraftOf(p: Prestation): Draft
  {
    Draft(p.category, p.kind, p.name, p.price, p.startingPrice, p.duration,
          p.description, p.photos, p.source)
  }

  /** The identifiers of a collection, position by position. */
  function Ids(ps: seq<Prestation>): seq<string>
  {
    seq(|ps|, k requires 0 <= k < |ps| => ps[k].id)
  }

  /** The record built by `addPrestation`: the draft's fields, the new id, a
      status derived from the source, and the source argument in place of
      whatever source the draft carried. */
  function NewPrestation(d: Draft, id: string, source: Source): (p: Prestation)
    ensures p.id == id
    ensures p.status == Pending <==> source == Flyer
    ensures p.status == Active <==> source == Manual
    ensures p.source == Some(source)
    ensures DraftOf(p) == d.(source := Some(source))
  {
    Prestation(id, d.category, d.kind, d.name, d.price, d.startingPrice,
               d.duration, d.description, d.photos,
               if source == Flyer then Pending else Active,
               Some(source))
  }

  /** `findIndex` on the id: the first position whose record has `id`, or -1. */
  function IndexOf(ps: seq<Prestation>, id: string): (r: int)
    ensures -1 <= r < |ps|
    ensures r == -1 <==> forall k :: 0 <= k < |ps| ==> ps[k].id != id
    ensures r != -1 ==> ps[r].id == id
    ensures r != -1 ==> forall k :: 0 <= k < r ==> ps[k].id != id
    decreases |ps|
  {
    if |ps| == 0 then -1
    else if ps[0].id == id then 0
    else
      var k := IndexOf(ps[1..], id);
      if k == -1 then -1 else k + 1
  }

  /** `find` on the id: the first record with `id`, or nothing. */
  function Lookup(ps: seq<Prestation>, id: string): (r: Option<Prestation>)
    ensures r.None? <==> forall k :: 0 <= k < |ps| ==> ps[k].id != id
    ensures r.Some? ==> r.value.id == id
    ensures r.Some? ==> exists k :: 0 <= k < |ps| && ps[k] == r.value &&
                                    forall j :: 0 <= j < k ==> ps[j].id != id
  {
    var i := IndexOf(ps, id);
    if i == -1 then None else Some(ps[i])
  }

  /** The collection after `updatePrestation(p)`, or `None` when no record has
      `p.id` (the code then writes nothing). */
  function UpdateFirst(ps: seq<Prestation>, p: Prestation): (r: Option<seq<Prestation>>)
    ensures r.None? <==> forall k :: 0 <= k < |ps| ==> ps[k].id != p.id
    ensures r.Some? ==> |r.value| == |ps| && Ids(r.value) == Ids(ps)
    ensures r.Some? ==> r.value[IndexOf(ps, p.id)] == p
    ensures r.Some? ==> forall k :: 0 <= k < |ps| && k != IndexOf(ps, p.id) ==> r.value[k] == ps[k]
  {
    var i := IndexOf(ps, p.id);
    if i == -1 then None else Some(ps[i := p])
  }

  /** The collection after `updatePrestationStatus(id, status)`, or `None` when
      no record has `id`. */
  function SetStatusFirst(ps: seq<Prestation>, id: string, status: Status): (r: Option<seq<Prestation>>)
    ensures r.None? <==> forall k :: 0 <= k < |ps| ==> ps[k].id != id
    ensures r.Some? ==> |r.value| == |ps| && Ids(r.value) == Ids(ps)
    ensures r.Some? ==> var i := IndexOf(ps, id);
                        r.value[i].status == status && r.value[i].(status := ps[i].status) == ps[i]
    ensures r.Some? ==> forall k :: 0 <= k < |ps| && k != IndexOf(ps, id) ==> r.value[k] == ps[k]
  {
    var i := IndexOf(ps, id);
    if i == -1 then None else Some(ps[i := ps[i].(status := status)])
  }

  /** `filter(p => p.id !== id)`: every record with another id, in order. */
  function RemoveAll(ps: seq<Prestation>, id: string): (r: seq<Prestation>)
    ensures |r| <= |ps|
    ensures forall k :: 0 <= k < |r| ==> r[k].id != id
    ensures forall q :: q in r ==> q in ps
    ensures forall q :: q in ps && q.id != id ==> q in r
    decreases |ps|
  {
    if |ps| == 0 then []
    else if ps[0].id == id then RemoveAll(ps[1..], id)
    else [ps[0]] + RemoveAll(ps[1..], id)
  }

  /** How many records of `ps` carry `id`. */
  function CountId(ps: seq<Prestation>, id: string): nat
    decreases |ps|
  {
    if |ps| == 0 then 0
    else (if ps[0].id == id then 1 else 0) + CountId(ps[1..], id)
  }

  /** `a` is `b` with some elements left out and the rest in their order. */
  predicate IsSubsequence<T(==)>(a: seq<T>, b: seq<T>)
    decreases |b|
  {
    if |a| == 0 then true
    else if |b| == 0 then false
    else if a[0] == b[0] then IsSubsequence(a[1..], b[1..])
    else IsSubsequence(a, b[1..])
  }

  /** Mirrors `findIndex(p => p.id === id)`: a scan from the front. */
  method FindIndex(ps: seq<Prestation>, id: string) returns (index: int)
    ensures index == IndexOf(ps, id)
  {
    index := 0;
    while index < |ps|
      invariant 0 <= index <= |ps|
      invariant forall k :: 0 <= k < index ==> ps[k].id != id
    {
      if ps[index].id == id {
        return;
      }
      index := index + 1;
    }
    index := -1;
  }

  /** The persisted catalog: one storage slot holding the whole collection. */
  class PrestationStore {
    /** The 'prestations' entry of the key-value storage; `None` when absent. */
    var slot: Option<seq<Prestation>>
    /** How many times the collection was written and the change broadcast. */
    ghost var saves: nat

    /** The collection a read of the slot yields. */
    function Stored(): seq<Prestation>
      reads this
    {
      if slot.Some? then slot.value else []
    }

    constructor (initial: Option<seq<Prestation>>)
      ensures slot == initial && saves == 0
    {
      slot := initial;
      saves := 0;
    }

    method GetPrestations() returns (ps: seq<Prestation>)
      ensures slot.None? ==> ps == []
      ensures slot.Some? ==> ps == slot.value
    {
      ps := if slot.Some? then slot.value else [];
    }

    /** Mirrors `find`: the first stored record with `id`, or nothing. */
    method GetPrestation(id: string) returns (r: Option<Prestation>)
      ensures r == Lookup(Stored(), id)
    {
      var ps := GetPrestations();
      var i := 0;
      while i < |ps|
        invariant 0 <= i <= |ps|
        invariant forall k :: 0 <= k < i ==> ps[k].id != id
      {
        if ps[i].id == id {
          return Some(ps[i]);
        }
        i := i + 1;
      }
      r := None;
    }

    method AddPrestation(d: Draft, id: string, source: Source := Manual) returns (p: Prestation)
      modifies this
      ensures p == NewPrestation(d, id, source)
      ensures slot == Some(old(Stored()) + [p])
      ensures saves == old(saves) + 1
    {
      var ps := GetPrestations();
      p := NewPrestation(d, id, source);
      ps := ps + [p];
      SavePrestations(ps);
    }

    method UpdatePrestation(p: Prestation)
      modifies this
      ensures match UpdateFirst(old(Stored()), p)
              case None => slot == old(slot) && saves == old(saves)
              case Some(ps) => slot == Some(ps) && saves == old(saves) + 1
    {
      var ps := GetPrestations();
      var index := FindIndex(ps, p.id);
      if index != -1 {
        ps := ps[index := p];
        SavePrestations(ps);
      }
    }

    method DeletePrestation(id: string)
      modifies this
      ensures slot == Some(RemoveAll(old(Stored()), id))
      ensures saves == old(saves) + 1
    {
      var ps := GetPrestations();
      var filtered := RemoveAll(ps, id);
      SavePrestations(filtered);
    }

    method UpdatePrestationStatus(id: string, status: Status)
      modifies this
      ensures match SetStatusFirst(old(Stored()), id, status)
              case None => slot == old(slot) && saves == old(saves)
              case Some(ps) => slot == Some(ps) && saves == old(saves) + 1
    {
      var ps := GetPrestations();
      var index := FindIndex(ps, id);
      if index != -1 {
        ps := ps[index := ps[index].(status := status)];
        SavePrestations(ps);
      }
    }

    /** Writes the whole collection to the slot and broadcasts the change. */
    method SavePrestations(ps: seq<Prestation>)
      modifies this
      ensures slot == Some(ps)
      ensures saves == old(saves) + 1
    {
      slot := Some(ps);
      saves := saves + 1;
    }
  }

  /** With an id no stored record has, the added record is what `getPrestation`
      finds afterwards. */
  lemma AddedIsFound(ps: seq<Prestation>, d: Draft, id: string, source: Source)
    requires forall k :: 0 <= k < |ps| ==> ps[k].id != id
    ensures Lookup(ps + [NewPrestation(d, id, source)], id) == Some(NewPrestation(d, id, source))
  {
    var qs := ps + [NewPrestation(d, id, source)];
    assert qs[|ps|].id == id;
    assert IndexOf(qs, id) == |ps|;
  }

  /** The code never checks a new id for uniqueness: when the id is already
      taken, the older record keeps answering lookups. */
  lemma DuplicateIdIsShadowed(ps: seq<Prestation>, d: Draft, id: string, source: Source)
    requires exists k :: 0 <= k < |ps| && ps[k].id == id
    ensures Lookup(ps + [NewPrestation(d, id, source)], id) == Lookup(ps, id)
  {
    var qs := ps + [NewPrestation(d, id, source)];
    var i := IndexOf(ps, id);
    assert qs[i] == ps[i];
    assert IndexOf(qs, id) == i;
  }

  /** After a successful update, a lookup of the id yields the new record. */
  lemma UpdatedIsFound(ps: seq<Prestation>, p: Prestation)
    requires exists k :: 0 <= k < |ps| && ps[k].id == p.id
    ensures UpdateFirst(ps, p).Some?
    ensures Lookup(UpdateFirst(ps, p).value, p.id) == Some(p)
  {
  }

  /** After a successful status change, a lookup of the id yields the former
      record with only its status changed. */
  lemma StatusChangeIsFound(ps: seq<Prestation>, id: string, status: Status)
    requires exists k :: 0 <= k < |ps| && ps[k].id == id
    ensures SetStatusFirst(ps, id, status).Some?
    ensures Lookup(SetStatusFirst(ps, id, status).value, id)
            == Some(Lookup(ps, id).value.(status := status))
  {
  }

  /** Deleting an id that no record carries still yields the same collection. */
  lemma {:induction false} RemoveAllAbsent(ps: seq<Prestation>, id: string)
    requires forall k :: 0 <= k < |ps| ==> ps[k].id != id
    ensures RemoveAll(ps, id) == ps
    decreases |ps|
  {
    if |ps| > 0 {
      RemoveAllAbsent(ps[1..], id);
      assert ps == [ps[0]] + ps[1..];
    }
  }

  /** Deleting twice is deleting once. */
  lemma RemoveAllIdempotent(ps: seq<Prestation>, id: string)
    ensures RemoveAll(RemoveAll(ps, id), id) == RemoveAll(ps, id)
  {
    RemoveAllAbsent(RemoveAll(ps, id), id);
  }

  /** After a delete, the id is not found. */
  lemma DeletedIsNotFound(ps: seq<Prestation>, id: string)
    ensures Lookup(RemoveAll(ps, id), id) == None
  {
  }

  /** The remaining records keep their relative order. */
  lemma {:induction false} RemoveAllKeepsOrder(ps: seq<Prestation>, id: string)
    ensures IsSubsequence(RemoveAll(ps, id), ps)
    decreases |ps|
  {
    if |ps| > 0 {
      RemoveAllKeepsOrder(ps[1..], id);
      var rest := RemoveAll(ps[1..], id);
      if ps[0].id == id {
        if |rest| > 0 {
          assert rest[0] != ps[0];
        }
      } else {
        assert ([ps[0]] + rest)[1..] == rest;
      }
    }
  }

  /** Exactly the records carrying `id` are removed (all of them, not only the
      first). */
  lemma {:induction false} RemoveAllCount(ps: seq<Prestation>, id: string)
    ensures |RemoveAll(ps, id)| == |ps| - CountId(ps, id)
    decreases |ps|
  {
    if |ps| > 0 {
      RemoveAllCount(ps[1..], id);
    }
  }

  /** Update and status change never alter which ids sit where, so the first
      position of any id is the same afterwards. */
  lemma UpdateKeepsPositions(ps: seq<Prestation>, p: Prestation, id: string, status: Status, other: string)
    ensures UpdateFirst(ps, p).Some? ==> IndexOf(UpdateFirst(ps, p).value, other) == IndexOf(ps, other)
    ensures SetStatusFirst(ps, id, status).Some? ==>
              IndexOf(SetStatusFirst(ps, id, status).value, other) == IndexOf(ps, other)
  {
  }
}
