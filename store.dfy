/** An in-memory stand-in for one document collection of the database.
    Every document carries a numeric id (the ObjectId); documents are kept in
    insertion order, which is the order a plain `find()` returns them in. */
module Store {

  import opened Wrappers

  /** A stored document: its id and its field values. */
  datatype Doc<T> = Doc(id: nat, val: T)

  /** Ids grow strictly along the collection, so each id occurs at most once. */
  ghost predicate IdsAscending<T>(docs: seq<Doc<T>>) {
    forall i, j :: 0 <= i < j < |docs| ==> docs[i].id < docs[j].id
  }

  predicate HasId<T>(docs: seq<Doc<T>>, id: nat) {
    exists i :: 0 <= i < |docs| && docs[i].id == id
  }

  /** Position of the document with the given id (`findById`). */
  function Find<T>(docs: seq<Doc<T>>, id: nat): (k: Option<nat>)
    ensures k.Some? ==> k.value < |docs| && docs[k.value].id == id
    ensures k.None? <==> !HasId(docs, id)
  {
    if docs == [] then None
    else if docs[0].id == id then Some(0)
    else match Find(docs[1..], id)
      case None => assert forall i :: 1 <= i < |docs| ==> docs[i] == docs[1..][i - 1]; None
      case Some(k) => Some(k + 1)
  }

  /** With ascending ids, the position of an id is unique. */
  lemma FindUnique<T>(docs: seq<Doc<T>>, id: nat, i: nat)
    requires IdsAscending(docs)
    requires i < |docs| && docs[i].id == id
    ensures Find(docs, id) == Some(i)
  {
  }

  /** The document with the given id, if any. */
  function Lookup<T>(docs: seq<Doc<T>>, id: nat): (r: Option<T>)
    ensures r.Some? <==> HasId(docs, id)
    ensures r.Some? ==> exists i :: 0 <= i < |docs| && docs[i] == Doc(id, r.value)
  {
    match Find(docs, id)
    case None => None
    case Some(k) => Some(docs[k].val)
  }

  /** The collection without the document with the given id. */
  function Without<T>(docs: seq<Doc<T>>, id: nat): (r: seq<Doc<T>>)
    ensures !HasId(r, id)
    ensures forall i :: 0 <= i < |r| ==> r[i] in docs && r[i].id != id
    ensures forall i :: 0 <= i < |docs| && docs[i].id != id ==> docs[i] in r
    ensures |r| <= |docs|
  {
    if docs == [] then []
    else if docs[0].id == id then Without(docs[1..], id)
    else [docs[0]] + Without(docs[1..], id)
  }

  class Collection<T> {
    var docs: seq<Doc<T>>
    var nextId: nat

    ghost predicate Valid()
      reads this
    {
      IdsAscending(docs) && forall i :: 0 <= i < |docs| ==> docs[i].id < nextId
    }

    constructor ()
      ensures Valid() && docs == []
    {
      docs := [];
      nextId := 0;
    }

    /** Stores a new document under a fresh id, after all others. */
    method Insert(v: T) returns (id: nat)
      requires Valid()
      modifies this
      ensures Valid()
      ensures id == old(nextId) && !HasId(old(docs), id)
      ensures docs == old(docs) + [Doc(id, v)]
    {
      id := nextId;
      docs := docs + [Doc(id, v)];
      nextId := nextId + 1;
    }

    /** Overwrites the fields of the document at position `k`, keeping its id. */
    method Put(k: nat, v: T)
      requires Valid() && k < |docs|
      modifies this
      ensures Valid() && nextId == old(nextId)
      ensures docs == old(docs)[k := Doc(old(docs)[k].id, v)]
    {
      docs := docs[k := Doc(docs[k].id, v)];
    }

    /** Deletes the document at position `k` and returns it. */
    method RemoveAt(k: nat) returns (gone: Doc<T>)
      requires Valid() && k < |docs|
      modifies this
      ensures Valid() && nextId == old(nextId)
      ensures gone == old(docs)[k]
      ensures docs == old(docs)[..k] + old(docs)[k + 1..]
    {
      gone := docs[k];
      docs := docs[..k] + docs[k + 1..];
    }
  }
}
