/** The generic document store of libs/common/src/database/abstract.repository.ts:
    a collection of records, each with its own `_id`, queried by filters. */
module Database {
  import opened Common
  import Numerals

  /** An ObjectId, as a natural number; ids are not bounded to twelve bytes. */
  type ObjectId = nat

  /** `_id.toHexString()`: lower-case hex, zero-padded to at least 24 digits. */
  function ToHexString(id: ObjectId): (s: string)
    ensures |s| >= 24
  {
    Numerals.Render(id, 16, 24)
  }

  /** Distinct ids have distinct hex forms, so a hex id names one record. */
  lemma HexStringInjective(a: ObjectId, b: ObjectId)
    requires ToHexString(a) == ToHexString(b)
    ensures a == b
  {
    Numerals.RenderInjective(a, b, 16, 24);
  }

  /** A stored document: its `_id` and the rest of its fields. */
  datatype Record<T> = Record(id: ObjectId, body: T)

  /** The filter `{ _id: id }`, with the id given in its hex form. */
  function ById<T(!new)>(id: string): (f: Record<T> -> bool)
    ensures forall d: Record<T> :: f(d) <==> ToHexString(d.id) == id
  {
    (d: Record<T>) => ToHexString(d.id) == id
  }

  const NotFoundMessage := "Document not found "
  /** The message of the update and delete paths; a filter object prints
      as "[object Object]" inside a template literal. */
  const NotFoundForFilterMessage := "Document not found for filterQuery: [object Object]"

  ghost predicate UniqueIds<T>(docs: seq<Record<T>>)
  {
    forall i, j :: 0 <= i < j < |docs| ==> docs[i].id != docs[j].id
  }

  /** The index of the first record, in store order, that the filter accepts. */
  function FirstMatch<T>(docs: seq<Record<T>>, filter: Record<T> -> bool): (r: Option<nat>)
    ensures r.Some? ==> r.value < |docs| && filter(docs[r.value])
    ensures r.Some? ==> forall j :: 0 <= j < r.value ==> !filter(docs[j])
    ensures r.None? <==> forall j :: 0 <= j < |docs| ==> !filter(docs[j])
  {
    if docs == [] then None
    else if filter(docs[0]) then Some(0)
    else match FirstMatch(docs[1..], filter)
      case None => None
      case Some(i) => Some(i + 1)
  }

  /** The positions of the records the filter accepts: strictly increasing,
      each one a match, and every match among them. */
  ghost function MatchIndices<T>(docs: seq<Record<T>>, filter: Record<T> -> bool): (idx: seq<nat>)
    ensures forall a, b :: 0 <= a < b < |idx| ==> idx[a] < idx[b]
    ensures forall a :: 0 <= a < |idx| ==> idx[a] < |docs| && filter(docs[idx[a]])
    ensures forall j :: 0 <= j < |docs| && filter(docs[j]) ==> j in idx
  {
    if docs == [] then []
    else
      var n := |docs| - 1;
      var prefix := MatchIndices(docs[..n], filter);
      assert forall j :: 0 <= j < n ==> docs[..n][j] == docs[j];
      prefix + (if filter(docs[n]) then [n] else [])
  }

  /** The records the filter accepts, each once, in store order: the
      subsequence of the store at the matching positions. */
  function Matching<T>(docs: seq<Record<T>>, filter: Record<T> -> bool): (rs: seq<Record<T>>)
    ensures |rs| == |MatchIndices(docs, filter)| <= |docs|
    ensures forall k :: 0 <= k < |rs| ==> rs[k] == docs[MatchIndices(docs, filter)[k]]
    ensures forall k :: 0 <= k < |rs| ==> rs[k] in docs && filter(rs[k])
    ensures forall k :: 0 <= k < |docs| && filter(docs[k]) ==> docs[k] in rs
  {
    if docs == [] then []
    else
      var n := |docs| - 1;
      assert forall j :: 0 <= j < n ==> docs[..n][j] == docs[j];
      Matching(docs[..n], filter) + (if filter(docs[n]) then [docs[n]] else [])
  }

  lemma SplitLast<T>(s: seq<T>)
    requires s != []
    ensures s == s[..|s| - 1] + [s[|s| - 1]]
  {
  }

  /** One step of `Matching`: the store's last record is kept exactly when
      the filter accepts it. */
  lemma MatchingStep<T>(docs: seq<Record<T>>, filter: Record<T> -> bool)
    requires docs != []
    ensures var n := |docs| - 1;
      Matching(docs, filter) == Matching(docs[..n], filter) + (if filter(docs[n]) then [docs[n]] else [])
  {
  }

  /** A filter that accepts every record, such as the empty filter `{}`,
      returns the whole store, so `find({})` is the collection in order. */
  lemma {:induction false} MatchingEverything<T>(docs: seq<Record<T>>, filter: Record<T> -> bool)
    requires forall k :: 0 <= k < |docs| ==> filter(docs[k])
    ensures Matching(docs, filter) == docs
  {
    if docs != [] {
      var n := |docs| - 1;
      var prefix := docs[..n];
      assert forall k :: 0 <= k < n ==> prefix[k] == docs[k];
      MatchingEverything(prefix, filter);
      MatchingStep(docs, filter);
      SplitLast(docs);
    }
  }

  /** With unique ids, `{ _id: id }` finds the one record whose id has that hex form. */
  lemma {:induction false} OnlyOneWithId<T(!new)>(docs: seq<Record<T>>, k: nat, id: string)
    requires UniqueIds(docs) && k < |docs| && ToHexString(docs[k].id) == id
    ensures FirstMatch(docs, ById(id)) == Some(k)
  {
    assert ById(id)(docs[k]);
    var i := FirstMatch(docs, ById(id)).value;
    assert ById(id)(docs[i]);
    HexStringInjective(docs[i].id, docs[k].id);
  }

  /** Removing records keeps ids unique. */
  lemma RemoveKeepsUniqueIds<T>(docs: seq<Record<T>>, i: nat)
    requires i < |docs| && UniqueIds(docs)
    ensures UniqueIds(docs[..i] + docs[i + 1..])
  {
  }

  /** `AbstractRepository<TDocument>`: the collection and the id generator
      behind it. */
  class AbstractRepository<T> {
    /** The collection, in natural (insertion) order. */
    var docs: seq<Record<T>>
    /** Stand-in for ObjectId generation: every stored id is below it. */
    var nextId: ObjectId

    ghost predicate Valid()
      reads this
    {
      && UniqueIds(docs)
      && forall k :: 0 <= k < |docs| ==> docs[k].id < nextId
    }

    constructor ()
      ensures Valid() && docs == []
    {
      docs := [];
      nextId := 0;
    }

    /** `create`: saves one new record under a fresh id and returns it. */
    method Create(body: T) returns (doc: Record<T>)
      requires Valid()
      modifies this
      ensures Valid()
      ensures doc.body == body
      ensures forall k :: 0 <= k < |old(docs)| ==> old(docs)[k].id != doc.id
      ensures docs == old(docs) + [doc]
    {
      doc := Record(nextId, body);
      docs := docs + [doc];
      nextId := nextId + 1;
    }

    /** `findOne`: the first record the filter accepts, or NotFound. */
    function FindOne(filter: Record<T> -> bool): (r: Result<Record<T>, Exception>)
      reads this
      ensures r.Ok? ==> r.value in docs && filter(r.value)
      ensures r.Ok? ==> exists i :: 0 <= i < |docs| && docs[i] == r.value && forall j :: 0 <= j < i ==> !filter(docs[j])
      ensures r.Err? <==> forall k :: 0 <= k < |docs| ==> !filter(docs[k])
      ensures r.Err? ==> r.error == NotFound(NotFoundMessage)
    {
      match FirstMatch(docs, filter)
      case None => Err(NotFound(NotFoundMessage))
      case Some(i) => Ok(docs[i])
    }

    /** `find`: every record the filter accepts; an empty result is not an error. */
    function Find(filter: Record<T> -> bool): (rs: seq<Record<T>>)
      reads this
      ensures |rs| == |MatchIndices(docs, filter)|
      ensures forall k :: 0 <= k < |rs| ==> rs[k] == docs[MatchIndices(docs, filter)[k]]
      ensures forall k :: 0 <= k < |rs| ==> rs[k] in docs && filter(rs[k])
      ensures forall k :: 0 <= k < |docs| && filter(docs[k]) ==> docs[k] in rs
    {
      Matching(docs, filter)
    }

    /** `findOneAndUpdate(filter, update, { new: true })`: rewrites the first
      matching record and returns its new version; the id never changes. */
    method FindOneAndUpdate(filter: Record<T> -> bool, update: T -> T) returns (r: Result<Record<T>, Exception>)
      requires Valid()
      modifies this
      ensures Valid() && nextId == old(nextId)
      ensures var m := FirstMatch(old(docs), filter);
        m.None? ==> r == Err(NotFound(NotFoundForFilterMessage)) && docs == old(docs)
      ensures var m := FirstMatch(old(docs), filter);
        m.Some? ==>
          && r == Ok(Record(old(docs)[m.value].id, update(old(docs)[m.value].body)))
          && docs == old(docs)[m.value := r.value]
    {
      var m := FirstMatch(docs, filter);
      if m.None? {
        r := Err(NotFound(NotFoundForFilterMessage));
      } else {
        var i := m.value;
        var updated := Record(docs[i].id, update(docs[i].body));
        docs := docs[i := updated];
        r := Ok(updated);
      }
    }

    /** `findOneAndDelete`: removes the first matching record and returns it. */
    method FindOneAndDelete(filter: Record<T> -> bool) returns (r: Result<Record<T>, Exception>)
      requires Valid()
      modifies this
      ensures Valid() && nextId == old(nextId)
      ensures var m := FirstMatch(old(docs), filter);
        m.None? ==> r == Err(NotFound(NotFoundForFilterMessage)) && docs == old(docs)
      ensures var m := FirstMatch(old(docs), filter);
        m.Some? ==>
          && r == Ok(old(docs)[m.value])
          && docs == old(docs)[..m.value] + old(docs)[m.value + 1..]
          && |docs| == |old(docs)| - 1
    {
      var m := FirstMatch(docs, filter);
      if m.None? {
        r := Err(NotFound(NotFoundForFilterMessage));
      } else {
        var i := m.value;
        RemoveKeepsUniqueIds(docs, i);
        r := Ok(docs[i]);
        docs := docs[..i] + docs[i + 1..];
      }
    }
  }
}
