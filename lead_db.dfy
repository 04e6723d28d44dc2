/**
 * The `Lead` collection as the handlers use it through the document model:
 * insert, lookup by `_id`, delete by `_id`, and `find().sort({ createdAt: -1 })`.
 * Documents are kept in insertion order; `_id` is unique.
 */
module LeadDb {
  import opened Wrappers
  import opened LeadSchema
  import opened LeadQueries

  class LeadCollection {
    /** The stored documents, oldest insertion first. */
    var leads: seq<Lead>

    ghost predicate Valid()
      reads this
    {
      DistinctIds(leads)
    }

    constructor ()
      ensures Valid() && leads == []
    {
      leads := [];
    }

    /** Inserts a validated document; a second document with the same `_id` is refused by the unique index. */
    method Insert(lead: Lead) returns (inserted: bool)
      requires Valid()
      modifies this
      ensures Valid()
      ensures inserted <==> IndexOf(old(leads), lead.id).None?
      ensures leads == if inserted then old(leads) + [lead] else old(leads)
    {
      inserted := IndexOf(leads, lead.id).None?;
      if inserted {
        leads := leads + [lead];
      }
    }

    /** `findById`: the document with this `_id`, if there is one. */
    method FindById(id: string) returns (found: Option<Lead>)
      requires Valid()
      ensures found.None? <==> forall i :: 0 <= i < |leads| ==> leads[i].id != id
      ensures found.Some? ==> found.value in leads && found.value.id == id
    {
      match IndexOf(leads, id)
      case None =>
        found := None;
      case Some(i) =>
        found := Some(leads[i]);
    }

    /** `deleteOne` on a document's `_id`: removes the document with that `_id`, if any, and nothing else. */
    method DeleteById(id: string)
      requires Valid()
      modifies this
      ensures Valid()
      ensures leads == Without(old(leads), id)
      ensures IndexOf(old(leads), id).None? ==> leads == old(leads)
      ensures IndexOf(old(leads), id).Some? ==>
        var i := IndexOf(old(leads), id).value;
        leads == old(leads)[..i] + old(leads)[i + 1..]
    {
      WithoutKeepsDistinct(leads, id);
      match IndexOf(leads, id) {
        case None =>
          WithoutAbsent(leads, id);
        case Some(i) =>
          WithoutPresent(leads, i);
      }
      leads := Without(leads, id);
    }

    /** `find().sort({ createdAt: -1 })`: every document, newest first. */
    method FindNewestFirst() returns (r: seq<Lead>)
      ensures NewestFirstOrder(r)
      ensures multiset(r) == multiset(leads)
    {
      r := NewestFirst(leads);
    }
  }
}
