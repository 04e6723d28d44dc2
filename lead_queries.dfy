/** Queries over a sequence of leads: lookup by `_id`, removal by `_id`, and newest-first order. */
module LeadQueries {
  import opened Wrappers
  import opened LeadSchema
  import SeqFilter

  /** No two leads share an `_id` (the collection's unique `_id` index). */
  ghost predicate DistinctIds(s: seq<Lead>) {
    forall i, j :: 0 <= i < j < |s| ==> s[i].id != s[j].id
  }

  /** The position of the first lead with this `_id`, if any. */
  function IndexOf(s: seq<Lead>, id: string): (r: Option<nat>)
    ensures r.None? <==> forall i :: 0 <= i < |s| ==> s[i].id != id
    ensures r.Some? ==> r.value < |s| && s[r.value].id == id
    ensures r.Some? ==> forall j :: 0 <= j < r.value ==> s[j].id != id
  {
    if s == [] then None
    else if s[0].id == id then Some(0)
    else match IndexOf(s[1..], id)
      case None => None
      case Some(k) => Some(k + 1)
  }

  /** `leads.filter(lead => lead._id !== id)`. */
  function Without(s: seq<Lead>, id: string): seq<Lead> {
    SeqFilter.Filter(s, (l: Lead) => l.id != id)
  }

  /** Removal keeps exactly the leads with another `_id`, each as often as before and in their original order. */
  lemma WithoutKeepsOthers(s: seq<Lead>, id: string)
    ensures SeqFilter.IsSubsequence(Without(s, id), s)
    ensures forall l :: multiset(Without(s, id))[l] == if l.id == id then 0 else multiset(s)[l]
  {
    var keep := (l: Lead) => l.id != id;
    SeqFilter.FilterIsSubsequence(s, keep);
    forall l ensures multiset(Without(s, id))[l] == if l.id == id then 0 else multiset(s)[l] {
      SeqFilter.FilterCounts(s, keep, l);
    }
  }

  /** Removing an `_id` that no lead has changes nothing. */
  lemma WithoutAbsent(s: seq<Lead>, id: string)
    requires IndexOf(s, id).None?
    ensures Without(s, id) == s
  {
    WithoutNoneMatch(s, id);
  }

  /** Removal by `_id` distributes over concatenation. */
  lemma WithoutAppend(a: seq<Lead>, b: seq<Lead>, id: string)
    ensures Without(a + b, id) == Without(a, id) + Without(b, id)
  {
    SeqFilter.FilterAppend(a, b, (l: Lead) => l.id != id);
  }

  /** A sequence in which no lead has the `_id` is left as it is. */
  lemma WithoutNoneMatch(s: seq<Lead>, id: string)
    requires forall k :: 0 <= k < |s| ==> s[k].id != id
    ensures Without(s, id) == s
  {
    SeqFilter.FilterKeepsAll(s, (l: Lead) => l.id != id);
  }

  /** With distinct ids, removing the `_id` of the lead at `i` removes that lead and keeps all others in order. */
  lemma WithoutPresent(s: seq<Lead>, i: nat)
    requires DistinctIds(s)
    requires i < |s|
    ensures Without(s, s[i].id) == s[..i] + s[i + 1..]
  {
    var id := s[i].id;
    var before, after := s[..i], s[i + 1..];
    assert s == before + [s[i]] + after;
    forall k | 0 <= k < |before| ensures before[k].id != id {
      assert before[k] == s[k];
    }
    forall k | 0 <= k < |after| ensures after[k].id != id {
      assert after[k] == s[i + 1 + k];
    }
    WithoutNoneMatch(before, id);
    WithoutNoneMatch(after, id);
    assert Without([s[i]], id) == [];
    WithoutAppend(before, [s[i]], id);
    WithoutAppend(before + [s[i]], after, id);
  }

  /** Removing leads keeps the ids distinct. */
  lemma WithoutKeepsDistinct(s: seq<Lead>, id: string)
    requires DistinctIds(s)
    ensures DistinctIds(Without(s, id))
  {
    match IndexOf(s, id)
    case None =>
      WithoutAbsent(s, id);
    case Some(i) =>
      WithoutPresent(s, i);
  }

  /** `createdAt` never increases along `s` (the `.sort({ createdAt: -1 })` order). */
  ghost predicate NewestFirstOrder(s: seq<Lead>) {
    forall i, j :: 0 <= i < j < |s| ==> s[i].createdAt >= s[j].createdAt
  }

  /** Places `x` into a newest-first sequence, before the first lead that is not newer than it. */
  function InsertByDate(x: Lead, s: seq<Lead>): (r: seq<Lead>)
    ensures multiset(r) == multiset(s) + multiset{x}
    ensures |r| > 0 && (r[0] == x || (s != [] && r[0] == s[0]))
  {
    if s == [] || x.createdAt >= s[0].createdAt then [x] + s
    else
      assert s == [s[0]] + s[1..];
      [s[0]] + InsertByDate(x, s[1..])
  }

  /** Inserting into a newest-first sequence keeps it newest first. */
  lemma {:induction false} InsertKeepsOrder(x: Lead, s: seq<Lead>)
    requires NewestFirstOrder(s)
    ensures NewestFirstOrder(InsertByDate(x, s))
  {
    if s != [] && x.createdAt < s[0].createdAt {
      var rest := InsertByDate(x, s[1..]);
      InsertKeepsOrder(x, s[1..]);
      var r := [s[0]] + rest;
      assert s[0].createdAt >= rest[0].createdAt;
      forall i, j | 0 <= i < j < |r|
        ensures r[i].createdAt >= r[j].createdAt
      {
        if i == 0 && j > 1 {
          assert rest[0].createdAt >= rest[j - 1].createdAt;
        }
      }
    }
  }

  /** Every lead of `s`, ordered by `createdAt` descending (an insertion sort; the store leaves ties unordered). */
  function NewestFirst(s: seq<Lead>): (r: seq<Lead>)
    ensures NewestFirstOrder(r)
    ensures multiset(r) == multiset(s)
    ensures |r| == |s|
  {
    if s == [] then []
    else
      assert s == [s[0]] + s[1..];
      InsertKeepsOrder(s[0], NewestFirst(s[1..]));
      InsertByDate(s[0], NewestFirst(s[1..]))
  }
}
