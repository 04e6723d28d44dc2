/**
 * The admin dashboard page (client/src/pages/AdminDashboard.jsx): loading the
 * leads with the stored token, deleting one, logging out, the search box
 * filter and the fallbacks used when a lead is displayed.
 */
module AdminDashboard {
  import opened Wrappers
  import opened JsText
  import opened LeadSchema
  import opened LeadQueries
  import SeqFilter

  const LoginPath := "/login"
  const DashboardPath := "/admin/dashboard"
  const Unidentified := "UNIDENTIFIED"
  const StandardTraining := "Standard Training"

  /** How the `GET /api/leads` request of `fetchLeads` ended. */
  datatype LeadsReply =
    | FetchThrown                                 // the request or `res.json()` threw
    | FetchAnswered(ok: bool, data: Option<seq<Lead>>)  // `res.ok` and the body's `data` property

  /** How the `DELETE /api/leads/:id` request of `handleDelete` ended. */
  datatype DeleteReply = DeleteThrown | DeleteAnswered(ok: bool)

  /** The search test: the lower-cased name or email includes the lower-cased query. */
  predicate Matches(lead: Lead, query: string) {
    var q := ToLowerCase(query);
    Includes(ToLowerCase(lead.name), q) || Includes(ToLowerCase(lead.email), q)
  }

  /** `filteredLeads`: the leads that match the query, in their original order, each as often as before. */
  function Search(leads: seq<Lead>, query: string): (r: seq<Lead>)
    ensures SeqFilter.IsSubsequence(r, leads)
    ensures forall l :: l in r <==> l in leads && Matches(l, query)
    ensures forall l :: multiset(r)[l] == if Matches(l, query) then multiset(leads)[l] else 0
  {
    var keep := (l: Lead) => Matches(l, query);
    SeqFilter.FilterIsSubsequence(leads, keep);
    var r := SeqFilter.Filter(leads, keep);
    assert forall l :: (l in r <==> l in leads && keep(l)) && multiset(r)[l] == if keep(l) then multiset(leads)[l] else 0 by {
      forall l ensures (l in r <==> l in leads && keep(l)) && multiset(r)[l] == if keep(l) then multiset(leads)[l] else 0 {
        SeqFilter.FilterCounts(leads, keep, l);
        SeqFilter.FilterMembership(leads, keep, l);
      }
    }
    r
  }

  /** A lead matches exactly when the lower-cased query occurs in its lower-cased name or email. */
  lemma MatchesIffOccurs(lead: Lead, query: string)
    ensures Matches(lead, query) <==>
      (exists i :: OccursAt(ToLowerCase(lead.name), ToLowerCase(query), i)) ||
      (exists i :: OccursAt(ToLowerCase(lead.email), ToLowerCase(query), i))
  {
    IncludesIffOccurs(ToLowerCase(lead.name), ToLowerCase(query));
    IncludesIffOccurs(ToLowerCase(lead.email), ToLowerCase(query));
  }

  /** An empty search box shows every lead. */
  lemma EmptySearchKeepsAll(leads: seq<Lead>)
    ensures Search(leads, "") == leads
  {
    assert ToLowerCase("") == "";
    forall i | 0 <= i < |leads| ensures Matches(leads[i], "") {
      assert Includes(ToLowerCase(leads[i].name), "");
    }
    SeqFilter.FilterKeepsAll(leads, (l: Lead) => Matches(l, ""));
  }

  /** The search ignores the case of the query. */
  lemma SearchIgnoresQueryCase(leads: seq<Lead>, query: string)
    ensures Search(leads, query) == Search(leads, ToLowerCase(query))
  {
    ToLowerCaseIdempotent(query);
    SeqFilter.FilterAgrees(leads, (l: Lead) => Matches(l, query), (l: Lead) => Matches(l, ToLowerCase(query)));
  }

  /** The avatar letter: the first character of the name, upper-cased, or `"?"` for an empty name. */
  function Initial(lead: Lead): (r: string)
    ensures |r| == 1
    ensures lead.name == "" ==> r == "?"
    ensures lead.name != "" ==> LowerChar(r[0]) == LowerChar(lead.name[0]) && !('a' <= r[0] <= 'z')
  {
    if lead.name != "" then
      UpperCharSameLetter(lead.name[0]);
      [UpperChar(lead.name[0])]
    else "?"
  }

  /** `lead.name || "UNIDENTIFIED"`: never blank. */
  function DisplayName(lead: Lead): (r: string)
    ensures r != ""
    ensures lead.name != "" ==> r == lead.name
    ensures lead.name == "" ==> r == Unidentified
  {
    OrElse(Some(lead.name), Unidentified)
  }

  /** `lead._id.slice(-8)`: the last eight characters of the id, or the whole id when shorter. */
  function Sid(lead: Lead): (r: string)
    ensures |r| == if |lead.id| < 8 then |lead.id| else 8
    ensures lead.id == lead.id[..|lead.id| - |r|] + r
  {
    if |lead.id| < 8 then lead.id else lead.id[|lead.id| - 8..]
  }

  /** `lead.program || "Standard Training"`: never blank. */
  function DisplayProgram(lead: Lead): (r: string)
    ensures r != ""
    ensures Truthy(lead.program) ==> r == lead.program.value
    ensures !Truthy(lead.program) ==> r == StandardTraining
  {
    OrElse(lead.program, StandardTraining)
  }

  /** The dashboard's component state, the browser's stored token and the current route. */
  class Dashboard {
    var leads: seq<Lead>
    var loading: bool
    var isRefreshing: bool
    var searchQuery: string
    /** `localStorage.getItem("token")`. */
    var storedToken: Option<string>
    /** The route shown; `navigate("/login")` changes it. */
    var location: string

    constructor (token: Option<string>)
      ensures leads == [] && loading && !isRefreshing && searchQuery == ""
      ensures storedToken == token && location == DashboardPath
    {
      leads, loading, isRefreshing, searchQuery := [], true, false, "";
      storedToken, location := token, DashboardPath;
    }

    /** The rows shown: `filteredLeads`, the loaded leads that match the search box, in loaded order. */
    function FilteredLeads(): (r: seq<Lead>)
      reads this
      ensures SeqFilter.IsSubsequence(r, leads)
      ensures forall l :: l in r <==> l in leads && Matches(l, searchQuery)
      ensures forall l :: multiset(r)[l] == if Matches(l, searchQuery) then multiset(leads)[l] else 0
    {
      Search(leads, searchQuery)
    }

    /** The search box's `onChange`: the rows shown become the loaded leads matching the new query. */
    method SetSearchQuery(query: string)
      modifies this`searchQuery
      ensures searchQuery == query
      ensures forall l :: l in FilteredLeads() <==> l in leads && Matches(l, query)
    {
      searchQuery := query;
    }

    /**
     * `fetchLeads`. Without a token it redirects and returns before the
     * `try`, so no request is made and the `finally` does not run. Otherwise
     * it sends the token; a good answer replaces the leads, a refused one
     * drops the token and redirects, a thrown error changes nothing; in all
     * three cases both flags end false.
     */
    method FetchLeads(reply: LeadsReply) returns (sentToken: Option<string>)
      modifies this
      ensures searchQuery == old(searchQuery)
      ensures !Truthy(old(storedToken)) ==>
        && sentToken == None && location == LoginPath && isRefreshing
        && loading == old(loading) && leads == old(leads) && storedToken == old(storedToken)
      ensures Truthy(old(storedToken)) ==>
        && sentToken == old(storedToken) && !loading && !isRefreshing
        && (reply.FetchThrown? ==>
              leads == old(leads) && storedToken == old(storedToken) && location == old(location))
        && (reply.FetchAnswered? && reply.ok ==>
              leads == reply.data.GetOr([]) && storedToken == old(storedToken) && location == old(location))
        && (reply.FetchAnswered? && !reply.ok ==>
              leads == old(leads) && storedToken == None && location == LoginPath)
    {
      isRefreshing := true;
      if !Truthy(storedToken) {
        location := LoginPath;
        return None;
      }
      sentToken := storedToken;
      match reply {
        case FetchThrown =>
        case FetchAnswered(ok, data) =>
          if ok {
            leads := data.GetOr([]);
          } else {
            storedToken := None;
            location := LoginPath;
          }
      }
      loading := false;
      isRefreshing := false;
    }

    /**
     * `handleDelete`: nothing happens unless the admin confirms; after a
     * confirmed request, an ok answer drops every lead with that `_id` and
     * anything else leaves the list as it was.
     */
    method HandleDelete(id: string, confirmed: bool, reply: DeleteReply) returns (sent: bool)
      modifies this`leads
      ensures sent == confirmed
      ensures confirmed && reply == DeleteAnswered(true) ==> leads == Without(old(leads), id)
      ensures !(confirmed && reply == DeleteAnswered(true)) ==> leads == old(leads)
      ensures confirmed && reply == DeleteAnswered(true) ==> forall l :: l in FilteredLeads() ==> l.id != id
    {
      if !confirmed {
        return false;
      }
      sent := true;
      if reply == DeleteAnswered(true) {
        leads := Without(leads, id);
        forall l | l in leads ensures l.id != id {
          SeqFilter.FilterMembership(old(leads), (l: Lead) => l.id != id, l);
        }
      }
    }

    /** `handleLogout`: forgets the token and goes to the login page. */
    method HandleLogout()
      modifies this`storedToken, this`location
      ensures storedToken == None && location == LoginPath
    {
      storedToken := None;
      location := LoginPath;
    }
  }
}
