/** `DHIS2Client.get_all_dashboards_complete` (main.py): the paged catalog
    fetch. The server is a finite sequence of page replies (page p is
    `server[p - 1]`); every page past its end answers 200 with no dashboards. */
module Catalog {
  import opened Outcomes
  import Items

  /** The `user` key of a dashboard: absent, JSON `null`, or an object whose
      `id` may be absent. */
  datatype UserField = NoUser | NullUser | User(id: Option<string>)

  /** A dashboard as the API lists it; `name`, `created` and
      `dashboardItems` matter only to the list view's sorts. */
  datatype RawDashboard = RawDashboard(
    id: string,
    name: Field<string>,
    created: Field<string>,
    user: UserField,
    items: Field<seq<Items.Item>>)

  /** A listed dashboard with the `is_owner` flag the fetch adds. */
  datatype Dashboard = Dashboard(raw: RawDashboard, isOwner: bool)

  /** The body's `pager` key: absent (read as `{}`), JSON `null`, or an object
      whose `pageCount` is absent (read as 1), `null`, or a number. */
  datatype Pager = NoPager | NullPager | PagerObject(pageCount: Field<int>)

  /** The decoded JSON body of one page: its `dashboards` list (absent or
      null read as empty) and its pager. */
  datatype PageBody = PageBody(dashboards: seq<RawDashboard>, pager: Pager)

  /** One GET of /api/dashboards: an HTTP status with the body decoded as
      JSON (`None` when it does not decode), or a transport exception. */
  datatype PageReply = Reply(status: int, body: Option<PageBody>) | TransportError

  /** The reply the server gives for 1-based page `page`. */
  function ReplyAt(server: seq<PageReply>, page: nat): PageReply
    requires page >= 1
  {
    if page <= |server| then server[page - 1] else Reply(200, Some(PageBody([], NoPager)))
  }

  /** `str(e)` of the AttributeError raised by `None.get('id')`. */
  const NoGetMessage: string := "'NoneType' object has no attribute 'get'"

  /** `dashboard.get('user', {}).get('id')`. */
  function OwnerId(u: UserField): Result<Option<string>> {
    match u
    case NoUser => Ok(None)
    case NullUser => Err(NoGetMessage)
    case User(id) => Ok(id)
  }

  /** `str(e)` of the TypeError raised by `page >= None`. */
  const NoCompareMessage: string := "'>=' not supported between instances of 'int' and 'NoneType'"

  /** `pager.get('pageCount', 1)` with `pager = data.get('pager', {})`:
      a null pager has no `get`, and a null count cannot be compared. */
  function PageCount(p: Pager): Result<int> {
    match p
    case NoPager => Ok(1)
    case NullPager => Err(NoGetMessage)
    case PagerObject(Absent) => Ok(1)
    case PagerObject(Null) => Err(NoCompareMessage)
    case PagerObject(Present(n)) => Ok(n)
  }

  /** The owner id a successfully tagged dashboard was compared with. */
  function OwnerIdOrNone(u: UserField): Option<string> {
    match u
    case User(id) => id
    case _ => None
  }

  /** Tagging one page: `is_owner` is the comparison of the owner id with the
      current user's id (both possibly `None`); a null `user` raises. */
  function TagPage(ds: seq<RawDashboard>, currentUser: Option<string>): (r: Result<seq<Dashboard>>)
    ensures r.Ok? <==> forall i :: 0 <= i < |ds| ==> ds[i].user != NullUser
    ensures r.Ok? ==> |r.value| == |ds|
    ensures r.Ok? ==> forall i :: 0 <= i < |ds| ==>
      r.value[i].raw == ds[i] && r.value[i].isOwner == (OwnerIdOrNone(ds[i].user) == currentUser)
  {
    if |ds| == 0 then Ok([])
    else
      match OwnerId(ds[0].user)
      case Err(m) => Err(m)
      case Ok(owner) =>
        match TagPage(ds[1..], currentUser)
        case Err(m) => Err(m)
        case Ok(rest) => Ok([Dashboard(ds[0], owner == currentUser)] + rest)
  }

  /** How a walk over the pages ends: with the accumulated list (a stop), or
      with an exception that makes the fetch return `[]`. */
  datatype WalkEnd = Stopped(acc: seq<Dashboard>) | Crashed

  /** The body of the fetch loop from page `page` on, with `acc` gathered so far. */
  function Walk(server: seq<PageReply>, currentUser: Option<string>, page: nat, acc: seq<Dashboard>): WalkEnd
    requires 1 <= page <= |server| + 1
    decreases |server| + 1 - page
  {
    match ReplyAt(server, page)
    case TransportError => Crashed
    case Reply(status, body) =>
      if status != 200 then Stopped(acc)
      else if body.None? then Crashed
      else if |body.value.dashboards| == 0 then Stopped(acc)
      else
        match TagPage(body.value.dashboards, currentUser)
        case Err(_) => Crashed
        case Ok(tagged) =>
          match PageCount(body.value.pager)
          case Err(_) => Crashed
          case Ok(count) =>
            if page >= count then Stopped(acc + tagged)
            else Walk(server, currentUser, page + 1, acc + tagged)
  }

  /** `get_all_dashboards_complete`: the walk from page 1; any exception gives `[]`. */
  function FetchAll(server: seq<PageReply>, currentUser: Option<string>): seq<Dashboard> {
    match Walk(server, currentUser, 1, [])
    case Stopped(acc) => acc
    case Crashed => []
  }

  /** The fetch loop as the source writes it: page 1 upwards, leaving on an
      empty page, on `page >= pageCount`, on a non-200 status (keeping what it
      has) and returning `[]` on an exception. */
  method GetAllDashboardsComplete(server: seq<PageReply>, currentUser: Option<string>)
    returns (all: seq<Dashboard>)
    ensures all == FetchAll(server, currentUser)
  {
    all := [];
    var page := 1;
    while true
      invariant 1 <= page <= |server| + 1
      invariant Walk(server, currentUser, page, all) == Walk(server, currentUser, 1, [])
      decreases |server| + 1 - page
    {
      var reply := ReplyAt(server, page);
      if reply.TransportError? {
        return [];
      }
      if reply.status != 200 {
        return;
      }
      if reply.body.None? {
        return [];
      }
      var dashboards := reply.body.value.dashboards;
      if |dashboards| == 0 {
        return;
      }
      var tagged := TagPage(dashboards, currentUser);
      if tagged.Err? {
        return [];
      }
      all := all + tagged.value;
      var count := PageCount(reply.body.value.pager);
      if count.Err? {
        return [];
      }
      if page >= count.value {
        return;
      }
      page := page + 1;
    }
  }

  /** Page `page` is kept: a 200 whose body decodes, with at least one
      dashboard, no null `user` and a readable page count. */
  predicate Accepted(server: seq<PageReply>, page: nat)
    requires page >= 1
  {
    var reply := ReplyAt(server, page);
    reply.Reply? && reply.status == 200 && reply.body.Some?
    && |reply.body.value.dashboards| > 0
    && (forall i :: 0 <= i < |reply.body.value.dashboards| ==> reply.body.value.dashboards[i].user != NullUser)
    && PageCount(reply.body.value.pager).Ok?
  }

  /** Page `page` is kept and the loop goes on to the next page. */
  predicate Advances(server: seq<PageReply>, page: nat)
    requires page >= 1
  {
    Accepted(server, page) && page < PageCount(ReplyAt(server, page).body.value.pager).value
  }

  /** The tagged dashboards of page `page` (empty when the page is not kept). */
  function PageTags(server: seq<PageReply>, currentUser: Option<string>, page: nat): seq<Dashboard>
    requires page >= 1
  {
    var reply := ReplyAt(server, page);
    if reply.Reply? && reply.body.Some? then
      match TagPage(reply.body.value.dashboards, currentUser)
      case Ok(tagged) => tagged
      case Err(_) => []
    else []
  }

  /** The tagged dashboards of pages 1..k, in page order. */
  function TaggedPages(server: seq<PageReply>, currentUser: Option<string>, k: nat): seq<Dashboard> {
    if k == 0 then [] else TaggedPages(server, currentUser, k - 1) + PageTags(server, currentUser, k)
  }

  /** Pages that all advance are walked through one after the other. */
  lemma {:induction false} WalkThrough(server: seq<PageReply>, currentUser: Option<string>, k: nat)
    requires forall p :: 1 <= p <= k ==> Advances(server, p)
    ensures k <= |server|
    ensures Walk(server, currentUser, 1, []) == Walk(server, currentUser, k + 1, TaggedPages(server, currentUser, k))
  {
    if k > 0 {
      WalkThrough(server, currentUser, k - 1);
      assert Advances(server, k);
    }
  }

  /** The outcome of the fetch, read off the first page that does not advance:
      a failing status or an empty page keeps pages 1..k; a last page
      (`page >= pageCount`) adds itself; a transport error, an undecodable
      body, a null owner, or a null pager or page count on a non-empty page
      discards everything. */
  lemma FetchOutcome(server: seq<PageReply>, currentUser: Option<string>, k: nat)
    requires forall p :: 1 <= p <= k ==> Advances(server, p)
    requires !Advances(server, k + 1)
    ensures var reply := ReplyAt(server, k + 1);
      (reply.Reply? && reply.status != 200 ==> FetchAll(server, currentUser) == TaggedPages(server, currentUser, k))
      && (reply.Reply? && reply.status == 200 && reply.body.Some? && |reply.body.value.dashboards| == 0
          ==> FetchAll(server, currentUser) == TaggedPages(server, currentUser, k))
      && (Accepted(server, k + 1) ==> FetchAll(server, currentUser) == TaggedPages(server, currentUser, k + 1))
      && (reply.TransportError? || (reply.status == 200 && reply.body.None?)
          ==> FetchAll(server, currentUser) == [])
      && (reply.Reply? && reply.status == 200 && reply.body.Some?
          && (exists i :: 0 <= i < |reply.body.value.dashboards| && reply.body.value.dashboards[i].user == NullUser)
          ==> FetchAll(server, currentUser) == [])
      && (reply.Reply? && reply.status == 200 && reply.body.Some? && |reply.body.value.dashboards| > 0
          && PageCount(reply.body.value.pager).Err?
          ==> FetchAll(server, currentUser) == [])
  {
    WalkThrough(server, currentUser, k);
  }

  /** Gathering more pages never changes what was gathered before. */
  lemma {:induction false} WalkExtends(server: seq<PageReply>, currentUser: Option<string>, page: nat, acc: seq<Dashboard>)
    requires 1 <= page <= |server| + 1
    ensures Walk(server, currentUser, page, acc).Stopped? ==>
      acc <= Walk(server, currentUser, page, acc).acc
      && forall i :: |acc| <= i < |Walk(server, currentUser, page, acc).acc| ==>
           Walk(server, currentUser, page, acc).acc[i].isOwner
             == (OwnerIdOrNone(Walk(server, currentUser, page, acc).acc[i].raw.user) == currentUser)
           && Walk(server, currentUser, page, acc).acc[i].raw.user != NullUser
    decreases |server| + 1 - page
  {
    var reply := ReplyAt(server, page);
    if reply.Reply? && reply.status == 200 && reply.body.Some? && |reply.body.value.dashboards| > 0 {
      var tagged := TagPage(reply.body.value.dashboards, currentUser);
      var count := PageCount(reply.body.value.pager);
      if tagged.Ok? && count.Ok? && page < count.value {
        WalkExtends(server, currentUser, page + 1, acc + tagged.value);
      }
    }
  }

  /** Every dashboard the fetch returns is flagged as owned exactly when its
      owner id equals the current user's id. */
  lemma FetchOwnership(server: seq<PageReply>, currentUser: Option<string>)
    ensures forall i :: 0 <= i < |FetchAll(server, currentUser)| ==>
      FetchAll(server, currentUser)[i].raw.user != NullUser
      && FetchAll(server, currentUser)[i].isOwner
         == (OwnerIdOrNone(FetchAll(server, currentUser)[i].raw.user) == currentUser)
  {
    WalkExtends(server, currentUser, 1, []);
  }
}
