/**
 * The list controller every CRUD page of the dashboard repeats: customers,
 * dumpsters, fixes, users, business expenses and, without create, update
 * and delete, contracts. Its state is the rows on screen, the search term
 * and field, the page and page size, the totals the server reported, the
 * row being edited, and the one-shot flag that lets only the first fetch
 * error reach the user. Every handler and every settled request is one
 * atomic transition; a transition that starts a fetch names the query it
 * sends, and the answer arrives later as an event of its own.
 */
module ListPage {
  import opened Wrappers
  import opened Json
  import opened Search

  /** The pages that share the controller. */
  datatype Kind = Customers | Dumpsters | Fixes | Users | BusinessExpenses | Contracts

  /** The noun the success messages of a page with create, update and delete use. */
  function Noun(k: Kind): string
    requires k != Contracts
  {
    if k == Customers then "Customer"
    else if k == Dumpsters then "Dumpster"
    else if k == Fixes then "Fix"
    else if k == Users then "User"
    else "Business Expenses"
  }

  /** The arguments of `fetchX(page, size, search, field)`. */
  datatype Query = Query(page: int, size: int, search: string, field: string)

  datatype State = State(
    rows: seq<Value>,
    searchTerm: string,
    searchField: string,
    isSearching: bool,
    currentPage: int,
    pageSize: int,
    total: int,
    totalPages: int,
    editing: Option<int>,
    hasShown: bool)

  /** The state a page mounts with: page 1 of 5 rows, searching all fields. */
  const Initial: State := State([], "", "all", false, 1, 5, 0, 0, None, false)

  /** The query that asks for exactly what the state shows. */
  function Requested(s: State): Query {
    Query(s.currentPage, s.pageSize, s.searchTerm, s.searchField)
  }

  /** A toast: `message.success` or `message.error`, the latter either behind the one-shot flag or not. */
  datatype Notice = Success(text: string) | Failure(text: string, gated: bool)

  /** What one transition does: the next state, the fetch it starts, the toasts it shows. */
  datatype Step = Step(state: State, fetch: Option<Query>, notices: seq<Notice>)

  /** The user actions and settled requests a page reacts to. */
  datatype Event =
    | Reload                                      // the mount effect and the Refresh button
    | Search(value: string)
    | FieldChange(value: string)
    | ClearSearch
    | PageChange(page: int, size: int)
    | SizeChange(size: int)
    | Loaded(response: Page<Value>)               // the hook resolved with a page
    | LoadFailed(message: string)                 // the hook rejected, or resolved to nothing
    | Add
    | Edit(id: int)
    | Cancel
    | Created(created: Result<Value, string>)
    | Updated(updated: Result<Value, string>)
    | Deleted(deleted: Result<(), string>)
    | WorkAddressCreated(saved: Result<(), string>)
    | WorkAddressDeleted(removed: Result<(), string>)
    | PaymentsSaved(payments: Result<(), string>)
    | DataSaved(data: Result<(), string>)

  /** The handlers each page has. */
  predicate Offers(k: Kind, e: Event) {
    match e
    case Add | Edit(_) | Cancel | Created(_) | Updated(_) | Deleted(_) => k != Contracts
    case WorkAddressCreated(_) | WorkAddressDeleted(_) => k == Customers
    case PaymentsSaved(_) | DataSaved(_) => k == Contracts
    case _ => true
  }

  // ---------------------------------------------------------------------------
  // Fetching and the one-shot error flag

  /** `fetchX(q)` starts: `isSearching` becomes `!!q.search`. */
  function StartFetch(s: State, q: Query, notices: seq<Notice>): Step {
    Step(s.(isSearching := q.search != ""), Some(q), notices)
  }

  /** The number of toasts the one-shot flag guarded. */
  function GatedCount(ns: seq<Notice>): nat {
    if |ns| == 0 then 0 else (if ns[0].Failure? && ns[0].gated then 1 else 0) + GatedCount(ns[1..])
  }

  lemma {:induction false} GatedCountAppend(a: seq<Notice>, b: seq<Notice>)
    ensures GatedCount(a + b) == GatedCount(a) + GatedCount(b)
    decreases |a|
  {
    if |a| == 0 {
      assert a + b == b;
    } else {
      assert (a + b)[1..] == a[1..] + b;
      GatedCountAppend(a[1..], b);
    }
  }

  // ---------------------------------------------------------------------------
  // Rows

  /** `rows.map(r => r.id === id ? { ...r, ...updated } : r)`. */
  function UpdateRows(rows: seq<Value>, id: int, updated: Value): (r: seq<Value>)
    ensures |r| == |rows|
  {
    seq(|rows|, i requires 0 <= i < |rows| =>
      if Get(rows[i], "id") == Num(id) then Obj(Merge(Spread(rows[i]), updated)) else rows[i])
  }

  /** Only the rows carrying the edited id change, and each keeps what the response leaves out. */
  lemma UpdateTouchesOnlyMatching(rows: seq<Value>, id: int, updated: Value, i: int, key: string)
    requires 0 <= i < |rows|
    ensures UpdateRows(rows, id, updated)[i] != rows[i] ==> Get(rows[i], "id") == Num(id)
    ensures Get(rows[i], "id") == Num(id) && rows[i].Obj? ==>
      Get(UpdateRows(rows, id, updated)[i], key) ==
        if key in Spread(updated) then Spread(updated)[key] else Get(rows[i], key)
  {
    var r := UpdateRows(rows, id, updated);
    if Get(rows[i], "id") == Num(id) && rows[i].Obj? {
      assert r[i] == Obj(Merge(rows[i].fields, updated));
    }
  }

  /** Applying the same response twice changes nothing more. */
  lemma UpdateIdempotent(rows: seq<Value>, id: int, updated: Value)
    ensures UpdateRows(UpdateRows(rows, id, updated), id, updated) == UpdateRows(rows, id, updated)
  {
    var once := UpdateRows(rows, id, updated);
    var twice := UpdateRows(once, id, updated);
    forall i | 0 <= i < |rows| ensures twice[i] == once[i] {
      if Get(rows[i], "id") == Num(id) && Get(once[i], "id") == Num(id) {
        var m := Merge(Spread(rows[i]), updated);
        assert once[i] == Obj(m);
        assert Merge(m, updated) == m;
      }
    }
  }

  // ---------------------------------------------------------------------------
  // Handlers

  /**
   * What every transition keeps: the one-shot flag is never lowered and
   * guards exactly the toast of the transition that raises it, and a fetch
   * asks for what the page then shows.
   */
  predicate WellBehaved(s: State, r: Step) {
    && (s.hasShown ==> r.state.hasShown)
    && GatedCount(r.notices) == (if !s.hasShown && r.state.hasShown then 1 else 0)
    && (r.fetch.Some? ==> r.fetch.value == Requested(r.state) && r.state.isSearching == (r.state.searchTerm != ""))
  }

  function OnReload(s: State): (r: Step)
    ensures WellBehaved(s, r) && r.fetch.Some?
    ensures r.state.rows == s.rows && r.state.currentPage == s.currentPage && r.state.searchTerm == s.searchTerm
  {
    StartFetch(s, Query(s.currentPage, s.pageSize, s.searchTerm, s.searchField), [])
  }

  function OnSearch(s: State, value: string): (r: Step)
    ensures WellBehaved(s, r) && r.fetch.Some?
    ensures r.state.currentPage == 1 && r.state.searchTerm == value && r.state.searchField == s.searchField
  {
    StartFetch(s.(searchTerm := value, currentPage := 1), Query(1, s.pageSize, value, s.searchField), [])
  }

  function OnFieldChange(s: State, value: string): (r: Step)
    ensures WellBehaved(s, r)
    ensures r.state.searchField == value && (r.fetch.Some? <==> s.searchTerm != "")
    ensures s.searchTerm != "" ==> r.state.currentPage == 1
    ensures s.searchTerm == "" ==> r.state == s.(searchField := value)
  {
    var t := s.(searchField := value);
    if s.searchTerm != "" then StartFetch(t.(currentPage := 1), Query(1, s.pageSize, s.searchTerm, value), [])
    else Step(t, None, [])
  }

  function OnClearSearch(s: State): (r: Step)
    ensures WellBehaved(s, r) && r.fetch.Some?
    ensures r.state.currentPage == 1 && r.state.searchTerm == "" && r.state.searchField == "all" && !r.state.isSearching
  {
    StartFetch(s.(searchTerm := "", searchField := "all", currentPage := 1), Query(1, s.pageSize, "", "all"), [])
  }

  function OnPageChange(s: State, page: int, size: int): (r: Step)
    ensures WellBehaved(s, r) && r.fetch.Some?
    ensures r.state.currentPage == page && r.state.pageSize == size && r.state.searchTerm == s.searchTerm
  {
    StartFetch(s.(currentPage := page, pageSize := size), Query(page, size, s.searchTerm, s.searchField), [])
  }

  function OnSizeChange(s: State, size: int): (r: Step)
    ensures WellBehaved(s, r) && r.fetch.Some?
    ensures r.state.currentPage == 1 && r.state.pageSize == size && r.state.searchTerm == s.searchTerm
  {
    StartFetch(s.(currentPage := 1, pageSize := size), Query(1, size, s.searchTerm, s.searchField), [])
  }

  /** The response's rows, totals, page and limit replace the page's own. */
  function OnLoaded(s: State, p: Page<Value>): (r: Step)
    ensures WellBehaved(s, r) && r.fetch == None
    ensures r.state.rows == p.data && r.state.total == p.total && r.state.totalPages == p.totalPages
    ensures Requested(r.state) == Query(p.page, p.limit, s.searchTerm, s.searchField)
  {
    Step(s.(rows := p.data, total := p.total, totalPages := p.totalPages, currentPage := p.page, pageSize := p.limit), None, [])
  }

  /** The `catch` of a fetch: only the first error of the page's lifetime is shown. */
  function ShowOnce(s: State, message: string): (r: Step)
    ensures WellBehaved(s, r) && r.state.hasShown && r.fetch == None
    ensures r.notices == (if s.hasShown then [] else [Failure(message, true)])
  {
    if s.hasShown then Step(s, None, []) else Step(s.(hasShown := true), None, [Failure(message, true)])
  }

  function OnCreated(k: Kind, s: State, created: Result<Value, string>): (r: Step)
    requires k != Contracts
    ensures WellBehaved(s, r) && r.fetch == None
    ensures created.Ok? ==> r.state.rows == s.rows + [created.value] && r.notices == [Success(Noun(k) + " created successfully")]
    ensures created.Err? ==> r.state == s && r.notices == [Failure(created.error, false)]
  {
    match created
    case Ok(row) => Step(s.(rows := s.rows + [row]), None, [Success(Noun(k) + " created successfully")])
    case Err(m) => Step(s, None, [Failure(m, false)])
  }

  /**
   * Nothing is sent unless a row is being edited. The users page calls
   * `fetchUsers()` after the `if`, so a successful edit there both merges
   * the row locally and refetches.
   */
  function OnUpdated(k: Kind, s: State, updated: Result<Value, string>): (r: Step)
    requires k != Contracts
    ensures WellBehaved(s, r)
    ensures s.editing.Some? && updated.Ok? ==>
      && r.state.rows == UpdateRows(s.rows, s.editing.value, updated.value)
      && r.state.editing == None
      && (r.fetch.Some? <==> k == Users)
    ensures s.editing.Some? && updated.Err? ==> r.state == s && r.fetch == None && r.notices == [Failure(updated.error, false)]
    ensures s.editing.None? ==>
      && r.state.rows == s.rows && r.state.currentPage == s.currentPage && r.notices == []
      && (r.fetch.Some? <==> k == Users)
  {
    match s.editing
    case None => if k == Users then StartFetch(s, Query(s.currentPage, s.pageSize, s.searchTerm, s.searchField), []) else Step(s, None, [])
    case Some(id) =>
      match updated
      case Ok(row) =>
        var t := s.(rows := UpdateRows(s.rows, id, row), editing := None);
        var ok := [Success(Noun(k) + " update successfully")];
        if k == Users then StartFetch(t, Query(t.currentPage, t.pageSize, t.searchTerm, t.searchField), ok)
        else Step(t, None, ok)
      case Err(m) => Step(s, None, [Failure(m, false)])
  }

  /** After a delete the page steps back when it just lost its only row, and refetches. */
  function OnDeleted(k: Kind, s: State, deleted: Result<(), string>): (r: Step)
    requires k != Contracts
    ensures WellBehaved(s, r)
    ensures deleted.Ok? ==>
      && r.fetch.Some? && r.state.rows == s.rows
      && r.state.currentPage == (if |s.rows| == 1 && s.currentPage > 1 then s.currentPage - 1 else s.currentPage)
      && r.notices == [Success(Noun(k) + " delete successfully")]
    ensures deleted.Err? ==> r.state == s && r.fetch == None && r.notices == [Failure(deleted.error, false)]
  {
    match deleted
    case Ok(_) =>
      var ok := [Success(Noun(k) + " delete successfully")];
      if |s.rows| == 1 && s.currentPage > 1 then
        StartFetch(s.(currentPage := s.currentPage - 1), Query(s.currentPage - 1, s.pageSize, s.searchTerm, s.searchField), ok)
      else StartFetch(s, Query(s.currentPage, s.pageSize, s.searchTerm, s.searchField), ok)
    case Err(m) => Step(s, None, [Failure(m, false)])
  }

  /** The customers page's work-address create and delete: refetch and toast. */
  function OnWorkAddress(s: State, done: Result<(), string>, success: string): (r: Step)
    ensures WellBehaved(s, r)
    ensures done.Ok? ==> r.fetch.Some? && r.state.rows == s.rows && r.notices == [Success(success)]
    ensures done.Err? ==> r.state == s && r.fetch == None && r.notices == [Failure(done.error, false)]
  {
    match done
    case Ok(_) => StartFetch(s, Query(s.currentPage, s.pageSize, s.searchTerm, s.searchField), [Success(success)])
    case Err(m) => Step(s, None, [Failure(m, false)])
  }

  /** The contracts page's payments and data edits: refetch, or an error behind the one-shot flag. */
  function OnContractSaved(s: State, done: Result<(), string>): (r: Step)
    ensures WellBehaved(s, r)
    ensures done.Ok? ==> r.fetch.Some? && r.notices == []
    ensures done.Err? ==> r.fetch == None && r.state.hasShown
  {
    match done
    case Ok(_) => StartFetch(s, Query(s.currentPage, s.pageSize, s.searchTerm, s.searchField), [])
    case Err(m) => ShowOnce(s, m)
  }

  /** One transition of page `k`. */
  function Apply(k: Kind, s: State, e: Event): (r: Step)
    requires Offers(k, e)
    ensures WellBehaved(s, r)
    ensures !s.hasShown && (e.LoadFailed? || (e.PaymentsSaved? && e.payments.Err?) || (e.DataSaved? && e.data.Err?)) ==>
      r.state.hasShown && |r.notices| == 1
  {
    match e
    case Reload => OnReload(s)
    case Search(value) => OnSearch(s, value)
    case FieldChange(value) => OnFieldChange(s, value)
    case ClearSearch => OnClearSearch(s)
    case PageChange(page, size) => OnPageChange(s, page, size)
    case SizeChange(size) => OnSizeChange(s, size)
    case Loaded(p) => OnLoaded(s, p)
    case LoadFailed(m) => ShowOnce(s, m)
    case Add => Step(s.(editing := None), None, [])
    case Edit(id) => Step(s.(editing := Some(id)), None, [])
    case Cancel => Step(s.(editing := None), None, [])
    case Created(created) => OnCreated(k, s, created)
    case Updated(updated) => OnUpdated(k, s, updated)
    case Deleted(deleted) => OnDeleted(k, s, deleted)
    case WorkAddressCreated(saved) => OnWorkAddress(s, saved, "Work Address created successfully")
    case WorkAddressDeleted(removed) => OnWorkAddress(s, removed, "Work Address delete successfully")
    case PaymentsSaved(payments) => OnContractSaved(s, payments)
    case DataSaved(data) => OnContractSaved(s, data)
  }

  // ---------------------------------------------------------------------------
  // Runs

  datatype Trace = Trace(state: State, notices: seq<Notice>, fetches: seq<Query>)

  predicate AllOffered(k: Kind, es: seq<Event>) {
    forall i :: 0 <= i < |es| ==> Offers(k, es[i])
  }

  /** A sequence of transitions, collecting the toasts and the fetches. */
  function Run(k: Kind, s: State, es: seq<Event>): Trace
    requires AllOffered(k, es)
    decreases |es|
  {
    if |es| == 0 then Trace(s, [], [])
    else
      var st := Apply(k, s, es[0]);
      var rest := Run(k, st.state, es[1..]);
      Trace(rest.state, st.notices + rest.notices, (if st.fetch.Some? then [st.fetch.value] else []) + rest.fetches)
  }

  /** Over any run, the one-shot flag lets through exactly one error if it was raised during the run. */
  lemma {:induction false} OneShotGate(k: Kind, s: State, es: seq<Event>)
    requires AllOffered(k, es)
    ensures s.hasShown ==> Run(k, s, es).state.hasShown
    ensures GatedCount(Run(k, s, es).notices) == if !s.hasShown && Run(k, s, es).state.hasShown then 1 else 0
    decreases |es|
  {
    if |es| > 0 {
      var st := Apply(k, s, es[0]);
      OneShotGate(k, st.state, es[1..]);
      GatedCountAppend(st.notices, Run(k, st.state, es[1..]).notices);
    }
  }

  /** So a page shows at most one fetch error in its lifetime. */
  lemma AtMostOneFetchErrorShown(k: Kind, es: seq<Event>)
    requires AllOffered(k, es)
    ensures GatedCount(Run(k, Initial, es).notices) <= 1
  {
    OneShotGate(k, Initial, es);
  }

  // ---------------------------------------------------------------------------
  // Deleting the last row of a page

  /**
   * Why the delete handler steps back: when page `p > 1` held one row and a
   * row of the list is deleted, the page before is full; with pages of more
   * than one row, page `p` is then empty.
   */
  lemma StepBackAfterLastRow<T>(xs: seq<T>, p: int, limit: int, k: int)
    requires limit > 0 && p > 1 && |Paginate(xs, p, limit).data| == 1
    requires 0 <= k < |xs|
    ensures |Paginate(xs[..k] + xs[k + 1..], p - 1, limit).data| == limit
    ensures limit > 1 ==> |Paginate(xs[..k] + xs[k + 1..], p, limit).data| == 0
  {
    var ys := xs[..k] + xs[k + 1..];
    var o := Offset(p, limit);
    OffsetStep(p, limit);
    OffsetStep(p - 1, limit);
    assert |ys| == |xs| - 1;
    assert o < |xs|;
  }

  /** And why it stays otherwise: a page that held two rows or more keeps one. */
  lemma StayKeepsRows<T>(xs: seq<T>, p: int, limit: int, k: int)
    requires limit > 0 && p >= 1 && |Paginate(xs, p, limit).data| >= 2
    requires 0 <= k < |xs|
    ensures |Paginate(xs[..k] + xs[k + 1..], p, limit).data| >= 1
  {
    var ys := xs[..k] + xs[k + 1..];
    OffsetStep(p, limit);
    assert |ys| == |xs| - 1;
  }
}
