/**
 * Bulk sync of a JPD project (`DateFieldCloner.bulk_sync_project`): list the project's
 * ideas page by page, find each idea's linked engineering ticket, sync that ticket's dates
 * onto the idea, and count what happened in five buckets.
 */
module BulkSync {
  import opened Tracker
  import PyText
  import Gateway
  import FieldCatalog
  import DateValues
  import SyncEngine

  // ---------------------------------------------------------------------------
  // Finding the linked engineering ticket

  /** The key a link leads to: the outward issue's key when that side is present, else the inward one's. */
  function LinkedKey(link: IssueLink): (r: Option<IssueKey>)
    ensures link.outward.Some? ==> r == link.outward
    ensures link.outward.None? ==> r == link.inward
  {
    if link.outward.Some? then link.outward else link.inward
  }

  /** A linked key that counts as the engineering ticket: nonempty, and not another idea (`IDEA-…`). */
  predicate IsEngineeringKey(k: Option<IssueKey>)
  {
    Truthy(k) && !PyText.StartsWith(k.value, "IDEA-")
  }

  /** The scan over the links that returns the first engineering key, or None. */
  function FirstEngineeringLink(links: seq<IssueLink>): (r: Option<IssueKey>)
    ensures r.Some? ==> IsEngineeringKey(r)
  {
    if links == [] then None
    else if IsEngineeringKey(LinkedKey(links[0])) then LinkedKey(links[0])
    else FirstEngineeringLink(links[1..])
  }

  /**
   * The scan finds the key of the first link that leads to an engineering ticket, and finds
   * nothing exactly when no link does.
   */
  lemma {:induction false} FirstEngineeringLinkIsFirst(links: seq<IssueLink>)
    ensures var r := FirstEngineeringLink(links);
      && (r.None? <==> forall k :: 0 <= k < |links| ==> !IsEngineeringKey(LinkedKey(links[k])))
      && (r.Some? ==> exists j :: (0 <= j < |links| && r == LinkedKey(links[j])
            && forall k :: 0 <= k < j ==> !IsEngineeringKey(LinkedKey(links[k]))))
  {
    if links != [] {
      FirstEngineeringLinkIsFirst(links[1..]);
      assert forall k :: 1 <= k < |links| ==> links[k] == links[1..][k - 1];
      var r := FirstEngineeringLink(links);
      if !IsEngineeringKey(LinkedKey(links[0])) && r.Some? {
        var j :| 0 <= j < |links[1..]| && r == LinkedKey(links[1..][j])
          && forall k :: 0 <= k < j ==> !IsEngineeringKey(LinkedKey(links[1..][k]));
        assert forall k :: 0 <= k < j + 1 ==> !IsEngineeringKey(LinkedKey(links[k]));
      }
    }
  }

  /**
   * Within one link the outward side wins: a link whose outward key is another idea (or empty)
   * is passed over even when its inward side leads to an engineering ticket.
   */
  lemma OutwardSideShadowsInward(link: IssueLink, rest: seq<IssueLink>)
    requires link.outward.Some? && !IsEngineeringKey(link.outward)
    ensures FirstEngineeringLink([link] + rest) == FirstEngineeringLink(rest)
  {
    assert ([link] + rest)[1..] == rest;
  }

  /**
   * What looking up an idea's ticket gives, from what fetching the idea gives: an exception
   * propagates; a missing issue or one that is not an idea has no ticket; otherwise the first
   * engineering link.
   */
  function TicketOf(fetched: Outcome<Option<Issue>>): Outcome<Option<IssueKey>>
  {
    if fetched.Raised? then Raised(fetched.message)
    else if fetched.value.Some? && DateValues.IsJpdIssue(fetched.value.value)
    then Returned(FirstEngineeringLink(fetched.value.value.links))
    else Returned(None)
  }

  /**
   * `find_linked_engineering_ticket`: fetch the idea (an exception propagates); a missing issue
   * or one that is not an idea has no ticket; otherwise scan its links in order.
   */
  method FindLinkedEngineeringTicket(client: Gateway.JiraClient, jpdKey: IssueKey,
                                     issueApi: (IssueKey, nat) -> Outcome<Option<Issue>>)
    returns (r: Outcome<Option<IssueKey>>)
    requires client.Valid()
    modifies client
    ensures client.Valid()
    ensures r == TicketOf(Gateway.Fetched(issueApi, jpdKey))
    ensures client.writes == old(client.writes) && client.now >= old(client.now)
  {
    var issue := client.GetIssue(jpdKey, issueApi);
    if issue.Raised? {
      return Raised(issue.message);
    }
    if issue.value.None? || !DateValues.IsJpdIssue(issue.value.value) {
      return Returned(None);
    }
    var links := issue.value.value.links;
    for j := 0 to |links|
      invariant FirstEngineeringLink(links) == FirstEngineeringLink(links[j..])
    {
      var linkedIssueKey := LinkedKey(links[j]);
      if IsEngineeringKey(linkedIssueKey) {
        return Returned(linkedIssueKey);
      }
      assert links[j..][1..] == links[j + 1..];
    }
    r := Returned(None);
  }

  /**
   * `auto_sync_from_jpd`: find the idea's engineering ticket and, when there is one, copy its dates
   * onto the idea for real (never a dry run). No ticket answers False; a raising fetch of the idea
   * propagates, and so does whatever the pair sync raises.
   */
  method AutoSyncFromJpd(client: Gateway.JiraClient, mapper: FieldCatalog.FieldMapper, jpdKey: IssueKey,
                         force: bool, response: string,
                         issueApi: (IssueKey, nat) -> Outcome<Option<Issue>>,
                         updateApi: (IssueKey, FieldId, string, nat) -> Outcome<()>,
                         catalogue: Outcome<seq<FieldDef>>)
    returns (r: Outcome<bool>)
    requires client.Valid()
    modifies client, mapper
    ensures client.Valid()
    ensures var fetched := Gateway.Fetched(issueApi, jpdKey);
      && (fetched.Raised? ==> r == Raised(fetched.message))
      && (fetched.Returned? ==>
            var eng := if fetched.value.Some? && DateValues.IsJpdIssue(fetched.value.value)
                       then FirstEngineeringLink(fetched.value.value.links) else None;
            && (eng.None? ==> r == Returned(false) && client.writes == old(client.writes))
            && (eng.Some? ==>
                  var g := SyncEngine.Gather(Gateway.Fetched(issueApi, eng.value), Gateway.Fetched(issueApi, jpdKey),
                                             FieldCatalog.CachedMapping(old(mapper.fieldCache), catalogue));
                  && (g.Raised? ==> r == Raised(g.message))
                  && (g == Returned(None) ==> r == Returned(false))
                  && (g.Returned? && g.value.Some? && !force && !SyncEngine.ConfirmationAccepted(response) ==>
                        r == Returned(false))
                  && (SyncEngine.GoesAhead(g, false, force, response) ==>
                        r == Returned(SyncEngine.SomeAccepted(g.value.value.target.key, SyncEngine.WritesFor(g.value.value),
                                                             issueApi, updateApi)))
                  && client.writes == old(client.writes) + SyncEngine.PairWrites(g, false, force, response, issueApi)))
  {
    var engTicket := FindLinkedEngineeringTicket(client, jpdKey, issueApi);
    if engTicket.Raised? {
      return Raised(engTicket.message);
    }
    if engTicket.value.None? {
      return Returned(false);
    }
    r := SyncEngine.CloneFields(client, mapper, engTicket.value.value, jpdKey, false, force, response,
                                issueApi, updateApi, catalogue);
  }

  // ---------------------------------------------------------------------------
  // Listing the ideas of a project

  /** `max_results`: the page size of the idea search. */
  const PageSize: nat := 50

  /** Pause between two pages of the search, in ms (`time.sleep(0.3)`). */
  const PagePauseMs: nat := 300

  /** What the search gives page by page: page `k` is the one starting at `k * PageSize`. */
  function PagesOf(searchApi: (nat, nat) -> Outcome<seq<IssueKey>>): nat -> Outcome<seq<IssueKey>>
  {
    (k: nat) => Gateway.Searched(searchApi, k * PageSize)
  }

  /** Page `k` ends the listing: its search raises, or it is shorter than a full page (empty included). */
  predicate LastPage(pages: nat -> Outcome<seq<IssueKey>>, k: nat)
  {
    var page := pages(k);
    page.Raised? || |page.value| < PageSize
  }

  /** The keys of page `k`, none when its search raises. */
  function PageKeys(pages: nat -> Outcome<seq<IssueKey>>, k: nat): seq<IssueKey>
  {
    var page := pages(k);
    if page.Raised? then [] else page.value
  }

  /** The keys of pages `from` up to (not including) `to`, in page order. */
  function PagesFrom(pages: nat -> Outcome<seq<IssueKey>>, from: nat, to: nat): seq<IssueKey>
    decreases to - from
  {
    if to <= from then [] else PageKeys(pages, from) + PagesFrom(pages, from + 1, to)
  }

  /** The outcome of a pagination run and the number of searches it made. */
  datatype Paged = Paged(result: Outcome<seq<IssueKey>>, searches: nat)

  /**
   * The pagination loop from page `k` on: search the page; an exception ends it, an empty or
   * short page ends it after taking its keys, a full page is taken and the next one searched.
   * `last` is any page at which the listing ends: the tracker holds finitely many ideas.
   */
  function PaginateFrom(pages: nat -> Outcome<seq<IssueKey>>, k: nat, last: nat): Paged
    requires k <= last && LastPage(pages, last)
    decreases last - k
  {
    var page := pages(k);
    if page.Raised? then Paged(Raised(page.message), 1)
    else if page.value == [] then Paged(Returned([]), 1)
    else if |page.value| < PageSize then Paged(Returned(page.value), 1)
    else
      var rest := PaginateFrom(pages, k + 1, last);
      Paged(if rest.result.Raised? then rest.result else Returned(page.value + rest.result.value), rest.searches + 1)
  }

  /** What `get_jpd_ideas_in_project` returns: the listed keys, or none when any search raised. */
  function IdeasOf(pages: nat -> Outcome<seq<IssueKey>>, last: nat): seq<IssueKey>
    requires LastPage(pages, last)
  {
    var p := PaginateFrom(pages, 0, last).result;
    if p.Raised? then [] else p.value
  }

  /**
   * The pagination searches consecutive pages from `k`, every one but the last full, and stops at
   * the first page that raises or is short.
   */
  lemma {:induction false} PaginateStops(pages: nat -> Outcome<seq<IssueKey>>, k: nat, last: nat)
    requires k <= last && LastPage(pages, last)
    ensures var n := PaginateFrom(pages, k, last).searches;
      && n >= 1 && k + n - 1 <= last
      && LastPage(pages, k + n - 1)
      && (forall m :: k <= m < k + n - 1 ==> !LastPage(pages, m))
    decreases last - k
  {
    if !LastPage(pages, k) {
      PaginateStops(pages, k + 1, last);
      var n := PaginateFrom(pages, k, last).searches;
      assert n == PaginateFrom(pages, k + 1, last).searches + 1;
      forall m | k <= m < k + n - 1
        ensures !LastPage(pages, m)
      {
      }
    }
  }

  /**
   * The pagination raises exactly when the page it stops at raises; otherwise it returns the keys
   * of all the pages it searched, in order.
   */
  lemma {:induction false} PaginateKeys(pages: nat -> Outcome<seq<IssueKey>>, k: nat, last: nat)
    requires k <= last && LastPage(pages, last)
    ensures var p := PaginateFrom(pages, k, last);
      && p.searches >= 1
      && (p.result.Raised? <==> pages(k + p.searches - 1).Raised?)
      && (p.result.Returned? ==> p.result.value == PagesFrom(pages, k, k + p.searches))
    decreases last - k
  {
    var page := pages(k);
    if page.Raised? || |page.value| < PageSize {
      assert PagesFrom(pages, k, k + 1) == PageKeys(pages, k) + PagesFrom(pages, k + 1, k + 1);
    } else {
      PaginateKeys(pages, k + 1, last);
      var rest := PaginateFrom(pages, k + 1, last);
      assert PagesFrom(pages, k, k + 1 + rest.searches)
        == PageKeys(pages, k) + PagesFrom(pages, k + 1, k + 1 + rest.searches);
    }
  }

  /** The listing does not depend on which end page is used to bound it. */
  lemma {:induction false} PaginateIndependent(pages: nat -> Outcome<seq<IssueKey>>, k: nat, last1: nat, last2: nat)
    requires k <= last1 && LastPage(pages, last1)
    requires k <= last2 && LastPage(pages, last2)
    ensures PaginateFrom(pages, k, last1) == PaginateFrom(pages, k, last2)
    decreases last1 - k
  {
    var page := pages(k);
    if !(page.Raised? || |page.value| < PageSize) {
      PaginateIndependent(pages, k + 1, last1, last2);
    }
  }

  /** Pages of 50, 50 and 17 ideas: three searches, and the 117 keys in page order. */
  lemma ThreePages(pages: nat -> Outcome<seq<IssueKey>>, a: seq<IssueKey>, b: seq<IssueKey>, c: seq<IssueKey>)
    requires pages(0) == Returned(a) && |a| == 50
    requires pages(1) == Returned(b) && |b| == 50
    requires pages(2) == Returned(c) && |c| == 17
    ensures LastPage(pages, 2)
    ensures PaginateFrom(pages, 0, 2) == Paged(Returned(a + b + c), 3)
    ensures |IdeasOf(pages, 2)| == 117
  {
    assert PaginateFrom(pages, 2, 2) == Paged(Returned(c), 1);
    assert PaginateFrom(pages, 1, 2) == Paged(Returned(b + c), 2);
    assert a + (b + c) == a + b + c;
  }

  /** Prefix the keys gathered so far and the searches made so far to the rest of a run. */
  function Resume(keys: seq<IssueKey>, searches: nat, rest: Paged): Paged
  {
    Paged(if rest.result.Raised? then rest.result else Returned(keys + rest.result.value), searches + rest.searches)
  }

  /** After a full page the run goes on with that page's keys gathered and one more search made. */
  lemma ResumeFullPage(pages: nat -> Outcome<seq<IssueKey>>, k: nat, last: nat, keys: seq<IssueKey>)
    requires k <= last && LastPage(pages, last) && !LastPage(pages, k)
    ensures k + 1 <= last
    ensures Resume(keys, k, PaginateFrom(pages, k, last))
      == Resume(keys + pages(k).value, k + 1, PaginateFrom(pages, k + 1, last))
  {
    var rest := PaginateFrom(pages, k + 1, last);
    if rest.result.Returned? {
      assert keys + (pages(k).value + rest.result.value) == (keys + pages(k).value) + rest.result.value;
    }
  }

  /** At a page that ends the listing without raising, the run returns what was gathered plus that page. */
  lemma ResumeLastPage(pages: nat -> Outcome<seq<IssueKey>>, k: nat, last: nat, keys: seq<IssueKey>)
    requires k <= last && LastPage(pages, last) && LastPage(pages, k) && pages(k).Returned?
    ensures Resume(keys, k, PaginateFrom(pages, k, last)) == Paged(Returned(keys + pages(k).value), k + 1)
  {
    if pages(k).value == [] {
      assert keys + [] == keys;
    }
  }

  /**
   * `get_jpd_ideas_in_project`: search page after page, pausing between pages, until a page is
   * empty or short; any exception gives no ideas at all. `searches` counts the searches made,
   * and the clock advanced by at least the pause after every search but the last.
   */
  method GetJpdIdeasInProject(client: Gateway.JiraClient, searchApi: (nat, nat) -> Outcome<seq<IssueKey>>, ghost last: nat)
    returns (ideaKeys: seq<IssueKey>, searches: nat)
    requires client.Valid() && LastPage(PagesOf(searchApi), last)
    modifies client
    ensures client.Valid()
    ensures ideaKeys == IdeasOf(PagesOf(searchApi), last)
    ensures searches == PaginateFrom(PagesOf(searchApi), 0, last).searches
    ensures client.writes == old(client.writes) && client.now >= old(client.now) + PagePauseMs * (searches - 1)
    ensures searches >= 1 && client.now >= old(client.now)
  {
    ghost var pages := PagesOf(searchApi);
    var allIssues: seq<IssueKey> := [];
    var startAt: nat := 0;
    searches := 0;
    assert Resume([], 0, PaginateFrom(pages, 0, last)) == PaginateFrom(pages, 0, last) by {
      var p := PaginateFrom(pages, 0, last);
      if p.result.Returned? {
        assert [] + p.result.value == p.result.value;
      }
    }
    while true
      invariant client.Valid()
      invariant startAt == searches * PageSize && searches <= last
      invariant client.writes == old(client.writes) && client.now >= old(client.now) + PagePauseMs * searches
      invariant Resume(allIssues, searches, PaginateFrom(pages, searches, last)) == PaginateFrom(pages, 0, last)
      decreases last - searches
    {
      var issues := client.SearchIssues(startAt, searchApi);
      assert issues == pages(searches);
      if issues.Raised? {
        return [], searches + 1;
      }
      if issues.value == [] || |issues.value| < PageSize {
        ResumeLastPage(pages, searches, last, allIssues);
        allIssues := allIssues + issues.value;
        searches := searches + 1;
        break;
      }
      ResumeFullPage(pages, searches, last, allIssues);
      allIssues := allIssues + issues.value;
      searches := searches + 1;
      startAt := startAt + PageSize;
      client.Sleep(PagePauseMs);
    }
    ideaKeys := allIssues;
  }

  // ---------------------------------------------------------------------------
  // The bulk run

  /** How one idea ended up, as recorded in `details`. */
  datatype DetailKind = NoLink | Synced | SkippedIdea | FailedIdea | ErrorIdea

  /** One entry of `details`: the idea, how it ended up, and its engineering ticket when one was found. */
  datatype Detail = Detail(idea: IssueKey, kind: DetailKind, ticket: Option<IssueKey>)

  /** The `results` dict of the bulk run: the five counters, `processed` and `details`. */
  datatype BulkResults = BulkResults(processed: nat, successful: nat, noLinks: nat, skipped: nat, failed: nat,
                                     details: seq<Detail>)

  const NoResults: BulkResults := BulkResults(0, 0, 0, 0, 0, [])

  /**
   * The bookkeeping the bulk run keeps after `items` ideas: each idea is either without link or
   * processed; without dry run each processed idea lands in exactly one of successful, skipped
   * and failed; on a dry run nothing counts as failed; every counted idea has one detail.
   */
  predicate Balanced(results: BulkResults, dryRun: bool, items: nat)
  {
    && results.noLinks + results.processed == items
    && results.successful + results.skipped + results.failed <= results.processed
    && (!dryRun ==> results.successful + results.skipped + results.failed == results.processed)
    && (dryRun ==> results.failed == 0)
    && |results.details| == results.noLinks + results.successful + results.skipped + results.failed
  }

  /** The pause after the `i`-th processed idea (counting from 1), in ms: `0.1` s on a dry run, else `min(1.0, 0.3 + i/100)` s. */
  function ItemDelayMs(i: nat, dryRun: bool): nat
  {
    if dryRun then 100 else if 300 + 10 * i < 1000 then 300 + 10 * i else 1000
  }

  /** Without dry run the pause grows with the position, from 310 ms, and is capped at one second from the 70th idea on. */
  lemma ItemDelayGrowsToCap(i: nat, j: nat)
    requires 1 <= i <= j
    ensures 310 <= ItemDelayMs(i, false) <= ItemDelayMs(j, false) <= 1000
    ensures j >= 70 ==> ItemDelayMs(j, false) == 1000
    ensures ItemDelayMs(i, true) == 100
  {
  }

  /** A detail's kind and ticket agree: only an idea without link has no ticket, and its ticket is an engineering key. */
  predicate WellFormedDetail(d: Detail)
  {
    (d.kind == NoLink <==> d.ticket.None?) && (d.ticket.Some? ==> IsEngineeringKey(d.ticket))
  }

  /** Every detail is about one of `ideas` and is well formed. */
  predicate DetailsAbout(details: seq<Detail>, ideas: seq<IssueKey>)
  {
    forall d :: d in details ==> d.idea in ideas && WellFormedDetail(d)
  }

  /**
   * How the bulk run books the sync of `idea` from its ticket `eng`: a synced idea is counted
   * successful, a skipped one skipped; a failed sync or an exception counts as failed, except on
   * a dry run where it is not counted at all. The idea counts as processed in every case.
   */
  function Tally(results: BulkResults, dryRun: bool, idea: IssueKey, eng: IssueKey, outcome: Outcome<SyncEngine.SyncResult>): BulkResults
  {
    var counted :=
      if outcome.Raised? then
        if dryRun then results
        else results.(failed := results.failed + 1, details := results.details + [Detail(idea, ErrorIdea, Some(eng))])
      else if outcome.value.success then
        results.(successful := results.successful + 1, details := results.details + [Detail(idea, Synced, Some(eng))])
      else if outcome.value.status == SyncEngine.Skipped then
        results.(skipped := results.skipped + 1, details := results.details + [Detail(idea, SkippedIdea, Some(eng))])
      else if dryRun then results
      else results.(failed := results.failed + 1, details := results.details + [Detail(idea, FailedIdea, Some(eng))]);
    counted.(processed := counted.processed + 1)
  }

  /** Booking an idea without an engineering ticket. */
  function TallyNoLink(results: BulkResults, idea: IssueKey): BulkResults
  {
    results.(noLinks := results.noLinks + 1, details := results.details + [Detail(idea, NoLink, None)])
  }

  /** Booking one more synced idea keeps the counters balanced. */
  lemma TallyKeepsBalance(results: BulkResults, dryRun: bool, i: nat, idea: IssueKey, eng: IssueKey,
                          outcome: Outcome<SyncEngine.SyncResult>)
    requires Balanced(results, dryRun, i)
    requires outcome.Returned? ==> (outcome.value.success <==> outcome.value.status == SyncEngine.Success)
    ensures Balanced(Tally(results, dryRun, idea, eng, outcome), dryRun, i + 1)
  {
  }

  /** Booking one of the ideas, synced from an engineering ticket, keeps the details about the ideas and well formed. */
  lemma TallyKeepsDetails(results: BulkResults, dryRun: bool, idea: IssueKey, eng: IssueKey,
                          outcome: Outcome<SyncEngine.SyncResult>, ideas: seq<IssueKey>)
    requires DetailsAbout(results.details, ideas) && idea in ideas && IsEngineeringKey(Some(eng))
    ensures DetailsAbout(Tally(results, dryRun, idea, eng, outcome).details, ideas)
  {
    var t := Tally(results, dryRun, idea, eng, outcome);
    assert forall d :: d in t.details ==> d in results.details || d == Detail(idea, d.kind, Some(eng));
  }

  /** Booking one of the ideas as without link keeps the details about the ideas and well formed. */
  lemma TallyNoLinkKeepsDetails(results: BulkResults, idea: IssueKey, ideas: seq<IssueKey>)
    requires DetailsAbout(results.details, ideas) && idea in ideas
    ensures DetailsAbout(TallyNoLink(results, idea).details, ideas)
  {
    var next := TallyNoLink(results, idea);
    assert forall d :: d in next.details ==> d in results.details || d == Detail(idea, NoLink, None);
  }

  /** What happened to one idea of the bulk run. */
  datatype IdeaEvent =
    | LookupRaised(message: string)                                    // fetching the idea raised: the run ends
    | NoTicket                                                         // no engineering ticket is linked
    | SyncedFrom(eng: IssueKey, outcome: Outcome<SyncEngine.SyncResult>, writes: seq<Gateway.FieldWrite>)
                                                                       // the pair sync from `eng` gave `outcome` and sent `writes`

  /**
   * What happens to `idea` in the bulk run: its ticket is looked up, and when there is one the
   * pair sync from the ticket onto the idea runs with the field mapping `mapping` and the answer
   * `response` typed at its prompt. A lookup raises only because fetching the idea raised; a
   * ticket found is an engineering key; a sync outcome reports success exactly with status success;
   * a sync on a dry run sends no update request.
   */
  function EventOf(idea: IssueKey, response: string, mapping: Outcome<seq<FieldCatalog.MappingEntry>>,
                   dryRun: bool, force: bool,
                   issueApi: (IssueKey, nat) -> Outcome<Option<Issue>>,
                   updateApi: (IssueKey, FieldId, string, nat) -> Outcome<()>): (e: IdeaEvent)
    ensures e.LookupRaised? ==> Gateway.Fetched(issueApi, idea) == Raised(e.message)
    ensures WellFormedEvent(e)
    ensures dryRun && e.SyncedFrom? ==> e.writes == []
  {
    var ticket := TicketOf(Gateway.Fetched(issueApi, idea));
    if ticket.Raised? then LookupRaised(ticket.message)
    else if ticket.value.None? then NoTicket
    else
      var g := SyncEngine.Gather(Gateway.Fetched(issueApi, ticket.value.value), Gateway.Fetched(issueApi, idea), mapping);
      SyncEngine.PairOutcomeStatus(g, dryRun, force, response, issueApi, updateApi);
      SyncEngine.PairWritesOnlyWhenGoingAhead(g, dryRun, force, response, issueApi);
      SyncedFrom(ticket.value.value, SyncEngine.PairOutcome(g, dryRun, force, response, issueApi, updateApi),
                 SyncEngine.PairWrites(g, dryRun, force, response, issueApi))
  }

  /** A sync event names an engineering ticket, and its outcome reports success exactly with status success. */
  predicate WellFormedEvent(e: IdeaEvent)
  {
    e.SyncedFrom? ==>
      IsEngineeringKey(Some(e.eng)) && (e.outcome.Returned? ==> (e.outcome.value.success <==> e.outcome.value.status == SyncEngine.Success))
  }

  /** The events of the listed ideas, in order; the `k`-th idea sees the answer `responses(k + 1)`. */
  function EventsOf(ideas: seq<IssueKey>, mapping: Outcome<seq<FieldCatalog.MappingEntry>>, dryRun: bool, force: bool,
                    responses: nat -> string,
                    issueApi: (IssueKey, nat) -> Outcome<Option<Issue>>,
                    updateApi: (IssueKey, FieldId, string, nat) -> Outcome<()>): (events: seq<IdeaEvent>)
    ensures |events| == |ideas|
    ensures forall k :: 0 <= k < |ideas| ==> events[k] == EventOf(ideas[k], responses(k + 1), mapping, dryRun, force, issueApi, updateApi)
  {
    seq(|ideas|, k requires 0 <= k < |ideas| => EventOf(ideas[k], responses(k + 1), mapping, dryRun, force, issueApi, updateApi))
  }

  /** Booking one idea by what happened to it; a raising lookup raises. */
  function Book(results: BulkResults, idea: IssueKey, e: IdeaEvent, dryRun: bool): Outcome<BulkResults>
  {
    match e
    case LookupRaised(message) => Raised(message)
    case NoTicket => Returned(TallyNoLink(results, idea))
    case SyncedFrom(eng, outcome, _) => Returned(Tally(results, dryRun, idea, eng, outcome))
  }

  /**
   * The bulk run's bookkeeping over the ideas from position `i` on, starting from `results`:
   * each idea is booked in turn by its event, and a raising lookup ends the run.
   */
  function BulkFrom(ideas: seq<IssueKey>, events: seq<IdeaEvent>, i: nat, results: BulkResults, dryRun: bool): Outcome<BulkResults>
    requires |events| == |ideas| && i <= |ideas|
    decreases |ideas| - i
  {
    if i == |ideas| then Returned(results)
    else
      var next := Book(results, ideas[i], events[i], dryRun);
      if next.Raised? then Raised(next.message)
      else BulkFrom(ideas, events, i + 1, next.value, dryRun)
  }

  /** A bulk run from position `i` raises only with the message of a raising lookup among the remaining ideas. */
  lemma {:induction false} BulkFromRaises(ideas: seq<IssueKey>, events: seq<IdeaEvent>, i: nat, results: BulkResults, dryRun: bool)
    requires |events| == |ideas| && i <= |ideas|
    ensures var b := BulkFrom(ideas, events, i, results, dryRun);
      b.Raised? ==> exists j :: i <= j < |ideas| && events[j] == LookupRaised(b.message)
    decreases |ideas| - i
  {
    if i < |ideas| {
      var next := Book(results, ideas[i], events[i], dryRun);
      if next.Returned? {
        BulkFromRaises(ideas, events, i + 1, next.value, dryRun);
      }
    }
  }

  /**
   * A bulk run over well-formed events that ends keeps its counters balanced: every idea is
   * without link or processed, each processed idea lands in one bucket (none in failed on a dry
   * run), and there is one detail per counted idea.
   */
  lemma {:induction false} BulkFromBalanced(ideas: seq<IssueKey>, events: seq<IdeaEvent>, i: nat, results: BulkResults, dryRun: bool)
    requires |events| == |ideas| && i <= |ideas| && Balanced(results, dryRun, i)
    requires forall k :: 0 <= k < |events| ==> WellFormedEvent(events[k])
    ensures var b := BulkFrom(ideas, events, i, results, dryRun);
      b.Returned? ==> Balanced(b.value, dryRun, |ideas|)
    decreases |ideas| - i
  {
    if i < |ideas| {
      var next := Book(results, ideas[i], events[i], dryRun);
      if events[i].SyncedFrom? {
        TallyKeepsBalance(results, dryRun, i, ideas[i], events[i].eng, events[i].outcome);
      }
      if next.Returned? {
        BulkFromBalanced(ideas, events, i + 1, next.value, dryRun);
      }
    }
  }

  /** Booking one of the ideas by a well-formed event keeps every detail about one of them and well formed. */
  lemma BookKeepsDetails(results: BulkResults, idea: IssueKey, e: IdeaEvent, dryRun: bool, ideas: seq<IssueKey>)
    requires DetailsAbout(results.details, ideas) && idea in ideas && WellFormedEvent(e)
    ensures var b := Book(results, idea, e, dryRun);
      b.Returned? ==> DetailsAbout(b.value.details, ideas)
  {
    match e
    case LookupRaised(_) =>
    case NoTicket => TallyNoLinkKeepsDetails(results, idea, ideas);
    case SyncedFrom(eng, outcome, _) => TallyKeepsDetails(results, dryRun, idea, eng, outcome, ideas);
  }

  /** A bulk run never lowers the successful count it starts from. */
  lemma {:induction false} BulkFromKeepsSuccesses(ideas: seq<IssueKey>, events: seq<IdeaEvent>, i: nat, results: BulkResults,
                                                  dryRun: bool)
    requires |events| == |ideas| && i <= |ideas|
    ensures var b := BulkFrom(ideas, events, i, results, dryRun);
      b.Returned? ==> b.value.successful >= results.successful
    decreases |ideas| - i
  {
    if i < |ideas| {
      var next := Book(results, ideas[i], events[i], dryRun);
      if next.Returned? {
        BulkFromKeepsSuccesses(ideas, events, i + 1, next.value, dryRun);
      }
    }
  }

  /**
   * An idea whose linked ticket syncs successfully is booked as synced, so a bulk run over it
   * that ends reports at least one success.
   */
  lemma SyncedIdeaCounts(ideas: seq<IssueKey>, events: seq<IdeaEvent>, i: nat, results: BulkResults, dryRun: bool)
    requires |events| == |ideas| && i < |ideas|
    requires events[i].SyncedFrom? && events[i].outcome.Returned? && events[i].outcome.value.success
    ensures var b := BulkFrom(ideas, events, i, results, dryRun);
      b.Returned? ==> b.value.successful > 0
  {
    var next := Book(results, ideas[i], events[i], dryRun);
    assert next.Returned? && next.value.successful == results.successful + 1;
    BulkFromKeepsSuccesses(ideas, events, i + 1, next.value, dryRun);
  }

  /**
   * The update requests the bulk run sends from position `i` on: those of each idea's pair sync,
   * in order, up to the first raising lookup.
   */
  function RunWrites(events: seq<IdeaEvent>, i: nat): seq<Gateway.FieldWrite>
    requires i <= |events|
    decreases |events| - i
  {
    if i == |events| then []
    else match events[i]
      case LookupRaised(_) => []
      case NoTicket => RunWrites(events, i + 1)
      case SyncedFrom(_, _, writes) => writes + RunWrites(events, i + 1)
  }

  /**
   * The item delays the bulk run sleeps from position `i` on: one after each idea whose ticket
   * was found (whatever its sync gave), up to the first raising lookup.
   */
  function RunPauseMs(events: seq<IdeaEvent>, i: nat, dryRun: bool): nat
    requires i <= |events|
    decreases |events| - i
  {
    if i == |events| then 0
    else match events[i]
      case LookupRaised(_) => 0
      case NoTicket => RunPauseMs(events, i + 1, dryRun)
      case SyncedFrom(_, _, _) => ItemDelayMs(i + 1, dryRun) + RunPauseMs(events, i + 1, dryRun)
  }

  /** The loop's account of the pauses, as `RunWritesAdvance` for the writes. */
  lemma RunPauseAdvance(events: seq<IdeaEvent>, i: nat, dryRun: bool, start: int, before: int, after: int)
    requires i < |events| && !events[i].LookupRaised?
    requires before + RunPauseMs(events, i, dryRun) >= start + RunPauseMs(events, 0, dryRun)
    requires after >= before + (if events[i].SyncedFrom? then ItemDelayMs(i + 1, dryRun) else 0)
    ensures after + RunPauseMs(events, i + 1, dryRun) >= start + RunPauseMs(events, 0, dryRun)
  {
  }

  /**
   * The loop's account of the writes: when the log so far, `sent`, plus the writes still to come
   * from idea `i` make up the run's writes, so do the log after idea `i` and the writes after it.
   */
  lemma RunWritesAdvance(events: seq<IdeaEvent>, i: nat, start: seq<Gateway.FieldWrite>, sent: seq<Gateway.FieldWrite>)
    requires i < |events| && !events[i].LookupRaised?
    requires start + RunWrites(events, 0) == sent + RunWrites(events, i)
    ensures start + RunWrites(events, 0) == (sent + (if events[i].SyncedFrom? then events[i].writes else [])) + RunWrites(events, i + 1)
  {
  }

  /** When no pair sync sends anything, as on a dry run, the bulk run sends no update request. */
  lemma {:induction false} RunWritesNone(events: seq<IdeaEvent>, i: nat)
    requires i <= |events|
    requires forall k :: 0 <= k < |events| && events[k].SyncedFrom? ==> events[k].writes == []
    ensures RunWrites(events, i) == []
    decreases |events| - i
  {
    if i < |events| && !events[i].LookupRaised? {
      RunWritesNone(events, i + 1);
    }
  }

  /** A dry bulk run sends no update request at all, whatever the ideas and the answers. */
  lemma DryRunWritesNothing(ideas: seq<IssueKey>, mapping: Outcome<seq<FieldCatalog.MappingEntry>>, force: bool,
                            responses: nat -> string,
                            issueApi: (IssueKey, nat) -> Outcome<Option<Issue>>,
                            updateApi: (IssueKey, FieldId, string, nat) -> Outcome<()>)
    ensures RunWrites(EventsOf(ideas, mapping, true, force, responses, issueApi, updateApi), 0) == []
  {
    var events := EventsOf(ideas, mapping, true, force, responses, issueApi, updateApi);
    forall k | 0 <= k < |events| && events[k].SyncedFrom?
      ensures events[k].writes == []
    {
      assert events[k] == EventOf(ideas[k], responses(k + 1), mapping, true, force, issueApi, updateApi);
    }
    RunWritesNone(events, 0);
  }

  /** Every idea reached whose ticket was found is followed by its own item delay. */
  lemma {:induction false} RunPausesAfterEachSync(events: seq<IdeaEvent>, i: nat, k: nat, dryRun: bool)
    requires i <= k < |events| && events[k].SyncedFrom?
    requires forall j :: i <= j < k ==> !events[j].LookupRaised?
    ensures RunPauseMs(events, i, dryRun) >= ItemDelayMs(k + 1, dryRun)
    decreases k - i
  {
    if i < k {
      RunPausesAfterEachSync(events, i + 1, k, dryRun);
    }
  }

  /**
   * `bulk_sync_project`: list the ideas; with none, report failure. Otherwise, for each idea in
   * order, find its engineering ticket (a fetch that raises here ends the whole run) and sync
   * that ticket onto the idea, counting the outcome; `responses(i)` is the answer typed at the
   * confirmation prompt for the `i`-th idea. Every pair sync sees the same field mapping, that of
   * the cache or the catalogue at the start. The run succeeds when at least one idea synced. The
   * write log grows by exactly the pair syncs' update requests, so a dry run writes nothing, and
   * the clock advances by at least the item delays.
   */
  method BulkSyncProject(client: Gateway.JiraClient, mapper: FieldCatalog.FieldMapper, dryRun: bool, force: bool,
                         responses: nat -> string,
                         searchApi: (nat, nat) -> Outcome<seq<IssueKey>>, ghost last: nat,
                         issueApi: (IssueKey, nat) -> Outcome<Option<Issue>>,
                         updateApi: (IssueKey, FieldId, string, nat) -> Outcome<()>,
                         catalogue: Outcome<seq<FieldDef>>)
    returns (r: Outcome<bool>, results: BulkResults)
    requires client.Valid() && LastPage(PagesOf(searchApi), last)
    modifies client, mapper
    ensures client.Valid()
    ensures var ideas := IdeasOf(PagesOf(searchApi), last);
      ideas == [] ==> r == Returned(false) && results == NoResults
    ensures var ideas := IdeasOf(PagesOf(searchApi), last);
      ideas != [] ==>
        var events := EventsOf(ideas, FieldCatalog.CachedMapping(old(mapper.fieldCache), catalogue), dryRun, force, responses,
                               issueApi, updateApi);
        var b := BulkFrom(ideas, events, 0, NoResults, dryRun);
        && (b.Raised? ==> r == Raised(b.message))
        && (b.Returned? ==> r == Returned(b.value.successful > 0) && results == b.value)
        && client.writes == old(client.writes) + RunWrites(events, 0)
        && client.now >= old(client.now) + RunPauseMs(events, 0, dryRun)
    ensures dryRun ==> client.writes == old(client.writes)
    ensures r.Returned? && IdeasOf(PagesOf(searchApi), last) != [] ==> Balanced(results, dryRun, |IdeasOf(PagesOf(searchApi), last)|)
    ensures r.Returned? ==> (r.value <==> results.successful > 0)
    ensures r.Raised? ==> exists i :: (0 <= i < |IdeasOf(PagesOf(searchApi), last)|
      && Gateway.Fetched(issueApi, IdeasOf(PagesOf(searchApi), last)[i]) == Raised(r.message))
    ensures DetailsAbout(results.details, IdeasOf(PagesOf(searchApi), last))
  {
    var ideaKeys, _ := GetJpdIdeasInProject(client, searchApi, last);
    if ideaKeys == [] {
      return Returned(false), NoResults;
    }
    ghost var events := EventsOf(ideaKeys, FieldCatalog.CachedMapping(mapper.fieldCache, catalogue), dryRun, force, responses,
                                 issueApi, updateApi);
    BulkFromRaises(ideaKeys, events, 0, NoResults, dryRun);
    BulkFromBalanced(ideaKeys, events, 0, NoResults, dryRun);
    r, results := BookAll(client, mapper, ideaKeys, dryRun, force, responses, issueApi, updateApi, catalogue);
  }

  /**
   * The loop of the bulk run over the listed ideas, in order: each idea is booked in turn, and
   * a raising lookup ends the run. The write log grows by the run's update requests (none on a
   * dry run), and the clock by at least the item delays.
   */
  method BookAll(client: Gateway.JiraClient, mapper: FieldCatalog.FieldMapper, ideaKeys: seq<IssueKey>,
                 dryRun: bool, force: bool, responses: nat -> string,
                 issueApi: (IssueKey, nat) -> Outcome<Option<Issue>>,
                 updateApi: (IssueKey, FieldId, string, nat) -> Outcome<()>,
                 catalogue: Outcome<seq<FieldDef>>)
    returns (r: Outcome<bool>, results: BulkResults)
    requires client.Valid()
    modifies client, mapper
    ensures client.Valid()
    ensures var events := EventsOf(ideaKeys, FieldCatalog.CachedMapping(old(mapper.fieldCache), catalogue), dryRun, force, responses,
                                   issueApi, updateApi);
      var b := BulkFrom(ideaKeys, events, 0, NoResults, dryRun);
      && (b.Raised? ==> r == Raised(b.message))
      && (b.Returned? ==> r == Returned(b.value.successful > 0) && results == b.value)
      && client.writes == old(client.writes) + RunWrites(events, 0)
      && client.now >= old(client.now) + RunPauseMs(events, 0, dryRun)
    ensures dryRun ==> client.writes == old(client.writes)
    ensures DetailsAbout(results.details, ideaKeys)
  {
    ghost var mapping := FieldCatalog.CachedMapping(mapper.fieldCache, catalogue);
    ghost var events := EventsOf(ideaKeys, mapping, dryRun, force, responses, issueApi, updateApi);
    if dryRun {
      DryRunWritesNothing(ideaKeys, mapping, force, responses, issueApi, updateApi);
    }
    results := NoResults;
    var i := 0;
    while i < |ideaKeys|
      invariant client.Valid()
      invariant 0 <= i <= |ideaKeys|
      invariant FieldCatalog.CachedMapping(mapper.fieldCache, catalogue) == mapping
      invariant DetailsAbout(results.details, ideaKeys)
      invariant BulkFrom(ideaKeys, events, 0, NoResults, dryRun) == BulkFrom(ideaKeys, events, i, results, dryRun)
      invariant old(client.writes) + RunWrites(events, 0) == client.writes + RunWrites(events, i)
      invariant client.now + RunPauseMs(events, i, dryRun) >= old(client.now) + RunPauseMs(events, 0, dryRun)
    {
      ghost var before, beforeNow := client.writes, client.now;
      var step, e := ProcessIdea(client, mapper, ideaKeys[i], i + 1, responses(i + 1), results, dryRun, force, issueApi, updateApi, catalogue);
      assert e == events[i];
      BookKeepsDetails(results, ideaKeys[i], e, dryRun, ideaKeys);
      if step.Raised? {
        return Raised(step.message), results;
      }
      RunWritesAdvance(events, i, old(client.writes), before);
      RunPauseAdvance(events, i, dryRun, old(client.now), beforeNow, client.now);
      results := step.value;
      i := i + 1;
    }
    r := Returned(results.successful > 0);
  }

  /**
   * One pass of the bulk loop for the idea at `position` (counting from 1): find its ticket and,
   * when there is one, sync it onto the idea, book the outcome and pause for the item delay. The
   * write log grows by the pair sync's update requests.
   */
  method ProcessIdea(client: Gateway.JiraClient, mapper: FieldCatalog.FieldMapper, ideaKey: IssueKey, position: nat, response: string,
                     results: BulkResults, dryRun: bool, force: bool,
                     issueApi: (IssueKey, nat) -> Outcome<Option<Issue>>,
                     updateApi: (IssueKey, FieldId, string, nat) -> Outcome<()>,
                     catalogue: Outcome<seq<FieldDef>>)
    returns (step: Outcome<BulkResults>, ghost e: IdeaEvent)
    requires client.Valid()
    modifies client, mapper
    ensures client.Valid()
    ensures FieldCatalog.CachedMapping(mapper.fieldCache, catalogue) == FieldCatalog.CachedMapping(old(mapper.fieldCache), catalogue)
    ensures e == EventOf(ideaKey, response, FieldCatalog.CachedMapping(old(mapper.fieldCache), catalogue), dryRun, force, issueApi, updateApi)
    ensures step == Book(results, ideaKey, e, dryRun)
    ensures client.writes == old(client.writes) + (if e.SyncedFrom? then e.writes else [])
    ensures client.now >= old(client.now) + (if e.SyncedFrom? then ItemDelayMs(position, dryRun) else 0)
  {
    e := EventOf(ideaKey, response, FieldCatalog.CachedMapping(mapper.fieldCache, catalogue), dryRun, force, issueApi, updateApi);
    var engTicket := FindLinkedEngineeringTicket(client, ideaKey, issueApi);
    if engTicket.Raised? {
      return Raised(engTicket.message), e;
    }
    if engTicket.value.None? {
      return Returned(TallyNoLink(results, ideaKey)), e;
    }
    var eng := engTicket.value.value;
    var outcome, _ := SyncEngine.CloneFieldsWithStatus(client, mapper, eng, ideaKey, dryRun, force, response,
                                                      issueApi, updateApi, catalogue);
    step := Returned(Tally(results, dryRun, ideaKey, eng, outcome));
    client.Sleep(ItemDelayMs(position, dryRun));
  }
}
