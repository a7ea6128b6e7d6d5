/** The bounded audit store with its newest-first pages (backend/server/src/routes/admin_audit.rs)
    and the dashboard's export loop over such pages (dashboard/app/audit/page.tsx:205-240). */
module AuditStore {
  import opened Basics

  datatype Event = Event(
    eventId: string, orgId: string, deviceId: string, timestampMs: int, eventType: string, severity: string,
    action: string, riskLevel: string, category: Option<string>, reason: Option<string>)

  const STORE_CAP := 1000
  const EXPORT_PAGE_SIZE := 100
  const EXPORT_ROW_CAP := 1000
  const UINT64_LIMIT := 0x1_0000_0000_0000_0000

  datatype ListArgs = ListArgs(
    page: Option<nat>, perPage: Option<nat>, decision: Option<string>, category: Option<string>,
    deviceId: Option<string>, search: Option<string>)

  /** The newest entries of a recording, oldest of them first. */
  function Newest<T>(all: seq<T>, cap: nat): seq<T> { all[Max(0, |all| - cap)..] }

  predicate Contains(text: string, needle: string) {
    needle <= text || (text != "" && Contains(text[1..], needle))
  }

  predicate Wanted(filter: Option<string>, value: string) { filter.None? || filter.value == value }

  predicate Mentions(value: Option<string>, needle: string, lower: string -> string) {
    value.Some? && Contains(lower(value.value), needle)
  }

  /** dev_event_matches; lower-casing is given. */
  predicate Matches(e: Event, args: ListArgs, lower: string -> string) {
    && (args.category.None? || e.category == args.category)
    && Wanted(args.deviceId, e.deviceId)
    && Wanted(args.decision, e.action)
    && (args.search.Some? ==>
          var needle := lower(args.search.value);
          || Contains(lower(e.deviceId), needle)
          || Contains(lower(e.eventId), needle)
          || Mentions(e.reason, needle, lower)
          || Mentions(e.category, needle, lower))
  }

  /** All filters of dev_audit_page together. */
  predicate Listed(e: Event, args: ListArgs, org: Option<string>, severityFloor: bool, lower: string -> string) {
    && Wanted(org, e.orgId)
    && (severityFloor ==> e.severity == "high" || e.severity == "critical")
    && Matches(e, args, lower)
  }

  function Filter<T>(keep: T -> bool, s: seq<T>): seq<T> {
    if s == [] then [] else
    Filter(keep, s[..|s| - 1]) + (if keep(s[|s| - 1]) then [s[|s| - 1]] else [])
  }

  function Reverse<T>(s: seq<T>): (r: seq<T>)
    ensures |r| == |s| && forall i :: 0 <= i < |s| ==> r[i] == s[|s| - 1 - i]
  {
    seq(|s|, i requires 0 <= i < |s| => s[|s| - 1 - i])
  }

  /** Page p (from 1) of a listing: its elements from (p-1) x per on, at most per of them. */
  function PageOf<T>(all: seq<T>, page: nat, per: nat): seq<T>
    requires page >= 1 && per >= 1
  {
    PageFrom(all, (page - 1) * per, per)
  }

  function PageFrom<T>(all: seq<T>, start: nat, per: nat): seq<T> {
    if start < |all| then all[start..Min(start + per, |all|)] else []
  }

  function PageNumber(args: ListArgs): nat { Max(1, if args.page.Some? then args.page.value else 1) }

  function PerPage(args: ListArgs): nat { Max(1, Min(100, if args.perPage.Some? then args.perPage.value else 25)) }

  function Offset(args: ListArgs): nat { (PageNumber(args) - 1) * PerPage(args) }

  datatype Page<+T> = Page(items: seq<T>, total: nat)

  /** The newest-first listing that dev_audit_page pages through. */
  ghost function ListingOf(recorded: seq<Event>, args: ListArgs, org: Option<string>, floor: bool,
                           lower: string -> string): seq<Event> {
    Reverse(Filter((e: Event) => Listed(e, args, org, floor, lower), Newest(recorded, STORE_CAP)))
  }

  class Store {
    var events: seq<Event>
    ghost var recorded: seq<Event>

    ghost predicate Valid()
      reads this
    {
      events == Newest(recorded, STORE_CAP)
    }

    constructor ()
      ensures Valid() && recorded == []
    {
      events, recorded := [], [];
    }

    /** record_dev_audit: push, then drop the oldest when over the cap. The store always holds the
        last 1000 recorded events in order. */
    method Record(e: Event)
      requires Valid()
      modifies this
      ensures Valid() && recorded == old(recorded) + [e]
      ensures events == if |recorded| <= 1000 then recorded else recorded[|recorded| - 1000..]
    {
      events := events + [e];
      recorded := recorded + [e];
      if |events| > STORE_CAP { events := events[1..]; }
    }

    /** The filters of dev_audit_page over the store, then the reversal. */
    method Listing(args: ListArgs, org: Option<string>, severityFloor: bool, lower: string -> string)
      returns (listing: seq<Event>)
      ensures listing == Reverse(Filter((e: Event) => Listed(e, args, org, severityFloor, lower), events))
    {
      ghost var keep := (e: Event) => Listed(e, args, org, severityFloor, lower);
      var filtered := [];
      for i := 0 to |events|
        invariant filtered == Filter(keep, events[..i])
      {
        assert events[..i + 1][..i] == events[..i];
        if Listed(events[i], args, org, severityFloor, lower) { filtered := filtered + [events[i]]; }
      }
      assert events[..|events|] == events;
      listing := Reverse(filtered);
    }

    /** dev_audit_page: filter, reverse, skip, take. The offset is computed in wrapping 64-bit
        arithmetic, as a release build does. */
    method ListPage(args: ListArgs, org: Option<string>, severityFloor: bool, lower: string -> string)
      returns (p: Page<Event>)
      requires Valid()
      requires args.page.Some? ==> args.page.value < UINT64_LIMIT
      ensures var all := ListingOf(recorded, args, org, severityFloor, lower);
        && p.total == |all|
        && (p.items == PageOf(all, PageNumber(args), PerPage(args)) <==>
              Offset(args) < UINT64_LIMIT || Offset(args) % UINT64_LIMIT >= |all|)
    {
      var listing := Listing(args, org, severityFloor, lower);
      FilterShrinks((e: Event) => Listed(e, args, org, severityFloor, lower), events);
      WrappedPage(listing, Offset(args), PerPage(args));
      return Page(PageFrom(listing, Offset(args) % UINT64_LIMIT, PerPage(args)), |listing|);
    }
  }

  lemma {:induction false} FilterShrinks<T>(keep: T -> bool, s: seq<T>)
    ensures |Filter(keep, s)| <= |s|
    decreases |s|
  {
    if s == [] {
    } else {
      FilterShrinks(keep, s[..|s| - 1]);
    }
  }

  /** Filtering keeps exactly the elements that pass, in order: element by element and part by part. */
  lemma {:induction false} FilterConcat<T>(keep: T -> bool, a: seq<T>, b: seq<T>, x: T)
    ensures Filter(keep, [x]) == if keep(x) then [x] else []
    ensures Filter(keep, a + b) == Filter(keep, a) + Filter(keep, b)
    decreases |b|
  {
    assert [x][..0] == [];
    if b == [] {
      assert a + b == a;
    } else {
      var n := |b| - 1;
      assert (a + b)[..|a + b| - 1] == a + b[..n];
      FilterConcat(keep, a, b[..n], x);
    }
  }

  /** A wrapped offset still gives the right page exactly when it lands past the end. */
  lemma WrappedPage<T>(all: seq<T>, offset: nat, per: nat)
    requires per >= 1 && |all| < UINT64_LIMIT
    ensures PageFrom(all, offset % UINT64_LIMIT, per) == PageFrom(all, offset, per) <==>
      offset < UINT64_LIMIT || offset % UINT64_LIMIT >= |all|
  {
    var start := offset % UINT64_LIMIT;
    if offset >= UINT64_LIMIT && start < |all| {
      assert all[start] in all[start..Min(start + per, |all|)];
    }
  }

  /** Some part of the text is the needle. */
  ghost predicate HasPart(text: string, needle: string) {
    exists before, after :: text == before + needle + after
  }

  lemma {:induction false} PartIsContained(before: string, needle: string, after: string)
    ensures Contains(before + needle + after, needle)
    decreases |before|
  {
    var text := before + needle + after;
    if before == "" {
      assert text == needle + after;
    } else {
      assert text[1..] == before[1..] + needle + after;
      PartIsContained(before[1..], needle, after);
    }
  }

  lemma {:induction false} ContainedIsPart(text: string, needle: string)
    requires Contains(text, needle)
    ensures HasPart(text, needle)
    decreases |text|
  {
    if needle <= text {
      assert text == [] + needle + text[|needle|..];
    } else {
      ContainedIsPart(text[1..], needle);
      var before, after :| text[1..] == before + needle + after;
      assert text == [text[0]] + before + needle + after;
    }
  }

  lemma ContainsIff(text: string, needle: string)
    ensures Contains(text, needle) <==> HasPart(text, needle)
  {
    if Contains(text, needle) { ContainedIsPart(text, needle); }
    if HasPart(text, needle) {
      var before, after :| text == before + needle + after;
      PartIsContained(before, needle, after);
    }
  }

  /** What a listing shows, in its own words: the organisation, high or critical severity if asked for,
      the category, device and decision asked for, and the search text as a part of the device, the event
      id, the reason or the category, all in lower case. */
  lemma ListedIff(e: Event, args: ListArgs, org: Option<string>, severityFloor: bool, lower: string -> string)
    ensures Listed(e, args, org, severityFloor, lower) <==>
      && (org == None || org == Some(e.orgId))
      && (severityFloor ==> e.severity == "high" || e.severity == "critical")
      && (args.category == None || args.category == e.category)
      && (args.deviceId == None || args.deviceId == Some(e.deviceId))
      && (args.decision == None || args.decision == Some(e.action))
      && (args.search.None?
          || HasPart(lower(e.deviceId), lower(args.search.value))
          || HasPart(lower(e.eventId), lower(args.search.value))
          || (e.reason.Some? && HasPart(lower(e.reason.value), lower(args.search.value)))
          || (e.category.Some? && HasPart(lower(e.category.value), lower(args.search.value))))
  {
    if args.search.Some? {
      var needle := lower(args.search.value);
      ContainsIff(lower(e.deviceId), needle);
      ContainsIff(lower(e.eventId), needle);
      if e.reason.Some? { ContainsIff(lower(e.reason.value), needle); }
      if e.category.Some? { ContainsIff(lower(e.category.value), needle); }
    }
  }

  /** Pages count from 1, page 0 is page 1; a page has 25 rows unless asked otherwise, from 1 to 100. */
  lemma PageDefaults(args: ListArgs)
    ensures args.page == None || args.page == Some(0) ==> PageNumber(args) == 1
    ensures args.page.Some? && args.page.value >= 1 ==> PageNumber(args) == args.page.value
    ensures args.perPage == None ==> PerPage(args) == 25
    ensures args.perPage == Some(0) ==> PerPage(args) == 1
    ensures args.perPage.Some? && 1 <= args.perPage.value <= 100 ==> PerPage(args) == args.perPage.value
    ensures args.perPage.Some? && args.perPage.value > 100 ==> PerPage(args) == 100
  {
  }

  /** Page 2^62 + 1, at four rows a page, wraps around to the first page. */
  lemma HugePageWrapsAround(e: Event)
    ensures var args := ListArgs(Some(0x4000_0000_0000_0001), Some(4), None, None, None, None);
      PageFrom([e], Offset(args) % UINT64_LIMIT, PerPage(args)) == [e] &&
          PageOf([e], PageNumber(args), PerPage(args)) == []
  {
  }

  // ---------------------------------------------------------------- pages cover the listing

  function Pages<T>(all: seq<T>, per: nat, n: nat): seq<seq<T>>
    requires per >= 1
  {
    seq(n, i requires 0 <= i < n => PageOf(all, i + 1, per))
  }

  lemma {:induction false} FirstPages<T>(all: seq<T>, per: nat, n: nat)
    requires per >= 1
    ensures n * per >= 0 && Flatten(Pages(all, per, n)) == all[..Min(n * per, |all|)]
    decreases n
  {
    if n == 0 {
      assert Pages(all, per, n) == [];
    } else {
      FirstPages(all, per, n - 1);
      assert Pages(all, per, n) == Pages(all, per, n - 1) + [PageOf(all, n, per)];
      FlattenSnoc(Pages(all, per, n - 1), PageOf(all, n, per));
      NextPage(all, per, n);
    }
  }

  lemma NextPage<T>(all: seq<T>, per: nat, n: nat)
    requires per >= 1 && n >= 1
    ensures (n - 1) * per >= 0 && n * per == (n - 1) * per + per
    ensures all[..Min((n - 1) * per, |all|)] + PageOf(all, n, per) == all[..Min(n * per, |all|)]
  {
    var start := (n - 1) * per;
    assert n * per == start + per;
    if start < |all| { assert all[..start] + all[start..Min(start + per, |all|)] == all[..Min(start + per, |all|)]; }
  }

  lemma PagesSuffice(total: nat, per: nat)
    requires per >= 1
    ensures (total + per - 1) / per * per >= total
  {
    var x := total + per - 1;
    assert x == x / per * per + x % per;
  }

  /** Pages 1 to ceil(total / per) put together are the whole listing, nothing missing or repeated. */
  lemma PagesCoverListing<T>(all: seq<T>, per: nat)
    requires per >= 1
    ensures Flatten(Pages(all, per, (|all| + per - 1) / per)) == all
  {
    var n := (|all| + per - 1) / per;
    FirstPages(all, per, n);
    PagesSuffice(|all|, per);
    assert all[..|all|] == all;
  }

  // ---------------------------------------------------------------- the export loop

  /** A pager that keeps answering from one listing. */
  ghost predicate IsStable<T>(pager: nat -> Page<T>, all: seq<T>) {
    forall p {:trigger pager(p)} :: p >= 1 ==> pager(p) == Page(PageOf(all, p, EXPORT_PAGE_SIZE), |all|)
  }

  /** The rows pushed from one page: it stops at the cap. */
  function Pushed<T>(rows: seq<T>, items: seq<T>): seq<T> {
    rows + items[..Min(|items|, Max(0, EXPORT_ROW_CAP - |rows|))]
  }

  /** `for (const e of result.items)`: push until the cap is reached. */
  method PushItems<T>(before: seq<T>, items: seq<T>) returns (rows: seq<T>)
    requires |before| <= EXPORT_ROW_CAP
    ensures rows == Pushed(before, items) && |rows| <= EXPORT_ROW_CAP
  {
    rows := before;
    for i := 0 to |items|
      invariant |rows| <= EXPORT_ROW_CAP
      invariant rows == Pushed(before, items[..i])
    {
      if |rows| >= EXPORT_ROW_CAP {
        assert Pushed(before, items) == rows;
        return;
      }
      assert items[..i + 1] == items[..i] + [items[i]];
      rows := rows + [items[i]];
    }
    assert items[..|items|] == items;
  }

  /** handleExport's loop. It ends for every pager; over a stable one it yields exactly the first
      1000 rows of the listing, and says so exactly when there were more. */
  method Export<T>(pager: nat -> Page<T>, ghost all: seq<T>) returns (rows: seq<T>, truncated: bool)
    ensures |rows| <= 1000
    ensures IsStable(pager, all) ==> rows == if |all| <= 1000 then all else all[..1000]
    ensures IsStable(pager, all) ==> (truncated <==> |all| > 1000)
  {
    rows := [];
    var exportPage := 1;
    var total: Option<nat> := None;
    while (total.None? || |rows| < total.value) && |rows| < EXPORT_ROW_CAP
      invariant 1 <= exportPage && |rows| <= EXPORT_ROW_CAP
      invariant IsStable(pager, all) ==> ExportSoFar(all, exportPage, rows, total)
      decreases EXPORT_ROW_CAP - |rows|
    {
      var result := pager(exportPage);
      total := Some(result.total);
      if IsStable(pager, all) { ExportNext(all, exportPage, rows, total); }
      rows := PushItems(rows, result.items);
      if |result.items| == 0 { break; }
      exportPage := exportPage + 1;
    }
    assert all[..|all|] == all;
    truncated := |rows| >= EXPORT_ROW_CAP && total.Some? && total.value > |rows|;
  }

  /** The arguments of the request for one page of an export. */
  function PageArgs(args: ListArgs, page: nat): ListArgs {
    args.(page := Some(page), perPage := Some(EXPORT_PAGE_SIZE))
  }

  lemma PageArgsFacts(args: ListArgs, page: nat, org: Option<string>, floor: bool, lower: string -> string,
                      recorded: seq<Event>)
    requires 1 <= page <= EXPORT_ROW_CAP
    ensures PageNumber(PageArgs(args, page)) == page && PerPage(PageArgs(args, page)) == EXPORT_PAGE_SIZE
    ensures Offset(PageArgs(args, page)) < UINT64_LIMIT
    ensures ListingOf(recorded, PageArgs(args, page), org, floor, lower) == ListingOf(recorded, args, org, floor, lower)
  {
    FilterAgrees((e: Event) => Listed(e, PageArgs(args, page), org, floor, lower),
                 (e: Event) => Listed(e, args, org, floor, lower), Newest(recorded, STORE_CAP));
  }

  lemma {:induction false} FilterAgrees<T>(f: T -> bool, g: T -> bool, s: seq<T>)
    requires forall x :: x in s ==> f(x) == g(x)
    ensures Filter(f, s) == Filter(g, s)
    decreases |s|
  {
    if s == [] {
    } else {
      FilterAgrees(f, g, s[..|s| - 1]);
      assert s[|s| - 1] in s;
    }
  }

  /** The same loop with every page fetched from a store that does not change meanwhile: it yields
      every event the store holds and the filters let through, newest first, and is never truncated. */
  method ExportStore(store: Store, args: ListArgs, org: Option<string>, floor: bool, lower: string -> string)
    returns (rows: seq<Event>, truncated: bool)
    requires store.Valid()
    ensures rows == ListingOf(store.recorded, args, org, floor, lower) && !truncated
  {
    ghost var all := ListingOf(store.recorded, args, org, floor, lower);
    FilterShrinks((e: Event) => Listed(e, args, org, floor, lower), Newest(store.recorded, STORE_CAP));
    rows := [];
    var exportPage := 1;
    var total: Option<nat> := None;
    while (total.None? || |rows| < total.value) && |rows| < EXPORT_ROW_CAP
      invariant 1 <= exportPage <= |rows| + 1 && |rows| <= EXPORT_ROW_CAP
      invariant ExportSoFar(all, exportPage, rows, total)
      decreases EXPORT_ROW_CAP - |rows|
    {
      PageArgsFacts(args, exportPage, org, floor, lower, store.recorded);
      var result := store.ListPage(PageArgs(args, exportPage), org, floor, lower);
      total := Some(result.total);
      ExportNext(all, exportPage, rows, total);
      rows := PushItems(rows, result.items);
      if |result.items| == 0 { break; }
      exportPage := exportPage + 1;
    }
    assert all[..|all|] == all;
    truncated := |rows| >= EXPORT_ROW_CAP && total.Some? && total.value > |rows|;
  }

  /** After the pages before `next`, the rows are the first (next-1) x 100 of the listing. */
  ghost predicate ExportSoFar<T>(all: seq<T>, next: nat, rows: seq<T>, total: Option<nat>) {
    && next >= 1
    && rows == all[..Min(Min((next - 1) * EXPORT_PAGE_SIZE, |all|), EXPORT_ROW_CAP)]
    && total == if next == 1 then None else Some(|all|)
  }

  lemma ExportNext<T>(all: seq<T>, next: nat, before: seq<T>, total: Option<nat>)
    requires next >= 1 && before == all[..Min(Min((next - 1) * EXPORT_PAGE_SIZE, |all|), EXPORT_ROW_CAP)]
    requires |before| < EXPORT_ROW_CAP && total == Some(|all|)
    ensures ExportSoFar(all, next + 1, Pushed(before, PageOf(all, next, EXPORT_PAGE_SIZE)), total)
    ensures PageOf(all, next, EXPORT_PAGE_SIZE) == [] ==>
      Pushed(before, PageOf(all, next, EXPORT_PAGE_SIZE)) == all[..Min(|all|, EXPORT_ROW_CAP)]
  {
    NextPage(all, EXPORT_PAGE_SIZE, next);
  }
}
