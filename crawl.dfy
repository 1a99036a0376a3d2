/**
 * `extract_data` and the URL lists it is given: the list phase visits the
 * municipality list pages and fills `muni_metadata`; the detail phase visits
 * one page per municipality found and fills `barangay_data`.
 *
 * The attempts made on the k-th URL of a phase are `net(k)`. A phase ends
 * with its dictionary, or stops at the first URL whose loop is still
 * retrying when its trace runs out, or at the first page whose extraction
 * raises (which ends the whole run).
 */
module Crawl {
  import opened Wrappers
  import opened Text
  import opened Page
  import opened Records
  import opened Retry

  const BASE_URL: string := "http://www.nscb.gov.ph/activestats/psgc"

  // ---------------------------------------------------------------------
  // URL lists
  // ---------------------------------------------------------------------

  /** `BASE_URL + '/listmun.asp?whichpage=%i' % page` */
  function ListPageUrl(page: int): string {
    BASE_URL + "/listmun.asp?whichpage=" + IntToString(page)
  }

  /** `range(first_page, last_page + 1)` mapped to list-page URLs; empty when `last < first`. */
  function ListPageUrls(first: int, last: int): (urls: seq<string>)
    ensures |urls| == if last < first then 0 else last - first + 1
    ensures forall i :: 0 <= i < |urls| ==> urls[i] == ListPageUrl(first + i)
    decreases last - first
  {
    if last < first then [] else ListPageUrls(first, last - 1) + [ListPageUrl(last)]
  }

  /** Different page numbers give different URLs, so no list page is fetched twice. */
  lemma ListPageUrlInjective(p: int, q: int)
    requires ListPageUrl(p) == ListPageUrl(q)
    ensures p == q
  {
    var prefix := BASE_URL + "/listmun.asp?whichpage=";
    assert IntToString(p) == ListPageUrl(p)[|prefix|..];
    assert IntToString(q) == ListPageUrl(q)[|prefix|..];
    IntToStringInjective(p, q);
  }

  lemma ListPageUrlsDistinct(first: int, last: int)
    ensures var urls := ListPageUrls(first, last);
      forall i, j :: 0 <= i < j < |urls| ==> urls[i] != urls[j]
  {
    var urls := ListPageUrls(first, last);
    forall i, j | 0 <= i < j < |urls|
      ensures urls[i] != urls[j]
    {
      if urls[i] == urls[j] {
        ListPageUrlInjective(first + i, first + j);
      }
    }
  }

  /** One element of the detail phase's list: `(key, name, BASE_URL + '/' + href)`. */
  datatype DetailItem = DetailItem(muniKey: string, muniName: string, url: string)

  function ItemFor(meta: MuniTable, key: string): DetailItem
    requires key in meta
  {
    DetailItem(key, meta[key].name, BASE_URL + "/" + meta[key].href)
  }

  function ItemKeys(items: seq<DetailItem>): (keys: seq<string>)
    ensures |keys| == |items| && forall i :: 0 <= i < |items| ==> keys[i] == items[i].muniKey
  {
    seq(|items|, i requires 0 <= i < |items| => items[i].muniKey)
  }

  predicate Distinct(keys: seq<string>) {
    forall i, j :: 0 <= i < j < |keys| ==> keys[i] != keys[j]
  }

  /**
   * A listing of a dictionary's keys in whatever order `keys()` hands them
   * out: every key exactly once, each with its own record's name and link.
   */
  predicate IsDetailListing(items: seq<DetailItem>, meta: MuniTable) {
    && Distinct(ItemKeys(items))
    && (forall k :: k in meta ==> k in ItemKeys(items))
    && (forall i :: 0 <= i < |items| ==> items[i].muniKey in meta && items[i] == ItemFor(meta, items[i].muniKey))
  }

  /** The list comprehension over `muni_metadata.keys()`; the key order is left open. */
  method DetailItems(meta: MuniTable) returns (items: seq<DetailItem>)
    ensures IsDetailListing(items, meta)
    ensures |items| == |meta|
  {
    items := [];
    var rest := meta.Keys;
    while rest != {}
      invariant rest <= meta.Keys
      invariant Distinct(ItemKeys(items))
      invariant forall k :: k in ItemKeys(items) <==> k in meta && k !in rest
      invariant forall i :: 0 <= i < |items| ==> items[i].muniKey in meta && items[i] == ItemFor(meta, items[i].muniKey)
      invariant |items| + |rest| == |meta|
      decreases |rest|
    {
      var k :| k in rest;
      assert ItemKeys(items + [ItemFor(meta, k)]) == ItemKeys(items) + [k];
      items := items + [ItemFor(meta, k)];
      rest := rest - {k};
    }
  }

  // ---------------------------------------------------------------------
  // Phases
  // ---------------------------------------------------------------------

  datatype PhaseResult<T> =
    | Done(data: T)
    | Stuck(url: string, failures: nat)   // the retry loop is still running
    | Aborted(url: string, fault: Fault)  // extraction raised: the run dies

  /** One URL of the list phase: fetch with retries, then store the page's rows. */
  function ListStep(url: string, trace: seq<Attempt>, data: MuniTable): PhaseResult<MuniTable> {
    match Outcome(trace)
    case StillRetrying(k, _) => Stuck(url, k)
    case Got(doc, _, _) =>
      match MuniPage(doc, data)
      case Err(f) => Aborted(url, f)
      case Ok(d) => Done(d)
  }

  /** `extract_data(url_list, client, muni_metadata)` on list-page URLs. */
  function ListPhase(urls: seq<string>, net: nat -> seq<Attempt>, data: MuniTable): PhaseResult<MuniTable>
    decreases |urls|
  {
    if urls == [] then Done(data)
    else
      var n := |urls| - 1;
      match ListPhase(urls[..n], net, data)
      case Done(d) => ListStep(urls[n], net(n), d)
      case stop => stop
  }

  /** The loop of `extract_data` over list-page URLs. */
  method ExtractMuniData(urls: seq<string>, net: nat -> seq<Attempt>, data: MuniTable)
    returns (r: PhaseResult<MuniTable>)
    ensures r == ListPhase(urls, net, data)
  {
    var cur := data;
    for i := 0 to |urls|
      invariant ListPhase(urls[..i], net, data) == Done(cur)
    {
      assert urls[..i + 1][..i] == urls[..i];
      var f := FetchWithRetries(net(i));
      if f.StillRetrying? {
        r := Stuck(urls[i], f.failures);
        ListPhaseStops(urls, net, data, i + 1);
        return;
      }
      var p := StoreMuniRows(f.doc, cur);
      if p.Err? {
        r := Aborted(urls[i], p.error);
        ListPhaseStops(urls, net, data, i + 1);
        return;
      }
      cur := p.value;
    }
    assert urls[..|urls|] == urls;
    return Done(cur);
  }

  /** Once a prefix of the URLs stops the phase, the whole phase stops there. */
  lemma {:induction false} ListPhaseStops(urls: seq<string>, net: nat -> seq<Attempt>, data: MuniTable, i: nat)
    requires i <= |urls| && !ListPhase(urls[..i], net, data).Done?
    ensures ListPhase(urls, net, data) == ListPhase(urls[..i], net, data)
    decreases |urls| - i
  {
    if i < |urls| {
      assert urls[..i + 1][..i] == urls[..i];
      ListPhaseStops(urls, net, data, i + 1);
    } else {
      assert urls[..i] == urls;
    }
  }

  /** The list phase never removes a municipality: every key it started with is still there. */
  lemma {:induction false} ListPhaseKeepsKeys(urls: seq<string>, net: nat -> seq<Attempt>, data: MuniTable)
    ensures ListPhase(urls, net, data).Done? ==> data.Keys <= ListPhase(urls, net, data).data.Keys
    decreases |urls|
  {
    if urls != [] {
      ListPhaseKeepsKeys(urls[..|urls| - 1], net, data);
    }
  }

  /**
   * A phase that does not finish stopped at one of its URLs, and every URL
   * before that one was fetched and extracted without error.
   */
  lemma {:induction false} ListPhaseStopsAt(urls: seq<string>, net: nat -> seq<Attempt>, data: MuniTable)
    ensures !ListPhase(urls, net, data).Done? ==> exists i :: ListStoppedAt(urls, net, data, i)
    decreases |urls|
  {
    if urls != [] && !ListPhase(urls, net, data).Done? {
      var n := |urls| - 1;
      if ListPhase(urls[..n], net, data).Done? {
        StoppedAtLast(urls, net, data);
      } else {
        ListPhaseStopsAt(urls[..n], net, data);
        var i :| ListStoppedAt(urls[..n], net, data, i);
        StoppedBeforeLast(urls, net, data, i);
      }
    }
  }

  lemma StoppedAtLast(urls: seq<string>, net: nat -> seq<Attempt>, data: MuniTable)
    requires urls != [] && ListPhase(urls[..|urls| - 1], net, data).Done?
    ensures ListStoppedAt(urls, net, data, |urls| - 1)
  {
  }

  lemma StoppedBeforeLast(urls: seq<string>, net: nat -> seq<Attempt>, data: MuniTable, i: int)
    requires urls != [] && !ListPhase(urls[..|urls| - 1], net, data).Done?
    requires ListStoppedAt(urls[..|urls| - 1], net, data, i)
    ensures ListStoppedAt(urls, net, data, i)
  {
    var n := |urls| - 1;
    assert urls[..n][..i] == urls[..i];
  }

  /** URL `i` is where the phase stopped: every URL before it went through. */
  ghost predicate ListStoppedAt(urls: seq<string>, net: nat -> seq<Attempt>, data: MuniTable, i: int) {
    0 <= i < |urls| && ListPhase(urls[..i], net, data).Done?
    && ListPhase(urls, net, data) == ListStep(urls[i], net(i), ListPhase(urls[..i], net, data).data)
  }

  /** A list page whose retry loop never succeeds leaves the phase stuck on it, whatever follows. */
  lemma ListPhaseStuckOnDeadPage(urls: seq<string>, net: nat -> seq<Attempt>, data: MuniTable, i: nat)
    requires i < |urls| && ListPhase(urls[..i], net, data).Done?
    requires forall j :: 0 <= j < |net(i)| ==> net(i)[j] == IoFailure
    ensures ListPhase(urls, net, data) == Stuck(urls[i], |net(i)|)
  {
    assert urls[..i + 1][..i] == urls[..i];
    ListPhaseStops(urls, net, data, i + 1);
  }

  /**
   * One item of the detail phase, as written: fetch with retries, then
   * `if not muni_name:` sends an item whose name is blank down the list-page
   * branch, and every other item stores its page's barangays.
   */
  function DetailStep(item: DetailItem, trace: seq<Attempt>, d: DetailData): PhaseResult<DetailData> {
    match Outcome(trace)
    case StillRetrying(k, _) => Stuck(item.url, k)
    case Got(doc, _, _) =>
      match DetailPage(item, doc, d)
      case Err(f) => Aborted(item.url, f)
      case Ok(next) => Done(next)
  }

  /** The branch `extract_data` takes on a fetched detail page, as written. */
  function DetailPage(item: DetailItem, doc: Document, d: DetailData): Result<DetailData, Fault> {
    if TakesListBranch(Some(item.muniName)) then ListedPage(doc, d)
    else
      match BarangayPage(item.muniKey, item.muniName, doc, d.barangays)
      case Err(f) => Err(f)
      case Ok(b) => Ok(DetailData(b, d.listed))
  }

  function DetailPhase(items: seq<DetailItem>, net: nat -> seq<Attempt>, data: DetailData): PhaseResult<DetailData>
    decreases |items|
  {
    if items == [] then Done(data)
    else
      var n := |items| - 1;
      match DetailPhase(items[..n], net, data)
      case Done(d) => DetailStep(items[n], net(n), d)
      case stop => stop
  }

  /** The loop of `extract_data` over detail items. */
  method ExtractBarangayData(items: seq<DetailItem>, net: nat -> seq<Attempt>, data: DetailData)
    returns (r: PhaseResult<DetailData>)
    ensures r == DetailPhase(items, net, data)
  {
    var cur := data;
    for i := 0 to |items|
      invariant DetailPhase(items[..i], net, data) == Done(cur)
    {
      DetailPhaseNext(items, net, data, i, cur);
      var f := FetchWithRetries(net(i));
      if f.StillRetrying? {
        r := Stuck(items[i].url, f.failures);
        DetailPhaseStops(items, net, data, i + 1);
        return;
      }
      var p: Result<DetailData, Fault>;
      if TakesListBranch(Some(items[i].muniName)) {
        p := StoreListedRows(f.doc, cur);
      } else {
        var b := StoreBarangayTables(items[i].muniKey, items[i].muniName, f.doc, cur.barangays);
        p := if b.Err? then Err(b.error) else Ok(DetailData(b.value, cur.listed));
      }
      assert p == DetailPage(items[i], f.doc, cur);
      if p.Err? {
        r := Aborted(items[i].url, p.error);
        DetailPhaseStops(items, net, data, i + 1);
        return;
      }
      cur := p.value;
    }
    assert items[..|items|] == items;
    return Done(cur);
  }

  /** The pass over one more item is the pass so far followed by that item's step. */
  lemma DetailPhaseNext(items: seq<DetailItem>, net: nat -> seq<Attempt>, data: DetailData, i: nat, cur: DetailData)
    requires i < |items| && DetailPhase(items[..i], net, data) == Done(cur)
    ensures DetailPhase(items[..i + 1], net, data) == DetailStep(items[i], net(i), cur)
  {
    assert items[..i + 1][..i] == items[..i];
  }

  lemma {:induction false} DetailPhaseStops(items: seq<DetailItem>, net: nat -> seq<Attempt>, data: DetailData, i: nat)
    requires i <= |items| && !DetailPhase(items[..i], net, data).Done?
    ensures DetailPhase(items, net, data) == DetailPhase(items[..i], net, data)
    decreases |items| - i
  {
    if i < |items| {
      assert items[..i + 1][..i] == items[..i];
      DetailPhaseStops(items, net, data, i + 1);
    } else {
      assert items[..i] == items;
    }
  }

  // ---------------------------------------------------------------------
  // The detail phase as intended, and where the code as written agrees
  // ---------------------------------------------------------------------

  /** One item of the detail phase as intended: every item is a municipality page and stores its barangays. */
  function IntendedStep(item: DetailItem, trace: seq<Attempt>, data: BarangayTable): PhaseResult<BarangayTable> {
    match Outcome(trace)
    case StillRetrying(k, _) => Stuck(item.url, k)
    case Got(doc, _, _) =>
      match BarangayPage(item.muniKey, item.muniName, doc, data)
      case Err(f) => Aborted(item.url, f)
      case Ok(d) => Done(d)
  }

  /** The detail phase as intended, whatever the municipalities' names. */
  function IntendedDetailPhase(items: seq<DetailItem>, net: nat -> seq<Attempt>, data: BarangayTable): PhaseResult<BarangayTable>
    decreases |items|
  {
    if items == [] then Done(data)
    else
      var n := |items| - 1;
      match IntendedDetailPhase(items[..n], net, data)
      case Done(d) => IntendedStep(items[n], net(n), d)
      case stop => stop
  }

  predicate NoBlankNames(items: seq<DetailItem>) {
    forall i :: 0 <= i < |items| ==> items[i].muniName != []
  }

  /** A barangay-only phase result, with `listed` as the list-page records beside it. */
  function WithListed(r: PhaseResult<BarangayTable>, listed: MuniTable): PhaseResult<DetailData> {
    match r
    case Done(b) => Done(DetailData(b, listed))
    case Stuck(u, k) => Stuck(u, k)
    case Aborted(u, f) => Aborted(u, f)
  }

  /**
   * When no municipality's name is blank, the code as written does what is
   * intended: the same barangays, the same stopping point, and nothing
   * stored by the list-page branch.
   */
  lemma {:induction false} DetailPhaseAgrees(items: seq<DetailItem>, net: nat -> seq<Attempt>, data: BarangayTable, listed: MuniTable)
    requires NoBlankNames(items)
    ensures DetailPhase(items, net, DetailData(data, listed)) == WithListed(IntendedDetailPhase(items, net, data), listed)
    decreases |items|
  {
    if items != [] {
      var n := |items| - 1;
      assert NoBlankNames(items[..n]) by {
        assert forall i :: 0 <= i < n ==> items[..n][i] == items[i];
      }
      DetailPhaseAgrees(items[..n], net, data, listed);
      AgreeStep(items[n], net(n), IntendedDetailPhase(items[..n], net, data), listed);
    }
  }

  lemma AgreeStep(item: DetailItem, trace: seq<Attempt>, r: PhaseResult<BarangayTable>, listed: MuniTable)
    requires item.muniName != []
    ensures (match WithListed(r, listed)
             case Done(d) => DetailStep(item, trace, d)
             case stop => stop)
         == WithListed(match r case Done(b) => IntendedStep(item, trace, b) case stop => stop, listed)
  {
  }

  /**
   * The intended detail phase, when it finishes, gives each municipality
   * exactly what its own page would give on the starting dictionary, and
   * leaves every key it was not asked about alone. The attempts a page gets
   * are those at its position, so the order in which `keys()` lists the
   * municipalities matters only through the attempts each one is given.
   */
  lemma {:induction false} IntendedDetailPhaseLocal(items: seq<DetailItem>, net: nat -> seq<Attempt>, data: BarangayTable)
    requires Distinct(ItemKeys(items))
    requires IntendedDetailPhase(items, net, data).Done?
    ensures var d := IntendedDetailPhase(items, net, data).data;
      forall k :: k !in ItemKeys(items) ==> SameAt(d, data, k)
    ensures var d := IntendedDetailPhase(items, net, data).data;
      forall i :: 0 <= i < |items| ==> PageAloneGives(items[i], net(i), data, d)
    decreases |items|
  {
    if items != [] {
      var n := |items| - 1;
      DistinctInit(items);
      IntendedDetailPhaseLocal(items[..n], net, data);
      DetailLocalFrame(items, net, data);
      DetailLocalPages(items, net, data);
    }
  }

  /**
   * The same for the code as written, where no name is blank (a blank name
   * sends a page down the list-page branch, which can drop the barangays of
   * any key its rows produce).
   */
  lemma DetailPhaseLocal(items: seq<DetailItem>, net: nat -> seq<Attempt>, data: BarangayTable, listed: MuniTable)
    requires NoBlankNames(items) && Distinct(ItemKeys(items))
    requires DetailPhase(items, net, DetailData(data, listed)).Done?
    ensures DetailPhase(items, net, DetailData(data, listed)).data.listed == listed
    ensures var d := DetailPhase(items, net, DetailData(data, listed)).data.barangays;
      forall k :: k !in ItemKeys(items) ==> SameAt(d, data, k)
    ensures var d := DetailPhase(items, net, DetailData(data, listed)).data.barangays;
      forall i :: 0 <= i < |items| ==> PageAloneGives(items[i], net(i), data, d)
  {
    DetailPhaseAgrees(items, net, data, listed);
    IntendedDetailPhaseLocal(items, net, data);
  }

  /** Dropping the last item keeps the keys distinct, and the last key is not among the others. */
  lemma DistinctInit(items: seq<DetailItem>)
    requires items != [] && Distinct(ItemKeys(items))
    ensures Distinct(ItemKeys(items[..|items| - 1]))
    ensures items[|items| - 1].muniKey !in ItemKeys(items[..|items| - 1])
    ensures forall i :: 0 <= i < |items| - 1 ==> items[i].muniKey != items[|items| - 1].muniKey
  {
    var n := |items| - 1;
    var keys := ItemKeys(items);
    var init := ItemKeys(items[..n]);
    assert |init| == n;
    forall j | 0 <= j < n
      ensures init[j] == keys[j]
    {
      assert items[..n][j] == items[j];
    }
    forall j | 0 <= j < n
      ensures init[j] != items[n].muniKey && items[j].muniKey != items[n].muniKey
    {
      assert keys[j] != keys[n];
    }
  }

  lemma DetailLocalFrame(items: seq<DetailItem>, net: nat -> seq<Attempt>, data: BarangayTable)
    requires items != [] && IntendedDetailPhase(items, net, data).Done?
    requires var init := items[..|items| - 1];
      IntendedDetailPhase(init, net, data).Done? &&
      forall k :: k !in ItemKeys(init) ==> SameAt(IntendedDetailPhase(init, net, data).data, data, k)
    ensures forall k :: k !in ItemKeys(items) ==> SameAt(IntendedDetailPhase(items, net, data).data, data, k)
  {
    var n := |items| - 1;
    var init := items[..n];
    var d0 := IntendedDetailPhase(init, net, data).data;
    var d := IntendedDetailPhase(items, net, data).data;
    var it := items[n];
    BarangayPageFrame(it.muniKey, it.muniName, Outcome(net(n)).doc, d0);
    forall k | k !in ItemKeys(items)
      ensures SameAt(d, data, k)
    {
      assert k != ItemKeys(items)[n];
      assert forall j :: 0 <= j < n ==> ItemKeys(init)[j] == ItemKeys(items)[j];
      assert k !in ItemKeys(init);
    }
  }

  lemma DetailLocalPages(items: seq<DetailItem>, net: nat -> seq<Attempt>, data: BarangayTable)
    requires items != [] && IntendedDetailPhase(items, net, data).Done?
    requires items[|items| - 1].muniKey !in ItemKeys(items[..|items| - 1])
    requires forall i :: 0 <= i < |items| - 1 ==> items[i].muniKey != items[|items| - 1].muniKey
    requires var init := items[..|items| - 1];
      IntendedDetailPhase(init, net, data).Done? &&
      (forall k :: k !in ItemKeys(init) ==> SameAt(IntendedDetailPhase(init, net, data).data, data, k)) &&
      forall i :: 0 <= i < |init| ==> PageAloneGives(init[i], net(i), data, IntendedDetailPhase(init, net, data).data)
    ensures forall i :: 0 <= i < |items| ==> PageAloneGives(items[i], net(i), data, IntendedDetailPhase(items, net, data).data)
  {
    var n := |items| - 1;
    var init := items[..n];
    var d0 := IntendedDetailPhase(init, net, data).data;
    var d := IntendedDetailPhase(items, net, data).data;
    var it := items[n];
    assert BarangayPage(it.muniKey, it.muniName, Outcome(net(n)).doc, d0) == Ok(d);
    forall i | 0 <= i < |items|
      ensures PageAloneGives(items[i], net(i), data, d)
    {
      if i < n {
        assert items[i] == init[i];
        LaterPageKeepsEarlier(it, Outcome(net(n)).doc, d0, d, items[i], net(i), data);
      } else {
        PageAloneOnUntouched(it, net(n), d0, d, data);
      }
    }
  }

  /** A later page for another municipality leaves what an earlier page stored. */
  lemma LaterPageKeepsEarlier(it: DetailItem, doc: Document, d0: BarangayTable, d: BarangayTable,
                              other: DetailItem, trace: seq<Attempt>, data: BarangayTable)
    requires BarangayPage(it.muniKey, it.muniName, doc, d0) == Ok(d)
    requires other.muniKey != it.muniKey
    requires PageAloneGives(other, trace, data, d0)
    ensures PageAloneGives(other, trace, data, d)
  {
    BarangayPageFrame(it.muniKey, it.muniName, doc, d0);
    var p := BarangayPage(other.muniKey, other.muniName, Outcome(trace).doc, data).value;
    SameAtTrans(d, d0, p, other.muniKey);
  }

  /** A page stored where no earlier page touched its key gives what it would give on its own. */
  lemma PageAloneOnUntouched(it: DetailItem, trace: seq<Attempt>, d0: BarangayTable, d: BarangayTable, data: BarangayTable)
    requires Outcome(trace).Got? && BarangayPage(it.muniKey, it.muniName, Outcome(trace).doc, d0) == Ok(d)
    requires SameAt(d0, data, it.muniKey)
    ensures PageAloneGives(it, trace, data, d)
  {
    BarangayPageLocal(it.muniKey, it.muniName, Outcome(trace).doc, d0, data);
  }

  lemma IntendedDetailPhaseLocalAt(items: seq<DetailItem>, net: nat -> seq<Attempt>, data: BarangayTable, i: nat)
    requires Distinct(ItemKeys(items))
    requires IntendedDetailPhase(items, net, data).Done?
    requires i < |items|
    ensures PageAloneGives(items[i], net(i), data, IntendedDetailPhase(items, net, data).data)
  {
    IntendedDetailPhaseLocal(items, net, data);
  }

  /** Fetching `item`'s page and storing it into `data` alone would give `d`'s entry for it. */
  ghost predicate PageAloneGives(item: DetailItem, trace: seq<Attempt>, data: BarangayTable, d: BarangayTable) {
    && Outcome(trace).Got?
    && BarangayPage(item.muniKey, item.muniName, Outcome(trace).doc, data).Ok?
    && SameAt(d, BarangayPage(item.muniKey, item.muniName, Outcome(trace).doc, data).value, item.muniKey)
  }

  // ---------------------------------------------------------------------
  // Where barangays come from, blank names included
  // ---------------------------------------------------------------------

  /** Some item with a non-blank name has key `k`. */
  ghost predicate NamedKey(items: seq<DetailItem>, k: string) {
    exists i :: 0 <= i < |items| && items[i].muniKey == k && items[i].muniName != []
  }

  /** Barangay `r`, stored under `k` and `b`, comes from the page of a non-blank-named item with key `k`. */
  ghost predicate FromNamedItem(items: seq<DetailItem>, k: string, b: string, r: BarangayRecord) {
    exists i :: 0 <= i < |items| && items[i].muniKey == k && items[i].muniName != []
      && r.muniName == items[i].muniName && NormalisedBarangay(r) && b == Key(r.name, r.code)
  }

  ghost predicate StoredByNamedItems(items: seq<DetailItem>, bd: BarangayTable) {
    && (forall k :: k in bd ==> NamedKey(items, k))
    && (forall k, b :: k in bd && b in bd[k] ==> FromNamedItem(items, k, b, bd[k][b]))
  }

  /**
   * Starting from no barangays, every municipality entry and every barangay
   * the detail phase stores, as written, belongs to an item with a non-blank
   * name and carries that item's name: the list-page branch a blank name
   * takes only ever removes barangays.
   */
  lemma {:induction false} BarangaysFromNamedItems(items: seq<DetailItem>, net: nat -> seq<Attempt>, listed: MuniTable)
    requires DetailPhase(items, net, DetailData(map[], listed)).Done?
    ensures StoredByNamedItems(items, DetailPhase(items, net, DetailData(map[], listed)).data.barangays)
    decreases |items|
  {
    if items != [] {
      var n := |items| - 1;
      var d0 := DetailPhase(items[..n], net, DetailData(map[], listed)).data;
      BarangaysFromNamedItems(items[..n], net, listed);
      StoredByPrefix(items, n, d0.barangays);
      var it := items[n];
      var doc := Outcome(net(n)).doc;
      if TakesListBranch(Some(it.muniName)) {
        ListedPageIsMuniPage(doc, d0);
        StoredAfterDrop(items, d0.barangays, MuniPage(doc, map[]).value.Keys);
      } else {
        StoredAfterPage(items, n, doc, d0.barangays);
      }
    }
  }

  lemma StoredByPrefix(items: seq<DetailItem>, n: nat, bd: BarangayTable)
    requires n <= |items| && StoredByNamedItems(items[..n], bd)
    ensures StoredByNamedItems(items, bd)
  {
    assert forall i :: 0 <= i < n ==> items[..n][i] == items[i];
    forall k | k in bd
      ensures NamedKey(items, k)
    {
      var i :| 0 <= i < n && items[..n][i].muniKey == k && items[..n][i].muniName != [];
    }
    forall k, b | k in bd && b in bd[k]
      ensures FromNamedItem(items, k, b, bd[k][b])
    {
      var r := bd[k][b];
      var i :| 0 <= i < n && items[..n][i].muniKey == k && items[..n][i].muniName != []
        && r.muniName == items[..n][i].muniName && NormalisedBarangay(r) && b == Key(r.name, r.code);
    }
  }

  lemma StoredAfterDrop(items: seq<DetailItem>, bd: BarangayTable, gone: set<string>)
    requires StoredByNamedItems(items, bd)
    ensures StoredByNamedItems(items, bd - gone)
  {
    var r := bd - gone;
    forall k, b | k in r && b in r[k]
      ensures FromNamedItem(items, k, b, r[k][b])
    {
      assert r[k] == bd[k];
    }
  }

  lemma StoredAfterPage(items: seq<DetailItem>, n: nat, doc: Document, bd: BarangayTable)
    requires n < |items| && items[n].muniName != []
    requires BarangayPage(items[n].muniKey, items[n].muniName, doc, bd).Ok?
    requires StoredByNamedItems(items, bd)
    ensures StoredByNamedItems(items, BarangayPage(items[n].muniKey, items[n].muniName, doc, bd).value)
  {
    var it := items[n];
    var r := BarangayPage(it.muniKey, it.muniName, doc, bd).value;
    BarangayPageFrame(it.muniKey, it.muniName, doc, bd);
    forall k | k in r
      ensures NamedKey(items, k)
    {
      if k != it.muniKey {
        assert SameAt(r, bd, k);
      }
    }
    forall k, b | k in r && b in r[k]
      ensures FromNamedItem(items, k, b, r[k][b])
    {
      if k != it.muniKey {
        assert SameAt(r, bd, k);
      } else {
        BarangayPageSource(k, it.muniName, doc, bd, b);
      }
    }
  }

  /**
   * With distinct keys, a municipality whose name is blank never gets a
   * barangay entry from the detail phase as written.
   */
  lemma BlankNameGetsNoEntry(items: seq<DetailItem>, net: nat -> seq<Attempt>, listed: MuniTable, i: nat)
    requires Distinct(ItemKeys(items)) && i < |items| && items[i].muniName == []
    requires DetailPhase(items, net, DetailData(map[], listed)).Done?
    ensures items[i].muniKey !in DetailPhase(items, net, DetailData(map[], listed)).data.barangays
  {
    BarangaysFromNamedItems(items, net, listed);
    BlankKeyUnstored(items, DetailPhase(items, net, DetailData(map[], listed)).data.barangays, i);
  }

  lemma BlankKeyUnstored(items: seq<DetailItem>, bd: BarangayTable, i: nat)
    requires Distinct(ItemKeys(items)) && i < |items| && items[i].muniName == []
    requires StoredByNamedItems(items, bd)
    ensures items[i].muniKey !in bd
  {
    var k := items[i].muniKey;
    if k in bd {
      NamedKeyOf(items, bd, k);
      var j :| 0 <= j < |items| && items[j].muniKey == k && items[j].muniName != [];
      KeysDiffer(items, i, j);
      assert false;
    }
  }

  lemma FromNamedItemOf(items: seq<DetailItem>, bd: BarangayTable, k: string, b: string)
    requires StoredByNamedItems(items, bd) && k in bd && b in bd[k]
    ensures FromNamedItem(items, k, b, bd[k][b])
  {
  }

  lemma NamedKeyOf(items: seq<DetailItem>, bd: BarangayTable, k: string)
    requires StoredByNamedItems(items, bd) && k in bd
    ensures NamedKey(items, k)
  {
  }

  lemma KeysDiffer(items: seq<DetailItem>, i: nat, j: nat)
    requires Distinct(ItemKeys(items)) && i < |items| && j < |items| && i != j
    ensures items[i].muniKey != items[j].muniKey
  {
    if i < j {
      assert ItemKeys(items)[i] != ItemKeys(items)[j];
    } else {
      assert ItemKeys(items)[j] != ItemKeys(items)[i];
    }
  }

  // ---------------------------------------------------------------------
  // The branch test of `extract_data`
  // ---------------------------------------------------------------------

  /**
   * `if not muni_name:` as written: the list-page branch is taken for a
   * plain URL (no name) and also for a detail item whose name is blank.
   */
  predicate TakesListBranch(muniName: Option<string>) {
    muniName.None? || muniName.value == []
  }

  /**
   * A list-page row whose name cell is blank (or holds only non-ASCII text)
   * is stored with name `''`, and its detail item is then sent down the
   * list-page branch instead of the barangay branch.
   */
  lemma BlankNameTakesListBranch()
    ensures var row := [Cell(" ", Some("m.asp")), Cell("1", None), Cell("", None), Cell("", None),
                        Cell("", None), Cell("", None), Cell("", None)];
      MuniRow(row).Ok?
      && var e := MuniRow(row).value;
         var meta := map[e.key := e.val];
         TakesListBranch(Some(ItemFor(meta, e.key).muniName))
  {
    var row := [Cell(" ", Some("m.asp")), Cell("1", None), Cell("", None), Cell("", None),
                Cell("", None), Cell("", None), Cell("", None)];
    assert LeadingSpaces(" ") == 1;
    assert Clean(" ") == [];
  }
}
