/**
 * `download_muni_data(first_page, last_page)`: the list phase, the detail
 * phase over the municipalities found, and the two output files.
 *
 * The network is given as two attempt oracles, one per phase, indexed by
 * the position of the URL in its phase; the clock is the `Timestamp`
 * parameter. Progress messages and timings are not modelled.
 */
module Scrape {
  import opened Wrappers
  import opened Text
  import opened Order
  import opened Page
  import opened Records
  import opened Retry
  import opened Crawl
  import opened Output

  datatype Run =
    | ListStopped(list: PhaseResult<MuniTable>)          // stuck or raised during the list phase
    | DetailStopped(detail: PhaseResult<DetailData>)     // stuck or raised during the detail phase
    | Wrote(muniFile: string, barangayFile: string, out: Rendered)

  /** `barangay_data = {}` */
  const NO_DATA: DetailData := DetailData(map[], map[])

  /** Steps three and four once the list phase has produced `meta` and the detail items are listed. */
  ghost function Finish(items: seq<DetailItem>, meta: MuniTable, detailNet: nat -> seq<Attempt>,
                        first: int, last: int, ts: Timestamp): Run
  {
    match DetailPhase(items, detailNet, NO_DATA)
    case Done(d) => Wrote(MuniFileName(first, last, ts), BarangayFileName(first, last, ts), Render(meta, d))
    case stop => DetailStopped(stop)
  }

  /** The runs the scraper can make: the detail items may come in any order of the keys. */
  ghost predicate IsRun(r: Run, first: int, last: int, listNet: nat -> seq<Attempt>,
                        detailNet: nat -> seq<Attempt>, ts: Timestamp)
  {
    var lp := ListPhase(ListPageUrls(first, last), listNet, map[]);
    if !lp.Done? then r == ListStopped(lp)
    else exists items :: IsDetailListing(items, lp.data) && r == Finish(items, lp.data, detailNet, first, last, ts)
  }

  method DownloadMuniData(first: int, last: int, listNet: nat -> seq<Attempt>,
                          detailNet: nat -> seq<Attempt>, ts: Timestamp)
    returns (r: Run)
    ensures IsRun(r, first, last, listNet, detailNet, ts)
  {
    var urls := ListPageUrls(first, last);
    var lp := ExtractMuniData(urls, listNet, map[]);
    if !lp.Done? {
      return ListStopped(lp);
    }
    var meta := lp.data;
    var items := DetailItems(meta);
    var dp := ExtractBarangayData(items, detailNet, NO_DATA);
    if !dp.Done? {
      r := DetailStopped(dp);
    } else {
      var out := WriteOut(meta, dp.data);
      r := Wrote(MuniFileName(first, last, ts), BarangayFileName(first, last, ts), out);
    }
    assert IsDetailListing(items, meta) && r == Finish(items, meta, detailNet, first, last, ts);
  }

  /**
   * The write step finishes exactly when no municipality's name is blank and
   * every municipality's detail page had at least one barangay table. A
   * municipality whose page has only the three header tables gets no entry
   * in `barangay_data`, nor does one whose name is blank (its page goes down
   * the list-page branch), and the write loop raises on it.
   */
  lemma OutputCompleteIff(items: seq<DetailItem>, meta: MuniTable, net: nat -> seq<Attempt>, d: DetailData)
    requires IsDetailListing(items, meta)
    requires DetailPhase(items, net, NO_DATA) == Done(d)
    ensures Render(meta, d).Complete? <==> NoBlankNames(items) && EveryPageHasBarangayTables(items, net)
  {
    if NoBlankNames(items) {
      DetailPhaseAgrees(items, net, map[], map[]);
      var brgy := IntendedDetailPhase(items, net, map[]).data;
      assert d == DetailData(brgy, map[]);
      IntendedOutputCompleteIff(items, meta, net, brgy);
    } else {
      var i :| 0 <= i < |items| && items[i].muniName == [];
      BlankNameGetsNoEntry(items, net, map[], i);
      RenderComplete(meta, d);
      assert items[i].muniKey in meta && items[i].muniKey !in Writable(d);
    }
  }

  /**
   * With the detail phase as intended, the write step finishes exactly when
   * every municipality's detail page had at least one barangay table.
   */
  lemma IntendedOutputCompleteIff(items: seq<DetailItem>, meta: MuniTable, net: nat -> seq<Attempt>, brgy: BarangayTable)
    requires IsDetailListing(items, meta)
    requires IntendedDetailPhase(items, net, map[]) == Done(brgy)
    ensures Render(meta, DetailData(brgy, map[])).Complete? <==> EveryPageHasBarangayTables(items, net)
  {
    SlotsFollowPages(items, net, brgy);
    AllSlotsIffBarangayTables(items, meta, net, brgy);
  }

  /** Every detail page was fetched and has at least one table after the three header tables. */
  ghost predicate EveryPageHasBarangayTables(items: seq<DetailItem>, net: nat -> seq<Attempt>) {
    forall i :: 0 <= i < |items| ==>
      Outcome(net(i)).Got? && Outcome(net(i)).doc.PageBody? && |Outcome(net(i)).doc.tables| > 3
  }

  /** Each listed municipality has an entry exactly when its fetched page has a barangay table. */
  ghost predicate SlotsMatchPages(items: seq<DetailItem>, net: nat -> seq<Attempt>, brgy: BarangayTable) {
    forall i :: 0 <= i < |items| ==>
      Outcome(net(i)).Got? && Outcome(net(i)).doc.PageBody?
      && (items[i].muniKey in brgy <==> |Outcome(net(i)).doc.tables| > 3)
  }

  lemma SlotsFollowPages(items: seq<DetailItem>, net: nat -> seq<Attempt>, brgy: BarangayTable)
    requires Distinct(ItemKeys(items))
    requires IntendedDetailPhase(items, net, map[]) == Done(brgy)
    ensures SlotsMatchPages(items, net, brgy)
  {
    forall i | 0 <= i < |items|
      ensures Outcome(net(i)).Got? && Outcome(net(i)).doc.PageBody?
      ensures items[i].muniKey in brgy <==> |Outcome(net(i)).doc.tables| > 3
    {
      IntendedDetailPhaseLocalAt(items, net, map[], i);
      SlotIffBarangayTables(items[i], net(i), brgy);
    }
  }

  lemma AllSlotsIffBarangayTables(items: seq<DetailItem>, meta: MuniTable, net: nat -> seq<Attempt>, brgy: BarangayTable)
    requires IsDetailListing(items, meta)
    requires SlotsMatchPages(items, net, brgy)
    ensures Render(meta, DetailData(brgy, map[])).Complete? <==> EveryPageHasBarangayTables(items, net)
  {
    assert Writable(DetailData(brgy, map[])) == brgy;
    RenderComplete(meta, DetailData(brgy, map[]));
    ListingCovered(items, meta, brgy);
  }

  /** All of a dictionary's keys are in `brgy` exactly when every listed item's key is. */
  lemma ListingCovered(items: seq<DetailItem>, meta: MuniTable, brgy: BarangayTable)
    requires IsDetailListing(items, meta)
    ensures meta.Keys <= brgy.Keys <==> forall i :: 0 <= i < |items| ==> items[i].muniKey in brgy
  {
    if !(meta.Keys <= brgy.Keys) {
      var k :| k in meta && k !in brgy;
      assert k in ItemKeys(items);
      var i :| 0 <= i < |items| && ItemKeys(items)[i] == k;
      assert items[i].muniKey == k;
    }
  }

  /** A municipality gets an entry exactly when its own detail page has a barangay table. */
  lemma SlotIffBarangayTables(item: DetailItem, trace: seq<Attempt>, brgy: BarangayTable)
    requires PageAloneGives(item, trace, map[], brgy)
    ensures Outcome(trace).doc.PageBody?
    ensures item.muniKey in brgy <==> |Outcome(trace).doc.tables| > 3
  {
    var doc := Outcome(trace).doc;
    BarangayPageCreatesSlot(item.muniKey, item.muniName, doc, map[]);
  }

  /**
   * Every barangay in `barangay_data` after the detail phase sits under a
   * municipality found by the list phase, carries that municipality's
   * (non-blank) name, and has normalised fields. This holds also when a
   * blank name sends a page down the list-page branch: what that branch
   * stores are list-page records, never barangays.
   */
  lemma BarangaysUnderTheirMunicipality(items: seq<DetailItem>, meta: MuniTable, net: nat -> seq<Attempt>,
                                        k: string, b: string)
    requires IsDetailListing(items, meta)
    requires DetailPhase(items, net, NO_DATA).Done?
    requires var bd := DetailPhase(items, net, NO_DATA).data.barangays;
      k in bd && b in bd[k]
    ensures k in meta
    ensures var r := DetailPhase(items, net, NO_DATA).data.barangays[k][b];
      r.muniName == meta[k].name && r.muniName != [] && NormalisedBarangay(r) && b == Key(r.name, r.code)
  {
    var bd := DetailPhase(items, net, NO_DATA).data.barangays;
    BarangaysFromNamedItems(items, net, map[]);
    FromNamedItemOf(items, bd, k, b);
    var r := bd[k][b];
    var i :| 0 <= i < |items| && items[i].muniKey == k && items[i].muniName != []
      && r.muniName == items[i].muniName && NormalisedBarangay(r) && b == Key(r.name, r.code);
    assert items[i] == ItemFor(meta, k);
  }

  /** The detail page of `BlankNameRunRaises`: three header tables, then one barangay table of one row. */
  const BLANK_NAME_PAGE: Document := PageBody([[], [], [], BLANK_NAME_TABLE])

  /** Its barangay table: one row of name, code, urban/rural and population. */
  const BLANK_NAME_TABLE: Table := [[Cell("a", None), Cell("1", None), Cell("U", None), Cell("5", None)]]

  /** The key of a municipality with a blank name and code `1`: `-1`. */
  const BLANK_NAME_KEY: string := Key("", "1")

  /** A list-page record whose name cell was blank, as in `BlankNameTakesListBranch`: code `1`, other fields empty. */
  const BLANK_NAME_META: MuniTable := map[BLANK_NAME_KEY := MuniRecord("m.asp", "", "1", "", "", "", "", "")]

  /** What the detail phase as intended stores for `BLANK_NAME_PAGE`. */
  const BLANK_NAME_STORED: BarangayTable :=
    map[BLANK_NAME_KEY := map[Key("a", "1") := BarangayRecord("", "a", "1", "U", "5")]]

  /**
   * The municipality of `BlankNameTakesListBranch`, whose name cell is blank,
   * with `BLANK_NAME_PAGE` as its detail page. The code as written sends the
   * page down the list-page branch, whose table 1 has no rows, so nothing
   * is stored and the write loop raises KeyError on the municipality; the
   * intended detail phase stores the barangay and the write loop finishes.
   */
  lemma BlankNameRunRaises(ts: Timestamp)
    ensures var net := (k: nat) => [Fetched(BLANK_NAME_PAGE)];
      var items := [ItemFor(BLANK_NAME_META, BLANK_NAME_KEY)];
      && IsDetailListing(items, BLANK_NAME_META)
      && DetailPhase(items, net, NO_DATA) == Done(NO_DATA)
      && Finish(items, BLANK_NAME_META, net, 1, 1, ts).out.KeyError?
      && Finish(items, BLANK_NAME_META, net, 1, 1, ts).out.key == BLANK_NAME_KEY
      && IntendedDetailPhase(items, net, map[]) == Done(BLANK_NAME_STORED)
      && Render(BLANK_NAME_META, DetailData(BLANK_NAME_STORED, map[])).Complete?
  {
    var net := (k: nat) => [Fetched(BLANK_NAME_PAGE)];
    var item := ItemFor(BLANK_NAME_META, BLANK_NAME_KEY);
    OneItemListing(BLANK_NAME_META, BLANK_NAME_KEY);
    assert Outcome(net(0)) == Got(BLANK_NAME_PAGE, 0, 0);
    OneItemPhase(item, net, NO_DATA, map[]);
    BlankNamePageListed();
    BlankNamePageBarangays();
    OneKeyRender(BLANK_NAME_META, BLANK_NAME_KEY, NO_DATA);
    OneKeyRender(BLANK_NAME_META, BLANK_NAME_KEY, DetailData(BLANK_NAME_STORED, map[]));
  }

  lemma OneItemListing(meta: MuniTable, k: string)
    requires meta.Keys == {k}
    ensures IsDetailListing([ItemFor(meta, k)], meta)
  {
    assert ItemKeys([ItemFor(meta, k)]) == [k];
  }

  /** With one municipality, the write loop raises exactly when its entry is missing or holds list-page fields. */
  lemma OneKeyRender(meta: MuniTable, k: string, d: DetailData)
    requires meta.Keys == {k}
    ensures Render(meta, d).Complete? <==> k in d.barangays && k !in d.listed
    ensures k !in d.barangays && k !in d.listed ==> Render(meta, d).KeyError? && Render(meta, d).key == k
  {
    OneKeySorted(k, meta.Keys);
    assert [k][..0] == [];
    assert RenderKeys([], meta, d) == Complete(Files([], []));
    assert Render(meta, d) == RenderKeys([k], meta, d);
  }

  lemma BlankNamePageListed()
    ensures ListedPage(BLANK_NAME_PAGE, NO_DATA) == Ok(NO_DATA)
  {
    assert EntryKeys<MuniRecord>([]) == {};
  }

  lemma BlankNamePageBarangays()
    ensures BarangayPage(BLANK_NAME_KEY, "", BLANK_NAME_PAGE, map[]) == Ok(BLANK_NAME_STORED)
  {
    BlankNameTableBarangay();
    assert BLANK_NAME_PAGE.tables[3] == BLANK_NAME_TABLE;
    OneTablePage(BLANK_NAME_KEY, "", BLANK_NAME_PAGE, Entry(Key("a", "1"), BarangayRecord("", "a", "1", "U", "5")));
  }

  lemma BlankNameTableBarangay()
    ensures BarangayOf("", BLANK_NAME_TABLE) == Ok(Entry(Key("a", "1"), BarangayRecord("", "a", "1", "U", "5")))
  {
    var table := BLANK_NAME_TABLE;
    var blank := ["", "", "", ""];
    var xs := ["a", "1", "U", "5"];
    BlankNameCells(table, blank, xs);
    BarangayOfRoundTrip("", table, blank, xs, blank);
    BlankNameWords();
  }

  lemma BlankNameCells(table: Table, blank: seq<string>, xs: seq<string>)
    requires table == BLANK_NAME_TABLE && blank == ["", "", "", ""] && xs == ["a", "1", "U", "5"]
    ensures |TableCells(table)| >= 4
    ensures forall i :: 0 <= i < 4 ==>
      AllSpace(blank[i]) && IsCleanText(xs[i]) && TableCells(table)[i].text == blank[i] + xs[i] + blank[i]
  {
    assert TableCells(table) == table[0];
    assert IsCleanText("a") && IsCleanText("1") && IsCleanText("U") && IsCleanText("5");
  }

  lemma BlankNameWords()
    ensures "U"[..WordLength("U")] == "U" && RemoveCommas("5") == "5"
  {
    assert WordLength("U") == 1;
  }

  lemma OneTablePage(muniKey: string, muniName: string, doc: Document, e: Entry<BarangayRecord>)
    requires doc.PageBody? && |doc.tables| == 4 && BarangayOf(muniName, doc.tables[3]) == Ok(e)
    ensures BarangayPage(muniKey, muniName, doc, map[]) == Ok(map[muniKey := map[e.key := e.val]])
  {
    var ts := doc.tables[3..];
    assert ts[..0] == [] && ts[..1] == ts && ts[0] == doc.tables[3];
    assert MapAll(ts[..0], BarangayExtractor(muniName)) == Ok([]);
    MapAllExtend(ts, BarangayExtractor(muniName), 0, []);
    UpsertExtend(map[], [], e);
    assert [] + [e] == [e];
    BarangayPageStores(muniKey, muniName, doc, map[], [e]);
  }

  lemma OneItemPhase(item: DetailItem, net: nat -> seq<Attempt>, d: DetailData, b: BarangayTable)
    ensures DetailPhase([item], net, d) == DetailStep(item, net(0), d)
    ensures IntendedDetailPhase([item], net, b) == IntendedStep(item, net(0), b)
  {
    assert [item][..0] == [];
  }

  lemma OneKeySorted(k: string, s: set<string>)
    requires s == {k}
    ensures Sorted(s) == [k]
  {
    var r := Sorted(s);
    assert r[0] in s;
  }
}
