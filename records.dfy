/**
 * The records the scraper builds from a parsed page, the positional schema
 * that maps cells to fields, and the dictionary updates that store them.
 *
 * Each Python exception that the extraction lets escape (an index past the
 * end of a list, a missing attribute) is a `Fault`; nothing in the scraper
 * catches these, so a fault ends the run.
 */
module Records {
  import opened Wrappers
  import opened Text
  import opened Page

  datatype Fault =
    | MissingPageBody    // `soup.find_all('div', id='pageBody')[0]` on an empty list
    | MissingTable       // `tables[1]` on a page with fewer than two tables
    | TooFewCells        // `cells[i]` past the end of the row or table
    | MissingLink        // `cells[0].p.a['href']` with no paragraph, anchor or href
    | NoUrbanRuralToken  // `split()[0]` on a blank urban/rural cell

  /** One row of a municipality list page. Every field but `href` is a normalised cell text. */
  datatype MuniRecord = MuniRecord(
    href: string,
    name: string,
    code: string,
    province: string,
    incomeClass: string,
    registeredVoters: string,
    population: string,
    landArea: string)

  /** One barangay table of a municipality's detail page. */
  datatype BarangayRecord = BarangayRecord(
    muniName: string,
    name: string,
    code: string,
    urbanRural: string,
    population: string)

  /** A record together with the dictionary key it is stored under. */
  datatype Entry<V> = Entry(key: string, val: V)

  /** `muni_metadata`: municipality key to record. */
  type MuniTable = map<string, MuniRecord>

  /** `barangay_data`: municipality key to (barangay key to record). */
  type BarangayTable = map<string, map<string, BarangayRecord>>

  // ---------------------------------------------------------------------
  // Cell normalisation and keys
  // ---------------------------------------------------------------------

  predicate IsCleanText(s: string) {
    AllAscii(s) && IsStripped(s)
  }

  predicate IsCleanNumber(s: string) {
    AllAscii(s) && ',' !in s
  }

  /** `get_text().encode('ascii', 'ignore').strip()` */
  function Clean(text: string): (r: string)
    ensures IsCleanText(r)
    ensures IsCleanText(text) ==> r == text
  {
    var a := AsciiOnly(text);
    var r := Strip(a);
    if IsCleanText(text) then StrippedIsFixedPoint(text); r else r
  }

  /** `get_text().encode('ascii', 'ignore').strip().replace(',', '')` */
  function CleanNumber(text: string): (r: string)
    ensures IsCleanNumber(r)
    ensures IsCleanText(text) && ',' !in text ==> r == text
  {
    RemoveCommas(Clean(text))
  }

  /** `'%s-%s' % (name, code)` */
  function Key(name: string, code: string): string {
    name + "-" + code
  }

  /** Names free of '-' make the key injective. */
  lemma KeyInjective(n1: string, c1: string, n2: string, c2: string)
    requires '-' !in n1 && '-' !in n2
    requires Key(n1, c1) == Key(n2, c2)
    ensures n1 == n2 && c1 == c2
  {
    SplitAtSeparator(n1, c1, n2, c2, '-');
  }

  /** In general it is not: two different municipalities can share a key and overwrite each other. */
  lemma KeyCollision()
    ensures Key("A-B", "C") == Key("A", "B-C")
  {
  }

  predicate NormalisedMuni(m: MuniRecord) {
    && IsCleanText(m.name) && IsCleanText(m.code)
    && IsCleanText(m.province) && IsCleanText(m.incomeClass)
    && IsCleanNumber(m.registeredVoters) && IsCleanNumber(m.population) && IsCleanNumber(m.landArea)
  }

  predicate NormalisedBarangay(b: BarangayRecord) {
    && IsCleanText(b.name) && IsCleanText(b.code)
    && IsCleanText(b.urbanRural) && b.urbanRural != [] && NoSpace(b.urbanRural)
    && IsCleanNumber(b.population)
  }

  // ---------------------------------------------------------------------
  // Positional extraction
  // ---------------------------------------------------------------------

  /**
   * One `tr` of a list page's second table. Columns 0..6 are name, code,
   * province, income class, registered voters, population and land area;
   * the detail link sits inside the name cell. A short row or a missing
   * link is an error of the whole run, never a skipped row.
   */
  function MuniRow(row: Row): (r: Result<Entry<MuniRecord>, Fault>)
    ensures r.Ok? <==> |row| >= 7 && row[0].link.Some?
    ensures r.Err? ==> r.error == (if |row| >= 2 && row[0].link.None? then MissingLink else TooFewCells)
    ensures r.Ok? ==> r.value.key == Key(r.value.val.name, r.value.val.code)
    ensures r.Ok? ==> r.value.val.href == row[0].link.value && NormalisedMuni(r.value.val)
  {
    if |row| < 2 then Err(TooFewCells)
    else
      var name := Clean(row[0].text);
      var code := Clean(row[1].text);
      match row[0].link
      case None => Err(MissingLink)
      case Some(href) =>
        if |row| < 7 then Err(TooFewCells)
        else Ok(Entry(Key(name, code), MuniRecord(
          href, name, code,
          Clean(row[2].text), Clean(row[3].text),
          CleanNumber(row[4].text), CleanNumber(row[5].text), CleanNumber(row[6].text))))
  }

  /** A cell whose text is a clean string with whitespace around it normalises to that string. */
  lemma CleanPadded(a: string, x: string, b: string)
    requires AllSpace(a) && AllSpace(b) && IsCleanText(x)
    ensures Clean(a + x + b) == x
    ensures CleanNumber(a + x + b) == RemoveCommas(x)
  {
    var s := a + x + b;
    assert AllAscii(s) by {
      forall k | 0 <= k < |s|
        ensures IsAscii(s[k])
      {
        if k < |a| { assert s[k] == a[k]; }
        else if k < |a| + |x| { assert s[k] == x[k - |a|]; }
        else { assert s[k] == b[k - |a| - |x|]; }
      }
    }
    StripPadded(a, x, b);
  }

  /**
   * Each column lands in its own field: cells holding clean strings `xs`
   * with whitespace `pre` before and `post` after them give exactly those
   * strings, the numeric columns without their commas.
   */
  lemma MuniRowRoundTrip(row: Row, pre: seq<string>, xs: seq<string>, post: seq<string>)
    requires |row| >= 7 && row[0].link.Some?
    requires |pre| == 7 && |xs| == 7 && |post| == 7
    requires forall i :: 0 <= i < 7 ==>
      AllSpace(pre[i]) && AllSpace(post[i]) && IsCleanText(xs[i]) && row[i].text == pre[i] + xs[i] + post[i]
    ensures MuniRow(row) == Ok(Entry(Key(xs[0], xs[1]), MuniRecord(
      row[0].link.value, xs[0], xs[1], xs[2], xs[3],
      RemoveCommas(xs[4]), RemoveCommas(xs[5]), RemoveCommas(xs[6]))))
  {
    CleanPadded(pre[0], xs[0], post[0]);
    CleanPadded(pre[1], xs[1], post[1]);
    CleanPadded(pre[2], xs[2], post[2]);
    CleanPadded(pre[3], xs[3], post[3]);
    CleanPadded(pre[4], xs[4], post[4]);
    CleanPadded(pre[5], xs[5], post[5]);
    CleanPadded(pre[6], xs[6], post[6]);
  }

  /**
   * `split()[0]` on a normalised urban/rural cell: its first word, which is a
   * prefix of the cell; None (IndexError) exactly when the cell is blank.
   */
  function UrbanRural(kind: string): (r: Option<string>)
    requires IsCleanText(kind)
    ensures r == FirstToken(kind)
    ensures r.None? <==> kind == []
    ensures r.Some? ==> var u := r.value;
      u != [] && NoSpace(u) && IsCleanText(u) && |u| <= |kind| && u == kind[..|u|]
      && (|u| == |kind| || IsSpace(kind[|u|]))
  {
    FirstTokenOfStripped(kind);
    if kind == [] then None
    else
      var u := kind[..WordLength(kind)];
      assert forall k :: 0 <= k < |u| ==> u[k] == kind[k];
      Some(u)
  }

  /**
   * One barangay table of a detail page: its cells (of all rows, in order)
   * 0..3 are name, code, urban/rural and population. Only the first
   * whitespace-separated word of the urban/rural cell is kept.
   */
  function BarangayOf(muniName: string, table: Table): (r: Result<Entry<BarangayRecord>, Fault>)
    ensures var cells := TableCells(table);
      r.Ok? <==> |cells| >= 4 && Clean(cells[2].text) != []
    ensures var cells := TableCells(table);
      r.Err? ==> r.error == (if |cells| >= 3 && Clean(cells[2].text) == [] then NoUrbanRuralToken else TooFewCells)
    ensures r.Ok? ==> r.value.key == Key(r.value.val.name, r.value.val.code)
    ensures r.Ok? ==> r.value.val.muniName == muniName && NormalisedBarangay(r.value.val)
    ensures r.Ok? ==> UrbanRural(Clean(TableCells(table)[2].text)) == Some(r.value.val.urbanRural)
  {
    var cells := TableCells(table);
    if |cells| < 3 then Err(TooFewCells)
    else
      var name := Clean(cells[0].text);
      var code := Clean(cells[1].text);
      var kind := Clean(cells[2].text);
      match UrbanRural(kind)
      case None => Err(NoUrbanRuralToken)
      case Some(word) =>
        if |cells| < 4 then Err(TooFewCells)
        else Ok(Entry(Key(name, code), BarangayRecord(muniName, name, code, word, CleanNumber(cells[3].text))))
  }

  /**
   * The cells of a barangay table, counted across its rows, feed name, code,
   * urban/rural and population in that order: cells holding clean strings
   * `xs` with whitespace around them give exactly those strings, the
   * urban/rural cell cut to its first word and the population without commas.
   */
  lemma BarangayOfRoundTrip(muniName: string, table: Table, pre: seq<string>, xs: seq<string>, post: seq<string>)
    requires |TableCells(table)| >= 4
    requires |pre| == 4 && |xs| == 4 && |post| == 4
    requires forall i :: 0 <= i < 4 ==>
      AllSpace(pre[i]) && AllSpace(post[i]) && IsCleanText(xs[i]) && TableCells(table)[i].text == pre[i] + xs[i] + post[i]
    requires xs[2] != []
    ensures BarangayOf(muniName, table) == Ok(Entry(Key(xs[0], xs[1]),
      BarangayRecord(muniName, xs[0], xs[1], xs[2][..WordLength(xs[2])], RemoveCommas(xs[3]))))
  {
    CleanPadded(pre[0], xs[0], post[0]);
    CleanPadded(pre[1], xs[1], post[1]);
    CleanPadded(pre[2], xs[2], post[2]);
    CleanPadded(pre[3], xs[3], post[3]);
  }

  /** `BarangayOf` for one municipality, as a value to map over the tables of its page. */
  function BarangayExtractor(muniName: string): Table -> Result<Entry<BarangayRecord>, Fault> {
    t => BarangayOf(muniName, t)
  }

  // ---------------------------------------------------------------------
  // Extracting every row of a table, stopping at the first error
  // ---------------------------------------------------------------------

  /**
   * Applies `f` to each element in order. The first error aborts the whole
   * sequence, as an uncaught exception in the scraper's `for` loop does.
   */
  function MapAll<X, V>(xs: seq<X>, f: X -> Result<V, Fault>): (r: Result<seq<V>, Fault>)
    ensures r.Ok? <==> forall i :: 0 <= i < |xs| ==> f(xs[i]).Ok?
    ensures r.Ok? ==> |r.value| == |xs| && forall i :: 0 <= i < |xs| ==> r.value[i] == f(xs[i]).value
    decreases |xs|
  {
    if xs == [] then Ok([])
    else
      var init := xs[..|xs| - 1];
      assert forall i :: 0 <= i < |init| ==> init[i] == xs[i];
      match MapAll(init, f)
      case Err(e) => Err(e)
      case Ok(vs) =>
        match f(xs[|xs| - 1])
        case Err(e) => Err(e)
        case Ok(v) => Ok(vs + [v])
  }

  /** The error reported is the first one: that of the first element `f` fails on. */
  lemma {:induction false} MapAllFirstError<X, V>(xs: seq<X>, f: X -> Result<V, Fault>, i: nat)
    requires i < |xs| && f(xs[i]).Err?
    requires MapAll(xs[..i], f).Ok?
    ensures MapAll(xs, f) == Err(f(xs[i]).error)
    decreases |xs|
  {
    var n := |xs| - 1;
    if i < n {
      assert xs[..n][..i] == xs[..i] && xs[..n][i] == xs[i];
      MapAllFirstError(xs[..n], f, i);
    } else {
      assert xs[..n] == xs[..i];
    }
  }

  lemma MapAllExtend<X, V>(xs: seq<X>, f: X -> Result<V, Fault>, i: nat, vs: seq<V>)
    requires i < |xs| && MapAll(xs[..i], f) == Ok(vs) && f(xs[i]).Ok?
    ensures MapAll(xs[..i + 1], f) == Ok(vs + [f(xs[i]).value])
  {
    assert xs[..i + 1][..i] == xs[..i];
  }

  // ---------------------------------------------------------------------
  // Dictionary updates
  // ---------------------------------------------------------------------

  function EntryKeys<V>(es: seq<Entry<V>>): set<string> {
    set i | 0 <= i < |es| :: es[i].key
  }

  /** `d[key] = record` for each entry in turn: later entries overwrite earlier ones. */
  function Upsert<V>(m: map<string, V>, es: seq<Entry<V>>): (r: map<string, V>)
    ensures r.Keys == m.Keys + EntryKeys(es)
    decreases |es|
  {
    if es == [] then m
    else
      var init := es[..|es| - 1];
      var e := es[|es| - 1];
      assert EntryKeys(es) == EntryKeys(init) + {e.key} by {
        assert forall i :: 0 <= i < |init| ==> init[i] == es[i];
      }
      Upsert(m, init)[e.key := e.val]
  }

  lemma UpsertExtend<V>(m: map<string, V>, es: seq<Entry<V>>, e: Entry<V>)
    ensures Upsert(m, es + [e]) == Upsert(m, es)[e.key := e.val]
  {
    assert (es + [e])[..|es|] == es;
  }

  /** Last write wins: a key's value is that of the last entry with that key. */
  lemma {:induction false} UpsertLastWins<V>(m: map<string, V>, es: seq<Entry<V>>, i: nat)
    requires i < |es|
    requires forall j :: i < j < |es| ==> es[j].key != es[i].key
    ensures es[i].key in Upsert(m, es) && Upsert(m, es)[es[i].key] == es[i].val
    decreases |es|
  {
    if i < |es| - 1 {
      var init := es[..|es| - 1];
      UpsertLastWins(m, init, i);
    }
  }

  /** A key no entry mentions keeps its value, or stays absent. */
  lemma {:induction false} UpsertUntouched<V>(m: map<string, V>, es: seq<Entry<V>>, k: string)
    requires forall j :: 0 <= j < |es| ==> es[j].key != k
    ensures k in Upsert(m, es) <==> k in m
    ensures k in m ==> Upsert(m, es)[k] == m[k]
    decreases |es|
  {
    if es != [] {
      var init := es[..|es| - 1];
      UpsertUntouched(m, init, k);
    }
  }

  /** Every value in the result was in the map or came from an entry with that key. */
  lemma {:induction false} UpsertSource<V>(m: map<string, V>, es: seq<Entry<V>>, k: string)
    requires k in Upsert(m, es)
    ensures (exists j :: 0 <= j < |es| && es[j] == Entry(k, Upsert(m, es)[k])) || (k in m && Upsert(m, es)[k] == m[k])
    decreases |es|
  {
    if es != [] {
      var init := es[..|es| - 1];
      if es[|es| - 1].key != k {
        UpsertSource(m, init, k);
        if j :| 0 <= j < |init| && init[j] == Entry(k, Upsert(m, init)[k]) {
          assert es[j] == init[j];
        }
      }
    }
  }

  /** The barangay dictionary of a municipality, or the empty one the scraper creates on first insert. */
  function Slot(data: BarangayTable, muniKey: string): map<string, BarangayRecord> {
    if muniKey in data then data[muniKey] else map[]
  }

  /**
   * `if not muni_key in data: data[muni_key] = {}` followed by
   * `data[muni_key][barangay_key] = record`.
   */
  function InsertBarangay(data: BarangayTable, muniKey: string, e: Entry<BarangayRecord>): (r: BarangayTable)
    ensures r.Keys == data.Keys + {muniKey}
    ensures muniKey !in data ==> r[muniKey] == map[e.key := e.val]
    ensures muniKey in data ==> r[muniKey].Keys == data[muniKey].Keys + {e.key}
    ensures r[muniKey][e.key] == e.val
    ensures forall b :: b in Slot(data, muniKey) && b != e.key ==> r[muniKey][b] == data[muniKey][b]
    ensures forall k :: k in data && k != muniKey ==> r[k] == data[k]
  {
    data[muniKey := Slot(data, muniKey)[e.key := e.val]]
  }

  /** Inserting into a municipality's slot, whether or not the slot was created yet. */
  lemma InsertIntoSlot(data: BarangayTable, cur: BarangayTable, muniKey: string,
                       slot: map<string, BarangayRecord>, e: Entry<BarangayRecord>)
    requires cur == data || cur == data[muniKey := slot]
    requires Slot(cur, muniKey) == slot
    ensures InsertBarangay(cur, muniKey, e) == data[muniKey := slot[e.key := e.val]]
  {
    var r := InsertBarangay(cur, muniKey, e);
    assert r == cur[muniKey := slot[e.key := e.val]];
    assert r.Keys == data[muniKey := slot[e.key := e.val]].Keys;
  }

  // ---------------------------------------------------------------------
  // Whole pages
  // ---------------------------------------------------------------------

  /** A list page stores every row of its second table into `data`, or fails. */
  function MuniPage(doc: Document, data: MuniTable): Result<MuniTable, Fault> {
    match doc
    case NoPageBody => Err(MissingPageBody)
    case PageBody(tables) =>
      if |tables| < 2 then Err(MissingTable)
      else
        match MapAll(tables[1], MuniRow)
        case Err(f) => Err(f)
        case Ok(es) => Ok(Upsert(data, es))
  }

  /** A detail page stores one barangay per table from the fourth on, or fails. */
  function BarangayPage(muniKey: string, muniName: string, doc: Document, data: BarangayTable): Result<BarangayTable, Fault> {
    match doc
    case NoPageBody => Err(MissingPageBody)
    case PageBody(tables) =>
      if |tables| <= 3 then Ok(data)
      else
        match MapAll(tables[3..], BarangayExtractor(muniName))
        case Err(f) => Err(f)
        case Ok(es) => Ok(data[muniKey := Upsert(Slot(data, muniKey), es)])
  }

  /** A detail page whose barangay tables all extract stores them under its municipality. */
  lemma BarangayPageStores(muniKey: string, muniName: string, doc: Document, data: BarangayTable,
                           es: seq<Entry<BarangayRecord>>)
    requires doc.PageBody? && |doc.tables| > 3 && MapAll(doc.tables[3..], BarangayExtractor(muniName)) == Ok(es)
    ensures BarangayPage(muniKey, muniName, doc, data) == Ok(data[muniKey := Upsert(Slot(data, muniKey), es)])
  {
  }

  /** A list page is stored exactly when it has a page body, a second table, and every row of that table is complete. */
  lemma MuniPageOk(doc: Document, data: MuniTable)
    ensures MuniPage(doc, data).Ok? <==>
      doc.PageBody? && |doc.tables| >= 2
      && forall i :: 0 <= i < |doc.tables[1]| ==> |doc.tables[1][i]| >= 7 && doc.tables[1][i][0].link.Some?
  {
    if doc.PageBody? && |doc.tables| >= 2 {
      var rows := doc.tables[1];
      assert MapAll(rows, MuniRow).Ok? <==> forall i :: 0 <= i < |rows| ==> MuniRow(rows[i]).Ok?;
    }
  }

  /**
   * What a stored list page leaves in the dictionary: each row's record
   * under its key unless a later row has the same key, and every other key
   * as it was.
   */
  lemma MuniPageStores(doc: Document, data: MuniTable, i: nat)
    requires MuniPage(doc, data).Ok?
    requires i < |doc.tables[1]|
    requires forall j :: i < j < |doc.tables[1]| ==> MuniRow(doc.tables[1][j]).value.key != MuniRow(doc.tables[1][i]).value.key
    ensures var e := MuniRow(doc.tables[1][i]).value;
      e.key in MuniPage(doc, data).value && MuniPage(doc, data).value[e.key] == e.val
  {
    var rows := doc.tables[1];
    var es := MapAll(rows, MuniRow).value;
    assert MuniPage(doc, data) == Ok(Upsert(data, es));
    assert es[i] == MuniRow(rows[i]).value;
    forall j | i < j < |es|
      ensures es[j].key != es[i].key
    {
      assert es[j] == MuniRow(rows[j]).value;
    }
    UpsertLastWins(data, es, i);
  }

  lemma MuniPageKeepsOthers(doc: Document, data: MuniTable, k: string)
    requires MuniPage(doc, data).Ok?
    requires forall j :: 0 <= j < |doc.tables[1]| ==> MuniRow(doc.tables[1][j]).value.key != k
    ensures SameAt(MuniPage(doc, data).value, data, k)
  {
    var rows := doc.tables[1];
    var es := MapAll(rows, MuniRow).value;
    assert MuniPage(doc, data) == Ok(Upsert(data, es));
    forall j | 0 <= j < |es|
      ensures es[j].key != k
    {
      assert es[j] == MuniRow(rows[j]).value;
    }
    UpsertUntouched(data, es, k);
  }

  /** `k` is absent from both dictionaries or maps to the same value in both. */
  predicate SameAt<V(==)>(a: map<string, V>, b: map<string, V>, k: string) {
    (k in a <==> k in b) && (k in a ==> a[k] == b[k])
  }

  lemma SameAtTrans<V>(a: map<string, V>, b: map<string, V>, c: map<string, V>, k: string)
    requires SameAt(a, b, k) && SameAt(b, c, k)
    ensures SameAt(a, c, k)
  {
  }

  /**
   * A detail page touches only its own municipality's key, and creates it
   * only when the page has a barangay table.
   */
  lemma BarangayPageFrame(muniKey: string, muniName: string, doc: Document, data: BarangayTable)
    requires BarangayPage(muniKey, muniName, doc, data).Ok?
    ensures var d := BarangayPage(muniKey, muniName, doc, data).value;
      forall k :: k != muniKey ==> SameAt(d, data, k)
  {
    var d := BarangayPage(muniKey, muniName, doc, data).value;
    if |doc.tables| > 3 {
      var es := MapAll(doc.tables[3..], BarangayExtractor(muniName)).value;
      var slot := Upsert(Slot(data, muniKey), es);
      assert d == data[muniKey := slot];
      forall k | k != muniKey
        ensures SameAt(d, data, k)
      {
        assert k in d <==> k in data;
      }
    }
  }

  lemma BarangayPageCreatesSlot(muniKey: string, muniName: string, doc: Document, data: BarangayTable)
    requires BarangayPage(muniKey, muniName, doc, data).Ok?
    ensures muniKey in BarangayPage(muniKey, muniName, doc, data).value <==> muniKey in data || |doc.tables| > 3
  {
    var r := BarangayPage(muniKey, muniName, doc, data).value;
    if |doc.tables| > 3 {
      var es := MapAll(doc.tables[3..], BarangayExtractor(muniName)).value;
      assert r == data[muniKey := Upsert(Slot(data, muniKey), es)];
      assert muniKey in r;
    } else {
      assert r == data;
    }
  }

  /** What a detail page does depends on `data` only through its own municipality's entry. */
  lemma BarangayPageLocal(muniKey: string, muniName: string, doc: Document, d1: BarangayTable, d2: BarangayTable)
    requires SameAt(d1, d2, muniKey)
    ensures BarangayPage(muniKey, muniName, doc, d1).Err? <==> BarangayPage(muniKey, muniName, doc, d2).Err?
    ensures BarangayPage(muniKey, muniName, doc, d1).Err? ==>
      BarangayPage(muniKey, muniName, doc, d1) == BarangayPage(muniKey, muniName, doc, d2)
    ensures BarangayPage(muniKey, muniName, doc, d1).Ok? ==>
      SameAt(BarangayPage(muniKey, muniName, doc, d1).value, BarangayPage(muniKey, muniName, doc, d2).value, muniKey)
  {
    assert Slot(d1, muniKey) == Slot(d2, muniKey);
  }

  /**
   * Every barangay stored under a municipality after its detail page either
   * was there before or comes from one of the page's barangay tables, and
   * then carries the municipality's name and normalised fields.
   */
  lemma BarangayPageSource(muniKey: string, muniName: string, doc: Document, data: BarangayTable, b: string)
    requires BarangayPage(muniKey, muniName, doc, data).Ok?
    requires var d := BarangayPage(muniKey, muniName, doc, data).value;
      muniKey in d && b in d[muniKey]
    ensures var r := BarangayPage(muniKey, muniName, doc, data).value[muniKey][b];
      (r.muniName == muniName && NormalisedBarangay(r) && b == Key(r.name, r.code))
      || (muniKey in data && b in data[muniKey] && r == data[muniKey][b])
  {
    var tables := doc.tables;
    if |tables| > 3 {
      var f := BarangayExtractor(muniName);
      var es := MapAll(tables[3..], f).value;
      UpsertSource(Slot(data, muniKey), es, b);
      var u := Upsert(Slot(data, muniKey), es);
      if j :| 0 <= j < |es| && es[j] == Entry(b, u[b]) {
        assert f(tables[3..][j]).value == es[j];
      }
    }
  }

  // ---------------------------------------------------------------------
  // `barangay_data` as the detail phase leaves it
  // ---------------------------------------------------------------------

  /**
   * `barangay_data` during the detail phase. The dictionary the scraper keeps
   * under key `k` holds the fields of `listed[k]`, when the list-page branch
   * stored a row under `k` (see `ListedPage`), together with the barangays of
   * `barangays[k]`; `k` is present when it is in either map. Barangay keys
   * contain '-' and the field names do not, so the two never clash.
   */
  datatype DetailData = DetailData(barangays: BarangayTable, listed: MuniTable)

  /**
   * The list-page branch taken on a page of the detail phase: each row of
   * table 1 replaces what was stored under its key (`data[muni_key] = {}`)
   * by the row's fields, so the barangays stored there are dropped.
   */
  function ListedPage(doc: Document, d: DetailData): Result<DetailData, Fault> {
    match doc
    case NoPageBody => Err(MissingPageBody)
    case PageBody(tables) =>
      if |tables| < 2 then Err(MissingTable)
      else
        match MapAll(tables[1], MuniRow)
        case Err(f) => Err(f)
        case Ok(es) => Ok(DetailData(d.barangays - EntryKeys(es), Upsert(d.listed, es)))
  }

  /**
   * On a detail page the list-page branch fails exactly as on a list page,
   * stores the rows as a list page would, and drops the barangays of exactly
   * the keys its rows produce.
   */
  lemma ListedPageIsMuniPage(doc: Document, d: DetailData)
    ensures ListedPage(doc, d).Err? <==> MuniPage(doc, d.listed).Err?
    ensures ListedPage(doc, d).Err? ==> ListedPage(doc, d).error == MuniPage(doc, d.listed).error
    ensures ListedPage(doc, d).Ok? ==> ListedPage(doc, d).value.listed == MuniPage(doc, d.listed).value
    ensures ListedPage(doc, d).Ok? ==>
      ListedPage(doc, d).value.barangays == d.barangays - MuniPage(doc, map[]).value.Keys
  {
    if doc.PageBody? && |doc.tables| >= 2 && MapAll(doc.tables[1], MuniRow).Ok? {
      var es := MapAll(doc.tables[1], MuniRow).value;
      assert MuniPage(doc, map[]).value.Keys == EntryKeys(es);
      assert ListedPage(doc, d) == Ok(DetailData(d.barangays - EntryKeys(es), Upsert(d.listed, es)));
    }
  }

  /**
   * The row loop of the list-page branch when it runs on a detail page:
   * `barangay_data[key] = {}` and the row's fields, row after row.
   */
  method StoreListedRows(doc: Document, d: DetailData) returns (r: Result<DetailData, Fault>)
    ensures r == ListedPage(doc, d)
  {
    if doc.NoPageBody? {
      return Err(MissingPageBody);
    }
    var tables := doc.tables;
    if |tables| < 2 {
      return Err(MissingTable);
    }
    var rows := tables[1];
    var barangays := d.barangays;
    var listed := d.listed;
    ghost var es: seq<Entry<MuniRecord>> := [];
    for i := 0 to |rows|
      invariant MapAll(rows[..i], MuniRow) == Ok(es)
      invariant barangays == d.barangays - EntryKeys(es) && listed == Upsert(d.listed, es)
    {
      var row := MuniRow(rows[i]);
      if row.Err? {
        MapAllFirstError(rows, MuniRow, i);
        return Err(row.error);
      }
      ListedRowStep(rows, i, es, d);
      barangays := barangays - {row.value.key};
      listed := listed[row.value.key := row.value.val];
      es := es + [row.value];
    }
    assert rows[..|rows|] == rows;
    return Ok(DetailData(barangays, listed));
  }

  /** One row of `StoreListedRows`: the loop invariant carried from `i` to `i + 1`. */
  lemma ListedRowStep(rows: seq<Row>, i: nat, es: seq<Entry<MuniRecord>>, d: DetailData)
    requires i < |rows| && MapAll(rows[..i], MuniRow) == Ok(es) && MuniRow(rows[i]).Ok?
    ensures var e := MuniRow(rows[i]).value;
      && MapAll(rows[..i + 1], MuniRow) == Ok(es + [e])
      && d.barangays - EntryKeys(es + [e]) == (d.barangays - EntryKeys(es)) - {e.key}
      && Upsert(d.listed, es + [e]) == Upsert(d.listed, es)[e.key := e.val]
  {
    var e := MuniRow(rows[i]).value;
    MapAllExtend(rows, MuniRow, i, es);
    UpsertExtend(d.listed, es, e);
    DropExtend(d.barangays, es, e);
  }

  lemma DropExtend<V, W>(m: map<string, W>, es: seq<Entry<V>>, e: Entry<V>)
    ensures m - EntryKeys(es + [e]) == (m - EntryKeys(es)) - {e.key}
  {
    assert EntryKeys(es + [e]) == EntryKeys(es) + {e.key} by {
      assert forall i :: 0 <= i < |es| ==> (es + [e])[i] == es[i];
      assert (es + [e])[|es|] == e;
    }
  }

  /**
   * The row loop of the list-page branch: each row is normalised and written
   * into the dictionary in page order; the first bad row aborts.
   */
  method StoreMuniRows(doc: Document, data: MuniTable) returns (r: Result<MuniTable, Fault>)
    ensures r == MuniPage(doc, data)
  {
    if doc.NoPageBody? {
      return Err(MissingPageBody);
    }
    var tables := doc.tables;
    if |tables| < 2 {
      return Err(MissingTable);
    }
    var rows := tables[1];
    var cur := data;
    ghost var es: seq<Entry<MuniRecord>> := [];
    for i := 0 to |rows|
      invariant MapAll(rows[..i], MuniRow) == Ok(es)
      invariant cur == Upsert(data, es)
    {
      var row := MuniRow(rows[i]);
      if row.Err? {
        MapAllFirstError(rows, MuniRow, i);
        return Err(row.error);
      }
      cur := cur[row.value.key := row.value.val];
      MapAllExtend(rows, MuniRow, i, es);
      UpsertExtend(data, es, row.value);
      es := es + [row.value];
    }
    assert rows[..|rows|] == rows;
    return Ok(cur);
  }

  /**
   * The table loop of the detail-page branch: tables 0..2 are skipped, each
   * later table is one barangay inserted under the municipality's key.
   */
  method StoreBarangayTables(muniKey: string, muniName: string, doc: Document, data: BarangayTable)
    returns (r: Result<BarangayTable, Fault>)
    ensures r == BarangayPage(muniKey, muniName, doc, data)
  {
    if doc.NoPageBody? {
      return Err(MissingPageBody);
    }
    var tables := doc.tables;
    if |tables| <= 3 {
      return Ok(data);
    }
    r := StoreEachBarangay(muniKey, muniName, tables[3..], data);
  }

  /** The `for table in tables[3:]` loop: one barangay per table, into the lazily created slot. */
  method StoreEachBarangay(muniKey: string, muniName: string, barangayTables: seq<Table>, data: BarangayTable)
    returns (r: Result<BarangayTable, Fault>)
    requires barangayTables != []
    ensures r == match MapAll(barangayTables, BarangayExtractor(muniName))
                 case Err(f) => Err(f)
                 case Ok(es) => Ok(data[muniKey := Upsert(Slot(data, muniKey), es)])
  {
    var f := BarangayExtractor(muniName);
    var cur := data;
    ghost var slot := Slot(data, muniKey);
    ghost var es: seq<Entry<BarangayRecord>> := [];
    for j := 0 to |barangayTables|
      invariant SlotProgress(muniKey, f, barangayTables[..j], data, es, slot, cur)
    {
      var b := BarangayOf(muniName, barangayTables[j]);
      if b.Err? {
        StoreFails(muniKey, muniName, barangayTables, j, data, es, slot, cur);
        return Err(b.error);
      }
      StoreStep(muniKey, muniName, barangayTables, j, data, es, slot, cur);
      cur := InsertBarangay(cur, muniKey, b.value);
      slot := slot[b.value.key := b.value.val];
      es := es + [b.value];
    }
    assert barangayTables[..|barangayTables|] == barangayTables;
    return Ok(cur);
  }

  /** After the first tables: `es` is what they gave, and `cur` holds them in the slot (created at the first one). */
  ghost predicate SlotProgress(muniKey: string, f: Table -> Result<Entry<BarangayRecord>, Fault>, done: seq<Table>,
                               data: BarangayTable, es: seq<Entry<BarangayRecord>>,
                               slot: map<string, BarangayRecord>, cur: BarangayTable)
  {
    && MapAll(done, f) == Ok(es)
    && slot == Upsert(Slot(data, muniKey), es)
    && cur == if done == [] then data else data[muniKey := slot]
  }

  lemma StoreStep(muniKey: string, muniName: string, tables: seq<Table>, j: nat, data: BarangayTable,
                  es: seq<Entry<BarangayRecord>>, slot: map<string, BarangayRecord>, cur: BarangayTable)
    requires j < |tables| && BarangayOf(muniName, tables[j]).Ok?
    requires SlotProgress(muniKey, BarangayExtractor(muniName), tables[..j], data, es, slot, cur)
    ensures var e := BarangayOf(muniName, tables[j]).value;
      SlotProgress(muniKey, BarangayExtractor(muniName), tables[..j + 1], data, es + [e],
                   slot[e.key := e.val], InsertBarangay(cur, muniKey, e))
  {
    var f := BarangayExtractor(muniName);
    var e := BarangayOf(muniName, tables[j]).value;
    assert f(tables[j]) == Ok(e);
    assert cur == data || cur == data[muniKey := slot];
    InsertIntoSlot(data, cur, muniKey, slot, e);
    MapAllExtend(tables, f, j, es);
    UpsertExtend(Slot(data, muniKey), es, e);
  }

  lemma StoreFails(muniKey: string, muniName: string, tables: seq<Table>, j: nat, data: BarangayTable,
                   es: seq<Entry<BarangayRecord>>, slot: map<string, BarangayRecord>, cur: BarangayTable)
    requires j < |tables| && BarangayOf(muniName, tables[j]).Err?
    requires SlotProgress(muniKey, BarangayExtractor(muniName), tables[..j], data, es, slot, cur)
    ensures MapAll(tables, BarangayExtractor(muniName)) == Err(BarangayOf(muniName, tables[j]).error)
  {
    var f := BarangayExtractor(muniName);
    assert f(tables[j]) == BarangayOf(muniName, tables[j]);
    MapAllFirstError(tables, f, j);
  }
}
