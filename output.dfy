/**
 * Step four of `download_muni_data`: the two output file names, and the
 * text written to them. Municipalities are written in sorted key order, one
 * line each; after each municipality line come the lines of its barangays,
 * in sorted key order, into the second file. A municipality with no
 * barangay entry makes `barangay_data[muni_key]` raise KeyError, and one
 * whose entry holds list-page fields makes the inner loop raise TypeError;
 * either ends the run with both files partly written.
 */
module Output {
  import opened Text
  import opened Order
  import opened Records

  // ---------------------------------------------------------------------
  // Fixed-width lines
  // ---------------------------------------------------------------------

  /** The fields padded to their widths (`%-Ns`) and separated by single spaces. */
  function Columns(fields: seq<string>, widths: seq<nat>): (line: string)
    requires |fields| == |widths| > 0
    decreases |fields|
  {
    if |fields| == 1 then Pad(fields[0], widths[0])
    else Pad(fields[0], widths[0]) + " " + Columns(fields[1..], widths[1..])
  }

  /** A format string such as `'%-50s %-15s\\n'` applied to the fields. */
  function FormatLine(fields: seq<string>, widths: seq<nat>): string
    requires |fields| == |widths| > 0
  {
    Columns(fields, widths) + "\n"
  }

  /** Where field `i` starts in the line: the widths actually taken by the fields before it, plus one space each. */
  function Offset(fields: seq<string>, widths: seq<nat>, i: nat): nat
    requires |fields| == |widths| && i <= |fields|
    decreases i
  {
    if i == 0 then 0 else Max(|fields[0]|, widths[0]) + 1 + Offset(fields[1..], widths[1..], i - 1)
  }

  /** The column where field `i` starts when no field overflows its width. */
  function ColumnStart(widths: seq<nat>, i: nat): nat
    requires i <= |widths|
    decreases i
  {
    if i == 0 then 0 else widths[0] + 1 + ColumnStart(widths[1..], i - 1)
  }

  /**
   * No field is ever truncated: each field appears in full at its offset,
   * followed by a space (or the end of the line for the last one).
   */
  lemma {:induction false} FieldAt(fields: seq<string>, widths: seq<nat>, i: nat)
    requires |fields| == |widths| > 0 && i < |fields|
    ensures var line := Columns(fields, widths);
      Offset(fields, widths, i) + |fields[i]| <= |line|
      && line[Offset(fields, widths, i)..Offset(fields, widths, i) + |fields[i]|] == fields[i]
    decreases i
  {
    if i == 0 {
      FirstField(fields, widths);
    } else {
      FieldAt(fields[1..], widths[1..], i - 1);
      LaterField(fields, widths, i);
    }
  }

  lemma FirstField(fields: seq<string>, widths: seq<nat>)
    requires |fields| == |widths| > 0
    ensures |fields[0]| <= |Columns(fields, widths)| && Columns(fields, widths)[..|fields[0]|] == fields[0]
  {
    var line := Columns(fields, widths);
    var head := Pad(fields[0], widths[0]);
    assert line[..|head|] == head;
    assert line[..|fields[0]|] == head[..|fields[0]|];
  }

  /** Field `i` sits in the rest of the line exactly as it sits in the line of the remaining fields. */
  lemma LaterField(fields: seq<string>, widths: seq<nat>, i: nat)
    requires |fields| == |widths| && 0 < i < |fields|
    requires var rest := Columns(fields[1..], widths[1..]);
      var o := Offset(fields[1..], widths[1..], i - 1);
      o + |fields[i]| <= |rest| && rest[o..o + |fields[i]|] == fields[i]
    ensures var line := Columns(fields, widths);
      Offset(fields, widths, i) + |fields[i]| <= |line|
      && line[Offset(fields, widths, i)..Offset(fields, widths, i) + |fields[i]|] == fields[i]
  {
    var head := Pad(fields[0], widths[0]);
    var rest := Columns(fields[1..], widths[1..]);
    var o := Offset(fields[1..], widths[1..], i - 1);
    assert Offset(fields, widths, i) == |head| + 1 + o;
    SliceAfter(head + " ", rest, o, o + |fields[i]|);
  }

  /** A slice of the part after `prefix` is the same slice of that part. */
  lemma SliceAfter(prefix: string, rest: string, lo: nat, hi: nat)
    requires lo <= hi <= |rest|
    ensures (prefix + rest)[|prefix| + lo..|prefix| + hi] == rest[lo..hi]
  {
  }

  /** When every field fits its width, each field starts at a fixed column, whatever the fields hold. */
  lemma {:induction false} AlignedColumns(fields: seq<string>, widths: seq<nat>, i: nat)
    requires |fields| == |widths| && i <= |fields|
    requires forall j :: 0 <= j < |fields| ==> |fields[j]| <= widths[j]
    ensures Offset(fields, widths, i) == ColumnStart(widths, i)
    decreases i
  {
    if i > 0 {
      AlignedColumns(fields[1..], widths[1..], i - 1);
    }
  }

  /** `'%-50s %-15s %-50s %-10s %-15s %-15s %-25s\\n'` */
  const MuniWidths: seq<nat> := [50, 15, 50, 10, 15, 15, 25]

  /** `'%-50s %-50s %-15s %-15s %-15s\\n'` */
  const BarangayWidths: seq<nat> := [50, 50, 15, 15, 15]

  /** Every field but the last is followed by a comma. */
  function MuniFields(m: MuniRecord): seq<string> {
    [m.name + ",", m.code + ",", m.province + ",", m.incomeClass + ",",
     m.registeredVoters + ",", m.population + ",", m.landArea]
  }

  function BarangayFields(b: BarangayRecord): seq<string> {
    [b.muniName + ",", b.name + ",", b.code + ",", b.urbanRural + ",", b.population]
  }

  function MuniLine(m: MuniRecord): string {
    FormatLine(MuniFields(m), MuniWidths)
  }

  function BarangayLine(b: BarangayRecord): string {
    FormatLine(BarangayFields(b), BarangayWidths)
  }

  /** A municipality line starts with its name and a comma, and its code starts at column 51 when the name fits. */
  lemma MuniLineLayout(m: MuniRecord)
    ensures |m.name| + 1 <= |MuniLine(m)| && MuniLine(m)[..|m.name| + 1] == m.name + ","
    ensures |m.name| < 50 ==>
      52 + |m.code| <= |MuniLine(m)| && MuniLine(m)[51..52 + |m.code|] == m.code + ","
  {
    var f := MuniFields(m);
    var line := Columns(f, MuniWidths);
    FieldAt(f, MuniWidths, 0);
    FieldAt(f, MuniWidths, 1);
    assert Offset(f, MuniWidths, 0) == 0;
    assert Offset(f, MuniWidths, 1) == Max(|m.name| + 1, 50) + 1 + Offset(f[1..], MuniWidths[1..], 0);
    assert MuniLine(m) == line + "\n";
    assert MuniLine(m)[..|line|] == line;
  }

  /** When every field fits, a municipality line is 187 characters and a barangay line 150, newline included. */
  lemma LineLengths(m: MuniRecord, b: BarangayRecord)
    ensures (forall j :: 0 <= j < 7 ==> |MuniFields(m)[j]| <= MuniWidths[j]) ==> |MuniLine(m)| == 187
    ensures (forall j :: 0 <= j < 5 ==> |BarangayFields(b)[j]| <= BarangayWidths[j]) ==> |BarangayLine(b)| == 150
  {
    ColumnsLength(MuniFields(m), MuniWidths);
    ColumnsLength(BarangayFields(b), BarangayWidths);
    var w := MuniWidths;
    assert w[1..][1..][1..][1..][1..][1..] == [25];
    assert ColumnStart(w, 6) == 161;
    var v := BarangayWidths;
    assert v[1..][1..][1..][1..] == [15];
    assert ColumnStart(v, 4) == 134;
  }

  /** The width of a whole line: every field at its width when it fits, plus the separating spaces. */
  lemma {:induction false} ColumnsLength(fields: seq<string>, widths: seq<nat>)
    requires |fields| == |widths| > 0
    ensures (forall j :: 0 <= j < |fields| ==> |fields[j]| <= widths[j]) ==>
      |Columns(fields, widths)| == ColumnStart(widths, |widths| - 1) + widths[|widths| - 1]
    decreases |fields|
  {
    if |fields| > 1 {
      ColumnsLength(fields[1..], widths[1..]);
    }
  }

  // ---------------------------------------------------------------------
  // The two files
  // ---------------------------------------------------------------------

  datatype Files = Files(muni: string, barangay: string)

  /**
   * What the files hold when the write loop ends, or when it raises on
   * `key`: KeyError when `barangay_data` has no entry for the municipality,
   * TypeError when the entry holds a list-page record's fields, one of whose
   * texts the inner loop then indexes as if it were a barangay's dictionary.
   */
  datatype Rendered =
    | Complete(files: Files)
    | KeyError(key: string, files: Files)
    | TypeError(key: string, files: Files)

  /** The lines of one municipality's barangays, in the order of `keys`. */
  function BarangayBlock(keys: seq<string>, slot: map<string, BarangayRecord>): string
    requires AllIn(keys, slot)
    decreases |keys|
  {
    if keys == [] then [] else BarangayBlock(keys[..|keys| - 1], slot) + BarangayLine(slot[keys[|keys| - 1]])
  }

  /** Every key of the sequence is in the dictionary. */
  predicate AllIn<V>(keys: seq<string>, m: map<string, V>) {
    forall i :: 0 <= i < |keys| ==> keys[i] in m
  }

  lemma AllInSnoc<V>(keys: seq<string>, m: map<string, V>)
    requires keys != []
    ensures AllIn(keys, m) <==> AllIn(keys[..|keys| - 1], m) && keys[|keys| - 1] in m
  {
    var n := |keys| - 1;
    assert forall i :: 0 <= i < n ==> keys[..n][i] == keys[i];
  }

  /** The keys `data[muni_key] = {}` and the list-page branch's field assignments leave in a dictionary. */
  const MUNI_FIELDS: set<string> :=
    {"href", "name", "code", "province", "income_class", "registered_voters", "population", "land_area"}

  /** The longest prefix of `keys` whose every key is in `m`. */
  function LeadingIn<V>(keys: seq<string>, m: map<string, V>): (r: seq<string>)
    ensures |r| <= |keys| && r == keys[..|r|]
    ensures AllIn(r, m)
    ensures |r| < |keys| ==> keys[|r|] !in m
    decreases |keys|
  {
    if keys == [] || keys[0] !in m then []
    else
      var r := [keys[0]] + LeadingIn(keys[1..], m);
      assert forall i :: 1 <= i < |r| ==> r[i] == keys[1..][i - 1];
      r
  }

  /**
   * The barangay lines written for an entry that holds a list-page record's
   * fields besides the barangays of `slot`: the inner loop takes all keys in
   * sorted order and writes barangays until it reaches the first field.
   */
  ghost function MixedBlock(slot: map<string, BarangayRecord>): string {
    var keys := Sorted(slot.Keys + MUNI_FIELDS);
    BarangayBlock(LeadingIn(keys, slot), slot)
  }

  /** The municipality keys the write loop gets through: an entry of barangays and no list-page fields. */
  function Writable(d: DetailData): BarangayTable {
    d.barangays - d.listed.Keys
  }

  /** The municipality lines for `keys`, in that order. */
  function MuniText(keys: seq<string>, meta: MuniTable): string
    requires AllIn(keys, meta)
    decreases |keys|
  {
    if keys == [] then [] else MuniText(keys[..|keys| - 1], meta) + MuniLine(meta[keys[|keys| - 1]])
  }

  /** The write loop over the municipality keys in the order given. */
  ghost function RenderKeys(keys: seq<string>, meta: MuniTable, d: DetailData): Rendered
    requires AllIn(keys, meta)
    decreases |keys|
  {
    if keys == [] then Complete(Files([], []))
    else
      var n := |keys| - 1;
      var k := keys[n];
      match RenderKeys(keys[..n], meta, d)
      case Complete(f) =>
        var muni := f.muni + MuniLine(meta[k]);
        if k in d.listed then TypeError(k, Files(muni, f.barangay + MixedBlock(Slot(d.barangays, k))))
        else if k !in d.barangays then KeyError(k, Files(muni, f.barangay))
        else Complete(Files(muni, f.barangay + BarangayBlock(Sorted(d.barangays[k].Keys), d.barangays[k])))
      case raised => raised
  }

  /** Both files as the scraper writes them: keys sorted, barangays under their municipality. */
  ghost function Render(meta: MuniTable, d: DetailData): Rendered {
    RenderKeys(Sorted(meta.Keys), meta, d)
  }

  /** The write loop finishes exactly when every municipality has an entry of barangays only. */
  lemma {:induction false} RenderKeysComplete(keys: seq<string>, meta: MuniTable, d: DetailData)
    requires AllIn(keys, meta)
    ensures RenderKeys(keys, meta, d).Complete? <==> AllIn(keys, Writable(d))
    decreases |keys|
  {
    if keys != [] {
      var n := |keys| - 1;
      AllInSnoc(keys, meta);
      AllInSnoc(keys, Writable(d));
      RenderKeysComplete(keys[..n], meta, d);
    }
  }

  /** When the write loop finishes, the municipality file holds one line per key, in order. */
  lemma {:induction false} RenderKeysMuniText(keys: seq<string>, meta: MuniTable, d: DetailData)
    requires AllIn(keys, meta)
    ensures RenderKeys(keys, meta, d).Complete? ==> RenderKeys(keys, meta, d).files.muni == MuniText(keys, meta)
    decreases |keys|
  {
    if keys != [] {
      var n := |keys| - 1;
      AllInSnoc(keys, meta);
      RenderKeysMuniText(keys[..n], meta, d);
    }
  }

  /**
   * When the write loop raises, it does so at the first key (in loop order)
   * it cannot get through, after writing that municipality's line: KeyError
   * when the key has no entry, TypeError when its entry holds list-page
   * fields. The municipality file holds the lines up to and including it.
   */
  lemma {:induction false} RenderKeysRaises(keys: seq<string>, meta: MuniTable, d: DetailData)
    requires AllIn(keys, meta)
    requires !RenderKeys(keys, meta, d).Complete?
    ensures exists i :: FirstUnwritable(keys, meta, d, i)
    decreases |keys|
  {
    var n := |keys| - 1;
    AllInSnoc(keys, meta);
    if !RenderKeys(keys[..n], meta, d).Complete? {
      RenderKeysRaises(keys[..n], meta, d);
      var i :| FirstUnwritable(keys[..n], meta, d, i);
      UnwritableBeforeLast(keys, meta, d, i);
    } else {
      UnwritableAtLast(keys, meta, d);
    }
  }

  /**
   * Key `i` is the first the loop cannot get through; the loop raised on it,
   * TypeError exactly when its entry holds list-page fields, and the
   * municipality file holds the lines up to and including it.
   */
  ghost predicate FirstUnwritable(keys: seq<string>, meta: MuniTable, d: DetailData, i: int)
    requires AllIn(keys, meta)
  {
    AllInPrefix(keys, meta, i + 1);
    0 <= i < |keys| && AllIn(keys[..i], Writable(d)) && keys[i] !in Writable(d)
    && !RenderKeys(keys, meta, d).Complete? && RenderKeys(keys, meta, d).key == keys[i]
    && (RenderKeys(keys, meta, d).TypeError? <==> keys[i] in d.listed)
    && RenderKeys(keys, meta, d).files.muni == MuniText(keys[..i + 1], meta)
  }

  lemma AllInPrefix<V>(keys: seq<string>, m: map<string, V>, n: int)
    ensures AllIn(keys, m) && 0 <= n <= |keys| ==> AllIn(keys[..n], m)
  {
    if AllIn(keys, m) && 0 <= n <= |keys| {
      assert forall i :: 0 <= i < n ==> keys[..n][i] == keys[i];
    }
  }

  lemma UnwritableAtLast(keys: seq<string>, meta: MuniTable, d: DetailData)
    requires keys != [] && AllIn(keys, meta)
    requires !RenderKeys(keys, meta, d).Complete?
    requires AllIn(keys[..|keys| - 1], meta) && RenderKeys(keys[..|keys| - 1], meta, d).Complete?
    ensures FirstUnwritable(keys, meta, d, |keys| - 1)
  {
    var n := |keys| - 1;
    RenderKeysComplete(keys[..n], meta, d);
    RenderKeysMuniText(keys[..n], meta, d);
    assert keys[..n + 1] == keys;
  }

  lemma UnwritableBeforeLast(keys: seq<string>, meta: MuniTable, d: DetailData, i: int)
    requires keys != [] && AllIn(keys, meta)
    requires AllIn(keys[..|keys| - 1], meta) && !RenderKeys(keys[..|keys| - 1], meta, d).Complete?
    requires FirstUnwritable(keys[..|keys| - 1], meta, d, i)
    ensures FirstUnwritable(keys, meta, d, i)
  {
    var n := |keys| - 1;
    assert keys[..n][..i + 1] == keys[..i + 1];
    assert keys[..n][..i] == keys[..i];
  }

  /** The output is written in full exactly when every municipality got an entry of barangays only. */
  lemma RenderComplete(meta: MuniTable, d: DetailData)
    ensures Render(meta, d).Complete? <==> meta.Keys <= Writable(d).Keys
    ensures Render(meta, d).Complete? ==> Render(meta, d).files.muni == MuniText(Sorted(meta.Keys), meta)
  {
    var keys := Sorted(meta.Keys);
    var w := Writable(d);
    assert AllIn(keys, meta);
    RenderKeysComplete(keys, meta, d);
    RenderKeysMuniText(keys, meta, d);
    if meta.Keys <= w.Keys {
      assert AllIn(keys, w);
    } else {
      var k :| k in meta.Keys && k !in w;
      var i :| 0 <= i < |keys| && keys[i] == k;
    }
  }

  /** The barangay lines of one municipality, keys sorted. */
  method WriteBarangayBlock(slot: map<string, BarangayRecord>) returns (text: string)
    ensures text == BarangayBlock(Sorted(slot.Keys), slot)
  {
    var keys := SortKeys(slot.Keys);
    assert AllIn(keys, slot);
    text := [];
    for i := 0 to |keys|
      invariant text == BarangayBlock(keys[..i], slot)
    {
      BlockStep(keys, slot, i);
      text := text + BarangayLine(slot[keys[i]]);
    }
    assert keys[..|keys|] == keys;
  }

  /**
   * The inner loop over an entry that holds list-page fields besides the
   * barangays of `slot`: barangay lines in sorted key order, up to the first
   * field.
   */
  method WriteMixedBlock(slot: map<string, BarangayRecord>) returns (text: string)
    ensures text == MixedBlock(slot)
  {
    var keys := SortKeys(slot.Keys + MUNI_FIELDS);
    text := WriteLeading(keys, slot);
  }

  /** `for key in keys:` writing barangay lines until a key that is not a barangay's. */
  method WriteLeading(keys: seq<string>, slot: map<string, BarangayRecord>) returns (text: string)
    ensures text == BarangayBlock(LeadingIn(keys, slot), slot)
  {
    ghost var lead := LeadingIn(keys, slot);
    text := [];
    var i := 0;
    while i < |keys| && keys[i] in slot
      invariant i <= |lead|
      invariant text == BarangayBlock(lead[..i], slot)
    {
      LeadingStep(keys, slot, i);
      BlockStep(lead, slot, i);
      text := text + BarangayLine(slot[keys[i]]);
      i := i + 1;
    }
    LeadingStep(keys, slot, i);
    assert lead[..i] == lead;
  }

  /** Walking `keys` while its keys are in `m` stops exactly at the end of `LeadingIn(keys, m)`. */
  lemma LeadingStep<V>(keys: seq<string>, m: map<string, V>, i: nat)
    requires i <= |LeadingIn(keys, m)|
    ensures (i < |keys| && keys[i] in m) <==> i < |LeadingIn(keys, m)|
    ensures i < |LeadingIn(keys, m)| ==> LeadingIn(keys, m)[i] == keys[i]
  {
    var lead := LeadingIn(keys, m);
    if i < |lead| {
      assert lead[i] == keys[..|lead|][i];
    }
  }

  lemma BlockStep(keys: seq<string>, slot: map<string, BarangayRecord>, i: nat)
    requires AllIn(keys, slot) && i < |keys|
    ensures AllIn(keys[..i], slot) && AllIn(keys[..i + 1], slot)
    ensures BarangayBlock(keys[..i + 1], slot) == BarangayBlock(keys[..i], slot) + BarangayLine(slot[keys[i]])
  {
    AllInPrefix(keys, slot, i);
    AllInPrefix(keys, slot, i + 1);
    assert keys[..i + 1][..i] == keys[..i] && keys[..i + 1][i] == keys[i];
  }

  /** The nested write loop of step four. */
  method WriteOut(meta: MuniTable, d: DetailData) returns (r: Rendered)
    ensures r == Render(meta, d)
  {
    var keys := SortKeys(meta.Keys);
    assert AllIn(keys, meta);
    r := WriteKeys(keys, meta, d);
  }

  /** `for muni_key in keys:` writing each municipality line, then its barangay block, or raising. */
  method WriteKeys(keys: seq<string>, meta: MuniTable, d: DetailData) returns (r: Rendered)
    requires AllIn(keys, meta)
    ensures r == RenderKeys(keys, meta, d)
  {
    var muni: string := [];
    var barangay: string := [];
    for i := 0 to |keys|
      invariant RenderKeys(keys[..i], meta, d) == Complete(Files(muni, barangay))
    {
      RenderStep(keys, meta, d, i, muni, barangay);
      var k := keys[i];
      muni := muni + MuniLine(meta[k]);
      if k in d.listed {
        var block := WriteMixedBlock(Slot(d.barangays, k));
        r := TypeError(k, Files(muni, barangay + block));
        RenderStops(keys, meta, d, i + 1);
        return;
      }
      if k !in d.barangays {
        r := KeyError(k, Files(muni, barangay));
        RenderStops(keys, meta, d, i + 1);
        return;
      }
      var block := WriteBarangayBlock(d.barangays[k]);
      barangay := barangay + block;
    }
    assert keys[..|keys|] == keys;
    return Complete(Files(muni, barangay));
  }

  /** One more municipality key: its line, then its barangay block, or the exception it raises. */
  lemma RenderStep(keys: seq<string>, meta: MuniTable, d: DetailData, i: nat, muni: string, barangay: string)
    requires AllIn(keys, meta)
    requires i < |keys| && RenderKeys(keys[..i], meta, d) == Complete(Files(muni, barangay))
    ensures var k := keys[i];
      var m := muni + MuniLine(meta[k]);
      RenderKeys(keys[..i + 1], meta, d) ==
        if k in d.listed then TypeError(k, Files(m, barangay + MixedBlock(Slot(d.barangays, k))))
        else if k !in d.barangays then KeyError(k, Files(m, barangay))
        else Complete(Files(m, barangay + BarangayBlock(Sorted(d.barangays[k].Keys), d.barangays[k])))
  {
    assert keys[..i + 1][..i] == keys[..i] && keys[..i + 1][i] == keys[i];
  }

  lemma {:induction false} RenderStops(keys: seq<string>, meta: MuniTable, d: DetailData, i: nat)
    requires AllIn(keys, meta)
    requires i <= |keys| && !RenderKeys(keys[..i], meta, d).Complete?
    ensures RenderKeys(keys, meta, d) == RenderKeys(keys[..i], meta, d)
    decreases |keys| - i
  {
    if i < |keys| {
      assert keys[..i + 1][..i] == keys[..i];
      RenderStops(keys, meta, d, i + 1);
    } else {
      assert keys[..i] == keys;
    }
  }

  // ---------------------------------------------------------------------
  // File names
  // ---------------------------------------------------------------------

  /** The wall-clock time the names are stamped with (`datetime.now()`), passed in. */
  datatype Timestamp = Timestamp(month: nat, day: nat, year: nat, hour: nat, minute: nat, second: nat)

  /**
   * `'_%i-%i-%i__%i-%i-%i' % (month, day, year, hour, minute, second)`,
   * without zero padding.
   */
  function TimestampString(ts: Timestamp): string {
    "_" + (IntToString(ts.month) + ("-" + (IntToString(ts.day) + ("-" + (IntToString(ts.year)
    + ("_" + ("_" + (IntToString(ts.hour) + ("-" + (IntToString(ts.minute) + ("-" + IntToString(ts.second))))))))))))
  }

  /** `prefix + '_%i_%i_' % (first_page, last_page) + ts_string + '.txt'` */
  function FileName(prefix: string, first: int, last: int, ts: Timestamp): string {
    prefix + ("_" + (IntToString(first) + ("_" + (IntToString(last) + ("_" + (TimestampString(ts) + ".txt"))))))
  }

  function MuniFileName(first: int, last: int, ts: Timestamp): string {
    FileName("muni_metadata", first, last, ts)
  }

  function BarangayFileName(first: int, last: int, ts: Timestamp): string {
    FileName("barangay_data", first, last, ts)
  }

  /** The two files of a run never share a name. */
  lemma FileNamesDiffer(first: int, last: int, ts: Timestamp)
    ensures MuniFileName(first, last, ts) != BarangayFileName(first, last, ts)
  {
    assert MuniFileName(first, last, ts)[0] == 'm';
    assert BarangayFileName(first, last, ts)[0] == 'b';
  }

  /**
   * The page range and the timestamp can be read back from a name: runs
   * that differ in either write to different files.
   */
  lemma FileNameInjective(prefix: string, f1: int, l1: int, t1: Timestamp, f2: int, l2: int, t2: Timestamp)
    requires FileName(prefix, f1, l1, t1) == FileName(prefix, f2, l2, t2)
    ensures f1 == f2 && l1 == l2 && t1 == t2
  {
    var I := IntToString;
    var r1 := TimestampString(t1) + ".txt";
    var r2 := TimestampString(t2) + ".txt";
    DropPrefix(prefix, "_" + (I(f1) + ("_" + (I(l1) + ("_" + r1)))), "_" + (I(f2) + ("_" + (I(l2) + ("_" + r2)))));
    DropPrefix("_", I(f1) + ("_" + (I(l1) + ("_" + r1))), I(f2) + ("_" + (I(l2) + ("_" + r2))));
    IntToStringChars(f1);
    IntToStringChars(f2);
    SplitRight(I(f1), I(l1) + ("_" + r1), I(f2), I(l2) + ("_" + r2), '_');
    IntToStringInjective(f1, f2);
    IntToStringChars(l1);
    IntToStringChars(l2);
    SplitRight(I(l1), r1, I(l2), r2, '_');
    IntToStringInjective(l1, l2);
    assert TimestampString(t1) == r1[..|r1| - 4];
    assert TimestampString(t2) == r2[..|r2| - 4];
    TimestampInjective(t1, t2);
  }

  lemma DropPrefix(p: string, x: string, y: string)
    requires p + x == p + y
    ensures x == y
  {
    assert x == (p + x)[|p|..];
    assert y == (p + y)[|p|..];
  }

  lemma TimestampInjective(t1: Timestamp, t2: Timestamp)
    requires TimestampString(t1) == TimestampString(t2)
    ensures t1 == t2
  {
    var I := IntToString;
    var r4 := I(t1.minute) + ("-" + I(t1.second));
    var s4 := I(t2.minute) + ("-" + I(t2.second));
    var r3 := I(t1.hour) + ("-" + r4);
    var s3 := I(t2.hour) + ("-" + s4);
    var r2 := I(t1.year) + ("_" + ("_" + r3));
    var s2 := I(t2.year) + ("_" + ("_" + s3));
    var r1 := I(t1.day) + ("-" + r2);
    var s1 := I(t2.day) + ("-" + s2);
    DropPrefix("_", I(t1.month) + ("-" + r1), I(t2.month) + ("-" + s1));
    NumberField(t1.month, r1, t2.month, s1, '-');
    NumberField(t1.day, r2, t2.day, s2, '-');
    NumberField(t1.year, "_" + r3, t2.year, "_" + s3, '_');
    DropPrefix("_", r3, s3);
    NumberField(t1.hour, r4, t2.hour, s4, '-');
    NumberField(t1.minute, I(t1.second), t2.minute, I(t2.second), '-');
    IntToStringInjective(t1.second, t2.second);
  }

  /** A number written by `'%i'` followed by a separator it cannot contain is read back unambiguously. */
  lemma NumberField(n1: nat, r1: string, n2: nat, r2: string, c: char)
    requires c == '-' || c == '_'
    requires IntToString(n1) + ([c] + r1) == IntToString(n2) + ([c] + r2)
    ensures n1 == n2 && r1 == r2
  {
    IntToStringChars(n1);
    IntToStringChars(n2);
    SplitRight(IntToString(n1), r1, IntToString(n2), r2, c);
    IntToStringInjective(n1, n2);
  }
}
