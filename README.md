# nscb_scrape: a verified model of the crawl-and-accumulate core

`nscb_scrape.py` downloads the Philippine municipality records. It runs in four steps:

- **List phase.** Fetch the municipality list pages `first_page..last_page`. Each row of the second table becomes a municipality record in `muni_metadata`, keyed by `name-code`.
- **Detail phase.** Fetch each municipality's detail page. Each table from the fourth on becomes one barangay. It is stored in `barangay_data[muni_key][barangay_key]`, and the municipality's slot is created on the first insert. The same `extract_data` serves both phases and picks its branch by the municipality name: an item whose name is blank has its page parsed as a list page, into `barangay_data`.
- **Output.** Write the municipalities, keys sorted, one fixed-width line each, to `muni_metadata_<first>_<last>__<timestamp>.txt`. Under each municipality, its barangays (keys sorted) go to `barangay_data_...txt`.
- **Retries.** Every fetch sits in a retry loop. An `IOError` counts a try and sleeps, but only below `MAX_TRIES`; the loop never gives up.

The model is written in Dafny. The project is organised as follows:

- **`wrappers.dfy`**: `Option` and `Result`.
- **`text.dfy`**: the cell normalisation, `encode('ascii','ignore').strip()` and `replace(',','')`; `split()[0]`; `'%-Ns'` padding; and `'%i'`.
- **`order.dfy`**: Python 2 byte-string order and `keys.sort()`.
- **`page.dfy`**: a parsed page, as a plain value.
- **`records.dfy`**: the records, the positional cell schema, and the dictionary updates.
- **`retry.dfy`**: the retry loop.
- **`crawl.dfy`**: the URL lists and the two passes of `extract_data`.
- **`output.dfy`**: the lines, the write loop, and the file names.
- **`scrape.dfy`**: `download_muni_data` as a whole.

How the source is represented:

- **Dictionaries.** The dictionaries the source mutates in place are `map` values. The methods thread them through their loops.
- **Loops.** Each loop is a `method` proved equal to a recursive specification function. The properties are proved about those functions.
- **Exceptions.** An exception that escapes `extract_data` is a `Fault` and ends the run. Examples are an `IndexError` on a short row, a missing `pageBody`, and a missing link.
- **Network.** What the network does is an oracle: `net(k)` is the finite sequence of attempts made on the k-th URL of a phase.
- **Timestamp.** The timestamp is a parameter.
- **`barangay_data` after the detail phase.** It is a `DetailData` pair: the barangays stored per municipality key, and the list-page records that the list-page branch stored there. The Python entry under a key is the union of the two.

## Model

| member | source | states |
|---|---|---|
| Text.AsciiOnly | nscb_scrape.py:180 | `encode('ascii','ignore')` keeps exactly the characters below 128, all of them, and is the identity on ASCII text |
| Text.AsciiOnlyAppend | nscb_scrape.py:180 | the encoding works character by character: on a concatenation it is the concatenation of the two results, so the order is kept |
| Text.Strip | nscb_scrape.py:180 | `strip()` yields an infix of its input with whitespace-only margins and no whitespace at either of its own ends; it keeps ASCII text ASCII |
| Text.StripIdempotent | nscb_scrape.py:180 | stripping twice is stripping once |
| Text.StripPadded | nscb_scrape.py:180 | stripping whitespace margins off a stripped text gives that text back |
| Text.RemoveCommas | nscb_scrape.py:189-191 | `replace(',','')` leaves no comma, keeps every other character, and changes nothing in comma-free text |
| Text.RemoveCommasAppend | nscb_scrape.py:189-191 | removing commas works character by character: on a concatenation it is the concatenation of the two results |
| Text.FirstToken | nscb_scrape.py:210 | `split()[0]` is None (IndexError) exactly when the text is all whitespace; otherwise it is a non-empty whitespace-free run preceded only by whitespace and followed by whitespace or the end |
| Text.FirstTokenOfStripped | nscb_scrape.py:210 | on stripped text, the first token is None exactly for the empty string, else the leading non-whitespace run |
| Text.Pad | nscb_scrape.py:104-107 | `'%-Ns' % s` has length max(len(s), N), starts with `s` unchanged (never truncated), and is spaces after it |
| Text.IntToString | nscb_scrape.py:60 | `'%i'` writes a non-empty string of digits with a leading '-' exactly for negative numbers, and with no leading zero except for 0 itself |
| Text.IntToStringRoundTrip | nscb_scrape.py:60 | reading back the decimal text `'%i'` writes gives the number |
| Text.IntToStringInjective | nscb_scrape.py:87-89 | different numbers are written differently |
| Text.SplitAtSeparator | nscb_scrape.py:182 | when neither head contains the separator, `x + c + r == y + c + t` forces `x == y` and `r == t` |
| Records.Key | nscb_scrape.py:182 | `'%s-%s' % (name, code)`: the name, a '-', then the code |
| Records.Clean | nscb_scrape.py:180-181 | a normalised text cell is ASCII-only and stripped, and a cell that already is comes through unchanged |
| Records.CleanNumber | nscb_scrape.py:189-191 | a normalised numeric cell is ASCII-only and has no comma; a clean comma-free cell is unchanged |
| Records.CleanPadded | nscb_scrape.py:180-191 | a clean text between whitespace margins normalises to itself, and as a number to itself without its commas |
| Records.KeyInjective | nscb_scrape.py:182 | for names without '-', the key `name-code` determines both name and code |
| Records.KeyCollision | nscb_scrape.py:182 | the key is not injective in general: ("A-B","C") and ("A","B-C") collide |
| Records.MuniRow | nscb_scrape.py:177-191 | a row is extracted exactly when it has at least 7 cells and a link in the first (extra cells are ignored). Otherwise the fault is MissingLink for a linkless row of at least 2 cells, and TooFewCells otherwise. The key is `name-code`, `href` is the link, and every field is normalised |
| Records.MuniRowRoundTrip | nscb_scrape.py:180-191 | cells holding clean texts between whitespace margins give exactly those texts, in column order, as name, code, province, income class, and (commas removed) voters, population and land area, under the key `name-code` |
| Records.UrbanRural | nscb_scrape.py:210 | on a clean cell, urban/rural is its first word: non-empty, whitespace-free, a prefix ending at whitespace or the end, None exactly when the cell is blank |
| Records.BarangayOf | nscb_scrape.py:200-211 | a barangay table gives a record exactly when it has at least 4 cells (extra cells are ignored) and a non-blank urban/rural cell (else NoUrbanRuralToken or TooFewCells), with the passed municipality name, key `name-code` and normalised fields |
| Records.BarangayOfRoundTrip | nscb_scrape.py:200-211 | cells holding clean texts between whitespace margins give exactly those texts as name and code, the first word of the third as urban/rural, and the fourth without commas as population |
| Records.MapAll | nscb_scrape.py:178 | extracting every row succeeds exactly when every row does, and then yields each row's entry in order |
| Records.MapAllFirstError | nscb_scrape.py:178 | the fault reported is that of the first bad row |
| Records.Upsert | nscb_scrape.py:183 | after storing the entries, the keys are the old keys plus the entries' keys |
| Records.UpsertLastWins | nscb_scrape.py:183-191 | a key holds the record of the last entry with that key |
| Records.UpsertUntouched | nscb_scrape.py:183 | a key no entry names keeps its value or stays absent |
| Records.UpsertSource | nscb_scrape.py:183 | every stored value was there before or came from an entry under that key |
| Records.InsertBarangay | nscb_scrape.py:204-206 | the slot is created empty only when absent, then holds the new barangay. Other barangays of the slot and other municipalities are unchanged |
| Records.MuniPage | nscb_scrape.py:168-191 | a list page: no page body or no second table raises; otherwise every row of the second table is stored under its key, or the first bad row raises |
| Records.MuniPageOk | nscb_scrape.py:168-191 | a list page is stored exactly when it has a page body, a second table, and every row of it has at least 7 cells and a link |
| Records.MuniPageStores | nscb_scrape.py:180-191 | after a list page, each row's record sits under its key unless a later row has the same key |
| Records.MuniPageKeepsOthers | nscb_scrape.py:180-191 | a list page leaves every key that none of its rows produces as it was |
| Records.BarangayPage | nscb_scrape.py:168-211 | a detail page through the page-body lookup and the barangay branch (196-211): no page body raises; three tables or fewer change nothing; otherwise each table from the fourth on is stored under the municipality, or the first bad table raises |
| Records.BarangayPageFrame | nscb_scrape.py:199-211 | a detail page changes no municipality key but its own |
| Records.BarangayPageCreatesSlot | nscb_scrape.py:199-206 | a detail page creates its municipality's slot exactly when it has more than three tables |
| Records.BarangayPageLocal | nscb_scrape.py:199-211 | a detail page's effect depends only on its own municipality's entry |
| Records.BarangayPageSource | nscb_scrape.py:199-211 | every barangay under the municipality was there before, or carries the passed name, normalised fields and its `name-code` key |
| Records.ListedPage | nscb_scrape.py:174-191 | a list page parsed into `barangay_data`: `data[muni_key] = {}` replaces the whole entry of each row's key, dropping its barangays, and stores the row's fields there |
| Records.ListedPageIsMuniPage | nscb_scrape.py:174-191 | the list-page branch on `barangay_data` fails exactly as on `muni_metadata`, stores the same records, and removes the barangays of exactly the keys its rows produce |
| Records.StoreListedRows | nscb_scrape.py:174-191 | the row loop run on `barangay_data` computes that specification, faults included |
| Records.StoreMuniRows | nscb_scrape.py:168-191 | the row loop computes the list-page specification, faults included |
| Records.StoreBarangayTables | nscb_scrape.py:168-211 | the page-body lookup and the barangay branch (196-211) compute the detail-page specification, faults included |
| Records.StoreEachBarangay | nscb_scrape.py:199-211 | the table loop from table 3 on fills the lazily created slot as the specification does, or stops at the first bad table |
| Page.TableCells | nscb_scrape.py:200 | `find_all('td')` on a table lists the first row's cells first; an empty table has none |
| Page.TableCellsAppend | nscb_scrape.py:200 | the cells of consecutive rows follow one another, so each row contributes its cells in order |
| Retry.LeadingFailures | nscb_scrape.py:158-222 | the number of failed attempts before the first success; all of them fail and the next one, if any, succeeds |
| Retry.SleepsAfter | nscb_scrape.py:219-223 | one sleep per failure below `MAX_TRIES`, and exactly `MAX_TRIES - 1` sleeps from then on |
| Retry.Outcome | nscb_scrape.py:158-223 | the loop's state after a trace: the first fetched page with the failures before it and the sleeps they caused, or still retrying |
| Retry.FetchWithRetries | nscb_scrape.py:158-223 | the `while True` loop ends with the first fetched page, after counting the failures before it and sleeping per the rule above |
| Retry.SleepBounded | nscb_scrape.py:220-223 | the time slept for one URL never exceeds nine sleeps of `SLEEP_TIME` |
| Retry.NeverGivesUp | nscb_scrape.py:219-222 | however many failures precede it, a successful attempt still delivers its page |
| Retry.FailuresNeverExit | nscb_scrape.py:219-222 | no run of failures, however long, leaves the loop |
| Retry.OutcomeExtend | nscb_scrape.py:158-223 | once the loop has a page later attempts do not matter; while it retries the next attempt decides |
| Crawl.ListPageUrl | nscb_scrape.py:60 | `BASE_URL + '/listmun.asp?whichpage=%i' % page` |
| Crawl.ListPageUrls | nscb_scrape.py:60-61 | `last - first + 1` URLs, the i-th for page `first + i`; none when `first > last` |
| Crawl.ListPageUrlInjective | nscb_scrape.py:60 | different page numbers give different URLs |
| Crawl.ListPageUrlsDistinct | nscb_scrape.py:60-61 | no list page is fetched twice |
| Crawl.DetailItems | nscb_scrape.py:75-76 | one item per municipality key, no key twice, each built from its own record |
| Crawl.ListStep | nscb_scrape.py:158-214 | one list URL: retry until a page arrives, then store its rows or raise |
| Crawl.ListPhase | nscb_scrape.py:143-223 | the list URLs in order, each on the dictionary the previous left, stopping at the first URL stuck retrying or raising |
| Crawl.ExtractMuniData | nscb_scrape.py:143-223 | the list pass of `extract_data` computes the list-phase specification |
| Crawl.ListPhaseStops | nscb_scrape.py:143 | once a prefix of the URLs stops the pass, the pass stops there |
| Crawl.ListPhaseKeepsKeys | nscb_scrape.py:183 | the list pass never removes a municipality |
| Crawl.ListPhaseStopsAt | nscb_scrape.py:143-223 | a pass that does not finish stopped at one URL, every URL before it having gone through |
| Crawl.ListPhaseStuckOnDeadPage | nscb_scrape.py:158-222 | a list page that never loads leaves the pass retrying on it, whatever follows |
| Crawl.TakesListBranch | nscb_scrape.py:174 | `if not muni_name:`: no name (a list URL) or a blank name takes the list-page branch |
| Crawl.DetailStep | nscb_scrape.py:143-214 | one detail item: retry until a page arrives, then the branch chosen by the item's name, as written |
| Crawl.DetailPage | nscb_scrape.py:174-211 | a fetched detail page goes down the list-page branch when the item's name is blank, else the barangay branch, which leaves the list-page records alone |
| Crawl.DetailPhase | nscb_scrape.py:143-223 | the detail items in order, each on the `barangay_data` the previous left, stopping at the first item stuck retrying or raising |
| Crawl.ExtractBarangayData | nscb_scrape.py:143-223 | the detail pass of `extract_data` computes the detail-phase specification, branch test included |
| Crawl.DetailPhaseStops | nscb_scrape.py:143 | once a prefix of the items stops the pass, the pass stops there |
| Crawl.IntendedDetailPhase | nscb_scrape.py:196-211 | the detail pass with every item taking the barangay branch |
| Crawl.DetailPhaseAgrees | nscb_scrape.py:174 | when no name is blank, the pass as written stores nothing through the list-page branch and equals the intended pass, stopping point included |
| Crawl.IntendedDetailPhaseLocal | nscb_scrape.py:143-211 | the intended pass gives each municipality what its own page alone gives, given the attempts at that municipality's position, and leaves other keys alone |
| Crawl.DetailPhaseLocal | nscb_scrape.py:143-211 | the same for the pass as written when no name is blank |
| Crawl.BarangaysFromNamedItems | nscb_scrape.py:174-211 | every entry and every barangay the pass as written stores belongs to an item with a non-blank name, carries that name, and is normalised |
| Crawl.BlankNameGetsNoEntry | nscb_scrape.py:174 | a municipality whose name is blank never gets a barangay entry |
| Crawl.BlankNameTakesListBranch | nscb_scrape.py:174-191 | a list row with a blank name cell is stored, and its detail item then takes the list-page branch |
| Order.Less | nscb_scrape.py:101 | Python 2 byte-string order: by character code, a proper prefix first |
| Order.LessIrreflexive | nscb_scrape.py:101 | no key sorts before itself |
| Order.LessTransitive | nscb_scrape.py:101 | the key order is transitive |
| Order.LessTotal | nscb_scrape.py:101 | any two distinct keys are ordered |
| Order.Sorted | nscb_scrape.py:100-101 | the sorted keys are strictly ascending and are exactly the dictionary's keys |
| Order.SortedUnique | nscb_scrape.py:101 | a strictly ascending listing of a key set is unique, so the order `keys()` hands out does not matter |
| Order.SortKeys | nscb_scrape.py:100-101 | `keys(); sort()` yields the sorted keys |
| Output.Columns | nscb_scrape.py:104-107 | each field padded with `%-Ns` to its width, single spaces between |
| Output.MuniLine | nscb_scrape.py:104-107 | the seven record fields, each but the last followed by a comma, at widths 50, 15, 50, 10, 15, 15, 25, and a newline |
| Output.BarangayLine | nscb_scrape.py:114-116 | the municipality name and the four barangay fields, each but the last followed by a comma, at widths 50, 50, 15, 15, 15, and a newline |
| Output.FieldAt | nscb_scrape.py:104-107 | every field appears in full at its offset in the formatted line: `%-Ns` never truncates |
| Output.AlignedColumns | nscb_scrape.py:104-107 | when every field fits its width, each field starts at a fixed column |
| Output.MuniLineLayout | nscb_scrape.py:104-107 | a municipality line starts with `name,`, and the code starts at column 51 when the name fits |
| Output.LineLengths | nscb_scrape.py:104-116 | when every field fits, a municipality line is 187 characters and a barangay line 150 |
| Output.ColumnsLength | nscb_scrape.py:104-107 | a line of fitting fields is as long as the widths plus one space between each pair |
| Output.LeadingIn | nscb_scrape.py:112-113 | the keys the inner loop gets through before the first one with no barangay behind it |
| Output.RenderKeys | nscb_scrape.py:102-117 | the write loop: each municipality line, then its barangays in sorted order; KeyError on a key with no entry, TypeError on an entry holding list-page fields after the barangays sorted before the first field |
| Output.Render | nscb_scrape.py:100-117 | the write loop over the sorted municipality keys |
| Output.RenderKeysComplete | nscb_scrape.py:102-117 | the write loop finishes exactly when every key has an entry of barangays only |
| Output.RenderKeysMuniText | nscb_scrape.py:102-108 | a finished write loop leaves one municipality line per key, in loop order |
| Output.RenderKeysRaises | nscb_scrape.py:110-116 | the loop raises at the first key without an entry of barangays only, after that municipality's line; TypeError exactly when the entry holds list-page fields, KeyError otherwise |
| Output.RenderComplete | nscb_scrape.py:100-117 | the output is complete exactly when every municipality has an entry of barangays only, with the lines in sorted key order |
| Output.WriteBarangayBlock | nscb_scrape.py:110-117 | a municipality's barangay lines are written in sorted barangay-key order |
| Output.WriteMixedBlock | nscb_scrape.py:110-116 | the inner loop over an entry holding list-page fields writes the barangay lines sorted before the first field name |
| Output.WriteLeading | nscb_scrape.py:112-117 | the inner loop writes a line per key until the first key that is not a barangay's |
| Output.WriteKeys | nscb_scrape.py:102-117 | the nested write loop computes the rendering specification, both exceptions included |
| Output.WriteOut | nscb_scrape.py:100-117 | the output step sorts the keys and renders the files |
| Output.RenderStops | nscb_scrape.py:110 | nothing is written after the exception |
| Output.TimestampString | nscb_scrape.py:87-88 | `'_%i-%i-%i__%i-%i-%i'` of month, day, year, hour, minute and second |
| Output.FileName | nscb_scrape.py:89-93 | the prefix, `'_%i_%i_'` of the page range, the timestamp string, and `.txt` |
| Output.FileNamesDiffer | nscb_scrape.py:92-93 | the two files of a run never share a name |
| Output.FileNameInjective | nscb_scrape.py:87-93 | the page range and the timestamp can be read back from a file name |
| Output.TimestampInjective | nscb_scrape.py:87-88 | different timestamps give different stamps |
| Scrape.DownloadMuniData | nscb_scrape.py:27-117 | a run stops in the list pass, stops in the detail pass, or writes the two named files rendered from both dictionaries |
| Scrape.OutputCompleteIff | nscb_scrape.py:110 | the output is written in full exactly when no municipality's name is blank and every municipality's detail page had a barangay table |
| Scrape.IntendedOutputCompleteIff | nscb_scrape.py:110 | with the intended detail pass, the output is written in full exactly when every detail page had a barangay table |
| Scrape.BarangaysUnderTheirMunicipality | nscb_scrape.py:75-79 | every stored barangay sits under a municipality from the list pass, carries its non-blank name, and has normalised fields |
| Scrape.BlankNameRunRaises | nscb_scrape.py:174 | a municipality with a blank name and a one-barangay page: as written the detail pass stores nothing and the write loop raises KeyError on it; the intended pass stores the barangay and the write loop finishes |

## Left out

- I/O: the HTTP client, opening, writing and closing the files, the progress prints, and the timings are not modelled. A fetched page comes from an attempt oracle, the timestamp is a parameter, and the files are strings.
- HTML parsing with BeautifulSoup is not modelled. A page is already a value: no page body, or tables of rows of cells, with each cell's text and the link of its first paragraph.
- Text is characters, and "ASCII" means a code below 128. The byte-level Python 2 `str`/`unicode` details are not modelled.
- A missing paragraph, anchor or `href` in `cells[0].p.a['href']` raises different Python exceptions; the model has one fault for all three, MissingLink.
- The partly filled record that the source leaves in the dictionary before a failing cell is not modelled. The uncaught exception ends the run before the dictionary is used again.
- Retry.FetchWithRetries: the source loop can run forever, but a method here must terminate. The model runs it over a finite attempt trace, and a trace that runs out while failing stands for a loop still running (`StillRetrying`).
- Crawl.DetailItems: `keys()` hands out the keys in an order the language does not fix. The method picks one order, and the top-level contract says only that some order of the keys gives the run (an existential).
- Crawl.DetailPhaseLocal: stated only when no municipality name is blank. A blank name sends a page down the list-page branch, whose rows can replace the entry of any key, so the result can then depend on the order of the keys.
- Scrape.DownloadMuniData: its contract is stated for some listing order of the keys, not a fixed one. The order also decides which attempts each municipality gets, because the network oracle is indexed by position. `Crawl.DetailPhaseLocal` and `Order.SortedUnique` show that the order changes neither dictionary nor output when no name is blank and each URL gets the same attempts wherever it falls in the order.
- Output.RenderKeys: an entry holding list-page fields raises TypeError at its first field name in sorted order. The barangay keys always contain a '-' and the field names never do, so the two never clash; the text of the exception is not modelled.
- The network oracle gives the attempts by the URL's position in its phase. Two URLs of one phase cannot share an oracle entry.
- Command-line option parsing and the earlier prototype `municp_utils.py` are not part of this model.

The model follows the code also where a cleaner design would behave differently:

- A short row or a missing link ends the run; it is not skipped.
- A page whose retry budget is spent is retried forever; it is not dropped.
- `first_page > last_page` gives no URLs; it is not an error.
- A municipality without barangay tables gets no slot, so the write loop raises KeyError at nscb_scrape.py:110.
- A municipality with a blank name has its detail page parsed as a list page (see Findings).
- The `name-code` key is not injective (`Records.KeyCollision`).

## Findings

| source | as written | input that shows it | evidently intended | confidence | as-written member | corrected member |
|---|---|---|---|---|---|---|
| nscb_scrape.py:174 | `if not muni_name:` picks the list-page branch for any falsy name, so a detail item whose municipality name is blank has its page parsed as a list page | a list row whose name cell is `" "`, with a link and code `"1"`, is stored under key `-1` with name `''`; its detail page has three header tables and one barangay table. The list-page branch finds no rows in table 1, stores nothing, and the write loop raises KeyError on `-1` | detail items (tuples) always take the barangay branch, as the branch comments say, e.g. by testing `isinstance(x, tuple)` | not executed | Scrape.BlankNameRunRaises | Scrape.IntendedOutputCompleteIff |

`Crawl.DetailPhase`, which `Scrape.DownloadMuniData` runs, follows the code as written. `Crawl.IntendedDetailPhase` is the pass with the branch test corrected. `Crawl.DetailPhaseAgrees` shows the two coincide when no name is blank, and `Scrape.OutputCompleteIff` states the as-written outcome for every input.
