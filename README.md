# Tax-reform simulator core, in Dafny

This project models the computational core of a web dashboard. The dashboard simulates how Brazil's tax reform changes a company's tax burden. It reads an EFD-Contribuições bookkeeping file ("SPED") and compares two loads:

- today's load: PIS + COFINS + ICMS;
- the projected load under a year of the 2027–2033 transition: reduced ICMS + IBS + CBS.

The modules follow the repository's files:

- `SpedParser` (`services/spedParser.ts`): `parseSpedFile`. It reads the file line by line and keeps three identifiers (CNPJ):
  - the company's, from register 0000;
  - the goods branch's, from C010/0140;
  - the freight branch's, from D010.

  Every C100, C500, C600 and D100 line becomes a record that carries the identifier in force. `ParseSpedFile` is the imperative loop, with the same three variables and four lists. The body of one turn of the loop is the method `ReadLine`. Both are proved against a specification in two layers:
  - `ParseLines` is a fold of `Step` over the tokenized lines. It keeps the context and, per category, the fields of each detail line with the context in force.
  - `Decode` builds the records from what `ParseLines` kept.

  The structural properties are lemmas about `ParseLines`:
  - record counts;
  - order and origin of each record;
  - headers and the identifiers records carry;
  - unrelated registers are skipped.
- `Dashboard` (`components/Dashboard.tsx`): the lookup of the year's rates, and `calculateTotals` as a method with its three accumulation passes. It is proved equal to `TotalsOf`, a sum over all records. Lemmas show that the sum splits over categories and does not depend on record order.
- `MercadoriasPanel` (`components/MercadoriasPanel.tsx`): the goods panel's filter (direction and branch), `getMesAno`, and the per-document rows. Each row's columns add up to that document's share of the dashboard's goods totals (`RowMatchesDashboard`). The inbound and outbound panels together add up to the dashboard's goods total when every document's direction is 0 or 1 and the branch filter is "all" (`DirectionsPartition`).
- `TaxRatesManager` (`components/TaxRatesManager.tsx`):
  - `handleChange` is a function on the schedule.
  - The editor's state (`taxRates`, `updatingYear`) is the class `RatesEditor`. Its `HandleUpdate` looks up the year and records the upsert request and any alert in an event log.
- `Types`, `Constants` (`types.ts`, `constants.ts`): the record shapes, the default seven-year schedule and `INITIAL_YEAR`. Lemmas tie the schedule to the rate table's seed rows and constraints in `components/SqlSchemaView.tsx`.
- `Strings`, `Numbers`, `Wrappers`: the JavaScript built-ins the core relies on, modelled on values:
  - `split`;
  - `||` on strings;
  - `replace` with a string pattern;
  - `parseInt` and `parseFloat`, with `None` for `NaN`.

Money and percentages are exact `real`s. A field past the end of a line (JavaScript `undefined`) reads as `""`. The Supabase upsert's outcome is a parameter of `HandleUpdate`.

## Model

| member | source | states |
|---|---|---|
| Strings.Split | services/spedParser.ts:5 | A split always yields at least one piece, as `split` does |
| Strings.OrElse | services/spedParser.ts:26 | The JavaScript "or" of two strings is one of the two, and is empty exactly when both are |
| Strings.ReplaceFirst | services/spedParser.ts:38 | Replacing keeps the length of the text, and text without the pattern is unchanged |
| Strings.SplitPieces | services/spedParser.ts:18 | No piece of a split contains the separator, and a string without the separator splits into itself alone |
| Strings.JoinSplit | services/spedParser.ts:5 | Joining the pieces of a split with the separator gives back the original text: splitting loses nothing |
| Strings.SplitJoin | components/MercadoriasPanel.tsx:30 | Splitting separator-free parts that were joined by the separator gives back exactly those parts |
| Strings.SplitSeparated | components/MercadoriasPanel.tsx:29-31 | A text that contains the separator splits into at least two parts, so `parts[1]` exists |
| Strings.SplitFreePrefix | services/spedParser.ts:18 | A separator-free prefix joins the first piece; the remaining pieces are unchanged |
| Strings.ReplaceFirstAt | services/spedParser.ts:38 | `replace(',', '.')` turns only the first comma into a point; the text before and after it is unchanged |
| Numbers.ParseInt | services/spedParser.ts:37 | Empty text is not a number, and text that starts with a digit reads as a non-negative number |
| Numbers.ParseFloat | services/spedParser.ts:38 | Empty text is not a number, and text that starts with a digit reads as a non-negative number |
| Numbers.ParseIntDigits | services/spedParser.ts:37 | `parseInt` of a digit run followed by a non-digit is the value of the digits |
| Numbers.ParseFloatDecimal | services/spedParser.ts:38 | `parseFloat` of digits, a point and digits, followed by a non-digit, is the exact decimal value |
| Numbers.ParseFloatWhole | services/spedParser.ts:38 | `parseFloat` of a digit string is its integer value |
| Numbers.ParseFloatZero | services/spedParser.ts:38 | The fallback text `'0'` reads as 0 |
| Numbers.ParseFloatNotANumber | components/TaxRatesManager.tsx:31 | Empty text, or text that starts with no digit, sign, point or space, is not a number |
| Types.KeyedByYear | components/SqlSchemaView.tsx:56 | The primary key on the year: two positions holding the same year are the same position |
| Types.ValidSchedule | components/SqlSchemaView.tsx:56 | Keyed by year, with every year in 2027–2033 (plus this model's in-range rates); such a schedule has at most seven entries |
| Types.DistinctYearsBound | components/SqlSchemaView.tsx:56 | A schedule keyed by year whose years all lie in a given set has at most as many entries as the set |
| Constants.ScheduleYears | constants.ts:4-14 | The default schedule has seven entries, for consecutive years starting at `INITIAL_YEAR` (2027) |
| Constants.ScheduleValid | components/SqlSchemaView.tsx:56 | The default schedule has one entry per year, all in 2027–2033, with non-negative rates and a reduction of at most 100 |
| Constants.ScheduleNonDecreasing | constants.ts:4-12 | IBS, CBS and the ICMS reduction never decrease from one year to a later one |
| Constants.ScheduleMatchesSeed | components/SqlSchemaView.tsx:174-181 | The default schedule holds exactly the rows the schema script seeds into the rate table |
| SpedParser.RegisterOf | services/spedParser.ts:19-70 | A tag is unrecognised exactly when it is none of the eight register names the reader tests |
| SpedParser.TagNames | services/spedParser.ts:21-70 | Each register is recognised by exactly its own tag text, in both directions |
| SpedParser.Amount | services/spedParser.ts:38-42 | A missing or empty monetary field reads as 0 |
| SpedParser.AmountDecimalComma | services/spedParser.ts:38 | A field written with a decimal comma reads as the exact decimal value |
| SpedParser.DecimalCommaExample | services/spedParser.ts:38 | The field `1234,56` reads as 1234.56 |
| SpedParser.DirectionDigits | services/spedParser.ts:37 | A C100 or D100 direction field made of digits becomes that number |
| SpedParser.Field | services/spedParser.ts:36-37 | `p[i]` is field i when the line has it, and "" (for JavaScript's `undefined`) past the end |
| SpedParser.Tokenize | services/spedParser.ts:18-19 | A line's fields join back into the line, and a line whose field 1 names a register has at least two fields |
| SpedParser.GoodsId | services/spedParser.ts:35 | The identifier goods and energy records take (also at lines 48 and 60): the branch identifier when it is non-empty, the 0000 one otherwise |
| SpedParser.FreightId | services/spedParser.ts:72 | The identifier freight records take: the freight branch identifier when it is non-empty, the 0000 one otherwise |
| SpedParser.Emit | services/spedParser.ts:33-81 | A detail line appends one record to its own list; every list keeps what it had, and only the line's own list grows, by exactly one |
| SpedParser.C100Record | services/spedParser.ts:34-43 | A goods record carries the goods identifier in force and the date in field 10. A line cut short before field 12 carries no amounts |
| SpedParser.C500Record | services/spedParser.ts:47-55 | An energy record carries the goods identifier in force and the date in field 10. A line cut short before field 13 carries no amounts |
| SpedParser.C600Record | services/spedParser.ts:59-67 | An energy summary carries the goods identifier in force and the date in field 5. Its ICMS base and ICMS are always 0. A line cut short before field 7 carries no amounts |
| SpedParser.D100Record | services/spedParser.ts:71-80 | A freight record carries the freight identifier in force, not the goods one, and the date in field 10. A line cut short before field 13 carries no amounts |
| SpedParser.StepContext | services/spedParser.ts:21-31 | A 0000 line sets the company identifier. A C010/0140 line sets the goods branch, falling back to the company's. A D010 line sets the freight branch, with the same fallback. No line touches any other slot |
| SpedParser.Step | services/spedParser.ts:17-81 | An unrecognised line changes nothing. A non-header line keeps the context. A detail line adds exactly one record and any other line adds none |
| SpedParser.StepKeeps | services/spedParser.ts:33-81 | A detail line is appended to its own category only, with the context in force before it; every other category is unchanged |
| SpedParser.DecodeStep | services/spedParser.ts:33-81 | The records after a line are the records before it plus the one record that line builds with the context in force |
| SpedParser.ReadLine | services/spedParser.ts:18-81 | One turn of the loop moves the context as `StepContext` does and appends the records `Emit` appends |
| SpedParser.ParseSpedFile | services/spedParser.ts:4-85 | The loop's result equals the specification `Parse`. Each list has exactly one record per line of its register. C600 records never carry an ICMS base or value |
| SpedParser.ParseCounts | services/spedParser.ts:33-81 | Each of the four lists has exactly as many records as the file has lines of that register |
| SpedParser.LineCounts | services/spedParser.ts:33-81 | The number of decoded records of each category equals the count of lines of its register |
| SpedParser.C600HasNoIcms | services/spedParser.ts:63-64 | Every C600 record has a zero ICMS base and a zero ICMS value |
| SpedParser.SourceCount | services/spedParser.ts:33-81 | The entries kept for a detail register are exactly as many as that register's lines |
| SpedParser.ParseLines | services/spedParser.ts:17-82 | The loop as a fold of `Step` over the lines; it never keeps more entries than it has read lines |
| SpedParser.Parse | services/spedParser.ts:4-85 | The whole reading of a file, `Decode` of `ParseLines` over its lines; it never builds more records than the file has lines |
| SpedParser.ParsePrefix | services/spedParser.ts:33-81 | Reading more lines only appends: what a prefix produced stays, in the same order, at the head |
| SpedParser.SourceOrigin | services/spedParser.ts:33-81 | Entry j of a category comes from the line of that register with exactly j such lines before it, kept with the context in force before that line |
| SpedParser.C100Origin | services/spedParser.ts:33-44 | The j-th C100 record is the one built from the C100 line that has j C100 lines before it |
| SpedParser.SkipsOtherRegisters | services/spedParser.ts:17-81 | Lines of any other register leave the whole reader state unchanged |
| SpedParser.SameStateSameFuture | services/spedParser.ts:17-82 | The reader's whole memory is its context and records: two equal states stay equal after the same lines |
| SpedParser.DropOtherRegisters | services/spedParser.ts:17-81 | Removing unrecognised lines from anywhere in a file does not change the result |
| SpedParser.DetailsKeepContext | services/spedParser.ts:33-81 | Detail lines never move the context. Every record they add is kept with the context in force before them |
| SpedParser.DetailsCarryIdentifier | services/spedParser.ts:33-81 | After headers alone, every record from the following detail lines carries the goods or the freight identifier then in force |
| SpedParser.NoHeaderNoIdentifier | services/spedParser.ts:13-15 | With no header line, every record carries the empty identifier |
| SpedParser.RootHeaderIdentifier | services/spedParser.ts:21-23 | After only a 0000 line, every record carries the company identifier |
| SpedParser.BranchHeaderIdentifier | services/spedParser.ts:25-27 | After only a C010/0140 line with an identifier, goods and energy records carry it and freight records carry none |
| SpedParser.BranchFallsBackToRoot | services/spedParser.ts:26 | A C010/0140 line with an empty identifier after a 0000 line makes every record carry the company identifier |
| Dashboard.FindYear | components/TaxRatesManager.tsx:15 | The index found is the first entry for the year; nothing is found exactly when no entry has that year |
| Dashboard.SelectRate | components/Dashboard.tsx:13 | The rate used is an entry of the schedule. It is the first entry for the year when one exists, and the schedule's first entry otherwise |
| Dashboard.AbsentYearFallsBack | components/Dashboard.tsx:13 | A year with no entry gets the same rate as the schedule's first year |
| Dashboard.SelectKeyedRate | components/Dashboard.tsx:13 | In a schedule with one entry per year, the rate used for a listed year is that year's entry |
| Dashboard.DefaultScheduleSelection | components/Dashboard.tsx:13 | With the default schedule, each year in 2027–2033 uses its own entry and any other year uses 2027's |
| Dashboard.AddGoods | components/Dashboard.tsx:22-28 | The goods pass adds to each running total exactly the sum of the per-document loads |
| Dashboard.AddEnergy | components/Dashboard.tsx:31-37 | The energy pass adds to each running total exactly the sum of the per-document loads |
| Dashboard.ProjectedIcms | components/Dashboard.tsx:24 | Reduced ICMS is the unreduced share, (100 − reduction)/100, of today's ICMS |
| Dashboard.ProjectedIbs | components/Dashboard.tsx:25 | IBS on the value is never negative for a non-negative value and rate, and is 0 at a 0 rate |
| Dashboard.ProjectedCbs | components/Dashboard.tsx:26 | CBS on the value is never negative for a non-negative value and rate, and is 0 at a 0 rate |
| Dashboard.AddDocument | components/Dashboard.tsx:23-27 | One document's turn of a `forEach` pass adds its current load to the current sum and its projected load to the projected sum |
| Dashboard.SumOf | components/Dashboard.tsx:22-28 | The running `+=` total over documents: 0 for none, a document's own load for one |
| Dashboard.Load | components/Dashboard.tsx:23-27 | One document's current load (PIS + COFINS + ICMS) or projected load (reduced ICMS + IBS + CBS on the value). With non-negative amounts, rates and a reduction of at most 100, the load is never negative |
| Dashboard.TotalsOf | components/Dashboard.tsx:15-53 | No data gives zeros. Otherwise the current and projected totals are the loads summed over goods, C500, C600 and freight records, and the difference is projected minus current |
| Dashboard.SumNonNegative | components/Dashboard.tsx:22-46 | A total over documents whose amounts and rate are all in range is never negative |
| Dashboard.CalculateTotals | components/Dashboard.tsx:15-53 | The totals are the current and projected loads summed over all goods, energy and freight records, with the year's rate. No data gives zeros, and the difference is projected minus current |
| Dashboard.SumAppend | components/Dashboard.tsx:31 | The total over two concatenated lists is the sum of their totals |
| Dashboard.AllAmountsSums | components/Dashboard.tsx:22-46 | The overall total is the goods total plus the energy total plus the freight total |
| Dashboard.EnergySums | components/Dashboard.tsx:31 | The energy total is the C500 total plus the C600 total |
| Dashboard.SumPermutation | components/Dashboard.tsx:15-53 | Totals do not depend on the order of the records |
| Dashboard.EmptyTotals | components/Dashboard.tsx:16-52 | A file with no records totals zero, as the no-data case does |
| Dashboard.WorkedExample | components/Dashboard.tsx:23-27 | One document (1000 value, 100 ICMS, 10 PIS, 20 COFINS) weighs 130 now and 100 under the 2027 rates (90 ICMS, 1 IBS, 9 CBS) |
| Dashboard.ReducedIcmsBounds | components/Dashboard.tsx:24 | With a reduction between 0 and 100, projected ICMS lies between 0 and today's ICMS. It equals today's at 0 and is 0 at 100 |
| MercadoriasPanel.InitialView | components/MercadoriasPanel.tsx:13-14 | With the panel's starting filters (outbound, all branches) it shows exactly the outbound documents |
| MercadoriasPanel.Shown | components/MercadoriasPanel.tsx:21-23 | A shown document has the chosen direction, and the chosen branch unless the filter is "all"; a document with both is shown |
| MercadoriasPanel.Filtered | components/MercadoriasPanel.tsx:20-24 | A document is shown exactly when it is in the file, has the chosen direction and matches the branch filter ("all" matches every branch). Filtering never adds documents |
| MercadoriasPanel.FilteredAppend | components/MercadoriasPanel.tsx:20-24 | Filtering keeps the documents' order |
| MercadoriasPanel.UnreadDirectionHidden | components/MercadoriasPanel.tsx:21 | A document whose direction could not be read is never shown |
| MercadoriasPanel.DirectionsPartition | components/MercadoriasPanel.tsx:20-24 | When every document is inbound or outbound, the dashboard's goods total is the inbound panel's total plus the outbound panel's |
| MercadoriasPanel.RowMatchesDashboard | components/MercadoriasPanel.tsx:88-91 | A row's PIS/COFINS plus ICMS is the document's current load. Its projected ICMS, IBS and CBS add up to the document's projected load on the dashboard |
| MercadoriasPanel.Panel | components/MercadoriasPanel.tsx:16-102 | No data shows no table. Otherwise there is one row per filtered document, in order, each computed with the year's rate |
| MercadoriasPanel.RowOf | components/MercadoriasPanel.tsx:88-91 | One row's columns. With non-negative amounts and rates and a reduction of at most 100, projected ICMS lies between 0 and today's ICMS, and IBS and CBS are non-negative |
| MercadoriasPanel.MesAno | components/MercadoriasPanel.tsx:26-34 | The date shows as "-" exactly when it is shorter than 8 characters. A long enough date without `-` shows as seven characters with `/` in third place |
| MercadoriasPanel.MesAnoShort | components/MercadoriasPanel.tsx:27 | An empty date, or one shorter than 8 characters, shows as "-" |
| MercadoriasPanel.MesAnoCompact | components/MercadoriasPanel.tsx:33 | A DDMMYYYY date shows as MM/YYYY |
| MercadoriasPanel.MesAnoIso | components/MercadoriasPanel.tsx:29-31 | A YYYY-MM-DD date shows as MM/YYYY |
| TaxRatesManager.WithField | components/TaxRatesManager.tsx:32 | Setting one percentage field keeps the year and the other two fields |
| TaxRatesManager.ParsedInput | components/TaxRatesManager.tsx:31 | The stored value is the number read from the input when there is one, and 0 when the input is not a number |
| TaxRatesManager.ParsedInputNotANumber | components/TaxRatesManager.tsx:31 | Input that is not a number, such as an emptied cell, is stored as 0 |
| TaxRatesManager.ParsedInputDecimal | components/TaxRatesManager.tsx:31 | A decimal input is stored as its exact value |
| TaxRatesManager.HandleChange | components/TaxRatesManager.tsx:30-33 | Every entry keeps its position and year. Entries of other years are unchanged. Each entry of the edited year gets the parsed value in the edited field and keeps its other fields |
| TaxRatesManager.HandleChangeAbsent | components/TaxRatesManager.tsx:32 | Editing a year the schedule does not list changes nothing |
| TaxRatesManager.HandleChangeIdempotent | components/TaxRatesManager.tsx:30-33 | Applying the same edit twice is the same as applying it once |
| TaxRatesManager.HandleChangeKeepsSchedule | components/TaxRatesManager.tsx:32 | An edit keeps the schedule keyed by year. With an in-range value it also keeps the schedule valid |
| TaxRatesManager.HandleChangeSelected | components/TaxRatesManager.tsx:30-33 | After an edit, the dashboard's rate for that year is the old entry with the new value in the edited field |
| TaxRatesManager.RatesEditor.constructor | components/TaxRatesManager.tsx:12 | The editor starts with the given schedule, no year busy and nothing sent |
| TaxRatesManager.RatesEditor.Change | components/TaxRatesManager.tsx:30-33 | An edit replaces the schedule by `HandleChange` of it and touches nothing else |
| TaxRatesManager.RatesEditor.HandleUpdate | components/TaxRatesManager.tsx:14-28 | An unlisted year does nothing. Otherwise the year's entry is sent as an upsert while the year is marked busy, a failure adds an alert with the error message, and the busy marker is cleared. The schedule is never changed |

## Left out

- Rendering (JSX, charts, `toLocaleString`), React state hooks, routing, authentication, and the other panels (energy, freight, tenants, login, sidebar) are outside the modelled core.
- I/O and asynchrony: reading the uploaded file, and Supabase's `upsert`, `select` and `alert`. The upsert's outcome is a parameter, and `await` ordering is not modelled.
- Floating point: all amounts and rates are exact reals, so IEEE-754 rounding in sums and percentages is not modelled.
- SpedParser.Amount: a field that `parseFloat` cannot read (JavaScript `NaN`) is modelled as 0. The source stores `NaN`, and `NaN` would then poison the dashboard's sums.
- Numbers.ParseInt: the `0x` hexadecimal prefix is not modelled. Such text reads as 0 here, as the digits before the `x`.
- Numbers.ParseFloat: exponents (`1e3`), `Infinity` and non-ASCII white space are not modelled; they read as the longest plain decimal prefix.
- Types.SpedC100: `dtDoc` taken from a missing field is `undefined` in the source and `""` here. Its only consumer, `getMesAno`, shows both as "-".
- Types.ValidSchedule: the rate table checks only the primary key and the year range. Non-negative rates and a reduction of at most 100 are this model's own reading of the schedule's meaning.
- Dashboard.CalculateTotals: requires a non-empty schedule, which App.tsx guarantees (`App.tsx:25` starts from the default schedule and `App.tsx:91` replaces it only with non-empty data). The source would also survive an empty schedule when there is no data.
- Dashboard.CalculateTotals: the C500+C600 pass iterates over the concatenated list, as the source does. The three `forEach` passes are the helper methods `AddGoods` and `AddEnergy`, whose shared loop body is `AddDocument`.
- MercadoriasPanel.Panel: requires a non-empty schedule whenever there is data, for the same reason as `CalculateTotals`.
- SpedParser.ParseSpedFile: the body of the loop is the method `ReadLine`, called once per line. `parseSpedFile` itself is `async` and returns a promise; that wrapping is not modelled.
- TaxRatesManager.HandleChange: only the three percentage fields are modelled, because those are the only fields the editor's inputs pass (`TaxRatesManager.tsx:65`, `:77`, `:89`). Editing `year` through `handleChange` is not modelled.
- TaxRatesManager.RatesEditor.HandleUpdate: the asynchronous window, during which `updatingYear` is set while the request is in flight, appears only as the busy year recorded with the upsert and alert events.
