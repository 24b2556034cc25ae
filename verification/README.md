# A verified model of factbook

factbook fetches reference data, checks it, indexes it and answers lookups from
it. This project models the parts of it that carry the risk and proves what they
promise.

* **Tables.** The byte-at-a-time CSV reader and the streaming JSON reader, both
  under a memory ceiling; the index built over their rows under the same ceiling;
  and queries that reach rows through the index instead of walking the table.
* **Lookups.** A cache in front of the open databases, with a refresh that swaps
  them while lookups run; the file check that decides when to refresh; and the
  bounded walk that keeps a record's unnamed fields.
* **Downloads.** The part file a transfer resumes, the batched writer behind it,
  the step that replaces the destination, and the cool-down that decides when a
  request may be sent at all.

Code that changes state step by step is a class or a method with loops, proved
against a function of the state; concurrency is a state machine whose runs are
all sequences of enabled steps.

| file | what it holds |
|---|---|
| `Basics.dfy`, `Rows.dfy`, `Order.dfy` | shared types, what a row costs, the order of texts |
| `Csv.dfy` | the reader as a function of its state, and the class that refines it |
| `CsvDocument.dfy`, `CsvPrint.dfy`, `CsvLines.dfy` | a grammar of CSV files, the round trip, and the line each refusal names |
| `CsvCeiling.dfy`, `CsvLimits.dfy`, `CsvTable.dfy`, `CsvBom.dfy` | the ceiling, the other limits, rows out of records, and the byte-order mark |
| `Json.dfy` | the streaming JSON reader against a two-pass reading |
| `Tables.dfy`, `IndexCost.dfy`, `Loading.dfy`, `Queries.dfy` | the index, what it costs, the load of either format under one ceiling, and queries against a full scan |
| `Enricher.dfy`, `Refresh.dfy`, `Extra.dfy`, `ExtraPaths.dfy` | the cache and the swap, the file check, the field walk and the paths it keeps fields under |
| `PartWriter.dfy`, `Transfer.dfy`, `Destination.dfy`, `Cooldown.dfy` | writing, resuming, replacing and waiting |

## Where the code and what is said of it part

* **Byte-order mark.** The mark is meant to be no part of the first field
  (`src/table/parse.rs:62-65`). It is dropped after the fields are read, so before
  a quoted first field, a blank line or the end of the file, or where the first
  field is as long as a field may be, it changes how the file reads.
  `CsvBom.BomIsTransparentExactly` gives the exact condition.
* **Clearing on a swap.** It is said to leave no window
  (`docs/architecture.md:93`). The clear drops the placeholder of a lookup that
  missed, and with it what that lookup would have filed; one that reads again what
  it found stale or expired has no placeholder to lose (`src/geoip/refresh.rs:462-463`).
  So a stale answer can reach a cleared cache exactly when a lookup that has loaded
  the replaced readers and not yet filed is reading again, or still has its
  placeholder (`Enricher.StaleOutlivesExactly`, with a run of it in
  `Enricher.StaleAnswerOutlivesTheClear`); the generation check is what keeps it
  from being served (`Enricher.NeverOlder`). Answers can also go back by one
  generation, exactly between the two stores of a swap and while an old answer is
  cached for the address or about to be filed (`Enricher.GoesBackExactly`, with a
  run of it in `Enricher.AnswersCanGoBack`).
* **A clock that goes backwards** is meant not to lock out a database
  (`src/geoip/download/cooldown.rs:82-84`). The cap bounds the wait that is
  reported, not how long requests are held back (`Cooldown.StampAheadLocksOut`),
  and what is held in memory is not capped at all
  (`Cooldown.SuppressionOutlastsTheLongestWait`).
* **A rate limit** is meant to last as long as the provider asks
  (`docs/architecture.md:79`). A 429 from the digest's URL is reported by its
  status alone, and so held as a permanent failure (`Cooldown.HeldAlike`). And a
  request that was out beside the one refused can cut the wait short
  (`Cooldown.RefusalHoldsEveryone`).
* **A kept field** is keyed by the path it sits at (`src/geoip/extra.rs:20-24`). That
  leads back to its value where keys have no dots, are not empty and do not repeat
  (`ExtraPaths.PathLeadsBack`, `ExtraPaths.PathsAreDistinct`); an empty key in front
  leaves no trace in it (`ExtraPaths.DottedExactly`).
* **The fallback** is never continued from what the primary left
  (`src/geoip/download/fetch.rs:521-523`). The other way about is not guarded
  (`Transfer.FallbackIsContinuedFromPrimary`): a left-over part file is continued
  rightly exactly when it is a beginning of the body it is continued from
  (`Transfer.ContinuedRightly`), and a splice is left to the digest or the
  container to catch.

## Model

| member | source | states |
|---|---|---|
| Csv.Reader.Charge | src/table/parse.rs:583-590 | The saturating 64-bit check refuses exactly when the exact cost of the records, the open record and the open bytes passes the ceiling |
| Csv.Reader.PushByte | src/table/parse.rs:596-606 | A byte is refused for the field's length before it is for memory, and otherwise joins the open field |
| Csv.Reader.CloseField | src/table/parse.rs:694-715 | Closing a field is refused for count, for its text, then for memory, in that order, with the running total equal to the exact one |
| Csv.Reader.CloseRecord | src/table/parse.rs:751-762 | The closed fields become a record at the line it began on, and its cost moves from the record's total to the held one |
| Csv.Reader.EndLine | src/table/parse.rs:718-728 | An ending counts a line, and ends a record only where one is open |
| Csv.Reader.Byte | src/table/parse.rs:609-683 | One byte takes the reader's whole state to the one the machine names, or refuses it with the same error |
| Csv.Reader.Close | src/table/parse.rs:731-745 | At the end of the file an unclosed quote is refused and an open record is filed |
| Csv.Records | src/table/parse.rs:461-478 | However the bytes are cut into pieces, the records, the charge and any refusal are those of the whole text read at once |
| Csv.RunPrefix | src/table/parse.rs:461-478 | A refusal partway through is the refusal of every longer input |
| Csv.RunKeepsConsistent | src/table/parse.rs:513-548 | Between any two bytes: a field or record under way is marked started, a CR just read means no record is open, and both limits hold |
| CsvCeiling.CeilingNeverChangesContent | src/table/parse.rs:583-606 | For every input and ceiling the read is either refused for the ceiling or is exactly the unbounded read: the same records, or the same error at the same line |
| CsvCeiling.PeakBound | src/table/parse.rs:583-606 | At every byte not yet refused, the records, the closed fields and the open field together cost at most the ceiling |
| CsvCeiling.RefusedExactlyWhenTooLarge | src/table/parse.rs:694-762 | A well-formed file is refused if and only if all its records together cost more than the ceiling |
| CsvDocument.EveryPrefixIsADocument | src/table/parse.rs:609-762 | After every prefix of every input the reader's whole state is the one the grammar gives that text, and what it refuses is no text of the grammar |
| CsvDocument.DocumentOfText | src/table/parse.rs:609-683 | The grammar is unambiguous: every document is recovered from its own bytes |
| CsvDocument.RoundTrip | src/table/parse.rs:609-762 | However rows are quoted, blank lines strewn and endings mixed, a written file reads back as its cells, each row at the line it starts on |
| CsvDocument.AcceptsOnlyDocuments | src/table/parse.rs:609-762 | Whatever the reader accepts is such a file, byte for byte, and its records are that file's |
| CsvPrint.PrintedReadsBack | src/table/parse.rs:609-762 | Any non-empty records, printed with quotes wherever section 2 of RFC 4180 has them and any endings, the last optional, read back exactly |
| CsvLines.EveryErrorNamesItsRecord | src/table/parse.rs:686-691 | A malformed file is refused at one plus the endings (a CRLF once) and the quoted LFs before the record it breaks in |
| CsvTable.ReadCsv | src/table/parse.rs:140-182 | Header and schema settle the names, every row is as wide as them, a cell is absent if and only if its field is empty and otherwise is its text, and the first row that is not so wide is refused at its line |
| CsvTable.ChargeCoversRows | src/table/parse.rs:461-478 | The charge handed on covers every row handed on, and is within the ceiling |
| CsvBom.BomIsTransparentExactly | src/table/parse.rs:480-489 | A marked file reads as the unmarked one if and only if text or a delimiter stands behind the mark and the bytes up to the first delimiter or ending leave room for it in a field |
| CsvBom.TransparentBeforeText | src/table/parse.rs:843-847 | Before ordinary text the mark leaves no trace in any record |
| CsvLimits.FieldLimit | src/table/parse.rs:596-606 | A field of 8388608 bytes reads, and one byte more is refused at its line |
| CsvLimits.WidthLimit | src/table/parse.rs:694-715 | A record of 4096 fields reads, and one of more is refused at its line |
| CsvLimits.ExampleReads | src/table/parse.rs:609-683 | By the bytes themselves: commas divide fields, a doubled quote in quotes is one, a CRLF is one ending, and the next record is at the next line |
| Order.Search | src/table/parse.rs:364-367 | Binary search finds a key that is there, and otherwise the one place that keeps the names sorted |
| Order.LessAtFirstDifference | src/table/parse.rs:364-367 | Names are ordered by their first differing byte, and one that ends first comes first |
| Json.WidenRows | src/table/parse.rs:376-380 | Every row already read gains one absent cell at the new column, and the charge grows by exactly what they now cost |
| Json.ReadElements | src/table/parse.rs:322-417 | The walk in place stops where the two-pass reading first refuses, and otherwise has its names, its rows and its charge |
| Json.ReadJson | src/table/parse.rs:190-217 | The streaming reader returns exactly what a two-pass reader would, and a table's columns are the keys of its objects in byte order, with a cell absent if and only if the key is missing, null or the empty string, and otherwise the string's own text or the value's JSON text |
| Json.EndingDecides | src/table/parse.rs:190-217 | Behind elements all taken, what breaks is refused for memory if it did not fit beside the rows and else as no array; no rows, then no names, are told before what trails; and any other document is a table |
| Json.KeyLimit | src/table/parse.rs:360-375 | An element that fits is refused for its keys if and only if it takes the document past 4096 |
| Json.ColumnsAreSorted | src/table/parse.rs:360-382 | Unstated names are strictly sorted and are exactly the keys of all objects |
| Json.ColumnsAreUnique | src/table/parse.rs:361-363 | Whatever order keys turn up in, the names come out the same |
| Json.CostGrows | src/table/parse.rs:376-397 | One more object never makes the table cheaper, the rows it widens included |
| Json.RefusedExactlyWhenTooLarge | src/table/parse.rs:322-397 | A document of objects is refused for memory if and only if its finished table costs more than the ceiling, or some element's text does not fit beside the rows before it |
| Json.MoreRoomSameTable | src/table/parse.rs:190-217 | A document that reads under one ceiling reads as the same columns, rows and charge under every larger one |
| Tables.PositionsExact | src/table/mod.rs:600-656 | A position list holds exactly the rows of its key, in strictly ascending order |
| Tables.BucketExact | src/table/mod.rs:600-656 | The list a text leads to is exactly the rows whose key the index cannot tell from it, so each row with a key is in one list and one without is in none |
| Tables.SlotsAddUp | src/table/mod.rs:600-666 | Over any list that names each key in use once, the rows in all the buckets, the rows unindexed and the rows without a key are as many as the rows |
| Tables.FiledSnoc | src/table/mod.rs:947-969 | Filing one more row changes the list of its own key and no other |
| Tables.Budget.Charge | src/table/mod.rs:927-936 | A charge passes exactly when the exact amount spent so far is within the ceiling |
| Tables.Budget.File | src/table/mod.rs:947-969 | A row joins its key's list for the text, list growth and bucket growth it costs, or the ceiling refuses it |
| Tables.IndexText | src/table/mod.rs:602-611 | Filing every row by text comes to the map of every key to its rows, and passes exactly when all of it is affordable |
| Tables.IndexAddresses | src/table/mod.rs:612-627 | The same by address, with the rows whose key is no address in a list of their own |
| Tables.IndexPrefixes | src/table/mod.rs:628-656 | The same by network, a repeated range keeping every row |
| Tables.FindKeyColumn | src/table/mod.rs:878-911 | By name the first column so named is picked; by address or network, the first conventionally named one if the first 64 rows hold only such keys there and at least one, else the first column that does, and none if and only if none does |
| IndexCost.TextIndexCosts | src/table/mod.rs:947-969 | What an index by text is charged depends on its keys and how many rows each has, not on their order: 8 bytes a position its lists ask for, each key's bytes, and 41 a bucket with an eighth of them empty |
| IndexCost.AddressIndexCosts | src/table/mod.rs:947-969 | By address the same, with 49 a bucket, no key bytes, and the list of unparsed rows |
| IndexCost.PrefixIndexCosts | src/table/mod.rs:628-656 | By network the same, with 160 a network |
| IndexCost.ColumnsCostIs | src/table/mod.rs:574-577 | Names are charged their own bytes and 24 each |
| Rows.RowsCostIs | src/table/parse.rs:426-433 | Rows are charged every byte of their texts, 16 a cell, absent ones too, and 32 a row |
| Tables.Build | src/table/mod.rs:563-675 | The step-by-step build returns exactly the table, or the refusal, that the rows and the ceiling determine, keyed by the column so picked, and has no key column only where there is none |
| Loading.ReadFile | src/table/parse.rs:107-117 | Either format is parsed to what the file parses as, and refused only when that is nothing |
| Loading.LoadFile | src/table/mod.rs:411-428 | Parsing and indexing under one ceiling finds the table there is, and fails only when there is none |
| Loading.LoadsUnderMore | src/table/mod.rs:411-428 | A file that loads under one ceiling, of either format, loads as the same table under every larger one |
| Loading.OneTable | src/table/mod.rs:411-428 | Under any two ceilings that admit it, a file of either format loads as the same table |
| Loading.LoadsExactlyWhenAffordable | src/table/mod.rs:563-656 | A file that loads at all loads under a ceiling if and only if rows, names and index together cost no more, and no JSON element's text is too much beside the rows before it |
| Loading.LoadedWithin | src/table/mod.rs:917-969 | What a loaded table holds, index included, is within the ceiling it was loaded under |
| Queries.ScanExact | src/table/query.rs:358-388 | The answer of a full scan is every row that meets every condition, ascending |
| Queries.ConditionsIntersect | src/table/query.rs:358-388 | Asking two sets of conditions at once is answered by the rows that answer both |
| Queries.NothingAskedFindsAll | src/table/query.rs:230-256 | With nothing asked every row is found, and with a column asked about that the table has not got none is |
| Queries.EqualityFinds | src/table/query.rs:370-379 | An equality on any column finds exactly the rows whose cell there is the value or the wildcard, byte for byte or with case folded |
| Queries.DatesFind | src/table/query.rs:380-386 | A date condition finds exactly the rows whose cell parses as a date within it, both ends included, and one between two dates what both halves find |
| Queries.WildcardIsNoDate | src/table/query.rs:380-386 | Where only dates are asked about, neither wildcard nor case changes what is found |
| Queries.SatisfiesIsAnswers | src/table/query.rs:358-388 | Testing a row by the resolved column positions is asking whether it meets every condition by name |
| Queries.NarrowCovers | src/table/query.rs:293-352 | Every row that answers is in one of the lists the index narrows to, wildcard and unparsed keys included |
| Queries.KeyListsAreTheAnswer | src/table/query.rs:293-325 | For an equality on the column of a text index, the lists it narrows to are the answer: the rows they hold, the rows found, and the rows whose key cell is the value or the wildcard are the same |
| Queries.NarrowAscends | src/table/query.rs:293-352 | The lists are three, ascending, and hold rows of the table alone |
| Queries.PoppedIsLeast | src/table/query.rs:417-434 | Popping takes the least position left from every list it heads, leaves exactly the others, and always shortens what remains |
| Queries.PendingExact | src/table/query.rs:417-442 | The positions a walk hands back are those left in it, each once, in file order, however its lists overlap |
| Queries.WalkIsScan | src/table/query.rs:464-474 | Testing a walk that covers the answers yields exactly the full scan |
| Queries.Matches.Find | src/table/query.rs:230-256 | What is found for any query, unknown columns and wildcards included, is what a full scan would find, in its order |
| Queries.Matches.Pop | src/table/query.rs:417-434 | Shrinking the lists in place takes the walk to the one behind its least position |
| Queries.Matches.Next | src/table/query.rs:464-474 | Each call hands back the first row still to come and leaves the rest; nothing is handed back only when none is left |
| Queries.Matches.SizeHintHolds | src/table/query.rs:478-480 | At every point of the iteration the upper bound is at least the number of rows still to come |
| Queries.Matches.RemainingCounts | src/table/query.rs:437-442 | That bound is the positions left to test, list by list |
| Enricher.TakeKeeps | src/geoip/enricher.rs:445-485 | Every step of every lookup, refresh and eviction keeps each entry a read of the readers its generation names, and at most one placeholder for an address, that of a lookup yet to file |
| Enricher.CacheIsGenuine | src/geoip/enricher.rs:316-325 | Over every interleaving the readers are at most one generation ahead, and each cached answer is a read of the set it names |
| Enricher.NeverOlder | src/geoip/enricher.rs:445-485 | A lookup begun after a generation was published answers from that one or a later, whatever stale entries reach the cache, and within the age limit |
| Enricher.UndisturbedIsExact | src/geoip/enricher.rs:492-520 | With no refresh from its beginning to its end, a lookup answers what the databases hold |
| Enricher.NeverStuck | src/geoip/enricher.rs:445-485 | In every reachable state a lookup not done can go on, unless it waits on a placeholder that stands and whose holder has yet to read, and then that holder can |
| Enricher.StepsInTurn | src/geoip/enricher.rs:445-485 | A lookup takes its steps in their turn: a hit only of what is cached, a placeholder only where nothing is cached or held, a wait only on one that stands, a hand-over only of what its holder read |
| Enricher.WaiterIsServed | src/geoip/enricher.rs:439-443 | A lookup that waits on one that has read ends with what that one read, still current, and reads nothing itself |
| Enricher.GoesBackOnlyMidSwap | src/geoip/enricher.rs:316-325 | Of two lookups in a row the second is at most one generation older, and only when the first ended between the two stores |
| Enricher.StaleOutlivesExactly | src/geoip/enricher.rs:306-325 | From any cleared state between swaps, a stale answer can reach the cache before the next swap if and only if some lookup has loaded or read the replaced readers, has yet to file, and either reads again what it found or still has its placeholder |
| Enricher.StaleAnswerOutlivesTheClear | src/geoip/refresh.rs:460-494 | For any databases and address, a run exists in which the new generation is published, the cache is cleared of everything, placeholders included, and a lookup that was reading again files an answer of the old databases after that |
| Enricher.GoesBackExactly | src/geoip/enricher.rs:316-325 | In every reachable state, a lookup of an address begun after another ended can answer from an older generation if and only if a swap is between its stores, the other answered from the new readers, and an old answer in time is cached, or about to be filed by a lookup that reads again or whose placeholder stands |
| Enricher.AnswersCanGoBack | src/geoip/enricher.rs:316-325 | For any databases and addresses, a run exists in which a lookup answers from the new ones and one begun after it from the old |
| Enricher.Inner.SwapReaders | src/geoip/enricher.rs:316-325 | A swap installs the readers, advances the generation by one, empties the cache, and is a run of the interleaved steps |
| Enricher.Inner.ClearCache | src/geoip/enricher.rs:551-554 | Dropping every cached answer is a run of the interleaved steps and changes no answer |
| Enricher.Inner.Miss | src/geoip/enricher.rs:561-576 | A miss stamps its answer with the generation of the very readers it read |
| Enricher.Inner.Lookup | src/geoip/enricher.rs:445-485 | Whatever the cache holds and drops, an answer is the reserved record or the read of the readers in place, and it is filed exactly when none of the published generation and in time was cached |
| Enricher.Inner.LookupMany | src/geoip/enricher.rs:528-530 | A batch is answered in the order asked, each as the databases answer it |
| Refresh.Source.Reopen | src/geoip/refresh.rs:115-132 | A time that cannot be read, or is the one recorded, reopens nothing; a failed reopen records nothing |
| Refresh.GeoIp.RefreshIfChanged | src/geoip/refresh.rs:63-107 | Each database is checked on its own, a failure of one does not hold back the other, and there is one swap exactly when something changed |
| Refresh.MappedPastTheCeiling | src/geoip/enricher.rs:879-894 | A file that opens is mapped if and only if it is longer than the ceiling or its length could not be read |
| Refresh.NeverOlderThanNoted | src/geoip/enricher.rs:850-867 | Replaced between any two steps, the file opened is never older than the time recorded |
| Refresh.UnchangedIsCurrent | src/geoip/refresh.rs:115-132 | With a fresh time for every replacement, a check that finds nothing changed leaves a reader of the very file it looked at |
| Refresh.Converges | src/geoip/refresh.rs:63-107 | A check of a file that stays put ends with a reader of that file, unless the file does not open |
| Refresh.FailureIsRetried | src/geoip/refresh.rs:127-131 | A failed reopen leaves reader and time, so the same file is tried again at the next check |
| Refresh.SameTimeIsMissed | src/geoip/refresh.rs:119-125 | While a file bears the recorded time, whatever it holds, no number of checks changes the reader or the time |
| Refresh.OutdatedExactlyAtTheSameTime | src/geoip/refresh.rs:119-125 | A check leaves a reader of other content in place, unreported, if and only if the file bears the recorded time |
| Refresh.SomeFileIsMissed | src/geoip/refresh.rs:119-125 | For any time and two contents, a run exists in which a file is opened, replaced by one of the same time, and the next check reports nothing changed |
| Refresh.OtherOrderNeverNotices | src/geoip/enricher.rs:854-857 | Reading the time after the file would leave a replaced file unnoticed for as long as it stays |
| Extra.Walk.Push | src/geoip/extra.rs:184-194 | A leaf that would pass the byte bound is dropped and ends the walk; any other is kept and charged |
| Extra.Walk.Visit | src/geoip/extra.rs:236-286 | Walking a record keeps what feeding its leaves one by one keeps, never pushes once full, and leaves the path as it was |
| Extra.Walk.VisitMap | src/geoip/extra.rs:290-310 | The same for the entries of a map, stopping early being no different from reading on |
| Extra.Walk.VisitSeq | src/geoip/extra.rs:312-335 | The same for the elements of a sequence, under their decimal indexes |
| Extra.KeptIsAPrefix | src/geoip/extra.rs:184-194 | The fields kept are a prefix of the depth-first leaves within both bounds, charged exactly, and full is said exactly when a bound stopped them |
| Extra.KeptIsMaximal | src/geoip/extra.rs:184-194 | No longer prefix of the leaves fits both bounds |
| Extra.KeptInNumbers | src/geoip/extra.rs:184-205 | At most 512 fields are kept, of at most 65536 bytes of paths, texts and byte strings; where leaves are left over the count is reached or the next would pass the bytes |
| Extra.UntypedInOrder | src/geoip/extra.rs:119-124 | Of the fields kept, exactly those not typed are handed on, in the order they were in |
| ExtraPaths.LeavesAreTheEnds | src/geoip/extra.rs:290-335 | The leaves are the values every way down the record ends at, each once, in depth-first order, each under its keys and indexes with one dot between each two, empty keys in front aside |
| ExtraPaths.DottedExactly | src/geoip/extra.rs:295-300 | A path is all its steps, dotted, if and only if it has one step at most or the first key is not empty |
| ExtraPaths.PathLeadsBack | src/geoip/extra.rs:20-24 | With keys not empty, without dots and not repeated, a path cut at its dots is its steps, each index in digits that spell it, and following those steps comes to its value alone |
| ExtraPaths.PathsAreDistinct | src/geoip/extra.rs:20-24 | Of such a record no two values are kept under one path |
| ExtraPaths.KeptLeadsBack | src/geoip/extra.rs:93-124 | Every field kept of any record is the value at the end of a way down it, under the path of that way |
| Extra.UndecodableExactlyWhenReached | src/geoip/extra.rs:103-112 | A record fails to decode if and only if what is broken in it comes while there is room for a leaf |
| Extra.Collect | src/geoip/extra.rs:103-124 | A record adds exactly its kept, untyped fields, in order; one that fails to decode adds none |
| Cooldown.CoolDowns.TimeHeld | src/geoip/download/cooldown.rs:117-138 | A permanent failure holds back its own configuration until its time, and is dropped by another's or once run out |
| Cooldown.CoolDowns.WaitFor | src/geoip/download/cooldown.rs:85-111 | A file waits exactly when it is held back or stamped ahead, and a stamp's wait is never reported past the longest |
| Cooldown.CoolDowns.Begin | src/geoip/download/cooldown.rs:147-177 | A permanent failure is held in memory, a refusal or rate limit stamped for its time where the stamp can be written, and anything else starts nothing |
| Cooldown.CoolDowns.Clear | src/geoip/download/cooldown.rs:180-189 | A download that passed forgets both |
| Cooldown.CoolDowns.Attempting | src/geoip/download/mod.rs:701-722 | A fetch runs exactly when its file is not cooling down, and what it ends in is what is remembered |
| Cooldown.EachFailureWaits | src/geoip/download/mod.rs:290-328 | Failure by failure, when the next request is sent: a fault of the configuration holds that one alone for 86400 seconds, bad content every one for 3600, a rate limit for what it names up to 86400 or else 3600, and the network, another process or the disk hold none |
| Cooldown.RateLimitLastsAsAsked | src/geoip/download/cooldown.rs:165-177 | Through any run after a 429 that names a wait, nothing else out, the next request under a configuration not held back is sent if and only if that many seconds are over, a day at most |
| Cooldown.RefusalLastsAnHour | src/geoip/download/cooldown.rs:165-177 | So after bad content, or a rate limit that names no wait, with an hour |
| Cooldown.OnlyTheSentEnds | src/geoip/download/mod.rs:701-722 | A request can end if and only if its asking was let through, and once |
| Cooldown.RefusalHoldsEveryone | src/geoip/download/cooldown.rs:147-189 | Through any run after a refusal or rate limit, by a clock that does not go back, a request for the file is let through early under some configuration if and only if one that was out beside it, before the wait is over, passes and the stamp is removed, or is refused for less long |
| Cooldown.AloneTheWaitIsExact | src/geoip/download/cooldown.rs:147-177 | With none out beside it, the next request is sent under any configuration if and only if the wait has passed, a day at most, and that configuration is not held back itself |
| Cooldown.PermanentHoldsItsConfiguration | src/geoip/download/cooldown.rs:117-189 | Through any run after a permanent failure, by a clock that does not go back, its configuration is set free within the day if and only if within it the process restarts, another configuration is tried, or a request that was out beside it passes or fails for good under another configuration |
| Cooldown.AloneTheFailureHolds | src/geoip/download/cooldown.rs:147-165 | With none out beside it, no request is sent under that configuration for a day, unless another is tried or the process restarts |
| Cooldown.PassingForgets | src/geoip/download/mod.rs:714-720 | After a download passed with none out beside it, and whatever befell other files since, the next request is sent under any configuration if and only if the stamp could be removed or holds nothing back |
| Cooldown.AnotherConfigurationForgets | src/geoip/download/cooldown.rs:117-126 | Asking under another configuration, even one turned away, lets the failed one ask again |
| Cooldown.StampAheadLocksOut | src/geoip/download/cooldown.rs:82-96 | After a refusal recorded at one time, a clock reading another still finds the file held back a longest wait later if and only if it has gone back by more than the wait falls short of the longest |
| Cooldown.SuppressionOutlastsTheLongestWait | src/geoip/download/cooldown.rs:117-126 | A held failure's wait is past the longest if and only if the clock reads less than when it was recorded |
| Cooldown.HeldAlike | src/geoip/download/fetch.rs:811-917 | A refused digest request is held as the body's would be if and only if its status is not 429, and reported as it unless a credential was sent and the status is 401 or 403 |
| PartWriters.PartWriter.Progress | src/geoip/download/fetch.rs:770-787 | Bytes landing in the background move from the batch to the file and lose nothing |
| PartWriters.PartWriter.Write | src/geoip/download/fetch.rs:749-755 | File, batch in flight and gathered bytes together stay what the file began with and every chunk given; a batch goes in flight exactly when 1048576 bytes are gathered |
| PartWriters.PartWriter.Send | src/geoip/download/fetch.rs:770-787 | The gathered bytes go in flight only once the last write has landed |
| PartWriters.PartWriter.Settle | src/geoip/download/fetch.rs:790-798 | A write that lands hands the file back whole; one that does not leaves a beginning of what was given; and which it is is what the wait came to |
| PartWriters.PartWriter.Finish | src/geoip/download/fetch.rs:758-767 | A finish that succeeds leaves the file equal to its first bytes and every chunk in order, flushed; one that fails had a write or the flush fail |
| Transfer.StreamFrom | src/geoip/download/fetch.rs:563-702 | Whatever a server sends, the part file is left as it was, removed, or holding the carried bytes and what arrived, as the outcome says; the file system or a cancellation is blamed only where it hindered, and a success had neither |
| Transfer.StreamTo | src/geoip/download/fetch.rs:529-558 | A range past the end of the body is asked for again from the start, with nothing carried |
| Transfer.StreamWithFallback | src/geoip/download/fetch.rs:497-525 | The fallback is asked on a 404 alone and from nothing |
| Transfer.ContinuedExactly | src/geoip/download/fetch.rs:529-558 | A left-over part file goes in front of what a 206 sends exactly when it is less than a day old and has a digest or a container to check it by; one that is not so is as good as none, and any other success replaces it |
| Transfer.NoSuccessIsReported | src/geoip/download/fetch.rs:588-593 | A status outside 200 to 299, and no other, leaves the part file and is reported as it stands |
| Transfer.FallbackFollowsNotFound | src/geoip/download/fetch.rs:497-525 | What comes of a download is the primary's end, or after a 404 from it the fallback's, begun from nothing |
| Transfer.AttemptKeeps | src/geoip/download/fetch.rs:529-702 | Against a server of one body, an attempt ended anyhow leaves no part file or a beginning of the body within the limit |
| Transfer.EveryRunResumes | src/geoip/download/fetch.rs:529-702 | So it stays through any run of failed, cancelled and crashed attempts |
| Transfer.SuccessIsTheBody | src/geoip/download/fetch.rs:682-702 | An attempt that succeeds against a declared length ends with the body, whatever attempts came before it |
| Transfer.UncheckableIsOneResponse | src/geoip/download/fetch.rs:852-862 | Against any servers, a raw transfer with no digest that succeeds ends with the bytes of one single response, whatever part file it found |
| Transfer.NeverPastTheLimit | src/geoip/download/fetch.rs:596-658 | Against any servers, the part file never passes the limit |
| Transfer.ContinuedRightly | src/geoip/download/fetch.rs:529-558 | Whatever left the part file, a success against a server of one body and a declared length ends with that body if and only if what was carried over is a beginning of it |
| Transfer.FallbackIsContinuedFromPrimary | src/geoip/download/fetch.rs:516-525 | For any two bytes that differ, a run exists in which the primary's tail is spliced onto what a cut-off fallback left |
| Destination.TakeKeeps | src/geoip/download/fetch.rs:359-477 | Every step of every transfer keeps one lock holder, its files as far along as it is, and every replacement proper |
| Destination.DestinationIsProper | src/geoip/download/fetch.rs:359-477 | Over every interleaving, cancellation and crash, the destination is its first bytes or exactly what one transfer carried over and sent, checked, unpacked and admitted against the copy it replaced |
| Destination.NothingBetweenCheckAndRename | src/geoip/download/fetch.rs:770-787 | While a transfer holds the lock, no step of another touches the part file, the staged file or the destination |
| Destination.WhatIsAdmittedCanBeInstalled | src/geoip/download/fetch.rs:359-477 | Whatever was there before, for any bytes that unpack to something admitted a run exists that ends with it installed, the lock free and no other file left |
| Destination.StopsWhere | src/geoip/download/fetch.rs:410-466 | A process can die anywhere and a transfer be cancelled exactly before the blocking step; neither touches a file, a death drops the lock and the write in flight, and a cancelled transfer's write goes on |
| Destination.GivesUpWhere | src/geoip/download/fetch.rs:424-437 | A failure ends a transfer while it streams or once it has fetched, and after a broken write only with the part file gone |
| Destination.UnlockedWriteSpoils | src/geoip/download/fetch.rs:414-416 | Did a write in flight not keep the lock, a run exists, digest or no digest, that installs one transfer's bytes with another's spliced behind them |
| Destination.Files.MaterialiseGuarded | src/geoip/download/fetch.rs:1020-1075 | The destination moves last, to unpacked bytes admitted against the copy they replace, and if and only if nothing failed before, the sync included |
| Destination.Files.Blocking | src/geoip/download/fetch.rs:453-466 | Whatever comes of it, nothing transferred or staged is left behind |

## Left out

- HTTP, TLS, gzip, tar, SHA-256 and the database format itself: responses are byte sequences, and digest, unpacking and reading an address are functions the proofs know nothing of.
- The parsers of addresses, ranges, dates and UTF-8, and case folding: functions of the text alone. A prefix index files a range under its network, and no more is assumed of that.
- Longest-prefix matching in an address lookup: it is the trie's own work.
- The JSON parser: the model begins at its elements, each with the bytes that parsing it took.
- Allocator rounding: how lists and maps grow is a function of how many entries they hold, and sizes are those of a 64-bit target.
- The buffers the batched writer reuses: which allocation a batch lives in changes nothing it writes.
- The cache's own eviction and coalescing: any entry or placeholder may go at any time; a lookup that waits is handed what the holder of the placeholder read, or asks anew once that placeholder is gone.
- Clocks, the file system and the network: what they answer is a parameter of each method, or a step of the state machine.
- Removing a file is taken to succeed where the source ignores its result, the stamp's removal aside.
- File systems without locks, changes under a memory map, and the durability of a rename across a power failure.
- Metrics, log lines and what has been announced; private address ranges, beyond that one predicate answers them; configuration, credentials and provider rows; the projection a query selects, which adds no condition.
- What makes a field typed, and what the guard admits: predicates of the field, and of the staged bytes and the copy they replace.
- Two databases appending to one record: the bounds of the field walk are those of one call.
- ExtraPaths.PathsAreDistinct: says nothing of keys with dots in them, because `{"a.b": 1, "a": {"b": 2}}` puts two values under one path in the source as well.
- Transfer.SuccessIsTheBody: says nothing of a response that declares no length, because one that ends early is then a success in the source as well.
