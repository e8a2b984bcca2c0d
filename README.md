# Milestone date sync — a Dafny model

`jira_clone.py` copies seven fixed milestone date fields ("PRD Due Date", "Start date",
"GA Estimated Date", …) from an engineering issue to a product-discovery (JPD) idea, or between
any two issues. This project models its sync core and proves properties of that model:

- the rate-limited **gateway** (`JiraClient`): pacing on a millisecond clock, the retry loop
  with exponential backoff, and fetch / update / search through that loop (`gateway.dfy`);
- the **field catalogue** (`FieldMapper`): the lazy field cache, grouping of the tracked
  custom fields by name, the primary-field choice, the static date↔string pair table
  `FIELD_MAPPINGS` and the per-issue field resolver (`field_catalog.dfy`);
- **date values** (`DateFieldProcessor`): cutting a date string before its time part, the JPD
  interval `{"start": "<d>", "end": "<d>"}` as `json.dumps` writes it (`json_text.dfy` holds the
  string escaping and a decoder for it), the JPD test and the extraction of populated dates
  (`date_values.dfy`);
- the **single-pair sync** (`_clone_fields_with_status`, `_execute_sync`,
  `_resolve_target_fields`, `_prepare_updates`) with its skipped / success / failed outcomes
  and the yes/no confirmation (`sync_engine.dfy`);
- **link discovery, project listing and the bulk run** (`find_linked_engineering_ticket`,
  `auto_sync_from_jpd`, `get_jpd_ideas_in_project`, `bulk_sync_project`) (`bulk_sync.dfy`);
- the text-table layout `create_table` (`text_table.dfy`);
- `common.dfy` holds the shared vocabulary (issues, field definitions, links, and `Outcome`,
  which stands for "returned a value or raised an exception with this message"), and
  `pytext.dfy` the Python string operations the code relies on (`strip`, ASCII `lower`, `in`,
  `split(c)[0]`, `startswith`).

The remote service is an oracle. `issueApi(key, n)`, `updateApi(key, id, value, n)` and
`searchApi(startAt, n)` give the outcome of the `n`-th attempt of a call, so the retry loop is
a function of the answers it sees (`Gateway.RetryFrom`). The field catalogue is a given
`Outcome<seq<FieldDef>>`. Python dicts that the code iterates are sequences in insertion order.
The client keeps a ghost log, `writes`, of the `issue.update` requests it has sent, one entry
per `update_issue_field` call that got past its fetch. Every operation states how it changes
that log and the clock `now`, so "a dry run writes nothing" and "each processed idea is
followed by its pause" are statements about the client's state.

An issue's fields are a map from id to value. `probeRaises` is the set of ids for which
`getattr(issue.fields, id, None)` raises `AttributeError`. With a default that only happens
when reading `issue.fields` itself fails, so every id then raises; the resolver lemmas cover
that case as well as the general one. Three behaviours of the code are modelled as written:

- A field id that is simply missing from an issue resolves to itself. The getattr default
  hides the absence.
- The pacing stamps `last_api_call` when the call starts, not when it ends.
- In the bulk run, the idea fetch made by `find_linked_engineering_ticket` sits outside the
  per-idea `try`. An exception there ends the whole run.

`json.dumps` writes `": "` and `", "` between the parts of the interval, and the model does too.
`TextTable.GridLinesSameLength` needs at least one header. With no headers the separator is
`++` while every row line is `|`.

## Model

| member | source | states |
|---|---|---|
| PyText.TrimStart | jira_clone.py:1100 | `lstrip`: the result is a suffix of the input, what was removed is whitespace, and the result does not start with whitespace |
| PyText.TrimEnd | jira_clone.py:1100 | `rstrip`: the result is a prefix, what was removed is whitespace, and the result does not end with whitespace |
| PyText.TrimStartPad | jira_clone.py:1100 | leading whitespace before a non-space character is all `lstrip` removes |
| PyText.TrimEndPad | jira_clone.py:1100 | trailing whitespace after a non-space character is all `rstrip` removes |
| PyText.StripPadded | jira_clone.py:1100 | stripping a word padded with whitespace on both sides gives the word back |
| PyText.Lower | jira_clone.py:261 | lower-casing keeps the length and maps every character through ASCII lower-case |
| PyText.Contains | jira_clone.py:264 | `sub in s` holds iff `sub` occurs at some position of `s` |
| PyText.OccursShift | jira_clone.py:264 | when `sub` does not occur at position 0, it occurs in `s` iff it occurs in `s[1..]` |
| PyText.PrefixBefore | jira_clone.py:381-384 | `s.split(c)[0]`: a prefix of `s` without `c`; it is shorter than `s` exactly when `c` occurs, and then `c` follows it |
| Gateway.Pow2 | jira_clone.py:270 | `2 ** attempt` is at least 1 |
| Gateway.RetryFromShape | jira_clone.py:253-277 | a retry run from any attempt makes at least one and at most the remaining invocations, ends with the outcome of its last invocation, and sleeps `1000 * 2^attempt` ms before each retry |
| Gateway.RetryBounded | jira_clone.py:256-258 | the wrapped call is invoked between 1 and 3 times, with at most two backoffs |
| Gateway.OtherErrorPropagates | jira_clone.py:262-275 | after rate limits on the earlier attempts, an error that is not a rate limit is returned as raised by the attempt that raised it, and nothing is retried after it |
| Gateway.ThirdRateLimitFailureReraised | jira_clone.py:267-277 | three rate-limit failures re-raise the third error after backoffs of 1 s and 2 s; the "Max retries" raise is never reached |
| Gateway.RateLimitedTwiceThenSucceeds | jira_clone.py:256-273 | two rate-limit failures and then a value give that value after three invocations and backoffs of 1 s and 2 s |
| Gateway.StatusCode429IsRateLimit | jira_clone.py:264-265 | any message containing "429" is a rate-limit error |
| Gateway.RetryAdvance | jira_clone.py:256-277 | one attempt of the loop: a retried rate-limit failure adds its backoff and moves on to the next attempt, and any other outcome is the result of the whole call |
| Gateway.JiraClient.constructor | jira_clone.py:241-244 | a new client has never called the remote service (`last_api_call = 0`) and has sent no update |
| Gateway.JiraClient.Sleep | jira_clone.py:249 | sleeping advances the clock by exactly the time asked for and changes nothing else |
| Gateway.JiraClient.RateLimitDelay | jira_clone.py:246-251 | waits `min_delay - elapsed` when less than 200 ms have passed since the last call, else not at all, then stamps the call time; successive calls are at least 200 ms apart; no update is sent |
| Gateway.JiraClient.ApiCallWithRetry | jira_clone.py:253-277 | the outcome, the number of invocations and the backoffs are those of the retry run over the oracle's answers; every invocation is paced; the clock advances by at least the sum of the backoffs it slept |
| Gateway.JiraClient.GetIssue | jira_clone.py:284-286 | the issue fetch is the retried `issue` call; it sends no update and the clock never goes back |
| Gateway.JiraClient.SearchIssues | jira_clone.py:298-300 | the search is the retried `search_issues` call; it sends no update and the clock never goes back |
| Gateway.JiraClient.UpdateIssueField | jira_clone.py:288-296 | True exactly when the retried fetch found the issue and the retried update returned; any exception yields False; the write log grows by this one update exactly when the fetch found the issue, and is unchanged otherwise |
| FieldCatalog.FieldPairsInvolution | jira_clone.py:45-60 | the pair table maps every key to another key whose partner is the first key again, and never to itself |
| FieldCatalog.ListedIsMembership | jira_clone.py:40-43 | the lazy scan of `TARGET_DATE_FIELDS` is list membership |
| FieldCatalog.CandidatesComplete | jira_clone.py:323-332 | every custom field with a tracked name is among the candidates grouped under that name |
| FieldCatalog.CandidatesSound | jira_clone.py:323-332 | every candidate under a name comes from a custom field of the catalogue with that name |
| FieldCatalog.CandidatesNonEmpty | jira_clone.py:323-332 | a name has candidates iff some custom catalogue field carries it |
| FieldCatalog.TrackedNames | jira_clone.py:323-332 | the grouped names are exactly the names that have candidates |
| FieldCatalog.TrackedNamesDistinct | jira_clone.py:326-328 | each grouped name appears once, in order of first occurrence |
| FieldCatalog.FirstDateCandidate | jira_clone.py:336 | the date-typed candidates are those of type date or datetime, in catalogue order |
| FieldCatalog.PrimaryChoice | jira_clone.py:336-337 | the primary is the first date-typed candidate when there is one, else the first candidate |
| FieldCatalog.OtherIdsMembers | jira_clone.py:342 | the alternatives are exactly the candidate ids that differ from the primary id |
| FieldCatalog.EntriesFor | jira_clone.py:335-343 | one mapping entry per grouped name, built from that name's candidates |
| FieldCatalog.NamesOf | jira_clone.py:339 | the names of the mapping entries, in order |
| FieldCatalog.MappingNamesDistinct | jira_clone.py:334-344 | the mapping's names are the grouped names, without repetition |
| FieldCatalog.MappingHasNameIff | jira_clone.py:316-344 | a name has an entry iff it is tracked and some custom catalogue field carries it |
| FieldCatalog.MappingSizeBound | jira_clone.py:316-344 | the mapping has at most seven entries |
| FieldCatalog.PrimaryPrefersDate | jira_clone.py:335-343 | every entry's primary is a candidate for its name, date-typed whenever some candidate is, and absent from its alternatives |
| FieldCatalog.TrackStep | jira_clone.py:323-332 | one more catalogue field changes the candidates of its own name only, and adds that name to the order when it is new |
| FieldCatalog.GroupSkip | jira_clone.py:324 | an untracked field leaves the grouping as it was |
| FieldCatalog.GroupAppend | jira_clone.py:330-332 | a field whose name is already grouped is appended to that name's candidates |
| FieldCatalog.GroupInsert | jira_clone.py:326-332 | a field with a new tracked name starts a new group at the end of the order |
| FieldCatalog.GroupByName | jira_clone.py:322-332 | the grouping loop yields the grouped names in order, with each name's candidates |
| FieldCatalog.BuildFieldMapping | jira_clone.py:316-344 | the mapping loop yields the mapping that the catalogue determines |
| FieldCatalog.FieldMapper.constructor | jira_clone.py:305-307 | a new mapper has an empty cache |
| FieldCatalog.FieldMapper.AllFields | jira_clone.py:309-314 | a filled cache is returned as is; otherwise the remote catalogue is returned and cached when the call succeeds |
| FieldCatalog.FieldMapper.GetFieldMapping | jira_clone.py:316-344 | the mapping of the cached or fetched catalogue; a failed fetch raises and leaves the cache empty |
| FieldCatalog.ResolveFieldForIssue | jira_clone.py:346-364 | the id itself when its probe does not raise; otherwise its pair partner when that one's probe does not raise; otherwise None; an id returned never raises |
| FieldCatalog.ResolverFallsBackToPartner | jira_clone.py:355-361 | a raising id whose partner does not raise resolves to the partner, whose partner is the id again |
| FieldCatalog.AbsentFieldResolvesToItself | jira_clone.py:348-352 | a field the issue does not have still resolves to itself |
| FieldCatalog.UniformProbeNeverUsesPartner | jira_clone.py:346-364 | when an id and its partner raise alike, which is what getattr with a default gives, the resolver returns the id or None, never the partner |
| JsonText.HexDigit | jira_clone.py:391 | every hex digit that is written reads back as its value |
| JsonText.HexValue | jira_clone.py:391 | a character that reads as a hex digit has a value below 16 |
| JsonText.Hex4 | jira_clone.py:391 | four hex digits that read back as the code unit |
| JsonText.ParseHex4 | jira_clone.py:391 | four hex digits read as a value below 0x10000 |
| JsonText.UnicodeEscape | jira_clone.py:391 | a `\uXXXX` escape is six characters |
| JsonText.EscapeChar | jira_clone.py:391 | an escaped character is never empty and never starts with a quote |
| JsonText.EscapeCharPrintable | jira_clone.py:391 | with `ensure_ascii` every escaped character is printable ASCII |
| JsonText.Escape | jira_clone.py:391 | with `ensure_ascii` every character of an escaped string is printable ASCII |
| JsonText.ScanString | jira_clone.py:391 | the decoder stops at an unescaped closing quote |
| JsonText.Then | jira_clone.py:391 | a decoded character in front of the rest of a string is decoded in front of the rest's result |
| JsonText.ScanShortEscape | jira_clone.py:391 | a two-character escape (`\"`, `\\`, `\n`, …) decodes to its character |
| JsonText.ScanPrintable | jira_clone.py:391 | a printable ASCII character is written as itself and decodes back |
| JsonText.ScanBmpEscape | jira_clone.py:391 | any other character below 0x10000 is a `\uXXXX` escape and decodes back |
| JsonText.ScanPairText | jira_clone.py:391 | two escapes forming a high and a low surrogate decode as the one character they encode |
| JsonText.SurrogateEscape | jira_clone.py:391 | a character above U+FFFF is written as the escapes of its high and low surrogates, which recombine to it |
| JsonText.ScanSurrogatePair | jira_clone.py:391 | a character above 0xFFFF is a surrogate-pair escape and decodes back |
| JsonText.ScanEscapeChar | jira_clone.py:391 | every escaped character decodes back to itself |
| JsonText.ScanEscape | jira_clone.py:391 | an escaped string followed by a quote decodes back to the string |
| JsonText.QuoteRoundTrip | jira_clone.py:391 | a quoted JSON string decodes back to the original string, whatever follows it |
| DateValues.FormatDateString | jira_clone.py:378-386 | the result is a prefix of the input: cut before the first `T` if there is one, else before the first space, else the whole input |
| DateValues.FormatDateKeepsDate | jira_clone.py:378-386 | a date followed by `T…` or by a space and a time gives the date; a plain date is unchanged |
| DateValues.CutAtSeparator | jira_clone.py:382-384 | splitting at a separator that the date does not contain gives the date |
| DateValues.FormatForJpd | jira_clone.py:388-391 | the JPD value reads back as an interval whose start and end are both the normalised date |
| DateValues.ReadQuoted | jira_clone.py:391 | a key prefix followed by a quoted string reads back as that string |
| DateValues.QuoteSplit | jira_clone.py:391 | a quoted string is an opening quote, the escaped text and a closing quote |
| DateValues.IntervalRoundTrip | jira_clone.py:391 | any start and end strings written as `{"start": …, "end": …}` read back as themselves |
| DateValues.EscapePlain | jira_clone.py:391 | printable text without quote or backslash is written unescaped |
| DateValues.PlainDateInterval | jira_clone.py:388-391 | for an ordinary date, the JPD value is literally `{"start": "d", "end": "d"}` |
| DateValues.PopulatedRaisesIff | jira_clone.py:393-404 | extraction raises iff reading some mapped primary id raises |
| DateValues.PopulatedExactly | jira_clone.py:393-404 | the extracted fields are exactly the mapping names whose primary value is truthy, each carrying that value and the entry's primary id and type |
| DateValues.PrependTwice | jira_clone.py:396-403 | collecting two batches of found fields one after the other is collecting them together |
| DateValues.ExtractPopulatedFields | jira_clone.py:393-404 | the extraction loop yields the populated fields that the issue and the mapping determine |
| SyncEngine.ConfirmationIgnoresPaddingAndCase | jira_clone.py:1100-1101 | a confirmation padded with whitespace is judged on the word alone |
| SyncEngine.BlankResponseDeclines | jira_clone.py:1100-1101 | an empty or blank answer declines the sync |
| SyncEngine.AcceptedAnswerShape | jira_clone.py:1100-1101 | an accepted answer strips to one or three letters, `y` or `yes` in any case |
| SyncEngine.LookupEntry | jira_clone.py:1171-1175 | finds the mapping entry with the given name, and None exactly when no entry has it |
| SyncEngine.FirstResolvedIsFirst | jira_clone.py:1179-1182 | the alternative scan returns the resolution of the first alternative that resolves, and every earlier one does not resolve |
| SyncEngine.TargetIdFor | jira_clone.py:1175-1189 | a resolved target id is nonempty and its probe does not raise |
| SyncEngine.JpdPrefersAlternatives | jira_clone.py:1177-1186 | on a JPD target an alternative that resolves wins over the primary |
| SyncEngine.NonJpdUsesPrimary | jira_clone.py:1185-1186 | on any other target only the primary is tried, and a falsy resolution gives None |
| SyncEngine.TargetOf | jira_clone.py:1171-1189 | a field gets a target id only when its name has a mapping entry; the id is nonempty and its probe does not raise |
| SyncEngine.CompatibleComplete | jira_clone.py:1166-1191 | every populated field with a target id is kept, paired with that id |
| SyncEngine.CompatibleSound | jira_clone.py:1166-1191 | every kept field is a populated field, unchanged, paired with its own target id |
| SyncEngine.CompatibleNamesAreMapped | jira_clone.py:1171-1173 | names missing from the mapping are dropped |
| SyncEngine.ResolveAlternatives | jira_clone.py:1179-1182 | the alternative loop returns the first resolved id, or a falsy id when none resolves |
| SyncEngine.ResolveTarget | jira_clone.py:1175-1186 | the alternatives (on a JPD target) and then the primary give the entry's target id, or a falsy id when it has none |
| SyncEngine.ResolveTargetFields | jira_clone.py:1166-1191 | the resolution loop yields the compatible fields |
| SyncEngine.UpdateFor | jira_clone.py:1197-1206 | an update keeps the field's name and target id; for a JPD target its value reads back as the interval of the normalised date, otherwise it is the raw value |
| SyncEngine.UpdatesFor | jira_clone.py:1193-1208 | the prepared updates, position by position the update of each compatible field |
| SyncEngine.PrepareUpdates | jira_clone.py:1193-1208 | one update per compatible field, in order |
| SyncEngine.SomeAcceptedSnoc | jira_clone.py:1139-1144 | some update of a longer batch is accepted iff one of the earlier ones is or the new one is |
| SyncEngine.ExecuteSync | jira_clone.py:1123-1164 | the updates sent are exactly the prepared ones, in order, and the client's write log grows by exactly their requests on the target (when its re-fetch finds it); the sync succeeds iff at least one update is accepted, and fails with no compatible field |
| SyncEngine.GatherReady | jira_clone.py:1015-1052 | a pair ready to sync had both issues and the mapping read, and a nonempty list of populated dates, each from a mapping entry whose primary value on the source is truthy |
| SyncEngine.GatherSkipsIff | jira_clone.py:1019-1032 | the pair is skipped iff an issue is missing, or no date is populated while nothing raised |
| SyncEngine.GatherPair | jira_clone.py:1015-1052 | the checks before the decision give exactly the gathered outcome of the two fetches and the cached or fetched mapping, and the cache only ever comes to hold the catalogue; they send no update |
| SyncEngine.PairOutcomeStatus | jira_clone.py:1007-1121 | the flag is True exactly with status 'success'; the status is 'failed' exactly when the sync went ahead and no prepared update was accepted, and 'skipped' exactly when an issue was missing, nothing was populated or the confirmation was declined; only a raise while gathering raises |
| SyncEngine.PairWritesOnlyWhenGoingAhead | jira_clone.py:1054-1121 | the pair sync sends updates only when it goes ahead, so a dry run, a skip and a declined confirmation send none; once it goes ahead and the target is found again, the requests are the prepared updates, in order, on the target |
| SyncEngine.NothingCompatibleFails | jira_clone.py:1123-1132 | a sync that goes ahead with no compatible field writes nothing and returns (False, 'failed') |
| SyncEngine.CloneFieldsWithStatus | jira_clone.py:1007-1121 | the result is the pair outcome of what was gathered: a raise propagates, a missing issue or nothing populated is (False, 'skipped'), a dry run is (True, 'success') with no write, a declined confirmation is (False, 'skipped'), and otherwise exactly the prepared updates are written and the result is (True, 'success') if one was accepted, else (False, 'failed'); the client's write log grows by exactly the pair's update requests, so a dry run leaves it unchanged; the field mapping it sees is unchanged after it |
| SyncEngine.CloneFields | jira_clone.py:998-1005 | the success flag of the status variant: a raise propagates, skips and declines give False, a dry run gives True, and a sync that goes ahead gives True iff some prepared update was accepted; the write log grows by the pair's update requests, none on a dry run |
| BulkSync.LinkedKey | jira_clone.py:639-645 | the outward key when that side is present, else the inward key |
| BulkSync.FirstEngineeringLink | jira_clone.py:637-650 | a key found is nonempty and does not start with `IDEA-` |
| BulkSync.FirstEngineeringLinkIsFirst | jira_clone.py:637-650 | the key found is that of the first link leading to an engineering key, and no earlier link does |
| BulkSync.OutwardSideShadowsInward | jira_clone.py:642-645 | a link whose outward side is present but not an engineering key is passed over, whatever its inward side holds |
| BulkSync.FindLinkedEngineeringTicket | jira_clone.py:624-653 | a raising fetch propagates; a missing issue or one that is not an idea gives None; otherwise the first engineering link; no update is sent |
| BulkSync.AutoSyncFromJpd | jira_clone.py:881-909 | a raising fetch of the idea propagates; no linked ticket gives False; otherwise the sync from that ticket onto the idea without dry run: a raise propagates, a skip or a declined confirmation gives False, and a sync that goes ahead gives True iff some prepared update was accepted; the write log grows by exactly that sync's update requests, and not at all without a ticket |
| BulkSync.PaginateStops | jira_clone.py:666-692 | the listing makes at least one search, stops at a page that raises or is short, and every earlier page was full |
| BulkSync.PaginateKeys | jira_clone.py:655-699 | the listing raises iff its last page raised; otherwise it is the keys of the searched pages in page order |
| BulkSync.PaginateIndependent | jira_clone.py:666-692 | the listing does not depend on which end page bounds it |
| BulkSync.ThreePages | jira_clone.py:655-699 | pages of 50, 50 and 17 keys take three searches and give the 117 keys in order |
| BulkSync.ResumeFullPage | jira_clone.py:680-692 | after a full page the listing goes on at the next page with that page's keys gathered |
| BulkSync.ResumeLastPage | jira_clone.py:676-688 | a short page ends the listing with what was gathered plus that page |
| BulkSync.GetJpdIdeasInProject | jira_clone.py:655-699 | the pagination loop returns the listed keys, or none when a search raised, after the number of searches the listing takes; it sends no update and pauses after every search but the last |
| BulkSync.ItemDelayGrowsToCap | jira_clone.py:781 | without dry run the pause after each idea lies between 310 ms and one second, never shrinks, and is one second from the 70th idea on; a dry run pauses 100 ms |
| BulkSync.TallyKeepsBalance | jira_clone.py:751-777 | booking one more synced idea keeps the counters balanced |
| BulkSync.TallyKeepsDetails | jira_clone.py:751-775 | booking a synced idea adds at most one detail, about that idea and naming its engineering ticket |
| BulkSync.TallyNoLinkKeepsDetails | jira_clone.py:742-746 | booking an idea without ticket adds a `no_link` detail about it with no ticket |
| BulkSync.EventOf | jira_clone.py:740-752 | what happens to one idea: a raising lookup comes from fetching it, and a sync names an engineering ticket, an outcome whose flag is True exactly with status 'success', and the update requests it sent, none on a dry run |
| BulkSync.EventsOf | jira_clone.py:733-752 | the events of the listed ideas in order, the `k`-th answering the prompt with `responses(k + 1)` |
| BulkSync.BulkFromRaises | jira_clone.py:733-746 | the run raises only with the message of a raising lookup of one of the remaining ideas |
| BulkSync.BulkFromBalanced | jira_clone.py:733-777 | a run that ends has every idea without link or processed, each processed idea in one bucket (none failed on a dry run) and one detail per counted idea |
| BulkSync.BookKeepsDetails | jira_clone.py:740-775 | booking one of the ideas keeps every detail about one of them and well formed |
| BulkSync.BulkFromKeepsSuccesses | jira_clone.py:753-755 | a run never lowers the successful count |
| BulkSync.SyncedIdeaCounts | jira_clone.py:753-755 | an idea whose sync succeeds makes a run that ends report at least one success |
| BulkSync.RunWritesNone | jira_clone.py:733-782 | when no idea's sync sends anything, the run sends no update request |
| BulkSync.DryRunWritesNothing | jira_clone.py:733-782 | a dry bulk run sends no update request, whatever the ideas and answers |
| BulkSync.RunPausesAfterEachSync | jira_clone.py:779-781 | every idea the run reaches whose ticket was found is followed by its own item delay |
| BulkSync.BulkSyncProject | jira_clone.py:701-798 | no ideas gives False with nothing counted; otherwise the result is the bookkeeping of the events of the listed ideas, each booked by its ticket lookup and its sync outcome: a raising lookup ends the run with its exception, and otherwise `successful > 0` is returned with the counters balanced and the details about the ideas; the write log grows by exactly the run's update requests, so a dry run leaves it unchanged, and the clock advances by at least the item delays |
| BulkSync.BookAll | jira_clone.py:733-782 | the loop over the ideas returns the bookkeeping of their events, and the details stay about the ideas; the write log grows by exactly the run's update requests (none on a dry run), and the clock advances by at least the item delay of every idea whose ticket was found |
| BulkSync.ProcessIdea | jira_clone.py:740-782 | one pass books the idea by its event: the ticket lookup, then the pair sync from the ticket with the field mapping unchanged; the write log grows by that sync's requests, and when a ticket was found the clock advances by at least the item delay for its position |
| TextTable.Repeat | jira_clone.py:192 | `c * n` is `n` copies of `c` |
| TextTable.LJust | jira_clone.py:205 | `ljust` keeps the text and pads it with spaces up to the width |
| TextTable.HeaderWidths | jira_clone.py:185 | the starting widths are the header lengths |
| TextTable.Widen | jira_clone.py:186-189 | one row widens each column to its cell there, and ignores cells beyond the columns |
| TextTable.WidthsAfter | jira_clone.py:186-189 | widening by all rows keeps the number of columns |
| TextTable.WidthsAfterCovers | jira_clone.py:184-189 | no column narrows, and each ends at least as wide as every cell in it |
| TextTable.WidthsAfterAttained | jira_clone.py:184-189 | each final width is the start width or the length of one of the column's cells |
| TextTable.WidthsAfterIsMax | jira_clone.py:184-189 | each final width is at least every cell in its column and equals the start width or one of those cells |
| TextTable.WidenInPlace | jira_clone.py:187-189 | the inner width loop widens the array by one row |
| TextTable.ColumnWidths | jira_clone.py:184-189 | the width loop yields the column maxima |
| TextTable.SeparatorLength | jira_clone.py:192 | the separator is one character longer than the columns' span |
| TextTable.DashesLength | jira_clone.py:192 | the dashes are one character shorter than the span |
| TextTable.RowLineLength | jira_clone.py:203-206 | a row with one fitting cell per column is as long as the separator |
| TextTable.CellsLength | jira_clone.py:203-206 | the cells after the leading bar take the span |
| TextTable.RowLines | jira_clone.py:210-215 | one line per data row |
| TextTable.RowLinesAt | jira_clone.py:210-215 | the line of each row is that row formatted |
| TextTable.GridLines | jira_clone.py:200-217 | the grid is the rows plus three separators and the header row |
| TextTable.GridLinesSameLength | jira_clone.py:179-218 | with at least one header and one cell per header in every row, all grid lines have the same length |
| TextTable.HeaderCellJustified | jira_clone.py:203-206 | the first header cell is the header left-justified to its column width |
| TextTable.FormatRow | jira_clone.py:203-206 | the row loop builds the formatted row line |
| TextTable.AppendRowLines | jira_clone.py:210-215 | the data-row loop appends each row's line in order |
| TextTable.GridOf | jira_clone.py:200-217 | separator, header, separator, rows and a final separator |
| TextTable.CreateTable | jira_clone.py:179-218 | "No data to display" without rows; otherwise the title lines and the grid joined with newlines |

## Left out

- Jitter, floats and real time: the random 0–1 s added to each backoff is left out, and time
  is whole milliseconds on an explicit clock (`now`) that only the sleeps advance. A remote call
  takes no time.
- Output: `gui_print`, the `print_*` helpers, `print_progress`, `ExecutionLogger`,
  `_log_operation`, `_save_execution_log`, `_print_bulk_summary` and `_print_detailed_results`.
  They write text or files, except one: `print_progress` passes `end=''` and `flush=True` to
  `gui_print`, which takes one argument, so it raises `TypeError` (jira_clone.py:116 against
  :70).
- `BulkSync.BulkSyncProject`: models the quiet or verbose run only. With neither `--quiet` nor
  `--verbose`, the command line's default (jira_clone.py:1273), the loop calls `print_progress`
  for the first idea (:734-735), outside the per-idea `try`. Its `TypeError` then ends the run
  before the first lookup. The GUI always passes `verbose=True`.
- `Gateway.JiraClient.UpdateIssueField`: the write log holds one entry per update request, not
  one per attempt. How many times the retry loop invoked the update is the separate
  `updateInvocations` result.
- The dry-run preview table (`DateFieldCloner._create_table`, which measures display width) and
  `format_date_for_display` (`strptime`/`strftime` formatting) only shape printed text.
- `input()`: the answer to the confirmation is a parameter. In the bulk run it is a function
  of the idea's position.
- `parse_arguments`, `get_user_inputs`, `main` and `show_mapping`: command-line glue and display.
- `FieldLister` and `check_links`: reflection over SDK objects for display only.
- jira_ui.py, config_manager.py, check_link.py, test_dialog.py, test_compatibility.py and
  compatibility_fix.py are not part of this model. They hold the GUI, the credential store, a
  one-off script, smoke scripts and an import shim.
- The SDK itself (`JIRA(...)`, `fields()`, `issue()`, `search_issues()`, `issue.update`) is
  replaced by the oracles. Field values are strings, so `str(date_value)` is the identity.
- The remote service has no state. The oracles answer by key and attempt number only, so every
  fetch of the same key sees the same answers: a transient failure on one fetch recurs on every
  later fetch of that key, and a fetch that succeeded once never fails later. Writes are never
  visible to later reads. `catalogue` is one fixed answer of `fields()` for the whole run. The
  code fetches the same issue repeatedly (`update_issue_field` fetches the target again for every
  field; the bulk run fetches each idea once to find its ticket and again as the sync target),
  and a service whose answers change between those fetches is not modelled.
- `PyText.Lower`: lower-cases ASCII letters only. The needles and `yes`/`y` are ASCII, so this
  matters only for the other characters of an answer.
- `DateValues.FormatForJpd`: its round trip is stated through a decoder for this one
  `{"start": …, "end": …}` shape, not through a general JSON parser.
- `FieldCatalog.ResolveFieldForIssue`: only `AttributeError` from a probe is modelled. Other
  exceptions from reading `issue.fields` are not.
- `DateValues.IsJpdIssue`: an issue whose type cannot be read counts as not an idea. The bare
  `except` around it is folded into that.
- `BulkSync.GetJpdIdeasInProject`: the listing must end. A ghost page index where
  the search raises or returns a short page is required, so an endless run of full pages is not
  modelled.
