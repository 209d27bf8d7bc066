# Buildroot NVD cache: CPE matching, CVE classification and paginated download

This project is a Dafny model of the three Python scripts Buildroot uses to
decide whether a package is hit by a CVE published by the NVD:

- `support/scripts/cpe.py`: CPE 2.3 identifiers (`CPE_ID`) and the CPE
  catalogue cache (`CPE_API`). `CPE_ID` matches identifiers with wildcards
  and projects fixed components. `CPE_API` keeps a products table and an
  index from version-stripped identifiers to full ones.
- `support/scripts/cve.py`: the `CVE` class with its three-valued `affects`
  classifier, and `CVE_API`. `CVE_API` maps an NVD vulnerability entry to
  rows, rewrites the `cves`, `cpe_matches` and `configurations` tables page
  by page, and reads back their join in `load_all`.
- `support/scripts/nvd_api_v2.py`: the base class `NVD_API`. Its `download`
  loop requests page after page, saves and commits each one, and writes the
  `meta` checkpoint on the final page. `check_for_updates` skips the
  download when the last update is too recent.

Modules, one per concern:

| module | file | models |
|---|---|---|
| `Optional` | optional.dfy | Python's `None`-or-value, and a value-or-exception result |
| `Strings` | strings.dfy | `str.split(":")`, `":".join`, and code-point order on `str` (also SQLite's BINARY collation) |
| `Seqs` | seqs.dfy | lists built by nested `for` loops that append, as a flat map |
| `Tables` | tables.dfy | a table with a UNIQUE text key as a map; the `DELETE ... WHERE id = ?` and `INSERT OR REPLACE` batches |
| `CpeId` | cpe_id.dfy | `CPE_ID.matches`, `product`, `version`, `no_version` |
| `CpeApi` | cpe_api.dfy | `CPE_API.save_to_db`, `generate_partials`, `find_partial`, as class `CpeApi` |
| `LooseVersion` | loose_version.dfy | `distutils.version.LooseVersion`, written out as an assumption (see below) |
| `Cve` | cve.dfy | `CVE.__init__` and `CVE.affects` |
| `CveApi` | cve_api.dfy | `extract_cve_data`, `extract_cpe_match_data`, `save_to_db`, and the query of `load_all`, as class `CveDb` |
| `NvdApi` | nvd_api.dfy | `NVD_API.download` and `check_for_updates`, as class `NvdApi` |

How the model represents the source:

- **Tables.** A table is a map from its key to its row. `configurations` has
  a UNIQUE `(cve_id, cpe_match_id)` pair, so it is a set of pairs.
- **Batches.** A batch statement applies its rows in list order, so the
  last row for a key wins.
- **The joined query.** `load_all` is the set of joined rows. Its
  `ORDER BY cve_id` is a sorted list that is a permutation of that set.
- **Download.** `download` is a function `Run` over a page oracle, a save
  hook and integer seconds. It returns the result, the ordered list of
  requests, saves, commits and checkpoint writes, and the checkpoint
  written. The imperative `Pages` loop is proved equal to it.

`LooseVersion` is not part of the scripts. The model follows CPython's
`distutils/version.py`:

- **Parsing.** A version is cut into maximal runs of digits (ints), runs of
  lower-case letters, and runs of other characters (strings). Dots separate
  runs and are dropped. `None` and `""` give an object without `.version`.
- **Comparison.** Every operator goes through `_cmp`. It tests the chunk
  lists with `==`, then with `<`. The `<` test raises TypeError where the
  lists first differ with an int against a string.
- **`=` can raise.** Because `=` also goes through `_cmp`, an equality
  bound can raise TypeError and yield UNKNOWN. This follows the library
  code, not the simpler reading that equality never raises (see
  `Cve.EqualityMayRaise`).

## Model

| member | source | states |
|---|---|---|
| Strings.Split | support/scripts/cpe.py:10-11 | `split(":")` always yields at least one piece, and no piece contains a colon |
| Strings.Join | support/scripts/cpe.py:27 | definition of `":".join(xs)`: the pieces separated by single colons |
| Strings.JoinSplit | support/scripts/cpe.py:27 | joining the pieces of a split with `:` gives back the original string |
| Strings.SplitJoin | support/scripts/cpe.py:27 | splitting a `:`-join of colon-free pieces gives back exactly those pieces |
| Strings.LessEqTotalOrder | support/scripts/cve.py:277 | code-point `<=` on strings, the order of `ORDER BY cve_id`, is total, antisymmetric and transitive |
| CpeId.Zip | support/scripts/cpe.py:14 | `zip` pairs the two lists position by position, as long as the shorter one |
| CpeId.Matches | support/scripts/cpe.py:8-15 | definition of `matches`: no pair of the zipped component lists has two different literal components |
| CpeId.RemainsEmpty | support/scripts/cpe.py:13-15 | the filter leaves nothing exactly when no zipped pair has two different literal components |
| CpeId.MatchesComponentwise | support/scripts/cpe.py:8-15 | `matches` holds iff every common position has `*` or `-` on one side or equal components |
| CpeId.MatchesSymmetric | support/scripts/cpe.py:13-15 | `matches(a, b) == matches(b, a)` for all strings |
| CpeId.MatchesReflexive | support/scripts/cpe.py:13-15 | `matches(a, a)` for every string, wildcards or not |
| CpeId.PrefixMatches | support/scripts/cpe.py:10-15 | only the `zip`-truncated prefix is compared: an identifier matches any identifier whose components extend its own |
| CpeId.WildcardPositionIgnored | support/scripts/cpe.py:13 | replacing the component at a position that holds `*` or `-` on the other side never changes `matches` |
| CpeId.MatchesNotTransitive | support/scripts/cpe.py:13-15 | `a` matches `*` and `*` matches `b`, yet `a` does not match `b` |
| CpeId.Product | support/scripts/cpe.py:18-19 | definition of `product`: component 4, defined only with at least five components (IndexError otherwise); never contains a colon |
| CpeId.Version | support/scripts/cpe.py:22-23 | definition of `version`: component 5, defined only with at least six components (IndexError otherwise); never contains a colon |
| CpeId.NoVersion | support/scripts/cpe.py:26-27 | definition of `no_version`: the first five components (or all, when fewer) joined by colons |
| CpeId.NoVersionComponents | support/scripts/cpe.py:26-27 | the components of `no_version(c)` are the first five components of `c` (all of them when fewer) |
| CpeId.NoVersionIdempotent | support/scripts/cpe.py:26-27 | `no_version(no_version(c)) == no_version(c)` |
| CpeId.ProductOfNoVersion | support/scripts/cpe.py:17-27 | with at least five components, `no_version(c)` has exactly five and the same product as `c` |
| CpeId.ProjectionsOfComponents | support/scripts/cpe.py:17-27 | over colon-free components, `product` is component 4, `version` component 5 and `no_version` the join of components 0..4 |
| CpeApi.SavedProducts | support/scripts/cpe.py:58-62 | definition of the products table after a page: the delete batch applied, then the upsert batch |
| CpeApi.DroppedIdsAt | support/scripts/cpe.py:49-52 | an id is in the delete batch iff the page has a deprecated entry with that id |
| CpeApi.ProductRowsLast | support/scripts/cpe.py:49-56 | the upsert batch's last row for an id is the name of its last non-deprecated entry; there is none iff every entry with that id is deprecated |
| CpeApi.SavedProductsAt | support/scripts/cpe.py:49-62 | after a page: an id with a non-deprecated entry holds the name of its last such entry, even if a deprecated twin is present; an id whose entries are all deprecated is gone; an id the page does not mention is unchanged |
| CpeApi.CpeApi.constructor | support/scripts/cpe.py:31-34 | the object starts over the stored products table, with no identifiers and an empty index |
| CpeApi.CpeApi.SaveToDb | support/scripts/cpe.py:45-66 | the loop's delete and upsert batches applied to the products table, deletes first; the result is always True |
| CpeApi.PartialIndex | support/scripts/cpe.py:84-87 | definition of `cpes_without_version`: each identifier of `cpes`, in list order, stored under its `no_version` |
| CpeApi.PartialIndexKeys | support/scripts/cpe.py:84-87 | the index keys are exactly the `no_version(c)` of the identifiers `c` in `cpes` |
| CpeApi.PartialIndexLast | support/scripts/cpe.py:84-87 | each key maps to the last identifier in list order whose `no_version` is that key |
| CpeApi.CpeApi.GeneratePartials | support/scripts/cpe.py:84-87 | the loop rebuilds the index from `cpes`, and every entry is keyed by its own `no_version` |
| CpeApi.CpeApi.FindPartial | support/scripts/cpe.py:89-92 | `None` iff the version-stripped key is not indexed; on a consistent index the answer has the same `no_version` as the argument |
| CpeApi.FindPartialAfterGenerate | support/scripts/cpe.py:84-92 | after `generate_partials`, `find_partial(x)` answers iff some listed identifier shares `x`'s prefix, and its answer is such an identifier |
| LooseVersion.Chunks | support/scripts/cve.py:67 | definition of the parsed `.version` of a non-empty string: digit runs as ints, letter runs and other runs as strings, dots dropped; never more chunks than characters |
| LooseVersion.Parse | support/scripts/cve.py:67-68 | definition of `LooseVersion(v)`: no `.version` for `None` or `""`, the chunks otherwise |
| LooseVersion.Compare | support/scripts/cve.py:89-105 | definition of `_cmp` as the operators at those lines call it: below, same or above, or TypeError (no result) at the first int-against-string difference |
| LooseVersion.RunLength | support/scripts/cve.py:67 | a maximal run of one character class at the head of the string (the chunks of the version regular expression) |
| LooseVersion.ChunksAreClean | support/scripts/cve.py:67 | parsed string chunks are never empty and never contain a dot |
| LooseVersion.CompareSame | support/scripts/cve.py:37 | `_cmp` gives 0, the only way `=` holds, exactly on equal chunk lists, and then never raises |
| LooseVersion.CompareAntisymmetric | support/scripts/cve.py:33-37 | swapping the operands flips the result, and raises exactly when the original raises |
| LooseVersion.CompareRaises | support/scripts/cve.py:91-93 | comparison raises TypeError iff the lists first differ at a position holding an int on one side and a string on the other |
| LooseVersion.NumericOrder | support/scripts/cve.py:90-91 | digit runs compare as numbers: "1.2.10" parses to 1, 2, 10 and is above "1.2.9" |
| LooseVersion.MixedKinds | support/scripts/cve.py:91-93 | "1" against "a" has no ordering, not even equality |
| LooseVersion.LetteredOrder | support/scripts/cve.py:102-103 | "1.1.1" plus a letter parses to 1, 1, 1 and that letter, and two such versions compare by the letter |
| Cve.Query | support/scripts/cve.py:73-74 | definition of the query identifier `cpe:2.3:*:*:<name>:<version>:*:*:*:*:*:*:*` built when no cpeid is given |
| Cve.CheckBound | support/scripts/cve.py:88-110 | definition of one bound check: skipped when empty, TypeError for an unknown operator or an int-against-string comparison, AttributeError only for a package version without `.version` |
| Cve.Decide | support/scripts/cve.py:81-113 | definition of `affects` past the query: match, no bounds, missing version, start bound, end bound, in that order; its only exception is AttributeError, for a version without `.version` |
| Cve.Classify | support/scripts/cve.py:59-113 | definition of `affects`: the ignore list, the IndexError of a short cpeid, then the query and package version; an exception escapes only when a cpeid is given |
| Cve.IgnoredNeverAffects | support/scripts/cve.py:64-65 | an id in the ignore list gives DOESNT_AFFECT whatever the other inputs |
| Cve.MismatchDoesntAffect | support/scripts/cve.py:81-82 | a criteria that does not match the query identifier gives DOESNT_AFFECT |
| Cve.UnboundedMatchAffects | support/scripts/cve.py:81-84 | a matching criteria with no bounds gives AFFECTS, even for an unparseable version |
| Cve.MissingVersionDoesntAffect | support/scripts/cve.py:67-70 | with no cpeid, a `None` or empty version against a bounded criteria gives DOESNT_AFFECT, not UNKNOWN |
| Cve.CpeidOverridesVersion | support/scripts/cve.py:73-79 | with a cpeid, neither the name nor the `version` argument changes the result |
| Cve.ShortCpeidRaises | support/scripts/cve.py:79 | a cpeid with fewer than six components raises IndexError unless the id is ignored |
| Cve.EmptyCpeidVersionRaises | support/scripts/cve.py:79-103 | a cpeid with an empty version component makes the first present bound with a known operator raise AttributeError out of `affects` |
| Cve.QueryComponents | support/scripts/cve.py:73-74 | when neither the name nor the `%s` of the version contains a colon, the built query has 13 components, its product is the name and its version the `%s` of the version |
| Cve.CheckBoundCases | support/scripts/cve.py:88-110 | with a parsed package version, one bound holds, fails or raises TypeError, exactly one of these, and never AttributeError |
| Cve.BoundsDecide | support/scripts/cve.py:88-113 | past the match and the no-bounds case: AFFECTS iff every present bound holds; UNKNOWN iff the start bound raises, or it holds and the end bound raises; never an exception |
| Cve.LowerBoundInclusive | support/scripts/cve.py:88-98 | a `>=` start bound admits the bound's own version and rejects a version below it |
| Cve.EqualityMayRaise | support/scripts/cve.py:88-93 | an `=` bound `a` against version "1" gives UNKNOWN |
| Cve.UpperBoundExclusive | support/scripts/cve.py:100-110 | a `<` end bound admits a version below it, and rejects the bound's own version and any version above it |
| Cve.LetteredEndBound | support/scripts/cve.py:100-113 | "1.1.1k" against `<` "1.1.1l" gives AFFECTS, and "1.1.1m" gives DOESNT_AFFECT |
| CveApi.CveRowOf | support/scripts/cve.py:152-171 | definition of the row `extract_cve_data` returns |
| CveApi.MatchRowOf | support/scripts/cve.py:173-214 | definition of the row `extract_cpe_match_data` returns, or `None` for product `-`; defined only for a criteria with six components (IndexError otherwise) |
| CveApi.LastEnglishIsLast | support/scripts/cve.py:154-157 | the description is the value of the last English entry, or empty when there is none |
| CveApi.CveRowMetrics | support/scripts/cve.py:158-171 | scores and severity come from the first of V3.1, V3.0 and V2 that is present, with defaults 0.0, 0.0 and UNKNOWN; `metric2` is set only from V2 |
| CveApi.ExtractCveData | support/scripts/cve.py:152-171 | the loop and the branches build exactly `CveRowOf(entry)` |
| CveApi.MatchRowShape | support/scripts/cve.py:173-214 | an id-less result iff the product is `-`; otherwise the row keeps the match id and criteria, `op_start` is one of '', '=', '>=', '>', and `op_end` one of '', '<=', '<'; it is '=' iff the version is literal |
| CveApi.LiteralVersionIsEquality | support/scripts/cve.py:185-188 | a literal version gives `('=', version)` as the start bound and an empty end bound |
| CveApi.ExcludingOverridesIncluding | support/scripts/cve.py:189-205 | with a wildcard version, an Excluding key overrides the Including key at either end, and neither key gives an empty bound |
| CveApi.MatchRowsMember | support/scripts/cve.py:237-243 | a collected match row is the row of a vulnerable match of the list |
| CveApi.EntryMatchesMember | support/scripts/cve.py:235-237 | the nested loops visit exactly the matches of the nodes of the entry's configurations |
| CveApi.AppendMatch | support/scripts/cve.py:238-244 | the innermost loop body appends the match's row and its `(cve id, match id)` pair, or nothing |
| CveApi.CollectNode | support/scripts/cve.py:237-244 | the loop over `cpeMatch` fails iff a vulnerable match has a short criteria, and otherwise appends the rows and pairs of its matches |
| CveApi.CollectConfiguration | support/scripts/cve.py:236-244 | the loop over `nodes` fails iff some node fails, and otherwise appends the rows and pairs of all its matches |
| CveApi.CollectEntry | support/scripts/cve.py:235-244 | the loop over `configurations` fails iff some match fails, and otherwise appends the rows and pairs of all the entry's matches |
| CveApi.BatchesIds | support/scripts/cve.py:227-232 | an id is in the delete batch iff it has a rejected entry, and in the changed list iff it has one that is not rejected |
| CveApi.CveRowsLast | support/scripts/cve.py:227-233 | the `cves` upsert batch's last row for an id is the row of its last non-rejected entry; there is none iff all its entries are rejected |
| CveApi.BatchesConfigurations | support/scripts/cve.py:235-244 | a pair is in the configurations batch iff a non-rejected entry with that id collected a row with that match id |
| CveApi.BatchesMatches | support/scripts/cve.py:235-243 | a row is in the matches batch iff a non-rejected entry of the page collected it |
| CveApi.SavedCves | support/scripts/cve.py:249-254 | definition of the `cves` table after a page: rejected ids deleted, then the rows upserted |
| CveApi.SavedConfigurations | support/scripts/cve.py:253-256 | definition of the `configurations` table after a page: the pairs of changed ids deleted, then the new pairs inserted |
| CveApi.SavedMatches | support/scripts/cve.py:255 | definition of the `cpe_matches` table after a page: the match rows upserted by match id |
| CveApi.SavedCvesAt | support/scripts/cve.py:248-254 | after a page: an id with a non-rejected entry holds the row of its last such entry; an id whose entries are all rejected is gone; other ids are unchanged |
| CveApi.EntryMatchIds | support/scripts/cve.py:238-244 | an entry's collected match ids are the ids of its vulnerable matches whose product is not `-` |
| CveApi.SavedConfigurationsAt | support/scripts/cve.py:251-256 | for an id with a non-rejected entry, its pairs become exactly those of the page's vulnerable non-`-` matches; the pairs of every other id are unchanged |
| CveApi.SavedMatchesKeys | support/scripts/cve.py:255 | `cpe_matches` rows are never deleted; a match id is present afterwards iff it was before or the batch has it |
| CveApi.KeyedUpsertKeys | support/scripts/cve.py:255 | upserting match rows by their id adds exactly the ids of the rows |
| CveApi.Joined | support/scripts/cve.py:272-276 | a joined row exists iff its pair is in `configurations`, its cve and its match both exist, and the row carries that match's columns |
| CveApi.InsertSortedAdds | support/scripts/cve.py:277 | inserting into the ordered result adds exactly the one row |
| CveApi.InsertSortedSorts | support/scripts/cve.py:277 | inserting keeps the result ordered by cve id |
| CveApi.JoinedAdd | support/scripts/cve.py:274-276 | one more configuration pair adds its joined row iff both its cve and its match exist |
| CveApi.CveDb.constructor | support/scripts/cve.py:118-120 | the database starts over the three stored tables |
| CveApi.CveDb.SaveToDb | support/scripts/cve.py:216-260 | an IndexError iff some non-rejected entry has a vulnerable match with a short criteria, and then no table changes; otherwise True, with each table the result of its batches in statement order |
| CveApi.CveDb.Select | support/scripts/cve.py:271-279 | the query's rows are ordered by cve id and are a permutation of the join |
| CveApi.CveDb.LoadAll | support/scripts/cve.py:262-280 | one `CVE` per joined row, in query order, taking columns 0 and 2 to 6 |
| CveApi.RejectedNotLoaded | support/scripts/cve.py:228-230 | an id whose entries in a page are all rejected never appears in the join afterwards |
| NvdApi.Run | support/scripts/nvd_api_v2.py:77-112 | definition of the loop of `download` from a given index: request, stop on `None`, save, stop on a refused save, stop with the checkpoint on the final page, otherwise commit and go on at the reported next index |
| NvdApi.DownloadRun | support/scripts/nvd_api_v2.py:61-112 | definition of `download(last_update)`: the date window of `last_update` and `now`, then the loop from index 0 |
| NvdApi.ShouldDownload | support/scripts/nvd_api_v2.py:124-134 | a download runs iff there is no meta row or at least 7200 seconds have passed since it |
| NvdApi.RunStep | support/scripts/nvd_api_v2.py:88-112 | a saved non-final page is requested, saved and committed, and the run goes on at the reported `startIndex + resultsPerPage`, which is past the sent index |
| NvdApi.RunStops | support/scripts/nvd_api_v2.py:84-107 | the three ways a run stops: a `None` page gives False, a refused page gives False after its save, and the final page gives True after writing the checkpoint and committing |
| NvdApi.RunStartsWithRequest | support/scripts/nvd_api_v2.py:78-80 | the first event is the request for the starting index with the download's window |
| NvdApi.RunSucceedsOnFinalPage | support/scripts/nvd_api_v2.py:101-107 | True iff a checkpoint is written; then the last page was saved and reached its total, and the run ends by writing its timestamp minus 60 seconds and committing |
| NvdApi.RunFailure | support/scripts/nvd_api_v2.py:84-86 | a False run writes no checkpoint, and its last event is a request answered with `None` or a save the hook refused |
| NvdApi.RunWritesMetaLast | support/scripts/nvd_api_v2.py:101-109 | the checkpoint is written only as the last event but one, and is followed by the final commit |
| NvdApi.RunNextRequest | support/scripts/nvd_api_v2.py:88-112 | every request after the first follows a page that was served, saved and committed, and asks for that page's `startIndex + resultsPerPage`, not the sent index |
| NvdApi.RunWindow | support/scripts/nvd_api_v2.py:73-75 | with no stored update, requests carry no date window; with one, every request carries it as start and `now` as end |
| NvdApi.TwoPageDownload | support/scripts/nvd_api_v2.py:61-112 | 3000 results served 2000 at a time: requests at 0 and 2000, and a checkpoint 60 seconds before the last page's timestamp |
| NvdApi.EmptyFeedFinishes | support/scripts/nvd_api_v2.py:88-107 | an update with nothing new (one page with `resultsPerPage` and `totalResults` 0) is saved, writes the checkpoint of its timestamp minus a minute, commits and succeeds |
| NvdApi.FetchPage | support/scripts/nvd_api_v2.py:78-109 | one pass of the loop either ends the run with its outcome, or commits and moves to a larger index |
| NvdApi.Pages | support/scripts/nvd_api_v2.py:61-112 | the `while True` loop returns the result, performs the events and writes the checkpoint of `DownloadRun` |
| NvdApi.NvdApi.constructor | support/scripts/nvd_api_v2.py:26-37 | the object starts over the stored meta row, with nothing done yet |
| NvdApi.NvdApi.Download | support/scripts/nvd_api_v2.py:61-112 | the download's result and events; the meta row becomes the checkpoint when one is written and is otherwise unchanged |
| NvdApi.NvdApi.CheckForUpdates | support/scripts/nvd_api_v2.py:114-137 | nothing happens within two hours of the stored update; otherwise it downloads from the stored update, or from scratch when there is none |
| Tables.Upsert | support/scripts/cpe.py:62 | definition of an `INSERT OR REPLACE` batch: each row, in order, replaces the row with its key |
| Tables.Delete | support/scripts/cpe.py:61 | after the delete batch a key is absent iff it is in the batch, and other keys keep their rows |
| Tables.LastValueIsLast | support/scripts/cpe.py:62 | the last batch value for a key comes from a row with that key that no later row shares |
| Tables.UpsertLookup | support/scripts/cpe.py:62 | after an upsert batch a key holds its last batch row, or else what it held before |
| Tables.UpsertKeeps | support/scripts/cve.py:255 | an upsert batch never removes a key |
| Tables.UpsertKeys | support/scripts/cve.py:254-256 | the keys after an upsert batch are the old keys plus the batch's keys |
| Seqs.FlatMapAppend | support/scripts/cve.py:227-244 | looping over one list and then another collects the items of their concatenation |
| Seqs.FlatMapMember | support/scripts/cve.py:227-244 | an item is collected iff some element contributes it |

## Left out

- **HTTP.** `requests.get`, `raise_for_status` and `page.json()` become a page oracle. An HTTP error raises out of `download`, with no retry; that path is not modelled.
- **Rate limiting and output.** `time.sleep` and every progress `print`, including "Cannot parse" and "Update failed!", are left out.
- **SQLite.** Connections, cursors, `CREATE TABLE`, `init_db` and `init_db_meta` are left out. A commit appears only as a `Commit` event.
- **ON DELETE CASCADE.** It is not modelled: the foreign keys name tables `cve` and `cpe_match`, which do not exist, and SQLite leaves foreign-key enforcement off by default.
- **Dates.** `datetime` parsing and ISO formatting are left out; times are integer seconds, all in UTC. A meta row whose `last_update` is NULL is not modelled.
- **Docstring vs code.** The `check_for_updates` docstring says 24 hours; the model follows the code's `NVD_CHECK_TIMEOUT_SECONDS = 120 * 60`.
- **Two clock reads.** `check_for_updates` and `download` each read the clock; they are the separate inputs `now` and `requestNow`.
- **Composition.** `load_all` and `load_ids` run `check_for_updates` first, and `download` calls the subclass's `save_to_db` as its hook. The model proves each part on its own and does not compose them.
- **CPE_API.load_ids and CPE_API.init_db.** They use `self.connection` and `self.open_db`, which the class never defines. `CPE_API.save_to_db` also takes three arguments while `download` passes one, and it touches the same undefined connection. Only its table logic is modelled, as `CpeApi.CpeApi.SaveToDb`; `cpes` is a field the model treats as given.
- **CVE.identifier and CVE.affected_product.** These one-line accessors return `id` and `Product(matchCriteria)` and are not given members of their own.
- **CVSS scores.** They are floats in the source and are carried as `real` values, never computed with.
- **Missing metric lists.** An empty `cvssMetric*` list raises IndexError in `extract_cve_data`; the model assumes the first entry exists.
- **Escapes.** `\:` inside a CPE component is split like any other colon, as the scripts do; CPE 2.3 escaping is not modelled.
- **LooseVersion.** Only ASCII digits count as digits. The library's internals beyond the chunk model above are an assumption, not a model of its code.
- **Exceptions in the hook.** An exception raised inside a save hook during `download` is not modelled. The CVE hook's IndexError is modelled by `CveApi.CveDb.SaveToDb`, which leaves the tables unchanged.
- **Write order.** Within one download the class writes the meta field after the page loop, where the source writes the row inside the final pass. The ghost event log keeps the source's order: the checkpoint write, then the commit.
- **Ties in ORDER BY.** SQLite may return rows with equal `cve_id` in any order. `CveApi.CveDb.Select` fixes one such order and states only that it is sorted and a permutation of the join.
- **Termination.** `NvdApi.Run` and everything built on it require every page that is not final to move past the requested index and to report at most `maxTotal` results. A final page, including one with `resultsPerPage` 0, is unconstrained. The source can request pages forever when a page that is not final does not move forward; that case is not modelled.
- **CpeApi.CpeApi.FindPartial:** it states the prefix property only for an index whose keys are their entries' own prefixes. `generate_partials` always leaves such an index.
