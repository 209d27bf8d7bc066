/**
 * `CVE_API` (support/scripts/cve.py): the mapping of one NVD vulnerability
 * entry to table rows, the per-page rewrite of the `cves`, `cpe_matches`
 * and `configurations` tables, and the join that `load_all` reads back.
 */
module CveApi {
  import opened Optional
  import opened Strings
  import opened Tables
  import opened Seqs
  import opened CpeId
  import Cve

  /** An entry of `cve['descriptions']`. */
  datatype Description = Description(lang: string, value: string)

  /**
   * The first entry of a `cvssMetric*` list: `cvssData.baseScore` and the
   * severity (`cvssData.baseSeverity` for V3.x, the entry's own
   * `baseSeverity` for V2). Scores are carried as reals.
   */
  datatype Metric = Metric(baseScore: real, baseSeverity: string)

  /** `cve['metrics']`: which of the three keys are present. */
  datatype Metrics = Metrics(v31: Option<Metric>, v30: Option<Metric>, v2: Option<Metric>)

  /** An entry of `node['cpeMatch']`; each optional bound is present or absent as a key. */
  datatype CpeMatch = CpeMatch(
    vulnerable: bool, criteria: string, matchCriteriaId: string,
    startIncluding: Option<string>, startExcluding: Option<string>,
    endIncluding: Option<string>, endExcluding: Option<string>)

  datatype Node = Node(cpeMatch: seq<CpeMatch>)

  datatype Configuration = Configuration(nodes: seq<Node>)

  /** `vul['cve']`; a missing `configurations` key is the empty list. */
  datatype CveEntry = CveEntry(
    id: string, vulnStatus: string, descriptions: seq<Description>,
    metrics: Metrics, configurations: seq<Configuration>)

  /** A row of the `cves` table. */
  datatype CveRow = CveRow(id: string, description: string, metric2: real, metric3: real, severity: string)

  /** A row of the `cpe_matches` table. */
  datatype MatchRow = MatchRow(id: string, criteria: string, vStart: string, vEnd: string, opStart: string, opEnd: string)

  // ---------------------------------------------------------------- extract_cve_data

  /** The value of the last English description, or `""`. */
  function LastEnglish(ds: seq<Description>): string
    decreases |ds|
  {
    if ds == [] then ""
    else if ds[|ds| - 1].lang == "en" then ds[|ds| - 1].value
    else LastEnglish(ds[..|ds| - 1])
  }

  /** The row `extract_cve_data` builds. */
  function CveRowOf(e: CveEntry): CveRow
  {
    var m := e.metrics;
    if m.v31.Some? then CveRow(e.id, LastEnglish(e.descriptions), 0.0, m.v31.value.baseScore, m.v31.value.baseSeverity)
    else if m.v30.Some? then CveRow(e.id, LastEnglish(e.descriptions), 0.0, m.v30.value.baseScore, m.v30.value.baseSeverity)
    else if m.v2.Some? then CveRow(e.id, LastEnglish(e.descriptions), m.v2.value.baseScore, 0.0, m.v2.value.baseSeverity)
    else CveRow(e.id, LastEnglish(e.descriptions), 0.0, 0.0, "UNKNOWN")
  }

  /** The description is the value of the last English entry; without one it is empty. */
  lemma {:induction false} LastEnglishIsLast(ds: seq<Description>)
    ensures (forall i :: 0 <= i < |ds| ==> ds[i].lang != "en") ==> LastEnglish(ds) == ""
    ensures (exists i :: 0 <= i < |ds| && ds[i].lang == "en") ==>
      exists i :: 0 <= i < |ds| && ds[i].lang == "en" && LastEnglish(ds) == ds[i].value &&
        forall j :: i < j < |ds| ==> ds[j].lang != "en"
    decreases |ds|
  {
    if ds != [] {
      var init := ds[..|ds| - 1];
      LastEnglishIsLast(init);
      assert forall i :: 0 <= i < |init| ==> init[i] == ds[i];
      if ds[|ds| - 1].lang != "en" && exists i :: 0 <= i < |ds| && ds[i].lang == "en" {
        var i :| 0 <= i < |ds| && ds[i].lang == "en";
        assert init[i].lang == "en";
      }
    }
  }

  /**
   * Scores and severity come from the first of V3.1, V3.0, V2 that is
   * present; the V3 score goes to `metric3`, the V2 score to `metric2`, and
   * the other column keeps 0.0; with none of the three the severity is
   * `UNKNOWN`.
   */
  lemma CveRowMetrics(e: CveEntry)
    ensures CveRowOf(e).id == e.id && CveRowOf(e).description == LastEnglish(e.descriptions)
    ensures e.metrics.v31.Some? ==>
      CveRowOf(e).metric3 == e.metrics.v31.value.baseScore && CveRowOf(e).metric2 == 0.0 &&
      CveRowOf(e).severity == e.metrics.v31.value.baseSeverity
    ensures e.metrics.v31.None? && e.metrics.v30.Some? ==>
      CveRowOf(e).metric3 == e.metrics.v30.value.baseScore && CveRowOf(e).metric2 == 0.0 &&
      CveRowOf(e).severity == e.metrics.v30.value.baseSeverity
    ensures e.metrics.v31.None? && e.metrics.v30.None? && e.metrics.v2.Some? ==>
      CveRowOf(e).metric2 == e.metrics.v2.value.baseScore && CveRowOf(e).metric3 == 0.0 &&
      CveRowOf(e).severity == e.metrics.v2.value.baseSeverity
    ensures e.metrics.v31.None? && e.metrics.v30.None? && e.metrics.v2.None? ==>
      CveRowOf(e).metric2 == 0.0 && CveRowOf(e).metric3 == 0.0 && CveRowOf(e).severity == "UNKNOWN"
    ensures CveRowOf(e).metric2 != 0.0 ==> e.metrics.v31.None? && e.metrics.v30.None? && e.metrics.v2.Some?
  {
  }

  /** `extract_cve_data`: the description loop keeps overwriting with each English entry. */
  method ExtractCveData(e: CveEntry) returns (row: CveRow)
    ensures row == CveRowOf(e)
  {
    var description := "";
    for i := 0 to |e.descriptions|
      invariant description == LastEnglish(e.descriptions[..i])
    {
      assert e.descriptions[..i + 1][..i] == e.descriptions[..i];
      if e.descriptions[i].lang == "en" {
        description := e.descriptions[i].value;
      }
    }
    assert e.descriptions[..|e.descriptions|] == e.descriptions;
    var metric2, metric3, severity := 0.0, 0.0, "UNKNOWN";
    if e.metrics.v31.Some? {
      metric3 := e.metrics.v31.value.baseScore;
      severity := e.metrics.v31.value.baseSeverity;
    } else if e.metrics.v30.Some? {
      metric3 := e.metrics.v30.value.baseScore;
      severity := e.metrics.v30.value.baseSeverity;
    } else if e.metrics.v2.Some? {
      metric2 := e.metrics.v2.value.baseScore;
      severity := e.metrics.v2.value.baseSeverity;
    }
    row := CveRow(e.id, description, metric2, metric3, severity);
  }

  // ---------------------------------------------------------------- extract_cpe_match_data

  /**
   * `extract_cpe_match_data`: `None` for product `-`; a concrete version is
   * an `=` match; otherwise each Excluding key, when present, overrides the
   * Including key checked before it. The criteria needs six components
   * (`CPE_ID.version` raises IndexError otherwise).
   */
  function MatchRowOf(m: CpeMatch): Option<MatchRow>
    requires |Split(m.criteria)| >= 6
  {
    var product := Product(m.criteria);
    var version := CpeId.Version(m.criteria);
    if product == "-" then None
    else if version != "*" && version != "-" then
      Some(MatchRow(m.matchCriteriaId, m.criteria, version, "", "=", ""))
    else
      var vStart := if m.startExcluding.Some? then m.startExcluding.value
                    else if m.startIncluding.Some? then m.startIncluding.value else "";
      var opStart := if m.startExcluding.Some? then ">" else if m.startIncluding.Some? then ">=" else "";
      var vEnd := if m.endExcluding.Some? then m.endExcluding.value
                  else if m.endIncluding.Some? then m.endIncluding.value else "";
      var opEnd := if m.endExcluding.Some? then "<" else if m.endIncluding.Some? then "<=" else "";
      Some(MatchRow(m.matchCriteriaId, m.criteria, vStart, vEnd, opStart, opEnd))
  }

  /** The shape of every match row: its key, its operators, and which keys each comes from. */
  lemma MatchRowShape(m: CpeMatch)
    requires |Split(m.criteria)| >= 6
    ensures MatchRowOf(m).None? <==> Product(m.criteria) == "-"
    ensures MatchRowOf(m).Some? ==>
      var r := MatchRowOf(m).value;
      && r.id == m.matchCriteriaId && r.criteria == m.criteria
      && (r.opStart == "" || r.opStart == "=" || r.opStart == ">=" || r.opStart == ">")
      && (r.opEnd == "" || r.opEnd == "<=" || r.opEnd == "<")
      && (r.opStart == "=" <==> CpeId.Version(m.criteria) != "*" && CpeId.Version(m.criteria) != "-")
  {
  }

  /** A concrete version in the criteria is an `=` match on that version, with no end bound. */
  lemma LiteralVersionIsEquality(m: CpeMatch)
    requires |Split(m.criteria)| >= 6 && Product(m.criteria) != "-"
    requires CpeId.Version(m.criteria) != "*" && CpeId.Version(m.criteria) != "-"
    ensures MatchRowOf(m).Some?
    ensures MatchRowOf(m).value.opStart == "=" && MatchRowOf(m).value.vStart == CpeId.Version(m.criteria)
    ensures MatchRowOf(m).value.opEnd == "" && MatchRowOf(m).value.vEnd == ""
  {
  }

  /** With a wildcard version, an Excluding key wins over the Including key, at either end. */
  lemma ExcludingOverridesIncluding(m: CpeMatch)
    requires |Split(m.criteria)| >= 6 && Product(m.criteria) != "-"
    requires CpeId.Version(m.criteria) == "*" || CpeId.Version(m.criteria) == "-"
    ensures m.startExcluding.Some? ==>
      MatchRowOf(m).value.opStart == ">" && MatchRowOf(m).value.vStart == m.startExcluding.value
    ensures m.startExcluding.None? && m.startIncluding.Some? ==>
      MatchRowOf(m).value.opStart == ">=" && MatchRowOf(m).value.vStart == m.startIncluding.value
    ensures m.startExcluding.None? && m.startIncluding.None? ==>
      MatchRowOf(m).value.opStart == "" && MatchRowOf(m).value.vStart == ""
    ensures m.endExcluding.Some? ==>
      MatchRowOf(m).value.opEnd == "<" && MatchRowOf(m).value.vEnd == m.endExcluding.value
    ensures m.endExcluding.None? && m.endIncluding.Some? ==>
      MatchRowOf(m).value.opEnd == "<=" && MatchRowOf(m).value.vEnd == m.endIncluding.value
    ensures m.endExcluding.None? && m.endIncluding.None? ==>
      MatchRowOf(m).value.opEnd == "" && MatchRowOf(m).value.vEnd == ""
  {
  }

  // ---------------------------------------------------------------- save_to_db

  /** Every vulnerable match of the list has the six components `extract_cpe_match_data` reads. */
  predicate Extractable(ms: seq<CpeMatch>)
  {
    forall m :: m in ms && m.vulnerable ==> |Split(m.criteria)| >= 6
  }

  /**
   * What one match contributes: nothing unless it is vulnerable and its
   * product is not `-`. A vulnerable match with a short criteria raises
   * instead; `Extractable` rules that out wherever the rows are used.
   */
  function RowsOf(m: CpeMatch): seq<MatchRow>
  {
    if m.vulnerable && |Split(m.criteria)| >= 6 && MatchRowOf(m).Some? then [MatchRowOf(m).value] else []
  }

  /** The `cpe_matches` rows collected from a list of matches, in order. */
  function MatchRows(ms: seq<CpeMatch>): seq<MatchRow>
  {
    FlatMap(RowsOf, ms)
  }

  /** The `configurations` rows `[cve_id, match_data[0]]` for collected match rows. */
  function PairsOf(id: string, rows: seq<MatchRow>): seq<(string, string)>
  {
    seq(|rows|, k requires 0 <= k < |rows| => (id, rows[k].id))
  }

  /** The matches of one node, `node['cpeMatch']`. */
  function NodeCpeMatches(n: Node): seq<CpeMatch>
  {
    n.cpeMatch
  }

  /** The matches of a list of nodes, in loop order. */
  function NodeMatches(ns: seq<Node>): seq<CpeMatch>
  {
    FlatMap(NodeCpeMatches, ns)
  }

  /** The matches of the nodes of one configuration, `config['nodes']`. */
  function ConfigurationMatches(c: Configuration): seq<CpeMatch>
  {
    NodeMatches(c.nodes)
  }

  /** The matches of a list of configurations, in loop order. */
  function ConfigMatches(cs: seq<Configuration>): seq<CpeMatch>
  {
    FlatMap(ConfigurationMatches, cs)
  }

  /** The matches the three nested loops of `save_to_db` visit for one entry. */
  function EntryMatches(e: CveEntry): seq<CpeMatch>
  {
    ConfigMatches(e.configurations)
  }

  /** Two extractable lists make an extractable concatenation. */
  lemma ExtractableAppend(a: seq<CpeMatch>, b: seq<CpeMatch>)
    requires Extractable(a) && Extractable(b)
    ensures Extractable(a + b)
  {
    forall m | m in a + b
      ensures m in a || m in b
    {
    }
  }

  lemma PairsOfAppend(id: string, a: seq<MatchRow>, b: seq<MatchRow>)
    ensures PairsOf(id, a + b) == PairsOf(id, a) + PairsOf(id, b)
  {
  }

  /** A collected row is the row of a vulnerable match of the list. */
  lemma MatchRowsMember(ms: seq<CpeMatch>, r: MatchRow)
    requires Extractable(ms)
    ensures r in MatchRows(ms) <==> exists m :: m in ms && m.vulnerable && MatchRowOf(m) == Some(r)
  {
    FlatMapMember(RowsOf, ms, r);
    forall m | m in ms
      ensures r in RowsOf(m) <==> m.vulnerable && MatchRowOf(m) == Some(r)
    {
    }
  }

  lemma PairsOfMember(id: string, rows: seq<MatchRow>, p: (string, string))
    ensures p in PairsOf(id, rows) <==> p.0 == id && exists r :: r in rows && r.id == p.1
  {
    if p in PairsOf(id, rows) {
      var k :| 0 <= k < |rows| && PairsOf(id, rows)[k] == p;
      assert rows[k] in rows;
    }
    if p.0 == id && exists r :: r in rows && r.id == p.1 {
      var r :| r in rows && r.id == p.1;
      var k :| 0 <= k < |rows| && rows[k] == r;
      assert PairsOf(id, rows)[k] == p;
    }
  }

  lemma NodeMatchesMember(ns: seq<Node>, m: CpeMatch)
    ensures m in NodeMatches(ns) <==> exists n :: n in ns && m in n.cpeMatch
  {
    FlatMapMember(NodeCpeMatches, ns, m);
    assert forall n :: NodeCpeMatches(n) == n.cpeMatch;
  }

  /** The loops visit exactly the matches of the entry's nodes of its configurations. */
  lemma EntryMatchesMember(cs: seq<Configuration>, m: CpeMatch)
    ensures m in ConfigMatches(cs) <==> exists c, n :: c in cs && n in c.nodes && m in n.cpeMatch
  {
    FlatMapMember(ConfigurationMatches, cs, m);
    forall c | c in cs
      ensures m in ConfigurationMatches(c) <==> exists n :: n in c.nodes && m in n.cpeMatch
    {
      NodeMatchesMember(c.nodes, m);
    }
  }

  /** One more match: its rows go at the end. */
  lemma MatchRowsSnoc(ms: seq<CpeMatch>, m: CpeMatch)
    requires Extractable(ms) && (m.vulnerable ==> |Split(m.criteria)| >= 6)
    ensures Extractable(ms + [m])
    ensures MatchRows(ms + [m]) == MatchRows(ms) + RowsOf(m)
  {
    FlatMapSnoc(RowsOf, ms, m);
    ExtractableAppend(ms, [m]);
  }

  /** The body of the innermost loop, for a match whose criteria can be read. */
  method AppendMatch(id: string, m: CpeMatch, rows0: seq<MatchRow>, pairs0: seq<(string, string)>)
    returns (rows: seq<MatchRow>, pairs: seq<(string, string)>)
    requires m.vulnerable ==> |Split(m.criteria)| >= 6
    ensures rows == rows0 + RowsOf(m) && pairs == pairs0 + PairsOf(id, RowsOf(m))
  {
    rows, pairs := rows0, pairs0;
    if m.vulnerable {
      var r := MatchRowOf(m);
      if r.Some? {
        rows := rows + [r.value];
        pairs := pairs + [(id, r.value.id)];
      }
    }
  }

  /** The innermost loop, over `node['cpeMatch']`: appends to the match and configuration batches. */
  method CollectNode(id: string, ms: seq<CpeMatch>, rows0: seq<MatchRow>, pairs0: seq<(string, string)>)
    returns (ok: bool, rows: seq<MatchRow>, pairs: seq<(string, string)>)
    ensures ok <==> Extractable(ms)
    ensures ok ==> rows == rows0 + MatchRows(ms) && pairs == pairs0 + PairsOf(id, MatchRows(ms))
  {
    rows, pairs := rows0, pairs0;
    for k := 0 to |ms|
      invariant Extractable(ms[..k])
      invariant rows == rows0 + MatchRows(ms[..k])
      invariant pairs == pairs0 + PairsOf(id, MatchRows(ms[..k]))
    {
      var m := ms[k];
      if m.vulnerable && |Split(m.criteria)| < 6 {
        assert m in ms;
        return false, rows, pairs;
      }
      CollectOne(id, ms, k, rows0, pairs0);
      rows, pairs := AppendMatch(id, m, rows, pairs);
    }
    assert ms[..|ms|] == ms;
    ok := true;
  }

  /** Appending the batches of `more` to those of `done` gives the batches of `done + more`. */
  lemma CollectStep(id: string, done: seq<CpeMatch>, more: seq<CpeMatch>,
                    rows0: seq<MatchRow>, pairs0: seq<(string, string)>)
    requires Extractable(done) && Extractable(more)
    ensures Extractable(done + more)
    ensures rows0 + MatchRows(done) + MatchRows(more) == rows0 + MatchRows(done + more)
    ensures pairs0 + PairsOf(id, MatchRows(done)) + PairsOf(id, MatchRows(more)) ==
      pairs0 + PairsOf(id, MatchRows(done + more))
  {
    ExtractableAppend(done, more);
    FlatMapAppend(RowsOf, done, more);
    AppendAfter(rows0, MatchRows(done), MatchRows(more));
    PairsAfter(id, pairs0, MatchRows(done), MatchRows(more));
  }

  /** The rows of `x` and then of `y`, appended after `rows0`. */
  lemma AppendAfter<T>(rows0: seq<T>, x: seq<T>, y: seq<T>)
    ensures rows0 + x + y == rows0 + (x + y)
  {
  }

  /** The pairs of `x` and then of `y`, appended after `pairs0`. */
  lemma PairsAfter(id: string, pairs0: seq<(string, string)>, x: seq<MatchRow>, y: seq<MatchRow>)
    ensures pairs0 + PairsOf(id, x) + PairsOf(id, y) == pairs0 + PairsOf(id, x + y)
  {
    PairsOfAppend(id, x, y);
    AppendAfter(pairs0, PairsOf(id, x), PairsOf(id, y));
  }

  /** One more match taken from a list: `CollectStep` for a single element. */
  lemma CollectOne(id: string, ms: seq<CpeMatch>, k: nat, rows0: seq<MatchRow>, pairs0: seq<(string, string)>)
    requires k < |ms| && Extractable(ms[..k]) && (ms[k].vulnerable ==> |Split(ms[k].criteria)| >= 6)
    ensures Extractable(ms[..k + 1])
    ensures rows0 + MatchRows(ms[..k]) + RowsOf(ms[k]) == rows0 + MatchRows(ms[..k + 1])
    ensures pairs0 + PairsOf(id, MatchRows(ms[..k])) + PairsOf(id, RowsOf(ms[k])) ==
      pairs0 + PairsOf(id, MatchRows(ms[..k + 1]))
  {
    assert ms[..k + 1] == ms[..k] + [ms[k]];
    MatchRowsSnoc(ms[..k], ms[k]);
    AppendAfter(rows0, MatchRows(ms[..k]), RowsOf(ms[k]));
    PairsAfter(id, pairs0, MatchRows(ms[..k]), RowsOf(ms[k]));
  }

  /** The nodes up to `j`, and a bad node makes the whole list bad. */
  lemma NodeMatchesPrefix(ns: seq<Node>, j: nat)
    requires j < |ns|
    ensures NodeMatches(ns[..j + 1]) == NodeMatches(ns[..j]) + ns[j].cpeMatch
    ensures !Extractable(ns[j].cpeMatch) ==> !Extractable(NodeMatches(ns))
  {
    assert ns[..j + 1] == ns[..j] + [ns[j]];
    FlatMapSnoc(NodeCpeMatches, ns[..j], ns[j]);
    FlatMapAppend(NodeCpeMatches, ns[..j + 1], ns[j + 1..]);
    assert ns[..j + 1] + ns[j + 1..] == ns;
  }

  lemma ConfigMatchesPrefix(cs: seq<Configuration>, j: nat)
    requires j < |cs|
    ensures ConfigMatches(cs[..j + 1]) == ConfigMatches(cs[..j]) + NodeMatches(cs[j].nodes)
    ensures !Extractable(NodeMatches(cs[j].nodes)) ==> !Extractable(ConfigMatches(cs))
  {
    assert cs[..j + 1] == cs[..j] + [cs[j]];
    FlatMapSnoc(ConfigurationMatches, cs[..j], cs[j]);
    FlatMapAppend(ConfigurationMatches, cs[..j + 1], cs[j + 1..]);
    assert cs[..j + 1] + cs[j + 1..] == cs;
  }

  /** The middle loop, over `config['nodes']`. */
  method CollectConfiguration(id: string, ns: seq<Node>, rows0: seq<MatchRow>, pairs0: seq<(string, string)>)
    returns (ok: bool, rows: seq<MatchRow>, pairs: seq<(string, string)>)
    ensures ok <==> Extractable(NodeMatches(ns))
    ensures ok ==> rows == rows0 + MatchRows(NodeMatches(ns)) && pairs == pairs0 + PairsOf(id, MatchRows(NodeMatches(ns)))
  {
    rows, pairs := rows0, pairs0;
    for j := 0 to |ns|
      invariant Extractable(NodeMatches(ns[..j]))
      invariant rows == rows0 + MatchRows(NodeMatches(ns[..j]))
      invariant pairs == pairs0 + PairsOf(id, MatchRows(NodeMatches(ns[..j])))
    {
      NodeMatchesPrefix(ns, j);
      ghost var done := NodeMatches(ns[..j]);
      ok, rows, pairs := CollectNode(id, ns[j].cpeMatch, rows, pairs);
      if !ok {
        return;
      }
      CollectStep(id, done, ns[j].cpeMatch, rows0, pairs0);
    }
    assert ns[..|ns|] == ns;
    ok := true;
  }

  /** The outer loop, over `vul['cve'].get('configurations', ())`. */
  method CollectEntry(id: string, cs: seq<Configuration>, rows0: seq<MatchRow>, pairs0: seq<(string, string)>)
    returns (ok: bool, rows: seq<MatchRow>, pairs: seq<(string, string)>)
    ensures ok <==> Extractable(ConfigMatches(cs))
    ensures ok ==> rows == rows0 + MatchRows(ConfigMatches(cs)) && pairs == pairs0 + PairsOf(id, MatchRows(ConfigMatches(cs)))
  {
    rows, pairs := rows0, pairs0;
    for j := 0 to |cs|
      invariant Extractable(ConfigMatches(cs[..j]))
      invariant rows == rows0 + MatchRows(ConfigMatches(cs[..j]))
      invariant pairs == pairs0 + PairsOf(id, MatchRows(ConfigMatches(cs[..j])))
    {
      ConfigMatchesPrefix(cs, j);
      ghost var done := ConfigMatches(cs[..j]);
      ok, rows, pairs := CollectConfiguration(id, cs[j].nodes, rows, pairs);
      if !ok {
        return;
      }
      CollectStep(id, done, NodeMatches(cs[j].nodes), rows0, pairs0);
    }
    assert cs[..|cs|] == cs;
    ok := true;
  }

  // ---------------------------------------------------------------- one page

  predicate Rejected(e: CveEntry)
  {
    e.vulnStatus == "Rejected"
  }

  /** Every entry that is not rejected has only extractable vulnerable matches. */
  predicate PageExtractable(content: seq<CveEntry>)
  {
    forall e :: e in content && !Rejected(e) ==> Extractable(EntryMatches(e))
  }

  /** The five lists `save_to_db` builds before it touches a table. */
  datatype Batches = Batches(
    dropped: seq<string>, changed: seq<string>, cves: seq<(string, CveRow)>,
    matches: seq<MatchRow>, configurations: seq<(string, string)>)

  /** What one entry adds to each of the five lists. */
  function RejectedIdOf(e: CveEntry): seq<string>
  {
    if Rejected(e) then [e.id] else []
  }

  function ChangedIdOf(e: CveEntry): seq<string>
  {
    if Rejected(e) then [] else [e.id]
  }

  function CveRowsOf(e: CveEntry): seq<(string, CveRow)>
  {
    if Rejected(e) then [] else [(e.id, CveRowOf(e))]
  }

  function EntryRows(e: CveEntry): seq<MatchRow>
  {
    if Rejected(e) then [] else MatchRows(EntryMatches(e))
  }

  function EntryPairs(e: CveEntry): seq<(string, string)>
  {
    if Rejected(e) then [] else PairsOf(e.id, MatchRows(EntryMatches(e)))
  }

  /** The ids of the rejected entries of a page, in page order. */
  function RejectedIds(content: seq<CveEntry>): seq<string>
  {
    FlatMap(RejectedIdOf, content)
  }

  /** The ids of the other entries, in page order. */
  function ChangedIds(content: seq<CveEntry>): seq<string>
  {
    FlatMap(ChangedIdOf, content)
  }

  /** The `cves` upsert batch. */
  function CveRows(content: seq<CveEntry>): seq<(string, CveRow)>
  {
    FlatMap(CveRowsOf, content)
  }

  /** The `cpe_matches` upsert batch. */
  function MatchBatch(content: seq<CveEntry>): seq<MatchRow>
  {
    FlatMap(EntryRows, content)
  }

  /** The `configurations` insert batch. */
  function PairBatch(content: seq<CveEntry>): seq<(string, string)>
  {
    FlatMap(EntryPairs, content)
  }

  /** The batches of a page. */
  function PageBatches(content: seq<CveEntry>): Batches
  {
    Batches(RejectedIds(content), ChangedIds(content), CveRows(content), MatchBatch(content), PairBatch(content))
  }

  /** One more entry of the page: each batch grows by what the entry adds. */
  lemma PageStep(content: seq<CveEntry>, i: nat)
    requires i < |content|
    ensures RejectedIds(content[..i + 1]) == RejectedIds(content[..i]) + RejectedIdOf(content[i])
    ensures ChangedIds(content[..i + 1]) == ChangedIds(content[..i]) + ChangedIdOf(content[i])
    ensures CveRows(content[..i + 1]) == CveRows(content[..i]) + CveRowsOf(content[i])
    ensures MatchBatch(content[..i + 1]) == MatchBatch(content[..i]) + EntryRows(content[i])
    ensures PairBatch(content[..i + 1]) == PairBatch(content[..i]) + EntryPairs(content[i])
    ensures PageExtractable(content[..i]) && (!Rejected(content[i]) ==> Extractable(EntryMatches(content[i]))) ==>
      PageExtractable(content[..i + 1])
  {
    var e := content[i];
    assert content[..i + 1] == content[..i] + [e];
    FlatMapSnoc(RejectedIdOf, content[..i], e);
    FlatMapSnoc(ChangedIdOf, content[..i], e);
    FlatMapSnoc(CveRowsOf, content[..i], e);
    FlatMapSnoc(EntryRows, content[..i], e);
    FlatMapSnoc(EntryPairs, content[..i], e);
  }

  /** Match rows keyed by their first column, as `INSERT OR REPLACE` keys them. */
  function Keyed(rows: seq<MatchRow>): seq<(string, MatchRow)>
  {
    seq(|rows|, k requires 0 <= k < |rows| => (rows[k].id, rows[k]))
  }

  /** The `cves` table after a page: rejected ids deleted, then the rows upserted. */
  function SavedCves(cves: map<string, CveRow>, b: Batches): map<string, CveRow>
  {
    Upsert(Delete(cves, b.dropped), b.cves)
  }

  /** The `cpe_matches` table after a page: upserts only. */
  function SavedMatches(matches: map<string, MatchRow>, b: Batches): map<string, MatchRow>
  {
    Upsert(matches, Keyed(b.matches))
  }

  /** The `configurations` table after a page: the pairs of changed ids deleted, then the new pairs inserted. */
  function SavedConfigurations(configurations: set<(string, string)>, b: Batches): set<(string, string)>
  {
    (set p | p in configurations && p.0 !in b.changed) + (set p | p in b.configurations)
  }

  lemma BatchesIds(content: seq<CveEntry>, id: string)
    ensures id in RejectedIds(content) <==>
      exists i :: 0 <= i < |content| && content[i].id == id && Rejected(content[i])
    ensures id in ChangedIds(content) <==>
      exists i :: 0 <= i < |content| && content[i].id == id && !Rejected(content[i])
  {
    FlatMapMember(RejectedIdOf, content, id);
    FlatMapMember(ChangedIdOf, content, id);
    if exists i :: 0 <= i < |content| && content[i].id == id && Rejected(content[i]) {
      var i :| 0 <= i < |content| && content[i].id == id && Rejected(content[i]);
      assert id in RejectedIdOf(content[i]);
    }
    if exists i :: 0 <= i < |content| && content[i].id == id && !Rejected(content[i]) {
      var i :| 0 <= i < |content| && content[i].id == id && !Rejected(content[i]);
      assert id in ChangedIdOf(content[i]);
    }
  }

  /** Every entry for `id` after position `i` is rejected. */
  predicate RejectedAfter(content: seq<CveEntry>, id: string, i: int)
  {
    forall j :: 0 <= j < |content| && i < j && content[j].id == id ==> Rejected(content[j])
  }

  /** The upsert batch for `cves` holds, for `id`, the row of its last entry that is not rejected. */
  lemma {:induction false} CveRowsLast(content: seq<CveEntry>, id: string)
    ensures LastValue(CveRows(content), id).None? <==> RejectedAfter(content, id, -1)
    ensures LastValue(CveRows(content), id).Some? ==>
      exists i :: 0 <= i < |content| && content[i].id == id && !Rejected(content[i]) &&
        LastValue(CveRows(content), id).value == CveRowOf(content[i]) && RejectedAfter(content, id, i)
    decreases |content|
  {
    if content != [] {
      var n := |content| - 1;
      var init, e := content[..n], content[n];
      CveRowsLast(init, id);
      PageStep(content, n);
      assert content[..n + 1] == content;
      LastValueSnoc(CveRows(init), CveRowsOf(e), id);
      if !Rejected(e) && e.id == id {
        assert LastValue(CveRows(content), id) == Some(CveRowOf(content[n]));
        assert !RejectedAfter(content, id, -1) by { assert content[n].id == id; }
      } else {
        assert LastValue(CveRows(content), id) == LastValue(CveRows(init), id);
        RejectedAfterStep(content, id, -1);
        if LastValue(CveRows(init), id).Some? {
          var i :| 0 <= i < |init| && init[i].id == id && !Rejected(init[i]) &&
            LastValue(CveRows(init), id).value == CveRowOf(init[i]) && RejectedAfter(init, id, i);
          RejectedAfterStep(content, id, i);
          assert content[i] == init[i];
        }
      }
    }
  }

  /** The last entry of the page, when it is not for `id` or is rejected, does not change `RejectedAfter`. */
  lemma RejectedAfterStep(content: seq<CveEntry>, id: string, i: int)
    requires content != [] && -1 <= i < |content| - 1
    requires content[|content| - 1].id == id ==> Rejected(content[|content| - 1])
    ensures RejectedAfter(content, id, i) <==> RejectedAfter(content[..|content| - 1], id, i)
  {
    var init := content[..|content| - 1];
    assert forall j :: 0 <= j < |init| ==> init[j] == content[j];
  }

  /** `r` is one of the rows collected from `e`, an entry that is not rejected. */
  predicate Collected(e: CveEntry, r: MatchRow)
  {
    !Rejected(e) && Extractable(EntryMatches(e)) && r in MatchRows(EntryMatches(e))
  }

  /** Some row collected from `e`, an entry that is not rejected, has match id `mid`. */
  predicate CollectedId(e: CveEntry, mid: string)
  {
    !Rejected(e) && Extractable(EntryMatches(e)) && exists r :: r in MatchRows(EntryMatches(e)) && r.id == mid
  }

  /** A pair of the configurations batch comes from a collected row of an entry that is not rejected. */
  lemma BatchesConfigurations(content: seq<CveEntry>, p: (string, string))
    requires PageExtractable(content)
    ensures p in PairBatch(content) <==>
      exists i :: 0 <= i < |content| && content[i].id == p.0 && CollectedId(content[i], p.1)
  {
    FlatMapMember(EntryPairs, content, p);
    forall e | e in content
      ensures p in EntryPairs(e) <==> e.id == p.0 && CollectedId(e, p.1)
    {
      if !Rejected(e) {
        PairsOfMember(e.id, MatchRows(EntryMatches(e)), p);
      }
    }
    if exists i :: 0 <= i < |content| && content[i].id == p.0 && CollectedId(content[i], p.1) {
      var i :| 0 <= i < |content| && content[i].id == p.0 && CollectedId(content[i], p.1);
      assert content[i] in content;
    }
  }

  /** A row of the matches batch is a collected row of an entry that is not rejected. */
  lemma BatchesMatches(content: seq<CveEntry>, r: MatchRow)
    requires PageExtractable(content)
    ensures r in MatchBatch(content) <==> exists i :: 0 <= i < |content| && Collected(content[i], r)
  {
    FlatMapMember(EntryRows, content, r);
    forall e | e in content
      ensures r in EntryRows(e) <==> Collected(e, r)
    {
    }
    if exists i :: 0 <= i < |content| && Collected(content[i], r) {
      var i :| 0 <= i < |content| && Collected(content[i], r);
      assert content[i] in content;
    }
  }

  /**
   * `save_to_db` on `cves`: an id with an entry that is not rejected holds the
   * row of its last such entry (deletes run first, so a rejected twin in the
   * same page does not remove it); an id whose entries are all rejected is
   * removed; an id the page does not mention keeps its row.
   */
  lemma SavedCvesAt(cves: map<string, CveRow>, content: seq<CveEntry>, id: string)
    requires PageExtractable(content)
    ensures (exists i :: 0 <= i < |content| && content[i].id == id && !Rejected(content[i])) ==>
      exists i :: 0 <= i < |content| && content[i].id == id && !Rejected(content[i]) &&
        Lookup(SavedCves(cves, PageBatches(content)), id) == Some(CveRowOf(content[i])) &&
        forall j :: 0 <= j < |content| && i < j && content[j].id == id ==> Rejected(content[j])
    ensures ((exists i :: 0 <= i < |content| && content[i].id == id) &&
             (forall i :: 0 <= i < |content| && content[i].id == id ==> Rejected(content[i]))) ==>
      id !in SavedCves(cves, PageBatches(content))
    ensures (forall i :: 0 <= i < |content| ==> content[i].id != id) ==>
      Lookup(SavedCves(cves, PageBatches(content)), id) == Lookup(cves, id)
  {
    var b := PageBatches(content);
    BatchesIds(content, id);
    CveRowsLast(content, id);
    UpsertLookup(Delete(cves, b.dropped), b.cves, id);
  }

  /** A match `save_to_db` keeps: vulnerable, readable, and with a product other than `-`. */
  predicate Kept(m: CpeMatch)
  {
    m.vulnerable && |Split(m.criteria)| >= 6 && Product(m.criteria) != "-"
  }

  /** The match ids collected for one entry are the ids of its kept matches. */
  lemma EntryMatchIds(e: CveEntry, mid: string)
    requires Extractable(EntryMatches(e))
    ensures (exists r :: r in MatchRows(EntryMatches(e)) && r.id == mid) <==>
      exists m :: m in EntryMatches(e) && Kept(m) && m.matchCriteriaId == mid
  {
    var ms := EntryMatches(e);
    if exists r :: r in MatchRows(ms) && r.id == mid {
      var r :| r in MatchRows(ms) && r.id == mid;
      MatchRowsMember(ms, r);
      var m :| m in ms && m.vulnerable && MatchRowOf(m) == Some(r);
      MatchRowShape(m);
    }
    if exists m :: m in ms && Kept(m) && m.matchCriteriaId == mid {
      var m :| m in ms && Kept(m) && m.matchCriteriaId == mid;
      MatchRowShape(m);
      MatchRowsMember(ms, MatchRowOf(m).value);
    }
  }

  /**
   * `save_to_db` on `configurations`: for an id with an entry that is not
   * rejected, the pairs become exactly those of the kept matches of its
   * entries in this page; the pairs of any other id, rejected ones
   * included, are left as they were.
   */
  lemma SavedConfigurationsAt(configurations: set<(string, string)>, content: seq<CveEntry>, id: string, mid: string)
    requires PageExtractable(content)
    ensures (exists i :: 0 <= i < |content| && content[i].id == id && !Rejected(content[i])) ==>
      ((id, mid) in SavedConfigurations(configurations, PageBatches(content)) <==>
        exists i, m :: 0 <= i < |content| && content[i].id == id && !Rejected(content[i]) &&
          m in EntryMatches(content[i]) && Kept(m) && m.matchCriteriaId == mid)
    ensures (forall i :: 0 <= i < |content| && content[i].id == id ==> Rejected(content[i])) ==>
      ((id, mid) in SavedConfigurations(configurations, PageBatches(content)) <==> (id, mid) in configurations)
  {
    BatchesIds(content, id);
    BatchesConfigurations(content, (id, mid));
    forall i | 0 <= i < |content| && content[i].id == id && !Rejected(content[i])
      ensures (exists r :: r in MatchRows(EntryMatches(content[i])) && r.id == mid) <==>
        exists m :: m in EntryMatches(content[i]) && Kept(m) && m.matchCriteriaId == mid
    {
      assert content[i] in content;
      EntryMatchIds(content[i], mid);
    }
  }

  /**
   * `save_to_db` on `cpe_matches`: no row is ever deleted, and a match id is
   * present afterwards exactly when it was before or a row of the batch has it.
   */
  lemma SavedMatchesKeys(matches: map<string, MatchRow>, content: seq<CveEntry>, mid: string)
    requires PageExtractable(content)
    ensures matches.Keys <= SavedMatches(matches, PageBatches(content)).Keys
    ensures mid in SavedMatches(matches, PageBatches(content)) <==>
      mid in matches || exists r :: r in MatchBatch(content) && r.id == mid
  {
    assert SavedMatches(matches, PageBatches(content)) == Upsert(matches, Keyed(MatchBatch(content)));
    KeyedUpsertKeys(matches, MatchBatch(content), mid);
  }

  /** Upserting match rows by their id adds exactly the ids of the rows. */
  lemma KeyedUpsertKeys(matches: map<string, MatchRow>, rows: seq<MatchRow>, mid: string)
    ensures matches.Keys <= Upsert(matches, Keyed(rows)).Keys
    ensures mid in Upsert(matches, Keyed(rows)) <==> mid in matches || exists r :: r in rows && r.id == mid
  {
    UpsertKeys(matches, Keyed(rows));
    if exists r :: r in rows && r.id == mid {
      var r :| r in rows && r.id == mid;
      var k :| 0 <= k < |rows| && rows[k] == r;
      assert Keyed(rows)[k] == (mid, r);
    }
  }

  // ---------------------------------------------------------------- load_all

  /** The joined row of a configuration pair whose match exists. */
  function JoinedOf(matches: map<string, MatchRow>, p: (string, string)): Cve.JoinedRow
    requires p.1 in matches
  {
    var m := matches[p.1];
    Cve.JoinedRow(p.0, p.1, m.criteria, m.vStart, m.vEnd, m.opStart, m.opEnd)
  }

  /** The rows of the inner join of `configurations` with `cves` and `cpe_matches`. */
  function Joined(cves: map<string, CveRow>, matches: map<string, MatchRow>, configurations: set<(string, string)>)
    : (r: set<Cve.JoinedRow>)
    ensures forall x :: x in r <==>
      (x.cveId, x.matchId) in configurations && x.cveId in cves && x.matchId in matches &&
      x == JoinedOf(matches, (x.cveId, x.matchId))
  {
    set p | p in configurations && p.0 in cves && p.1 in matches :: JoinedOf(matches, p)
  }

  /** `ORDER BY cve_id`, by code point (SQLite's default BINARY collation). */
  predicate SortedByCve(rows: seq<Cve.JoinedRow>)
  {
    forall i, j :: 0 <= i < j < |rows| ==> LessEq(rows[i].cveId, rows[j].cveId)
  }

  /** Inserts a row after every row whose cve id is not greater. */
  function InsertSorted(rows: seq<Cve.JoinedRow>, x: Cve.JoinedRow): seq<Cve.JoinedRow>
    decreases |rows|
  {
    if rows == [] then [x]
    else if LessEq(x.cveId, rows[0].cveId) then [x] + rows
    else [rows[0]] + InsertSorted(rows[1..], x)
  }

  /** Insertion adds exactly the one row. */
  lemma {:induction false} InsertSortedAdds(rows: seq<Cve.JoinedRow>, x: Cve.JoinedRow)
    ensures multiset(InsertSorted(rows, x)) == multiset(rows) + multiset{x}
    decreases |rows|
  {
    if rows != [] && !LessEq(x.cveId, rows[0].cveId) {
      InsertSortedAdds(rows[1..], x);
      assert rows == [rows[0]] + rows[1..];
    }
  }

  /** A row no greater than every row of a sorted list can go in front of it. */
  lemma SortedCons(h: Cve.JoinedRow, rest: seq<Cve.JoinedRow>)
    requires SortedByCve(rest)
    requires forall k :: 0 <= k < |rest| ==> LessEq(h.cveId, rest[k].cveId)
    ensures SortedByCve([h] + rest)
  {
    var r := [h] + rest;
    forall i, j | 0 <= i < j < |r|
      ensures LessEq(r[i].cveId, r[j].cveId)
    {
      if i == 0 {
        assert r[j] == rest[j - 1];
      } else {
        assert r[i] == rest[i - 1] && r[j] == rest[j - 1];
      }
    }
  }

  /** Inserting a row keeps a lower bound that the row and every listed row respect. */
  lemma {:induction false} InsertSortedAbove(rows: seq<Cve.JoinedRow>, x: Cve.JoinedRow, b: string)
    requires LessEq(b, x.cveId)
    requires forall k :: 0 <= k < |rows| ==> LessEq(b, rows[k].cveId)
    ensures forall k :: 0 <= k < |InsertSorted(rows, x)| ==> LessEq(b, InsertSorted(rows, x)[k].cveId)
    decreases |rows|
  {
    if rows != [] && !LessEq(x.cveId, rows[0].cveId) {
      var tail := rows[1..];
      assert forall k :: 0 <= k < |tail| ==> tail[k] == rows[k + 1];
      InsertSortedAbove(tail, x, b);
      var r := InsertSorted(rows, x);
      assert r == [rows[0]] + InsertSorted(tail, x);
      forall k | 0 < k < |r|
        ensures LessEq(b, r[k].cveId)
      {
        assert r[k] == InsertSorted(tail, x)[k - 1];
      }
    }
  }

  /** Insertion keeps the rows sorted. */
  lemma {:induction false} InsertSortedSorts(rows: seq<Cve.JoinedRow>, x: Cve.JoinedRow)
    requires SortedByCve(rows)
    ensures SortedByCve(InsertSorted(rows, x))
    decreases |rows|
  {
    if rows == [] {
    } else if LessEq(x.cveId, rows[0].cveId) {
      forall j | 0 < j < |rows|
        ensures LessEq(x.cveId, rows[j].cveId)
      {
        LessEqTotalOrder(x.cveId, rows[0].cveId, rows[j].cveId);
      }
      SortedCons(x, rows);
    } else {
      var tail := rows[1..];
      assert forall k :: 0 <= k < |tail| ==> tail[k] == rows[k + 1];
      InsertSortedSorts(tail, x);
      LessEqTotalOrder(rows[0].cveId, x.cveId, x.cveId);
      InsertSortedAbove(tail, x, rows[0].cveId);
      SortedCons(rows[0], InsertSorted(tail, x));
    }
  }

  /** Adding one configuration pair adds its joined row, when both its cve and its match exist. */
  lemma JoinedAdd(cves: map<string, CveRow>, matches: map<string, MatchRow>,
                  done: set<(string, string)>, p: (string, string))
    requires p !in done
    ensures p.0 in cves && p.1 in matches ==>
      multiset(Joined(cves, matches, done + {p})) == multiset(Joined(cves, matches, done)) + multiset{JoinedOf(matches, p)}
    ensures !(p.0 in cves && p.1 in matches) ==> Joined(cves, matches, done + {p}) == Joined(cves, matches, done)
  {
    if p.0 in cves && p.1 in matches {
      var x := JoinedOf(matches, p);
      assert x !in Joined(cves, matches, done);
      assert Joined(cves, matches, done + {p}) == Joined(cves, matches, done) + {x};
    }
  }

  class CveDb {
    /** The `cves` table, keyed by id. */
    var cves: map<string, CveRow>
    /** The `cpe_matches` table, keyed by match id. */
    var cpeMatches: map<string, MatchRow>
    /** The `configurations` table: `UNIQUE (cve_id, cpe_match_id)`. */
    var configurations: set<(string, string)>

    /** A cache file holding the three tables. */
    constructor (storedCves: map<string, CveRow>, storedMatches: map<string, MatchRow>,
                 storedConfigurations: set<(string, string)>)
      ensures cves == storedCves && cpeMatches == storedMatches && configurations == storedConfigurations
    {
      cves := storedCves;
      cpeMatches := storedMatches;
      configurations := storedConfigurations;
    }

    /**
     * `save_to_db`: builds the five batches, then runs the deletes and the
     * upserts. An IndexError while reading a criteria escapes before any
     * table is touched.
     */
    method SaveToDb(content: seq<CveEntry>) returns (r: Result<bool, Cve.PyException>)
      modifies this
      ensures r.Err? <==> !PageExtractable(content)
      ensures r.Err? ==>
        && r.error == Cve.IndexError
        && cves == old(cves) && cpeMatches == old(cpeMatches) && configurations == old(configurations)
      ensures r.Ok? ==>
        && r.value
        && cves == SavedCves(old(cves), PageBatches(content))
        && cpeMatches == SavedMatches(old(cpeMatches), PageBatches(content))
        && configurations == SavedConfigurations(old(configurations), PageBatches(content))
    {
      var dropped: seq<string> := [];
      var changed: seq<string> := [];
      var cveRows: seq<(string, CveRow)> := [];
      var matchRows: seq<MatchRow> := [];
      var pairs: seq<(string, string)> := [];
      for i := 0 to |content|
        invariant PageExtractable(content[..i])
        invariant dropped == RejectedIds(content[..i]) && changed == ChangedIds(content[..i])
        invariant cveRows == CveRows(content[..i])
        invariant matchRows == MatchBatch(content[..i]) && pairs == PairBatch(content[..i])
        invariant cves == old(cves) && cpeMatches == old(cpeMatches) && configurations == old(configurations)
      {
        PageStep(content, i);
        var e := content[i];
        if Rejected(e) {
          dropped := dropped + [e.id];
          continue;
        }
        changed := changed + [e.id];
        var row := ExtractCveData(e);
        cveRows := cveRows + [(e.id, row)];
        var ok;
        ok, matchRows, pairs := CollectEntry(e.id, e.configurations, matchRows, pairs);
        if !ok {
          assert e in content;
          return Err(Cve.IndexError);
        }
      }
      assert content[..|content|] == content;
      cves := Upsert(Delete(cves, dropped), cveRows);
      configurations := (set p | p in configurations && p.0 !in changed) + (set p | p in pairs);
      cpeMatches := Upsert(cpeMatches, Keyed(matchRows));
      r := Ok(true);
    }

    /** The `SELECT ... INNER JOIN ... ORDER BY cve_id` of `load_all`. */
    method Select() returns (rows: seq<Cve.JoinedRow>)
      ensures SortedByCve(rows)
      ensures multiset(rows) == multiset(Joined(cves, cpeMatches, configurations))
    {
      rows := [];
      var remaining := configurations;
      ghost var done: set<(string, string)> := {};
      while remaining != {}
        invariant remaining + done == configurations && remaining !! done
        invariant SortedByCve(rows)
        invariant multiset(rows) == multiset(Joined(cves, cpeMatches, done))
        decreases |remaining|
      {
        var p :| p in remaining;
        JoinedAdd(cves, cpeMatches, done, p);
        if p.0 in cves && p.1 in cpeMatches {
          InsertSortedSorts(rows, JoinedOf(cpeMatches, p));
          InsertSortedAdds(rows, JoinedOf(cpeMatches, p));
          rows := InsertSorted(rows, JoinedOf(cpeMatches, p));
        }
        remaining := remaining - {p};
        done := done + {p};
      }
    }

    /** `load_all`, after its update check: one `CVE` per joined row, in query order. */
    method LoadAll() returns (rows: seq<Cve.JoinedRow>, result: seq<Cve.Cve>)
      ensures SortedByCve(rows)
      ensures multiset(rows) == multiset(Joined(cves, cpeMatches, configurations))
      ensures |result| == |rows| && forall i :: 0 <= i < |rows| ==> result[i] == Cve.FromRow(rows[i])
    {
      rows := Select();
      result := [];
      for i := 0 to |rows|
        invariant |result| == i && forall k :: 0 <= k < i ==> result[k] == Cve.FromRow(rows[k])
      {
        result := result + [Cve.FromRow(rows[i])];
      }
    }
  }

  /** An id whose entries in a page are all rejected is never loaded again, whatever the other tables hold. */
  lemma RejectedNotLoaded(cves: map<string, CveRow>, matches: map<string, MatchRow>,
                          configurations: set<(string, string)>, content: seq<CveEntry>, id: string)
    requires PageExtractable(content)
    requires exists i :: 0 <= i < |content| && content[i].id == id
    requires forall i :: 0 <= i < |content| && content[i].id == id ==> Rejected(content[i])
    ensures forall x :: x in Joined(SavedCves(cves, PageBatches(content)), matches, configurations) ==> x.cveId != id
  {
    SavedCvesAt(cves, content, id);
  }
}
