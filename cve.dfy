/**
 * The `CVE` class of support/scripts/cve.py: one (CVE, CPE match) row of
 * the cache and the three-valued `affects` classifier.
 */
module Cve {
  import opened Optional
  import opened Strings
  import opened CpeId
  import opened LooseVersion

  /** `CVE_AFFECTS` (1), `CVE_DOESNT_AFFECT` (2), `CVE_UNKNOWN` (3). */
  datatype Status = Affects | DoesntAffect | Unknown

  /** The exceptions that can escape `affects`. */
  datatype PyException = IndexError | AttributeError

  /** A row of the `load_all` query, columns in SELECT order. */
  datatype JoinedRow = JoinedRow(
    cveId: string, matchId: string, criteria: string,
    versionStart: string, versionEnd: string, operatorStart: string, operatorEnd: string)

  /** A `CVE` object. */
  datatype Cve = Cve(id: string, matchCriteria: string, vStart: string, vEnd: string, opStart: string, opEnd: string)

  /** `CVE.__init__(nvd_cve)`: takes columns 0 and 2..6; the match id (column 1) is not kept. */
  function FromRow(row: JoinedRow): Cve
  {
    Cve(row.cveId, row.criteria, row.versionStart, row.versionEnd, row.operatorStart, row.operatorEnd)
  }

  /** The keys of `CVE.ops`. */
  predicate KnownOp(op: string)
  {
    op == ">=" || op == ">" || op == "<=" || op == "<" || op == "="
  }

  /** `CVE.ops[op]` applied to a `_cmp` result. */
  function ApplyOp(op: string, o: Ordering): bool
    requires KnownOp(op)
  {
    if op == ">=" then o != Below
    else if op == ">" then o == Above
    else if op == "<=" then o != Above
    else if op == "<" then o == Below
    else o == Same
  }

  /** Python's `'%s' % v` of the `version` argument. */
  function PyStr(v: Option<string>): string
  {
    if v.None? then "None" else v.value
  }

  /** Truthiness of the `cpeid` argument. */
  predicate Given(cpeid: Option<string>)
  {
    cpeid.Some? && cpeid.value != ""
  }

  /** The fields of `"cpe:2.3:*:*:%s:%s:*:*:*:*:*:*:*" % (name, version)`, in order. */
  function QueryFields(name: string, version: Option<string>): seq<string>
  {
    ["cpe", "2.3", "*", "*", name, PyStr(version), "*", "*", "*", "*", "*", "*", "*"]
  }

  /** The query identifier: the format string above, its fields joined by colons. */
  function Query(name: string, version: Option<string>): string
  {
    Join(QueryFields(name, version))
  }

  /** The identifier `affects` matches against. */
  function QueryOf(name: string, version: Option<string>, cpeid: Option<string>): string
  {
    if Given(cpeid) then cpeid.value else Query(name, version)
  }

  /** What `pkg_version` holds after cve.py:67-79: `None`, or a LooseVersion that may lack `.version`. */
  datatype PkgVersion = PyNone | Loose(version: Option<seq<Chunk>>)

  function PkgOf(version: Option<string>, cpeid: Option<string>): PkgVersion
    requires Given(cpeid) ==> |Split(cpeid.value)| >= 6
  {
    if Given(cpeid) then Loose(Parse(Some(CpeId.Version(cpeid.value))))
    else if Parse(version).None? then PyNone
    else Loose(Parse(version))
  }

  /** The outcome of the `try` block for one bound. */
  datatype BoundOutcome = InRange | OutOfRange | RaisesTypeError | RaisesAttributeError

  /**
   * cve.py:88-110 for one bound: an empty bound is not checked; an unknown
   * operator makes `ops.get` return None, whose call raises TypeError; a
   * package version without `.version` raises AttributeError inside `_cmp`.
   */
  function CheckBound(bound: string, op: string, pkg: Option<seq<Chunk>>): (r: BoundOutcome)
    ensures r == RaisesAttributeError ==> bound != "" && KnownOp(op) && pkg.None?
  {
    if bound == "" then InRange
    else if !KnownOp(op) then RaisesTypeError
    else if pkg.None? then RaisesAttributeError
    else match Compare(pkg.value, Chunks(bound))
      case None => RaisesTypeError
      case Some(o) => if ApplyOp(op, o) then InRange else OutOfRange
  }

  /**
   * `CVE.affects(name, version, cve_ignore_list, cpeid)`: returns the
   * classification, or the exception that escapes it. `version` and `cpeid`
   * may be `None`. Without a cpeid nothing escapes.
   */
  function Classify(cve: Cve, name: string, version: Option<string>, ignoreList: seq<string>, cpeid: Option<string>)
    : (r: Result<Status, PyException>)
    ensures r.Err? ==> Given(cpeid) && cve.id !in ignoreList
  {
    if cve.id in ignoreList then Ok(DoesntAffect)
    else if Given(cpeid) && |Split(cpeid.value)| < 6 then Err(IndexError)
    else Decide(cve, QueryOf(name, version, cpeid), PkgOf(version, cpeid))
  }

  /** cve.py:81-113: the match, then the bounds, once the query and the package version are known. */
  function Decide(cve: Cve, query: string, pkg: PkgVersion): (r: Result<Status, PyException>)
    ensures r.Err? ==> r.error == AttributeError && pkg == Loose(None)
  {
    if !Matches(cve.matchCriteria, query) then Ok(DoesntAffect)
    else if cve.vStart == "" && cve.vEnd == "" then Ok(Affects)
    else if pkg.PyNone? then Ok(DoesntAffect)
    else
      var start := CheckBound(cve.vStart, cve.opStart, pkg.version);
      if start == RaisesTypeError then Ok(Unknown)
      else if start == RaisesAttributeError then Err(AttributeError)
      else if start == OutOfRange then Ok(DoesntAffect)
      else
        var end := CheckBound(cve.vEnd, cve.opEnd, pkg.version);
        if end == RaisesTypeError then Ok(Unknown)
        else if end == RaisesAttributeError then Err(AttributeError)
        else if end == OutOfRange then Ok(DoesntAffect)
        else Ok(Affects)
  }

  /** A bound is satisfied: absent, or its operator holds without raising. */
  predicate BoundHolds(bound: string, op: string, v: seq<Chunk>)
  {
    bound == "" ||
    (KnownOp(op) && Compare(v, Chunks(bound)).Some? && ApplyOp(op, Compare(v, Chunks(bound)).value))
  }

  /** Checking a bound raises TypeError: unknown operator, or an int met a str. */
  predicate BoundRaises(bound: string, op: string, v: seq<Chunk>)
  {
    bound != "" && (!KnownOp(op) || Compare(v, Chunks(bound)).None?)
  }

  /** An id in the ignore list is never reported, whatever the other inputs. */
  lemma IgnoredNeverAffects(cve: Cve, name: string, version: Option<string>, ignoreList: seq<string>, cpeid: Option<string>)
    requires cve.id in ignoreList
    ensures Classify(cve, name, version, ignoreList, cpeid) == Ok(DoesntAffect)
  {
  }

  /** A criteria that does not match the query identifier does not affect the package. */
  lemma MismatchDoesntAffect(cve: Cve, name: string, version: Option<string>, ignoreList: seq<string>, cpeid: Option<string>)
    requires Given(cpeid) ==> |Split(cpeid.value)| >= 6
    requires !Matches(cve.matchCriteria, QueryOf(name, version, cpeid))
    ensures Classify(cve, name, version, ignoreList, cpeid) == Ok(DoesntAffect)
  {
  }

  /** A matching criteria without bounds affects every version, parseable or not. */
  lemma UnboundedMatchAffects(cve: Cve, name: string, version: Option<string>, ignoreList: seq<string>, cpeid: Option<string>)
    requires cve.id !in ignoreList
    requires Given(cpeid) ==> |Split(cpeid.value)| >= 6
    requires Matches(cve.matchCriteria, QueryOf(name, version, cpeid))
    requires cve.vStart == "" && cve.vEnd == ""
    ensures Classify(cve, name, version, ignoreList, cpeid) == Ok(Affects)
  {
  }

  /** Without a cpeid, a `None` or empty version against a bounded criteria gives DOESNT_AFFECT, not UNKNOWN. */
  lemma MissingVersionDoesntAffect(cve: Cve, name: string, version: Option<string>, ignoreList: seq<string>)
    requires version.None? || version.value == ""
    requires cve.vStart != "" || cve.vEnd != ""
    ensures Classify(cve, name, version, ignoreList, None) == Ok(DoesntAffect)
  {
  }

  /** With a cpeid, neither the package name nor the `version` argument plays a part. */
  lemma CpeidOverridesVersion(cve: Cve, name1: string, version1: Option<string>,
                              name2: string, version2: Option<string>, ignoreList: seq<string>, cpeid: Option<string>)
    requires Given(cpeid)
    ensures Classify(cve, name1, version1, ignoreList, cpeid) == Classify(cve, name2, version2, ignoreList, cpeid)
  {
    if |Split(cpeid.value)| >= 6 {
      assert QueryOf(name1, version1, cpeid) == QueryOf(name2, version2, cpeid);
      assert PkgOf(version1, cpeid) == PkgOf(version2, cpeid);
    }
  }

  /** A cpeid with fewer than six components raises IndexError unless the id is ignored. */
  lemma ShortCpeidRaises(cve: Cve, name: string, version: Option<string>, ignoreList: seq<string>, cpeid: Option<string>)
    requires cve.id !in ignoreList && Given(cpeid) && |Split(cpeid.value)| < 6
    ensures Classify(cve, name, version, ignoreList, cpeid) == Err(IndexError)
  {
  }

  /**
   * A cpeid whose version component is empty gives a LooseVersion without
   * `.version`; the first present bound with a known operator then raises
   * AttributeError out of `affects`.
   */
  lemma EmptyCpeidVersionRaises(cve: Cve, name: string, version: Option<string>, ignoreList: seq<string>, cpeid: Option<string>)
    requires cve.id !in ignoreList && Given(cpeid) && |Split(cpeid.value)| >= 6
    requires CpeId.Version(cpeid.value) == ""
    requires Matches(cve.matchCriteria, cpeid.value)
    ensures cve.vStart != "" && KnownOp(cve.opStart) ==>
      Classify(cve, name, version, ignoreList, cpeid) == Err(AttributeError)
    ensures cve.vStart == "" && cve.vEnd != "" && KnownOp(cve.opEnd) ==>
      Classify(cve, name, version, ignoreList, cpeid) == Err(AttributeError)
  {
    assert PkgOf(version, cpeid) == Loose(None);
    assert Classify(cve, name, version, ignoreList, cpeid) == Decide(cve, cpeid.value, Loose(None));
    DecideWithoutVersion(cve, cpeid.value);
  }

  /** With a matching query and a package version lacking `.version`, the first checked bound raises. */
  lemma DecideWithoutVersion(cve: Cve, query: string)
    requires Matches(cve.matchCriteria, query)
    ensures cve.vStart != "" && KnownOp(cve.opStart) ==> Decide(cve, query, Loose(None)) == Err(AttributeError)
    ensures cve.vStart == "" && cve.vEnd != "" && KnownOp(cve.opEnd) ==> Decide(cve, query, Loose(None)) == Err(AttributeError)
  {
  }

  /** The components of the query built from a package name and version. */
  lemma QueryComponents(name: string, version: Option<string>)
    requires ':' !in name && ':' !in PyStr(version)
    ensures Split(Query(name, version)) == QueryFields(name, version)
    ensures |Split(Query(name, version))| == 13
    ensures CpeId.Product(Query(name, version)) == name
    ensures CpeId.Version(Query(name, version)) == PyStr(version)
  {
    var xs := QueryFields(name, version);
    forall i | 0 <= i < |xs|
      ensures ':' !in xs[i]
    {
    }
    SplitJoin(xs);
  }

  /** With a parsed package version, one bound holds, fails or raises TypeError, and only one of these. */
  lemma CheckBoundCases(bound: string, op: string, v: seq<Chunk>)
    ensures CheckBound(bound, op, Some(v)) == InRange <==> BoundHolds(bound, op, v)
    ensures CheckBound(bound, op, Some(v)) == RaisesTypeError <==> BoundRaises(bound, op, v)
    ensures CheckBound(bound, op, Some(v)) != RaisesAttributeError
  {
  }

  /**
   * Once the criteria matches, has a bound, and the package version parsed,
   * the bounds decide: AFFECTS exactly when every present bound holds,
   * UNKNOWN exactly when the first bound checked that does not hold raises
   * TypeError, DOESNT_AFFECT exactly when it fails.
   */
  lemma BoundsDecide(cve: Cve, name: string, version: Option<string>, ignoreList: seq<string>,
                     cpeid: Option<string>, v: seq<Chunk>)
    requires cve.id !in ignoreList
    requires Given(cpeid) ==> |Split(cpeid.value)| >= 6
    requires Matches(cve.matchCriteria, QueryOf(name, version, cpeid))
    requires cve.vStart != "" || cve.vEnd != ""
    requires PkgOf(version, cpeid) == Loose(Some(v))
    ensures Classify(cve, name, version, ignoreList, cpeid) == Ok(Affects) <==>
      BoundHolds(cve.vStart, cve.opStart, v) && BoundHolds(cve.vEnd, cve.opEnd, v)
    ensures Classify(cve, name, version, ignoreList, cpeid) == Ok(Unknown) <==>
      BoundRaises(cve.vStart, cve.opStart, v) ||
      (BoundHolds(cve.vStart, cve.opStart, v) && BoundRaises(cve.vEnd, cve.opEnd, v))
    ensures Classify(cve, name, version, ignoreList, cpeid).Ok?
  {
    assert Classify(cve, name, version, ignoreList, cpeid) == Decide(cve, QueryOf(name, version, cpeid), Loose(Some(v)));
    CheckBoundCases(cve.vStart, cve.opStart, v);
    CheckBoundCases(cve.vEnd, cve.opEnd, v);
  }

  /** A lower bound `>=` admits exactly the bound's own version and rejects a version below it. */
  lemma LowerBoundInclusive(cve: Cve, name: string, ignoreList: seq<string>, pkg: string)
    requires cve.id !in ignoreList
    requires pkg != ""
    requires Matches(cve.matchCriteria, Query(name, Some(pkg)))
    requires cve.vStart != "" && cve.opStart == ">=" && cve.vEnd == ""
    ensures Chunks(pkg) == Chunks(cve.vStart) ==> Classify(cve, name, Some(pkg), ignoreList, None) == Ok(Affects)
    ensures Compare(Chunks(pkg), Chunks(cve.vStart)) == Some(Below) ==>
      Classify(cve, name, Some(pkg), ignoreList, None) == Ok(DoesntAffect)
  {
    var c := Chunks(pkg);
    assert PkgOf(Some(pkg), None) == Loose(Some(c));
    BoundsDecide(cve, name, Some(pkg), ignoreList, None, c);
    CompareSame(c, Chunks(cve.vStart));
  }

  /**
   * `=` goes through `_cmp` like every other operator, so an equality bound
   * whose chunks are of another kind than the package's yields UNKNOWN.
   */
  lemma EqualityMayRaise(cve: Cve, name: string, ignoreList: seq<string>)
    requires cve.id !in ignoreList
    requires Matches(cve.matchCriteria, Query(name, Some("1")))
    requires cve.vStart == "a" && cve.opStart == "=" && cve.vEnd == ""
    ensures Classify(cve, name, Some("1"), ignoreList, None) == Ok(Unknown)
  {
    MixedKinds();
  }

  /** An upper bound `<` admits a version whose chunks are below the bound's and rejects the bound itself and any version above it. */
  lemma UpperBoundExclusive(cve: Cve, name: string, ignoreList: seq<string>, pkg: string)
    requires cve.id !in ignoreList
    requires pkg != ""
    requires Matches(cve.matchCriteria, Query(name, Some(pkg)))
    requires cve.vStart == "" && cve.vEnd != "" && cve.opEnd == "<"
    ensures Compare(Chunks(pkg), Chunks(cve.vEnd)) == Some(Below) ==>
      Classify(cve, name, Some(pkg), ignoreList, None) == Ok(Affects)
    ensures Compare(Chunks(pkg), Chunks(cve.vEnd)) == Some(Above) ==>
      Classify(cve, name, Some(pkg), ignoreList, None) == Ok(DoesntAffect)
    ensures Chunks(pkg) == Chunks(cve.vEnd) ==> Classify(cve, name, Some(pkg), ignoreList, None) == Ok(DoesntAffect)
  {
    var c := Chunks(pkg);
    assert PkgOf(Some(pkg), None) == Loose(Some(c));
    BoundsDecide(cve, name, Some(pkg), ignoreList, None, c);
    CompareSame(c, Chunks(cve.vEnd));
  }

  /**
   * "1.1.1k" against an end bound `<` "1.1.1l" affects the package, and
   * "1.1.1m" does not.
   */
  lemma LetteredEndBound(cve: Cve, name: string, ignoreList: seq<string>)
    requires cve.id !in ignoreList
    requires cve.vStart == "" && cve.vEnd == "1.1.1l" && cve.opEnd == "<"
    requires Matches(cve.matchCriteria, Query(name, Some("1.1.1k")))
    requires Matches(cve.matchCriteria, Query(name, Some("1.1.1m")))
    ensures Classify(cve, name, Some("1.1.1k"), ignoreList, None) == Ok(Affects)
    ensures Classify(cve, name, Some("1.1.1m"), ignoreList, None) == Ok(DoesntAffect)
  {
    assert "1.1.1k" == "1.1.1" + ['k'] && "1.1.1l" == "1.1.1" + ['l'] && "1.1.1m" == "1.1.1" + ['m'];
    LetteredOrder('k', 'l');
    LetteredOrder('m', 'l');
    UpperBoundExclusive(cve, name, ignoreList, "1.1.1k");
    UpperBoundExclusive(cve, name, ignoreList, "1.1.1m");
  }
}
