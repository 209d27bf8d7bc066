/**
 * `CPE_ID` (support/scripts/cpe.py): CPE 2.3 formatted strings handled
 * as the list of their colon-separated components. The split is a plain
 * `split(":")`; an escaped `\:` inside a component is split like any
 * other colon, as the script does.
 */
module CpeId {
  import opened Strings

  /** `*` (ANY) and `-` (NA) satisfy any value in `matches`. */
  predicate IsWildcard(x: string)
  {
    x == "*" || x == "-"
  }

  /** The condition of the `filter` at cpe.py:13: both sides literal and different. */
  predicate Conflicts(pair: (string, string))
  {
    !IsWildcard(pair.0) && !IsWildcard(pair.1) && pair.0 != pair.1
  }

  /** Python's `zip`: pairs up to the shorter list. */
  function Zip(xs: seq<string>, ys: seq<string>): (r: seq<(string, string)>)
    ensures |r| == if |xs| < |ys| then |xs| else |ys|
    ensures forall i :: 0 <= i < |r| ==> r[i] == (xs[i], ys[i])
  {
    if xs == [] || ys == [] then []
    else [(xs[0], ys[0])] + Zip(xs[1..], ys[1..])
  }

  /** `filter(Conflicts, pairs)`. */
  function Remains(pairs: seq<(string, string)>): seq<(string, string)>
  {
    if pairs == [] then []
    else (if Conflicts(pairs[0]) then [pairs[0]] else []) + Remains(pairs[1..])
  }

  /** `CPE_ID.matches(cpe1, cpe2)`: no zipped pair survives the filter. */
  predicate Matches(cpe1: string, cpe2: string)
  {
    |Remains(Zip(Split(cpe1), Split(cpe2)))| == 0
  }

  /** `CPE_ID.product(cpe)`: component 4; fewer components raise IndexError. */
  function Product(cpe: string): (r: string)
    requires |Split(cpe)| >= 5
    ensures ':' !in r
  {
    Split(cpe)[4]
  }

  /** `CPE_ID.version(cpe)`: component 5; fewer components raise IndexError. */
  function Version(cpe: string): (r: string)
    requires |Split(cpe)| >= 6
    ensures ':' !in r
  {
    Split(cpe)[5]
  }

  /** Python's `xs[:5]`. */
  function Take5(xs: seq<string>): seq<string>
  {
    if |xs| <= 5 then xs else xs[..5]
  }

  /** `CPE_ID.no_version(cpe)`: the first five components joined by colons. */
  function NoVersion(cpe: string): string
  {
    Join(Take5(Split(cpe)))
  }

  /** Every position both lists have holds a wildcard on one side or equal literals. */
  predicate Agree(xs: seq<string>, ys: seq<string>)
  {
    forall i :: 0 <= i < |xs| && i < |ys| ==> IsWildcard(xs[i]) || IsWildcard(ys[i]) || xs[i] == ys[i]
  }

  /** The filter leaves nothing exactly when no pair conflicts. */
  lemma {:induction false} RemainsEmpty(pairs: seq<(string, string)>)
    ensures |Remains(pairs)| == 0 <==> forall i :: 0 <= i < |pairs| ==> !Conflicts(pairs[i])
  {
    if pairs != [] {
      RemainsEmpty(pairs[1..]);
      assert forall i :: 1 <= i < |pairs| ==> pairs[i] == pairs[1..][i - 1];
    }
  }

  /**
   * `matches` compares the two component lists position by position, up to
   * the shorter one; a wildcard on either side, or equal literals, satisfy
   * a position.
   */
  lemma MatchesComponentwise(cpe1: string, cpe2: string)
    ensures Matches(cpe1, cpe2) <==> Agree(Split(cpe1), Split(cpe2))
  {
    var xs, ys := Split(cpe1), Split(cpe2);
    var pairs := Zip(xs, ys);
    RemainsEmpty(pairs);
    if Matches(cpe1, cpe2) {
      forall i | 0 <= i < |xs| && i < |ys|
        ensures IsWildcard(xs[i]) || IsWildcard(ys[i]) || xs[i] == ys[i]
      {
        assert !Conflicts(pairs[i]);
      }
    } else {
      var i :| 0 <= i < |pairs| && Conflicts(pairs[i]);
      assert i < |xs| && i < |ys| && pairs[i] == (xs[i], ys[i]);
      assert !(IsWildcard(xs[i]) || IsWildcard(ys[i]) || xs[i] == ys[i]);
    }
  }

  /** `matches` is symmetric. */
  lemma MatchesSymmetric(cpe1: string, cpe2: string)
    ensures Matches(cpe1, cpe2) == Matches(cpe2, cpe1)
  {
    MatchesComponentwise(cpe1, cpe2);
    MatchesComponentwise(cpe2, cpe1);
  }

  /** `matches` is reflexive, wildcards or not. */
  lemma MatchesReflexive(cpe: string)
    ensures Matches(cpe, cpe)
  {
    MatchesComponentwise(cpe, cpe);
  }

  /**
   * Only the common prefix of the component lists is compared: an identifier
   * matches every identifier whose components extend its own.
   */
  lemma PrefixMatches(cpe1: string, cpe2: string)
    requires |Split(cpe1)| <= |Split(cpe2)|
    requires Split(cpe1) == Split(cpe2)[..|Split(cpe1)|]
    ensures Matches(cpe1, cpe2)
  {
    MatchesComponentwise(cpe1, cpe2);
    assert forall i :: 0 <= i < |Split(cpe1)| ==> Split(cpe1)[i] == Split(cpe2)[i];
  }

  /**
   * A position where one side holds `*` or `-` never causes a mismatch:
   * the other side's component there can be replaced by anything.
   */
  lemma WildcardPositionIgnored(xs: seq<string>, ys: seq<string>, i: nat, v: string)
    requires |xs| >= 1 && |ys| >= 1 && i < |xs|
    requires forall k :: 0 <= k < |xs| ==> ':' !in xs[k]
    requires forall k :: 0 <= k < |ys| ==> ':' !in ys[k]
    requires ':' !in v
    requires i < |ys| ==> IsWildcard(ys[i])
    ensures Matches(Join(xs[i := v]), Join(ys)) == Matches(Join(xs), Join(ys))
  {
    SplitJoin(xs);
    SplitJoin(ys);
    SplitJoin(xs[i := v]);
    MatchesComponentwise(Join(xs[i := v]), Join(ys));
    MatchesComponentwise(Join(xs), Join(ys));
  }

  /** Wildcards make `matches` non-transitive. */
  lemma MatchesNotTransitive()
    ensures Matches("a", "*") && Matches("*", "b") && !Matches("a", "b")
  {
    SplitColonFree("a");
    SplitColonFree("b");
    SplitColonFree("*");
    MatchesComponentwise("a", "*");
    MatchesComponentwise("*", "b");
    MatchesComponentwise("a", "b");
  }

  /** The components of `no_version(cpe)` are the first five components of `cpe`. */
  lemma NoVersionComponents(cpe: string)
    ensures Split(NoVersion(cpe)) == Take5(Split(cpe))
  {
    var head := Take5(Split(cpe));
    assert forall i :: 0 <= i < |head| ==> head[i] == Split(cpe)[i];
    SplitJoin(head);
  }

  /** `no_version` is idempotent. */
  lemma NoVersionIdempotent(cpe: string)
    ensures NoVersion(NoVersion(cpe)) == NoVersion(cpe)
  {
    NoVersionComponents(cpe);
    JoinSplit(NoVersion(cpe));
  }

  /** Stripping the version keeps the product. */
  lemma ProductOfNoVersion(cpe: string)
    requires |Split(cpe)| >= 5
    ensures |Split(NoVersion(cpe))| == 5
    ensures Product(NoVersion(cpe)) == Product(cpe)
  {
    NoVersionComponents(cpe);
  }

  /**
   * Product, version and version-stripped prefix are consecutive views of
   * the same split: the prefix ends with the product, and the version is
   * the component after it.
   */
  lemma ProjectionsOfComponents(xs: seq<string>)
    requires |xs| >= 6
    requires forall k :: 0 <= k < |xs| ==> ':' !in xs[k]
    ensures Split(Join(xs)) == xs
    ensures Product(Join(xs)) == xs[4] && Version(Join(xs)) == xs[5]
    ensures NoVersion(Join(xs)) == Join(xs[..5])
  {
    SplitJoin(xs);
  }
}
