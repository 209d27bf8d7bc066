/**
 * A model of `distutils.version.LooseVersion`, which cve.py uses for every
 * version comparison. The library is not part of this model; its
 * behaviour is written out here as an assumption, after CPython's
 * `distutils/version.py`:
 *
 * - `LooseVersion(v)` parses only when `v` is truthy; for `None` or `""`
 *   the object has no `.version` attribute.
 * - parsing is `re.split(r'(\d+|[a-z]+|\.)', v)` with the empty pieces and
 *   the `.` pieces dropped and the digit pieces converted by `int`: the
 *   chunks are the maximal runs of digits (ints), the maximal runs of
 *   lower-case letters, and the maximal runs of any other characters
 *   (strings). Only ASCII digits are modelled.
 * - `_cmp` first tests the chunk lists with `==` (which never raises),
 *   then with `<`, which compares at the first position where the lists
 *   differ and raises TypeError when that position pairs an int with a
 *   string. Every comparison operator, `==` included, goes through `_cmp`.
 */
module LooseVersion {
  import opened Optional
  import opened Strings

  /** One parsed component: an `int` or a `str`. */
  datatype Chunk = Num(n: nat) | Str(s: string)

  /** The result of `_cmp`. */
  datatype Ordering = Below | Same | Above

  /** The character classes of the component regular expression. */
  datatype CharClass = Digit | Lower | Dot | Other

  function ClassOf(c: char): CharClass
  {
    if '0' <= c <= '9' then Digit
    else if 'a' <= c <= 'z' then Lower
    else if c == '.' then Dot
    else Other
  }

  /** Length of the maximal run of characters of class `k` at the head of `s`. */
  function RunLength(s: string, k: CharClass): (n: nat)
    ensures n <= |s|
    ensures forall i :: 0 <= i < n ==> ClassOf(s[i]) == k
    ensures n == |s| || ClassOf(s[n]) != k
  {
    if s == [] || ClassOf(s[0]) != k then 0 else 1 + RunLength(s[1..], k)
  }

  /** `int(ds)` for a string of ASCII digits. */
  function DigitsValue(ds: string): nat
    decreases |ds|
  {
    if ds == [] then 0
    else
      var d := ds[|ds| - 1];
      DigitsValue(ds[..|ds| - 1]) * 10 + (if '0' <= d <= '9' then d as int - '0' as int else 0)
  }

  /** The chunks of a non-empty version string. */
  function Chunks(s: string): (r: seq<Chunk>)
    ensures |r| <= |s|
    decreases |s|
  {
    if s == [] then []
    else
      var k := ClassOf(s[0]);
      if k == Dot then Chunks(s[1..])
      else
        var n := RunLength(s, k);
        [if k == Digit then Num(DigitsValue(s[..n])) else Str(s[..n])] + Chunks(s[n..])
  }

  /** `LooseVersion(v).version`, or `None` when the object has no `.version`. */
  function Parse(v: Option<string>): Option<seq<Chunk>>
  {
    if v.None? || v.value == "" then None else Some(Chunks(v.value))
  }

  /** Compares two chunks that differ; `None` when Python raises TypeError (int against str). */
  function CompareChunks(a: Chunk, b: Chunk): Option<Ordering>
  {
    match (a, b)
    case (Num(x), Num(y)) => Some(if x < y then Below else if x == y then Same else Above)
    case (Str(x), Str(y)) => Some(if Less(x, y) then Below else if x == y then Same else Above)
    case _ => None
  }

  /** `_cmp` on two chunk lists; `None` when it raises TypeError. */
  function Compare(xs: seq<Chunk>, ys: seq<Chunk>): Option<Ordering>
  {
    if xs == [] && ys == [] then Some(Same)
    else if xs == [] then Some(Below)
    else if ys == [] then Some(Above)
    else if xs[0] == ys[0] then Compare(xs[1..], ys[1..])
    else CompareChunks(xs[0], ys[0])
  }

  /** Parsed chunks never include an empty string or a dot. */
  lemma {:induction false} ChunksAreClean(s: string)
    ensures forall i :: 0 <= i < |Chunks(s)| && Chunks(s)[i].Str? ==>
      Chunks(s)[i].s != "" && '.' !in Chunks(s)[i].s
    decreases |s|
  {
    if s != [] {
      var k := ClassOf(s[0]);
      if k == Dot {
        ChunksAreClean(s[1..]);
      } else {
        var n := RunLength(s, k);
        ChunksAreClean(s[n..]);
        assert forall j :: 0 <= j < n ==> s[..n][j] == s[j];
      }
    }
  }

  /** `_cmp` answers `Same` exactly on equal chunk lists; comparing that way never raises. */
  lemma {:induction false} CompareSame(xs: seq<Chunk>, ys: seq<Chunk>)
    ensures Compare(xs, ys) == Some(Same) <==> xs == ys
  {
    if xs != [] && ys != [] {
      if xs[0] == ys[0] {
        CompareSame(xs[1..], ys[1..]);
        assert xs == [xs[0]] + xs[1..] && ys == [ys[0]] + ys[1..];
      } else {
        match (xs[0], ys[0])
        case (Str(x), Str(y)) => LessTrichotomy(x, y);
        case _ =>
      }
    }
  }

  function Flip(o: Option<Ordering>): Option<Ordering>
  {
    match o
    case None => None
    case Some(Below) => Some(Above)
    case Some(Same) => Some(Same)
    case Some(Above) => Some(Below)
  }

  /** Swapping the operands flips the result, and raises exactly when the original raises. */
  lemma {:induction false} CompareAntisymmetric(xs: seq<Chunk>, ys: seq<Chunk>)
    ensures Compare(ys, xs) == Flip(Compare(xs, ys))
  {
    if xs != [] && ys != [] {
      if xs[0] == ys[0] {
        CompareAntisymmetric(xs[1..], ys[1..]);
      } else {
        match (xs[0], ys[0])
        case (Str(x), Str(y)) => LessTrichotomy(x, y);
        case _ =>
      }
    }
  }

  /**
   * Comparison raises TypeError exactly when the lists first differ at a
   * position where one holds an int and the other a string.
   */
  lemma {:induction false} CompareRaises(xs: seq<Chunk>, ys: seq<Chunk>)
    ensures Compare(xs, ys).None? <==>
      exists i :: 0 <= i < |xs| && i < |ys| && xs[..i] == ys[..i] && xs[i].Num? != ys[i].Num?
  {
    if xs != [] && ys != [] {
      CompareRaises(xs[1..], ys[1..]);
      if xs[0] == ys[0] {
        if Compare(xs, ys).None? {
          var i :| 0 <= i < |xs[1..]| && i < |ys[1..]| && xs[1..][..i] == ys[1..][..i] && xs[1..][i].Num? != ys[1..][i].Num?;
          assert xs[..i + 1] == [xs[0]] + xs[1..][..i];
          assert ys[..i + 1] == [ys[0]] + ys[1..][..i];
        } else {
          forall i | 0 <= i < |xs| && i < |ys| && xs[..i] == ys[..i]
            ensures xs[i].Num? == ys[i].Num?
          {
            if i > 0 {
              assert xs[1..][..i - 1] == xs[..i][1..];
              assert ys[1..][..i - 1] == ys[..i][1..];
            }
          }
        }
      } else {
        if Compare(xs, ys).None? {
          assert xs[..0] == ys[..0];
        } else {
          forall i | 0 <= i < |xs| && i < |ys| && xs[..i] == ys[..i]
            ensures xs[i].Num? == ys[i].Num?
          {
            if i > 0 {
              assert false;
            }
          }
        }
      }
    }
  }

  /** A run of one class at the head of `s` becomes one chunk. */
  lemma ChunksRun(s: string, n: nat)
    requires 0 < n <= |s| && ClassOf(s[0]) != Dot
    requires forall i :: 0 <= i < n ==> ClassOf(s[i]) == ClassOf(s[0])
    requires n == |s| || ClassOf(s[n]) != ClassOf(s[0])
    ensures Chunks(s) ==
      [if ClassOf(s[0]) == Digit then Num(DigitsValue(s[..n])) else Str(s[..n])] + Chunks(s[n..])
  {
  }

  /** A leading dot is dropped. */
  lemma ChunksDot(s: string)
    requires s != [] && s[0] == '.'
    ensures Chunks(s) == Chunks(s[1..])
  {
  }

  /** A single digit followed by nothing or by a dot is one numeric chunk. */
  lemma LeadingDigit(d: char, rest: string)
    requires '0' <= d <= '9'
    requires rest == [] || rest[0] == '.'
    ensures Chunks([d] + rest) == [Num(d as int - '0' as int)] + Chunks(rest)
  {
    var s := [d] + rest;
    ChunksRun(s, 1);
    assert s[..1] == [d] && s[1..] == rest;
    assert DigitsValue([d]) == d as int - '0' as int by { assert [d][..0] == []; }
  }

  /** "10" is one numeric chunk. */
  lemma TenChunks()
    ensures Chunks("10") == [Num(10)]
  {
    ChunksRun("10", 2);
    assert "10"[..2] == "10" && "10"[2..] == [];
    assert DigitsValue("10") == 10 by { assert "10"[..1] == "1" && "1"[..0] == []; }
  }

  /** The chunks of "1.2.9". */
  lemma ChunksOfNine()
    ensures Chunks("1.2.9") == [Num(1), Num(2), Num(9)]
  {
    LeadingDigit('9', "");
    assert ['9'] + "" == "9";
    ChunksDot(".9");
    assert ".9"[1..] == "9";
    LeadingDigit('2', ".9");
    assert ['2'] + ".9" == "2.9";
    ChunksDot(".2.9");
    assert ".2.9"[1..] == "2.9";
    LeadingDigit('1', ".2.9");
    assert ['1'] + ".2.9" == "1.2.9";
  }

  /** The chunks of "1.2.10". */
  lemma ChunksOfTen()
    ensures Chunks("1.2.10") == [Num(1), Num(2), Num(10)]
  {
    TenChunks();
    ChunksDot(".10");
    assert ".10"[1..] == "10";
    LeadingDigit('2', ".10");
    assert ['2'] + ".10" == "2.10";
    ChunksDot(".2.10");
    assert ".2.10"[1..] == "2.10";
    LeadingDigit('1', ".2.10");
    assert ['1'] + ".2.10" == "1.2.10";
  }

  /** The chunks of "1.2.10" are above those of "1.2.9". */
  lemma TenAboveNine()
    ensures Compare([Num(1), Num(2), Num(10)], [Num(1), Num(2), Num(9)]) == Some(Above)
  {
    var a, b := [Num(1), Num(2), Num(10)], [Num(1), Num(2), Num(9)];
    assert a[1..] == [Num(2), Num(10)] && b[1..] == [Num(2), Num(9)];
    assert a[1..][1..] == [Num(10)] && b[1..][1..] == [Num(9)];
  }

  /** Numeric chunks compare as numbers: "1.2.10" is after "1.2.9". */
  lemma NumericOrder()
    ensures Parse(Some("1.2.9")) == Some([Num(1), Num(2), Num(9)])
    ensures Parse(Some("1.2.10")) == Some([Num(1), Num(2), Num(10)])
    ensures Compare([Num(1), Num(2), Num(10)], [Num(1), Num(2), Num(9)]) == Some(Above)
  {
    ChunksOfNine();
    ChunksOfTen();
    TenAboveNine();
  }

  /** A digit followed by a lower-case letter is a numeric chunk and then a string chunk. */
  lemma DigitLetter(d: char, l: char)
    requires '0' <= d <= '9' && 'a' <= l <= 'z'
    ensures Chunks([d, l]) == [Num(d as int - '0' as int), Str([l])]
  {
    var s := [d, l];
    ChunksRun(s, 1);
    assert s[..1] == [d] && s[1..] == [l];
    assert DigitsValue([d]) == d as int - '0' as int by { assert [d][..0] == []; }
    ChunksRun([l], 1);
    assert [l][..1] == [l] && [l][1..] == [];
  }

  /** The chunks of "1.1.1" followed by one lower-case letter, as in OpenSSL's "1.1.1k". */
  lemma ChunksOfLettered(l: char)
    requires 'a' <= l <= 'z'
    ensures Chunks("1.1.1" + [l]) == [Num(1), Num(1), Num(1), Str([l])]
  {
    DigitLetter('1', l);
    ChunksDot(['.', '1', l]);
    assert ['.', '1', l][1..] == ['1', l];
    LeadingDigit('1', ['.', '1', l]);
    assert ['1'] + ['.', '1', l] == ['1', '.', '1', l];
    ChunksDot(['.', '1', '.', '1', l]);
    assert ['.', '1', '.', '1', l][1..] == ['1', '.', '1', l];
    LeadingDigit('1', ['.', '1', '.', '1', l]);
    assert ['1'] + ['.', '1', '.', '1', l] == "1.1.1" + [l];
  }

  /** Versions that differ only in a trailing letter compare by that letter. */
  lemma LetteredOrder(a: char, b: char)
    requires 'a' <= a <= 'z' && 'a' <= b <= 'z'
    ensures Compare(Chunks("1.1.1" + [a]), Chunks("1.1.1" + [b])) ==
      Some(if a < b then Below else if a == b then Same else Above)
  {
    ChunksOfLettered(a);
    ChunksOfLettered(b);
    var xs, ys := [Num(1), Num(1), Num(1), Str([a])], [Num(1), Num(1), Num(1), Str([b])];
    var o := Some(if a < b then Below else if a == b then Same else Above);
    assert Less([a], [b]) <==> a < b by { assert [a][1..] == [] && [b][1..] == []; }
    assert CompareChunks(Str([a]), Str([b])) == o;
    assert Compare([Str([a])], [Str([b])]) == o by {
      if a == b { assert Compare([], []) == Some(Same); }
    }
    assert Compare([Num(1), Str([a])], [Num(1), Str([b])]) == o by {
      assert [Num(1), Str([a])][1..] == [Str([a])] && [Num(1), Str([b])][1..] == [Str([b])];
    }
    assert Compare([Num(1), Num(1), Str([a])], [Num(1), Num(1), Str([b])]) == o by {
      assert [Num(1), Num(1), Str([a])][1..] == [Num(1), Str([a])];
      assert [Num(1), Num(1), Str([b])][1..] == [Num(1), Str([b])];
    }
    assert xs[1..] == [Num(1), Num(1), Str([a])] && ys[1..] == [Num(1), Num(1), Str([b])];
  }

  /** An int meeting a str raises: "1" against "a" has no ordering, not even equality. */
  lemma MixedKinds()
    ensures Parse(Some("1")) == Some([Num(1)])
    ensures Parse(Some("a")) == Some([Str("a")])
    ensures Compare([Num(1)], [Str("a")]).None?
  {
    ChunksRun("1", 1);
    assert "1"[..1] == "1" && "1"[1..] == [];
    assert DigitsValue("1") == 1 by { assert "1"[..0] == []; }
    assert Chunks("1") == [Num(1)];
    ChunksRun("a", 1);
    assert "a"[..1] == "a" && "a"[1..] == [];
    assert Chunks("a") == [Str("a")];
  }
}
