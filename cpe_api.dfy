/**
 * `CPE_API` (support/scripts/cpe.py): the products table of the CPE
 * catalogue cache, filled page by page, and the in-memory index that maps a
 * version-stripped identifier to a full one.
 */
module CpeApi {
  import opened Optional
  import opened Strings
  import opened Tables
  import opened Seqs
  import opened CpeId

  /** One entry of a catalogue page: `product['cpe']`. */
  datatype CatalogEntry = CatalogEntry(cpeNameId: string, cpeName: string, deprecated: bool)

  /** What one entry adds to the delete batch and to the upsert batch. */
  function DroppedIdOf(e: CatalogEntry): seq<string>
  {
    if e.deprecated then [e.cpeNameId] else []
  }

  function ProductRowOf(e: CatalogEntry): seq<(string, string)>
  {
    if e.deprecated then [] else [(e.cpeNameId, e.cpeName)]
  }

  /** Ids of the deprecated entries of a page, in page order. */
  function DroppedIds(content: seq<CatalogEntry>): seq<string>
  {
    FlatMap(DroppedIdOf, content)
  }

  /** `[cpeNameId, cpeName]` of the entries that are not deprecated, in page order. */
  function ProductRows(content: seq<CatalogEntry>): seq<(string, string)>
  {
    FlatMap(ProductRowOf, content)
  }

  /** The products table after one page: deletes first, then the upserts. */
  function SavedProducts(products: map<string, string>, content: seq<CatalogEntry>): map<string, string>
  {
    Upsert(Delete(products, DroppedIds(content)), ProductRows(content))
  }

  /** `cpes_without_version` built from `cpes` in list order. */
  function PartialIndex(cpes: seq<string>): map<string, string>
    decreases |cpes|
  {
    if cpes == [] then map[]
    else
      var c := cpes[|cpes| - 1];
      PartialIndex(cpes[..|cpes| - 1])[NoVersion(c) := c]
  }

  /** One more entry of the page: both batches grow by what the entry adds. */
  lemma CatalogStep(content: seq<CatalogEntry>, i: nat)
    requires i < |content|
    ensures DroppedIds(content[..i + 1]) == DroppedIds(content[..i]) + DroppedIdOf(content[i])
    ensures ProductRows(content[..i + 1]) == ProductRows(content[..i]) + ProductRowOf(content[i])
  {
    assert content[..i + 1] == content[..i] + [content[i]];
    FlatMapSnoc(DroppedIdOf, content[..i], content[i]);
    FlatMapSnoc(ProductRowOf, content[..i], content[i]);
  }

  lemma DroppedIdsAt(content: seq<CatalogEntry>, id: string)
    ensures id in DroppedIds(content) <==>
      exists i :: 0 <= i < |content| && content[i].cpeNameId == id && content[i].deprecated
  {
    FlatMapMember(DroppedIdOf, content, id);
    if exists i :: 0 <= i < |content| && content[i].cpeNameId == id && content[i].deprecated {
      var i :| 0 <= i < |content| && content[i].cpeNameId == id && content[i].deprecated;
      assert id in DroppedIdOf(content[i]);
    }
  }

  /** Every entry for `id` after position `i` is deprecated. */
  predicate DeprecatedAfter(content: seq<CatalogEntry>, id: string, i: int)
  {
    forall j :: 0 <= j < |content| && i < j && content[j].cpeNameId == id ==> content[j].deprecated
  }

  /** The last entry, when it is not for `id` or is deprecated, does not change `DeprecatedAfter`. */
  lemma DeprecatedAfterStep(content: seq<CatalogEntry>, id: string, i: int)
    requires content != [] && -1 <= i < |content| - 1
    requires content[|content| - 1].cpeNameId == id ==> content[|content| - 1].deprecated
    ensures DeprecatedAfter(content, id, i) <==> DeprecatedAfter(content[..|content| - 1], id, i)
  {
    var init := content[..|content| - 1];
    assert forall j :: 0 <= j < |init| ==> init[j] == content[j];
  }

  /** The upsert batch for `id` holds the name of the last non-deprecated entry with that id. */
  lemma {:induction false} ProductRowsLast(content: seq<CatalogEntry>, id: string)
    ensures LastValue(ProductRows(content), id).None? <==> DeprecatedAfter(content, id, -1)
    ensures LastValue(ProductRows(content), id).Some? ==>
      exists i :: 0 <= i < |content| && content[i].cpeNameId == id && !content[i].deprecated &&
        LastValue(ProductRows(content), id).value == content[i].cpeName && DeprecatedAfter(content, id, i)
    decreases |content|
  {
    if content != [] {
      var n := |content| - 1;
      var init, e := content[..n], content[n];
      ProductRowsLast(init, id);
      CatalogStep(content, n);
      assert content[..n + 1] == content;
      LastValueSnoc(ProductRows(init), ProductRowOf(e), id);
      if !e.deprecated && e.cpeNameId == id {
        assert LastValue(ProductRows(content), id) == Some(content[n].cpeName);
        assert !DeprecatedAfter(content, id, -1) by { assert content[n].cpeNameId == id; }
      } else {
        assert LastValue(ProductRows(content), id) == LastValue(ProductRows(init), id);
        DeprecatedAfterStep(content, id, -1);
        if LastValue(ProductRows(init), id).Some? {
          var i :| 0 <= i < |init| && init[i].cpeNameId == id && !init[i].deprecated &&
            LastValue(ProductRows(init), id).value == init[i].cpeName && DeprecatedAfter(init, id, i);
          DeprecatedAfterStep(content, id, i);
          assert content[i] == init[i];
        }
      }
    }
  }

  /**
   * `save_to_db` on the products table: an id with a non-deprecated entry in
   * the page ends up with the name of the last such entry (even when a
   * deprecated twin is in the same page, since deletes run first); an id
   * with only deprecated entries is removed; any other id is unchanged.
   */
  lemma SavedProductsAt(products: map<string, string>, content: seq<CatalogEntry>, id: string)
    ensures (exists i :: 0 <= i < |content| && content[i].cpeNameId == id && !content[i].deprecated) ==>
      exists i :: 0 <= i < |content| && content[i].cpeNameId == id && !content[i].deprecated &&
        Lookup(SavedProducts(products, content), id) == Some(content[i].cpeName) &&
        forall j :: i < j < |content| && content[j].cpeNameId == id ==> content[j].deprecated
    ensures ((exists i :: 0 <= i < |content| && content[i].cpeNameId == id) &&
             (forall i :: 0 <= i < |content| && content[i].cpeNameId == id ==> content[i].deprecated)) ==>
      id !in SavedProducts(products, content)
    ensures (forall i :: 0 <= i < |content| ==> content[i].cpeNameId != id) ==>
      Lookup(SavedProducts(products, content), id) == Lookup(products, id)
  {
    UpsertLookup(Delete(products, DroppedIds(content)), ProductRows(content), id);
    ProductRowsLast(content, id);
    DroppedIdsAt(content, id);
  }

  /** Every key of the index is the version-stripped form of some listed identifier. */
  lemma {:induction false} PartialIndexKeys(cpes: seq<string>)
    ensures PartialIndex(cpes).Keys == set c | c in cpes :: NoVersion(c)
    decreases |cpes|
  {
    if cpes != [] {
      var init := cpes[..|cpes| - 1];
      PartialIndexKeys(init);
      assert cpes == init + [cpes[|cpes| - 1]];
    }
  }

  /** No identifier after position `i` has the prefix `key`. */
  predicate NoLaterPrefix(cpes: seq<string>, key: string, i: int)
  {
    forall j :: 0 <= j < |cpes| && i < j ==> NoVersion(cpes[j]) != key
  }

  /** A last identifier without the prefix `key` does not change `NoLaterPrefix`. */
  lemma NoLaterPrefixStep(cpes: seq<string>, key: string, i: int)
    requires cpes != [] && -1 <= i < |cpes| - 1 && NoVersion(cpes[|cpes| - 1]) != key
    ensures NoLaterPrefix(cpes, key, i) <==> NoLaterPrefix(cpes[..|cpes| - 1], key, i)
  {
    var init := cpes[..|cpes| - 1];
    assert forall j :: 0 <= j < |init| ==> init[j] == cpes[j];
  }

  /** Each key maps to the last identifier in list order that has that prefix. */
  lemma {:induction false} PartialIndexLast(cpes: seq<string>, key: string)
    requires key in PartialIndex(cpes)
    ensures exists i ::
      && 0 <= i < |cpes| && cpes[i] == PartialIndex(cpes)[key] && NoVersion(cpes[i]) == key
      && NoLaterPrefix(cpes, key, i)
    decreases |cpes|
  {
    var n := |cpes| - 1;
    var init, c := cpes[..n], cpes[n];
    if NoVersion(c) != key {
      assert PartialIndex(cpes)[key] == PartialIndex(init)[key];
      PartialIndexLast(init, key);
      var i :| 0 <= i < |init| && init[i] == PartialIndex(init)[key] && NoVersion(init[i]) == key &&
        NoLaterPrefix(init, key, i);
      NoLaterPrefixStep(cpes, key, i);
      assert cpes[i] == init[i];
    } else {
      assert cpes[n] == PartialIndex(cpes)[key];
      assert NoLaterPrefix(cpes, key, n);
    }
  }

  class CpeApi {
    /** The `products` table: `cpeNameId` to `cpeName`. */
    var products: map<string, string>
    /** `self.cpes`: the catalogue identifiers, as `load_ids` leaves them. */
    var cpes: seq<string>
    /** `self.cpes_without_version`. */
    var cpesWithoutVersion: map<string, string>

    /** `__init__`, over a cache file whose products table holds `stored`. */
    constructor (stored: map<string, string>)
      ensures products == stored && cpes == [] && cpesWithoutVersion == map[]
    {
      products := stored;
      cpes := [];
      cpesWithoutVersion := map[];
    }

    /** Every index entry is keyed by its own version-stripped form. */
    ghost predicate IndexConsistent()
      reads this
    {
      forall k :: k in cpesWithoutVersion ==> NoVersion(cpesWithoutVersion[k]) == k
    }

    /** `save_to_db`: one catalogue page; always reports success. */
    method SaveToDb(content: seq<CatalogEntry>) returns (ok: bool)
      modifies this`products
      ensures ok
      ensures products == SavedProducts(old(products), content)
    {
      var dropped: seq<string> := [];
      var rows: seq<(string, string)> := [];
      for i := 0 to |content|
        invariant dropped == DroppedIds(content[..i])
        invariant rows == ProductRows(content[..i])
        invariant products == old(products)
      {
        CatalogStep(content, i);
        var e := content[i];
        if e.deprecated {
          dropped := dropped + [e.cpeNameId];
          continue;
        }
        rows := rows + [(e.cpeNameId, e.cpeName)];
      }
      assert content[..|content|] == content;
      products := Upsert(Delete(products, dropped), rows);
      ok := true;
    }

    /** `generate_partials`: rebuilds the index from `cpes`. */
    method GeneratePartials()
      modifies this`cpesWithoutVersion
      ensures cpesWithoutVersion == PartialIndex(cpes)
      ensures IndexConsistent()
    {
      cpesWithoutVersion := map[];
      for i := 0 to |cpes|
        invariant cpesWithoutVersion == PartialIndex(cpes[..i])
      {
        assert cpes[..i + 1][..i] == cpes[..i];
        cpesWithoutVersion := cpesWithoutVersion[NoVersion(cpes[i]) := cpes[i]];
      }
      assert cpes[..|cpes|] == cpes;
      forall k | k in cpesWithoutVersion
        ensures NoVersion(cpesWithoutVersion[k]) == k
      {
        PartialIndexLast(cpes, k);
      }
    }

    /**
     * `find_partial`: the indexed identifier sharing `cpeId`'s prefix. On a
     * consistent index the answer has the same prefix as `cpeId`.
     */
    function FindPartial(cpeId: string): (r: Option<string>)
      reads this
      ensures r.None? <==> NoVersion(cpeId) !in cpesWithoutVersion
      ensures IndexConsistent() && r.Some? ==> NoVersion(r.value) == NoVersion(cpeId)
    {
      var key := NoVersion(cpeId);
      if key in cpesWithoutVersion then Some(cpesWithoutVersion[key]) else None
    }
  }

  /**
   * After `generate_partials`, `find_partial` answers exactly when some
   * listed identifier shares the prefix, and its answer is such an identifier.
   */
  lemma FindPartialAfterGenerate(api: CpeApi, cpeId: string)
    requires api.cpesWithoutVersion == PartialIndex(api.cpes)
    ensures api.FindPartial(cpeId).Some? <==> exists c :: c in api.cpes && NoVersion(c) == NoVersion(cpeId)
    ensures api.FindPartial(cpeId).Some? ==>
      api.FindPartial(cpeId).value in api.cpes && NoVersion(api.FindPartial(cpeId).value) == NoVersion(cpeId)
  {
    PartialIndexKeys(api.cpes);
    var key := NoVersion(cpeId);
    if key in api.cpesWithoutVersion {
      PartialIndexLast(api.cpes, key);
    }
  }
}
