/**
 * The query editor's cache of server metadata used by the table editor: the
 * charset-to-collations map, each schema's default charset and the list of storage
 * engines a table can be created with. Each fetch commits only when its request
 * succeeded; the warm-up fetches only what is still empty.
 *
 * A request is not sent here: its outcome is a `Response`, either an error or the rows
 * of the first result set (an absent or malformed result reads as no rows).
 */
module EditorsMem {
  import opened Common

  datatype Response<R> = Failed | Rows(rows: seq<R>)

  /** One row of information_schema.collations. */
  datatype CollationRow = CollationRow(charset: string, collation: string, isDefault: string)

  /** One row of information_schema.schemata. */
  datatype SchemaRow = SchemaRow(schemaName: string, defaultCharset: string)

  /** A charset's entry: its collations in row order, and the default one if a row named it. */
  datatype CharsetEntry = CharsetEntry(collations: seq<string>, defCollation: Option<string>)

  /** The fetches the warm-up can dispatch. */
  datatype Fetch = Engines | CharsetCollations | DefDbCharsets

  /** The collations of `charset`, in row order. */
  function CollationsOf(rows: seq<CollationRow>, charset: string): seq<string>
  {
    if |rows| == 0 then []
    else CollationsOf(rows[..|rows| - 1], charset) +
         (if rows[|rows| - 1].charset == charset then [rows[|rows| - 1].collation] else [])
  }

  /** The collation of the last row for `charset` marked as the default, if any. */
  function DefaultOf(rows: seq<CollationRow>, charset: string): Option<string>
  {
    if |rows| == 0 then None
    else if rows[|rows| - 1].charset == charset && rows[|rows| - 1].isDefault == "Yes" then Some(rows[|rows| - 1].collation)
    else DefaultOf(rows[..|rows| - 1], charset)
  }

  /** The forEach body of the charset fold: one row into the map being built. */
  function AddCollation(m: map<string, CharsetEntry>, row: CollationRow): (m': map<string, CharsetEntry>)
    ensures m'.Keys == m.Keys + {row.charset}
    ensures forall c :: c in m && c != row.charset ==> m'[c] == m[c]
  {
    var entry := if row.charset in m then m[row.charset] else CharsetEntry([], None);
    var entry' := CharsetEntry(entry.collations + [row.collation],
                               if row.isDefault == "Yes" then Some(row.collation) else entry.defCollation);
    m[row.charset := entry']
  }

  function CharsetFold(rows: seq<CollationRow>): map<string, CharsetEntry>
  {
    if |rows| == 0 then map[] else AddCollation(CharsetFold(rows[..|rows| - 1]), rows[|rows| - 1])
  }

  /**
   * The map holds exactly the charsets of the rows; each lists its collations in row
   * order and takes its default from the rows marked "Yes".
   */
  lemma {:induction false} CharsetFoldContents(rows: seq<CollationRow>)
    ensures forall c :: c in CharsetFold(rows) <==> exists k :: 0 <= k < |rows| && rows[k].charset == c
    ensures forall c :: c in CharsetFold(rows) ==>
              CharsetFold(rows)[c] == CharsetEntry(CollationsOf(rows, c), DefaultOf(rows, c))
    decreases |rows|
  {
    if |rows| > 0 {
      var init := rows[..|rows| - 1];
      CharsetFoldContents(init);
      forall c ensures c in CharsetFold(rows) <==> exists k :: 0 <= k < |rows| && rows[k].charset == c {
        if c in CharsetFold(init) {
          var k :| 0 <= k < |init| && init[k].charset == c;
          assert rows[k].charset == c;
        }
        if exists k :: 0 <= k < |rows| && rows[k].charset == c {
          var k :| 0 <= k < |rows| && rows[k].charset == c;
          if k < |init| {
            assert init[k].charset == c;
          }
        }
      }
      forall c | c in CharsetFold(rows)
        ensures CharsetFold(rows)[c] == CharsetEntry(CollationsOf(rows, c), DefaultOf(rows, c))
      {
        if c == rows[|rows| - 1].charset && c !in CharsetFold(init) {
          NoRowsNoCollations(init, c);
        }
      }
    }
  }

  lemma {:induction false} NoRowsNoCollations(rows: seq<CollationRow>, c: string)
    requires forall k :: 0 <= k < |rows| ==> rows[k].charset != c
    ensures CollationsOf(rows, c) == [] && DefaultOf(rows, c) == None
    decreases |rows|
  {
    if |rows| > 0 {
      NoRowsNoCollations(rows[..|rows| - 1], c);
    }
  }

  /** The schema fold: a repeated schema keeps the charset of its last row. */
  function SchemaFold(rows: seq<SchemaRow>): map<string, string>
  {
    if |rows| == 0 then map[]
    else SchemaFold(rows[..|rows| - 1])[rows[|rows| - 1].schemaName := rows[|rows| - 1].defaultCharset]
  }

  /** Each schema maps to the charset of the last row that names it, and only named schemas appear. */
  lemma {:induction false} SchemaFoldLastWins(rows: seq<SchemaRow>, k: nat)
    requires k < |rows| && forall j :: k < j < |rows| ==> rows[j].schemaName != rows[k].schemaName
    ensures rows[k].schemaName in SchemaFold(rows)
    ensures SchemaFold(rows)[rows[k].schemaName] == rows[k].defaultCharset
    decreases |rows|
  {
    if k < |rows| - 1 {
      var init := rows[..|rows| - 1];
      SchemaFoldLastWins(init, k);
    }
  }

  lemma {:induction false} SchemaFoldKeys(rows: seq<SchemaRow>)
    ensures forall s :: s in SchemaFold(rows) <==> exists k :: 0 <= k < |rows| && rows[k].schemaName == s
    decreases |rows|
  {
    if |rows| > 0 {
      var init := rows[..|rows| - 1];
      SchemaFoldKeys(init);
      forall s ensures s in SchemaFold(rows) <==> exists k :: 0 <= k < |rows| && rows[k].schemaName == s {
        if s in SchemaFold(init) {
          var k :| 0 <= k < |init| && init[k].schemaName == s;
          assert rows[k].schemaName == s;
        }
        if exists k :: 0 <= k < |rows| && rows[k].schemaName == s {
          var k :| 0 <= k < |rows| && rows[k].schemaName == s;
          if k < |init| {
            assert init[k].schemaName == s;
          }
        }
      }
    }
  }

  /** Array.prototype.flat of the engine rows: their cells, row after row. */
  function Flat(rows: seq<seq<string>>): (r: seq<string>)
    ensures forall x :: x in r <==> exists k :: 0 <= k < |rows| && x in rows[k]
  {
    if |rows| == 0 then []
    else
      var r := Flat(rows[..|rows| - 1]) + rows[|rows| - 1];
      assert forall k :: 0 <= k < |rows| - 1 ==> rows[..|rows| - 1][k] == rows[k];
      r
  }

  /** The elements of `a` that `b` does not have, in order. */
  function Difference(a: seq<string>, b: seq<string>): (r: seq<string>)
    ensures forall x :: x in r <==> x in a && x !in b
  {
    if |a| == 0 then []
    else Difference(a[..|a| - 1], b) + (if a[|a| - 1] in b then [] else [a[|a| - 1]])
  }

  /** First occurrences only, in order. */
  function Uniq(a: seq<string>): (r: seq<string>)
    ensures forall x :: x in r <==> x in a
    ensures forall i, j :: 0 <= i < j < |r| ==> r[i] != r[j]
  {
    if |a| == 0 then []
    else
      var u := Uniq(a[..|a| - 1]);
      if a[|a| - 1] in u then u else u + [a[|a| - 1]]
  }

  /** lodash xorWith with no comparator: the symmetric difference, without duplicates. */
  function Xor(a: seq<string>, b: seq<string>): (r: seq<string>)
  {
    Uniq(Difference(a, b) + Difference(b, a))
  }

  /**
   * The committed engine list holds each engine found in exactly one of the server's
   * rows and the unsupported list, once: an engine in both never appears, and an
   * unsupported engine the server lacks does.
   */
  lemma {:induction false} EnginesAreSymmetricDifference(rows: seq<seq<string>>, unsupported: seq<string>)
    ensures forall x :: x in Xor(Flat(rows), unsupported) <==> (x in Flat(rows) <==> x !in unsupported)
    ensures forall i, j :: 0 <= i < j < |Xor(Flat(rows), unsupported)| ==>
              Xor(Flat(rows), unsupported)[i] != Xor(Flat(rows), unsupported)[j]
  {
    var a := Flat(rows);
    forall x ensures x in Xor(a, unsupported) <==> (x in a <==> x !in unsupported) {
      assert x in Difference(a, unsupported) + Difference(unsupported, a) <==>
             x in Difference(a, unsupported) || x in Difference(unsupported, a);
    }
  }

  class EditorsMemStore {
    var selectedQueryTxt: string
    var isMaxRowsValid: bool
    var charsetCollationMap: map<string, CharsetEntry>
    var defDbCharsetMap: map<string, string>
    var engines: seq<string>
    /** UNSUPPORTED_TBL_CREATION_ENGINES; its contents are configuration and not part of this model. */
    const unsupportedEngines: seq<string>

    /** The initial state. */
    constructor (unsupportedEngines: seq<string>)
      ensures selectedQueryTxt == "" && isMaxRowsValid
      ensures charsetCollationMap == map[] && defDbCharsetMap == map[] && engines == []
      ensures this.unsupportedEngines == unsupportedEngines
    {
      selectedQueryTxt := "";
      isMaxRowsValid := true;
      charsetCollationMap := map[];
      defDbCharsetMap := map[];
      engines := [];
      this.unsupportedEngines := unsupportedEngines;
    }

    /** queryCharsetCollationMap: fold the rows into a fresh map and commit it. */
    method QueryCharsetCollationMap(res: Response<CollationRow>)
      modifies this`charsetCollationMap
      ensures res.Failed? ==> charsetCollationMap == old(charsetCollationMap)
      ensures res.Rows? ==> charsetCollationMap == CharsetFold(res.rows)
    {
      if res.Rows? {
        var m: map<string, CharsetEntry> := map[];
        var i := 0;
        while i < |res.rows|
          invariant 0 <= i <= |res.rows| && m == CharsetFold(res.rows[..i])
        {
          assert res.rows[..i + 1][..i] == res.rows[..i];
          m := AddCollation(m, res.rows[i]);
          i := i + 1;
        }
        assert res.rows[..|res.rows|] == res.rows;
        charsetCollationMap := m;
      }
    }

    /** queryDefDbCharsetMap: fold the rows into a fresh map and commit it. */
    method QueryDefDbCharsetMap(res: Response<SchemaRow>)
      modifies this`defDbCharsetMap
      ensures res.Failed? ==> defDbCharsetMap == old(defDbCharsetMap)
      ensures res.Rows? ==> defDbCharsetMap == SchemaFold(res.rows)
    {
      if res.Rows? {
        var m: map<string, string> := map[];
        var i := 0;
        while i < |res.rows|
          invariant 0 <= i <= |res.rows| && m == SchemaFold(res.rows[..i])
        {
          assert res.rows[..i + 1][..i] == res.rows[..i];
          m := m[res.rows[i].schemaName := res.rows[i].defaultCharset];
          i := i + 1;
        }
        assert res.rows[..|res.rows|] == res.rows;
        defDbCharsetMap := m;
      }
    }

    /** queryEngines: commit the symmetric difference of the server's engines and the unsupported ones. */
    method QueryEngines(res: Response<seq<string>>)
      modifies this`engines
      ensures res.Failed? ==> engines == old(engines)
      ensures res.Rows? ==> engines == Xor(Flat(res.rows), unsupportedEngines)
    {
      if res.Rows? {
        engines := Xor(Flat(res.rows), unsupportedEngines);
      }
    }

    /**
     * queryDdlEditorSuppData: with both a connection id and a request config, fetch each
     * cache that is still empty, engines first, then the charset map, then the schema map.
     */
    method QueryDdlEditorSuppData(hasConnId: bool, hasConfig: bool, enginesRes: Response<seq<string>>,
                                  charsetRes: Response<CollationRow>, schemaRes: Response<SchemaRow>)
      returns (dispatched: seq<Fetch>)
      modifies this`engines, this`charsetCollationMap, this`defDbCharsetMap
      ensures !(hasConnId && hasConfig) ==>
                (dispatched == [] && engines == old(engines) &&
                 charsetCollationMap == old(charsetCollationMap) && defDbCharsetMap == old(defDbCharsetMap))
      ensures hasConnId && hasConfig ==>
                dispatched == (if old(engines) == [] then [Engines] else []) +
                              (if old(charsetCollationMap) == map[] then [CharsetCollations] else []) +
                              (if old(defDbCharsetMap) == map[] then [DefDbCharsets] else [])
      ensures old(engines) != [] ==> engines == old(engines)
      ensures old(charsetCollationMap) != map[] ==> charsetCollationMap == old(charsetCollationMap)
      ensures old(defDbCharsetMap) != map[] ==> defDbCharsetMap == old(defDbCharsetMap)
      // A fetched cache holds what its query produced; a failed fetch leaves it as it was.
      ensures hasConnId && hasConfig && old(engines) == [] ==>
                engines == (if enginesRes.Rows? then Xor(Flat(enginesRes.rows), unsupportedEngines) else old(engines))
      ensures hasConnId && hasConfig && old(charsetCollationMap) == map[] ==>
                charsetCollationMap == (if charsetRes.Rows? then CharsetFold(charsetRes.rows) else old(charsetCollationMap))
      ensures hasConnId && hasConfig && old(defDbCharsetMap) == map[] ==>
                defDbCharsetMap == (if schemaRes.Rows? then SchemaFold(schemaRes.rows) else old(defDbCharsetMap))
    {
      dispatched := [];
      if hasConnId && hasConfig {
        if engines == [] {
          QueryEngines(enginesRes);
          dispatched := dispatched + [Engines];
        }
        if charsetCollationMap == map[] {
          QueryCharsetCollationMap(charsetRes);
          dispatched := dispatched + [CharsetCollations];
        }
        if defDbCharsetMap == map[] {
          QueryDefDbCharsetMap(schemaRes);
          dispatched := dispatched + [DefDbCharsets];
        }
      }
    }
  }
}
