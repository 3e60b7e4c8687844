/**
 * The query editor's QueryTab entity and its four child tables (QueryTabMem, Editor,
 * QueryResult, QueryConn), each child pointing at its tab through `query_tab_id`.
 * Deleting a tab deletes its children; refreshing a tab resets the children's
 * non-key fields and recomputes the tab's name.
 *
 * The tab table is keyed by id; a child table is a sequence of records in insertion
 * order, which is the order a has-one lookup scans.
 */
module QueryTabs {
  import opened Common

  /** A field value of a child record. */
  datatype Value = Null | Str(s: string) | Num(n: int)

  /** The non-key fields of a QueryTab (its id is the table key). */
  datatype QueryTab = QueryTab(name: string, count: int, worksheetId: Value)

  /** A record of a child table: its own id, its tab's id and its other fields. */
  datatype ChildRecord = ChildRecord(id: string, queryTabId: string, fields: map<string, Value>)

  /** Which tabs an operation applies to: one id, or a filter over the records. */
  datatype Payload = ById(id: string) | Where(p: (string, QueryTab) -> bool)

  const DEFAULT_NAME: string := "Query Tab 1"
  const DEFAULT_COUNT: int := 1

  /** A tab created with only its foreign key given takes the default non-key fields. */
  function NewTab(worksheetId: Value): (t: QueryTab)
    ensures t.worksheetId == worksheetId
  {
    QueryTab(DEFAULT_NAME, DEFAULT_COUNT, worksheetId)
  }

  /** The ids of the tabs the payload selects. */
  function Matched(tabs: map<string, QueryTab>, payload: Payload): (ids: set<string>)
    ensures ids <= tabs.Keys
    ensures forall id :: id in ids <==> id in tabs && (if payload.ById? then id == payload.id else payload.p(id, tabs[id]))
  {
    set id | id in tabs && (if payload.ById? then id == payload.id else payload.p(id, tabs[id]))
  }

  /** The has-one relation: the first record pointing at `tabId`, if any. */
  function HasOne(rs: seq<ChildRecord>, tabId: string): (r: Option<ChildRecord>)
    ensures r.Some? ==> r.value in rs && r.value.queryTabId == tabId
  {
    if |rs| == 0 then None
    else if rs[0].queryTabId == tabId then Some(rs[0])
    else HasOne(rs[1..], tabId)
  }

  /** The has-one lookup finds a record exactly when one points at the tab, and then the first such. */
  lemma {:induction false} HasOneIsFirst(rs: seq<ChildRecord>, tabId: string)
    ensures HasOne(rs, tabId).None? <==> forall i :: 0 <= i < |rs| ==> rs[i].queryTabId != tabId
    ensures forall i :: (0 <= i < |rs| && rs[i].queryTabId == tabId &&
                         (forall j :: 0 <= j < i ==> rs[j].queryTabId != tabId)) ==> HasOne(rs, tabId) == Some(rs[i])
    decreases |rs|
  {
    if |rs| > 0 && rs[0].queryTabId != tabId {
      HasOneIsFirst(rs[1..], tabId);
      forall i | 0 <= i < |rs| && rs[i].queryTabId == tabId && (forall j :: 0 <= j < i ==> rs[j].queryTabId != tabId)
        ensures HasOne(rs, tabId) == Some(rs[i])
      {
        assert rs[1..][i - 1] == rs[i];
        forall j | 0 <= j < i - 1 ensures rs[1..][j].queryTabId != tabId {
          assert rs[1..][j] == rs[j + 1];
        }
      }
      if HasOne(rs, tabId).None? {
        forall i | 0 <= i < |rs| ensures rs[i].queryTabId != tabId {
          if i > 0 {
            assert rs[i] == rs[1..][i - 1];
          }
        }
      }
    }
  }

  /** The records whose tab is not one of `ids`, in their order. */
  function Without(rs: seq<ChildRecord>, ids: set<string>): (r: seq<ChildRecord>)
    ensures |r| <= |rs|
    ensures forall c :: c in r <==> c in rs && c.queryTabId !in ids
  {
    if |rs| == 0 then []
    else Without(rs[..|rs| - 1], ids) + (if rs[|rs| - 1].queryTabId in ids then [] else [rs[|rs| - 1]])
  }

  /** Removing two sets of tabs one after the other removes their union. */
  lemma {:induction false} WithoutWithout(rs: seq<ChildRecord>, a: set<string>, b: set<string>)
    ensures Without(Without(rs, a), b) == Without(rs, a + b)
    decreases |rs|
  {
    if |rs| > 0 {
      var init := rs[..|rs| - 1];
      var last := rs[|rs| - 1];
      WithoutWithout(init, a, b);
      var w := if last.queryTabId in a then [] else [last];
      assert Without(Without(init, a) + w, b) == Without(Without(init, a), b) + Without(w, b) by {
        WithoutAppend(Without(init, a), w, b);
      }
      if last.queryTabId !in a {
        assert Without(w, b) == Without([], b) + (if last.queryTabId in b then [] else [last]) by {
          assert w[..0] == [];
        }
      }
    }
  }

  lemma WithoutSnoc(rs: seq<ChildRecord>, x: ChildRecord, ids: set<string>)
    ensures Without(rs + [x], ids) == Without(rs, ids) + (if x.queryTabId in ids then [] else [x])
  {
    assert (rs + [x])[..|rs|] == rs;
  }

  lemma {:induction false} WithoutAppend(xs: seq<ChildRecord>, ys: seq<ChildRecord>, ids: set<string>)
    ensures Without(xs + ys, ids) == Without(xs, ids) + Without(ys, ids)
    decreases |ys|
  {
    if |ys| > 0 {
      var init, last := ys[..|ys| - 1], ys[|ys| - 1];
      var tail := if last.queryTabId in ids then [] else [last];
      assert ys == init + [last];
      assert xs + ys == (xs + init) + [last];
      calc {
        Without(xs + ys, ids);
        Without((xs + init) + [last], ids);
        { WithoutSnoc(xs + init, last, ids); }
        Without(xs + init, ids) + tail;
        { WithoutAppend(xs, init, ids); }
        Without(xs, ids) + Without(init, ids) + tail;
        { WithoutSnoc(init, last, ids); }
        Without(xs, ids) + Without(init + [last], ids);
      }
    } else {
      assert xs + ys == xs;
    }
  }

  /** Extender.refresh on one record: every default field not kept is reset; the keys and the rest stay. */
  function RefreshRecord(r: ChildRecord, defaults: map<string, Value>, keep: set<string>): (r': ChildRecord)
    ensures r'.id == r.id && r'.queryTabId == r.queryTabId
    ensures r'.fields.Keys == r.fields.Keys + (defaults.Keys - keep)
    ensures forall k :: k in defaults && k !in keep ==> r'.fields[k] == defaults[k]
    ensures forall k :: k in r.fields && (k in keep || k !in defaults) ==> r'.fields[k] == r.fields[k]
  {
    var fields := map k | k in r.fields.Keys + (defaults.Keys - keep) ::
                    if k in defaults && k !in keep then defaults[k] else r.fields[k];
    r.(fields := fields)
  }

  /** Every record of a refreshed tab refreshed, the others as they were. */
  function RefreshAll(rs: seq<ChildRecord>, defaults: map<string, Value>, keep: set<string>, ids: set<string>): (r: seq<ChildRecord>)
    ensures |r| == |rs|
  {
    seq(|rs|, i requires 0 <= i < |rs| => if rs[i].queryTabId in ids then RefreshRecord(rs[i], defaults, keep) else rs[i])
  }

  /** The editor's blob_file is null: present and holding null (absent reads as undefined, not null). */
  predicate BlobFileIsNull(editor: Option<ChildRecord>)
  {
    editor.Some? && "blob_file" in editor.value.fields && editor.value.fields["blob_file"] == Null
  }

  /** The name a refresh gives a tab: numbered by its count when its editor has no file, otherwise unchanged. */
  function RefreshedName(tab: QueryTab, editor: Option<ChildRecord>): string
  {
    if BlobFileIsNull(editor) then "Query Tab " + IntToString(tab.count) else tab.name
  }

  /** Every refreshed tab renamed by its editor; nothing else of any tab changes. */
  function RefreshTabs(tabs: map<string, QueryTab>, editors: seq<ChildRecord>, ids: set<string>): (t: map<string, QueryTab>)
    ensures t.Keys == tabs.Keys
    ensures forall id :: id in tabs ==> t[id].count == tabs[id].count && t[id].worksheetId == tabs[id].worksheetId
  {
    map id | id in tabs :: if id in ids then tabs[id].(name := RefreshedName(tabs[id], HasOne(editors, id))) else tabs[id]
  }

  /** A fresh tab keeps its default name through a refresh, whatever its editor holds. */
  lemma DefaultNameSurvivesRefresh(worksheetId: Value, editor: Option<ChildRecord>)
    ensures RefreshedName(NewTab(worksheetId), editor) == DEFAULT_NAME
  {
    assert IntToString(DEFAULT_COUNT) == "1" by {
      assert NatToString(1) == [DigitChar(1)];
    }
  }

  /** A tab whose editor holds a file, or that has no editor, keeps its name; one whose editor has a null file is numbered by its count. */
  lemma RefreshNames(tabs: map<string, QueryTab>, editors: seq<ChildRecord>, ids: set<string>, id: string, i: nat)
    requires id in tabs && id in ids
    requires i < |editors| && editors[i].queryTabId == id && forall j :: 0 <= j < i ==> editors[j].queryTabId != id
    ensures "blob_file" in editors[i].fields && editors[i].fields["blob_file"] == Null ==>
              RefreshTabs(tabs, editors, ids)[id].name == "Query Tab " + IntToString(tabs[id].count)
    ensures !("blob_file" in editors[i].fields && editors[i].fields["blob_file"] == Null) ==>
              RefreshTabs(tabs, editors, ids)[id].name == tabs[id].name
  {
    HasOneIsFirst(editors, id);
  }

  /** A tab without an editor keeps its name: its blob_file reads as undefined, not null. */
  lemma NoEditorKeepsName(tabs: map<string, QueryTab>, editors: seq<ChildRecord>, ids: set<string>, id: string)
    requires id in tabs && id in ids
    requires forall j :: 0 <= j < |editors| ==> editors[j].queryTabId != id
    ensures RefreshTabs(tabs, editors, ids)[id].name == tabs[id].name
  {
    HasOneIsFirst(editors, id);
  }

  /** The editor refresh keeps blob_file and query_txt, and changes no record's tab. */
  lemma EditorRefreshKeepsFile(rs: seq<ChildRecord>, defaults: map<string, Value>, ids: set<string>, i: nat, k: string)
    requires i < |rs| && k in {"blob_file", "query_txt"}
    ensures RefreshAll(rs, defaults, {"blob_file", "query_txt"}, ids)[i].queryTabId == rs[i].queryTabId
    ensures k in RefreshAll(rs, defaults, {"blob_file", "query_txt"}, ids)[i].fields <==> k in rs[i].fields
    ensures k in rs[i].fields ==> RefreshAll(rs, defaults, {"blob_file", "query_txt"}, ids)[i].fields[k] == rs[i].fields[k]
  {
  }

  /** Refreshing the tabs in `ids` leaves the first record of any other tab where it was. */
  lemma {:induction false} HasOneAfterRefresh(rs: seq<ChildRecord>, defaults: map<string, Value>, keep: set<string>,
                                              ids: set<string>, tabId: string)
    requires tabId !in ids
    ensures HasOne(RefreshAll(rs, defaults, keep, ids), tabId) == HasOne(rs, tabId)
    decreases |rs|
  {
    if |rs| > 0 {
      var r := RefreshAll(rs, defaults, keep, ids);
      assert r[1..] == RefreshAll(rs[1..], defaults, keep, ids);
      HasOneAfterRefresh(rs[1..], defaults, keep, ids, tabId);
    }
  }

  /** Refreshing two sets of disjoint tabs one after the other refreshes their union. */
  lemma RefreshAllTwice(rs: seq<ChildRecord>, defaults: map<string, Value>, keep: set<string>, a: set<string>, id: string)
    requires id !in a
    ensures RefreshAll(RefreshAll(rs, defaults, keep, a), defaults, keep, {id}) == RefreshAll(rs, defaults, keep, a + {id})
  {
  }

  /** The five tables as one value. */
  datatype Tables = Tables(tabs: map<string, QueryTab>, mems: seq<ChildRecord>, editors: seq<ChildRecord>,
                           results: seq<ChildRecord>, conns: seq<ChildRecord>)

  /** The tables after deleting the tabs `ids` and every child record of theirs. */
  function Deleted(s: Tables, ids: set<string>): Tables
  {
    Tables(s.tabs - ids, Without(s.mems, ids), Without(s.editors, ids), Without(s.results, ids), Without(s.conns, ids))
  }

  lemma {:induction false} WithoutNothing(rs: seq<ChildRecord>)
    ensures Without(rs, {}) == rs
    decreases |rs|
  {
    if |rs| > 0 {
      var init, last := rs[..|rs| - 1], rs[|rs| - 1];
      calc {
        Without(rs, {});
        Without(init, {}) + [last];
        { WithoutNothing(init); }
        init + [last];
      }
      assert init + [last] == rs;
    }
  }

  /** Deleting nothing changes nothing. */
  lemma DeletedNothing(s: Tables)
    ensures Deleted(s, {}) == s
  {
    WithoutNothing(s.mems);
    WithoutNothing(s.editors);
    WithoutNothing(s.results);
    WithoutNothing(s.conns);
    assert s.tabs - {} == s.tabs;
  }

  /** One pass of the delete loop: tab `id` and the child records pointing at it removed. */
  function DeleteOne(t: Tables, id: string): Tables
  {
    Tables(t.tabs - {id}, Without(t.mems, {id}), Without(t.editors, {id}), Without(t.results, {id}), Without(t.conns, {id}))
  }

  /** Deleting one more tab, as the loop body does, extends the deleted set by it. */
  lemma DeletedStep(s: Tables, done: set<string>, id: string)
    ensures DeleteOne(Deleted(s, done), id) == Deleted(s, done + {id})
  {
    var t, u := Deleted(s, done), Deleted(s, done + {id});
    WithoutWithout(s.mems, done, {id});
    WithoutWithout(s.editors, done, {id});
    WithoutWithout(s.results, done, {id});
    WithoutWithout(s.conns, done, {id});
    assert s.tabs - done - {id} == s.tabs - (done + {id});
    assert t.tabs - {id} == u.tabs;
    assert Without(t.mems, {id}) == u.mems && Without(t.editors, {id}) == u.editors;
    assert Without(t.results, {id}) == u.results && Without(t.conns, {id}) == u.conns;
  }

  /**
   * A cascade delete leaves no selected tab and no child record of one, and every
   * other tab and child record stays.
   */
  lemma CascadeDeleteEffect(s: Tables, payload: Payload)
    ensures forall id :: id in Deleted(s, Matched(s.tabs, payload)).tabs <==>
              id in s.tabs && !(if payload.ById? then id == payload.id else payload.p(id, s.tabs[id]))
    ensures forall id :: id in Deleted(s, Matched(s.tabs, payload)).tabs ==> Deleted(s, Matched(s.tabs, payload)).tabs[id] == s.tabs[id]
    ensures forall c :: c in Deleted(s, Matched(s.tabs, payload)).editors <==> c in s.editors && c.queryTabId !in Matched(s.tabs, payload)
    ensures forall c :: c in Deleted(s, Matched(s.tabs, payload)).mems <==> c in s.mems && c.queryTabId !in Matched(s.tabs, payload)
    ensures forall c :: c in Deleted(s, Matched(s.tabs, payload)).results <==> c in s.results && c.queryTabId !in Matched(s.tabs, payload)
    ensures forall c :: c in Deleted(s, Matched(s.tabs, payload)).conns <==> c in s.conns && c.queryTabId !in Matched(s.tabs, payload)
  {
  }

  /** The editor refresh keeps these fields. */
  const EDITOR_KEPT: set<string> := {"blob_file", "query_txt"}

  /** The default non-key fields of each child table. */
  datatype Defaults = Defaults(mem: map<string, Value>, editor: map<string, Value>,
                               result: map<string, Value>, conn: map<string, Value>)

  /** The tables after refreshing the tabs `ids`, each renamed by its editor as it was before. */
  function Refreshed(s: Tables, d: Defaults, ids: set<string>): Tables
  {
    Tables(RefreshTabs(s.tabs, s.editors, ids), RefreshAll(s.mems, d.mem, {}, ids),
           RefreshAll(s.editors, d.editor, EDITOR_KEPT, ids), RefreshAll(s.results, d.result, {}, ids),
           RefreshAll(s.conns, d.conn, {}, ids))
  }

  /** Refreshing nothing changes nothing. */
  lemma RefreshedNothing(s: Tables, d: Defaults)
    ensures Refreshed(s, d, {}) == s
  {
    assert RefreshTabs(s.tabs, s.editors, {}) == s.tabs;
    assert RefreshAll(s.mems, d.mem, {}, {}) == s.mems;
    assert RefreshAll(s.editors, d.editor, EDITOR_KEPT, {}) == s.editors;
    assert RefreshAll(s.results, d.result, {}, {}) == s.results;
    assert RefreshAll(s.conns, d.conn, {}, {}) == s.conns;
  }

  /** One pass of the refresh loop on tab `id`, which is present: rename it, then refresh its children. */
  function RefreshOne(t: Tables, d: Defaults, id: string): Tables
    requires id in t.tabs
  {
    Tables(t.tabs[id := t.tabs[id].(name := RefreshedName(t.tabs[id], HasOne(t.editors, id)))],
           RefreshAll(t.mems, d.mem, {}, {id}), RefreshAll(t.editors, d.editor, EDITOR_KEPT, {id}),
           RefreshAll(t.results, d.result, {}, {id}), RefreshAll(t.conns, d.conn, {}, {id}))
  }

  /** Refreshing one more tab, as the loop body does, extends the refreshed set by it. */
  lemma RefreshedStep(s: Tables, d: Defaults, done: set<string>, id: string)
    requires id !in done && id in s.tabs
    ensures RefreshOne(Refreshed(s, d, done), d, id) == Refreshed(s, d, done + {id})
  {
    HasOneAfterRefresh(s.editors, d.editor, EDITOR_KEPT, done, id);
    RefreshAllTwice(s.mems, d.mem, {}, done, id);
    RefreshAllTwice(s.editors, d.editor, EDITOR_KEPT, done, id);
    RefreshAllTwice(s.results, d.result, {}, done, id);
    RefreshAllTwice(s.conns, d.conn, {}, done, id);
    RefreshTabsStep(s.tabs, s.editors, done, id);
  }

  lemma RefreshTabsStep(tabs: map<string, QueryTab>, editors: seq<ChildRecord>, done: set<string>, id: string)
    requires id !in done && id in tabs
    ensures var t := RefreshTabs(tabs, editors, done);
      t[id := t[id].(name := RefreshedName(t[id], HasOne(editors, id)))] == RefreshTabs(tabs, editors, done + {id})
  {
    var t := RefreshTabs(tabs, editors, done);
    var t' := t[id := t[id].(name := RefreshedName(t[id], HasOne(editors, id)))];
    var u := RefreshTabs(tabs, editors, done + {id});
    assert t'.Keys == u.Keys;
    forall k | k in u ensures t'[k] == u[k] {
    }
  }

  class QueryTabStore {
    var tabs: map<string, QueryTab>
    var mems: seq<ChildRecord>
    var editors: seq<ChildRecord>
    var results: seq<ChildRecord>
    var conns: seq<ChildRecord>
    /** The child tables' defaults; those models are not part of this one. */
    const defaults: Defaults

    function State(): Tables
      reads this
    {
      Tables(tabs, mems, editors, results, conns)
    }

    constructor (s: Tables, defaults: Defaults)
      ensures State() == s && this.defaults == defaults
    {
      tabs, mems, editors, results, conns := s.tabs, s.mems, s.editors, s.results, s.conns;
      this.defaults := defaults;
    }

    /** cascadeDelete: for each selected id, delete the tab and the child records pointing at it. */
    method CascadeDelete(payload: Payload)
      modifies this
      ensures State() == Deleted(old(State()), Matched(old(tabs), payload))
    {
      var ids := Matched(tabs, payload);
      assert ids == Matched(old(tabs), payload);
      var rest := ids;
      ghost var done: set<string> := {};
      DeletedNothing(State());
      while rest != {}
        invariant rest <= ids && done == ids - rest
        invariant State() == Deleted(old(State()), done)
        decreases rest
      {
        var id :| id in rest;
        DeletedStep(old(State()), done, id);
        ghost var next := DeleteOne(State(), id);
        tabs := tabs - {id};
        mems := Without(mems, {id});
        editors := Without(editors, {id});
        results := Without(results, {id});
        conns := Without(conns, {id});
        assert tabs == next.tabs && mems == next.mems && editors == next.editors;
        assert results == next.results && conns == next.conns;
        rest := rest - {id};
        done := done + {id};
      }
      assert done == ids;
    }

    /**
     * cascadeRefresh: for each selected id, rename the tab by its editor, then refresh
     * its QueryTabMem, Editor (keeping blob_file and query_txt), QueryResult and QueryConn
     * records.
     */
    method CascadeRefresh(payload: Payload)
      modifies this
      ensures State() == Refreshed(old(State()), defaults, Matched(old(tabs), payload))
    {
      var ids := Matched(tabs, payload);
      assert ids == Matched(old(tabs), payload);
      var rest := ids;
      ghost var done: set<string> := {};
      RefreshedNothing(State(), defaults);
      while rest != {}
        invariant rest <= ids && done == ids - rest
        invariant State() == Refreshed(old(State()), defaults, done)
        decreases rest
      {
        var id :| id in rest;
        if id in tabs {
          RefreshedStep(old(State()), defaults, done, id);
          ghost var next := RefreshOne(State(), defaults, id);
          var target := tabs[id];
          tabs := tabs[id := target.(name := RefreshedName(target, HasOne(editors, id)))];
          mems := RefreshAll(mems, defaults.mem, {}, {id});
          editors := RefreshAll(editors, defaults.editor, EDITOR_KEPT, {id});
          results := RefreshAll(results, defaults.result, {}, {id});
          conns := RefreshAll(conns, defaults.conn, {}, {id});
          assert tabs == next.tabs && mems == next.mems && editors == next.editors;
          assert results == next.results && conns == next.conns;
        }
        rest := rest - {id};
        done := done + {id};
      }
      assert done == ids;
    }
  }
}
