/**
 * Roles and accounts of the NoSQL protocol's local user store: the names of the built-in
 * roles, their JSON form as stored in the `roles` column, the `db.user` account key and
 * the WHERE clause that selects several accounts at once.
 *
 * JSON text is parsed by a library; here a parsed document is a `Json` value and the
 * parser is the parameter `load`.
 */
module NoSqlUsers {
  import opened Common

  datatype RoleId = DbAdmin | Read | ReadWrite

  /** The name table, in the key order of the ordered map that holds it. */
  const ROLES: seq<(string, RoleId)> := [("dbAdmin", DbAdmin), ("read", Read), ("readWrite", ReadWrite)]

  /** The name of the first table entry from `i` on whose id is `id`, or "unknown". */
  function NameFrom(id: RoleId, i: nat): (name: string)
    requires i <= |ROLES|
    ensures name == "unknown" || exists k :: i <= k < |ROLES| && ROLES[k] == (name, id)
    decreases |ROLES| - i
  {
    if i == |ROLES| then "unknown"
    else if ROLES[i].1 == id then ROLES[i].0
    else NameFrom(id, i + 1)
  }

  /** role::to_string: the name the table gives `id`. */
  function RoleToString(id: RoleId): (name: string)
    ensures (name, id) in ROLES
  {
    NameFrom(id, 0)
  }

  /** role::from_string: the id of a known name; an unknown name leaves `current` as it was. */
  function RoleFromString(key: string, current: RoleId): (r: (bool, RoleId))
    ensures r.0 <==> exists k :: 0 <= k < |ROLES| && ROLES[k].0 == key
    ensures r.0 ==> (key, r.1) in ROLES
    ensures !r.0 ==> r.1 == current
  {
    IdFrom(key, 0, current)
  }

  /** The map lookup: the id of the entry from `i` on named `key`, if there is one. */
  function IdFrom(key: string, i: nat, current: RoleId): (r: (bool, RoleId))
    requires i <= |ROLES|
    ensures r.0 <==> exists k :: i <= k < |ROLES| && ROLES[k].0 == key
    ensures r.0 ==> (key, r.1) in ROLES
    ensures !r.0 ==> r.1 == current
    decreases |ROLES| - i
  {
    if i == |ROLES| then (false, current)
    else if ROLES[i].0 == key then (true, ROLES[i].1)
    else IdFrom(key, i + 1, current)
  }

  /** The two functions are inverse bijections between the names and the ids. */
  lemma {:induction false} RoleNamesRoundTrip(id: RoleId, key: string, current: RoleId)
    ensures RoleFromString(RoleToString(id), current) == (true, id)
    ensures RoleFromString(key, current).0 ==> RoleToString(RoleFromString(key, current).1) == key
  {
    var name := RoleToString(id);
    assert (name, id) in ROLES;
    if RoleFromString(key, current).0 {
      assert (key, RoleFromString(key, current).1) in ROLES;
    }
  }

  datatype Role = Role(db: string, id: RoleId)

  /** A parsed JSON document; strings are kept as they appear between the quotes. */
  datatype Json = JString(s: string) | JObject(fields: seq<(string, Json)>) | JArray(elems: seq<Json>) | JOther

  /** Text of a document in the layout the writers use: `": "` after a key and `", "` between entries. */
  function Render(j: Json): string
    decreases j, 1
  {
    match j
    case JString(s) => "\"" + s + "\""
    case JObject(fields) => "{" + RenderFields(fields) + "}"
    case JArray(elems) => "[" + RenderElems(elems) + "]"
    case JOther => "null"
  }

  function RenderFields(fields: seq<(string, Json)>): string
    decreases fields, 0
  {
    if |fields| == 0 then ""
    else if |fields| == 1 then RenderMember(fields[0])
    else RenderFields(fields[..|fields| - 1]) + ", " + RenderMember(fields[|fields| - 1])
  }

  function RenderMember(m: (string, Json)): string
    decreases m, 0
  {
    "\"" + m.0 + "\": " + Render(m.1)
  }

  function RenderElems(elems: seq<Json>): string
    decreases elems, 0
  {
    if |elems| == 0 then ""
    else if |elems| == 1 then Render(elems[0])
    else RenderElems(elems[..|elems| - 1]) + ", " + Render(elems[|elems| - 1])
  }

  lemma {:induction false} RenderElemsSnoc(elems: seq<Json>, e: Json)
    ensures RenderElems(elems + [e]) == if |elems| == 0 then Render(e) else RenderElems(elems) + ", " + Render(e)
  {
    assert (elems + [e])[..|elems|] == elems;
  }

  /** The document a role is written as: an object with the string members `db` and `role`. */
  function RoleAsJson(role: Role): Json
  {
    JObject([("db", JString(role.db)), ("role", JString(RoleToString(role.id)))])
  }

  /** The documents of a vector of roles, element by element. */
  function RoleDocs(roles: seq<Role>): (docs: seq<Json>)
    ensures |docs| == |roles| && forall k :: 0 <= k < |roles| ==> docs[k] == RoleAsJson(roles[k])
  {
    if |roles| == 0 then [] else RoleDocs(roles[..|roles| - 1]) + [RoleAsJson(roles[|roles| - 1])]
  }

  /** role::to_json of one role. */
  function RoleToJson(role: Role): string
  {
    "{" + "\"db\": \"" + role.db + "\", " + "\"role\": \"" + RoleToString(role.id) + "\"" + "}"
  }

  /** What to_json writes for a role is the text of the role's document. */
  lemma {:induction false} RoleToJsonRenders(role: Role)
    ensures RoleToJson(role) == Render(RoleAsJson(role))
  {
    RoleObjectText(role.db, RoleToString(role.id));
  }

  /** The text of a member whose value is a string. */
  lemma StringMemberText(key: string, value: string)
    ensures RenderMember((key, JString(value))) == "\"" + key + "\": \"" + value + "\""
  {
    Assoc("\"" + key + "\": ", "\"" + value, "\"");
    Assoc("\"" + key + "\": ", "\"", value);
    Assoc("\"" + key, "\": ", "\"");
  }

  /** The two-member object a role is written as, as one string. */
  lemma RoleObjectText(db: string, name: string)
    ensures "{" + "\"db\": \"" + db + "\", " + "\"role\": \"" + name + "\"" + "}"
            == Render(JObject([("db", JString(db)), ("role", JString(name))]))
  {
    var fields := [("db", JString(db)), ("role", JString(name))];
    var left := "\"db\": \"" + db + "\"";
    var right := "\"role\": \"" + name + "\"";
    StringMemberText("db", db);
    StringMemberText("role", name);
    assert fields[..1] == [fields[0]];
    assert RenderFields(fields) == left + ", " + right;
    calc {
      "{" + "\"db\": \"" + db + "\", " + "\"role\": \"" + name + "\"" + "}";
      "{" + "\"db\": \"" + db + ("\"" + ", ") + "\"role\": \"" + name + "\"" + "}";
      { Assoc("{" + "\"db\": \"" + db, "\"", ", "); }
      "{" + left + ", " + "\"role\": \"" + name + "\"" + "}";
      { Assoc("{" + left + ", ", "\"role\": \"", name);
        Assoc("{" + left + ", ", "\"role\": \"" + name, "\""); }
      "{" + left + ", " + right + "}";
      { Assoc("{", left, ", "); Assoc("{", left + ", ", right); }
      "{" + (left + ", " + right) + "}";
    }
  }

  /** role::to_json of a vector: `[`, the roles separated by `", "`, then `]`. */
  method RolesToJson(roles: seq<Role>) returns (text: string)
    ensures text == Render(JArray(RoleDocs(roles)))
    ensures roles == [] ==> text == "[]"
  {
    ghost var docs := RoleDocs(roles);
    var body := "";
    var i := 0;
    while i < |roles|
      invariant 0 <= i <= |roles|
      invariant body == RenderElems(docs[..i])
    {
      if i != 0 {
        body := body + ", ";
      }
      RoleToJsonRenders(roles[i]);
      body := body + RoleToJson(roles[i]);
      assert docs[..i + 1] == docs[..i] + [docs[i]];
      RenderElemsSnoc(docs[..i], docs[i]);
      i := i + 1;
    }
    assert docs[..|roles|] == docs;
    text := "[" + body + "]";
  }

  /** mxb::Json::try_get_string: the value of member `key` when it is a string. */
  function TryGetString(fields: seq<(string, Json)>, key: string): (r: Option<string>)
    ensures r.Some? ==> exists k :: 0 <= k < |fields| && fields[k] == (key, JString(r.value))
  {
    if |fields| == 0 then None
    else if fields[0].0 == key then (if fields[0].1.JString? then Some(fields[0].1.s) else None)
    else TryGetString(fields[1..], key)
  }

  /**
   * role::from_json of a document: an object with a string `db` and a string `role`
   * naming a known role. On failure the role passed in comes back unchanged.
   */
  function RoleFromJson(j: Json, current: Role): (r: (bool, Role))
    ensures !r.0 ==> r.1 == current
    ensures r.0 ==> j.JObject? && TryGetString(j.fields, "db") == Some(r.1.db) &&
                    TryGetString(j.fields, "role") == Some(RoleToString(r.1.id))
  {
    if j.JObject? && TryGetString(j.fields, "db").Some? && TryGetString(j.fields, "role").Some? then
      var found := RoleFromString(TryGetString(j.fields, "role").value, current.id);
      if found.0 then
        RoleNamesRoundTrip(found.1, TryGetString(j.fields, "role").value, current.id);
        (true, Role(TryGetString(j.fields, "db").value, found.1))
      else (false, current)
    else (false, current)
  }

  /** role::from_json of text: parse, then read the document. */
  function RoleFromText(s: string, load: string -> Option<Json>, current: Role): (r: (bool, Role))
    ensures r.0 <==> load(s).Some? && RoleFromJson(load(s).value, current).0
    ensures !r.0 ==> r.1 == current
  {
    if load(s).Some? then RoleFromJson(load(s).value, current) else (false, current)
  }

  /** Every role's own document reads back as that role. */
  lemma {:induction false} RoleJsonRoundTrip(role: Role, current: Role)
    ensures RoleFromJson(RoleAsJson(role), current) == (true, role)
  {
    RoleNamesRoundTrip(role.id, "", current.id);
    var fields := RoleAsJson(role).fields;
    assert TryGetString(fields, "db") == Some(role.db);
    assert fields[1..] == [("role", JString(RoleToString(role.id)))];
    assert TryGetString(fields, "role") == Some(RoleToString(role.id)) by {
      assert TryGetString(fields, "role") == TryGetString(fields[1..], "role");
    }
  }

  /** The roles an array's elements read as, when every element is a role object. */
  function RolesFromElems(elems: seq<Json>): (r: Option<seq<Role>>)
    ensures r.Some? ==> |r.value| == |elems|
    ensures r.Some? ==> forall k :: 0 <= k < |elems| ==> RoleFromJson(elems[k], Role("", Read)) == (true, r.value[k])
  {
    if |elems| == 0 then Some([])
    else
      var last := RoleFromJson(elems[|elems| - 1], Role("", Read));
      var init := RolesFromElems(elems[..|elems| - 1]);
      if init.Some? && elems[|elems| - 1].JObject? && last.0 then Some(init.value + [last.1]) else None
  }

  /**
   * role::from_json of an array: all or nothing. `roles` is replaced only when the text
   * parses to an array whose every element is an object naming a valid role.
   */
  method RolesFromText(s: string, load: string -> Option<Json>, current: seq<Role>) returns (ok: bool, roles: seq<Role>)
    ensures ok <==> load(s).Some? && load(s).value.JArray? && RolesFromElems(load(s).value.elems).Some?
    ensures ok ==> roles == RolesFromElems(load(s).value.elems).value
    ensures !ok ==> roles == current
  {
    ok := false;
    roles := current;
    var json := load(s);
    if json.Some? && json.value.JArray? {
      var elems := json.value.elems;
      var local: seq<Role> := [];
      ok := true;
      var i := 0;
      while i < |elems|
        invariant 0 <= i <= |elems|
        invariant ok ==> RolesFromElems(elems[..i]) == Some(local)
        invariant !ok ==> RolesFromElems(elems) == None
        decreases |elems| - i, if ok then 1 else 0
      {
        var role := Role("", Read);
        if elems[i].JObject? {
          var r := RoleFromJson(elems[i], role);
          ok := r.0;
          role := r.1;
          if !ok {
            RolesFromElemsStops(elems, i);
            break;
          }
        } else {
          ok := false;
          RolesFromElemsStops(elems, i);
          break;
        }
        RolesFromElemsStep(elems, i, local, role);
        local := local + [role];
        i := i + 1;
      }
      if ok {
        assert elems[..|elems|] == elems;
        roles := local;
      }
    }
  }

  /** One more element that reads as a role extends the roles read from the prefix. */
  lemma RolesFromElemsStep(elems: seq<Json>, i: nat, local: seq<Role>, role: Role)
    requires i < |elems| && RolesFromElems(elems[..i]) == Some(local)
    requires elems[i].JObject? && RoleFromJson(elems[i], Role("", Read)) == (true, role)
    ensures RolesFromElems(elems[..i + 1]) == Some(local + [role])
  {
    assert elems[..i + 1][..i] == elems[..i];
  }

  /** An element that is not a role object makes the whole array fail. */
  lemma RolesFromElemsStops(elems: seq<Json>, i: nat)
    requires i < |elems| && !(elems[i].JObject? && RoleFromJson(elems[i], Role("", Read)).0)
    ensures RolesFromElems(elems).None?
  {
    assert elems[..i + 1][..i] == elems[..i];
    PrefixFailurePropagates(elems, i + 1);
  }

  /** Once a prefix fails to read, the whole array does. */
  lemma {:induction false} PrefixFailurePropagates(elems: seq<Json>, n: nat)
    requires n <= |elems| && RolesFromElems(elems[..n]).None?
    ensures RolesFromElems(elems).None?
    decreases |elems| - n
  {
    if n < |elems| {
      assert elems[..n + 1][..n] == elems[..n];
      PrefixFailurePropagates(elems, n + 1);
    } else {
      assert elems[..n] == elems;
    }
  }

  /** What to_json writes for a vector, read back element by element, is that vector. */
  lemma {:induction false} RolesJsonRoundTrip(roles: seq<Role>)
    ensures RolesFromElems(RoleDocs(roles)) == Some(roles)
    decreases |roles|
  {
    var docs := RoleDocs(roles);
    if |roles| > 0 {
      var init := roles[..|roles| - 1];
      assert docs[..|docs| - 1] == RoleDocs(init);
      RolesJsonRoundTrip(init);
      RoleJsonRoundTrip(roles[|roles| - 1], Role("", Read));
      assert init + [roles[|roles| - 1]] == roles;
    }
  }

  /** The account key: the database, a dot, then the user name. */
  function DbUser(db: string, user: string): (key: string)
    ensures |key| == |db| + 1 + |user|
    ensures key[..|db|] == db && key[|db|] == '.' && key[|db| + 1..] == user
  {
    db + "." + user
  }

  /** For database names without a dot, the key determines database and user. */
  lemma {:induction false} DbUserInjective(db1: string, user1: string, db2: string, user2: string)
    requires '.' !in db1 && '.' !in db2
    requires DbUser(db1, user1) == DbUser(db2, user2)
    ensures db1 == db2 && user1 == user2
  {
    var key := DbUser(db1, user1);
    assert key[|db1|] == '.' && key[|db2|] == '.';
    assert forall i :: 0 <= i < |db1| ==> key[i] == db1[i];
    assert forall i :: 0 <= i < |db2| ==> key[i] == db2[i];
    assert |db1| == |db2|;
  }

  const SELECT_SOME_HEAD: string :=
    "SELECT db_user, db, user, pwd, uuid, salt_b64, mechanisms, roles FROM accounts WHERE "

  /** The condition that selects one account. */
  function UserTerm(dbUser: string): string
  {
    "db_user = '" + dbUser + "'"
  }

  function Terms(dbUsers: seq<string>): (r: seq<string>)
    ensures |r| == |dbUsers| && forall k :: 0 <= k < |r| ==> r[k] == UserTerm(dbUsers[k])
  {
    seq(|dbUsers|, k requires 0 <= k < |dbUsers| => UserTerm(dbUsers[k]))
  }

  /** The statement get_infos runs for a list of account keys; none for an empty list. */
  method SelectSomeUsers(dbUsers: seq<string>) returns (sql: Option<string>)
    ensures dbUsers == [] <==> sql.None?
    ensures sql.Some? ==> sql.value == SELECT_SOME_HEAD + Join(Terms(dbUsers), " OR ")
  {
    if dbUsers == [] {
      return None;
    }
    var where := "";
    var i := 0;
    while i < |dbUsers|
      invariant 0 <= i <= |dbUsers|
      invariant where == Join(Terms(dbUsers[..i]), " OR ")
    {
      if i != 0 {
        where := where + " OR ";
      }
      where := where + UserTerm(dbUsers[i]);
      assert Terms(dbUsers[..i + 1])[..i] == Terms(dbUsers[..i]);
      i := i + 1;
    }
    assert dbUsers[..|dbUsers|] == dbUsers;
    sql := Some(SELECT_SOME_HEAD + where);
  }

  /** Every requested account has its own condition in the WHERE clause. */
  lemma {:induction false} JoinContainsParts(parts: seq<string>, sep: string, k: nat)
    requires k < |parts|
    ensures Contains(Join(parts, sep), parts[k])
    decreases |parts|
  {
    var j := Join(parts, sep);
    if |parts| == 1 {
      assert OccursAt(j, parts[k], 0);
    } else if k == |parts| - 1 {
      var at := |Join(parts[..|parts| - 1], sep) + sep|;
      assert j[at..at + |parts[k]|] == parts[k];
      assert OccursAt(j, parts[k], at);
    } else {
      var init := parts[..|parts| - 1];
      JoinContainsParts(init, sep, k);
      var i: nat :| i <= |Join(init, sep)| && OccursAt(Join(init, sep), init[k], i);
      assert j[i..i + |parts[k]|] == Join(init, sep)[i..i + |parts[k]|];
      assert OccursAt(j, parts[k], i);
    }
  }

  lemma {:induction false} EveryUserSelected(dbUsers: seq<string>, k: nat)
    requires k < |dbUsers|
    ensures Contains(Join(Terms(dbUsers), " OR "), "db_user = '" + dbUsers[k] + "'")
  {
    JoinContainsParts(Terms(dbUsers), " OR ", k);
  }

  /** SCRAM mechanisms; their JSON reader is not part of this model and comes in as a parameter. */
  datatype Mechanism = ScramSha1 | ScramSha256

  /** One row of the accounts table, its eight columns in select order. */
  datatype Row = Row(dbUser: string, db: string, user: string, pwd: string, uuid: string,
                     saltB64: string, mechanisms: string, roles: string)

  datatype UserInfo = UserInfo(dbUser: string, db: string, user: string, pwd: string, uuid: string,
                               saltB64: string, mechanisms: seq<Mechanism>, roles: seq<Role>)

  /** The roles a `roles` column reads as, as RolesFromText computes them. */
  function RolesOf(s: string, load: string -> Option<Json>): Option<seq<Role>>
  {
    if load(s).Some? && load(s).value.JArray? then RolesFromElems(load(s).value.elems) else None
  }

  /**
   * select_cb: a row becomes a user entry only when both its mechanisms and its roles
   * columns read; otherwise it is ignored.
   */
  function SelectRow(infos: seq<UserInfo>, row: Row, load: string -> Option<Json>,
                     mechanisms: string -> Option<seq<Mechanism>>): (r: seq<UserInfo>)
    ensures r == infos <==> !(mechanisms(row.mechanisms).Some? && RolesOf(row.roles, load).Some?)
    ensures r != infos ==>
              r == infos + [UserInfo(row.dbUser, row.db, row.user, row.pwd, row.uuid, row.saltB64,
                                     mechanisms(row.mechanisms).value, RolesOf(row.roles, load).value)]
  {
    if mechanisms(row.mechanisms).Some? && RolesOf(row.roles, load).Some? then
      var info := UserInfo(row.dbUser, row.db, row.user, row.pwd, row.uuid, row.saltB64,
                           mechanisms(row.mechanisms).value, RolesOf(row.roles, load).value);
      assert |infos + [info]| != |infos|;
      infos + [info]
    else infos
  }

  /** The entries made from `rows`, in row order. */
  function Accepted(rows: seq<Row>, load: string -> Option<Json>, mechanisms: string -> Option<seq<Mechanism>>)
    : seq<UserInfo>
  {
    if |rows| == 0 then [] else SelectRow(Accepted(rows[..|rows| - 1], load, mechanisms), rows[|rows| - 1], load, mechanisms)
  }

  /** No more entries than rows, and each entry's roles read back from its row. */
  lemma {:induction false} AcceptedBounded(rows: seq<Row>, load: string -> Option<Json>,
                                           mechanisms: string -> Option<seq<Mechanism>>)
    ensures |Accepted(rows, load, mechanisms)| <= |rows|
    ensures forall e :: e in Accepted(rows, load, mechanisms) ==>
              exists r :: r in rows && r.dbUser == e.dbUser && RolesOf(r.roles, load) == Some(e.roles)
    decreases |rows|
  {
    if |rows| > 0 {
      var init := rows[..|rows| - 1];
      AcceptedBounded(init, load, mechanisms);
      forall e | e in Accepted(rows, load, mechanisms)
        ensures exists r :: r in rows && r.dbUser == e.dbUser && RolesOf(r.roles, load) == Some(e.roles)
      {
        if e in Accepted(init, load, mechanisms) {
          var r :| r in init && r.dbUser == e.dbUser && RolesOf(r.roles, load) == Some(e.roles);
          assert r in rows;
        } else {
          assert rows[|rows| - 1] in rows;
        }
      }
    }
  }

  /**
   * get_infos for a list of keys: nothing is selected for an empty list; otherwise the
   * rows the statement returns (the parameter `select`) pass through select_cb.
   */
  method GetInfos(dbUsers: seq<string>, select: string -> seq<Row>, load: string -> Option<Json>,
                  mechanisms: string -> Option<seq<Mechanism>>)
    returns (infos: seq<UserInfo>)
    ensures dbUsers == [] ==> infos == []
    ensures dbUsers != [] ==>
              infos == Accepted(select(SELECT_SOME_HEAD + Join(Terms(dbUsers), " OR ")), load, mechanisms)
  {
    infos := [];
    var sql := SelectSomeUsers(dbUsers);
    if sql.Some? {
      var rows := select(sql.value);
      var i := 0;
      while i < |rows|
        invariant 0 <= i <= |rows|
        invariant infos == Accepted(rows[..i], load, mechanisms)
      {
        assert rows[..i + 1][..i] == rows[..i];
        infos := SelectRow(infos, rows[i], load, mechanisms);
        i := i + 1;
      }
      assert rows[..|rows|] == rows;
    }
  }
}
