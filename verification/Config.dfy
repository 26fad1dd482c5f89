/** Settings edited by key: nested objects with lens laws, the map from keys to addresses,
    and reads after writes. */
module Config {
  import opened Options
  import opened Text

  /** A JSON value; numbers and arrays are kept whole. */
  datatype Value = Null | Bool(b: bool) | Str(s: string) | Other(raw: string) | Obj(fields: map<string, Value>)

  type Fields = map<string, Value>

  // ----- nested reads and writes -----

  function Get(v: Value, path: seq<string>): Value
    decreases |path|
  {
    if path == [] then v
    else if v.Obj? && path[0] in v.fields then Get(v.fields[path[0]], path[1..])
    else Null
  }

  /** The object below p; anything else counts as an empty one. */
  function Below(data: Fields, p: string): Fields {
    if p in data && data[p].Obj? then data[p].fields else map[]
  }

  function SetNested(data: Fields, path: seq<string>, value: Value): Fields
    requires path != []
    decreases |path|
  {
    if |path| == 1 then data[path[0] := value]
    else data[path[0] := Obj(SetNested(Below(data, path[0]), path[1..], value))]
  }

  method GetNested(data: Fields, path: seq<string>) returns (v: Value)
    ensures v == Get(Obj(data), path)
  {
    v := Obj(data);
    for i := 0 to |path|
      invariant Get(v, path[i..]) == Get(Obj(data), path)
    {
      assert path[i..][1..] == path[i + 1..];
      if !v.Obj? {
        return Null;
      }
      if path[i] in v.fields {
        v := v.fields[path[i]];
      } else {
        NullBelowNull(path[i + 1..]);
        v := Null;
      }
    }
  }

  lemma {:induction false} NullBelowNull(path: seq<string>)
    ensures Get(Null, path) == Null
  {}

  /** A value that was set is read back. */
  lemma {:induction false} GetAfterSet(data: Fields, path: seq<string>, value: Value)
    requires path != []
    ensures Get(Obj(SetNested(data, path, value)), path) == value
    decreases |path|
  {
    if |path| > 1 { GetAfterSet(Below(data, path[0]), path[1..], value); }
  }

  /** The paths agree up to a position where both go on, differently. */
  predicate Diverge(p: seq<string>, q: seq<string>) {
    p != [] && q != [] && (p[0] != q[0] || Diverge(p[1..], q[1..]))
  }

  lemma {:induction false} GetBelow(data: Fields, p: string, q: seq<string>)
    requires q != []
    ensures Get(Obj(data), [p] + q) == Get(Obj(Below(data, p)), q)
  {
    assert ([p] + q)[1..] == q;
    if p in data && !data[p].Obj? {
      assert Get(data[p], q) == Null;
    }
  }

  /** Reads on a diverging path do not notice a write, even one that turns a scalar into an object. */
  lemma {:induction false} GetElsewhere(data: Fields, p: seq<string>, value: Value, q: seq<string>)
    requires Diverge(p, q)
    ensures Get(Obj(SetNested(data, p, value)), q) == Get(Obj(data), q)
    decreases |p|
  {
    if p[0] == q[0] {
      assert |p| > 1 && |q| > 1;
      GetElsewhere(Below(data, p[0]), p[1..], value, q[1..]);
      assert q == [q[0]] + q[1..];
      GetBelow(data, q[0], q[1..]);
      GetBelow(SetNested(data, p, value), q[0], q[1..]);
    }
  }

  /** A later write to the same path overrides an earlier one. */
  lemma {:induction false} SetOverSet(data: Fields, path: seq<string>, v: Value, w: Value)
    requires path != []
    ensures SetNested(SetNested(data, path, v), path, w) == SetNested(data, path, w)
    decreases |path|
  {
    if |path| > 1 { SetOverSet(Below(data, path[0]), path[1..], v, w); }
  }

  /** Writes to diverging paths commute. */
  lemma {:induction false} SetsCommute(data: Fields, p: seq<string>, v: Value, q: seq<string>, w: Value)
    requires Diverge(p, q)
    ensures SetNested(SetNested(data, p, v), q, w) == SetNested(SetNested(data, q, w), p, v)
    decreases |p|
  {
    if p[0] == q[0] {
      assert |p| > 1 && |q| > 1;
      SetsCommute(Below(data, p[0]), p[1..], v, q[1..], w);
      SetTwice(data, p[0], p[1..], v, q[1..], w);
      SetTwice(data, p[0], q[1..], w, p[1..], v);
      assert p == [p[0]] + p[1..] && q == [p[0]] + q[1..];
    } else {
      SetApart(data, p, v, q, w);
    }
  }

  lemma {:induction false} SetTwice(data: Fields, k: string, p: seq<string>, v: Value, q: seq<string>, w: Value)
    requires p != [] && q != []
    ensures SetNested(SetNested(data, [k] + p, v), [k] + q, w)
         == data[k := Obj(SetNested(SetNested(Below(data, k), p, v), q, w))]
  {
    assert ([k] + p)[1..] == p && ([k] + q)[1..] == q;
    var inner := SetNested(Below(data, k), p, v);
    assert SetNested(data, [k] + p, v) == data[k := Obj(inner)];
    assert Below(data[k := Obj(inner)], k) == inner;
  }

  /** What a write puts under its first name. */
  function Placed(data: Fields, p: seq<string>, v: Value): Value
    requires p != []
  {
    if |p| == 1 then v else Obj(SetNested(Below(data, p[0]), p[1..], v))
  }

  lemma {:induction false} SetIsPlaced(data: Fields, p: seq<string>, v: Value)
    requires p != []
    ensures SetNested(data, p, v) == data[p[0] := Placed(data, p, v)]
  {}

  lemma {:induction false} SetApart(data: Fields, p: seq<string>, v: Value, q: seq<string>, w: Value)
    requires p != [] && q != [] && p[0] != q[0]
    ensures SetNested(SetNested(data, p, v), q, w) == SetNested(SetNested(data, q, w), p, v)
  {
    var a, b := SetNested(data, p, v), SetNested(data, q, w);
    SetIsPlaced(data, p, v);
    SetIsPlaced(data, q, w);
    SetIsPlaced(a, q, w);
    SetIsPlaced(b, p, v);
    assert Below(a, q[0]) == Below(data, q[0]) && Below(b, p[0]) == Below(data, p[0]);
  }

  /** The path leads to a value that is there. */
  predicate Present(v: Value, path: seq<string>)
    decreases |path|
  {
    path == [] || (v.Obj? && path[0] in v.fields && Present(v.fields[path[0]], path[1..]))
  }

  /** Writing back what was read changes nothing exactly when something was there. */
  lemma {:induction false} SetWhatIsIff(data: Fields, path: seq<string>)
    requires path != []
    ensures SetNested(data, path, Get(Obj(data), path)) == data <==> Present(Obj(data), path)
    decreases |path|
  {
    var p, rest := path[0], path[1..];
    if p in data && rest != [] && data[p].Obj? {
      SetWhatIsIff(data[p].fields, rest);
      assert Get(Obj(data), path) == Get(data[p], rest);
    }
    var after := SetNested(data, path, Get(Obj(data), path));
    if after == data {
      assert p in after;
      assert data[p] == after[p];
    }
  }

  /** A read below a written path reads inside the written value. */
  lemma {:induction false} GetInside(data: Fields, path: seq<string>, value: Value, rest: seq<string>)
    requires path != []
    ensures Get(Obj(SetNested(data, path, value)), path + rest) == Get(value, rest)
    decreases |path|
  {
    assert (path + rest)[1..] == path[1..] + rest;
    if |path| > 1 {
      GetInside(Below(data, path[0]), path[1..], value, rest);
    } else {
      assert path[1..] + rest == rest;
    }
  }

  // ----- addresses -----

  datatype Address = Address(agentScope: bool, namespace: string, path: seq<string>)

  const DEFAULTS := "agents.defaults"
  const SANDBOX := "sandbox"

  const AGENT_SCOPE_KEYS: seq<string> := [
    "model", "maxTokens", "temperature", "maxToolIterations", "maxParallelToolCalls", "thinking",
    "policy", "promptMode", "splitReplies"
  ]

  const SYSTEM_NAMESPACES: seq<string> := [
    "skills.install", "skills.entries", "tools.providers", "tools.categories", "objectstore", "taskqueue",
    "heartbeat", "plugins", "memory", "privacy", "hooks", "teams"
  ]

  /** What key says about one namespace: the whole of it, or a path that does not begin with
      an empty name. */
  function InNamespace(key: string, ns: string): Option<seq<string>> {
    if key == ns then Some([])
    else if ns + "." <= key && Split(key[|ns| + 1..], ".")[0] != "" then Some(Split(key[|ns| + 1..], "."))
    else None
  }

  /** The first of the namespaces that takes the key. */
  function SystemKey(key: string, namespaces: seq<string>): Option<Address> {
    if namespaces == [] then None
    else
      match InNamespace(key, namespaces[0])
      case Some(path) => Some(Address(false, namespaces[0], path))
      case None => SystemKey(key, namespaces[1..])
  }

  function SettingAddress(key: string): Option<Address> {
    if key in AGENT_SCOPE_KEYS then Some(Address(true, DEFAULTS, [key]))
    else if key == SANDBOX then Some(Address(true, SANDBOX, []))
    else if SANDBOX + "." <= key then Some(Address(true, SANDBOX, Split(key[|SANDBOX| + 1..], ".")))
    else SystemKey(key, SYSTEM_NAMESPACES)
  }

  method SettingKey(key: string) returns (a: Option<Address>)
    ensures a == SettingAddress(key)
  {
    if key in AGENT_SCOPE_KEYS {
      return Some(Address(true, DEFAULTS, [key]));
    }
    if key == SANDBOX {
      return Some(Address(true, SANDBOX, []));
    }
    if SANDBOX + "." <= key {
      return Some(Address(true, SANDBOX, Split(key[|SANDBOX| + 1..], ".")));
    }
    a := SystemNamespace(key, SYSTEM_NAMESPACES);
  }

  method SystemNamespace(key: string, namespaces: seq<string>) returns (a: Option<Address>)
    ensures a == SystemKey(key, namespaces)
  {
    for i := 0 to |namespaces|
      invariant SystemKey(key, namespaces) == SystemKey(key, namespaces[i..])
    {
      var ns := namespaces[i];
      assert namespaces[i..][0] == ns && namespaces[i..][1..] == namespaces[i + 1..];
      if key == ns {
        return Some(Address(false, ns, []));
      }
      var prefix := ns + ".";
      if prefix <= key {
        var path := Split(key[|prefix|..], ".");
        if path[0] != "" {
          return Some(Address(false, ns, path));
        }
      }
    }
    return None;
  }

  function KeyIn(ns: string, path: seq<string>): string {
    if path == [] then ns else ns + "." + Join(path, ".")
  }

  /** The key of an address. */
  function KeyOf(a: Address): string {
    if a.agentScope && a.namespace == DEFAULTS && |a.path| == 1 then a.path[0] else KeyIn(a.namespace, a.path)
  }

  lemma {:induction false} InNamespaceKey(key: string, ns: string)
    requires InNamespace(key, ns).Some?
    ensures KeyIn(ns, InNamespace(key, ns).value) == key
  {
    if key != ns { DottedKey(key, ns); }
  }

  lemma {:induction false} DottedKey(key: string, ns: string)
    requires ns + "." <= key
    ensures KeyIn(ns, Split(key[|ns| + 1..], ".")) == key
  {
    JoinSplit(key[|ns| + 1..], ".");
    assert key == ns + "." + key[|ns| + 1..];
  }

  lemma {:induction false} SystemKeyIs(key: string, namespaces: seq<string>)
    requires SystemKey(key, namespaces).Some?
    ensures var a := SystemKey(key, namespaces).value;
            !a.agentScope && a.namespace in namespaces && KeyIn(a.namespace, a.path) == key
  {
    if InNamespace(key, namespaces[0]).Some? {
      InNamespaceKey(key, namespaces[0]);
    } else {
      SystemKeyIs(key, namespaces[1..]);
    }
  }

  /** An accepted key can be told from its address: no two keys have the same one. */
  lemma {:induction false} KeyOfAddress(key: string)
    requires SettingAddress(key).Some?
    ensures KeyOf(SettingAddress(key).value) == key
  {
    if key in AGENT_SCOPE_KEYS || key == SANDBOX {
    } else if SANDBOX + "." <= key {
      DottedKey(key, SANDBOX);
    } else {
      SystemKeyIs(key, SYSTEM_NAMESPACES);
    }
  }

  lemma {:induction false} SystemNamespacesApart(ns: string)
    requires ns in SYSTEM_NAMESPACES
    ensures ns != DEFAULTS && ns != SANDBOX
  {}

  lemma {:induction false} ScopeOfNamespace(key: string)
    requires SettingAddress(key).Some?
    ensures var a := SettingAddress(key).value; a.agentScope <==> a.namespace == DEFAULTS || a.namespace == SANDBOX
  {
    if key in AGENT_SCOPE_KEYS || key == SANDBOX || SANDBOX + "." <= key {
    } else {
      SystemKeyIs(key, SYSTEM_NAMESPACES);
      SystemNamespacesApart(SettingAddress(key).value.namespace);
    }
  }

  /** The key reads a name of its own behind the prefix. */
  predicate Names(key: string, prefix: string) {
    prefix + "." <= key && |key| > |prefix| + 1 && key[|prefix| + 1] != '.'
  }

  lemma {:induction false} FirstPart(rest: string)
    ensures Split(rest, ".")[0] != "" <==> rest != "" && rest[0] != '.'
  {
    if rest != "" { assert "." <= rest <==> rest[0] == '.'; }
  }

  /** The namespace itself, or something below it. */
  predicate Takes(ns: string, key: string) {
    key == ns || Names(key, ns)
  }

  lemma {:induction false} InNamespaceIff(key: string, ns: string)
    ensures InNamespace(key, ns).Some? <==> Takes(ns, key)
  {
    if ns + "." <= key { FirstPart(key[|ns| + 1..]); }
  }

  ghost predicate SomeTakes(namespaces: seq<string>, key: string) {
    exists ns :: ns in namespaces && Takes(ns, key)
  }

  lemma {:induction false} SystemKeyIff(key: string, namespaces: seq<string>)
    ensures SystemKey(key, namespaces).Some? <==> SomeTakes(namespaces, key)
  {
    if namespaces != [] {
      InNamespaceIff(key, namespaces[0]);
      SystemKeyIff(key, namespaces[1..]);
      forall ns ensures ns in namespaces <==> ns == namespaces[0] || ns in namespaces[1..] {
        assert namespaces == [namespaces[0]] + namespaces[1..];
      }
      if SomeTakes(namespaces[1..], key) {
        var ns :| ns in namespaces[1..] && Takes(ns, key);
        assert ns in namespaces;
      }
      if Takes(namespaces[0], key) { assert namespaces[0] in namespaces; }
    }
  }

  predicate IsAgentKey(key: string) {
    key in AGENT_SCOPE_KEYS || key == SANDBOX || SANDBOX + "." <= key
  }

  /** Which keys are accepted, and which of them belong to one agent. */
  lemma {:induction false} AcceptedIff(key: string)
    ensures SettingAddress(key).Some? <==>
              IsAgentKey(key) || SomeTakes(SYSTEM_NAMESPACES, key)
    ensures SettingAddress(key).Some? ==> (SettingAddress(key).value.agentScope <==> IsAgentKey(key))
  {
    SystemKeyIff(key, SYSTEM_NAMESPACES);
    if SystemKey(key, SYSTEM_NAMESPACES).Some? { SystemKeyIs(key, SYSTEM_NAMESPACES); }
  }

  predicate DotFree(path: seq<string>) {
    forall i :: 0 <= i < |path| ==> '.' !in path[i]
  }

  lemma {:induction false} HoldsDot(t: string)
    ensures Contains(t, ".") <==> '.' in t
  {
    if t != "" {
      HoldsDot(t[1..]);
      assert "." <= t <==> t[0] == '.';
      assert t == [t[0]] + t[1..];
    }
  }

  lemma {:induction false} SplitDotFree(rest: string)
    ensures DotFree(Split(rest, "."))
  {
    SplitPartsAreFree(rest, ".");
    forall i | 0 <= i < |Split(rest, ".")| ensures '.' !in Split(rest, ".")[i] {
      assert Split(rest, ".")[i] in Split(rest, ".");
      HoldsDot(Split(rest, ".")[i]);
    }
  }

  lemma {:induction false} SystemPathDotFree(key: string, namespaces: seq<string>)
    requires SystemKey(key, namespaces).Some?
    ensures DotFree(SystemKey(key, namespaces).value.path)
  {
    if InNamespace(key, namespaces[0]).Some? {
      if key != namespaces[0] { SplitDotFree(key[|namespaces[0]| + 1..]); }
    } else {
      SystemPathDotFree(key, namespaces[1..]);
    }
  }

  lemma {:induction false} AgentKeyDotFree(key: string)
    requires key in AGENT_SCOPE_KEYS
    ensures '.' !in key
  {}

  /** The path of an accepted key is cut at every dot. */
  lemma {:induction false} PathsAreCut(key: string)
    requires SettingAddress(key).Some?
    ensures DotFree(SettingAddress(key).value.path)
  {
    if key in AGENT_SCOPE_KEYS {
      AgentKeyDotFree(key);
    } else if key == SANDBOX {
    } else if SANDBOX + "." <= key {
      SplitDotFree(key[|SANDBOX| + 1..]);
    } else {
      SystemPathDotFree(key, SYSTEM_NAMESPACES);
    }
  }

  // ----- reading and writing settings -----

  /** The rows of one store, by owning agent ("" for the system) and namespace. */
  type Rows = map<(string, string), Fields>

  function RowOf(a: Address, agentId: string): (string, string) {
    (if a.agentScope then agentId else "", a.namespace)
  }

  function Read(rows: Rows, agentId: string, a: Address): Value {
    var row := RowOf(a, agentId);
    if row in rows then Get(Obj(rows[row]), a.path) else Null
  }

  /** Saving an empty object drops the row. */
  function Saved(rows: Rows, row: (string, string), data: Fields): Rows {
    if data == map[] then rows - {row} else rows[row := data]
  }

  predicate NeedsBackend(data: Fields) {
    && "enabled" in data && data["enabled"] == Bool(true)
    && !("backend" in data && data["backend"].Str?)
  }

  function Edited(data: Fields, a: Address, value: Value): Fields
    requires a.path != []
  {
    var d := SetNested(data, a.path, value);
    if a.namespace == SANDBOX && a.path[0] == "enabled" && NeedsBackend(d) then d["backend" := Str("docker")] else d
  }

  function RowData(rows: Rows, row: (string, string)): Fields {
    if row in rows then rows[row] else map[]
  }

  /** A namespace is set to the empty object. */
  predicate Clears(a: Address, value: Value) {
    a.path == [] && value == Obj(map[])
  }

  /** The rows after a write that reports success; None when a whole namespace is set to
      something else than an object. unseen: the row could not be looked up. */
  function Written(rows: Rows, agentId: string, a: Address, value: Value, unseen: bool): Option<Rows> {
    var row := RowOf(a, agentId);
    if a.path != [] then Some(Saved(rows, row, Edited(RowData(rows, row), a, value)))
    else if Clears(a, value) && unseen then Some(rows)
    else if value.Obj? then Some(Saved(rows, row, value.fields))
    else None
  }

  /** The write reports an error of the store: a failed lookup counts only when the row is
      edited, a failed save only when there is something to save or to drop. */
  predicate Reports(rows: Rows, agentId: string, a: Address, value: Value, load: bool, save: bool) {
    if a.path != [] then load || save
    else if Clears(a, value) then save && !load && RowOf(a, agentId) in rows
    else save
  }

  /** ProviderKey: the key belongs to the provider rows, which are kept apart. Everything: an
      empty key asks for a dump of all rows. */
  datatype Outcome<T> = Done(result: T) | ProviderKey | Everything | Unsupported | NotAnObject | StoreError

  /** Only rows of this owner may differ. */
  ghost predicate OnlyOwned(before: Rows, after: Rows, owner: string) {
    forall row: (string, string) :: row.0 != owner ==>
      (row in after <==> row in before) && (row in before ==> row in after && after[row] == before[row])
  }

  lemma {:induction false} SavedOnlyOwned(rows: Rows, row: (string, string), data: Fields)
    ensures OnlyOwned(rows, Saved(rows, row, data), row.0)
  {}

  lemma {:induction false} WrittenOnlyOwned(rows: Rows, agentId: string, a: Address, value: Value, unseen: bool)
    requires Written(rows, agentId, a, value, unseen).Some?
    ensures OnlyOwned(rows, Written(rows, agentId, a, value, unseen).value, if a.agentScope then agentId else "")
  {
    var row := RowOf(a, agentId);
    if a.path != [] {
      SavedOnlyOwned(rows, row, Edited(RowData(rows, row), a, value));
    } else if value.Obj? {
      SavedOnlyOwned(rows, row, value.fields);
    }
  }

  /** The rows of the agent or of the system, depending on the key. */
  lemma {:induction false} OwnerOfKey(rows: Rows, agentId: string, key: string, a: Address, value: Value, unseen: bool)
    requires SettingAddress(key) == Some(a)
    ensures Written(rows, agentId, a, value, unseen).Some? ==>
              OnlyOwned(rows, Written(rows, agentId, a, value, unseen).value, if IsAgentKey(key) then agentId else "")
  {
    AcceptedIff(key);
    if Written(rows, agentId, a, value, unseen).Some? { WrittenOnlyOwned(rows, agentId, a, value, unseen); }
  }

  class ConfigStore {
    var rows: Rows

    /** value is the parsed argument; load and save tell whether the store fails to look the
        row up, and to save or drop it. */
    method SetConfig(agentId: string, key: string, value: Value, load: bool, save: bool) returns (r: Outcome<()>)
      modifies this
      ensures r.Done? <==>
              && !("provider." <= key) && SettingAddress(key).Some?
              && Written(old(rows), agentId, SettingAddress(key).value, value, load).Some?
              && !Reports(old(rows), agentId, SettingAddress(key).value, value, load, save)
      ensures r.Done? ==> Written(old(rows), agentId, SettingAddress(key).value, value, load) == Some(rows)
      ensures !r.Done? || save ==> rows == old(rows)
      ensures OnlyOwned(old(rows), rows, if IsAgentKey(key) then agentId else "")
      ensures r.StoreError? ==> load || save
      ensures r.ProviderKey? <==> "provider." <= key
      ensures r.Unsupported? <==> !("provider." <= key) && SettingAddress(key).None?
      ensures r.NotAnObject? <==>
              && !("provider." <= key) && SettingAddress(key).Some?
              && SettingAddress(key).value.path == [] && !value.Obj?
    {
      if "provider." <= key {
        return ProviderKey;
      }
      var address := SettingKey(key);
      if address.None? {
        return Unsupported;
      }
      var a := address.value;
      var row := (if a.agentScope then agentId else "", a.namespace);
      OwnerOfKey(rows, agentId, key, a, value, load);
      if |a.path| == 0 {
        if !value.Obj? {
          return NotAnObject;
        }
        r := SaveSetting(row, value.fields, load, save);
        return;
      }
      if load {
        return StoreError;
      }
      var data: Fields := map[];
      if row in rows {
        data := rows[row];
      }
      EditedIsNotEmpty(data, a, value);
      data := EditSetting(data, a, value);
      r := SaveSetting(row, data, load, save);
    }

    method EditSetting(before: Fields, a: Address, value: Value) returns (data: Fields)
      requires a.path != []
      ensures data == Edited(before, a, value)
    {
      data := SetNested(before, a.path, value);
      if a.namespace == "sandbox" && a.path[0] == "enabled" {
        if "enabled" in data && data["enabled"] == Bool(true) {
          if !("backend" in data && data["backend"].Str?) {
            data := data["backend" := Str("docker")];
          }
        }
      }
    }

    /** An empty object drops the row if it is found; a lookup that fails counts as not found. */
    method SaveSetting(row: (string, string), data: Fields, load: bool, save: bool) returns (r: Outcome<()>)
      modifies this
      ensures data == map[] ==> (r == if save && !load && row in old(rows) then StoreError else Done(()))
      ensures data != map[] ==> (r == if save then StoreError else Done(()))
      ensures rows == if r.StoreError? || (data == map[] && load) then old(rows) else Saved(old(rows), row, data)
    {
      if |data| == 0 {
        if !load && row in rows {
          if save {
            return StoreError;
          }
          rows := rows - {row};
        }
        return Done(());
      }
      if save {
        return StoreError;
      }
      rows := rows[row := data];
      r := Done(());
    }

    method GetConfig(agentId: string, key: string, load: bool) returns (r: Outcome<Value>)
      ensures r.Done? <==> key != "" && !("provider." <= key) && SettingAddress(key).Some? && !load
      ensures r.Done? ==> r.result == Read(rows, agentId, SettingAddress(key).value)
      ensures r.Everything? <==> key == ""
      ensures r.Unsupported? <==> key != "" && !("provider." <= key) && SettingAddress(key).None?
    {
      if key == "" {
        return Everything;
      }
      if "provider." <= key {
        return ProviderKey;
      }
      var address := SettingKey(key);
      if address.None? {
        return Unsupported;
      }
      var a := address.value;
      var row := (if a.agentScope then agentId else "", a.namespace);
      if load {
        return StoreError;
      }
      if row !in rows {
        return Done(Null);
      }
      if |a.path| == 0 {
        return Done(Obj(rows[row]));
      }
      var v := GetNested(rows[row], a.path);
      r := Done(v);
    }
  }

  lemma {:induction false} EditedIsNotEmpty(data: Fields, a: Address, value: Value)
    requires a.path != []
    ensures Edited(data, a, value) != map[]
  {
    assert a.path[0] in Edited(data, a, value);
  }

  /** A read after a write that reported success gives the written value, except that a
      namespace set to the empty object reads as missing, or as before when its row could not
      be looked up. */
  lemma {:induction false} ReadAfterWrite(rows: Rows, agentId: string, a: Address, value: Value, unseen: bool)
    requires Written(rows, agentId, a, value, unseen).Some?
    ensures Read(Written(rows, agentId, a, value, unseen).value, agentId, a) ==
            if !Clears(a, value) then value
            else if unseen then Read(rows, agentId, a)
            else Null
  {
    if a.path != [] {
      var data := RowData(rows, RowOf(a, agentId));
      EditedIsNotEmpty(data, a, value);
      GetAfterSet(data, a.path, value);
      var d := SetNested(data, a.path, value);
      if Edited(data, a, value) != d { assert Diverge(["backend"], a.path); BackendElsewhere(d, a.path); }
    }
  }

  lemma {:induction false} BackendElsewhere(d: Fields, path: seq<string>)
    requires path != [] && path[0] != "backend"
    ensures Get(Obj(d["backend" := Str("docker")]), path) == Get(Obj(d), path)
  {}

  /** The two settings are kept apart: in different rows, or on diverging paths of one row. */
  predicate Apart(a: Address, b: Address, agentId: string) {
    RowOf(a, agentId) != RowOf(b, agentId) || Diverge(a.path, b.path)
  }

  /** Writing a fills in the sandbox backend, and b reads it. */
  predicate FillsIn(rows: Rows, agentId: string, a: Address, value: Value, b: Address) {
    && a.path != [] && a.path[0] == "enabled" && a.namespace == SANDBOX
    && RowOf(a, agentId) == RowOf(b, agentId) && b.path != [] && b.path[0] == "backend"
    && NeedsBackend(SetNested(RowData(rows, RowOf(a, agentId)), a.path, value))
  }

  /** That is when the sandbox is switched on and no backend is named. */
  lemma {:induction false} FillsInIff(rows: Rows, agentId: string, a: Address, value: Value, b: Address)
    requires b.path != [] && b.path[0] == "backend" && b.agentScope == a.agentScope && b.namespace == a.namespace
    ensures FillsIn(rows, agentId, a, value, b) <==>
              && a.namespace == SANDBOX && a.path == ["enabled"] && value == Bool(true)
              && !Read(rows, agentId, a.(path := ["backend"])).Str?
  {
    if a.path != [] && a.path[0] == "enabled" {
      var data := RowData(rows, RowOf(a, agentId));
      SetIsPlaced(data, a.path, value);
      assert ["backend"][1..] == [];
      assert a.path == ["enabled"] <==> |a.path| == 1;
    }
  }

  /** An agent's setting is its own: no other agent reads it. */
  lemma {:induction false} AgentSettingsAreOwn(rows: Rows, agent: string, other: string, a: Address, value: Value, b: Address,
                                               unseen: bool)
    requires agent != other && a.agentScope && b.agentScope && Written(rows, agent, a, value, unseen).Some?
    ensures Read(Written(rows, agent, a, value, unseen).value, other, b) == Read(rows, other, b)
  {}

  /** Nor does it touch what all agents share, and the other way round. */
  lemma {:induction false} ScopesAreApart(rows: Rows, agent: string, other: string, j: string, value: Value, k: string,
                                          unseen: bool)
    requires SettingAddress(j).Some? && SettingAddress(k).Some? && (IsAgentKey(j) <==> !IsAgentKey(k))
    requires Written(rows, agent, SettingAddress(j).value, value, unseen).Some?
    ensures Read(Written(rows, agent, SettingAddress(j).value, value, unseen).value, other, SettingAddress(k).value)
            == Read(rows, other, SettingAddress(k).value)
  {
    AcceptedIff(j);
    AcceptedIff(k);
    ScopeOfNamespace(j);
    ScopeOfNamespace(k);
  }

  /** What one agent writes to a system setting every agent reads, with the exception of
      ReadAfterWrite. */
  lemma {:induction false} SystemIsShared(rows: Rows, agent: string, other: string, a: Address, value: Value, unseen: bool)
    requires !a.agentScope && Written(rows, agent, a, value, unseen).Some?
    ensures Read(Written(rows, agent, a, value, unseen).value, other, a) ==
            if !Clears(a, value) then value
            else if unseen then Read(rows, other, a)
            else Null
    ensures Read(rows, agent, a) == Read(rows, other, a)
  {
    ReadAfterWrite(rows, agent, a, value, unseen);
  }

  /** Settings that are kept apart do not interfere, but for the sandbox backend. */
  lemma {:induction false} SettingsDoNotInterfere(rows: Rows, agentId: string, a: Address, value: Value, b: Address, unseen: bool)
    requires Written(rows, agentId, a, value, unseen).Some? && Apart(a, b, agentId)
    requires !FillsIn(rows, agentId, a, value, b)
    ensures Read(Written(rows, agentId, a, value, unseen).value, agentId, b) == Read(rows, agentId, b)
  {
    var row := RowOf(a, agentId);
    if RowOf(b, agentId) == row {
      var data := RowData(rows, row);
      var d := SetNested(data, a.path, value);
      EditedIsNotEmpty(data, a, value);
      GetElsewhere(data, a.path, value, b.path);
      if Edited(data, a, value) != d { BackendElsewhere(d, b.path); }
      assert row !in rows ==> Get(Obj(data), b.path) == Null;
    }
  }

  /** Enabling the sandbox without a backend name makes docker the backend. */
  lemma {:induction false} BackendDefault(rows: Rows, agentId: string, a: Address, value: Value, b: Address, unseen: bool)
    requires FillsIn(rows, agentId, a, value, b) && b.path == ["backend"]
    ensures Written(rows, agentId, a, value, unseen).Some?
    ensures Read(Written(rows, agentId, a, value, unseen).value, agentId, b) == Str("docker")
    ensures !(Read(rows, agentId, b).Str?)
  {
    var data := RowData(rows, RowOf(a, agentId));
    EditedIsNotEmpty(data, a, value);
    SetIsPlaced(data, a.path, value);
    assert ["backend"][1..] == [];
  }

  lemma {:induction false} DivergeOrPrefix(p: seq<string>, q: seq<string>)
    ensures Diverge(p, q) || p <= q || q <= p
  {
    if p != [] && q != [] && p[0] == q[0] {
      DivergeOrPrefix(p[1..], q[1..]);
      assert p == [p[0]] + p[1..] && q == [q[0]] + q[1..];
    }
  }

  /** Two different accepted keys are kept apart, or one of them lies strictly above the other. */
  lemma {:induction false} KeysApartOrNested(j: string, k: string, agentId: string)
    requires j != k && SettingAddress(j).Some? && SettingAddress(k).Some?
    ensures var a, b := SettingAddress(j).value, SettingAddress(k).value;
            Apart(a, b, agentId) || a.path < b.path || b.path < a.path
  {
    var a, b := SettingAddress(j).value, SettingAddress(k).value;
    KeyOfAddress(j);
    KeyOfAddress(k);
    ScopeOfNamespace(j);
    ScopeOfNamespace(k);
    DivergeOrPrefix(a.path, b.path);
    assert KeyOf(a) != KeyOf(b);
    assert a.path != b.path || a.namespace != b.namespace || a.agentScope != b.agentScope;
  }
}
