/** The persisted application record: `ConfigBuilder` turns an installed application's
    identity, paths, desktop entry and permission masks into a nine-key JSON object, and
    `Config.from_config` reads such an object back. Reading and writing the file, and the
    JSON text itself, are left to the caller: the record is a map from keys to JSON values. */
module Configuration {
  import opened Wrappers
  import opened Masks
  import opened Desktop

  /** A JSON value as `json.load` produces it. */
  datatype Json =
    | JNull
    | JBool(b: bool)
    | JInt(i: int)
    | JStr(s: string)
    | JArray(items: seq<Json>)
    | JObject(fields: map<string, Json>)

  /** The keys of the record, in the order `from_config` reads them. */
  const CONFIG_KEYS: seq<string> := ["app", "path", "icon", "executable", "entry", "permissions",
    "seccomp_filter", "dbus_app", "dbus_permissions"]

  /** How an optional string is stored in JSON: None becomes null. */
  function OptJson(v: Option<string>): (j: Json)
    ensures v.None? <==> j == JNull
    ensures v.Some? ==> j == JStr(v.value)
  {
    if v.Some? then JStr(v.value) else JNull
  }

  /** Distinct optional strings are stored as distinct JSON values, so a stored `null` reads
      back as None and a stored string as that string. */
  lemma OptJsonInjective(a: Option<string>, b: Option<string>)
    ensures OptJson(a) == OptJson(b) ==> a == b
  {
  }

  /** A loaded application record. The constructor stores every argument as given. */
  datatype Config = Config(
    app: Json,
    path: Json,
    icon: Json,
    executable: Json,
    entry: Json,
    permissions: Permissions,
    seccompFilter: Json,
    dbusApp: Json,
    dbusPermissions: Option<DBusPermissions>)

  /** Why reading a record fails: the loaded value cannot be indexed by a key, a key is
      missing, or a mask's `from_dict` rejected its value. */
  datatype ConfigError = NotAnObject | MissingKey(key: string) | BadMask(key: string)

  /** The first of `keys` that `m` lacks. */
  function FirstMissing(keys: seq<string>, m: map<string, Json>): (r: Option<string>)
    ensures r.Some? ==> r.value in keys && r.value !in m
    ensures r.None? <==> forall k :: k in keys ==> k in m
  {
    if keys == [] then None
    else if keys[0] !in m then Some(keys[0])
    else FirstMissing(keys[1..], m)
  }

  /** `Config.from_config` on the loaded value `doc`: every key is indexed directly, in
      argument order, and the two masks go through their `from_dict` (here `perms` and
      `dbus`, None standing for an exception raised there). */
  function FromConfig(doc: Json, perms: Json -> Option<Permissions>, dbus: Json -> Option<DBusPermissions>)
    : (r: Result<Config, ConfigError>)
    ensures r.Ok? ==> doc.JObject?
    ensures r.Err? && r.error.BadMask? ==> doc.JObject? && r.error.key in {"permissions", "dbus_permissions"}
  {
    if !doc.JObject? then Err(NotAnObject)
    else
      var m := doc.fields;
      if "app" !in m then Err(MissingKey("app"))
      else if "path" !in m then Err(MissingKey("path"))
      else if "icon" !in m then Err(MissingKey("icon"))
      else if "executable" !in m then Err(MissingKey("executable"))
      else if "entry" !in m then Err(MissingKey("entry"))
      else if "permissions" !in m then Err(MissingKey("permissions"))
      else if perms(m["permissions"]).None? then Err(BadMask("permissions"))
      else if "seccomp_filter" !in m then Err(MissingKey("seccomp_filter"))
      else if "dbus_app" !in m then Err(MissingKey("dbus_app"))
      else if "dbus_permissions" !in m then Err(MissingKey("dbus_permissions"))
      else if dbus(m["dbus_permissions"]).None? then Err(BadMask("dbus_permissions"))
      else
        Ok(Config(m["app"], m["path"], m["icon"], m["executable"], m["entry"],
                  perms(m["permissions"]).value, m["seccomp_filter"], m["dbus_app"],
                  dbus(m["dbus_permissions"])))
  }

  /** Loading succeeds exactly when the value is an object holding all nine keys, the
      nullable ones included, and both `from_dict` calls succeed; nothing is defaulted. The
      loaded record then holds the stored values unchanged. */
  lemma LoadSucceedsIff(doc: Json, perms: Json -> Option<Permissions>, dbus: Json -> Option<DBusPermissions>)
    ensures var r := FromConfig(doc, perms, dbus);
      r.Ok? <==> doc.JObject? && (forall k :: k in CONFIG_KEYS ==> k in doc.fields)
                 && perms(doc.fields["permissions"]).Some?
                 && dbus(doc.fields["dbus_permissions"]).Some?
    ensures var r := FromConfig(doc, perms, dbus);
      r.Ok? ==>
        var m := doc.fields;
        r.value == Config(m["app"], m["path"], m["icon"], m["executable"], m["entry"],
                          perms(m["permissions"]).value, m["seccomp_filter"], m["dbus_app"],
                          dbus(m["dbus_permissions"]))
  {
    if doc.JObject? && FirstMissing(CONFIG_KEYS, doc.fields).Some? {
      var k := FirstMissing(CONFIG_KEYS, doc.fields).value;
      assert k in CONFIG_KEYS && k !in doc.fields;
    }
  }

  /** Position `n` holds the first key of `keys` that `m` lacks. */
  lemma {:induction false} FirstMissingAt(keys: seq<string>, m: map<string, Json>, n: nat)
    requires n < |keys| && keys[n] !in m
    requires forall j :: 0 <= j < n ==> keys[j] in m
    ensures FirstMissing(keys, m) == Some(keys[n])
  {
    if n > 0 {
      FirstMissingAt(keys[1..], m, n - 1);
    }
  }

  /** A missing key is reported as the first missing one in argument order. */
  lemma LoadReportsFirstMissing(doc: Json, perms: Json -> Option<Permissions>, dbus: Json -> Option<DBusPermissions>)
    ensures var r := FromConfig(doc, perms, dbus);
      r.Err? && r.error.MissingKey? ==> doc.JObject? && FirstMissing(CONFIG_KEYS, doc.fields) == Some(r.error.key)
  {
    if doc.JObject? {
      var m := doc.fields;
      var n :=
        if "app" !in m then 0
        else if "path" !in m then 1
        else if "icon" !in m then 2
        else if "executable" !in m then 3
        else if "entry" !in m then 4
        else if "permissions" !in m then 5
        else if perms(m["permissions"]).None? then 9
        else if "seccomp_filter" !in m then 6
        else if "dbus_app" !in m then 7
        else if "dbus_permissions" !in m then 8
        else 9;
      if n < 9 {
        FirstMissingAt(CONFIG_KEYS, m, n);
      }
    }
  }

  /** The builder's state. The D-Bus mask is never None here: the constructor substitutes
      the empty mask. */
  datatype ConfigBuilder = ConfigBuilder(
    app: string,
    executable: string,
    path: string,
    entry: DesktopEntry,
    permissions: Permissions,
    seccompFilter: Option<string>,
    dbusApp: Option<string>,
    dbusPermissions: DBusPermissions)

  /** `ConfigBuilder.__init__`: the arguments are kept; a missing D-Bus mask becomes
      `DBusPermissions(0)`. */
  function NewConfigBuilder(app: string, executable: string, path: string, entry: DesktopEntry,
                            permissions: Permissions, seccompFilter: Option<string>,
                            dbusApp: Option<string>, dbusPermissions: Option<DBusPermissions>)
    : (b: ConfigBuilder)
    ensures dbusPermissions.None? ==> b.dbusPermissions == DBusPermissions(0)
    ensures dbusPermissions.Some? ==> b.dbusPermissions == dbusPermissions.value
    ensures b.app == app && b.executable == executable && b.path == path && b.entry == entry
    ensures b.permissions == permissions && b.seccompFilter == seccompFilter && b.dbusApp == dbusApp
  {
    ConfigBuilder(app, executable, path, entry, permissions, seccompFilter, dbusApp,
                  if dbusPermissions.Some? then dbusPermissions.value else DBusPermissions(0))
  }

  /** The object `ConfigBuilder.build` writes. Icon and entry come from the desktop entry,
      and both masks are written as their integers. */
  function Build(b: ConfigBuilder): (r: map<string, Json>)
    reads b.entry
  {
    map[
      "app" := JStr(b.app),
      "path" := JStr(b.path),
      "icon" := OptJson(b.entry.icon),
      "executable" := JStr(b.executable),
      "entry" := JStr(b.entry.entry),
      "permissions" := JInt(b.permissions.permissions),
      "seccomp_filter" := OptJson(b.seccompFilter),
      "dbus_app" := OptJson(b.dbusApp),
      "dbus_permissions" := JInt(b.dbusPermissions.permissions)]
  }

  /** The built record has exactly the nine keys, and both masks are integers; the D-Bus
      one is 0 when the builder was given none. */
  lemma BuildShape(app: string, executable: string, path: string, entry: DesktopEntry,
                   permissions: Permissions, seccompFilter: Option<string>,
                   dbusApp: Option<string>, dbusPermissions: Option<DBusPermissions>)
    ensures var r := Build(NewConfigBuilder(app, executable, path, entry, permissions, seccompFilter,
                                            dbusApp, dbusPermissions));
      && r.Keys == set k | k in CONFIG_KEYS
      && r["permissions"] == JInt(permissions.permissions)
      && r["dbus_permissions"] == JInt(if dbusPermissions.Some? then dbusPermissions.value.permissions else 0)
      && r["icon"] == OptJson(entry.icon)
      && r["entry"] == JStr(entry.entry)
  {
  }

  /** Reading back what `build` wrote gives the builder's app, path, executable, filter and
      D-Bus name, the entry's icon and entry name, and the masks as `from_dict` makes them
      from the written integers. */
  lemma BuildThenLoad(b: ConfigBuilder, perms: Json -> Option<Permissions>, dbus: Json -> Option<DBusPermissions>)
    requires perms(JInt(b.permissions.permissions)).Some?
    requires dbus(JInt(b.dbusPermissions.permissions)).Some?
    ensures FromConfig(JObject(Build(b)), perms, dbus)
         == Ok(Config(JStr(b.app), JStr(b.path), OptJson(b.entry.icon), JStr(b.executable),
                      JStr(b.entry.entry), perms(JInt(b.permissions.permissions)).value,
                      OptJson(b.seccompFilter), OptJson(b.dbusApp),
                      dbus(JInt(b.dbusPermissions.permissions))))
  {
    var m := Build(b);
    assert forall k :: k in CONFIG_KEYS ==> k in m;
  }

  /** With `from_dict` functions that rebuild a mask from its integer, the masks survive
      the round trip exactly. */
  lemma MasksRoundTrip(b: ConfigBuilder, perms: Json -> Option<Permissions>, dbus: Json -> Option<DBusPermissions>)
    requires forall n: nat :: perms(JInt(n)) == Some(Permissions(n))
    requires forall n: nat :: dbus(JInt(n)) == Some(DBusPermissions(n))
    ensures FromConfig(JObject(Build(b)), perms, dbus).Ok?
    ensures FromConfig(JObject(Build(b)), perms, dbus).value.permissions == b.permissions
    ensures FromConfig(JObject(Build(b)), perms, dbus).value.dbusPermissions == Some(b.dbusPermissions)
  {
    BuildThenLoad(b, perms, dbus);
  }
}
