/** What migrations mean: where the migrated document differs, when they succeed,
    that upgrades may stop at any version on the way, and that the documented
    rollback undoes them. */
module MigrationTheorems {
  import opened Wrappers
  import opened Migration

  // ---- Frame ----

  function NewValue(from: nat): Yaml {
    if from == 1 then BIND_RETRY else if from == 2 then PENDING_REQUESTS else AUTODEVICE
  }

  function KeyLength(from: nat): nat {
    if from == 3 then 5 else 3
  }

  /** The migration from a version adds a value at the path: dns.server.bind_retry,
      dns.server.pending_requests, or dns.upstream.groups.*.autodevice. */
  predicate IsNewKey(from: nat, c: Fields, path: seq<string>) {
    if from == 1 then path == SERVER + ["bind_retry"]
    else if from == 2 then path == SERVER + ["pending_requests"]
    else |path| == 5 && path[..3] == GROUPS && path[4] == "autodevice" && Get(Obj(c), path[..4]).Some?
  }

  predicate InNewKey(from: nat, c: Fields, path: seq<string>) {
    |path| >= KeyLength(from) && IsNewKey(from, c, path[..KeyLength(from)])
  }

  /** Whatever the version field holds is not an object. */
  predicate ScalarVersion(c: Fields) {
    VERSION_KEY in c && !c[VERSION_KEY].Obj?
  }

  lemma VersionSetAlone(c: Fields, v: nat, path: seq<string>)
    requires ScalarVersion(c)
    ensures var y := Get(Obj(c[VERSION_KEY := Version(v)]), path);
      if path == [VERSION_KEY] then y == Some(Version(v)) else Shallow(y) == Shallow(Get(Obj(c), path))
  {
    if path != [] && path[0] == VERSION_KEY {
      assert path == [VERSION_KEY] <==> path[1..] == [];
    }
  }

  lemma SetAtKeepsVersion(c: Fields, keys: seq<string>, v: Yaml)
    requires keys != [] && keys[0] != VERSION_KEY
    ensures ScalarVersion(c) <==> ScalarVersion(SetAt(c, keys, v))
  {
  }

  lemma ServerStepMeaning(c: Fields, key: string, v: Yaml, target: nat, path: seq<string>)
    requires ScalarVersion(c) && IsObj(Get(Obj(c), SERVER))
    ensures var y := Get(Obj(SetAt(c, SERVER + [key], v)[VERSION_KEY := Version(target)]), path);
      if path == [VERSION_KEY] then y == Some(Version(target))
      else if |path| >= 3 && path[..3] == SERVER + [key] then Shallow(y) == Shallow(Get(v, path[3..]))
      else Shallow(y) == Shallow(Get(Obj(c), path))
  {
    var keys := SERVER + [key];
    assert keys[..|keys| - 1] == SERVER;
    SetAtMeaning(c, keys, v, path);
    SetAtKeepsVersion(c, keys, v);
    VersionSetAlone(SetAt(c, keys, v), target, path);
    assert keys <= path <==> |path| >= 3 && path[..3] == keys;
  }

  lemma GroupsStepMeaning(c: Fields, path: seq<string>)
    requires ScalarVersion(c) && GroupsLackAutodevice(c)
    ensures var y := Get(Obj(Step(3, c)), path);
      if path == [VERSION_KEY] then y == Some(Version(4))
      else if InNewKey(3, c, path) then Shallow(y) == Shallow(Get(AUTODEVICE, path[5..]))
      else Shallow(y) == Shallow(Get(Obj(c), path))
  {
    var groups := Get(Obj(c), GROUPS).value.fields;
    var d := SetAt(c, GROUPS, Obj(GroupsWithAutodevice(groups)));
    ParentOfGroups(c);
    SetAtMeaning(c, GROUPS, Obj(GroupsWithAutodevice(groups)), path);
    SetAtKeepsVersion(c, GROUPS, Obj(GroupsWithAutodevice(groups)));
    VersionSetAlone(d, 4, path);
    if GROUPS <= path {
      var rest := path[3..];
      assert path == GROUPS + rest;
      GetNext(Obj(c), GROUPS, rest);
      GroupsMeaning(groups, rest);
      if |path| >= 5 {
        assert path[..5][..4] == GROUPS + rest[..1];
        GetNext(Obj(c), GROUPS, rest[..1]);
        assert path[5..] == rest[2..];
      }
    }
  }

  lemma ParentOfGroups(c: Fields)
    requires IsObj(Get(Obj(c), GROUPS))
    ensures IsObj(Get(Obj(c), GROUPS[..|GROUPS| - 1]))
  {
    GetNext(Obj(c), GROUPS[..2], [GROUPS[2]]);
    assert GROUPS[..2] + [GROUPS[2]] == GROUPS;
  }

  lemma GroupsMeaning(groups: Fields, path: seq<string>)
    requires forall g :: g in groups ==> IsObjWithout(groups[g], "autodevice")
    ensures var y := Get(Obj(GroupsWithAutodevice(groups)), path);
      if |path| >= 2 && path[0] in groups && path[1] == "autodevice" then y == Get(AUTODEVICE, path[2..])
      else Shallow(y) == Shallow(Get(Obj(groups), path))
  {
    if path != [] && path[0] in groups {
      var g := groups[path[0]];
      assert GroupsWithAutodevice(groups)[path[0]] == Obj(g.fields["autodevice" := AUTODEVICE]);
      var rest := path[1..];
      if rest != [] {
        assert rest[1..] == path[2..];
      }
    }
  }

  /** A migration sets the version, adds the documented values at the new keys, and
      leaves every other value where it was. */
  lemma StepMeaning(from: nat, c: Fields, path: seq<string>)
    requires 1 <= from <= 3 && Accepts(from, c) && ScalarVersion(c)
    ensures ScalarVersion(Step(from, c))
    ensures var y := Get(Obj(Step(from, c)), path);
      if path == [VERSION_KEY] then y == Some(Version(from + 1))
      else if InNewKey(from, c, path) then Shallow(y) == Shallow(Get(NewValue(from), path[KeyLength(from)..]))
      else Shallow(y) == Shallow(Get(Obj(c), path))
  {
    if from == 1 {
      ServerStepMeaning(c, "bind_retry", BIND_RETRY, 2, path);
    } else if from == 2 {
      ServerStepMeaning(c, "pending_requests", PENDING_REQUESTS, 3, path);
    } else {
      GroupsStepMeaning(c, path);
    }
  }

  /** The migrations add values at different places. */
  lemma NewKeysAreApart(from: nat, c: Fields, s: nat, d: Fields, path: seq<string>)
    requires 1 <= from < s <= 3 && InNewKey(from, c, path)
    ensures !InNewKey(s, d, path)
  {
    assert path[..3][2] == path[2];
    if s == 3 && |path| >= 5 {
      assert path[..5][..3] == path[..3] && path[..3][1] != GROUPS[1];
    } else if s == 2 {
      assert path[..3][2] != "pending_requests";
    }
  }

  /** The places of a later migration are the same before an earlier one. */
  lemma NewKeysKept(from: nat, c: Fields, s: nat, path: seq<string>)
    requires 1 <= from < s <= 3 && Accepts(from, c) && ScalarVersion(c)
    ensures InNewKey(s, Step(from, c), path) <==> InNewKey(s, c, path)
  {
    if s == 3 && |path| >= 5 && path[..5][..3] == GROUPS {
      var group := path[..5][..4];
      assert group[1] == path[..5][..3][1] == GROUPS[1];
      StepMeaning(from, c, group);
      assert group[..3][1] == group[1];
    }
  }

  /** What an upgrade means at a path: the version is the target, each migration on
      the way has added its documented values, and nothing else has changed. */
  ghost predicate Upgraded(c: Fields, current: nat, target: nat, d: Fields, path: seq<string>) {
    var y := Get(Obj(d), path);
    && (path == [VERSION_KEY] && current < target ==> y == Some(Version(target)))
    && (forall s: nat :: 1 <= current <= s < target && InNewKey(s, c, path) ==>
          Shallow(y) == Shallow(Get(NewValue(s), path[KeyLength(s)..])))
    && ((path != [VERSION_KEY] || current >= target)
        && (forall s: nat :: current <= s < target ==> !InNewKey(s, c, path)) ==>
          Shallow(y) == Shallow(Get(Obj(c), path)))
  }

  lemma {:induction false} StepsMeaning(c: Fields, current: nat, target: nat, path: seq<string>)
    requires 1 <= current <= target <= LATEST && AcceptsAll(c, current, target) && ScalarVersion(c)
    ensures Upgraded(c, current, target, Steps(c, current, target), path)
    decreases target - current
  {
    if current < target {
      var d := Step(current, c);
      StepMeaning(current, c, path);
      StepsMeaning(d, current + 1, target, path);
      forall s: nat | current < s < target
        ensures InNewKey(s, d, path) <==> InNewKey(s, c, path)
        ensures InNewKey(current, c, path) ==> !InNewKey(s, d, path)
      {
        NewKeysKept(current, c, s, path);
        if InNewKey(current, c, path) {
          NewKeysAreApart(current, c, s, d, path);
        }
      }
    }
  }

  /** Documents with the same values at all paths are equal: the meaning above
      determines the migrated document. */
  lemma {:induction false} SameEverywhere(a: Yaml, b: Yaml)
    requires forall path :: Shallow(Get(a, path)) == Shallow(Get(b, path))
    ensures a == b
    decreases a
  {
    assert Shallow(Get(a, [])) == Shallow(Get(b, []));
    if a.Obj? {
      forall k
        ensures k in a.fields <==> k in b.fields
        ensures k in a.fields && k in b.fields ==> a.fields[k] == b.fields[k]
      {
        assert Shallow(Get(a, [k])) == Shallow(Get(b, [k]));
        if k in a.fields && k in b.fields {
          forall path
            ensures Shallow(Get(a.fields[k], path)) == Shallow(Get(b.fields[k], path))
          {
            assert Shallow(Get(a, [k] + path)) == Shallow(Get(b, [k] + path));
          }
          SameEverywhere(a.fields[k], b.fields[k]);
        }
      }
    }
  }

  /** The migrated document is the only one that the meaning fits. */
  lemma UpgradeIsDetermined(c: Fields, current: nat, target: nat, d: Fields)
    requires 1 <= current <= target <= LATEST && AcceptsAll(c, current, target) && ScalarVersion(c)
    ensures (forall path :: Upgraded(c, current, target, d, path)) <==> d == Steps(c, current, target)
  {
    var e := Steps(c, current, target);
    forall path
      ensures Upgraded(c, current, target, e, path)
    {
      StepsMeaning(c, current, target, path);
    }
    if forall path :: Upgraded(c, current, target, d, path) {
      forall path
        ensures Shallow(Get(Obj(d), path)) == Shallow(Get(Obj(e), path))
      {
        assert Upgraded(c, current, target, d, path) && Upgraded(c, current, target, e, path);
      }
      SameEverywhere(Obj(d), Obj(e));
    }
  }

  // ---- Success ----

  /** An upgrade succeeds exactly when the original document has the objects to
      extend and none of the new keys. */
  predicate Ready(c: Fields, current: nat, target: nat) {
    && (current <= 1 < target ==> Accepts(1, c))
    && (current <= 2 < target ==> Accepts(2, c))
    && (current <= 3 < target ==> Accepts(3, c))
  }

  lemma StepKeepsAccepts(from: nat, c: Fields, s: nat)
    requires 1 <= from < s <= 3 && Accepts(from, c) && ScalarVersion(c)
    ensures Accepts(s, Step(from, c)) <==> Accepts(s, c)
  {
    if s == 2 {
      StepMeaning(from, c, SERVER);
      StepMeaning(from, c, SERVER + ["pending_requests"]);
      assert (SERVER + ["pending_requests"])[..3][2] == "pending_requests";
    } else {
      GroupsUntouched(from, c);
    }
  }

  lemma {:induction false} SetAtElsewhere(c: Fields, keys: seq<string>, v: Yaml, path: seq<string>, i: nat)
    requires i < |keys| && i < |path| && keys[..i] == path[..i] && keys[i] != path[i]
    ensures Get(Obj(SetAt(c, keys, v)), path) == Get(Obj(c), path)
    decreases i
  {
    if i > 0 && |keys| > 1 {
      assert keys[0] == keys[..i][0] == path[..i][0] == path[0];
      assert keys[1..][..i - 1] == keys[..i][1..] == path[..i][1..] == path[1..][..i - 1];
      if path[0] in c && c[path[0]].Obj? {
        SetAtElsewhere(c[path[0]].fields, keys[1..], v, path[1..], i - 1);
      }
    }
  }

  lemma GroupsUntouched(from: nat, c: Fields)
    requires 1 <= from <= 2
    ensures Get(Obj(Step(from, c)), GROUPS) == Get(Obj(c), GROUPS)
  {
    var key := if from == 1 then "bind_retry" else "pending_requests";
    assert (SERVER + [key])[..1] == GROUPS[..1];
    SetAtElsewhere(c, SERVER + [key], NewValue(from), GROUPS, 1);
  }

  lemma {:induction false} MigratesIffReady(c: Fields, current: nat, target: nat)
    requires 1 <= current <= target <= LATEST && ScalarVersion(c)
    ensures AcceptsAll(c, current, target) <==> Ready(c, current, target)
    decreases target - current
  {
    if current < target && Accepts(current, c) {
      StepMeaning(current, c, []);
      MigratesIffReady(Step(current, c), current + 1, target);
      forall s | current < s <= 3
        ensures Accepts(s, Step(current, c)) <==> Accepts(s, c)
      {
        StepKeepsAccepts(current, c, s);
      }
    }
  }

  // ---- Writing and reading again ----

  /** What an encoded value is read back as: the typed values become plain ones. */
  function Reread(y: Yaml): Yaml {
    match y
    case Version(v) => Int(v)
    case Duration(form) => Str(form)
    case Obj(m) => Obj(map k | k in m :: Reread(m[k]))
    case _ => y
  }

  function RereadDoc(c: Fields): Fields {
    Reread(Obj(c)).fields
  }

  lemma {:induction false} RereadTwice(y: Yaml)
    ensures Reread(Reread(y)) == Reread(y)
    decreases y
  {
    if y.Obj? {
      forall k | k in y.fields
        ensures Reread(Reread(y.fields[k])) == Reread(y.fields[k])
      {
        RereadTwice(y.fields[k]);
      }
    }
  }

  lemma {:induction false} GetReread(y: Yaml, path: seq<string>)
    ensures Get(Reread(y), path) == match Get(y, path) case None => None case Some(z) => Some(Reread(z))
  {
    if path != [] && y.Obj? && path[0] in y.fields {
      GetReread(y.fields[path[0]], path[1..]);
    }
  }

  lemma RereadUpdate(c: Fields, key: string, v: Yaml)
    ensures RereadDoc(c[key := v]) == RereadDoc(c)[key := Reread(v)]
  {
  }

  lemma {:induction false} RereadSetAt(c: Fields, path: seq<string>, v: Yaml)
    ensures RereadDoc(SetAt(c, path, v)) == SetAt(RereadDoc(c), path, Reread(v))
    decreases |path|
  {
    if |path| == 1 {
      RereadUpdate(c, path[0], v);
    } else if path != [] && path[0] in c && c[path[0]].Obj? {
      assert c[path[0]] == Obj(c[path[0]].fields);
      assert RereadDoc(c)[path[0]] == Obj(RereadDoc(c[path[0]].fields));
      RereadSetAt(c[path[0]].fields, path[1..], v);
      RereadUpdate(c, path[0], Obj(SetAt(c[path[0]].fields, path[1..], v)));
    } else if path != [] && path[0] in c {
      assert RereadDoc(c)[path[0]] == Reread(c[path[0]]);
    }
  }

  lemma RereadGroups(groups: Fields)
    ensures RereadDoc(GroupsWithAutodevice(groups)) == GroupsWithAutodevice(RereadDoc(groups))
  {
    assert Reread(AUTODEVICE) == AUTODEVICE by {
      assert Reread(Bool(false)) == Bool(false);
    }
    forall g | g in groups
      ensures Reread(WithField(groups[g], "autodevice", AUTODEVICE))
           == WithField(Reread(groups[g]), "autodevice", AUTODEVICE)
    {
    }
  }

  lemma AcceptsReread(from: nat, c: Fields)
    requires 1 <= from <= 3
    ensures Accepts(from, RereadDoc(c)) <==> Accepts(from, c)
  {
    if from <= 2 {
      var key := if from == 1 then "bind_retry" else "pending_requests";
      GetReread(Obj(c), SERVER);
      GetReread(Obj(c), SERVER + [key]);
    } else {
      GetReread(Obj(c), GROUPS);
      if IsObj(Get(Obj(c), GROUPS)) {
        var groups := Get(Obj(c), GROUPS).value.fields;
        assert RereadDoc(groups).Keys == groups.Keys;
        forall g | g in groups
          ensures IsObjWithout(RereadDoc(groups)[g], "autodevice") <==> IsObjWithout(groups[g], "autodevice")
        {
        }
      }
    }
  }

  lemma SetAndRelease(c: Fields, path: seq<string>, v: Yaml, w: Yaml, n: nat)
    requires Reread(v) == Reread(w)
    ensures RereadDoc(SetAt(RereadDoc(c), path, v)[VERSION_KEY := Version(n)])
         == RereadDoc(SetAt(c, path, w)[VERSION_KEY := Version(n)])
  {
    RereadTwice(Obj(c));
    RereadSetAt(c, path, w);
    RereadSetAt(RereadDoc(c), path, v);
    RereadUpdate(SetAt(RereadDoc(c), path, v), VERSION_KEY, Version(n));
    RereadUpdate(SetAt(c, path, w), VERSION_KEY, Version(n));
  }

  /** A migration of what was read back is, read back, the migration. */
  lemma StepReread(from: nat, c: Fields)
    requires 1 <= from <= 3
    ensures RereadDoc(Step(from, RereadDoc(c))) == RereadDoc(Step(from, c))
  {
    if from == 1 {
      SetAndRelease(c, SERVER + ["bind_retry"], BIND_RETRY, BIND_RETRY, 2);
    } else if from == 2 {
      SetAndRelease(c, SERVER + ["pending_requests"], PENDING_REQUESTS, PENDING_REQUESTS, 3);
    } else {
      GroupsReread(c);
    }
  }

  lemma GroupsReread(c: Fields)
    ensures RereadDoc(Step(3, RereadDoc(c))) == RereadDoc(Step(3, c))
  {
    GetReread(Obj(c), GROUPS);
    if IsObj(Get(Obj(c), GROUPS)) {
      var groups := Get(Obj(c), GROUPS).value.fields;
      RereadGroups(groups);
      RereadGroups(RereadDoc(groups));
      RereadTwice(Obj(groups));
      SetAndRelease(c, GROUPS, Obj(GroupsWithAutodevice(RereadDoc(groups))), Obj(GroupsWithAutodevice(groups)), 4);
    } else {
      RereadTwice(Obj(c));
    }
  }

  lemma {:induction false} StepsReread(c: Fields, current: nat, target: nat)
    requires 1 <= current <= target <= LATEST
    ensures AcceptsAll(RereadDoc(c), current, target) <==> AcceptsAll(c, current, target)
    ensures RereadDoc(Steps(RereadDoc(c), current, target)) == RereadDoc(Steps(c, current, target))
    decreases target - current
  {
    if current == target {
      RereadTwice(Obj(c));
    } else {
      var d, e := Step(current, c), Step(current, RereadDoc(c));
      AcceptsReread(current, c);
      StepReread(current, c);
      StepsReread(d, current + 1, target);
      StepsReread(e, current + 1, target);
      StepsFirst(c, current, target);
      StepsFirst(RereadDoc(c), current, target);
    }
  }

  lemma StepsFirst(c: Fields, current: nat, target: nat)
    requires current < target
    ensures Steps(c, current, target) == Steps(Step(current, c), current + 1, target)
    ensures AcceptsAll(c, current, target) <==> Accepts(current, c) && AcceptsAll(Step(current, c), current + 1, target)
  {
  }

  /** Upgrading in two releases, the file being written and read in between, gives
      what upgrading at once gives, and fails when that fails. */
  lemma UpgradePathsAgree(c: Fields, current: nat, middle: nat, target: nat)
    requires 1 <= current <= middle <= target <= LATEST
    ensures var halfway := RereadDoc(Steps(c, current, middle));
      && RereadDoc(Steps(halfway, middle, target)) == RereadDoc(Steps(c, current, target))
      && (AcceptsAll(c, current, target) <==>
            AcceptsAll(c, current, middle) && AcceptsAll(halfway, middle, target))
  {
    StepsCompose(c, current, middle, target);
    StepsReread(Steps(c, current, middle), middle, target);
  }

  /** The next start finds the target version. */
  lemma MigratedVersion(c: Fields, current: nat, target: nat)
    requires 1 <= current < target <= LATEST && AcceptsAll(c, current, target) && ScalarVersion(c)
    ensures GetVersion(RereadDoc(Steps(c, current, target))) == Success(target)
  {
    StepsMeaning(c, current, target, [VERSION_KEY]);
    GetReread(Obj(Steps(c, current, target)), [VERSION_KEY]);
    assert Upgraded(c, current, target, Steps(c, current, target), [VERSION_KEY]);
  }

  /** The values that an upgrade adds, as the changelog documents them and as the file
      has them afterwards. */
  ghost predicate HasDocumentedValues(current: nat, target: nat, c: Fields, d: Fields) {
    && (current < target ==> Get(Obj(d), ["schema_version"]) == Some(Int(target)))
    && (current <= 1 < target ==>
          && Get(Obj(d), ["dns", "server", "bind_retry", "enabled"]) == Some(Bool(true))
          && Get(Obj(d), ["dns", "server", "bind_retry", "interval"]) == Some(Str("1s"))
          && Get(Obj(d), ["dns", "server", "bind_retry", "count"]) == Some(Int(4)))
    && (current <= 2 < target ==> Get(Obj(d), ["dns", "server", "pending_requests", "enabled"]) == Some(Bool(true)))
    && (current <= 3 < target ==>
          forall g :: Get(Obj(c), ["dns", "upstream", "groups", g]).Some? ==>
            Get(Obj(d), ["dns", "upstream", "groups", g, "autodevice", "enabled"]) == Some(Bool(false)))
  }

  /** A scalar that one of the migrations adds is read back at its place. */
  lemma AddedAt(c: Fields, current: nat, target: nat, s: nat, path: seq<string>, key: string)
    requires 1 <= current <= s < target <= 4 && AcceptsAll(c, current, target) && ScalarVersion(c)
    requires |path| == KeyLength(s) && IsNewKey(s, c, path)
    requires key in NewValue(s).fields && !NewValue(s).fields[key].Obj?
    ensures Get(Obj(RereadDoc(Steps(c, current, target))), path + [key]) == Some(Reread(NewValue(s).fields[key]))
  {
    var p := path + [key];
    assert p[..KeyLength(s)] == path && p[KeyLength(s)..] == [key];
    assert Get(NewValue(s), [key]) == Some(NewValue(s).fields[key]);
    StepsMeaning(c, current, target, p);
    assert InNewKey(s, c, p);
    GetReread(Obj(Steps(c, current, target)), p);
  }

  lemma BindRetryAdded(c: Fields, current: nat, target: nat)
    requires current == 1 < target <= 4 && AcceptsAll(c, current, target) && ScalarVersion(c)
    ensures var d := Obj(RereadDoc(Steps(c, current, target)));
      && Get(d, ["dns", "server", "bind_retry", "enabled"]) == Some(Bool(true))
      && Get(d, ["dns", "server", "bind_retry", "interval"]) == Some(Str("1s"))
      && Get(d, ["dns", "server", "bind_retry", "count"]) == Some(Int(4))
  {
    var path := ["dns", "server", "bind_retry"];
    AddedAt(c, current, target, 1, path, "enabled");
    AddedAt(c, current, target, 1, path, "interval");
    AddedAt(c, current, target, 1, path, "count");
    assert path + ["enabled"] == ["dns", "server", "bind_retry", "enabled"];
    assert path + ["interval"] == ["dns", "server", "bind_retry", "interval"];
    assert path + ["count"] == ["dns", "server", "bind_retry", "count"];
  }

  lemma PendingRequestsAdded(c: Fields, current: nat, target: nat)
    requires 1 <= current <= 2 < target <= 4 && AcceptsAll(c, current, target) && ScalarVersion(c)
    ensures Get(Obj(RereadDoc(Steps(c, current, target))), ["dns", "server", "pending_requests", "enabled"])
         == Some(Bool(true))
  {
    var path := ["dns", "server", "pending_requests"];
    AddedAt(c, current, target, 2, path, "enabled");
    assert path + ["enabled"] == ["dns", "server", "pending_requests", "enabled"];
  }

  lemma AutodeviceAdded(c: Fields, current: nat, target: nat, g: string)
    requires 1 <= current <= 3 < target <= 4 && AcceptsAll(c, current, target) && ScalarVersion(c)
    requires Get(Obj(c), ["dns", "upstream", "groups", g]).Some?
    ensures Get(Obj(RereadDoc(Steps(c, current, target))), ["dns", "upstream", "groups", g, "autodevice", "enabled"])
         == Some(Bool(false))
  {
    var path := ["dns", "upstream", "groups", g, "autodevice"];
    assert path[..4] == ["dns", "upstream", "groups", g];
    AddedAt(c, current, target, 3, path, "enabled");
    assert path + ["enabled"] == ["dns", "upstream", "groups", g, "autodevice", "enabled"];
  }

  lemma DocumentedValues(c: Fields, current: nat, target: nat)
    requires 1 <= current <= target <= 4 && AcceptsAll(c, current, target)
    requires Get(Obj(c), ["schema_version"]) == Some(Int(current))
    ensures HasDocumentedValues(current, target, c, RereadDoc(Steps(c, current, target)))
  {
    GetVersionIff(c, current);
    if current < target {
      MigratedVersion(c, current, target);
      GetVersionIff(RereadDoc(Steps(c, current, target)), target);
    }
    if current <= 1 < target {
      BindRetryAdded(c, current, target);
    }
    if current <= 2 < target {
      PendingRequestsAdded(c, current, target);
    }
    forall g | current <= 3 < target && Get(Obj(c), ["dns", "upstream", "groups", g]).Some?
      ensures Get(Obj(RereadDoc(Steps(c, current, target))), ["dns", "upstream", "groups", g, "autodevice", "enabled"])
           == Some(Bool(false))
    {
      AutodeviceAdded(c, current, target, g);
    }
  }

  // ---- Rollback ----

  /** c without the value at a path. */
  function RemoveAt(c: Fields, path: seq<string>): Fields
    decreases |path|
  {
    if path == [] then c
    else if |path| == 1 then c - {path[0]}
    else if path[0] in c && c[path[0]].Obj? then c[path[0] := Obj(RemoveAt(c[path[0]].fields, path[1..]))]
    else c
  }

  function WithoutField(y: Yaml, key: string): Yaml {
    if y.Obj? then Obj(y.fields - {key}) else y
  }

  /** The documented way back to a version from the next one. */
  function RollbackStep(to: nat, c: Fields): Fields {
    if to == 1 then RemoveAt(c, SERVER + ["bind_retry"])[VERSION_KEY := Int(1)]
    else if to == 2 then RemoveAt(c, SERVER + ["pending_requests"])[VERSION_KEY := Int(2)]
    else if IsObj(Get(Obj(c), GROUPS)) then
      var groups := Get(Obj(c), GROUPS).value.fields;
      SetAt(c, GROUPS, Obj(map g | g in groups :: WithoutField(groups[g], "autodevice")))[VERSION_KEY := Int(3)]
    else c
  }

  function Rollback(c: Fields, to: nat, version: nat): Fields
    decreases version - to
  {
    if to >= version then c else RollbackStep(to, Rollback(c, to + 1, version))
  }

  lemma {:induction false} RemoveUndoesSet(c: Fields, path: seq<string>, v: Yaml)
    requires path != [] && IsObj(Get(Obj(c), path[..|path| - 1])) && Get(Obj(c), path).None?
    ensures RemoveAt(SetAt(c, path, v), path) == c
    decreases |path|
  {
    if |path| > 1 {
      assert path[..|path| - 1][1..] == path[1..][..|path| - 2];
      assert IsObj(Get(c[path[0]], path[1..][..|path| - 2])) && c[path[0]].Obj?;
      RemoveUndoesSet(c[path[0]].fields, path[1..], v);
    }
  }

  lemma {:induction false} SetAtTwice(c: Fields, path: seq<string>, v: Yaml, w: Yaml)
    ensures SetAt(SetAt(c, path, v), path, w) == SetAt(c, path, w)
    decreases |path|
  {
    if |path| > 1 && path[0] in c && c[path[0]].Obj? {
      SetAtTwice(c[path[0]].fields, path[1..], v, w);
    }
  }

  lemma {:induction false} SetAtSame(c: Fields, path: seq<string>)
    requires Get(Obj(c), path).Some?
    ensures path != [] ==> SetAt(c, path, Get(Obj(c), path).value) == c
    decreases |path|
  {
    if |path| > 1 {
      SetAtSame(c[path[0]].fields, path[1..]);
    }
  }

  /** Rolling back a migrated server section. */
  lemma ServerUndone(c: Fields, key: string, v: Yaml, from: nat)
    requires ServerLacks(c, key) && VERSION_KEY in c && Reread(c[VERSION_KEY]) == Int(from)
    ensures RemoveAt(RereadDoc(SetAt(c, SERVER + [key], v)[VERSION_KEY := Version(from + 1)]),
                     SERVER + [key])[VERSION_KEY := Int(from)] == RereadDoc(c)
  {
    var path := SERVER + [key];
    var d := SetAt(c, path, v);
    assert path[..|path| - 1] == SERVER;
    RereadUpdate(d, VERSION_KEY, Version(from + 1));
    RereadSetAt(c, path, v);
    GetReread(Obj(c), SERVER);
    GetReread(Obj(c), path);
    RemoveUndoesSet(RereadDoc(c), path, Reread(v));
    RemovePastVersion(RereadDoc(d), path, Int(from + 1), Int(from));
    assert RereadDoc(c)[VERSION_KEY] == Int(from);
  }

  lemma RemovePastVersion(c: Fields, path: seq<string>, v: Yaml, w: Yaml)
    requires |path| > 1 && path[0] != VERSION_KEY
    ensures RemoveAt(c[VERSION_KEY := v], path)[VERSION_KEY := w] == RemoveAt(c, path)[VERSION_KEY := w]
  {
  }

  lemma GroupsStepReread(c: Fields)
    requires IsObj(Get(Obj(c), GROUPS))
    ensures var groups := RereadDoc(Get(Obj(c), GROUPS).value.fields);
      RereadDoc(Step(3, c)) == SetAt(RereadDoc(c), GROUPS, Obj(GroupsWithAutodevice(groups)))[VERSION_KEY := Int(4)]
  {
    var groups := Get(Obj(c), GROUPS).value.fields;
    RereadUpdate(SetAt(c, GROUPS, Obj(GroupsWithAutodevice(groups))), VERSION_KEY, Version(4));
    RereadSetAt(c, GROUPS, Obj(GroupsWithAutodevice(groups)));
    RereadGroups(groups);
  }

  lemma GroupsUndone(c: Fields)
    requires GroupsLackAutodevice(c) && VERSION_KEY in c && Reread(c[VERSION_KEY]) == Int(3)
    ensures RollbackStep(3, RereadDoc(Step(3, c))) == RereadDoc(c)
  {
    var groups := Get(Obj(c), GROUPS).value.fields;
    var d, e := RereadDoc(c), RereadDoc(groups);
    GroupsStepReread(c);
    GetReread(Obj(c), GROUPS);
    assert Get(Obj(d), GROUPS) == Some(Obj(e));
    FieldsRemoved(groups);
    ResetGroups(d, GroupsWithAutodevice(e));
    assert d[VERSION_KEY] == Int(3);
  }

  /** Setting the groups back. */
  lemma ResetGroups(d: Fields, v: Fields)
    requires IsObj(Get(Obj(d), GROUPS))
    ensures var e := Get(Obj(d), GROUPS).value.fields;
      var u := SetAt(d, GROUPS, Obj(v))[VERSION_KEY := Int(4)];
      && Get(Obj(u), GROUPS) == Some(Obj(v))
      && SetAt(u, GROUPS, Obj(e))[VERSION_KEY := Int(3)] == d[VERSION_KEY := Int(3)]
  {
    var e := Get(Obj(d), GROUPS).value.fields;
    GetGroupsSet(d, v);
    SetAtTwice(d, GROUPS, Obj(v), Obj(e));
    SetAtSame(d, GROUPS);
    SetAtPastVersion(SetAt(d, GROUPS, Obj(v)), GROUPS, Obj(e), Int(4), Int(3));
  }

  lemma SetAtPastVersion(c: Fields, path: seq<string>, u: Yaml, v: Yaml, w: Yaml)
    requires |path| > 1 && path[0] != VERSION_KEY
    ensures SetAt(c[VERSION_KEY := v], path, u)[VERSION_KEY := w] == SetAt(c, path, u)[VERSION_KEY := w]
  {
  }

  lemma GetGroupsSet(d: Fields, v: Fields)
    requires IsObj(Get(Obj(d), GROUPS))
    ensures Get(Obj(SetAt(d, GROUPS, Obj(v))[VERSION_KEY := Int(4)]), GROUPS) == Some(Obj(v))
  {
    ParentOfGroups(d);
    SetAtMeaning(d, GROUPS, Obj(v), GROUPS);
    assert GROUPS[|GROUPS|..] == [];
  }

  lemma FieldsRemoved(groups: Fields)
    requires forall g :: g in groups ==> IsObjWithout(groups[g], "autodevice")
    ensures var v := GroupsWithAutodevice(RereadDoc(groups));
      (map g | g in v :: WithoutField(v[g], "autodevice")) == RereadDoc(groups)
  {
    var e := RereadDoc(groups);
    forall g | g in groups
      ensures WithoutField(GroupsWithAutodevice(e)[g], "autodevice") == e[g]
    {
      assert e[g] == Reread(groups[g]) && IsObjWithout(e[g], "autodevice");
      assert e[g].fields["autodevice" := AUTODEVICE] - {"autodevice"} == e[g].fields;
    }
  }

  lemma StepUndone(from: nat, c: Fields)
    requires 1 <= from <= 3 && Accepts(from, c) && VERSION_KEY in c && Reread(c[VERSION_KEY]) == Int(from)
    ensures RollbackStep(from, RereadDoc(Step(from, c))) == RereadDoc(c)
  {
    if from == 1 {
      ServerUndone(c, "bind_retry", BIND_RETRY, 1);
    } else if from == 2 {
      ServerUndone(c, "pending_requests", PENDING_REQUESTS, 2);
    } else {
      GroupsUndone(c);
    }
  }

  lemma {:induction false} RollbackUndoesAll(c: Fields, current: nat, target: nat)
    requires 1 <= current <= target <= LATEST && AcceptsAll(c, current, target)
    requires VERSION_KEY in c && Reread(c[VERSION_KEY]) == Int(current)
    ensures Rollback(RereadDoc(Steps(c, current, target)), current, target) == RereadDoc(c)
    decreases target - current
  {
    if current < target {
      var d := Step(current, c);
      StepUndone(current, c);
      assert d[VERSION_KEY] == Version(current + 1);
      RollbackUndoesAll(d, current + 1, target);
    }
  }

  /** The rollback of the changelog, from any version to any earlier one, gives back
      a document as it was read from its file. */
  lemma RollbackIsLeftInverse(c: Fields, current: nat, target: nat)
    requires 1 <= current <= target <= LATEST && AcceptsAll(c, current, target)
    requires RereadDoc(c) == c && GetVersion(c) == Success(current)
    ensures Rollback(RereadDoc(Steps(c, current, target)), current, target) == c
  {
    RollbackUndoesAll(c, current, target);
  }
}
