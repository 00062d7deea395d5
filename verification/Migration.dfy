/** Migration of a configuration document between schema versions. */
module Migration {
  import opened Wrappers

  /** A decoded document.  Version and Duration are typed values that only the
      migrations write; in a file they are a number and a text.  Other stands for
      lists, fractions and so on, which no migration looks into. */
  datatype Yaml =
    | Null
    | Bool(flag: bool)
    | Int(number: int)
    | Str(text: string)
    | Other(raw: string)
    | Version(version: nat)
    | Duration(form: string)
    | Obj(fields: Fields)

  type Fields = map<string, Yaml>

  datatype Error =
    | NoValue(path: seq<string>)
    | WrongType(path: seq<string>)
    | Unexpected(path: seq<string>)
    | BadGroups(groups: map<string, Error>)
    | OutOfRange(number: int)
    | Upgrading(from: nat, cause: Error)

  const VERSION_KEY := "schema_version"
  const SERVER := ["dns", "server"]
  const GROUPS := ["dns", "upstream", "groups"]
  const INITIAL := 1
  const LATEST := 4

  // ---- Fields ----

  /** fieldVal for objects. */
  function FieldObj(obj: Fields, key: string): Result<Fields, Error> {
    if key !in obj || obj[key].Null? then Failure(NoValue([key]))
    else if !obj[key].Obj? then Failure(WrongType([key]))
    else Success(obj[key].fields)
  }

  /** fieldVal for integers. */
  function FieldInt(obj: Fields, key: string): Result<int, Error> {
    if key !in obj || obj[key].Null? then Failure(NoValue([key]))
    else if !obj[key].Int? then Failure(WrongType([key]))
    else Success(obj[key].number)
  }

  function GetVersion(c: Fields): Result<nat, Error> {
    match FieldInt(c, VERSION_KEY)
    case Failure(e) => Failure(e)
    case Success(v) => if INITIAL <= v <= LATEST then Success(v) else Failure(OutOfRange(v))
  }

  /** A document has a version exactly if its version field is a number from 1 to 4. */
  lemma GetVersionIff(c: Fields, v: nat)
    ensures GetVersion(c) == Success(v) <==> Get(Obj(c), ["schema_version"]) == Some(Int(v)) && 1 <= v <= 4
    ensures GetVersion(c).Failure? ==>
              var y := Get(Obj(c), ["schema_version"]);
              GetVersion(c).error ==
              if y.None? || y.value.Null? then NoValue(["schema_version"])
              else if !y.value.Int? then WrongType(["schema_version"])
              else OutOfRange(y.value.number)
  {
    assert VERSION_KEY in c ==> Get(Obj(c), [VERSION_KEY]) == Get(c[VERSION_KEY], []);
  }

  /** The value at a path. */
  function Get(y: Yaml, path: seq<string>): Option<Yaml> {
    if path == [] then Some(y)
    else if y.Obj? && path[0] in y.fields then Get(y.fields[path[0]], path[1..])
    else None
  }

  predicate IsObj(y: Option<Yaml>) {
    y.Some? && y.value.Obj?
  }

  /** An object without what is in it. */
  function Shallow(y: Option<Yaml>): Option<Yaml> {
    if IsObj(y) then Some(Obj(map[])) else y
  }

  /** fieldChainVal for objects: the loop goes down key by key, and an error names
      the first key that has no object. */
  method FieldChainObj(obj0: Fields, keys: seq<string>) returns (r: Result<Fields, Error>)
    requires keys != []
    ensures r.Success? <==> IsObj(Get(Obj(obj0), keys))
    ensures r.Success? ==> Get(Obj(obj0), keys) == Some(Obj(r.value))
    ensures r.Failure? ==> exists i :: 0 < i <= |keys| && FailsAt(obj0, keys, i, r.error)
  {
    var obj := obj0;
    for i := 0 to |keys| - 1
      invariant Get(Obj(obj0), keys[..i]) == Some(Obj(obj))
    {
      GetNext(Obj(obj0), keys[..i], keys[i..]);
      assert keys[..i] + keys[i..] == keys;
      GetNext(Obj(obj0), keys[..i], [keys[i]]);
      assert keys[..i] + [keys[i]] == keys[..i + 1];
      var next := FieldObj(obj, keys[i]);
      if next.Failure? {
        assert FailsAt(obj0, keys, i + 1, AtPath(next.error, keys[..i + 1]));
        return Failure(AtPath(next.error, keys[..i + 1]));
      }
      obj := next.value;
    }
    var n := |keys| - 1;
    GetNext(Obj(obj0), keys[..n], [keys[n]]);
    assert keys[..n] + [keys[n]] == keys;
    r := FieldObj(obj, keys[n]);
    if r.Failure? {
      r := Failure(AtPath(r.error, keys));
      assert keys[..|keys|] == keys;
      assert FailsAt(obj0, keys, |keys|, r.error);
    }
  }

  /** The error of a single field, with the keys that led to it. */
  function AtPath(e: Error, path: seq<string>): Error {
    match e
    case NoValue(_) => NoValue(path)
    case WrongType(_) => WrongType(path)
    case other => other
  }

  /** The first i - 1 keys lead to an object, whose field keys[i - 1] is not one. */
  ghost predicate FailsAt(obj: Fields, keys: seq<string>, i: nat, e: Error)
    requires 0 < i <= |keys|
  {
    && IsObj(Get(Obj(obj), keys[..i - 1]))
    && var y := Get(Obj(obj), keys[..i]);
       && !IsObj(y)
       && e == if y.None? || y.value.Null? then NoValue(keys[..i]) else WrongType(keys[..i])
  }

  lemma {:induction false} GetNext(y: Yaml, p: seq<string>, q: seq<string>)
    ensures Get(y, p + q) == match Get(y, p) case None => None case Some(z) => Get(z, q)
  {
    if p == [] {
      assert p + q == q;
    } else if y.Obj? && p[0] in y.fields {
      GetNext(y.fields[p[0]], p[1..], q);
      assert (p + q)[1..] == p[1..] + q;
    }
  }

  /** c with the value at a path replaced, if the path leads through objects. */
  function SetAt(c: Fields, path: seq<string>, v: Yaml): Fields
    decreases |path|
  {
    if path == [] then c
    else if |path| == 1 then c[path[0] := v]
    else if path[0] in c && c[path[0]].Obj? then c[path[0] := Obj(SetAt(c[path[0]].fields, path[1..], v))]
    else c
  }

  lemma {:induction false} SetAtMeaning(c: Fields, keys: seq<string>, v: Yaml, path: seq<string>)
    requires keys != [] && IsObj(Get(Obj(c), keys[..|keys| - 1]))
    ensures var y := Get(Obj(SetAt(c, keys, v)), path);
      if keys <= path then y == Get(v, path[|keys|..]) else Shallow(y) == Shallow(Get(Obj(c), path))
    decreases |keys|
  {
    if path == [] {
    } else if |keys| == 1 {
      assert keys <= path <==> keys[0] == path[0];
      assert keys <= path ==> path[|keys|..] == path[1..];
    } else {
      assert keys[..|keys| - 1][1..] == keys[1..][..|keys| - 2];
      assert IsObj(Get(c[keys[0]], keys[1..][..|keys| - 2])) && c[keys[0]].Obj?;
      SetAtMeaning(c[keys[0]].fields, keys[1..], v, path[1..]);
      assert keys <= path <==> keys[0] == path[0] && keys[1..] <= path[1..];
      assert keys <= path ==> path[1..][|keys| - 1..] == path[|keys|..];
    }
  }

  // ---- The migrations ----

  const BIND_RETRY := Obj(map["enabled" := Bool(true), "interval" := Duration("1s"), "count" := Int(4)])
  const PENDING_REQUESTS := Obj(map["enabled" := Bool(true)])
  const AUTODEVICE := Obj(map["enabled" := Bool(false)])

  /** The server object exists and has no such key. */
  predicate ServerLacks(c: Fields, key: string) {
    IsObj(Get(Obj(c), SERVER)) && Get(Obj(c), SERVER + [key]).None?
  }

  predicate IsObjWithout(y: Yaml, key: string) {
    y.Obj? && key !in y.fields
  }

  predicate GroupsLackAutodevice(c: Fields) {
    && IsObj(Get(Obj(c), GROUPS))
    && var groups := Get(Obj(c), GROUPS).value.fields;
       forall g :: g in groups ==> IsObjWithout(groups[g], "autodevice")
  }

  /** What the migration from a version asks of the document. */
  predicate Accepts(from: nat, c: Fields) {
    if from == 1 then ServerLacks(c, "bind_retry")
    else if from == 2 then ServerLacks(c, "pending_requests")
    else GroupsLackAutodevice(c)
  }

  function WithField(y: Yaml, key: string, v: Yaml): Yaml {
    if IsObjWithout(y, key) then Obj(y.fields[key := v]) else y
  }

  /** The groups, each except some with the field that it lacked. */
  function WithFields(groups: Fields, except: set<string>, key: string, v: Yaml): Fields {
    map g | g in groups :: if g in except then groups[g] else WithField(groups[g], key, v)
  }

  lemma WithOneMore(groups: Fields, except: set<string>, key: string, v: Yaml, g: string)
    requires g in groups && g in except
    ensures var some := WithFields(groups, except, key, v);
      some[g] == groups[g] && WithFields(groups, except - {g}, key, v) == some[g := WithField(groups[g], key, v)]
  {
  }

  function GroupsWithAutodevice(groups: Fields): Fields {
    WithFields(groups, {}, "autodevice", AUTODEVICE)
  }

  /** The document after the migration from a version, if accepted. */
  function Step(from: nat, c: Fields): Fields {
    if from == 1 then SetAt(c, SERVER + ["bind_retry"], BIND_RETRY)[VERSION_KEY := Version(2)]
    else if from == 2 then SetAt(c, SERVER + ["pending_requests"], PENDING_REQUESTS)[VERSION_KEY := Version(3)]
    else if IsObj(Get(Obj(c), GROUPS)) then
      SetAt(c, GROUPS, Obj(GroupsWithAutodevice(Get(Obj(c), GROUPS).value.fields)))[VERSION_KEY := Version(4)]
    else c
  }

  // ---- Refusals ----

  /** No object at the path: the error names the first key that has none. */
  ghost predicate FailsOnPath(c: Fields, path: seq<string>, e: Error) {
    exists i :: 0 < i <= |path| && FailsAt(c, path, i, e)
  }

  function FieldError(groups: Fields, g: string, key: string): Error {
    match FieldObj(groups, g)
    case Failure(e) => e
    case Success(_) => Unexpected([key])
  }

  function FieldErrors(groups: Fields, key: string): map<string, Error> {
    map g | g in groups && !IsObjWithout(groups[g], key) :: FieldError(groups, g, key)
  }

  lemma NoFieldErrorsIff(groups: Fields, key: string)
    ensures FieldErrors(groups, key) == map[] <==> forall g :: g in groups ==> IsObjWithout(groups[g], key)
  {
    if FieldErrors(groups, key) == map[] {
      forall g | g in groups
        ensures IsObjWithout(groups[g], key)
      {
        assert g !in FieldErrors(groups, key);
      }
    }
  }

  /** The error of the migration from a version, when not accepted: of migrateTo4 it
      lists exactly the groups that have to be mended. */
  ghost predicate Refuses(from: nat, c: Fields, e: Error) {
    if from <= 2 then
      if IsObj(Get(Obj(c), SERVER)) then e == Unexpected([if from == 1 then "bind_retry" else "pending_requests"])
      else FailsOnPath(c, SERVER, e)
    else if IsObj(Get(Obj(c), GROUPS)) then
      e == BadGroups(FieldErrors(Get(Obj(c), GROUPS).value.fields, "autodevice"))
    else FailsOnPath(c, GROUPS, e)
  }

  /** The document that the refused migration leaves: migrateTo4 has edited the
      acceptable groups, but not the version. */
  function LeftBehind(from: nat, c: Fields): Fields {
    if from == 3 && IsObj(Get(Obj(c), GROUPS)) then
      SetAt(c, GROUPS, Obj(GroupsWithAutodevice(Get(Obj(c), GROUPS).value.fields)))
    else c
  }

  // ---- Chains ----

  function Steps(c: Fields, current: nat, target: nat): Fields
    decreases target - current
  {
    if current >= target then c else Steps(Step(current, c), current + 1, target)
  }

  predicate AcceptsAll(c: Fields, current: nat, target: nat)
    decreases target - current
  {
    current >= target || (Accepts(current, c) && AcceptsAll(Step(current, c), current + 1, target))
  }

  /** An upgrade is the composition of its halves at any version. */
  lemma {:induction false} StepsCompose(c: Fields, current: nat, middle: nat, target: nat)
    requires current <= middle <= target
    ensures Steps(c, current, target) == Steps(Steps(c, current, middle), middle, target)
    ensures AcceptsAll(c, current, target) <==>
      AcceptsAll(c, current, middle) && AcceptsAll(Steps(c, current, middle), middle, target)
    decreases middle - current
  {
    if current < middle {
      StepsCompose(Step(current, c), current + 1, middle, target);
    }
  }

  /** The upgrade of c was refused at version e.from, after the migrations before it. */
  ghost predicate RefusedAt(c: Fields, current: nat, target: nat, e: Error, left: Fields)
    requires e.Upgrading?
  {
    var last := Steps(c, current, e.from);
    && current <= e.from < target
    && AcceptsAll(c, current, e.from) && !Accepts(e.from, last)
    && Refuses(e.from, last, e.cause) && left == LeftBehind(e.from, last)
  }

  /** The document under migration.  The nested objects are changed in place. */
  class Document {
    var root: Fields

    constructor (root: Fields)
      ensures this.root == root
    {
      this.root := root;
    }

    /** migrateTo2 and migrateTo3 differ in what they add. */
    method AddToServer(key: string, value: Yaml, target: nat) returns (err: Option<Error>)
      modifies this
      ensures err.None? <==> ServerLacks(old(root), key)
      ensures err.Some? ==>
                if IsObj(Get(Obj(old(root)), SERVER)) then err.value == Unexpected([key])
                else FailsOnPath(old(root), SERVER, err.value)
      ensures root == if err.Some? then old(root)
        else SetAt(old(root), SERVER + [key], value)[VERSION_KEY := Version(target)]
    {
      var server := FieldChainObj(root, ["dns", "server"]);
      GetNext(Obj(root), SERVER, [key]);
      if server.Failure? {
        return Some(server.error);
      }
      if key in server.value {
        return Some(Unexpected([key]));
      }
      root := SetAt(root, SERVER + [key], value);
      root := root[VERSION_KEY := Version(target)];
      err := None;
    }

    method MigrateTo2() returns (err: Option<Error>)
      modifies this
      ensures err.None? <==> Accepts(1, old(root))
      ensures root == if err.None? then Step(1, old(root)) else LeftBehind(1, old(root))
      ensures err.Some? ==> Refuses(1, old(root), err.value)
    {
      var value := Obj(map["enabled" := Bool(true), "interval" := Duration("1s"), "count" := Int(4)]);
      err := AddToServer("bind_retry", value, 2);
    }

    method MigrateTo3() returns (err: Option<Error>)
      modifies this
      ensures err.None? <==> Accepts(2, old(root))
      ensures root == if err.None? then Step(2, old(root)) else LeftBehind(2, old(root))
      ensures err.Some? ==> Refuses(2, old(root), err.value)
    {
      err := AddToServer("pending_requests", Obj(map["enabled" := Bool(true)]), 3);
    }

    /** The loop of migrateTo4, which goes on after an error. */
    static method AddToGroups(groups0: Fields, key: string, v: Yaml) returns (groups: Fields, errs: map<string, Error>)
      ensures groups == WithFields(groups0, {}, key, v)
      ensures errs == FieldErrors(groups0, key)
    {
      groups, errs := groups0, map[];
      var names := groups.Keys;
      while names != {}
        invariant names <= groups0.Keys == groups.Keys
        invariant groups == WithFields(groups0, names, key, v)
        invariant forall g :: g in errs <==> g in groups0 && g !in names && !IsObjWithout(groups0[g], key)
        invariant forall g :: g in errs ==> errs[g] == FieldError(groups0, g, key)
        decreases names
      {
        var name :| name in names;
        WithOneMore(groups0, names, key, v, name);
        names := names - {name};
        var err;
        assert FieldError(groups, name, key) == FieldError(groups0, name, key);
        groups, err := AddToGroup(groups, name, key, v);
        if err.Some? {
          errs := errs[name := err.value];
        }
      }
    }

    static method AddToGroup(groups0: Fields, name: string, key: string, v: Yaml)
      returns (groups: Fields, err: Option<Error>)
      requires name in groups0
      ensures groups == groups0[name := WithField(groups0[name], key, v)]
      ensures err.None? <==> IsObjWithout(groups0[name], key)
      ensures err.Some? ==> err.value == FieldError(groups0, name, key)
    {
      var group := FieldObj(groups0, name);
      if group.Failure? {
        return groups0, Some(group.error);
      }
      if key in group.value {
        return groups0, Some(Unexpected([key]));
      }
      groups, err := groups0[name := Obj(group.value[key := v])], None;
    }

    method MigrateTo4() returns (err: Option<Error>)
      modifies this
      ensures err.None? <==> Accepts(3, old(root))
      ensures root == if err.None? then Step(3, old(root)) else LeftBehind(3, old(root))
      ensures err.Some? ==> Refuses(3, old(root), err.value)
    {
      var found := FieldChainObj(root, ["dns", "upstream", "groups"]);
      if found.Failure? {
        return Some(found.error);
      }
      var groups, errs := AddToGroups(found.value, "autodevice", Obj(map["enabled" := Bool(false)]));
      NoFieldErrorsIff(found.value, "autodevice");
      root := SetAt(root, GROUPS, Obj(groups));
      if errs != map[] {
        return Some(BadGroups(errs));
      }
      root := root[VERSION_KEY := Version(4)];
      err := None;
    }

    /** migrate: the migrations from current to target.  A refusal names the version
        where it happened; the migrations before it have been done. */
    method Migrate(current: nat, target: nat) returns (err: Option<Error>)
      requires INITIAL <= current <= target <= LATEST
      modifies this
      ensures err.None? <==> AcceptsAll(old(root), current, target)
      ensures err.None? ==> root == Steps(old(root), current, target)
      ensures err.Some? ==> err.value.Upgrading? && RefusedAt(old(root), current, target, err.value, root)
    {
      var v := current;
      while v < target
        invariant current <= v <= target
        invariant AcceptsAll(old(root), current, v) && root == Steps(old(root), current, v)
      {
        if v == 1 {
          err := MigrateTo2();
        } else if v == 2 {
          err := MigrateTo3();
        } else {
          err := MigrateTo4();
        }
        StepsCompose(old(root), current, v, v + 1);
        if err.Some? {
          StepsCompose(old(root), current, v, target);
          return Some(Upgrading(v, err.value));
        }
        v := v + 1;
      }
      err := None;
    }
  }
}
