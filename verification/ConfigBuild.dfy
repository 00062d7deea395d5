/** The builders: from a valid configuration to the static and autodevice maps, and
    on to the sorted slots of the storage. */
module ConfigBuild {
  import opened Wrappers
  import opened Net
  import opened HumanIDs
  import opened Lookup
  import opened Config

  /** An upstream configuration, named by its group as its options are. */
  datatype Ups =
    | StaticUps(group: string, address: string)
    | AutoUps(group: string, template: string, deviceType: string, profile: string)

  datatype BuildError = BadAddress | Duplicated

  type NestedMap<V> = map<Prefix, map<string, V>>

  function UpsOf(n: string, g: Group): Ups {
    if Enabled(g) then AutoUps(n, g.address, g.auto.value.deviceType, g.auto.value.profile)
    else StaticUps(n, g.address)
  }

  /** u is of its group: of the kind the group asks for, with the group's own address
      and, for devices, device type and profile. */
  predicate IsOfItsGroup(groups: Groups, u: Ups) {
    && u.group in groups && groups[u.group].Some?
    && var g := groups[u.group].value;
       match u
       case StaticUps(_, address) => !(g.auto.Some? && g.auto.value.enabled) && address == g.address
       case AutoUps(_, template, deviceType, profile) =>
         && g.auto.Some? && g.auto.value.enabled && template == g.address
         && deviceType == g.auto.value.deviceType && profile == g.auto.value.profile
  }

  /** The slot that the i-th match of group n asks for. */
  function EntrySlot(groups: Groups, n: string, i: nat): Slot<Ups>
    requires IsEntry(groups, n, i)
  {
    var key := EntryKey(groups, n, i);
    Slot(key.client, key.domain, UpsOf(n, groups[n].value))
  }

  /** x is the slot of the i-th match of its group. */
  predicate IsEntrySlot(groups: Groups, auto: bool, x: Slot<Ups>, i: nat) {
    && IsEntry(groups, x.payload.group, i)
    && Enabled(groups[x.payload.group].value) == auto
    && x == EntrySlot(groups, x.payload.group, i)
  }

  /** The slot of a default group with autodevice enabled. */
  predicate IsDefaultSlot(groups: Groups, auto: bool, x: Slot<Ups>) {
    && auto && DEFAULT_GROUP in groups && groups[DEFAULT_GROUP].Some? && Enabled(groups[DEFAULT_GROUP].value)
    && x == Slot(NoPrefix, "", UpsOf(DEFAULT_GROUP, groups[DEFAULT_GROUP].value))
  }

  /** What the configuration asks for, of one kind. */
  ghost predicate Asked(groups: Groups, auto: bool, x: Slot<Ups>) {
    (exists i: nat :: IsEntrySlot(groups, auto, x, i)) || IsDefaultSlot(groups, auto, x)
  }

  /** The same, as far as the groups in done and the first n matches of group name
      have been visited. */
  ghost predicate AskedSoFar(groups: Groups, auto: bool, x: Slot<Ups>, done: set<string>, name: string, n: nat) {
    || (exists i: nat :: IsEntrySlot(groups, auto, x, i) && (x.payload.group in done || (x.payload.group == name && i < n)))
    || (IsDefaultSlot(groups, auto, x) && DEFAULT_GROUP in done)
  }

  ghost predicate OnlyAsked(groups: Groups, auto: bool, m: NestedMap<Ups>, done: set<string>, name: string, n: nat) {
    forall x :: InConf(x, m) ==> AskedSoFar(groups, auto, x, done, name, n)
  }

  ghost predicate AllAsked(groups: Groups, auto: bool, m: NestedMap<Ups>, done: set<string>, name: string, n: nat) {
    forall x :: AskedSoFar(groups, auto, x, done, name, n) ==> InConf(x, m)
  }

  /** What is asked for is of its group. */
  lemma AskedIsOfItsGroup(groups: Groups, auto: bool, x: Slot<Ups>)
    requires Asked(groups, auto, x)
    ensures IsOfItsGroup(groups, x.payload) && (x.payload.AutoUps? <==> auto)
  {
  }

  function Put<V>(m: NestedMap<V>, p: Prefix, d: string, v: V): NestedMap<V> {
    m[p := (if p in m then m[p] else map[])[d := v]]
  }

  lemma PutAddsOne<V(!new)>(m: NestedMap<V>, p: Prefix, d: string, v: V)
    requires !(p in m && d in m[p])
    ensures forall x :: InConf(x, Put(m, p, d, v)) <==> InConf(x, m) || x == Slot(p, d, v)
  {
  }

  lemma {:induction false} MatchesAreValid(env: Env, g: Group, n: nat, i: nat)
    requires i < n <= |g.matches| && ValidMatches(env, g, n)
    ensures ValidMatch(env, g.matches[i])
  {
    if i < n - 1 {
      MatchesAreValid(env, g, n - 1, i);
    }
  }

  lemma EntryOfValid(env: Env, groups: Groups, n: string, i: nat)
    requires ValidConfig(env, groups) && n in groups && !IsPredefined(n)
    requires i < |groups[n].value.matches|
    ensures IsEntry(groups, n, i) && ValidMatch(env, groups[n].value.matches[i])
  {
    assert ValidGroup(env, n, groups[n]);
    MatchesAreValid(env, groups[n].value, |groups[n].value.matches|, i);
  }

  lemma LowerKeepsEmpty(s: string)
    ensures ToLower(s) == "" <==> s == ""
  {
  }

  /** The key of the next match is free: distinct entries have distinct keys, and no
      match asks for the default slot. */
  lemma NextKeyIsFree(env: Env, groups: Groups, auto: bool, m: NestedMap<Ups>, done: set<string>, name: string, i: nat)
    requires ValidConfig(env, groups) && name in groups && !IsPredefined(name) && name !in done
    requires i < |groups[name].value.matches|
    requires OnlyAsked(groups, auto, m, done, name, i)
    ensures IsEntry(groups, name, i)
    ensures var key := EntryKey(groups, name, i); !(key.client in m && key.domain in m[key.client])
  {
    EntryOfValid(env, groups, name, i);
    var key := EntryKey(groups, name, i);
    if key.client in m && key.domain in m[key.client] {
      var x := Slot(key.client, key.domain, m[key.client][key.domain]);
      assert InConf(x, m);
      LowerKeepsEmpty(groups[name].value.matches[i].value.domain);
      if j: nat :| IsEntrySlot(groups, auto, x, j) && (x.payload.group in done || (x.payload.group == name && j < i)) {
        KeysAreDistinct(groups, name, i, x.payload.group, j);
        assert false;
      }
      assert false;
    }
  }

  lemma PutKeepsAsked(env: Env, groups: Groups, auto: bool, m: NestedMap<Ups>, done: set<string>, name: string, i: nat)
    requires ValidConfig(env, groups) && name in groups && !IsPredefined(name) && name !in done
    requires i < |groups[name].value.matches| && Enabled(groups[name].value) == auto
    requires OnlyAsked(groups, auto, m, done, name, i)
    ensures IsEntry(groups, name, i)
    ensures var x := EntrySlot(groups, name, i);
      var m' := Put(m, x.prefix, x.domain, x.payload);
      && OnlyAsked(groups, auto, m', done, name, i + 1)
      && (AllAsked(groups, auto, m, done, name, i) ==> AllAsked(groups, auto, m', done, name, i + 1))
  {
    NextKeyIsFree(env, groups, auto, m, done, name, i);
    var x := EntrySlot(groups, name, i);
    assert IsEntrySlot(groups, auto, x, i);
    PutAddsOne(m, x.prefix, x.domain, x.payload);
  }

  lemma OnlyAskedGrows(groups: Groups, auto: bool, m: NestedMap<Ups>, done: set<string>, name: string, i: nat, n: nat)
    requires OnlyAsked(groups, auto, m, done, name, i) && i <= n
    ensures OnlyAsked(groups, auto, m, done, name, n)
  {
    forall x | InConf(x, m)
      ensures AskedSoFar(groups, auto, x, done, name, n)
    {
      assert AskedSoFar(groups, auto, x, done, name, i);
    }
  }

  lemma DefaultKeyIsFree(env: Env, groups: Groups, m: NestedMap<Ups>, done: set<string>)
    requires ValidConfig(env, groups) && DEFAULT_GROUP !in done
    requires OnlyAsked(groups, true, m, done, "", 0)
    ensures !(NoPrefix in m && "" in m[NoPrefix])
  {
    if NoPrefix in m && "" in m[NoPrefix] {
      var x := Slot(NoPrefix, "", m[NoPrefix][""]);
      assert InConf(x, m);
      var j: nat :| IsEntrySlot(groups, true, x, j) && x.payload.group in done;
      EntryOfValid(env, groups, x.payload.group, j);
      assert false;
    }
  }

  lemma PutDefaultKeepsAsked(env: Env, groups: Groups, m: NestedMap<Ups>, done: set<string>)
    requires ValidConfig(env, groups) && DEFAULT_GROUP !in done && Enabled(groups[DEFAULT_GROUP].value)
    requires OnlyAsked(groups, true, m, done, "", 0)
    ensures var m' := Put(m, NoPrefix, "", UpsOf(DEFAULT_GROUP, groups[DEFAULT_GROUP].value));
      && OnlyAsked(groups, true, m', done + {DEFAULT_GROUP}, "", 0)
      && (AllAsked(groups, true, m, done, "", 0) ==> AllAsked(groups, true, m', done + {DEFAULT_GROUP}, "", 0))
  {
    DefaultKeyIsFree(env, groups, m, done);
    PutAddsOne(m, NoPrefix, "", UpsOf(DEFAULT_GROUP, groups[DEFAULT_GROUP].value));
  }

  /** A group that has been visited, or that asks for nothing of this kind, is done. */
  lemma GroupIsDone(groups: Groups, auto: bool, m: NestedMap<Ups>, done: set<string>, name: string, n: nat)
    requires name in groups && groups[name].Some?
    requires n == |groups[name].value.matches| || Enabled(groups[name].value) != auto || IsPredefined(name)
    requires name == DEFAULT_GROUP ==> !auto || !Enabled(groups[name].value)
    ensures OnlyAsked(groups, auto, m, done, name, n) ==> OnlyAsked(groups, auto, m, done + {name}, "", 0)
    ensures AllAsked(groups, auto, m, done, name, n) ==> AllAsked(groups, auto, m, done + {name}, "", 0)
  {
    forall x
      ensures AskedSoFar(groups, auto, x, done, name, n) <==> AskedSoFar(groups, auto, x, done + {name}, "", 0)
    {
    }
  }

  // ---- The builders ----

  /** Building the group makes an upstream of its address. */
  predicate Dials(g: Group, name: string) {
    IsPredefined(name) || (!Enabled(g) && g.matches != [])
  }

  /** The one way in which building a group of a valid configuration fails. */
  function DialError(env: Env, g: Group, name: string): Option<BuildError> {
    if Dials(g, name) && !env.dial(g.address) then Some(BadAddress) else None
  }

  /** addAutodeviceGroup and addCommonGroup, which fill the map of their kind.
      Filling it cannot fail: only making an upstream of the address can. */
  method AddCustomGroup(env: Env, groups: Groups, name: string, m0: NestedMap<Ups>, ghost done: set<string>)
    returns (m: NestedMap<Ups>, err: Option<BuildError>)
    requires ValidConfig(env, groups) && name in groups && !IsPredefined(name) && name !in done
    requires var auto := Enabled(groups[name].value); OnlyAsked(groups, auto, m0, done, name, 0)
    ensures var g := groups[name].value;
      && OnlyAsked(groups, Enabled(g), m, done, name, |g.matches|)
      && (err.None? && AllAsked(groups, Enabled(g), m0, done, name, 0) ==>
            AllAsked(groups, Enabled(g), m, done, name, |g.matches|))
    ensures err == DialError(env, groups[name].value, name)
  {
    var g := groups[name].value;
    assert ValidGroup(env, name, groups[name]);
    m, err := m0, None;
    var enabled := g.auto.value.enabled;
    if enabled && env.scheme(g.address).None? {
      return m, Some(BadAddress);
    }
    for i := 0 to |g.matches|
      invariant i > 0 && !Enabled(g) ==> env.dial(g.address)
      invariant OnlyAsked(groups, Enabled(g), m, done, name, i)
      invariant AllAsked(groups, Enabled(g), m0, done, name, 0) ==> AllAsked(groups, Enabled(g), m, done, name, i)
    {
      EntryOfValid(env, groups, name, i);
      PutKeepsAsked(env, groups, Enabled(g), m, done, name, i);
      NextKeyIsFree(env, groups, Enabled(g), m, done, name, i);
      if !enabled && !env.dial(g.address) {
        OnlyAskedGrows(groups, Enabled(g), m, done, name, i, |g.matches|);
        return m, Some(BadAddress);
      }
      var c := g.matches[i].value;
      var domain := ToLower(c.domain);
      if c.client in m && domain in m[c.client] {
        return m, Some(Duplicated);
      }
      var auto := g.auto.value;
      var ups := if enabled
        then AutoUps(group := name, template := g.address, deviceType := auto.deviceType, profile := auto.profile)
        else StaticUps(group := name, address := g.address);
      var cliConf := if c.client in m then m[c.client] else map[];
      m := m[c.client := cliConf[domain := ups]];
    }
  }

  /** addDefaultGroup: with autodevice enabled, the group takes the slot of any
      client and any domain. */
  method AddDefaultGroup(env: Env, g: Group, auto0: NestedMap<Ups>) returns (auto: NestedMap<Ups>, err: Option<BuildError>)
    requires g.auto.Some? && (Enabled(g) ==> env.scheme(g.address).Some?)
    ensures auto == if Enabled(g) then Put(auto0, NoPrefix, "", UpsOf(DEFAULT_GROUP, g)) else auto0
    ensures err == if !env.dial(g.address) then Some(BadAddress) else None
  {
    auto := auto0;
    if g.auto.value.enabled {
      var cliConf := if NoPrefix in auto then auto[NoPrefix] else map[];
      auto := auto[NoPrefix := cliConf["" := AutoUps(
        group := DEFAULT_GROUP, template := g.address,
        deviceType := g.auto.value.deviceType, profile := g.auto.value.profile)]];
    }
    err := if env.dial(g.address) then None else Some(BadAddress);
  }

  /** newUpstreams.  After validation the builders never find a duplicate; only an
      address that no upstream can be made of fails, group by group.  Without such
      addresses the maps hold exactly what the configuration asks for. */
  method NewUpstreams(env: Env, groups: Groups)
    returns (static_: NestedMap<Ups>, auto: NestedMap<Ups>, errs: map<string, BuildError>)
    requires ValidConfig(env, groups)
    ensures forall n :: n in errs <==> n in groups && Dials(groups[n].value, n) && !env.dial(groups[n].value.address)
    ensures forall n :: n in errs ==> errs[n] == BadAddress
    ensures forall x :: InConf(x, static_) ==> Asked(groups, false, x)
    ensures forall x :: InConf(x, auto) ==> Asked(groups, true, x)
    ensures forall x :: InConf(x, static_) ==> IsOfItsGroup(groups, x.payload) && x.payload.StaticUps?
    ensures forall x :: InConf(x, auto) ==> IsOfItsGroup(groups, x.payload) && x.payload.AutoUps?
    ensures errs == map[] ==> forall x :: InConf(x, static_) <==> Asked(groups, false, x)
    ensures errs == map[] ==> forall x :: InConf(x, auto) <==> Asked(groups, true, x)
  {
    static_, auto, errs := map[], map[], map[];
    var todo := groups.Keys;
    ghost var done: set<string> := {};
    while todo != {}
      invariant todo + done == groups.Keys && todo !! done
      invariant forall n :: n in errs <==> n in done && Dials(groups[n].value, n) && !env.dial(groups[n].value.address)
      invariant forall n :: n in errs ==> errs[n] == BadAddress
      invariant OnlyAsked(groups, false, static_, done, "", 0)
      invariant OnlyAsked(groups, true, auto, done, "", 0)
      invariant errs == map[] ==> AllAsked(groups, false, static_, done, "", 0)
      invariant errs == map[] ==> AllAsked(groups, true, auto, done, "", 0)
      decreases todo
    {
      var name :| name in todo;
      var err: Option<BuildError>;
      static_, auto, err := AddGroup(env, groups, name, static_, auto, done);
      if err.Some? {
        errs := errs[name := err.value];
      }
      todo, done := todo - {name}, done + {name};
    }
    assert done == groups.Keys;
    forall x | InConf(x, static_)
      ensures Asked(groups, false, x) && IsOfItsGroup(groups, x.payload) && x.payload.StaticUps?
    {
      assert AskedSoFar(groups, false, x, done, "", 0);
      AskedIsOfItsGroup(groups, false, x);
    }
    forall x | InConf(x, auto)
      ensures Asked(groups, true, x) && IsOfItsGroup(groups, x.payload) && x.payload.AutoUps?
    {
      assert AskedSoFar(groups, true, x, done, "", 0);
      AskedIsOfItsGroup(groups, true, x);
    }
  }

  /** The body of that loop: the switch on the group name. */
  method AddGroup(env: Env, groups: Groups, name: string, static0: NestedMap<Ups>, auto0: NestedMap<Ups>,
                  ghost done: set<string>)
    returns (static_: NestedMap<Ups>, auto: NestedMap<Ups>, err: Option<BuildError>)
    requires ValidConfig(env, groups) && name in groups && name !in done
    requires OnlyAsked(groups, false, static0, done, "", 0) && OnlyAsked(groups, true, auto0, done, "", 0)
    ensures groups[name].Some?
    ensures err == DialError(env, groups[name].value, name)
    ensures OnlyAsked(groups, false, static_, done + {name}, "", 0)
    ensures OnlyAsked(groups, true, auto, done + {name}, "", 0)
    ensures err.None? && AllAsked(groups, false, static0, done, "", 0) ==>
              AllAsked(groups, false, static_, done + {name}, "", 0)
    ensures err.None? && AllAsked(groups, true, auto0, done, "", 0) ==>
              AllAsked(groups, true, auto, done + {name}, "", 0)
  {
    assert ValidGroup(env, name, groups[name]);
    var g := groups[name].value;
    static_, auto := static0, auto0;
    if name == DEFAULT_GROUP {
      auto, err := AddDefaultGroup(env, g, auto0);
      if g.auto.value.enabled {
        PutDefaultKeepsAsked(env, groups, auto0, done);
      } else {
        GroupIsDone(groups, true, auto, done, name, 0);
      }
      GroupIsDone(groups, false, static_, done, name, 0);
    } else if name == PRIVATE_GROUP {
      err := if env.dial(g.address) then None else Some(BadAddress);
      GroupIsDone(groups, true, auto, done, name, 0);
      GroupIsDone(groups, false, static_, done, name, 0);
    } else if g.auto.value.enabled {
      auto, err := AddCustomGroup(env, groups, name, auto0, done);
      GroupIsDone(groups, true, auto, done, name, |g.matches|);
      GroupIsDone(groups, false, static_, done, name, 0);
    } else {
      static_, err := AddCustomGroup(env, groups, name, static0, done);
      GroupIsDone(groups, true, auto, done, name, 0);
      GroupIsDone(groups, false, static_, done, name, |g.matches|);
    }
  }

  // ---- Static clients ----

  /** A static client owns a copy of its upstreams behind its own cache. */
  datatype StaticClient = StaticClient(ups: Ups, cacheSize: Option<nat>)

  /** newStaticClients and addStaticClient. */
  method NewStaticClients(conf: NestedMap<Ups>, cacheSize: Option<nat>) returns (clients: NestedMap<StaticClient>)
    ensures forall x: Slot<StaticClient> :: InConf(x, clients) <==>
      InConf(Slot(x.prefix, x.domain, x.payload.ups), conf) && x.payload.cacheSize == cacheSize
  {
    clients := map[];
    var prefixes := conf.Keys;
    while prefixes != {}
      invariant prefixes <= conf.Keys
      invariant forall x: Slot<StaticClient> :: InConf(x, clients) <==>
        && x.prefix !in prefixes
        && InConf(Slot(x.prefix, x.domain, x.payload.ups), conf) && x.payload.cacheSize == cacheSize
      decreases prefixes
    {
      var prefix :| prefix in prefixes;
      var domains := conf[prefix].Keys;
      prefixes := prefixes - {prefix};
      while domains != {}
        invariant domains <= conf[prefix].Keys
        invariant forall x: Slot<StaticClient> :: InConf(x, clients) <==>
          && x.prefix !in prefixes && !(x.prefix == prefix && x.domain in domains)
          && InConf(Slot(x.prefix, x.domain, x.payload.ups), conf) && x.payload.cacheSize == cacheSize
        decreases domains
      {
        var domain :| domain in domains;
        domains := domains - {domain};
        var cliConf := if prefix in clients then clients[prefix] else map[];
        clients := clients[prefix := cliConf[domain := StaticClient(conf[prefix][domain], cacheSize)]];
      }
    }
  }
}
