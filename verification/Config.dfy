/** The configuration of upstream groups: what a valid one is, the validation with
    its conflict set, and the builders that fill the static and autodevice maps. */
module Config {
  import opened Wrappers
  import opened Net
  import opened DomainNames
  import opened HumanIDs

  const DEFAULT_GROUP := "default"
  const PRIVATE_GROUP := "private"

  datatype AutoConf = AutoConf(enabled: bool, profile: string, deviceType: string)

  datatype Match = Match(client: Prefix, domain: string)

  /** Pointers that the YAML decoder may leave nil are options. */
  datatype Group = Group(address: string, auto: Option<AutoConf>, matches: seq<Option<Match>>)

  type Groups = map<string, Option<Group>>

  /** The libraries behind the configuration: whether a domain name is valid, the
      scheme of an address that parses, whether an upstream can be made of it. */
  datatype Env = Env(validDomain: string -> bool, scheme: string -> Option<string>, dial: string -> bool)

  /** A valid domain name has no empty label, in particular no empty first one. */
  ghost predicate Sound(env: Env) {
    forall d :: env.validDomain(d) && d != "" ==> d[0] != '.'
  }

  // ---- Valid configurations ----

  predicate Enabled(g: Group) {
    g.auto.Some? && g.auto.value.enabled
  }

  predicate ValidAuto(auto: Option<AutoConf>) {
    auto.Some? && (auto.value.enabled ==> IsProfileID(auto.value.profile) && IsDeviceType(auto.value.deviceType))
  }

  predicate ValidAutodeviceAddress(env: Env, address: string) {
    && address != "" && env.scheme(address).Some?
    && env.scheme(address).value in {"https", "tls", "quic"}
  }

  predicate ValidAddress(env: Env, g: Group) {
    if Enabled(g) then ValidAutodeviceAddress(env, g.address) else g.address != ""
  }

  predicate IsPredefined(name: string) {
    name == "default" || name == "private"
  }

  predicate ValidPredefined(env: Env, name: string, g: Option<Group>) {
    && g.Some? && g.value.matches == [] && ValidAuto(g.value.auto) && ValidAddress(env, g.value)
    && !(name == PRIVATE_GROUP && Enabled(g.value))
  }

  predicate ValidMatch(env: Env, m: Option<Match>) {
    && m.Some? && m.value != Match(NoPrefix, "")
    && (m.value.domain != "" ==> env.validDomain(m.value.domain))
    && IsMasked(m.value.client)
  }

  /** The first n matches are valid. */
  predicate ValidMatches(env: Env, g: Group, n: nat)
    requires n <= |g.matches|
  {
    n == 0 || (ValidMatches(env, g, n - 1) && ValidMatch(env, g.matches[n - 1]))
  }

  predicate ValidCustom(env: Env, g: Option<Group>) {
    && g.Some? && ValidAuto(g.value.auto) && ValidAddress(env, g.value)
    && ValidMatches(env, g.value, |g.value.matches|)
  }

  predicate ValidGroup(env: Env, name: string, g: Option<Group>) {
    if IsPredefined(name) then ValidPredefined(env, name, g) else ValidCustom(env, g)
  }

  datatype Key = Key(client: Prefix, domain: string)

  function KeyOf(m: Match): Key {
    Key(m.client, ToLower(m.domain))
  }

  /** The i-th match of the custom group n. */
  predicate IsEntry(groups: Groups, n: string, i: nat) {
    && n in groups && !IsPredefined(n) && groups[n].Some?
    && i < |groups[n].value.matches| && groups[n].value.matches[i].Some?
  }

  function EntryKey(groups: Groups, n: string, i: nat): Key
    requires IsEntry(groups, n, i)
  {
    KeyOf(groups[n].value.matches[i].value)
  }

  /** The matches ask for one prefix and for domains that differ at most in letter
      case. */
  predicate SameMatch(m: Match, o: Match) {
    m.client == o.client && EqualFold(m.domain, o.domain)
  }

  predicate SameEntry(groups: Groups, n: string, i: nat, o: string, j: nat)
    requires IsEntry(groups, n, i) && IsEntry(groups, o, j)
  {
    SameMatch(groups[n].value.matches[i].value, groups[o].value.matches[j].value)
  }

  /** No two matches of the configuration ask for the same. */
  ghost predicate DistinctEntries(groups: Groups) {
    forall n, i, o, j | IsEntry(groups, n, i) && IsEntry(groups, o, j) ::
      SameEntry(groups, n, i, o, j) ==> n == o && i == j
  }

  lemma SameEntryIffKey(groups: Groups, n: string, i: nat, o: string, j: nat)
    requires IsEntry(groups, n, i) && IsEntry(groups, o, j)
    ensures SameEntry(groups, n, i, o, j) <==> EntryKey(groups, n, i) == EntryKey(groups, o, j)
  {
    LowerIsFold(groups[n].value.matches[i].value.domain, groups[o].value.matches[j].value.domain);
  }

  lemma KeysAreDistinct(groups: Groups, n: string, i: nat, o: string, j: nat)
    requires DistinctEntries(groups) && IsEntry(groups, n, i) && IsEntry(groups, o, j)
    requires EntryKey(groups, n, i) == EntryKey(groups, o, j)
    ensures n == o && i == j
  {
    SameEntryIffKey(groups, n, i, o, j);
  }

  ghost predicate ValidConfig(env: Env, groups: Groups) {
    && "default" in groups
    && (forall n :: n in groups ==> ValidGroup(env, n, groups[n]))
    && DistinctEntries(groups)
  }

  // ---- Validation ----

  /** autodeviceConfig.Validate. */
  method ValidateAuto(auto: Option<AutoConf>) returns (ok: bool)
    ensures ok <==> ValidAuto(auto)
  {
    if auto.None? {
      return false;
    } else if !auto.value.enabled {
      return true;
    }
    ProfileIDsAre(auto.value.profile);
    ok := NewProfileID(auto.value.profile).Success? && NewDeviceType(auto.value.deviceType).Success?;
  }

  method ValidateAutodeviceAddress(env: Env, address: string) returns (ok: bool)
    ensures ok <==> ValidAutodeviceAddress(env, address)
  {
    if address == "" {
      return false;
    }
    var scheme := env.scheme(address);
    if scheme.None? {
      return false;
    }
    ok := scheme.value == "https" || scheme.value == "tls" || scheme.value == "quic";
  }

  method ValidateAsPredefined(env: Env, name: string, group: Option<Group>) returns (ok: bool)
    requires IsPredefined(name)
    ensures ok <==> ValidPredefined(env, name, group)
  {
    if group.None? {
      return false;
    }
    var c := group.value;
    ok := |c.matches| == 0;
    var validAuto := ValidateAuto(c.auto);
    if !validAuto {
      return false;
    }
    if !c.auto.value.enabled {
      return ok && c.address != "";
    }
    if name == PRIVATE_GROUP {
      return false;
    }
    var validAddress := ValidateAutodeviceAddress(env, c.address);
    ok := ok && validAddress;
  }

  /** Where each key of the match set comes from. */
  type Origin = map<Key, (string, nat)>

  ghost predicate Recorded(groups: Groups, origin: Origin, n: string, i: nat) {
    IsEntry(groups, n, i) ==> EntryKey(groups, n, i) in origin && origin[EntryKey(groups, n, i)] == (n, i)
  }

  /** Keys stay where they came from; new ones come from entries of one group. */
  ghost predicate Grows(was: Origin, origin: Origin, name: string, from: nat, to: nat) {
    && (forall k :: k in was ==> k in origin && origin[k] == was[k])
    && (forall k :: k in origin && k !in was ==> origin[k].0 == name && from <= origin[k].1 < to)
  }

  lemma GrowsKeepsRecorded(groups: Groups, was: Origin, origin: Origin, name: string, from: nat, to: nat)
    requires Grows(was, origin, name, from, to)
    ensures forall n: string, i: nat :: Recorded(groups, was, n, i) ==> Recorded(groups, origin, n, i)
  {
  }

  ghost predicate AllRecorded(groups: Groups, origin: Origin, name: string, n: nat) {
    forall i: nat :: i < n ==> Recorded(groups, origin, name, i)
  }

  lemma RecordedFurther(groups: Groups, mid: Origin, origin: Origin, name: string, i: nat)
    requires AllRecorded(groups, mid, name, i) && Grows(mid, origin, name, i, i + 1)
    requires Recorded(groups, origin, name, i)
    ensures AllRecorded(groups, origin, name, i + 1)
  {
    GrowsKeepsRecorded(groups, mid, origin, name, i, i + 1);
  }

  lemma GrowsFurther(was: Origin, mid: Origin, origin: Origin, name: string, i: nat)
    requires Grows(was, mid, name, 0, i) && Grows(mid, origin, name, i, i + 1)
    ensures Grows(was, origin, name, 0, i + 1)
  {
  }

  /** The match set, shared by the custom groups. */
  class Validation {
    const env: Env
    const groups: Groups
    var set_: map<Key, string>
    ghost var origin: Origin

    constructor (env: Env, groups: Groups)
      ensures this.env == env && this.groups == groups && set_ == map[] && origin == map[]
    {
      this.env, this.groups := env, groups;
      set_, origin := map[], map[];
    }

    ghost predicate Consistent()
      reads this
    {
      && set_.Keys == origin.Keys
      && forall k :: k in origin ==>
           && IsEntry(groups, origin[k].0, origin[k].1)
           && EntryKey(groups, origin[k].0, origin[k].1) == k
           && set_[k] == origin[k].0
    }

    method AddMatch(name: string, m: Match, ghost i: nat) returns (ok: bool)
      requires IsEntry(groups, name, i) && groups[name].value.matches[i].value == m
      requires Consistent()
      modifies this
      ensures ok <==> KeyOf(m) !in old(set_)
      ensures set_ == if ok then old(set_)[KeyOf(m) := name] else old(set_)
      ensures origin == if ok then old(origin)[KeyOf(m) := (name, i)] else old(origin)
      ensures Consistent()
    {
      var key := Key(m.client, ToLower(m.domain));
      if key in set_ {
        return false;
      }
      set_ := set_[key := name];
      origin := origin[key := (name, i)];
      ok := true;
    }

    /** A key in the set belongs to another entry. */
    lemma TakenKeyIsShared(name: string, i: nat)
      requires Consistent() && IsEntry(groups, name, i) && EntryKey(groups, name, i) in origin
      requires origin[EntryKey(groups, name, i)] != (name, i)
      ensures !DistinctEntries(groups)
    {
      var at := origin[EntryKey(groups, name, i)];
      assert IsEntry(groups, at.0, at.1) && EntryKey(groups, at.0, at.1) == EntryKey(groups, name, i);
      SameEntryIffKey(groups, name, i, at.0, at.1);
    }

    /** upstreamMatchConfig.validate: a match is added to the set even if its values
        are invalid. */
    method ValidateMatch(name: string, i: nat) returns (ok: bool)
      requires name in groups && !IsPredefined(name) && groups[name].Some? && i < |groups[name].value.matches|
      requires Consistent() && forall k :: k in origin ==> origin[k] != (name, i)
      modifies this
      ensures Consistent() && Grows(old(origin), origin, name, i, i + 1)
      ensures ok ==> ValidMatch(env, groups[name].value.matches[i]) && Recorded(groups, origin, name, i)
      ensures !ok ==> !ValidMatch(env, groups[name].value.matches[i]) || !DistinctEntries(groups)
    {
      var m := groups[name].value.matches[i];
      if m.None? || m.value == Match(NoPrefix, "") {
        return false;
      }
      var c := m.value;
      if KeyOf(c) in origin {
        TakenKeyIsShared(name, i);
      }
      var added := AddMatch(name, c, i);
      ok := (c.domain == "" || env.validDomain(c.domain)) && IsMasked(c.client) && added;
    }

    /** The loop of validateAsCustom: goes on after an error. */
    method ValidateMatches(name: string) returns (ok: bool)
      requires name in groups && !IsPredefined(name) && groups[name].Some?
      requires Consistent() && forall k :: k in origin ==> origin[k].0 != name
      modifies this
      ensures Consistent() && Grows(old(origin), origin, name, 0, |groups[name].value.matches|)
      ensures ok ==> ValidMatches(env, groups[name].value, |groups[name].value.matches|)
      ensures ok ==> AllRecorded(groups, origin, name, |groups[name].value.matches|)
      ensures !ok ==> !ValidMatches(env, groups[name].value, |groups[name].value.matches|) || !DistinctEntries(groups)
    {
      var g := groups[name].value;
      ok := true;
      for i := 0 to |g.matches|
        invariant Consistent() && Grows(old(origin), origin, name, 0, i)
        invariant ok ==> ValidMatches(env, g, i)
        invariant ok ==> AllRecorded(groups, origin, name, i)
        invariant !ok ==> !ValidMatches(env, g, i) || !DistinctEntries(groups)
      {
        ghost var mid := origin;
        var valid := ValidateMatch(name, i);
        GrowsFurther(old(origin), mid, origin, name, i);
        if ok && valid {
          RecordedFurther(groups, mid, origin, name, i);
        }
        ok := ok && valid;
      }
    }

    method ValidateAsCustom(name: string) returns (ok: bool)
      requires name in groups && !IsPredefined(name)
      requires Consistent() && forall k :: k in origin ==> origin[k].0 != name
      modifies this
      ensures Consistent()
      ensures Grows(old(origin), origin, name, 0, if groups[name].Some? then |groups[name].value.matches| else 0)
      ensures ok ==> ValidCustom(env, groups[name]) && forall i: nat :: Recorded(groups, origin, name, i)
      ensures !ok ==> !ValidCustom(env, groups[name]) || !DistinctEntries(groups)
    {
      if groups[name].None? {
        return false;
      }
      var g := groups[name].value;
      ok := ValidateAuto(g.auto);
      if ok {
        if !g.auto.value.enabled {
          ok := g.address != "";
        } else {
          ok := ValidateAutodeviceAddress(env, g.address);
        }
      }
      var matched := ValidateMatches(name);
      ok := ok && matched;
    }

    /** Validation accepts exactly the valid configurations, in whatever order the
        group names are visited. */
    method Validate() returns (ok: bool)
      requires set_ == map[] && origin == map[]
      modifies this
      ensures ok <==> ValidConfig(env, groups)
    {
      ok := DEFAULT_GROUP in groups;
      var todo := groups.Keys;
      while todo != {}
        invariant todo <= groups.Keys && Consistent()
        invariant forall k :: k in origin ==> origin[k].0 !in todo
        invariant ok ==> DEFAULT_GROUP in groups
        invariant ok ==> forall n :: n in groups && n !in todo ==> ValidGroup(env, n, groups[n])
        invariant ok ==> forall n: string, i: nat :: n in groups && n !in todo ==> Recorded(groups, origin, n, i)
        invariant !ok ==> !ValidConfig(env, groups)
        decreases todo
      {
        var name :| name in todo;
        todo := todo - {name};
        if name == DEFAULT_GROUP || name == PRIVATE_GROUP {
          var valid := ValidateAsPredefined(env, name, groups[name]);
          ok := ok && valid;
        } else {
          ghost var mid := origin;
          var valid := ValidateAsCustom(name);
          GrowsKeepsRecorded(groups, mid, origin, name, 0, if groups[name].Some? then |groups[name].value.matches| else 0);
          ok := ok && valid;
        }
      }
      if ok {
        RecordedAreDistinct(groups, origin);
      }
    }
  }

  lemma RecordedAreDistinct(groups: Groups, origin: Origin)
    requires forall n: string, i: nat :: n in groups ==> Recorded(groups, origin, n, i)
    ensures DistinctEntries(groups)
  {
    forall n, i, n', i' | IsEntry(groups, n, i) && IsEntry(groups, n', i')
                          && SameEntry(groups, n, i, n', i')
      ensures n == n' && i == i'
    {
      SameEntryIffKey(groups, n, i, n', i');
      assert Recorded(groups, origin, n, i) && Recorded(groups, origin, n', i');
    }
  }
}
