/** Human IDs, extended IDs and the conversion of host names to human IDs.
    Strings are Go strings: sequences of bytes. */
module HumanIDs {
  import opened Wrappers

  /** Section 2.3.4 of RFC 1035. */
  const MAX_LABEL_LEN := 63

  const DEVICE_TYPE_LEN := 3
  const PROFILE_ID_LEN := 8
  const MAX_HUMAN_ID_LEN := MAX_LABEL_LEN - DEVICE_TYPE_LEN - PROFILE_ID_LEN - 2
  const MIN_HUMAN_ID_LEN := 1

  predicate IsOuter(c: char) {
    'a' <= c <= 'z' || 'A' <= c <= 'Z' || '0' <= c <= '9'
  }

  predicate IsInner(c: char) {
    IsOuter(c) || c == '-'
  }

  /** netutil.ValidateHostnameLabel; section 2.1 of RFC 1123. */
  predicate IsHostnameLabel(s: string) {
    && 1 <= |s| <= MAX_LABEL_LEN
    && IsOuter(s[0]) && IsOuter(s[|s| - 1])
    && forall i :: 0 <= i < |s| ==> IsInner(s[i])
  }

  predicate TripleHyphenAt(s: string, i: int) {
    0 <= i < |s| - 2 && s[i] == '-' && s[i + 1] == '-' && s[i + 2] == '-'
  }

  predicate HasTripleHyphen(s: string) {
    exists i :: 0 <= i < |s| && TripleHyphenAt(s, i)
  }

  /** Three hyphens in a row are a substring. */
  lemma TripleIsSubstring(s: string)
    ensures HasTripleHyphen(s) <==> exists a: string, b: string :: s == a + "---" + b
  {
    if i: nat :| i < |s| && TripleHyphenAt(s, i) {
      assert s == s[..i] + "---" + s[i + 3..];
    }
    if a: string, b: string :| s == a + "---" + b {
      assert TripleHyphenAt(s, |a|);
    }
  }

  datatype IdError = BadLength | BadCharacter | BadType | BadLabel | TooManyHyphens

  function NewHumanID(s: string): Result<string, IdError> {
    if !(MIN_HUMAN_ID_LEN <= |s| <= MAX_HUMAN_ID_LEN) then Failure(BadLength)
    else if !IsHostnameLabel(s) then Failure(BadLabel)
    else if HasTripleHyphen(s) then Failure(TooManyHyphens)
    else Success(s)
  }

  /** strings.TrimSuffix(s, "."). */
  function TrimDot(s: string): string {
    if s != "" && s[|s| - 1] == '.' then s[..|s| - 1] else s
  }

  /** strings.ReplaceAll of one byte by a hyphen. */
  function Dashed(s: string, c: char): (r: string)
    ensures |r| == |s|
    ensures forall i :: 0 <= i < |s| ==> r[i] == if s[i] == c then '-' else s[i]
  {
    seq(|s|, i requires 0 <= i < |s| => if s[i] == c then '-' else s[i])
  }

  /** What is left of a name after dropping the final dot and truncating. */
  function Cut(fqdn: string): string {
    var domain := TrimDot(fqdn);
    if |domain| > MAX_HUMAN_ID_LEN then TrimDot(domain[..MAX_HUMAN_ID_LEN]) else domain
  }

  function FqdnToHumanID(fqdn: string): Result<string, IdError> {
    if |TrimDot(fqdn)| < MIN_HUMAN_ID_LEN then Failure(BadLength)
    else NewHumanID(Dashed(Cut(fqdn), '.'))
  }

  /** The conversion is a projection onto valid IDs: its results are dot-free, pass
      NewHumanID and convert to themselves, and every valid ID is a result. */
  lemma FqdnToHumanIDProjects(s: string)
    ensures var r := FqdnToHumanID(s);
      r.Success? ==>
        && '.' !in r.value && 1 <= |r.value| <= MAX_HUMAN_ID_LEN
        && NewHumanID(r.value) == r && FqdnToHumanID(r.value) == r
    ensures NewHumanID(s).Success? ==> FqdnToHumanID(s) == Success(s)
  {
    if NewHumanID(s).Success? {
      ValidIDConverts(s);
    }
    var r := FqdnToHumanID(s);
    if r.Success? {
      ValidIDConverts(r.value);
    }
  }

  /** What a human ID is: up to 50 letters, digits and hyphens, no hyphen first or last
      and no three of them in a row. */
  lemma HumanIDsAre(s: string)
    ensures NewHumanID(s) == Success(s) <==>
      && 1 <= |s| <= 50 && s[0] != '-' && s[|s| - 1] != '-'
      && (forall c :: c in s ==> 'a' <= c <= 'z' || 'A' <= c <= 'Z' || '0' <= c <= '9' || c == '-')
      && !(exists a: string, b: string :: s == a + "---" + b)
    ensures NewHumanID(s).Success? ==> NewHumanID(s).value == s
  {
    TripleIsSubstring(s);
    assert forall i :: 0 <= i < |s| ==> s[i] in s;
  }

  lemma ValidIDConverts(id: string)
    requires NewHumanID(id).Success?
    ensures FqdnToHumanID(id) == Success(id) && '.' !in id
  {
    assert TrimDot(id) == id;
    assert Dashed(id, '.') == id;
  }

  predicate DotIsInner(h: string, i: nat)
    requires 0 < i < |h| - 1
  {
    h[i] == '.' ==> IsOuter(h[i - 1]) && IsOuter(h[i + 1])
  }

  /** A host name: labels of letters, digits and inner hyphens, joined by single
      dots. */
  predicate IsHostname(h: string) {
    && h != "" && IsOuter(h[0]) && IsOuter(h[|h| - 1])
    && (forall i :: 0 <= i < |h| ==> IsInner(h[i]) || h[i] == '.')
    && (forall i :: 0 < i < |h| - 1 ==> DotIsInner(h, i))
  }

  lemma CutOfHostname(h: string)
    requires IsHostname(h)
    ensures var c := Cut(h); 1 <= |c| <= MAX_HUMAN_ID_LEN && |c| <= |h| && c == h[..|c|] && c[|c| - 1] != '.'
    ensures TrimDot(h) == h && TrimDot(h + ".") == h
  {
    var c := Cut(h);
    assert |h| > MAX_HUMAN_ID_LEN ==> DotIsInner(h, MAX_HUMAN_ID_LEN - 1);
  }

  lemma DotHasOuterNeighbours(h: string, i: nat)
    requires IsHostname(h) && i < |h| && h[i] == '.'
    ensures 0 < i < |h| - 1 && IsOuter(h[i - 1]) && IsOuter(h[i + 1])
  {
    assert 0 < i < |h| - 1 && DotIsInner(h, i);
  }

  /** Three hyphens in a row of id, which is c dashed, were there before. */
  lemma DashedTripleWasThere(h: string, c: string, id: string, i: nat)
    requires IsHostname(h) && |c| <= |h| && c == h[..|c|] && |id| == |c|
    requires forall k :: 0 <= k < |id| ==> id[k] == if c[k] == '.' then '-' else c[k]
    requires TripleHyphenAt(id, i)
    ensures TripleHyphenAt(c, i)
  {
    assert !IsOuter(h[i]) && !IsOuter(h[i + 1]) && !IsOuter(h[i + 2]);
    if h[i] == '.' {
      DotHasOuterNeighbours(h, i);
    } else if h[i + 1] == '.' {
      DotHasOuterNeighbours(h, i + 1);
    } else if h[i + 2] == '.' {
      DotHasOuterNeighbours(h, i + 2);
    }
  }

  /** Dots never become part of three hyphens in a row. */
  lemma DashingKeepsTriples(h: string, c: string)
    requires IsHostname(h) && |c| <= |h| && c == h[..|c|]
    ensures HasTripleHyphen(Dashed(c, '.')) <==> HasTripleHyphen(c)
  {
    var id := Dashed(c, '.');
    if i: nat :| i < |c| && TripleHyphenAt(c, i) {
      assert TripleHyphenAt(id, i);
    } else if i: nat :| i < |id| && TripleHyphenAt(id, i) {
      DashedTripleWasThere(h, c, id, i);
      assert false;
    }
  }

  lemma DashingMakesLabel(h: string, c: string)
    requires IsHostname(h) && 1 <= |c| <= MAX_HUMAN_ID_LEN && |c| <= |h| && c == h[..|c|] && c[|c| - 1] != '.'
    ensures IsHostnameLabel(Dashed(c, '.')) <==> c[|c| - 1] != '-'
  {
    var id, last := Dashed(c, '.'), |c| - 1;
    forall i | 0 <= i < |id|
      ensures IsInner(id[i])
    {
      assert IsInner(h[i]) || h[i] == '.';
    }
    assert id[0] == h[0] && id[last] == c[last] == h[last];
  }

  /** The length at which a host name is cut: at a dot if the 50th character is one. */
  function CutLength(h: string): (n: nat)
    ensures n <= |h|
  {
    if |h| <= 50 then |h| else if h[49] == '.' then 49 else 50
  }

  /** What any name converts to: without one final dot, cut, and with hyphens for dots, if
      that is a human ID. */
  lemma FqdnToHumanIDIs(fqdn: string, id: string)
    ensures FqdnToHumanID(fqdn) == Success(id) <==>
            var n := |fqdn| - if fqdn != "" && fqdn[|fqdn| - 1] == '.' then 1 else 0;
            var domain := fqdn[..n];
            && |id| == CutLength(domain) && NewHumanID(id) == Success(id)
            && forall i :: 0 <= i < |id| ==> id[i] == if domain[i] == '.' then '-' else domain[i]
  {
    var domain := TrimDot(fqdn);
    assert Cut(fqdn) == domain[..CutLength(domain)];
    var dashed := Dashed(Cut(fqdn), '.');
    assert |id| == |dashed| && (forall i :: 0 <= i < |id| ==> id[i] == dashed[i]) ==> id == dashed;
  }

  /** A host name, with or without the final dot, converts exactly when truncation
      leaves no hyphen at the end and no three in a row; then the dots are hyphens. */
  lemma HostnameConvertsIff(h: string, fqdn: string)
    requires IsHostname(h) && (fqdn == h || fqdn == h + ".")
    ensures CutLength(h) > 0
    ensures FqdnToHumanID(fqdn).Success? <==>
            var n := CutLength(h);
            h[n - 1] != '-' && !(exists a: string, b: string :: h[..n] == a + "---" + b)
    ensures FqdnToHumanID(fqdn).Success? ==>
              var id := FqdnToHumanID(fqdn).value;
              && |id| == CutLength(h)
              && forall i :: 0 <= i < |id| ==> id[i] == if h[i] == '.' then '-' else h[i]
  {
    CutOfHostname(h);
    assert Cut(fqdn) == Cut(h) == h[..CutLength(h)];
    DashingKeepsTriples(h, Cut(h));
    DashingMakesLabel(h, Cut(h));
    TripleIsSubstring(Cut(h));
  }

  /** So truncation never spoils a hyphen-free host name of any length. */
  lemma HyphenFreeHostnameConverts(h: string, fqdn: string)
    requires IsHostname(h) && '-' !in h && (fqdn == h || fqdn == h + ".")
    ensures FqdnToHumanID(fqdn).Success? && |FqdnToHumanID(fqdn).value| == CutLength(h)
  {
    HostnameConvertsIff(h, fqdn);
    TripleIsSubstring(h[..CutLength(h)]);
    assert forall i :: 0 <= i < |h| ==> h[i] in h;
  }

  /** Not every host name converts: the cut can end on a hyphen. */
  lemma CutCanEndOnHyphen(a: string)
    requires |a| == 49 && forall i :: 0 <= i < |a| ==> IsOuter(a[i])
    ensures IsHostname(a + "-b") && FqdnToHumanID(a + "-b") == Failure(BadLabel)
  {
    var h := a + "-b";
    assert TrimDot(h) == h;
    assert Cut(h) == a + "-";
    assert Dashed(Cut(h), '.')[49] == '-';
  }

  // ---- Extended IDs ----

  const DEVICE_TYPES := {"adr", "gam", "ios", "lnx", "mac", "otr", "rtr", "stv", "win"}

  function NewDeviceType(s: string): Result<string, IdError> {
    if s in DEVICE_TYPES then Success(s) else Failure(BadType)
  }

  predicate IsDeviceType(s: string) {
    || s == "adr" || s == "gam" || s == "ios" || s == "lnx" || s == "mac"
    || s == "otr" || s == "rtr" || s == "stv" || s == "win"
  }

  function NewProfileID(s: string): Result<string, IdError> {
    if |s| != PROFILE_ID_LEN then Failure(BadLength)
    else if exists i :: 0 <= i < |s| && !('!' <= s[i] <= '~') then Failure(BadCharacter)
    else if !IsHostnameLabel(s) then Failure(BadLabel)
    else Success(s)
  }

  /** What a profile ID is: eight letters, digits and inner hyphens. */
  predicate IsProfileID(s: string) {
    && |s| == 8 && s[0] != '-' && s[7] != '-'
    && forall c :: c in s ==> 'a' <= c <= 'z' || 'A' <= c <= 'Z' || '0' <= c <= '9' || c == '-'
  }

  lemma ProfileIDsAre(s: string)
    ensures NewProfileID(s).Success? <==> IsProfileID(s)
    ensures NewProfileID(s).Success? ==> NewProfileID(s).value == s
  {
    assert forall i :: 0 <= i < |s| ==> s[i] in s;
  }

  predicate IsHumanID(s: string) {
    NewHumanID(s).Success?
  }

  function ExtendedID(deviceType: string, profile: string, id: string): string {
    deviceType + "-" + profile + "-" + id
  }

  lemma DeviceTypesAreLabels(s: string)
    requires IsDeviceType(s)
    ensures |s| == DEVICE_TYPE_LEN && forall i :: 0 <= i < |s| ==> IsOuter(s[i])
  {
  }

  /** Of valid parts the extended ID is a host name label, within 63 octets. */
  lemma ExtendedIDIsLabel(deviceType: string, profile: string, id: string)
    requires IsDeviceType(deviceType) && IsProfileID(profile) && IsHumanID(id)
    ensures IsHostnameLabel(ExtendedID(deviceType, profile, id))
    ensures |ExtendedID(deviceType, profile, id)| == MAX_LABEL_LEN <==> |id| == MAX_HUMAN_ID_LEN
  {
    DeviceTypesAreLabels(deviceType);
    ProfileIDsAre(profile);
    var ext := ExtendedID(deviceType, profile, id);
    assert ext[|ext| - 1] == id[|id| - 1];
    forall i | 0 <= i < |ext|
      ensures IsInner(ext[i])
    {
      if 4 <= i < 12 {
        assert ext[i] == profile[i - 4];
      } else if i > 12 {
        assert ext[i] == id[i - 13];
      }
    }
  }

  /** The parts can be read back, hyphens in the profile and human ID or not. */
  lemma ExtendedIDIsUnique(d1: string, p1: string, id1: string, d2: string, p2: string, id2: string)
    requires IsDeviceType(d1) && IsProfileID(p1) && IsDeviceType(d2) && IsProfileID(p2)
    requires ExtendedID(d1, p1, id1) == ExtendedID(d2, p2, id2)
    ensures d1 == d2 && p1 == p2 && id1 == id2
  {
    DeviceTypesAreLabels(d1);
    DeviceTypesAreLabels(d2);
    var e1, e2 := ExtendedID(d1, p1, id1), ExtendedID(d2, p2, id2);
    assert d1 == e1[..3] && d2 == e2[..3];
    assert p1 == e1[4..12] && p2 == e2[4..12];
    assert id1 == e1[13..] && id2 == e2[13..];
  }

  /** An upstream template, its path as the list of its elements. */
  datatype Url = Url(scheme: string, host: string, path: seq<string>)

  /** strings.ToLower, of ASCII. */
  function ToLower(s: string): (r: string)
    ensures |r| == |s|
    ensures forall i :: 0 <= i < |s| ==>
      r[i] == if 'A' <= s[i] <= 'Z' then (s[i] as int + 32) as char else s[i]
  {
    if s == "" then "" else [if 'A' <= s[0] <= 'Z' then s[0] - 'A' + 'a' else s[0]] + ToLower(s[1..])
  }

  /** The letters c and d differ at most in case. */
  predicate SameLetter(c: char, d: char) {
    || c == d
    || ('A' <= c <= 'Z' && d as int == c as int + 32)
    || ('A' <= d <= 'Z' && c as int == d as int + 32)
  }

  /** The strings differ at most in letter case. */
  predicate EqualFold(s: string, t: string) {
    |s| == |t| && forall i :: 0 <= i < |s| ==> SameLetter(s[i], t[i])
  }

  lemma LowerLetter(c: char, d: char, l: char, m: char)
    requires l == if 'A' <= c <= 'Z' then (c as int + 32) as char else c
    requires m == if 'A' <= d <= 'Z' then (d as int + 32) as char else d
    ensures l == m <==> SameLetter(c, d)
    ensures !('A' <= l <= 'Z') && SameLetter(c, l)
  {
  }

  lemma LowerLetters(s: string, t: string, l: string, m: string)
    requires |l| == |s| && |m| == |t|
    requires forall i :: 0 <= i < |s| ==> l[i] == if 'A' <= s[i] <= 'Z' then (s[i] as int + 32) as char else s[i]
    requires forall i :: 0 <= i < |t| ==> m[i] == if 'A' <= t[i] <= 'Z' then (t[i] as int + 32) as char else t[i]
    ensures l == m <==> EqualFold(s, t)
  {
    if |s| == |t| {
      forall i | 0 <= i < |s|
        ensures l[i] == m[i] <==> SameLetter(s[i], t[i])
      {
        LowerLetter(s[i], t[i], l[i], m[i]);
      }
    }
  }

  /** Lowercasing keeps a string up to case, leaves no capitals, and makes two strings
      equal exactly if they differ at most in case. */
  lemma LowerIsFold(s: string, t: string)
    ensures ToLower(s) == ToLower(t) <==> EqualFold(s, t)
    ensures EqualFold(s, ToLower(s)) && forall c :: c in ToLower(s) ==> !('A' <= c <= 'Z')
  {
    LowerLetters(s, t, ToLower(s), ToLower(t));
    var l := ToLower(s);
    forall i | 0 <= i < |s|
      ensures SameLetter(s[i], l[i]) && !('A' <= l[i] <= 'Z')
    {
      LowerLetter(s[i], s[i], l[i], l[i]);
    }
  }

  /** upstreamURL: the extended ID is a path element for DNS-over-HTTPS and a label
      of the host for DNS-over-QUIC and DNS-over-TLS. */
  function UpstreamURL(template: Url, deviceType: string, profile: string, id: string): Option<Url> {
    var extID := ExtendedID(deviceType, profile, id);
    if ToLower(template.scheme) == "https" then
      Some(template.(path := template.path + [extID]))
    else if ToLower(template.scheme) == "quic" || ToLower(template.scheme) == "tls" then
      Some(template.(host := extID + "." + template.host))
    else
      None
  }

  /** Clients built from one template share an upstream address only if they share
      device type, profile and human ID. */
  lemma UpstreamURLIsUnique(t: Url, d1: string, p1: string, id1: string, d2: string, p2: string, id2: string)
    requires IsDeviceType(d1) && IsProfileID(p1) && IsDeviceType(d2) && IsProfileID(p2)
    requires UpstreamURL(t, d1, p1, id1).Some?
    requires UpstreamURL(t, d1, p1, id1) == UpstreamURL(t, d2, p2, id2)
    ensures d1 == d2 && p1 == p2 && id1 == id2
  {
    var e1, e2 := ExtendedID(d1, p1, id1), ExtendedID(d2, p2, id2);
    if ToLower(t.scheme) == "https" {
      assert (t.path + [e1])[|t.path|] == (t.path + [e2])[|t.path|];
    } else {
      var h1, h2 := e1 + "." + t.host, e2 + "." + t.host;
      assert |e1| == |h1| - |t.host| - 1 == |e2|;
      assert e1 == h1[..|e1|] && e2 == h2[..|e2|];
    }
    ExtendedIDIsUnique(d1, p1, id1, d2, p2, id2);
  }

  /** The three parts of an extended ID in their places. */
  predicate HasParts(s: string, deviceType: string, profile: string, id: string) {
    && |s| == 13 + |id|
    && s[..3] == deviceType && s[3] == '-' && s[4..12] == profile && s[12] == '-' && s[13..] == id
  }

  /** The address of a device, by the template's scheme in any letter case: for https
      the path gets one more element, for tls and quic the host one more first label,
      which is the device type, the profile and the human ID in this order; the rest is
      the template's. */
  lemma UpstreamURLIs(t: Url, deviceType: string, profile: string, id: string)
    requires IsDeviceType(deviceType) && IsProfileID(profile) && IsHumanID(id)
    ensures var u := UpstreamURL(t, deviceType, profile, id);
      var n := 13 + |id|;
      if EqualFold(t.scheme, "https") then
        && u.Some? && u.value.scheme == t.scheme && u.value.host == t.host
        && |u.value.path| == |t.path| + 1 && u.value.path[..|t.path|] == t.path
        && HasParts(u.value.path[|t.path|], deviceType, profile, id)
      else if EqualFold(t.scheme, "tls") || EqualFold(t.scheme, "quic") then
        && u.Some? && u.value.scheme == t.scheme && u.value.path == t.path
        && |u.value.host| == n + 1 + |t.host|
        && HasParts(u.value.host[..n], deviceType, profile, id) && '.' !in u.value.host[..n]
        && u.value.host[n] == '.' && u.value.host[n + 1..] == t.host
      else u.None?
  {
    LowerEqualsIff(t.scheme, "https");
    LowerEqualsIff(t.scheme, "tls");
    LowerEqualsIff(t.scheme, "quic");
    ExtendedIDHasParts(deviceType, profile, id);
    var ext := ExtendedID(deviceType, profile, id);
    var host := ext + "." + t.host;
    assert host[..|ext|] == ext && host[|ext|] == '.' && host[|ext| + 1..] == t.host;
  }

  lemma ExtendedIDHasParts(deviceType: string, profile: string, id: string)
    requires IsDeviceType(deviceType) && IsProfileID(profile) && IsHumanID(id)
    ensures var ext := ExtendedID(deviceType, profile, id);
      HasParts(ext, deviceType, profile, id) && '.' !in ext
  {
    DeviceTypesAreLabels(deviceType);
    ExtendedIDIsLabel(deviceType, profile, id);
  }

  lemma LowerEqualsIff(s: string, t: string)
    requires forall c :: c in t ==> 'a' <= c <= 'z'
    ensures ToLower(s) == t <==> EqualFold(s, t)
  {
    LowerIsFold(s, t);
    LowercaseStays(t);
  }

  lemma LowercaseStays(s: string)
    requires forall c :: c in s ==> 'a' <= c <= 'z'
    ensures ToLower(s) == s
  {
    var l := ToLower(s);
    forall i | 0 <= i < |s|
      ensures l[i] == s[i]
    {
      assert s[i] in s;
    }
  }
}
