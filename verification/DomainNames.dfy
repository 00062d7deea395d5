/** Domain names as the lookup index sees them: the label-wise comparison of
    compareDomains, and the parent relation behind matchesDomain. */
module DomainNames {
  import opened Orders

  /** Configured and question domains are non-FQDNs without empty labels; the
      results below only need the first label to be non-empty. */
  predicate NonFqdn(d: string) {
    d == "" || d[0] != '.'
  }

  /** strings.LastIndexByte. */
  function LastIndexByte(s: string, c: char): (r: int)
    ensures -1 <= r < |s|
    ensures r >= 0 ==> s[r] == c
    ensures forall k :: r < k < |s| ==> s[k] != c
  {
    if s == "" then -1
    else if s[|s| - 1] == c then |s| - 1
    else LastIndexByte(s[..|s| - 1], c)
  }

  function DropLastLabel(s: string): (r: string)
    requires s != ""
    ensures |r| < |s|
  {
    var i := LastIndexByte(s, '.');
    s[..if i < 0 then 0 else i]
  }

  function LastLabel(s: string): string {
    s[LastIndexByte(s, '.') + 1..]
  }

  /** The labels of s from right to left. */
  function Labels(s: string): seq<string> {
    if s == "" then [] else [LastLabel(s)] + Labels(DropLastLabel(s))
  }

  /** The order compareDomains refines: reversed label lists, lexicographically,
      with the end of the name greater than any label. */
  function CompareDomains(a: string, b: string): int {
    Lex(CompareStrings, 1, Labels(a), Labels(b))
  }

  /** compareDomains itself: strips equal last labels off both names until one
      is used up or the labels differ. */
  method CompareDomainsLoop(a0: string, b0: string) returns (res: int)
    ensures res == CompareDomains(a0, b0)
  {
    var a, b := a0, b0;
    while true
      invariant CompareDomains(a, b) == CompareDomains(a0, b0)
      decreases |a|
    {
      if a == "" {
        if b == "" {
          return 0;
        }
        return 1;
      } else if b == "" {
        return -1;
      }
      var aLastDot := LastIndexByte(a, '.');
      var bLastDot := LastIndexByte(b, '.');
      StringsAreOrdered();
      res := CompareStrings(a[aLastDot + 1..], b[bLastDot + 1..]);
      if res != 0 {
        return res;
      }
      a := a[..if aLastDot < 0 then 0 else aLastDot];
      b := b[..if bLastDot < 0 then 0 else bLastDot];
    }
  }

  /** A name without the one leading dot that the labels do not show. */
  function Undot(s: string): string {
    if |s| >= 2 && s[0] == '.' && s[1] != '.' then s[1..] else s
  }

  /** Inverse of Labels on the names that Undot leaves alone. */
  function JoinLabels(ls: seq<string>): string {
    if ls == [] then ""
    else if |ls| == 1 then (if ls[0] == "" then "." else ls[0])
    else JoinLabels(ls[1..]) + "." + ls[0]
  }

  /** One step of the loop, seen from a name split at its last dot. */
  lemma LabelsOfSplit(p: string, l: string)
    requires '.' !in l
    ensures Labels(p + "." + l) == [l] + Labels(p)
  {
    var s := p + "." + l;
    assert s[|p|] == '.';
    assert forall k :: |p| < k < |s| ==> s[k] in l;
    assert LastIndexByte(s, '.') == |p|;
    assert s[..|p|] == p && s[|p| + 1..] == l;
  }

  lemma LabelsOfSingle(l: string)
    requires '.' !in l && l != ""
    ensures Labels(l) == [l]
  {
    var i := LastIndexByte(l, '.');
    assert i == -1;
    assert l[i + 1..] == l && l[..0] == "";
  }

  lemma JoinStep(s: string, p: string, l: string)
    requires s == p + "." + l && '.' !in l && Labels(p) != []
    ensures Labels(s) != [] && JoinLabels(Labels(s)) == JoinLabels(Labels(p)) + "." + l
  {
    LabelsOfSplit(p, l);
    assert ([l] + Labels(p))[1..] == Labels(p);
  }

  lemma JoinOfLabel(s: string)
    requires s == "." || (s != "" && '.' !in s)
    ensures Labels(s) != [] && JoinLabels(Labels(s)) == s
  {
    if s == "." {
      LabelsOfSplit("", "");
      assert "" + "." + "" == s;
    } else {
      LabelsOfSingle(s);
    }
  }

  /** What comes before the last dot, and after it. */
  lemma SplitUndotted(s: string) returns (p: string, l: string)
    requires Undot(s) == s && '.' in s && s != "."
    ensures s == p + "." + l && '.' !in l && p != "" && Undot(p) == p
  {
    var i := LastIndexByte(s, '.');
    p, l := s[..i], s[i + 1..];
    assert |s| >= 2 && s[0] == '.' && s[1] != '.' ==> |Undot(s)| < |s|;
    assert i >= 2 ==> p[0] == s[0] && p[1] == s[1];
  }

  lemma {:induction false} JoinOfLabels(s: string)
    requires Undot(s) == s
    ensures JoinLabels(Labels(s)) == s
    ensures s != "" ==> Labels(s) != []
    decreases |s|
  {
    if s == "" {
    } else if s == "." || '.' !in s {
      JoinOfLabel(s);
    } else {
      var p, l := SplitUndotted(s);
      JoinOfLabels(p);
      JoinStep(s, p, l);
    }
  }

  lemma {:induction false} LabelsOfUndotted(s: string)
    ensures Labels(Undot(s)) == Labels(s)
    decreases |s|
  {
    if Undot(s) != s {
      var i := LastIndexByte(s, '.');
      var t, l := s[1..], s[i + 1..];
      if i == 0 {
        assert t == l && Labels(s) == [l] + Labels("");
        LabelsOfSingle(l);
      } else {
        var p := s[..i];
        assert s == p + "." + l && t == p[1..] + "." + l;
        LabelsOfSplit(p, l);
        LabelsOfSplit(p[1..], l);
        assert Undot(p) == p[1..];
        LabelsOfUndotted(p);
      }
    }
  }

  /** compareDomains is a total preorder on all strings and, on non-FQDNs, 0 only
      on equal names. */
  lemma CompareDomainsIsTotal(a: string, b: string, c: string)
    ensures NonFqdn(a) && NonFqdn(b) ==> (CompareDomains(a, b) == 0 <==> a == b)
    ensures CompareDomains(a, b) < 0 <==> CompareDomains(b, a) > 0
    ensures CompareDomains(a, b) <= 0 && CompareDomains(b, c) <= 0 ==> CompareDomains(a, c) <= 0
  {
    StringsAreOrdered();
    LexZero(CompareStrings, 1, Labels(a), Labels(b));
    LexZero(CompareStrings, 1, Labels(b), Labels(c));
    if NonFqdn(a) && NonFqdn(b) {
      JoinOfLabels(a);
      JoinOfLabels(b);
    }
    LexAntisymmetric(CompareStrings, 1, Labels(a), Labels(b));
    if CompareDomains(a, b) < 0 && CompareDomains(b, c) < 0 {
      LexTransitive(CompareStrings, 1, Labels(a), Labels(b), Labels(c));
    }
  }

  /** Two names compare equal exactly if they differ at most in one leading dot with a
      label after it. */
  lemma EqualUpToLeadingDot(a: string, b: string)
    ensures CompareDomains(a, b) == 0 <==> Undot(a) == Undot(b)
  {
    StringsAreOrdered();
    LexZero(CompareStrings, 1, Labels(a), Labels(b));
    LabelsOfUndotted(a);
    LabelsOfUndotted(b);
    JoinOfLabels(Undot(a));
    JoinOfLabels(Undot(b));
  }

  /** netutil.IsSubdomain: longer, with the suffix, and a dot before it. */
  predicate IsSubdomain(q: string, d: string) {
    |q| > |d| && q[|q| - |d|..] == d && q[|q| - |d| - 1] == '.'
  }

  predicate MatchesDomain(q: string, d: string) {
    d == "" || q == d || IsSubdomain(q, d)
  }

  lemma SplitAtLastDot(d: string) returns (p: string, l: string)
    requires NonFqdn(d) && '.' in d
    ensures d == p + "." + l && '.' !in l && p != "" && NonFqdn(p)
  {
    var i := LastIndexByte(d, '.');
    p, l := d[..i], d[i + 1..];
  }

  lemma {:induction false} LabelsOfSubdomain(u: string, d: string, s: string)
    requires d != "" && NonFqdn(d) && s == u + "." + d
    ensures Labels(s) == Labels(d) + Labels(u)
    decreases |d|
  {
    if '.' !in d {
      LabelsOfSplit(u, d);
      LabelsOfSingle(d);
    } else {
      var p, l := SplitAtLastDot(d);
      var up := u + "." + p;
      LabelsOfSubdomain(u, p, up);
      SubdomainStep(u, p, l, d, up, s);
      Associate(l, Labels(p), Labels(u));
    }
  }

  lemma Associate(l: string, a: seq<string>, b: seq<string>)
    ensures [l] + (a + b) == ([l] + a) + b
  {
  }

  lemma Regroup(u: string, p: string, l: string, dot: string)
    ensures u + dot + (p + dot + l) == (u + dot + p) + dot + l
  {
  }

  lemma SubdomainStep(u: string, p: string, l: string, d: string, up: string, s: string)
    requires '.' !in l && d == p + "." + l && up == u + "." + p && s == u + "." + d
    ensures Labels(s) == [l] + Labels(up) && Labels(d) == [l] + Labels(p)
  {
    Regroup(u, p, l, ".");
    LabelsOfSplit(up, l);
    LabelsOfSplit(p, l);
  }

  /** Every strict subdomain sorts before its parent, the empty domain included. */
  lemma SubdomainSortsFirst(q: string, d: string)
    requires NonFqdn(q) && NonFqdn(d) && MatchesDomain(q, d) && q != d
    ensures CompareDomains(q, d) < 0
  {
    StringsAreOrdered();
    if d == "" {
      LexExtension(CompareStrings, 1, [], Labels(q));
      assert [] + Labels(q) == Labels(q);
    } else {
      var u := q[..|q| - |d| - 1];
      assert q == u + "." + d;
      LabelsOfSubdomain(u, d, q);
      assert u != "" by { assert q[0] != '.'; }
      LexExtension(CompareStrings, 1, Labels(d), Labels(u));
    }
  }

  /** Two domains that match one question are nested. */
  lemma MatchesAreNested(q: string, d: string, e: string)
    requires MatchesDomain(q, d) && MatchesDomain(q, e) && |d| <= |e|
    ensures MatchesDomain(e, d)
    ensures |d| == |e| ==> d == e
  {
    if d != "" && d != e {
      var k := |q| - |d|;
      assert q[|q| - |e|..] == e;
      assert e[|e| - |d|..] == q[k..] == d;
      if |e| > |d| {
        assert e[|e| - |d| - 1] == q[k - 1];
      }
    }
  }

  lemma MatchesTransitively(q: string, e: string, d: string)
    requires MatchesDomain(q, e) && MatchesDomain(e, d)
    ensures MatchesDomain(q, d)
  {
    if d != "" && q != e && e != d {
      assert q[|q| - |e|..] == e && e[|e| - |d|..] == d;
      assert q[|q| - |d|..] == d;
      assert q[|q| - |d| - 1] == e[|e| - |d| - 1];
    }
  }

  // ---- What matching means ----

  lemma SubdomainMatches(u: string, d: string)
    ensures MatchesDomain(u + "." + d, d)
  {
    var s := u + "." + d;
    assert s[|u| + 1..] == d && s[|u|] == '.';
  }

  lemma LongerSuffix(r: string, p: string, l: string)
    requires p != "" && MatchesDomain(r, p)
    ensures MatchesDomain(r + "." + l, p + "." + l)
  {
    if r != p {
      var u := r[..|r| - |p| - 1];
      assert r == u + "." + p;
      Regroup(u, p, l, ".");
      SubdomainMatches(u, p + "." + l);
    }
  }

  /** A name with at least two labels, split before its last one. */
  lemma SplitLastLabel(s: string) returns (p: string, l: string)
    requires NonFqdn(s) && |Labels(s)| >= 2
    ensures s == p + "." + l && p != "" && NonFqdn(p) && Labels(s) == [l] + Labels(p)
  {
    if '.' !in s {
      LabelsOfSingle(s);
      assert false;
    }
    p, l := SplitAtLastDot(s);
    LabelsOfSplit(p, l);
  }

  lemma NoLabels(s: string)
    ensures Labels(s) == [] <==> s == ""
  {
  }

  /** A question matches a domain exactly if the labels of the domain, from the right,
      lead its own. */
  lemma MatchesIffLabels(q: string, d: string)
    requires (q != "" ==> q[0] != '.') && (d != "" ==> d[0] != '.')
    ensures MatchesDomain(q, d) <==> Labels(d) <= Labels(q)
  {
    if d != "" && q != d && IsSubdomain(q, d) {
      var u := q[..|q| - |d| - 1];
      assert q == u + "." + d;
      LabelsOfSubdomain(u, d, q);
    } else if Labels(d) <= Labels(q) {
      LabelsLeadBack(q, d);
    }
  }

  lemma LedRest<T>(a: seq<T>, b: seq<T>, x: T, s: seq<T>, y: T, t: seq<T>)
    requires a <= b && a == [x] + s && b == [y] + t
    ensures x == y && s <= t
  {
    assert a[0] == b[0] && a[1..] == s && b[1..] == t;
  }

  /** A name whose only label ends the question. */
  lemma LastLabelMatches(q: string, d: string)
    requires NonFqdn(q) && NonFqdn(d) && |Labels(d)| == 1 && |Labels(q)| >= 2 && Labels(d)[0] == Labels(q)[0]
    ensures MatchesDomain(q, d)
  {
    var r, l := SplitLastLabel(q);
    assert Labels(d) == [l];
    JoinOfLabels(d);
    assert d == JoinLabels([l]) == l;
    SubdomainMatches(r, d);
  }

  lemma {:induction false} LabelsLeadBack(q: string, d: string)
    requires NonFqdn(q) && NonFqdn(d) && Labels(d) <= Labels(q)
    ensures MatchesDomain(q, d)
    decreases |d|
  {
    NoLabels(d);
    if d == "" {
    } else if |Labels(q)| == 1 {
      assert Labels(d) == Labels(q);
      JoinOfLabels(d);
      JoinOfLabels(q);
    } else if |Labels(d)| == 1 {
      LastLabelMatches(q, d);
    } else {
      var r, l := SplitLastLabel(q);
      var p, k := SplitLastLabel(d);
      LedRest(Labels(d), Labels(q), k, Labels(p), l, Labels(r));
      LabelsLeadBack(r, p);
      LongerSuffix(r, p, l);
    }
  }

  lemma SamePartsSameName(d: string, e: string)
    requires d != "" && e != "" && |d| == |e|
    requires LastLabel(d) == LastLabel(e) && DropLastLabel(d) == DropLastLabel(e)
    ensures d == e
  {
    var i := LastIndexByte(d, '.');
    assert LastIndexByte(e, '.') == i;
    assert d == d[..i + 1] + LastLabel(d) && e == e[..i + 1] + LastLabel(e);
    assert i >= 0 ==> d[..i + 1] == d[..i] + "." && e[..i + 1] == e[..i] + ".";
  }

  /** Of two names of one length the labels of one lead the other's only if the names
      are equal. */
  lemma {:induction false} SameLengthSameName(d: string, e: string)
    requires |d| == |e| && Labels(d) <= Labels(e)
    ensures d == e
    decreases |d|
  {
    if d != "" {
      LedRest(Labels(d), Labels(e), LastLabel(d), Labels(DropLastLabel(d)), LastLabel(e), Labels(DropLastLabel(e)));
      assert |d| - |LastLabel(d)| - 1 == LastIndexByte(d, '.') == LastIndexByte(e, '.');
      SameLengthSameName(DropLastLabel(d), DropLastLabel(e));
      SamePartsSameName(d, e);
    }
  }

  lemma BothLead<T>(a: seq<T>, b: seq<T>, s: seq<T>)
    requires a <= s && b <= s && |a| <= |b|
    ensures a <= b
  {
  }

  /** Of the names that cover a question, there is one of each length. */
  lemma CoveringIsUnique(q: string, d: string, e: string)
    requires Labels(d) <= Labels(q) && Labels(e) <= Labels(q) && |d| == |e|
    ensures d == e
  {
    if |Labels(d)| <= |Labels(e)| {
      BothLead(Labels(d), Labels(e), Labels(q));
      SameLengthSameName(d, e);
    } else {
      BothLead(Labels(e), Labels(d), Labels(q));
      SameLengthSameName(e, d);
    }
  }
}
