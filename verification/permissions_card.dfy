/** The permission list of `src/amo/components/PermissionsCard/index.js`:
    the permissions of the add-on's file for the user's platform are split
    into regular and host permissions, host patterns are reduced to
    all-URLs, wildcard-domain and site items (long lists collapsed), and
    the list is laid out as host items, then `nativeMessaging`, then the
    other known permissions in sorted order.

    Display texts come from i18n and are not modelled: an item carries
    what the text is made from. */
module PermissionsCard {
  import opened Wrappers
  import opened Text
  import opened AddonTypes

  // ---------------------------------------------------------------------
  // Regular permissions: /^(\w+)(?:\.(\w+)(?:\.\w+)*)?$/
  // ---------------------------------------------------------------------

  /** `\w`: an ASCII letter, digit or underscore. */
  predicate IsWordChar(c: char) {
    ('a' <= c <= 'z') || ('A' <= c <= 'Z') || ('0' <= c <= '9') || c == '_'
  }

  /** Length of the longest prefix of `s` made of word characters. */
  function WordRun(s: string): (k: nat)
    ensures k <= |s|
    ensures forall i :: 0 <= i < k ==> IsWordChar(s[i])
    ensures k < |s| ==> !IsWordChar(s[k])
  {
    if s == [] || !IsWordChar(s[0]) then 0 else 1 + WordRun(s[1..])
  }

  /** The regular-permission pattern as the regular expression reads it:
      a run of word characters, then either the end or a dot followed by
      the pattern again. Greedy `\w+` cannot backtrack into a dot, so this
      is the only way the expression can match. */
  predicate IsRegularPermission(s: string)
    decreases |s|
  {
    var k := WordRun(s);
    k >= 1 && (k == |s| || (s[k] == '.' && IsRegularPermission(s[k + 1..])))
  }

  /** Reference reading of "word(.word)*": non-empty, only word characters
      and dots, no dot at either end and no two dots in a row. */
  predicate IsDotSeparatedWords(s: string) {
    && |s| > 0 && s[0] != '.' && s[|s| - 1] != '.'
    && (forall i :: 0 <= i < |s| ==> IsWordChar(s[i]) || s[i] == '.')
    && (forall i :: 0 < i < |s| ==> !DoubleDotAt(s, i))
  }

  /** Characters `i - 1` and `i` of `s` are both dots. */
  predicate DoubleDotAt(s: string, i: int) {
    0 < i < |s| && s[i - 1] == '.' && s[i] == '.'
  }

  lemma {:induction false} RegularPermissionIsDotSeparatedWords(s: string)
    ensures IsRegularPermission(s) <==> IsDotSeparatedWords(s)
    decreases |s|
  {
    var k := WordRun(s);
    if k == 0 {
      if |s| > 0 {
        assert !IsWordChar(s[0]);
      }
    } else if k == |s| {
      assert forall i :: 0 <= i < |s| ==> IsWordChar(s[i]);
    } else if s[k] != '.' {
      assert !IsWordChar(s[k]);
    } else {
      RegularPermissionIsDotSeparatedWords(s[k + 1..]);
      DotSeparatedWordsAfterFirstDot(s, k);
    }
  }

  /** After a leading word and a dot, the rest must itself be dot-separated
      words. */
  lemma DotSeparatedWordsAfterFirstDot(s: string, k: nat)
    requires 1 <= k < |s| && s[k] == '.'
    requires forall i :: 0 <= i < k ==> IsWordChar(s[i])
    ensures IsDotSeparatedWords(s) <==> IsDotSeparatedWords(s[k + 1..])
  {
    var t := s[k + 1..];
    assert forall i :: 0 <= i < |t| ==> t[i] == s[k + 1 + i];
    if IsDotSeparatedWords(t) {
      assert s[|s| - 1] == t[|t| - 1];
      forall i ensures !DoubleDotAt(s, i) {
        if k + 1 < i < |s| {
          assert !DoubleDotAt(t, i - k - 1);
          assert s[i - 1] == t[i - k - 2] && s[i] == t[i - k - 1];
        }
      }
    }
    if IsDotSeparatedWords(s) {
      assert |t| > 0 by {
        assert s[|s| - 1] != '.';
      }
      assert t[0] != '.' by {
        assert !DoubleDotAt(s, k + 1);
      }
      forall i ensures !DoubleDotAt(t, i) {
        if 0 < i < |t| {
          assert !DoubleDotAt(s, k + 1 + i);
          assert t[i - 1] == s[k + i] && t[i] == s[k + 1 + i];
        }
      }
      assert t[|t| - 1] == s[|s| - 1];
    }
  }

  datatype PermissionKind = Permissions | Hosts

  /** `classifyPermission`: a regular permission, or else a host one. */
  function ClassifyPermission(permission: string): (kind: PermissionKind)
    ensures kind == Permissions <==> IsDotSeparatedWords(permission)
  {
    RegularPermissionIsDotSeparatedWords(permission);
    if IsRegularPermission(permission) then Permissions else Hosts
  }

  /** The first loop of `formatPermissionStrings`: regular and host
      permissions, each in input order. */
  function Partition(permissions: seq<string>): (r: (seq<string>, seq<string>))
    ensures forall p :: p in r.0 ==> ClassifyPermission(p) == Permissions
    ensures forall p :: p in r.1 ==> ClassifyPermission(p) == Hosts
    ensures multiset(r.0) + multiset(r.1) == multiset(permissions)
  {
    PartitionLoopSplits(permissions);
    PartitionLoop(permissions)
  }

  /** The loop itself, one permission at a time. */
  function PartitionLoop(permissions: seq<string>): (seq<string>, seq<string>) {
    if permissions == [] then ([], [])
    else
      var rest := PartitionLoop(permissions[1..]);
      if ClassifyPermission(permissions[0]) == Permissions then ([permissions[0]] + rest.0, rest.1)
      else (rest.0, [permissions[0]] + rest.1)
  }

  lemma {:induction false} PartitionLoopSplits(permissions: seq<string>)
    ensures var r := PartitionLoop(permissions);
            && (forall p :: p in r.0 ==> ClassifyPermission(p) == Permissions)
            && (forall p :: p in r.1 ==> ClassifyPermission(p) == Hosts)
            && multiset(r.0) + multiset(r.1) == multiset(permissions)
    decreases |permissions|
  {
    if permissions != [] {
      PartitionLoopSplits(permissions[1..]);
      assert permissions == [permissions[0]] + permissions[1..];
    }
  }

  /** The first loop keeps each part in input order: partitioning a
      concatenation concatenates the parts. */
  lemma PartitionKeepsOrder(a: seq<string>, b: seq<string>)
    ensures Partition(a + b) == (Partition(a).0 + Partition(b).0, Partition(a).1 + Partition(b).1)
  {
    PartitionLoopKeepsOrder(a, b);
  }

  lemma {:induction false} PartitionLoopKeepsOrder(a: seq<string>, b: seq<string>)
    ensures PartitionLoop(a + b) == (PartitionLoop(a).0 + PartitionLoop(b).0, PartitionLoop(a).1 + PartitionLoop(b).1)
    decreases |a|
  {
    if a == [] {
      assert a + b == b;
      var pb := PartitionLoop(b);
      assert PartitionLoop(a) == ([], []);
      assert [] + pb.0 == pb.0 && [] + pb.1 == pb.1;
    } else {
      var ab := a + b;
      assert ab[0] == a[0];
      assert ab[1..] == a[1..] + b;
      PartitionLoopKeepsOrder(a[1..], b);
      var rest := PartitionLoop(a[1..]);
      var pb := PartitionLoop(b);
      var both := PartitionLoop(ab[1..]);
      assert both == (rest.0 + pb.0, rest.1 + pb.1);
      if ClassifyPermission(a[0]) == Permissions {
        assert [a[0]] + rest.0 + pb.0 == [a[0]] + (rest.0 + pb.0);
      } else {
        assert [a[0]] + rest.1 + pb.1 == [a[0]] + (rest.1 + pb.1);
      }
    }
  }

  /** A single permission lands in the part its kind names. */
  lemma PartitionOfOne(p: string)
    ensures Partition([p]) == if ClassifyPermission(p) == Permissions then ([p], []) else ([], [p])
  {
    var one := [p];
    assert one[0] == p && one[1..] == [];
    assert PartitionLoop(one[1..]) == ([], []);
    assert [p] + [] == [p];
  }

  // ---------------------------------------------------------------------
  // Host permissions: /^[a-z*]+:\/\/([^/]+)\//
  // ---------------------------------------------------------------------

  predicate IsSchemeChar(c: char) {
    ('a' <= c <= 'z') || c == '*'
  }

  /** Length of the longest prefix of `s` made of scheme characters. */
  function SchemeRun(s: string): (k: nat)
    ensures k <= |s|
    ensures forall i :: 0 <= i < k ==> IsSchemeChar(s[i])
    ensures k < |s| ==> !IsSchemeChar(s[k])
  {
    if s == [] || !IsSchemeChar(s[0]) then 0 else 1 + SchemeRun(s[1..])
  }

  /** The first "/" at or after `from`. */
  function FirstSlash(s: string, from: nat): (r: Option<nat>)
    requires from <= |s|
    ensures r.Some? ==> from <= r.value < |s| && s[r.value] == '/'
                        && forall i :: from <= i < r.value ==> s[i] != '/'
    ensures r.None? ==> forall i :: from <= i < |s| ==> s[i] != '/'
    decreases |s| - from
  {
    if from == |s| then None
    else if s[from] == '/' then Some(from)
    else FirstSlash(s, from + 1)
  }

  /** The host the pattern captures: the scheme is the whole leading run
      of scheme characters, and the host runs up to the first "/" after
      "://", which must exist and not come right away. */
  function ParseHostPattern(s: string): (host: Option<string>)
  {
    var k := SchemeRun(s);
    if k >= 1 && k + 3 <= |s| && s[k..k + 3] == "://" then
      match FirstSlash(s, k + 3)
      case Some(j) => if j > k + 3 then Some(s[k + 3..j]) else None
      case None => None
    else None
  }

  /** Reference reading of the expression: the string is a scheme of one or
      more of [a-z*], then "://", then a host without "/", then "/". */
  ghost predicate HostPatternMatch(s: string, host: string) {
    exists k, j :: HostPatternMatchAt(s, host, k, j)
  }

  predicate HostPatternMatchAt(s: string, host: string, k: int, j: int) {
    && 1 <= k && k + 3 < j < |s|
    && (forall i :: 0 <= i < k ==> IsSchemeChar(s[i]))
    && s[k..k + 3] == "://"
    && (forall i :: k + 3 <= i < j ==> s[i] != '/')
    && s[j] == '/'
    && host == s[k + 3..j]
  }

  lemma ParseHostPatternIsTheMatch(s: string, host: string)
    ensures ParseHostPattern(s) == Some(host) <==> HostPatternMatch(s, host)
  {
    var k := SchemeRun(s);
    if ParseHostPattern(s) == Some(host) {
      var j := FirstSlash(s, k + 3).value;
      assert HostPatternMatchAt(s, host, k, j);
    }
    if HostPatternMatch(s, host) {
      var k', j' :| HostPatternMatchAt(s, host, k', j');
      assert s[k'] == ':';
      assert k' == k;
      assert FirstSlash(s, k + 3) == Some(j');
    }
  }

  /** How the host loop treats one host permission. */
  datatype HostClass =
    | AllUrlsBreak            // "<all_urls>": all URLs, and the loop stops
    | Ignored                 // moz-extension: or not a host pattern
    | AnyHost                 // host part "*": all URLs
    | WildcardHost(domain: string)
    | SiteHost(site: string)

  function ClassifyHost(permission: string): (c: HostClass)
    ensures c.AllUrlsBreak? <==> permission == "<all_urls>"
    ensures c.Ignored? <==> permission != "<all_urls>"
                            && (StartsWith(permission, "moz-extension:") || ParseHostPattern(permission).None?)
    ensures !c.AllUrlsBreak? && !c.Ignored? ==> ParseHostPattern(permission).Some?
    ensures c.AnyHost? ==> ParseHostPattern(permission) == Some("*")
    ensures c.WildcardHost? ==> ParseHostPattern(permission) == Some("*." + c.domain)
    ensures c.SiteHost? ==> ParseHostPattern(permission) == Some(c.site) && c.site != "*" && !StartsWith(c.site, "*.")
  {
    if permission == "<all_urls>" then AllUrlsBreak
    else if StartsWith(permission, "moz-extension:") then Ignored
    else match ParseHostPattern(permission)
      case None => Ignored
      case Some(host) =>
        if host == "*" then AnyHost
        else if StartsWith(host, "*.") then
          assert host == "*." + host[2..];
          WildcardHost(host[2..])
        else SiteHost(host)
  }

  /** A host permission that grants access to every URL. */
  predicate GrantsAllUrls(permission: string) {
    ClassifyHost(permission).AllUrlsBreak? || ClassifyHost(permission).AnyHost?
  }

  datatype HostSummary = HostSummary(allUrls: bool, wildcards: seq<string>, sites: seq<string>)

  /** The host loop. Front recursion gives the same lists as the loop: an
      "<all_urls>" stops collecting. */
  function SummarizeHosts(hosts: seq<string>): (r: HostSummary)
    ensures r.allUrls <==> exists i :: 0 <= i < |hosts| && GrantsAllUrls(hosts[i])
    ensures !r.allUrls ==> forall d :: d in r.wildcards <==> exists i :: 0 <= i < |hosts| && ClassifyHost(hosts[i]) == WildcardHost(d)
    ensures !r.allUrls ==> forall d :: d in r.sites <==> exists i :: 0 <= i < |hosts| && ClassifyHost(hosts[i]) == SiteHost(d)
  {
    if hosts == [] then HostSummary(false, [], [])
    else
      var rest := SummarizeHosts(hosts[1..]);
      assert forall i :: 0 < i < |hosts| ==> hosts[i] == hosts[1..][i - 1];
      match ClassifyHost(hosts[0])
      case AllUrlsBreak => HostSummary(true, [], [])
      case Ignored => rest
      case AnyHost => rest.(allUrls := true)
      case WildcardHost(d) => rest.(wildcards := [d] + rest.wildcards)
      case SiteHost(s) => rest.(sites := [s] + rest.sites)
  }

  /** The host loop keeps wildcard domains and sites in input order: up to
      the first "<all_urls>", summarizing a concatenation concatenates the
      lists. */
  lemma {:induction false} SummarizeHostsKeepsOrder(a: seq<string>, b: seq<string>)
    requires forall i :: 0 <= i < |a| ==> ClassifyHost(a[i]) != AllUrlsBreak
    ensures SummarizeHosts(a + b).allUrls == (SummarizeHosts(a).allUrls || SummarizeHosts(b).allUrls)
    ensures SummarizeHosts(a + b).wildcards == SummarizeHosts(a).wildcards + SummarizeHosts(b).wildcards
    ensures SummarizeHosts(a + b).sites == SummarizeHosts(a).sites + SummarizeHosts(b).sites
    decreases |a|
  {
    if a == [] {
      assert a + b == b;
    } else {
      var ab := a + b;
      assert ab[0] == a[0];
      assert ab[1..] == a[1..] + b;
      SummarizeHostsKeepsOrder(a[1..], b);
      var rest := SummarizeHosts(a[1..]);
      var sb := SummarizeHosts(b);
      match ClassifyHost(a[0])
      case WildcardHost(d) =>
        assert [d] + rest.wildcards + sb.wildcards == [d] + (rest.wildcards + sb.wildcards);
      case SiteHost(d) =>
        assert [d] + rest.sites + sb.sites == [d] + (rest.sites + sb.sites);
      case _ =>
    }
  }

  /** A single host pattern adds to the summary of the patterns after it
      what it classifies as; "<all_urls>" discards them. */
  lemma SummarizeOneMoreHost(h: string, b: seq<string>)
    ensures SummarizeHosts([h] + b) == match ClassifyHost(h)
      case AllUrlsBreak => HostSummary(true, [], [])
      case Ignored => SummarizeHosts(b)
      case AnyHost => SummarizeHosts(b).(allUrls := true)
      case WildcardHost(d) => SummarizeHosts(b).(wildcards := [d] + SummarizeHosts(b).wildcards)
      case SiteHost(d) => SummarizeHosts(b).(sites := [d] + SummarizeHosts(b).sites)
  {
    assert ([h] + b)[1..] == b;
  }

  // ---------------------------------------------------------------------
  // Display items
  // ---------------------------------------------------------------------

  datatype HostKind = Wildcard | Site

  /** One `<li>` of the list. */
  datatype DisplayItem =
    | AllUrlsItem
    | HostItem(kind: HostKind, host: string)
    | MoreHostsItem(kind: HostKind, count: nat)
    | PermissionItem(name: string)

  const NATIVE_MESSAGING: string := "nativeMessaging"

  /** The own keys of `permissionStrings` that hold a display string. */
  const PERMISSION_STRING_KEYS: set<string> := {
    "bookmarks", "browserSettings", "browsingData", "clipboardRead", "clipboardWrite", "devtools",
    "downloads", "downloads.open", "find", "geolocation", "history", "management", "nativeMessaging",
    "notifications", "pkcs11", "proxy", "privacy", "sessions", "tabs", "tabHide", "topSites",
    "unlimitedStorage", "webNavigation", "allUrls"
  }

  /** The own keys of `permissionStrings` that hold a formatting function. */
  const FORMATTER_KEYS: set<string> := {"wildcard", "tooManyWildcards", "oneSite", "tooManySites"}

  /** Word-shaped names every object literal inherits from
      `Object.prototype`; looking one up yields a function or an object. */
  const INHERITED_KEYS: set<string> := {
    "constructor", "hasOwnProperty", "isPrototypeOf", "propertyIsEnumerable", "toLocaleString",
    "toString", "valueOf", "__proto__", "__defineGetter__", "__defineSetter__", "__lookupGetter__",
    "__lookupSetter__"
  }

  /** A permission has a display string. */
  predicate HasDisplayString(permission: string) {
    permission in PERMISSION_STRING_KEYS
  }

  /** `permissionStrings[permission]` is truthy: any own or inherited key. */
  predicate HasTruthyEntry(permission: string) {
    permission in PERMISSION_STRING_KEYS || permission in FORMATTER_KEYS || permission in INHERITED_KEYS
  }

  /** The test the last loop applies before showing a permission: the set
      of names it lets through. */
  type Gate = set<string>

  /** The corrected test: a display string is defined for the name. */
  const DISPLAY_STRING_GATE: Gate := PERMISSION_STRING_KEYS

  /** The test as written: `permissionStrings[permission]` is truthy. */
  const TRUTHY_ENTRY_GATE: Gate := PERMISSION_STRING_KEYS + FORMATTER_KEYS + INHERITED_KEYS

  predicate Passes(gate: Gate, permission: string) {
    permission in gate
  }

  /** `format(list, itemKey, moreKey)`: fewer than 5 hosts are all shown;
      otherwise the first 3 and one item counting the rest. */
  function Collapse(kind: HostKind, list: seq<string>): (r: seq<DisplayItem>)
    ensures |list| < 5 ==> |r| == |list| && forall i :: 0 <= i < |r| ==> r[i] == HostItem(kind, list[i])
    ensures |list| >= 5 ==> |r| == 4 && (forall i :: 0 <= i < 3 ==> r[i] == HostItem(kind, list[i]))
                            && r[3] == MoreHostsItem(kind, |list| - 3)
  {
    var shown := if |list| < 5 then list else list[..3];
    var items := seq(|shown|, i requires 0 <= i < |shown| => HostItem(kind, shown[i]));
    if |list| < 5 then items else items + [MoreHostsItem(kind, |list| - 3)]
  }

  /** How many hosts a list of items stands for. */
  function Represented(items: seq<DisplayItem>): nat {
    if items == [] then 0
    else
      (match items[0]
       case HostItem(_, _) => 1
       case MoreHostsItem(_, count) => count
       case _ => 0) + Represented(items[1..])
  }

  lemma {:induction false} RepresentedOfHostItems(kind: HostKind, list: seq<string>, items: seq<DisplayItem>)
    requires |items| == |list| && forall i :: 0 <= i < |items| ==> items[i] == HostItem(kind, list[i])
    ensures Represented(items) == |list|
    decreases |items|
  {
    if items != [] {
      RepresentedOfHostItems(kind, list[1..], items[1..]);
    }
  }

  /** Collapsing never loses a host: the items shown plus the count of the
      "more" item add up to the whole list. */
  lemma {:induction false} CollapseAccountsForEveryHost(kind: HostKind, list: seq<string>)
    ensures Represented(Collapse(kind, list)) == |list|
  {
    var r := Collapse(kind, list);
    if |list| < 5 {
      RepresentedOfHostItems(kind, list, r);
    } else {
      var shown := r[..3];
      assert r == shown + [r[3]];
      RepresentedOfHostItems(kind, list[..3], shown);
      RepresentedAppend(shown, [r[3]]);
      assert Represented([r[3]]) == |list| - 3 by {
        assert [r[3]][1..] == [];
      }
    }
  }

  /** The host part of the list: one all-URLs item, or the wildcards then
      the sites, each collapsed. */
  function HostItems(hosts: seq<string>): (r: seq<DisplayItem>)
    ensures forall i :: 0 <= i < |r| ==> !r[i].PermissionItem?
  {
    var s := SummarizeHosts(hosts);
    if s.allUrls then [AllUrlsItem]
    else Collapse(Wildcard, s.wildcards) + Collapse(Site, s.sites)
  }

  /** Wildcard items come before site items. */
  lemma HostItemsAreRankOrdered(hosts: seq<string>)
    ensures RankOrdered(HostItems(hosts))
  {
    var s := SummarizeHosts(hosts);
    if !s.allUrls {
      var w, t := Collapse(Wildcard, s.wildcards), Collapse(Site, s.sites);
      assert forall i :: 0 <= i < |w| ==> Rank(w[i]) == 0;
      assert forall i :: 0 <= i < |t| ==> Rank(t[i]) == 1;
      assert HostItems(hosts) == w + t;
    }
  }

  /** All URLs gives the single all-URLs item; otherwise the items account
      for every wildcard domain and every site. */
  lemma HostItemsAccountForHosts(hosts: seq<string>)
    ensures SummarizeHosts(hosts).allUrls ==> HostItems(hosts) == [AllUrlsItem]
    ensures !SummarizeHosts(hosts).allUrls ==>
              AllUrlsItem !in HostItems(hosts)
              && Represented(HostItems(hosts)) == |SummarizeHosts(hosts).wildcards| + |SummarizeHosts(hosts).sites|
  {
    var s := SummarizeHosts(hosts);
    if !s.allUrls {
      var w, t := Collapse(Wildcard, s.wildcards), Collapse(Site, s.sites);
      CollapseAccountsForEveryHost(Wildcard, s.wildcards);
      CollapseAccountsForEveryHost(Site, s.sites);
      RepresentedAppend(w, t);
      assert HostItems(hosts) == w + t;
    }
  }

  lemma {:induction false} RepresentedAppend(a: seq<DisplayItem>, b: seq<DisplayItem>)
    ensures Represented(a + b) == Represented(a) + Represented(b)
    decreases |a|
  {
    if a != [] {
      assert (a + b)[0] == a[0];
      assert (a + b)[1..] == a[1..] + b;
      RepresentedAppend(a[1..], b);
    } else {
      assert a + b == b;
    }
  }

  /** Position class of an item in the list: wildcard items, site items,
      `nativeMessaging`, then the other permissions. */
  function Rank(item: DisplayItem): nat {
    match item
    case AllUrlsItem => 0
    case HostItem(kind, _) => if kind == Wildcard then 0 else 1
    case MoreHostsItem(kind, _) => if kind == Wildcard then 0 else 1
    case PermissionItem(name) => if name == NATIVE_MESSAGING then 2 else 3
  }

  // ---------------------------------------------------------------------
  // Sorting the remaining permissions
  // ---------------------------------------------------------------------

  predicate Sorted(s: seq<string>) {
    forall i, j :: 0 <= i < j < |s| ==> LexLe(s[i], s[j])
  }

  function Insert(x: string, s: seq<string>): (r: seq<string>)
    requires Sorted(s)
    ensures Sorted(r) && multiset(r) == multiset(s) + multiset{x}
  {
    if s == [] then [x]
    else if LexLe(x, s[0]) then
      assert forall j :: 0 <= j < |s| ==> LexLe(x, s[j]) by {
        forall j | 0 <= j < |s| ensures LexLe(x, s[j]) {
          if j > 0 {
            LexLeTransitive(x, s[0], s[j]);
          }
        }
      }
      [x] + s
    else
      var t := Insert(x, s[1..]);
      LexLeTotal(x, s[0]);
      assert s == [s[0]] + s[1..];
      assert forall j :: 0 <= j < |t| ==> LexLe(s[0], t[j]) by {
        forall j | 0 <= j < |t| ensures LexLe(s[0], t[j]) {
          assert t[j] in multiset(t);
          if t[j] != x {
            assert t[j] in multiset(s[1..]);
            var m :| 0 <= m < |s[1..]| && s[1..][m] == t[j];
            assert s[m + 1] == t[j];
          }
        }
      }
      [s[0]] + t
  }

  /** `Array.prototype.sort()` with the default comparator. */
  function SortStrings(s: seq<string>): (r: seq<string>)
    ensures Sorted(r) && multiset(r) == multiset(s)
  {
    if s == [] then []
    else
      assert s == [s[0]] + s[1..];
      Insert(s[0], SortStrings(s[1..]))
  }

  /** A sorted permutation is unique, so any correct sort of the same list
      gives the list `SortStrings` returns. */
  lemma {:induction false} SortedPermutationsAreEqual(a: seq<string>, b: seq<string>)
    requires Sorted(a) && Sorted(b) && multiset(a) == multiset(b)
    ensures a == b
    decreases |a|
  {
    if a != [] {
      assert |b| == |a| by {
        assert |multiset(a)| == |a| && |multiset(b)| == |b|;
      }
      assert a[0] in multiset(b);
      var j :| 0 <= j < |b| && b[j] == a[0];
      assert b[0] in multiset(a);
      var i :| 0 <= i < |a| && a[i] == b[0];
      if a[0] != b[0] {
        assert LexLe(b[0], b[j]) && LexLe(a[0], a[i]);
        LexLeAntisymmetric(a[0], b[0]);
        assert false;
      }
      assert a == [a[0]] + a[1..];
      assert b == [b[0]] + b[1..];
      assert a[0] == b[0];
      assert multiset(a) == multiset{a[0]} + multiset(a[1..]);
      assert multiset(b) == multiset{b[0]} + multiset(b[1..]);
      assert multiset(a[1..]) == multiset(a) - multiset{a[0]};
      assert multiset(b[1..]) == multiset(b) - multiset{b[0]};
      SortedPermutationsAreEqual(a[1..], b[1..]);
    }
  }

  /** The last loop: permissions other than `nativeMessaging` for which
      the gate lets through, in the given order. */
  function KeepKnown(s: seq<string>, gate: Gate): (r: seq<string>)
    ensures forall i :: 0 <= i < |r| ==> Passes(gate, r[i]) && r[i] != NATIVE_MESSAGING
    ensures multiset(r) <= multiset(s)
    ensures forall p :: Passes(gate, p) && p != NATIVE_MESSAGING ==> multiset(r)[p] == multiset(s)[p]
  {
    if s == [] then []
    else
      var rest := KeepKnown(s[1..], gate);
      assert s == [s[0]] + s[1..];
      if Passes(gate, s[0]) && s[0] != NATIVE_MESSAGING then [s[0]] + rest else rest
  }

  /** Dropping permissions keeps the rest in sorted order. */
  lemma {:induction false} KeepKnownKeepsOrder(s: seq<string>, gate: Gate)
    requires Sorted(s)
    ensures Sorted(KeepKnown(s, gate))
    decreases |s|
  {
    if s != [] {
      var tail := s[1..];
      assert Sorted(tail) by {
        forall i, j | 0 <= i < j < |tail| ensures LexLe(tail[i], tail[j]) {
          assert tail[i] == s[i + 1] && tail[j] == s[j + 1];
        }
      }
      assert AllAtLeast(s[0], tail) by {
        forall i | 0 <= i < |tail| ensures LexLe(s[0], tail[i]) {
          assert tail[i] == s[i + 1];
        }
      }
      var rest := KeepKnown(tail, gate);
      KeepKnownKeepsOrder(tail, gate);
      KeepKnownKeepsLowerBound(tail, gate, s[0]);
      if Passes(gate, s[0]) && s[0] != NATIVE_MESSAGING {
        SortedCons(s[0], rest);
      }
    }
  }

  /** A sorted list headed by a lower bound of it stays sorted. */
  lemma SortedCons(x: string, rest: seq<string>)
    requires Sorted(rest) && AllAtLeast(x, rest)
    ensures Sorted([x] + rest)
  {
    var r := [x] + rest;
    forall i, j | 0 <= i < j < |r| ensures LexLe(r[i], r[j]) {
      assert r[j] == rest[j - 1];
      if i > 0 {
        assert r[i] == rest[i - 1];
      }
    }
  }

  /** Every element of `s` is at least `x`. */
  predicate AllAtLeast(x: string, s: seq<string>) {
    forall i :: 0 <= i < |s| ==> LexLe(x, s[i])
  }

  /** A lower bound of a list bounds what the last loop keeps of it. */
  lemma {:induction false} KeepKnownKeepsLowerBound(s: seq<string>, gate: Gate, x: string)
    requires AllAtLeast(x, s)
    ensures AllAtLeast(x, KeepKnown(s, gate))
    decreases |s|
  {
    if s != [] {
      assert AllAtLeast(x, s[1..]) by {
        forall i | 0 <= i < |s[1..]| ensures LexLe(x, s[1..][i]) {
          assert s[1..][i] == s[i + 1];
        }
      }
      KeepKnownKeepsLowerBound(s[1..], gate, x);
    }
  }

  function PermissionItems(names: seq<string>): (r: seq<DisplayItem>)
    ensures |r| == |names| && forall i :: 0 <= i < |r| ==> r[i] == PermissionItem(names[i])
  {
    seq(|names|, i requires 0 <= i < |names| => PermissionItem(names[i]))
  }

  // ---------------------------------------------------------------------
  // The whole list
  // ---------------------------------------------------------------------

  /** `formatPermissionStrings`, with the gate of the last loop as a
      parameter: host items, then `nativeMessaging` once if requested, then
      the sorted permissions the gate lets through. */
  function FormatWith(permissions: seq<string>, gate: Gate): seq<DisplayItem> {
    var parts := Partition(permissions);
    HostItems(parts.1) + NativeItems(parts.0) + PermissionItems(KeepKnown(SortStrings(parts.0), gate))
  }

  /** `nativeMessaging`, shown once whenever it is requested. */
  function NativeItems(regular: seq<string>): (r: seq<DisplayItem>)
    ensures r == [] || r == [PermissionItem(NATIVE_MESSAGING)]
    ensures r != [] <==> NATIVE_MESSAGING in regular
  {
    if NATIVE_MESSAGING in regular then [PermissionItem(NATIVE_MESSAGING)] else []
  }

  /** The layout of the list: items never go back to an earlier position
      class; `nativeMessaging` appears exactly once when requested; an
      all-URLs permission replaces every other host item; the remaining
      permissions are exactly the regular ones the gate lets through, as
      often as requested, in sorted order. */
  lemma FormatLayout(permissions: seq<string>, gate: Gate)
    ensures RankOrdered(FormatWith(permissions, gate))
    ensures multiset(FormatWith(permissions, gate))[PermissionItem(NATIVE_MESSAGING)]
            == if NATIVE_MESSAGING in permissions then 1 else 0
    ensures AllUrlsItem in FormatWith(permissions, gate)
            <==> exists i :: 0 <= i < |permissions| && GrantsAllUrls(permissions[i])
    ensures AllUrlsItem in FormatWith(permissions, gate) ==>
              forall item :: item in FormatWith(permissions, gate) ==> !item.HostItem? && !item.MoreHostsItem?
    ensures forall item :: item in FormatWith(permissions, gate) && IsOtherPermission(item) ==>
              Passes(gate, item.name) && item.name in permissions
    ensures var r := FormatWith(permissions, gate);
            forall i, j :: 0 <= i < j < |r| && IsOtherPermission(r[i]) && IsOtherPermission(r[j]) ==> LexLe(r[i].name, r[j].name)
    ensures forall q :: multiset(OtherPermissionNames(FormatWith(permissions, gate)))[q]
                        == if ClassifyPermission(q) == Permissions && Passes(gate, q) && q != NATIVE_MESSAGING
                           then multiset(permissions)[q] else 0
  {
    FormatIsRankOrdered(permissions, gate);
    FormatCountsNativeMessaging(permissions, gate);
    FormatKeepsAllUrlsAlone(permissions, gate);
    FormatPlacesRest(permissions, gate);
    FormatShowsTheGatedPermissions(permissions, gate);
  }

  /** The three parts of the list, in order. */
  function Parts(permissions: seq<string>, gate: Gate): (r: (seq<DisplayItem>, seq<DisplayItem>, seq<string>))
    ensures FormatWith(permissions, gate) == r.0 + r.1 + PermissionItems(r.2)
  {
    var parts := Partition(permissions);
    (HostItems(parts.1), NativeItems(parts.0), KeepKnown(SortStrings(parts.0), gate))
  }

  lemma FormatIsRankOrdered(permissions: seq<string>, gate: Gate)
    ensures RankOrdered(FormatWith(permissions, gate))
  {
    var p := Parts(permissions, gate);
    HostItemsAreRankOrdered(Partition(permissions).1);
    LayoutIsRankOrdered(p.0, p.1, p.2);
  }

  lemma FormatCountsNativeMessaging(permissions: seq<string>, gate: Gate)
    ensures multiset(FormatWith(permissions, gate))[PermissionItem(NATIVE_MESSAGING)]
            == if NATIVE_MESSAGING in permissions then 1 else 0
  {
    var p := Parts(permissions, gate);
    NativeMessagingIsKeptIffPresent(permissions, Partition(permissions));
    LayoutCountsNativeMessaging(p.0, p.1, p.2);
  }

  lemma FormatKeepsAllUrlsAlone(permissions: seq<string>, gate: Gate)
    ensures AllUrlsItem in FormatWith(permissions, gate)
            <==> exists i :: 0 <= i < |permissions| && GrantsAllUrls(permissions[i])
    ensures AllUrlsItem in FormatWith(permissions, gate) ==>
              forall item :: item in FormatWith(permissions, gate) ==> !item.HostItem? && !item.MoreHostsItem?
  {
    var p := Parts(permissions, gate);
    HostItemsAccountForHosts(Partition(permissions).1);
    HostGrantsAreHosts(permissions, Partition(permissions));
    LayoutHostsFirst(p.0, p.1, p.2);
  }

  lemma FormatPlacesRest(permissions: seq<string>, gate: Gate)
    ensures forall item :: item in FormatWith(permissions, gate) && IsOtherPermission(item) ==>
              Passes(gate, item.name) && item.name in permissions
    ensures var r := FormatWith(permissions, gate);
            forall i, j :: 0 <= i < j < |r| && IsOtherPermission(r[i]) && IsOtherPermission(r[j]) ==> LexLe(r[i].name, r[j].name)
  {
    var parts := Partition(permissions);
    var sorted := SortStrings(parts.0);
    var p := Parts(permissions, gate);
    KeepKnownKeepsOrder(sorted, gate);
    NamesComeFromThePermissions(permissions, parts.0, parts.1, sorted, p.2);
    LayoutPlacesRest(p.0, p.1, p.2, permissions, gate);
  }

  /** The names of the rank-3 items, in list order. */
  function OtherPermissionNames(items: seq<DisplayItem>): seq<string> {
    if items == [] then []
    else (if IsOtherPermission(items[0]) then [items[0].name] else []) + OtherPermissionNames(items[1..])
  }

  /** The rest of the list is complete and sorted: it holds every regular
      permission the gate lets through, other than `nativeMessaging`, as
      often as it was requested, in sorted order, and nothing else. */
  lemma FormatShowsTheGatedPermissions(permissions: seq<string>, gate: Gate)
    ensures var rest := OtherPermissionNames(FormatWith(permissions, gate));
            && Sorted(rest)
            && forall q :: multiset(rest)[q] == if ClassifyPermission(q) == Permissions && Passes(gate, q) && q != NATIVE_MESSAGING
                                                then multiset(permissions)[q] else 0
  {
    var parts := Partition(permissions);
    var sorted := SortStrings(parts.0);
    var p := Parts(permissions, gate);
    LayoutOtherNames(p.0, p.1, p.2);
    KeepKnownKeepsOrder(sorted, gate);
    KeptCounts(permissions, parts.0, parts.1, sorted, p.2, gate);
  }

  /** What the last loop keeps of the sorted regular part, counted per
      name against the original request. */
  lemma KeptCounts(permissions: seq<string>, regular: seq<string>, hosts: seq<string>,
                   sorted: seq<string>, kept: seq<string>, gate: Gate)
    requires forall p :: p in regular ==> ClassifyPermission(p) == Permissions
    requires forall p :: p in hosts ==> ClassifyPermission(p) == Hosts
    requires multiset(regular) + multiset(hosts) == multiset(permissions)
    requires multiset(sorted) == multiset(regular)
    requires forall i :: 0 <= i < |kept| ==> Passes(gate, kept[i]) && kept[i] != NATIVE_MESSAGING
    requires forall p :: Passes(gate, p) && p != NATIVE_MESSAGING ==> multiset(kept)[p] == multiset(sorted)[p]
    ensures forall q :: multiset(kept)[q] == if ClassifyPermission(q) == Permissions && Passes(gate, q) && q != NATIVE_MESSAGING
                                             then multiset(permissions)[q] else 0
  {
    forall q
      ensures multiset(kept)[q] == if ClassifyPermission(q) == Permissions && Passes(gate, q) && q != NATIVE_MESSAGING
                                   then multiset(permissions)[q] else 0
    {
      if Passes(gate, q) && q != NATIVE_MESSAGING {
        if ClassifyPermission(q) == Permissions {
          assert q !in hosts;
        } else {
          assert q !in regular;
        }
      } else {
        assert q !in kept;
      }
    }
  }

  /** The rank-3 names of the assembled list are exactly the kept names. */
  lemma LayoutOtherNames(hostItems: seq<DisplayItem>, native: seq<DisplayItem>, names: seq<string>)
    requires forall i :: 0 <= i < |hostItems| ==> !hostItems[i].PermissionItem?
    requires native == [] || native == [PermissionItem(NATIVE_MESSAGING)]
    requires forall i :: 0 <= i < |names| ==> names[i] != NATIVE_MESSAGING
    ensures OtherPermissionNames(hostItems + native + PermissionItems(names)) == names
  {
    OtherNamesOfConcat(hostItems + native, PermissionItems(names));
    OtherNamesOfConcat(hostItems, native);
    OtherNamesOfNone(hostItems);
    OtherNamesOfNone(native);
    OtherNamesOfPermissionItems(names);
  }

  lemma {:induction false} OtherNamesOfConcat(a: seq<DisplayItem>, b: seq<DisplayItem>)
    ensures OtherPermissionNames(a + b) == OtherPermissionNames(a) + OtherPermissionNames(b)
    decreases |a|
  {
    if a == [] {
      assert a + b == b;
      assert [] + OtherPermissionNames(b) == OtherPermissionNames(b);
    } else {
      var ab := a + b;
      assert ab[0] == a[0];
      assert ab[1..] == a[1..] + b;
      var head := if IsOtherPermission(a[0]) then [a[0].name] else [];
      assert OtherPermissionNames(a) == head + OtherPermissionNames(a[1..]);
      assert OtherPermissionNames(ab) == head + OtherPermissionNames(ab[1..]);
      OtherNamesOfConcat(a[1..], b);
      assert head + (OtherPermissionNames(a[1..]) + OtherPermissionNames(b))
             == (head + OtherPermissionNames(a[1..])) + OtherPermissionNames(b);
    }
  }

  lemma {:induction false} OtherNamesOfNone(items: seq<DisplayItem>)
    requires forall i :: 0 <= i < |items| ==> !IsOtherPermission(items[i])
    ensures OtherPermissionNames(items) == []
    decreases |items|
  {
    if items != [] {
      assert !IsOtherPermission(items[0]);
      OtherNamesOfNone(items[1..]);
    }
  }

  lemma {:induction false} OtherNamesOfPermissionItems(names: seq<string>)
    requires forall i :: 0 <= i < |names| ==> names[i] != NATIVE_MESSAGING
    ensures OtherPermissionNames(PermissionItems(names)) == names
    decreases |names|
  {
    if names != [] {
      var items := PermissionItems(names);
      assert items[1..] == PermissionItems(names[1..]);
      assert IsOtherPermission(items[0]);
      OtherNamesOfPermissionItems(names[1..]);
      assert names == [names[0]] + names[1..];
    }
  }

  /** Every permission item shown is `nativeMessaging` or passed the gate. */
  lemma ShownNamesPass(permissions: seq<string>, gate: Gate)
    ensures var r := FormatWith(permissions, gate);
            forall i :: 0 <= i < |r| && r[i].PermissionItem? ==> r[i].name == NATIVE_MESSAGING || Passes(gate, r[i].name)
  {
    var p := Parts(permissions, gate);
    LayoutShownNames(p.0, p.1, p.2, gate);
  }

  lemma LayoutShownNames(hostItems: seq<DisplayItem>, native: seq<DisplayItem>, names: seq<string>, gate: Gate)
    requires forall i :: 0 <= i < |hostItems| ==> !hostItems[i].PermissionItem?
    requires native == [] || native == [PermissionItem(NATIVE_MESSAGING)]
    requires forall i :: 0 <= i < |names| ==> Passes(gate, names[i])
    ensures var r := hostItems + native + PermissionItems(names);
            forall i :: 0 <= i < |r| && r[i].PermissionItem? ==> r[i].name == NATIVE_MESSAGING || Passes(gate, r[i].name)
  {
    var rest := PermissionItems(names);
    var r := hostItems + native + rest;
    forall i | 0 <= i < |r| && r[i].PermissionItem?
      ensures r[i].name == NATIVE_MESSAGING || Passes(gate, r[i].name)
    {
      if i >= |hostItems| + |native| {
        assert r[i] == rest[i - |hostItems| - |native|];
      } else if i >= |hostItems| {
        assert r[i] == native[i - |hostItems|];
      }
    }
  }

  /** The items of rank 3: permissions other than `nativeMessaging`. */
  predicate IsOtherPermission(item: DisplayItem) {
    item.PermissionItem? && item.name != NATIVE_MESSAGING
  }

  predicate RankOrdered(r: seq<DisplayItem>) {
    forall i, j :: 0 <= i < j < |r| ==> Rank(r[i]) <= Rank(r[j])
  }

  lemma NativeMessagingIsKeptIffPresent(permissions: seq<string>, parts: (seq<string>, seq<string>))
    requires multiset(parts.0) + multiset(parts.1) == multiset(permissions)
    requires forall p :: p in parts.0 ==> ClassifyPermission(p) == Permissions
    requires forall p :: p in parts.1 ==> ClassifyPermission(p) == Hosts
    ensures NATIVE_MESSAGING in permissions <==> NATIVE_MESSAGING in parts.0
  {
    NativeMessagingIsRegular();
    RegularIsKeptIffPresent(permissions, parts, NATIVE_MESSAGING);
  }

  /** A regular permission is requested exactly when the regular part
      holds it. */
  lemma RegularIsKeptIffPresent(permissions: seq<string>, parts: (seq<string>, seq<string>), x: string)
    requires multiset(parts.0) + multiset(parts.1) == multiset(permissions)
    requires forall p :: p in parts.1 ==> ClassifyPermission(p) == Hosts
    requires ClassifyPermission(x) == Permissions
    ensures x in permissions <==> x in parts.0
  {
    assert x !in parts.1;
    assert multiset(parts.1)[x] == 0;
    assert multiset(permissions)[x] == multiset(parts.0)[x];
  }

  lemma NamesComeFromThePermissions(permissions: seq<string>, regular: seq<string>, hosts: seq<string>,
                                    sorted: seq<string>, names: seq<string>)
    requires multiset(regular) + multiset(hosts) == multiset(permissions)
    requires multiset(sorted) == multiset(regular) && multiset(names) <= multiset(sorted)
    ensures forall i :: 0 <= i < |names| ==> names[i] in permissions
  {
    forall i | 0 <= i < |names| ensures names[i] in permissions {
      assert names[i] in multiset(names);
      assert names[i] in multiset(permissions);
    }
  }

  lemma LayoutIsRankOrdered(hostItems: seq<DisplayItem>, native: seq<DisplayItem>, names: seq<string>)
    requires RankOrdered(hostItems) && forall i :: 0 <= i < |hostItems| ==> !hostItems[i].PermissionItem?
    requires native == [] || native == [PermissionItem(NATIVE_MESSAGING)]
    requires forall i :: 0 <= i < |names| ==> names[i] != NATIVE_MESSAGING
    ensures RankOrdered(hostItems + native + PermissionItems(names))
  {
    var rest := PermissionItems(names);
    var r := hostItems + native + rest;
    forall i, j | 0 <= i < j < |r| ensures Rank(r[i]) <= Rank(r[j]) {
      if j < |hostItems| {
        assert r[i] == hostItems[i] && r[j] == hostItems[j];
      } else if i < |hostItems| {
        assert r[i] == hostItems[i];
      } else if i < |hostItems| + |native| {
        assert r[i] == native[i - |hostItems|];
        if j >= |hostItems| + |native| {
          assert r[j] == rest[j - |hostItems| - |native|];
        }
      } else {
        assert r[i] == rest[i - |hostItems| - |native|] && r[j] == rest[j - |hostItems| - |native|];
      }
    }
  }

  lemma LayoutCountsNativeMessaging(hostItems: seq<DisplayItem>, native: seq<DisplayItem>, names: seq<string>)
    requires forall i :: 0 <= i < |hostItems| ==> !hostItems[i].PermissionItem?
    requires forall i :: 0 <= i < |names| ==> names[i] != NATIVE_MESSAGING
    ensures multiset(hostItems + native + PermissionItems(names))[PermissionItem(NATIVE_MESSAGING)]
            == multiset(native)[PermissionItem(NATIVE_MESSAGING)]
  {
    var rest := PermissionItems(names);
    assert PermissionItem(NATIVE_MESSAGING) !in hostItems;
    assert PermissionItem(NATIVE_MESSAGING) !in rest;
    assert multiset(hostItems + native + rest) == multiset(hostItems) + multiset(native) + multiset(rest);
  }

  /** The items of rank 3 are the kept names, in their order. */
  lemma LayoutPlacesRest(hostItems: seq<DisplayItem>, native: seq<DisplayItem>, names: seq<string>,
                         permissions: seq<string>, gate: Gate)
    requires forall i :: 0 <= i < |hostItems| ==> !hostItems[i].PermissionItem?
    requires native == [] || native == [PermissionItem(NATIVE_MESSAGING)]
    requires forall i :: 0 <= i < |names| ==> Passes(gate, names[i]) && names[i] != NATIVE_MESSAGING && names[i] in permissions
    requires Sorted(names)
    ensures forall item :: item in hostItems + native + PermissionItems(names) && IsOtherPermission(item) ==>
              Passes(gate, item.name) && item.name in permissions
    ensures var r := hostItems + native + PermissionItems(names);
            forall i, j :: 0 <= i < j < |r| && IsOtherPermission(r[i]) && IsOtherPermission(r[j]) ==> LexLe(r[i].name, r[j].name)
  {
    var rest := PermissionItems(names);
    var r := hostItems + native + rest;
    var off := |hostItems| + |native|;
    assert forall i :: 0 <= i < |r| && IsOtherPermission(r[i]) ==> i >= off && r[i] == PermissionItem(names[i - off]);
    forall i, j | 0 <= i < j < |r| && IsOtherPermission(r[i]) && IsOtherPermission(r[j]) ensures LexLe(r[i].name, r[j].name) {
      assert LexLe(names[i - off], names[j - off]);
    }
  }

  /** Host items come from the host part only, so an all-URLs item that is
      the whole host part leaves no other host item in the list. */
  lemma LayoutHostsFirst(hostItems: seq<DisplayItem>, native: seq<DisplayItem>, names: seq<string>)
    requires native == [] || native == [PermissionItem(NATIVE_MESSAGING)]
    ensures AllUrlsItem in hostItems + native + PermissionItems(names) <==> AllUrlsItem in hostItems
    ensures hostItems == [AllUrlsItem] ==>
              forall item :: item in hostItems + native + PermissionItems(names) ==> !item.HostItem? && !item.MoreHostsItem?
  {
    var rest := PermissionItems(names);
    var r := hostItems + native + rest;
    forall i | 0 <= i < |r| && (r[i].HostItem? || r[i].MoreHostsItem? || r[i].AllUrlsItem?)
      ensures i < |hostItems| && r[i] == hostItems[i]
    {
    }
    if AllUrlsItem in r {
      var i :| 0 <= i < |r| && r[i] == AllUrlsItem;
      assert hostItems[i] == AllUrlsItem;
    }
  }

  lemma NativeMessagingIsRegular()
    ensures ClassifyPermission(NATIVE_MESSAGING) == Permissions
  {
    assert IsDotSeparatedWords(NATIVE_MESSAGING);
  }

  /** A host pattern contains ":" and "<all_urls>" contains "<", so neither
      is ever taken for a regular permission. */
  lemma HostGrantsAreHosts(permissions: seq<string>, parts: (seq<string>, seq<string>))
    requires multiset(parts.0) + multiset(parts.1) == multiset(permissions)
    requires forall p :: p in parts.0 ==> ClassifyPermission(p) == Permissions
    requires forall p :: p in parts.1 ==> ClassifyPermission(p) == Hosts
    ensures (exists i :: 0 <= i < |parts.1| && GrantsAllUrls(parts.1[i]))
            <==> (exists i :: 0 <= i < |permissions| && GrantsAllUrls(permissions[i]))
  {
    if exists i :: 0 <= i < |permissions| && GrantsAllUrls(permissions[i]) {
      var i :| 0 <= i < |permissions| && GrantsAllUrls(permissions[i]);
      var p := permissions[i];
      assert p in multiset(parts.0) + multiset(parts.1);
      GrantsAllUrlsIsNotRegular(p);
      assert p !in parts.0;
      assert p in parts.1;
      var m :| 0 <= m < |parts.1| && parts.1[m] == p;
      assert GrantsAllUrls(parts.1[m]);
    }
    if exists i :: 0 <= i < |parts.1| && GrantsAllUrls(parts.1[i]) {
      var i :| 0 <= i < |parts.1| && GrantsAllUrls(parts.1[i]);
      assert parts.1[i] in multiset(permissions);
      var m :| 0 <= m < |permissions| && permissions[m] == parts.1[i];
      assert GrantsAllUrls(permissions[m]);
    }
  }

  lemma GrantsAllUrlsIsNotRegular(p: string)
    requires GrantsAllUrls(p)
    ensures !IsDotSeparatedWords(p)
  {
    if p == "<all_urls>" {
      assert !(IsWordChar(p[0]) || p[0] == '.');
    } else {
      var host := ParseHostPattern(p).value;
      ParseHostPatternIsTheMatch(p, host);
      var k, j :| HostPatternMatchAt(p, host, k, j);
      assert p[k] == p[k..k + 3][0] == ':';
      assert !(IsWordChar(p[k]) || p[k] == '.');
    }
  }

  /** The list the card shows: only permissions with a display string. */
  function FormatPermissionStrings(permissions: seq<string>): (r: seq<DisplayItem>)
    ensures r == FormatWith(permissions, DISPLAY_STRING_GATE)
    ensures forall i :: 0 <= i < |r| && r[i].PermissionItem? ==> HasDisplayString(r[i].name)
  {
    ShownNamesPass(permissions, DISPLAY_STRING_GATE);
    assert HasDisplayString(NATIVE_MESSAGING);
    FormatWith(permissions, DISPLAY_STRING_GATE)
  }

  /** The list as written: the last loop's truthiness test also lets through
      the formatter keys and the names inherited from `Object.prototype`. */
  function FormatPermissionStringsAsWritten(permissions: seq<string>): (r: seq<DisplayItem>)
    ensures r == FormatWith(permissions, TRUTHY_ENTRY_GATE)
    ensures forall i :: 0 <= i < |r| && r[i].PermissionItem? ==> HasTruthyEntry(r[i].name)
  {
    ShownNamesPass(permissions, TRUTHY_ENTRY_GATE);
    assert HasTruthyEntry(NATIVE_MESSAGING);
    FormatWith(permissions, TRUTHY_ENTRY_GATE)
  }

  /** A list holding one regular permission other than `nativeMessaging`
      shows it exactly when the gate lets it through. */
  lemma FormatOfOneRegularPermission(p: string, gate: Gate)
    requires IsDotSeparatedWords(p) && p != NATIVE_MESSAGING
    ensures FormatWith([p], gate) == if Passes(gate, p) then [PermissionItem(p)] else []
  {
    assert Partition([p]) == ([p], []) by {
      assert ClassifyPermission(p) == Permissions;
      PartitionOfOne(p);
    }
    assert HostItems([]) == [] by {
      assert SummarizeHosts([]) == HostSummary(false, [], []);
    }
    assert SortStrings([p]) == [p];
    assert KeepKnown([p], gate) == if Passes(gate, p) then [p] else [] by {
      assert [p][1..] == [];
    }
  }

  /** A word-shaped permission with no display string but a truthy entry
      (a formatter key or a name inherited from `Object.prototype`) gets an
      item as written, and none in the corrected list. */
  lemma NamesWithoutStringPassTheGateAsWritten(p: string)
    requires IsDotSeparatedWords(p) && HasTruthyEntry(p) && !HasDisplayString(p)
    ensures FormatPermissionStringsAsWritten([p]) == [PermissionItem(p)]
    ensures FormatPermissionStrings([p]) == []
  {
    FormatOfOneRegularPermission(p, TRUTHY_ENTRY_GATE);
    FormatOfOneRegularPermission(p, DISPLAY_STRING_GATE);
  }

  /** "toString" is such a permission. */
  lemma ToStringPassesTheGateAsWritten()
    ensures FormatPermissionStringsAsWritten(["toString"]) == [PermissionItem("toString")]
    ensures FormatPermissionStrings(["toString"]) == []
  {
    ToStringIsInheritedOnly();
    NamesWithoutStringPassTheGateAsWritten("toString");
  }

  /** "toString" is word-shaped and inherited, with no display string. */
  lemma ToStringIsInheritedOnly()
    ensures IsDotSeparatedWords("toString") && HasTruthyEntry("toString") && !HasDisplayString("toString")
  {
    assert "toString" in INHERITED_KEYS;
    assert "toString" !in PERMISSION_STRING_KEYS;
  }

  /** An "<all_urls>" after a wildcard host still leaves a single
      all-URLs item. */
  lemma AllUrlsHidesEarlierHosts()
    ensures HostItems(["https://*.mozilla.org/", "<all_urls>"]) == [AllUrlsItem]
  {
    var hosts := ["https://*.mozilla.org/", "<all_urls>"];
    assert GrantsAllUrls(hosts[1]);
    HostItemsAccountForHosts(hosts);
  }

  /** The sort orders by character code: capitals before lower case. */
  lemma SortExample()
    ensures SortStrings(["tabs", "nativeMessaging", "Bookmarks", "bookmarks"])
            == ["Bookmarks", "bookmarks", "nativeMessaging", "tabs"]
  {
    var want := ["Bookmarks", "bookmarks", "nativeMessaging", "tabs"];
    var given := ["tabs", "nativeMessaging", "Bookmarks", "bookmarks"];
    assert Sorted(want) by {
      forall i, j | 0 <= i < j < |want| ensures LexLe(want[i], want[j]) {
        assert want[i][0] < want[j][0];
      }
    }
    assert multiset(want) == multiset(given) by {
      assert want == [given[2], given[3], given[1], given[0]];
    }
    SortedPermutationsAreEqual(SortStrings(given), want);
  }

  // ---------------------------------------------------------------------
  // The card
  // ---------------------------------------------------------------------

  /** `getPermissions`: the permissions of the file for the user's
      platform, else of the all-platform file, else none. `osKey` is the
      lower-cased OS name, `osToPlatform` the `userAgentOSToPlatform`
      table. */
  function GetPermissions(files: PlatformFiles, osKey: Option<string>, osToPlatform: map<string, string>): (r: seq<string>)
    ensures var platformFile := if osKey.Some? && osKey.value in osToPlatform
                                then LookupPlatformFile(files, osToPlatform[osKey.value]) else None;
            && (platformFile.Some? ==> r == platformFile.value.permissions)
            && (platformFile.None? && LookupPlatformFile(files, OS_ALL).Some? ==> r == LookupPlatformFile(files, OS_ALL).value.permissions)
            && (platformFile.None? && LookupPlatformFile(files, OS_ALL).None? ==> r == [])
  {
    var platformFile := if osKey.Some? && osKey.value in osToPlatform
                        then LookupPlatformFile(files, osToPlatform[osKey.value]) else None;
    var file := if platformFile.Some? then platformFile else LookupPlatformFile(files, OS_ALL);
    if file.None? then [] else file.value.permissions
  }

  datatype CardContent = Loading | NoList | PermissionList(items: seq<DisplayItem>)

  /** What the card shows for a given last-loop gate: loading text without
      an add-on, nothing for an empty list, else the list. */
  function ContentWith(addonFiles: Option<PlatformFiles>, osKey: Option<string>, osToPlatform: map<string, string>,
                       gate: Gate): (c: CardContent)
    ensures c.Loading? <==> addonFiles.None?
    ensures c.PermissionList? ==> |c.items| > 0
                                  && c.items == FormatWith(GetPermissions(addonFiles.value, osKey, osToPlatform), gate)
    ensures c.NoList? ==> FormatWith(GetPermissions(addonFiles.value, osKey, osToPlatform), gate) == []
  {
    match addonFiles
    case None => Loading
    case Some(files) =>
      var items := FormatWith(GetPermissions(files, osKey, osToPlatform), gate);
      if |items| > 0 then PermissionList(items) else NoList
  }

  /** `render()` as written: the list shows every permission the
      truthiness test lets through. */
  function Content(addonFiles: Option<PlatformFiles>, osKey: Option<string>, osToPlatform: map<string, string>): (c: CardContent)
    ensures c.Loading? <==> addonFiles.None?
    ensures c.PermissionList? ==>
              |c.items| > 0 && c.items == FormatPermissionStringsAsWritten(GetPermissions(addonFiles.value, osKey, osToPlatform))
    ensures c.NoList? ==> FormatPermissionStringsAsWritten(GetPermissions(addonFiles.value, osKey, osToPlatform)) == []
  {
    ContentWith(addonFiles, osKey, osToPlatform, TRUTHY_ENTRY_GATE)
  }

  /** `render()` with the corrected last loop: the list shows only
      permissions with a display string. */
  function ContentCorrected(addonFiles: Option<PlatformFiles>, osKey: Option<string>, osToPlatform: map<string, string>): (c: CardContent)
    ensures c.Loading? <==> addonFiles.None?
    ensures c.PermissionList? ==>
              |c.items| > 0 && c.items == FormatPermissionStrings(GetPermissions(addonFiles.value, osKey, osToPlatform))
    ensures c.NoList? ==> FormatPermissionStrings(GetPermissions(addonFiles.value, osKey, osToPlatform)) == []
  {
    ContentWith(addonFiles, osKey, osToPlatform, DISPLAY_STRING_GATE)
  }

  /** With no file for the platform and none for all platforms, an add-on
      shows no list at all, as written and corrected. */
  lemma NoFileMeansNoList(files: PlatformFiles, osKey: Option<string>, osToPlatform: map<string, string>)
    requires forall i :: 0 <= i < |files| ==> files[i].file.None?
    ensures Content(Some(files), osKey, osToPlatform) == NoList
    ensures ContentCorrected(Some(files), osKey, osToPlatform) == NoList
  {
    NoFileFound(files, OS_ALL);
    if osKey.Some? && osKey.value in osToPlatform {
      NoFileFound(files, osToPlatform[osKey.value]);
    }
    assert SummarizeHosts([]) == HostSummary(false, [], []);
  }

  /** A file asking only for "toString" shows it as written, and shows no
      list once corrected. */
  lemma ToStringShowsInTheCardAsWritten(files: PlatformFiles)
    requires LookupPlatformFile(files, OS_ALL).Some? && LookupPlatformFile(files, OS_ALL).value.permissions == ["toString"]
    ensures Content(Some(files), None, map[]) == PermissionList([PermissionItem("toString")])
    ensures ContentCorrected(Some(files), None, map[]) == NoList
  {
    assert GetPermissions(files, None, map[]) == ["toString"];
    ToStringPassesTheGateAsWritten();
    var shown := FormatPermissionStringsAsWritten(["toString"]);
    assert Content(Some(files), None, map[]) == PermissionList(shown);
    assert FormatPermissionStrings(["toString"]) == [];
  }

  lemma {:induction false} NoFileFound(files: PlatformFiles, platform: string)
    requires forall i :: 0 <= i < |files| ==> files[i].file.None?
    ensures LookupPlatformFile(files, platform).None?
    decreases |files|
  {
    if files != [] && files[0].platform != platform {
      NoFileFound(files[1..], platform);
    }
  }
}
