/** The Android build settings `ProcessAndroid` (sdk/process/android.ts) reads
    from a built uni-app's manifest.json: optional manifest fields overwrite
    declared defaults, the version name is split and parsed, two settings fall
    back to their defaults when the manifest value is falsy, and permission
    names are taken out of `android:name="…"` fragments. */
module AndroidManifest {
  import opened Wrappers
  import opened Strings

  // ---------------------------------------------------------------------
  // The decoded manifest: every field the projection reads may be absent.
  // ---------------------------------------------------------------------

  datatype VersionInfo = VersionInfo(name: Option<string>, code: Option<string>)

  /** `plus.distribute.android`. */
  datatype AndroidOptions = AndroidOptions(minSdkVersion: Option<int>, abiFilters: Option<seq<string>>)

  /** `plus.distribute.icons.android`, as its (key, file) entries in key order. */
  datatype IconSets = IconSets(android: Option<seq<(string, string)>>)

  /** `plus.distribute.google`: raw `<uses-permission …/>` fragments. */
  datatype GoogleOptions = GoogleOptions(permissions: Option<seq<string>>)

  datatype Distribute = Distribute(android: Option<AndroidOptions>, icons: Option<IconSets>, google: Option<GoogleOptions>)

  datatype Plus = Plus(distribute: Option<Distribute>)

  /** The module table of the manifest's `permissions`, carried over whole:
      module name to its settings text. */
  type ModuleTable = map<string, string>

  datatype Manifest = Manifest(
    id: Option<string>,
    name: Option<string>,
    description: Option<string>,
    version: Option<VersionInfo>,
    permissions: Option<ModuleTable>,
    plus: Option<Plus>)

  /** A JavaScript number as `parseInt` can return it: `None` is NaN. */
  type Number = Option<int>

  // ---------------------------------------------------------------------
  // Declared defaults.
  // ---------------------------------------------------------------------

  const ManifestFile := "manifest.json"
  const DefaultAppId := "__UNI__A"
  const DefaultAppName := "UniApp"
  const DefaultVersion: seq<Number> := [Some(0), Some(0), Some(0)]
  const DefaultVersionCode := 1
  const DefaultMinSdk := 21
  const DefaultAbiFilters := ["arm64-v8a"]
  const IconsAssetsDir := "unpackage/res/icons"
  const IconsExts := ["png"]
  const IconSizes: map<string, int> :=
    map["drawable-hdpi" := 72, "drawable-xhdpi" := 96, "drawable-xxhdpi" := 144,
        "drawable-xxxhdpi" := 192, "app-store" := 1024]

  /** `app_permissions_default`: declared, but never read by the projection. */
  const DefaultPermissions := [
    "android.permission.INTERNET",
    "android.permission.READ_EXTERNAL_STORAGE",
    "android.permission.WRITE_EXTERNAL_STORAGE",
    "android.permission.READ_MEDIA_IMAGES",
    "android.permission.READ_MEDIA_VIDEO",
    "android.permission.READ_MEDIA_VISUAL_USER_SELECTED",
    "android.permission.READ_PHONE_STATE",
    "android.permission.ACCESS_NETWORK_STATE",
    "android.permission.ACCESS_WIFI_STATE",
    "com.asus.msa.SupplementaryDID.ACCESS",
    "com.huawei.android.launcher.permission.CHANGE_BADGE",
    "com.vivo.notification.permission.BADGE_ICON",
    "android.permission.INSTALL_PACKAGES",
    "android.permission.REQUEST_INSTALL_PACKAGES"]

  // ---------------------------------------------------------------------
  // parseInt, restricted to an optional sign and decimal digits.
  // ---------------------------------------------------------------------

  predicate IsDigit(c: char) {
    '0' <= c <= '9'
  }

  predicate AllDigits(s: string) {
    forall k :: 0 <= k < |s| ==> IsDigit(s[k])
  }

  /** The length of the run of digits `s` starts with. */
  function DigitRun(s: string): (n: nat)
    ensures n <= |s| && AllDigits(s[..n])
    ensures n < |s| ==> !IsDigit(s[n])
  {
    if |s| == 0 || !IsDigit(s[0]) then 0
    else
      var n := 1 + DigitRun(s[1..]);
      assert s[..n] == [s[0]] + s[1..][..n - 1];
      n
  }

  /** The value of a string of decimal digits, most significant first. */
  function DigitsValue(ds: string): nat
    requires AllDigits(ds)
  {
    if |ds| == 0 then 0
    else DigitsValue(ds[..|ds| - 1]) * 10 + (ds[|ds| - 1] as int - '0' as int)
  }

  /** The text after an optional leading '-' or '+'. */
  function Unsigned(s: string): string {
    if |s| > 0 && (s[0] == '-' || s[0] == '+') then s[1..] else s
  }

  /** `parseInt(s)`: the sign, then the longest run of digits; anything after
      the run is ignored, and NaN when the run is empty. */
  function ParseInt(s: string): (r: Number)
    ensures r.None? <==> DigitRun(Unsigned(s)) == 0
  {
    var body := Unsigned(s);
    var n := DigitRun(body);
    if n == 0 then None
    else
      var magnitude: int := DigitsValue(body[..n]);
      Some(if |s| > 0 && s[0] == '-' then -magnitude else magnitude)
  }

  /** The decimal spelling of a natural number (JavaScript `String(n)`). */
  function Decimal(n: nat): (r: string)
    ensures |r| > 0 && AllDigits(r)
  {
    var last := ('0' as int + n % 10) as char;
    if n < 10 then [last] else Decimal(n / 10) + [last]
  }

  lemma {:induction false} DecimalValue(n: nat)
    ensures DigitsValue(Decimal(n)) == n
  {
    if n >= 10 {
      DecimalValue(n / 10);
      var r := Decimal(n);
      assert r[..|r| - 1] == Decimal(n / 10);
    }
  }

  lemma {:induction false} DigitRunOf(ds: string, rest: string)
    requires AllDigits(ds)
    requires rest == [] || !IsDigit(rest[0])
    ensures DigitRun(ds + rest) == |ds|
    decreases |ds|
  {
    if |ds| > 0 {
      assert (ds + rest)[1..] == ds[1..] + rest;
      DigitRunOf(ds[1..], rest);
    }
  }

  /** Round trip: `parseInt` reads back a decimal spelling, with or without a
      minus sign, whatever non-digit text follows it. */
  lemma ParseDecimal(n: nat, rest: string)
    requires rest == [] || !IsDigit(rest[0])
    ensures ParseInt(Decimal(n) + rest) == Some(n)
    ensures ParseInt("-" + Decimal(n) + rest) == Some(-(n as int))
  {
    var d := Decimal(n);
    DecimalValue(n);
    DigitRunOf(d, rest);
    assert (d + rest)[..|d|] == d;
    assert Unsigned(d + rest) == d + rest;
    assert Unsigned("-" + d + rest) == d + rest;
  }

  // ---------------------------------------------------------------------
  // The values `initBaseConfig` computes.
  // ---------------------------------------------------------------------

  function AndroidOptionsOf(m: Manifest): Option<AndroidOptions> {
    if m.plus.Some? && m.plus.value.distribute.Some? then m.plus.value.distribute.value.android else None
  }

  /** `version?.name?.split(".").map((v) => parseInt(v))`: as many numbers as the name has
      segments; undefined (`None`) when there is no name. */
  function AppVersion(m: Manifest): Option<seq<Number>> {
    if m.version.None? || m.version.value.name.None? then None
    else
      var segments := SplitOn(m.version.value.name.value, ".");
      Some(seq(|segments|, k requires 0 <= k < |segments| => ParseInt(segments[k])))
  }

  /** `parseInt(version?.code || "1")`. */
  function VersionCode(m: Manifest): Number {
    var code := if m.version.Some? then m.version.value.code else None;
    ParseInt(if code.None? || code.value == "" then "1" else code.value)
  }

  /** `android?.minSdkVersion || current`: a missing or zero value keeps `current`. */
  function MinSdk(m: Manifest, current: int): int {
    var o := AndroidOptionsOf(m);
    if o.Some? && o.value.minSdkVersion.Some? && o.value.minSdkVersion.value != 0
    then o.value.minSdkVersion.value else current
  }

  /** `android?.abiFilters || current`: any present list, even an empty one, is truthy. */
  function AbiFilters(m: Manifest, current: seq<string>): seq<string> {
    var o := AndroidOptionsOf(m);
    if o.Some? && o.value.abiFilters.Some? then o.value.abiFilters.value else current
  }

  /** A version name spelled from natural numbers parses back to them, whatever
      their count. */
  lemma VersionRoundTrip(m: Manifest, ns: seq<nat>)
    requires |ns| >= 1
    requires m.version.Some? && m.version.value.name == Some(Join(seq(|ns|, k requires 0 <= k < |ns| => Decimal(ns[k])), "."))
    ensures AppVersion(m) == Some(seq(|ns|, k requires 0 <= k < |ns| => Some(ns[k])))
  {
    var parts := seq(|ns|, k requires 0 <= k < |ns| => Decimal(ns[k]));
    forall k | 0 <= k < |parts| ensures !Contains(parts[k], ".") && ParseInt(parts[k]) == Some(ns[k]) {
      assert parts[k] == Decimal(ns[k]);
      NoDotInDigits(parts[k]);
      ParseDecimal(ns[k], []);
      assert Decimal(ns[k]) + [] == Decimal(ns[k]);
    }
    SplitJoin(parts, ".");
    var segments := SplitOn(m.version.value.name.value, ".");
    assert segments == parts;
    var parsed := seq(|segments|, k requires 0 <= k < |segments| => ParseInt(segments[k]));
    assert parsed == seq(|ns|, k requires 0 <= k < |ns| => Some(ns[k]));
  }

  lemma NoDotInDigits(s: string)
    requires AllDigits(s)
    ensures !Contains(s, ".")
  {
    forall i: nat | i <= |s| ensures !OccursAt(s, ".", i) {
      if i + 1 <= |s| {
        assert s[i..i + 1][0] == s[i];
        assert IsDigit(s[i]);
      }
    }
  }

  /** A missing or empty version code counts as 1; a decimal code parses back. */
  lemma VersionCodeCases(m: Manifest)
    ensures (m.version.None? || m.version.value.code.None? || m.version.value.code == Some("")) ==> VersionCode(m) == Some(1)
    ensures forall n: nat :: m.version.Some? && m.version.value.code == Some(Decimal(n)) ==> VersionCode(m) == Some(n)
  {
    ParseDecimal(1, []);
    assert Decimal(1) + [] == "1";
    forall n: nat | m.version.Some? && m.version.value.code == Some(Decimal(n)) ensures VersionCode(m) == Some(n) {
      ParseDecimal(n, []);
      assert Decimal(n) + [] == Decimal(n);
    }
  }

  /** Truthy-or-default: a missing or zero level in the manifest keeps the
      current one, any other present level replaces it, and so the level is
      never lowered to zero. */
  lemma MinSdkFallback(m: Manifest, current: int)
    ensures var o := AndroidOptionsOf(m);
            (o.None? || o.value.minSdkVersion == None || o.value.minSdkVersion == Some(0)) ==>
              MinSdk(m, current) == current
    ensures var o := AndroidOptionsOf(m);
            (o.Some? && o.value.minSdkVersion.Some? && o.value.minSdkVersion.value != 0) ==>
              MinSdk(m, current) == o.value.minSdkVersion.value
    ensures current != 0 ==> MinSdk(m, current) != 0
    ensures var o := AndroidOptionsOf(m);
            (MinSdk(m, current) == current) || (o.Some? && o.value.minSdkVersion == Some(MinSdk(m, current)))
  {
  }

  lemma VersionScenarioName()
    ensures Join([Decimal(1), Decimal(2), Decimal(3)], ".") == "1.2.3"
    ensures Decimal(45) == "45"
  {
    assert Decimal(45) == Decimal(4) + ['5'];
  }

  /** `{"version": {"name": "1.2.3", "code": "45"}}` gives `[1, 2, 3]` and `45`;
      without a version the numbers are undefined and 1. */
  lemma VersionScenario(m: Manifest)
    ensures m.version == Some(VersionInfo(Some("1.2.3"), Some("45"))) ==>
              AppVersion(m) == Some([Some(1), Some(2), Some(3)]) && VersionCode(m) == Some(45)
    ensures m.version.None? ==> AppVersion(m).None? && VersionCode(m) == Some(1)
  {
    VersionCodeCases(m);
    if m.version == Some(VersionInfo(Some("1.2.3"), Some("45"))) {
      VersionScenarioPresent(m);
    }
  }

  /** The first case of the scenario: both fields present. */
  lemma VersionScenarioPresent(m: Manifest)
    requires m.version == Some(VersionInfo(Some("1.2.3"), Some("45")))
    ensures AppVersion(m) == Some([Some(1), Some(2), Some(3)]) && VersionCode(m) == Some(45)
  {
    VersionScenarioName();
    VersionCodeCases(m);
    VersionOfThree(m);
  }

  /** The name "1.2.3", spelled from its numbers, parses to them. */
  lemma VersionOfThree(m: Manifest)
    requires m.version.Some? && m.version.value.name == Some(Join([Decimal(1), Decimal(2), Decimal(3)], "."))
    ensures AppVersion(m) == Some([Some(1), Some(2), Some(3)])
  {
    var ns: seq<nat> := [1, 2, 3];
    assert seq(|ns|, k requires 0 <= k < |ns| => Decimal(ns[k])) == [Decimal(1), Decimal(2), Decimal(3)];
    VersionRoundTrip(m, ns);
    assert seq(|ns|, k requires 0 <= k < |ns| => Some(ns[k])) == [Some(1), Some(2), Some(3)];
  }

  // ---------------------------------------------------------------------
  // Icons.
  // ---------------------------------------------------------------------

  /** `Object.values(icons)` for `plus.distribute.icons.android`, when present. */
  function Icons(m: Manifest): (r: Option<seq<string>>)
    ensures r.Some? <==> m.plus.Some? && m.plus.value.distribute.Some? && m.plus.value.distribute.value.icons.Some?
                         && m.plus.value.distribute.value.icons.value.android.Some?
    ensures r.Some? ==> var entries := m.plus.value.distribute.value.icons.value.android.value;
                        |r.value| == |entries| && forall k :: 0 <= k < |entries| ==> r.value[k] == entries[k].1
  {
    if m.plus.Some? && m.plus.value.distribute.Some? && m.plus.value.distribute.value.icons.Some?
       && m.plus.value.distribute.value.icons.value.android.Some?
    then
      var entries := m.plus.value.distribute.value.icons.value.android.value;
      Some(seq(|entries|, k requires 0 <= k < |entries| => entries[k].1))
    else None
  }

  // ---------------------------------------------------------------------
  // Permissions: the global pattern android:name="([^"]+)".
  // ---------------------------------------------------------------------

  const NamePrefix := "android:name=\""

  /** The index of the first '"' in `s`, or its length. */
  function QuoteIndex(s: string): (n: nat)
    ensures n <= |s|
    ensures forall k :: 0 <= k < n ==> s[k] != '"'
    ensures n < |s| ==> s[n] == '"'
  {
    if |s| == 0 || s[0] == '"' then 0 else 1 + QuoteIndex(s[1..])
  }

  /** The pattern matched at the start of `s`: the captured value and the text
      after the closing quote. */
  function MatchAt(s: string): (r: Option<(string, string)>)
    ensures r.Some? ==> var (v, rest) := r.value;
                        s == NamePrefix + v + "\"" + rest && |v| > 0 && '"' !in v
  {
    if !StartsWith(s, NamePrefix) then None
    else
      var body := s[|NamePrefix|..];
      var n := QuoteIndex(body);
      if n == 0 || n == |body| then None
      else
        var v, rest := body[..n], body[n + 1..];
        assert s == s[..|NamePrefix|] + body;
        assert body == v + [body[n]] + rest;
        Some((v, rest))
  }

  /** The pattern matches at the start of any text spelled as it describes. */
  lemma MatchAtComplete(v: string, rest: string)
    requires |v| > 0 && '"' !in v
    ensures MatchAt(NamePrefix + v + "\"" + rest) == Some((v, rest))
  {
    var s := NamePrefix + v + "\"" + rest;
    assert s[..|NamePrefix|] == NamePrefix;
    var body := s[|NamePrefix|..];
    assert body == v + "\"" + rest;
    assert forall k :: 0 <= k < |v| ==> body[k] == v[k];
    assert body[|v|] == '"';
    assert QuoteIndex(body) == |v|;
    assert body[..|v|] == v;
    assert body[|v| + 1..] == rest;
  }

  /** The captured values of `s.match(reg)` in order (none when it returns null). */
  function ScanNames(s: string): seq<string>
    decreases |s|
  {
    if |s| == 0 then []
    else match MatchAt(s)
      case Some((v, rest)) => [v] + ScanNames(rest)
      case None => ScanNames(s[1..])
  }

  lemma ContainsInSuffix(s: string, k: nat, t: string)
    requires k <= |s| && Contains(s[k..], t)
    ensures Contains(s, t)
  {
    var i: nat :| i <= |s[k..]| && OccursAt(s[k..], t, i);
    assert s[k + i..k + i + |t|] == s[k..][i..i + |t|];
    assert OccursAt(s, t, k + i);
  }

  /** Every value found is non-empty, holds no '"' and occurs in the fragment
      exactly as the pattern spells it. */
  lemma {:induction false} ScanNamesSound(s: string)
    ensures forall v :: v in ScanNames(s) ==>
              |v| > 0 && '"' !in v && Contains(s, NamePrefix + v + "\"")
    decreases |s|
  {
    if |s| > 0 {
      match MatchAt(s)
      case Some((w, rest)) =>
        ScanNamesSound(rest);
        var k := |NamePrefix + w + "\""|;
        assert s[k..] == rest;
        assert OccursAt(s, NamePrefix + w + "\"", 0) by {
          assert s[..k] == NamePrefix + w + "\"";
        }
        forall v | v in ScanNames(rest) ensures Contains(s, NamePrefix + v + "\"") {
          ContainsInSuffix(s, k, NamePrefix + v + "\"");
        }
      case None =>
        ScanNamesSound(s[1..]);
        forall v | v in ScanNames(s[1..]) ensures Contains(s, NamePrefix + v + "\"") {
          ContainsInSuffix(s, 1, NamePrefix + v + "\"");
        }
    }
  }

  /** A fragment that starts with a well-formed occurrence yields its value first. */
  lemma ScanNamesOfOccurrence(v: string, rest: string)
    requires |v| > 0 && '"' !in v
    ensures ScanNames(NamePrefix + v + "\"" + rest) == [v] + ScanNames(rest)
  {
    MatchAtComplete(v, rest);
  }

  /** Text without an 'a', the first character of the pattern, contributes nothing. */
  lemma {:induction false} ScanNamesSkip(p: string, t: string)
    requires 'a' !in p
    ensures ScanNames(p + t) == ScanNames(t)
    decreases |p|
  {
    if |p| > 0 {
      assert p[0] in p;
      assert !StartsWith(p + t, NamePrefix) by {
        if |NamePrefix| <= |p + t| {
          assert (p + t)[..|NamePrefix|][0] == p[0] != NamePrefix[0];
        }
      }
      assert MatchAt(p + t).None?;
      assert ScanNames(p + t) == ScanNames((p + t)[1..]);
      assert (p + t)[1..] == p[1..] + t;
      ScanNamesSkip(p[1..], t);
    } else {
      assert p + t == t;
    }
  }

  /** Text where the pattern matches at no position contributes nothing,
      whatever follows it. */
  lemma {:induction false} ScanNamesSkipUnmatched(p: string, t: string)
    requires forall i :: 0 <= i < |p| ==> MatchAt((p + t)[i..]).None?
    ensures ScanNames(p + t) == ScanNames(t)
    decreases |p|
  {
    if |p| > 0 {
      assert (p + t)[0..] == p + t;
      assert ScanNames(p + t) == ScanNames((p + t)[1..]);
      assert (p + t)[1..] == p[1..] + t;
      forall i | 0 <= i < |p[1..]| ensures MatchAt((p[1..] + t)[i..]).None? {
        assert (p[1..] + t)[i..] == (p + t)[i + 1..];
      }
      ScanNamesSkipUnmatched(p[1..], t);
    } else {
      assert p + t == t;
    }
  }

  /** The first occurrence of the pattern in a fragment, wherever it stands,
      yields its value ahead of the values after it. */
  lemma ScanNamesFindsOccurrence(p: string, v: string, rest: string)
    requires |v| > 0 && '"' !in v
    requires forall i :: 0 <= i < |p| ==> MatchAt((p + (NamePrefix + v + "\"" + rest))[i..]).None?
    ensures ScanNames(p + NamePrefix + v + "\"" + rest) == [v] + ScanNames(rest)
  {
    ScanNamesSkipUnmatched(p, NamePrefix + v + "\"" + rest);
    ScanNamesOfOccurrence(v, rest);
    Regroup(p, NamePrefix, v, "\"", rest);
  }

  /** Concatenation regrouped to the right of its first operand. */
  lemma Regroup(a: string, b: string, c: string, d: string, e: string)
    ensures a + b + c + d + e == a + (b + c + d + e)
  {
  }

  /** `permissions.map(item => item.match(reg)).filter(item => item !== null)
      .flat().map(item => item.replace(reg, "$1"))`: the values of all
      fragments, fragment by fragment, in order. */
  function PermissionList(fragments: seq<string>): seq<string> {
    if |fragments| == 0 then [] else ScanNames(fragments[0]) + PermissionList(fragments[1..])
  }

  lemma {:induction false} PermissionListConcat(a: seq<string>, b: seq<string>)
    ensures PermissionList(a + b) == PermissionList(a) + PermissionList(b)
    decreases |a|
  {
    if |a| > 0 {
      assert (a + b)[0] == a[0];
      assert (a + b)[1..] == a[1..] + b;
      PermissionListConcat(a[1..], b);
      assert PermissionList(a + b) == ScanNames(a[0]) + PermissionList(a[1..] + b);
    } else {
      assert a + b == b;
    }
  }

  /** Every listed permission was written, as the pattern spells it, in one of
      the fragments; nothing else (such as the default list) is added. */
  lemma {:induction false} PermissionListSound(fragments: seq<string>)
    ensures forall v :: v in PermissionList(fragments) ==>
              |v| > 0 && '"' !in v &&
              exists i :: 0 <= i < |fragments| && Contains(fragments[i], NamePrefix + v + "\"")
    decreases |fragments|
  {
    if |fragments| > 0 {
      ScanNamesSound(fragments[0]);
      PermissionListSound(fragments[1..]);
      forall v | v in PermissionList(fragments[1..])
        ensures exists i :: 0 <= i < |fragments| && Contains(fragments[i], NamePrefix + v + "\"")
      {
        var j :| 0 <= j < |fragments[1..]| && Contains(fragments[1..][j], NamePrefix + v + "\"");
        assert fragments[j + 1] == fragments[1..][j];
      }
      forall v | v in ScanNames(fragments[0])
        ensures exists i :: 0 <= i < |fragments| && Contains(fragments[i], NamePrefix + v + "\"")
      {
        assert Contains(fragments[0], NamePrefix + v + "\"");
      }
    }
  }

  /** The first occurrence in any fragment is listed. */
  lemma {:induction false} PermissionListComplete(fragments: seq<string>, j: nat, p: string, v: string, rest: string)
    requires j < |fragments| && fragments[j] == p + NamePrefix + v + "\"" + rest
    requires |v| > 0 && '"' !in v
    requires forall i :: 0 <= i < |p| ==> MatchAt((p + (NamePrefix + v + "\"" + rest))[i..]).None?
    ensures v in PermissionList(fragments)
    decreases j
  {
    if j == 0 {
      ScanNamesFindsOccurrence(p, v, rest);
      assert v in ScanNames(fragments[0]);
    } else {
      assert fragments[1..][j - 1] == fragments[j];
      PermissionListComplete(fragments[1..], j - 1, p, v, rest);
    }
  }

  lemma CameraNameUnquoted()
    ensures '"' !in "android.permission.CAMERA"
  {
    var v := "android.permission.CAMERA";
    forall k | 0 <= k < |v| ensures v[k] != '"' {
    }
  }

  /** Neither the opening of a `uses-permission` tag nor its closing holds an 'a'. */
  lemma TagTextsFree()
    ensures 'a' !in "<uses-permission " && 'a' !in "/>"
  {
    var o := "<uses-permission ";
    forall k | 0 <= k < |o| ensures o[k] != 'a' {
    }
  }

  /** A fragment holding one `android:name` between texts without an 'a'
      yields just that name. */
  lemma {:induction false} SingleName(open: string, v: string, close: string)
    requires 'a' !in open && 'a' !in close && |v| > 0 && '"' !in v
    ensures PermissionList([open + NamePrefix + v + "\"" + close]) == [v]
  {
    var f := open + NamePrefix + v + "\"" + close;
    ScanNamesSkip(close, []);
    assert close + [] == close;
    assert ScanNames(close) == [];
    ScanNamesOfOccurrence(v, close);
    assert f == open + (NamePrefix + v + "\"" + close);
    ScanNamesSkip(open, NamePrefix + v + "\"" + close);
    assert ScanNames(f) == [v];
    assert PermissionList([f]) == ScanNames(f) + PermissionList([]);
  }

  /** A `uses-permission` fragment naming `v` yields just `v`. */
  lemma UsesPermission(v: string)
    requires |v| > 0 && '"' !in v
    ensures PermissionList(["<uses-permission " + NamePrefix + v + "\"/>"]) == [v]
  {
    TagTextsFree();
    SingleName("<uses-permission ", v, "/>");
    assert "<uses-permission " + NamePrefix + v + "\"/>" == "<uses-permission " + NamePrefix + v + "\"" + "/>";
  }

  /** A typical fragment yields just its permission name. */
  lemma PermissionExample()
    ensures PermissionList(["<uses-permission " + NamePrefix + "android.permission.CAMERA" + "\"/>"])
         == ["android.permission.CAMERA"]
  {
    CameraNameUnquoted();
    UsesPermission("android.permission.CAMERA");
  }

  function GooglePermissions(m: Manifest): Option<seq<string>> {
    if m.plus.Some? && m.plus.value.distribute.Some? && m.plus.value.distribute.value.google.Some?
    then m.plus.value.distribute.value.google.value.permissions
    else None
  }

  // ---------------------------------------------------------------------
  // The class.
  // ---------------------------------------------------------------------

  class ProcessAndroid {
    const distPath: string
    var manifest: Option<Manifest>

    var appId: Option<string>
    var appName: Option<string>
    var appDescription: Option<string>
    var appVersion: Option<seq<Number>>
    var appVersionCode: Number
    var appIcons: seq<string>
    var appModules: ModuleTable
    var appPermissions: seq<string>
    var minSdkVersion: int
    var abiFilters: seq<string>

    /** Every setting holds its declared default. */
    predicate HasDefaults()
      reads this
    {
      && appId == Some(DefaultAppId) && appName == Some(DefaultAppName) && appDescription == Some("")
      && appVersion == Some(DefaultVersion) && appVersionCode == Some(DefaultVersionCode)
      && appIcons == [] && appModules == map[] && appPermissions == []
      && minSdkVersion == DefaultMinSdk && abiFilters == DefaultAbiFilters
    }

    /** Every setting is the projection of manifest `m` over the defaults. */
    predicate Projects(m: Manifest)
      reads this
    {
      && appId == m.id && appName == m.name && appDescription == m.description
      && appVersion == AppVersion(m) && appVersionCode == VersionCode(m)
      && minSdkVersion == MinSdk(m, DefaultMinSdk)
      && abiFilters == AbiFilters(m, DefaultAbiFilters)
      && appIcons == Icons(m).GetOr([])
      && appModules == m.permissions.GetOr(map[])
      && appPermissions == (if GooglePermissions(m).Some? then PermissionList(GooglePermissions(m).value) else [])
    }

    /** `new ProcessAndroid(dist_path)`. `manifestFile` is the decoded
        dist_path/manifest.json, or `None` when that file does not exist.
        Without a manifest every setting keeps its default; with one, each
        setting is the projection of the manifest over the defaults. */
    constructor(distPath: string, manifestFile: Option<Manifest>)
      ensures this.distPath == distPath && manifest == manifestFile
      ensures manifestFile.None? ==> HasDefaults()
      ensures manifestFile.Some? ==> Projects(manifestFile.value)
    {
      this.distPath := distPath;
      manifest := None;
      appId, appName, appDescription := Some(DefaultAppId), Some(DefaultAppName), Some("");
      appVersion, appVersionCode := Some(DefaultVersion), Some(DefaultVersionCode);
      appIcons, appModules, appPermissions := [], map[], [];
      minSdkVersion, abiFilters := DefaultMinSdk, DefaultAbiFilters;
      new;
      Init(manifestFile);
    }

    /** `init`: read the manifest, then apply each projection step when one was read. */
    method Init(manifestFile: Option<Manifest>)
      modifies this
      requires manifest.None? && HasDefaults()
      ensures manifest == manifestFile
      ensures manifestFile.None? ==> HasDefaults()
      ensures manifestFile.Some? ==> Projects(manifestFile.value)
    {
      InitManifest(manifestFile);
      if manifest.Some? {
        InitSteps();
      }
    }

    /** The projection steps of `init`, run on the defaults once a manifest was read. */
    method InitSteps()
      modifies this
      requires manifest.Some? && HasDefaults()
      ensures manifest == old(manifest) && Projects(manifest.value)
    {
      ghost var m := manifest.value;
      InitBaseConfig();
      assert manifest == Some(m) && appIcons == [] && appModules == map[] && appPermissions == [];
      InitIcons();
      assert appIcons == Icons(m).GetOr([]);
      InitModules();
      assert appModules == m.permissions.GetOr(map[]);
      InitPermissions();
    }

    /** `initMainifest`: the manifest is set only when the file exists. */
    method InitManifest(manifestFile: Option<Manifest>)
      modifies this`manifest
      ensures manifest == (if manifestFile.Some? then manifestFile else old(manifest))
    {
      if manifestFile.Some? {
        manifest := manifestFile;
      }
    }

    /** `initBaseConfig`: id, name and description are copied even when absent;
        the version is split and parsed; the minimum SDK level and the ABI
        filters fall back to their current values. */
    method InitBaseConfig()
      modifies this`appId, this`appName, this`appDescription, this`appVersion,
               this`appVersionCode, this`minSdkVersion, this`abiFilters
      ensures manifest.None? ==>
                && appId == old(appId) && appName == old(appName) && appDescription == old(appDescription)
                && appVersion == old(appVersion) && appVersionCode == old(appVersionCode)
                && minSdkVersion == old(minSdkVersion) && abiFilters == old(abiFilters)
      ensures manifest.Some? ==>
                var m := manifest.value;
                && appId == m.id && appName == m.name && appDescription == m.description
                && appVersion == AppVersion(m) && appVersionCode == VersionCode(m)
                && minSdkVersion == MinSdk(m, old(minSdkVersion))
                && abiFilters == AbiFilters(m, old(abiFilters))
    {
      if manifest.Some? {
        var m := manifest.value;
        appId := m.id;
        appName := m.name;
        appDescription := m.description;
        appVersion := AppVersion(m);
        appVersionCode := VersionCode(m);
        minSdkVersion := MinSdk(m, minSdkVersion);
        abiFilters := AbiFilters(m, abiFilters);
      }
    }

    /** `initIcons`: the icon files, when the manifest lists any. */
    method InitIcons()
      modifies this`appIcons
      ensures appIcons == (if manifest.Some? && Icons(manifest.value).Some? then Icons(manifest.value).value else old(appIcons))
    {
      if manifest.Some? {
        var icons := Icons(manifest.value);
        if icons.Some? {
          appIcons := icons.value;
        }
      }
    }

    /** `initModules`: the module table, when the manifest has one. */
    method InitModules()
      modifies this`appModules
      ensures appModules == (if manifest.Some? && manifest.value.permissions.Some? then manifest.value.permissions.value else old(appModules))
    {
      if manifest.Some? && manifest.value.permissions.Some? {
        appModules := manifest.value.permissions.value;
      }
    }

    /** `initPermissions`: the permission names found in the Google fragments,
        when the manifest has that list; the default list is never merged. */
    method InitPermissions()
      modifies this`appPermissions
      ensures appPermissions == (if manifest.Some? && GooglePermissions(manifest.value).Some?
                                 then PermissionList(GooglePermissions(manifest.value).value) else old(appPermissions))
    {
      if manifest.Some? {
        var permissions := GooglePermissions(manifest.value);
        if permissions.Some? {
          appPermissions := PermissionList(permissions.value);
        }
      }
    }
  }
}
