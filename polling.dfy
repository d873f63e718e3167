/**
 * The pure rules of the device poller, shared by the scanners: the MAC
 * allow-list read from the configuration, the scan-interval floor, the
 * one-hour account cache, the network and device filters, and the three
 * per-poll results (present MACs, MAC to name, MAC to attributes).
 */
module Polling {
  import opened Wrappers
  import opened Strings
  import opened Urls
  import opened Api

  /** Polls may not come more often than every 25 seconds. */
  const MinimumScanInterval: int := 25

  /** The account is cached for an hour. */
  const CacheExpiry: int := 3600

  // ---------------------------------------------------------------------------
  // configuration

  /** One configured entry, stripped and, when `lower` holds, lower-cased. */
  function Normalize(piece: string, lower: bool): (m: string)
    ensures m == [] || (!IsSpace(m[0]) && !IsSpace(m[|m| - 1]))
    ensures lower ==> forall i :: 0 <= i < |m| ==> !IsUpper(m[i])
  {
    var t := Strip(piece);
    if lower then
      LowerKeepsEnds(t);
      Lower(t)
    else t
  }

  /** Normalizing adds no character other than a lower-case letter. */
  lemma NormalizeKeepsOut(piece: string, lower: bool, c: char)
    requires c !in piece && !IsUpper(c) && !('a' <= c <= 'z')
    ensures c !in Normalize(piece, lower)
  {
    var k := StripInside(piece);
    var t := Strip(piece);
    forall i | 0 <= i < |t| ensures t[i] != c && LowerChar(t[i]) != c {
      assert t[i] == piece[k + i];
    }
  }

  /**
   * The allow-list `{x.strip() for x in config.split(sep) if x != ''}`, each
   * entry also lower-cased when `lower` holds. A piece is dropped only when
   * it is empty before stripping.
   */
  function AllowList(config: string, sep: char, lower: bool): set<string> {
    set x | x in Split(config, sep) && x != "" :: Normalize(x, lower)
  }

  /**
   * Every entry of an allow-list is stripped, holds no separator, and is
   * lower-case when the list is lower-cased.
   */
  lemma AllowListEntry(config: string, sep: char, lower: bool, m: string)
    requires m in AllowList(config, sep, lower)
    requires !IsUpper(sep) && !('a' <= sep <= 'z')
    ensures m == [] || (!IsSpace(m[0]) && !IsSpace(m[|m| - 1]))
    ensures sep !in m
    ensures lower ==> forall i :: 0 <= i < |m| ==> !IsUpper(m[i])
  {
    var x :| x in Split(config, sep) && x != "" && m == Normalize(x, lower);
    NormalizeKeepsOut(x, lower, sep);
  }

  /** The allow-list of device_tracker.py: comma-separated, stripped and lower-cased. */
  function MacAllowList(config: string): set<string> {
    AllowList(config, ',', true)
  }

  /** The allow-list of the legacy tracker: split on '.', stripped, case kept. */
  function LegacyAllowList(config: string): set<string> {
    AllowList(config, '.', false)
  }

  /** A legacy setting without '.' is a single allow-list entry: the whole setting, stripped. */
  lemma LegacyAllowListOfOne(config: string)
    requires config != "" && '.' !in config
    ensures LegacyAllowList(config) == {Strip(config)}
  {
    SplitWithoutSeparator(config, '.');
    AllowListOfOne(config, '.', false);
  }

  /** Two dot-free MACs joined by ", " hold no '.' and one ',', right after the first. */
  lemma CommaJoin(a: string, b: string)
    requires '.' !in a && '.' !in b
    ensures var config := a + ", " + b;
            '.' !in config && |a| < |config| && config[|a|] == ','
  {
    var config := a + ", " + b;
    forall i | 0 <= i < |config| ensures config[i] != '.' {
      if i < |a| { assert config[i] == a[i]; }
      else if i >= |a| + 2 { assert config[i] == b[i - |a| - 2]; }
    }
  }

  /**
   * Two MACs written comma-separated, as the legacy module's documentation
   * shows, form one entry under its '.' split: no MAC without a comma is
   * tracked, not even the first one listed.
   */
  lemma LegacyCommaListTracksNoMac(a: string, b: string, d: Device)
    requires '.' !in a && '.' !in b && ',' !in d.mac
    ensures !Tracked(d, DeviceFilter(LegacyAllowList(a + ", " + b), true))
  {
    var config := a + ", " + b;
    CommaJoin(a, b);
    LegacyAllowListOfOne(config);
    StripKeeps(config, |a|);
    assert d.mac !in LegacyAllowList(config);
  }

  /** An empty setting gives an empty allow-list, which lets every MAC through. */
  lemma EmptyConfigNoAllowList(sep: char, lower: bool)
    ensures AllowList("", sep, lower) == {}
  {
    assert Split("", sep) == [""];
  }

  /**
   * Writing MACs that are already normal forms, joined by the separator,
   * gives back exactly those MACs.
   */
  lemma {:induction false} AllowListOfJoin(macs: seq<string>, sep: char, lower: bool)
    requires |macs| >= 1
    requires forall k :: 0 <= k < |macs| ==> macs[k] != "" && sep !in macs[k] && Normalize(macs[k], lower) == macs[k]
    ensures AllowList(Join(macs, sep), sep, lower) == set k | 0 <= k < |macs| :: macs[k]
  {
    SplitJoin(macs, sep);
    var l := AllowList(Join(macs, sep), sep, lower);
    forall m | m in l ensures exists k :: 0 <= k < |macs| && macs[k] == m {
      var x :| x in Split(Join(macs, sep), sep) && x != "" && m == Normalize(x, lower);
      var k :| 0 <= k < |macs| && macs[k] == x;
    }
  }

  /** A lone blank splits into one piece, itself. */
  lemma SplitBlank(sep: char)
    requires sep != ' '
    ensures Split(" ", sep) == [" "]
  {
    var rest := Split(" "[1..], sep);
    assert " "[1..] == [] && " "[0] == ' ';
    assert rest == [[]];
    assert [' '] + rest[0] == " ";
  }

  /** A blank piece normalizes to the empty string. */
  lemma NormalizeBlank()
    ensures Normalize(" ", true) == ""
  {
    assert Strip(" ") == [] by { assert IsSpace(" "[0]); }
    assert Lower([]) == [];
  }

  /** A non-empty setting without a separator is an allow-list of one entry. */
  lemma AllowListOfOne(config: string, sep: char, lower: bool)
    requires config != "" && Split(config, sep) == [config]
    ensures AllowList(config, sep, lower) == {Normalize(config, lower)}
  {
    var l := AllowList(config, sep, lower);
    assert Normalize(config, lower) in l by { assert config in Split(config, sep); }
    forall m | m in l ensures m == Normalize(config, lower) {
      var x :| x in Split(config, sep) && x != "" && m == Normalize(x, lower);
    }
  }

  /**
   * A blank-but-not-empty piece survives the `!= ''` test and strips to "":
   * the setting " " makes a non-empty allow-list holding only "".
   */
  lemma BlankPieceKept()
    ensures MacAllowList(" ") == {""}
  {
    SplitBlank(',');
    NormalizeBlank();
    AllowListOfOne(" ", ',', true);
  }

  /** The scan interval in seconds: the configured one when it is at least 25, otherwise 25. */
  function EffectiveInterval(configured: Option<int>): (r: int)
    ensures r >= MinimumScanInterval
    ensures configured.Some? && configured.value >= MinimumScanInterval ==> r == configured.value
    ensures configured.None? || configured.value < MinimumScanInterval ==> r == MinimumScanInterval
  {
    if configured.None? || configured.value < MinimumScanInterval then MinimumScanInterval else configured.value
  }

  // ---------------------------------------------------------------------------
  // the account cache

  /** The account is fetched when it never was, or when the last fetch is at least an hour old. */
  predicate AccountStale(fetchedAt: Option<int>, now: int) {
    fetchedAt.None? || now - fetchedAt.value >= CacheExpiry
  }

  /**
   * For a series of polls at times `nows`, which of them fetch the account,
   * when every fetch succeeds (the timestamp then becomes the poll's time).
   */
  function Refetches(fetchedAt: Option<int>, nows: seq<int>): (r: seq<bool>)
    ensures |r| == |nows|
    decreases |nows|
  {
    if nows == [] then []
    else
      var fetch := AccountStale(fetchedAt, nows[0]);
      [fetch] + Refetches(if fetch then Some(nows[0]) else fetchedAt, nows[1..])
  }

  /** Polls within an hour of the last fetch reuse the cached account. */
  lemma {:induction false} NoRefetchWithinHour(t: int, nows: seq<int>)
    requires forall k :: 0 <= k < |nows| ==> t <= nows[k] < t + CacheExpiry
    ensures forall k :: 0 <= k < |nows| ==> !Refetches(Some(t), nows)[k]
    decreases |nows|
  {
    if nows != [] {
      NoRefetchWithinHour(t, nows[1..]);
      assert forall k :: 1 <= k < |nows| ==> Refetches(Some(t), nows)[k] == Refetches(Some(t), nows[1..])[k - 1];
    }
  }

  /**
   * Among polls in time order, starting no earlier than the last fetch, a
   * poll an hour or more after the previous poll always fetches the account.
   */
  lemma {:induction false} RefetchAfterHour(fetchedAt: Option<int>, nows: seq<int>, k: int)
    requires 0 < k < |nows| && nows[k] - nows[k - 1] >= CacheExpiry
    requires fetchedAt.None? || fetchedAt.value <= nows[0]
    requires forall j :: 0 < j < |nows| ==> nows[j - 1] <= nows[j]
    ensures Refetches(fetchedAt, nows)[k]
    decreases |nows|
  {
    var next := if AccountStale(fetchedAt, nows[0]) then Some(nows[0]) else fetchedAt;
    assert Refetches(fetchedAt, nows)[k] == Refetches(next, nows[1..])[k - 1];
    if k > 1 {
      RefetchAfterHour(next, nows[1..], k - 1);
    }
  }

  /**
   * Polls at `t`, then any time in the next hour, then an hour or more after
   * `t`: the first and the last fetch the account, the middle one does not.
   */
  lemma CacheScenario(t: int, a: int, b: int)
    requires 0 <= a < CacheExpiry && b >= 0
    ensures Refetches(None, [t, t + a, t + CacheExpiry + b]) == [true, false, true]
  {
    var nows := [t, t + a, t + CacheExpiry + b];
    assert nows[1..][1..][1..] == [];
    assert Refetches(Some(t), nows[1..][1..]) == [true];
    assert Refetches(Some(t), nows[1..]) == [false, true];
  }

  // ---------------------------------------------------------------------------
  // filters

  /** A network is polled when there is no network filter or its ID is in it. */
  predicate NetworkSelected(id: int, onlyNetworks: set<int>) {
    onlyNetworks == {} || id in onlyNetworks
  }

  /** The per-device filters: the MAC allow-list and whether only wireless devices count. */
  datatype DeviceFilter = DeviceFilter(onlyMacs: set<string>, onlyWireless: bool)

  /**
   * A device is reported when it is connected, wireless unless wired devices
   * are allowed, and on the allow-list unless that is empty. The MAC is
   * compared exactly as reported.
   */
  predicate Tracked(d: Device, f: DeviceFilter) {
    d.connected && (!f.onlyWireless || d.wireless) && (f.onlyMacs == {} || d.mac in f.onlyMacs)
  }

  /** The devices that pass the filter, in their original order. */
  function Kept(ds: seq<Device>, f: DeviceFilter): (r: seq<Device>)
    ensures |r| <= |ds|
    decreases |ds|
  {
    if ds == [] then []
    else Kept(ds[..|ds| - 1], f) + (if Tracked(ds[|ds| - 1], f) then [ds[|ds| - 1]] else [])
  }

  function Macs(ds: seq<Device>): (macs: seq<string>)
    ensures |macs| == |ds|
    ensures forall k :: 0 <= k < |ds| ==> macs[k] == ds[k].mac
  {
    seq(|ds|, k requires 0 <= k < |ds| => ds[k].mac)
  }

  /** The present-MAC list of a poll over the devices `ds`. */
  function TrackedMacs(ds: seq<Device>, f: DeviceFilter): seq<string> {
    Macs(Kept(ds, f))
  }

  /** Exactly the devices of `ds` that pass the filter are kept. */
  lemma {:induction false} KeptMembers(ds: seq<Device>, f: DeviceFilter, d: Device)
    ensures d in Kept(ds, f) <==> d in ds && Tracked(d, f)
    decreases |ds|
  {
    if ds != [] {
      var init := ds[..|ds| - 1];
      KeptMembers(init, f, d);
      assert ds == init + [ds[|ds| - 1]];
    }
  }

  /** Filtering a concatenation filters each part, in order. */
  lemma {:induction false} KeptAppend(a: seq<Device>, b: seq<Device>, f: DeviceFilter)
    ensures Kept(a + b, f) == Kept(a, f) + Kept(b, f)
    decreases |b|
  {
    if b != [] {
      var init := b[..|b| - 1];
      assert (a + b)[..|a + b| - 1] == a + init;
      KeptAppend(a, init, f);
    } else {
      assert a + b == a;
    }
  }

  lemma MacsAppend(a: seq<Device>, b: seq<Device>)
    ensures Macs(a + b) == Macs(a) + Macs(b)
  {
  }

  /**
   * A MAC is in the present-MAC list exactly when some device reporting it
   * passes the filter.
   */
  lemma TrackedMacsMembers(ds: seq<Device>, f: DeviceFilter, mac: string)
    ensures mac in TrackedMacs(ds, f) <==> exists k :: 0 <= k < |ds| && Tracked(ds[k], f) && ds[k].mac == mac
  {
    var kept := Kept(ds, f);
    if mac in TrackedMacs(ds, f) {
      var i :| 0 <= i < |kept| && Macs(kept)[i] == mac;
      KeptMembers(ds, f, kept[i]);
      var k :| 0 <= k < |ds| && ds[k] == kept[i];
    }
    if exists k :: 0 <= k < |ds| && Tracked(ds[k], f) && ds[k].mac == mac {
      var k :| 0 <= k < |ds| && Tracked(ds[k], f) && ds[k].mac == mac;
      KeptMembers(ds, f, ds[k]);
      var i :| 0 <= i < |kept| && kept[i] == ds[k];
      assert Macs(kept)[i] == mac;
    }
  }

  /**
   * The allow-list of device_tracker.py is lower-cased but device MACs are
   * compared as reported: under a non-empty list, a MAC reported with an
   * upper-case letter is never tracked.
   */
  lemma UpperCaseMacNeverTracked(config: string, onlyWireless: bool, d: Device, i: int)
    requires MacAllowList(config) != {}
    requires 0 <= i < |d.mac| && IsUpper(d.mac[i])
    ensures !Tracked(d, DeviceFilter(MacAllowList(config), onlyWireless))
  {
    if d.mac in MacAllowList(config) {
      AllowListEntry(config, ',', true, d.mac);
    }
  }

  /** With the allow-list made from " ", no device with a MAC is tracked. */
  lemma BlankAllowListTracksNothing(d: Device, onlyWireless: bool)
    requires d.mac != ""
    ensures !Tracked(d, DeviceFilter(MacAllowList(" "), onlyWireless))
  {
    BlankPieceKept();
  }

  // ---------------------------------------------------------------------------
  // names and attributes

  /** The display name: the nickname, unless it is null, empty or the text "None"; then the hostname. */
  function DisplayName(d: Device): Option<string> {
    if !Truthy(d.nickname) || d.nickname.value == "None" then d.hostname else d.nickname
  }

  /**
   * The name map gets an entry only for a truthy name: there is one exactly
   * when the nickname is usable or the hostname is non-empty, and a usable
   * nickname wins over the hostname.
   */
  function NameValue(d: Device): (r: Option<string>)
    ensures r.Some? <==> (Truthy(d.nickname) && d.nickname.value != "None") || Truthy(d.hostname)
    ensures r.Some? ==> r.value != ""
    ensures Truthy(d.nickname) && d.nickname.value != "None" ==> r == d.nickname
  {
    if Truthy(DisplayName(d)) then DisplayName(d) else None
  }

  /** The attribute map gets an entry only for a truthy (non-empty) `source`. */
  function AttrsValue(d: Device): Option<Attrs> {
    if d.source.Some? && |d.source.value| > 0 then d.source else None
  }

  /** The device writes an entry: it passes the filter and has a value to record. */
  predicate Writes<V>(d: Device, f: DeviceFilter, value: Device -> Option<V>) {
    Tracked(d, f) && value(d).Some?
  }

  /** The map `m` after recording, device by device, the value of each kept device under its MAC. */
  function Recorded<V>(m: map<string, V>, ds: seq<Device>, f: DeviceFilter, value: Device -> Option<V>): map<string, V>
    decreases |ds|
  {
    if ds == [] then m
    else
      var before := Recorded(m, ds[..|ds| - 1], f, value);
      var d := ds[|ds| - 1];
      if Writes(d, f, value) then before[d.mac := value(d).value] else before
  }

  lemma {:induction false} RecordedAppend<V>(m: map<string, V>, a: seq<Device>, b: seq<Device>, f: DeviceFilter, value: Device -> Option<V>)
    ensures Recorded(m, a + b, f, value) == Recorded(Recorded(m, a, f, value), b, f, value)
    decreases |b|
  {
    if b != [] {
      assert (a + b)[..|a + b| - 1] == a + b[..|b| - 1];
      RecordedAppend(m, a, b[..|b| - 1], f, value);
    } else {
      assert a + b == a;
    }
  }

  /** Device `k` is the last one of `ds` that writes an entry for `mac`. */
  ghost predicate LastWriter<V>(ds: seq<Device>, f: DeviceFilter, value: Device -> Option<V>, mac: string, k: int) {
    0 <= k < |ds| && Writes(ds[k], f, value) && ds[k].mac == mac
    && forall j :: k < j < |ds| ==> !(Writes(ds[j], f, value) && ds[j].mac == mac)
  }

  /** Last write wins: the entry for `mac` is the value of the last device of `ds` that writes one. */
  lemma {:induction false} RecordedLastWriter<V>(m: map<string, V>, ds: seq<Device>, f: DeviceFilter, value: Device -> Option<V>, mac: string, k: int)
    requires LastWriter(ds, f, value, mac, k)
    ensures mac in Recorded(m, ds, f, value) && Recorded(m, ds, f, value)[mac] == value(ds[k]).value
    decreases |ds|
  {
    if k < |ds| - 1 {
      var init := ds[..|ds| - 1];
      assert LastWriter(init, f, value, mac, k);
      RecordedLastWriter(m, init, f, value, mac, k);
    }
  }

  /** When no device of `ds` writes an entry for `mac`, the entry of `m` stays as it was. */
  lemma {:induction false} RecordedUntouched<V>(m: map<string, V>, ds: seq<Device>, f: DeviceFilter, value: Device -> Option<V>, mac: string)
    requires forall k :: 0 <= k < |ds| ==> !(Writes(ds[k], f, value) && ds[k].mac == mac)
    ensures mac in Recorded(m, ds, f, value) <==> mac in m
    ensures mac in m ==> Recorded(m, ds, f, value)[mac] == m[mac]
    decreases |ds|
  {
    if ds != [] {
      var init := ds[..|ds| - 1];
      assert forall k :: 0 <= k < |init| ==> init[k] == ds[k];
      RecordedUntouched(m, init, f, value, mac);
      assert !(Writes(ds[|ds| - 1], f, value) && ds[|ds| - 1].mac == mac);
    }
  }

  /**
   * A poll's map, built from empty, has an entry exactly for the MACs of the
   * devices that write one; each of these MACs is in the present-MAC list.
   */
  lemma RecordedKeys<V>(ds: seq<Device>, f: DeviceFilter, value: Device -> Option<V>, mac: string)
    ensures mac in Recorded(map[], ds, f, value) <==> exists k :: 0 <= k < |ds| && Writes(ds[k], f, value) && ds[k].mac == mac
    ensures mac in Recorded(map[], ds, f, value) ==> mac in TrackedMacs(ds, f)
  {
    TrackedMacsMembers(ds, f, mac);
    if exists k :: 0 <= k < |ds| && Writes(ds[k], f, value) && ds[k].mac == mac {
      var k := LastWriterExists(ds, f, value, mac);
      RecordedLastWriter(map[], ds, f, value, mac, k);
    } else {
      RecordedUntouched(map[], ds, f, value, mac);
    }
  }

  lemma {:induction false} LastWriterExists<V>(ds: seq<Device>, f: DeviceFilter, value: Device -> Option<V>, mac: string) returns (k: int)
    requires exists k :: 0 <= k < |ds| && Writes(ds[k], f, value) && ds[k].mac == mac
    ensures LastWriter(ds, f, value, mac, k)
    decreases |ds|
  {
    var d := ds[|ds| - 1];
    if Writes(d, f, value) && d.mac == mac {
      k := |ds| - 1;
    } else {
      var init := ds[..|ds| - 1];
      var j :| 0 <= j < |ds| && Writes(ds[j], f, value) && ds[j].mac == mac;
      assert init[j] == ds[j];
      k := LastWriterExists(init, f, value, mac);
      assert forall i :: 0 <= i < |init| ==> init[i] == ds[i];
    }
  }

  /** The MAC-to-name map of a poll over `ds`. */
  function NameMap(ds: seq<Device>, f: DeviceFilter): map<string, string> {
    Recorded(map[], ds, f, NameValue)
  }

  /** The MAC-to-attributes map of a poll over `ds`. */
  function AttrsMap(ds: seq<Device>, f: DeviceFilter): map<string, Attrs> {
    Recorded(map[], ds, f, AttrsValue)
  }

  /**
   * The nickname fallback: a kept device whose nickname is null, empty or
   * "None" and whose hostname is non-empty is listed under its hostname when
   * no later device reports the same MAC with a name.
   */
  lemma HostnameFallback(ds: seq<Device>, f: DeviceFilter, k: int)
    requires 0 <= k < |ds| && Tracked(ds[k], f)
    requires !Truthy(ds[k].nickname) || ds[k].nickname.value == "None"
    requires Truthy(ds[k].hostname)
    requires forall j :: k < j < |ds| ==> !(Writes(ds[j], f, NameValue) && ds[j].mac == ds[k].mac)
    ensures ds[k].mac in NameMap(ds, f) && NameMap(ds, f)[ds[k].mac] == ds[k].hostname.value
  {
    assert LastWriter(ds, f, NameValue, ds[k].mac, k);
    RecordedLastWriter(map[], ds, f, NameValue, ds[k].mac, k);
  }

  /**
   * A kept device with a usable nickname is listed under it when no later
   * device reports the same MAC with a name.
   */
  lemma NicknamePreferred(ds: seq<Device>, f: DeviceFilter, k: int)
    requires 0 <= k < |ds| && Tracked(ds[k], f)
    requires Truthy(ds[k].nickname) && ds[k].nickname.value != "None"
    requires forall j :: k < j < |ds| ==> !(Writes(ds[j], f, NameValue) && ds[j].mac == ds[k].mac)
    ensures ds[k].mac in NameMap(ds, f) && NameMap(ds, f)[ds[k].mac] == ds[k].nickname.value
  {
    assert LastWriter(ds, f, NameValue, ds[k].mac, k);
    RecordedLastWriter(map[], ds, f, NameValue, ds[k].mac, k);
  }

  /**
   * A kept device with a non-empty `source` has it as the attributes of its
   * MAC when no later device reports the same MAC with attributes; a device
   * whose `source` is null or empty records nothing.
   */
  lemma SourceRecorded(ds: seq<Device>, f: DeviceFilter, k: int)
    requires 0 <= k < |ds| && Tracked(ds[k], f)
    requires forall j :: k < j < |ds| ==> !(Writes(ds[j], f, AttrsValue) && ds[j].mac == ds[k].mac)
    ensures ds[k].source.Some? && ds[k].source.value != map[] ==>
              ds[k].mac in AttrsMap(ds, f) && AttrsMap(ds, f)[ds[k].mac] == ds[k].source.value
    ensures !Writes(ds[k], f, AttrsValue) <==> ds[k].source.None? || ds[k].source.value == map[]
  {
    if ds[k].source.Some? && ds[k].source.value != map[] {
      assert |ds[k].source.value| > 0;
      assert LastWriter(ds, f, AttrsValue, ds[k].mac, k);
      RecordedLastWriter(map[], ds, f, AttrsValue, ds[k].mac, k);
    }
  }

  // ---------------------------------------------------------------------------
  // the device lists fetched in one poll

  /** The payloads a device list can arrive as: a list, or "" (which iterates as nothing). */
  predicate IsDeviceList(b: Body) {
    b.Blank? || b.DevicesBody?
  }

  function DevicesIn(b: Body): seq<Device> {
    if b.DevicesBody? then b.devices else []
  }

  /** Every device of the fetched lists, in fetch order. */
  function AllDevices(bodies: seq<Body>): seq<Device>
    decreases |bodies|
  {
    if bodies == [] then [] else AllDevices(bodies[..|bodies| - 1]) + DevicesIn(bodies[|bodies| - 1])
  }

  lemma AllDevicesSnoc(bodies: seq<Body>, b: Body)
    ensures AllDevices(bodies + [b]) == AllDevices(bodies) + DevicesIn(b)
  {
    assert (bodies + [b])[..|bodies|] == bodies;
  }

  /** A fetched payload as the network loops iterate it: anything but a device list raises. */
  function AsDeviceList(res: Result<Body, Fault>): (r: Result<Body, Fault>)
    ensures r.Ok? <==> res.Ok? && IsDeviceList(res.value)
    ensures r.Ok? || res.Err? ==> r == res
  {
    if res.Ok? && !IsDeviceList(res.value) then Err(Malformed) else res
  }

  /** Where a network loop stands: how it has ended so far, the link, and the device lists fetched, in order. */
  datatype Sweep = Sweep(outcome: Outcome<Fault>, link: Link, fetched: seq<Body>)

  /** The device-list requests, with session cookie `session`, for the networks `ns` in order. */
  function DeviceCalls(ns: seq<Network>, session: string): (calls: seq<Call>)
    ensures |calls| == |ns|
    decreases |ns|
  {
    if ns == [] then [] else [ActionCall(DevicesAction(ns[0].url), map["s" := session])] + DeviceCalls(ns[1..], session)
  }

  /** The replies `s` begin with successful answers carrying the device lists `bodies`, in order. */
  ghost predicate Answers(s: seq<Reply>, bodies: seq<Body>) {
    |bodies| <= |s| && forall k :: 0 <= k < |bodies| ==> Receive(s[k]) == Ok(bodies[k]) && IsDeviceList(bodies[k])
  }

  /** The first of those answers is the next outcome, and the rest answer after it. */
  lemma AnswersNext(s: seq<Reply>, bodies: seq<Body>)
    requires Answers(s, bodies) && bodies != []
    ensures OutcomeAt(s, 0) == Ok(bodies[0])
    ensures Answers(Drop(s, 1), bodies[1..])
  {
    assert Head(Drop(s, 0)) == s[0];
    forall k | 0 <= k < |bodies| - 1 ensures Receive(Drop(s, 1)[k]) == Ok(bodies[1..][k]) {
      assert Drop(s, 1)[k] == s[k + 1];
    }
  }

  /** The sweep `w` once `calls` were each answered, in order, by the device lists `bodies`. */
  function Answered(w: Sweep, calls: seq<Call>, bodies: seq<Body>): Sweep {
    Sweep(Pass, Link(w.link.session, w.link.contents, Drop(w.link.replies, |bodies|), w.link.sent + calls), w.fetched + bodies)
  }

  lemma AnsweredCons(w: Sweep, c: Call, calls: seq<Call>, b: Body, bodies: seq<Body>)
    ensures Answered(Answered(w, [c], [b]), calls, bodies) == Answered(w, [c] + calls, [b] + bodies)
  {
    DropDrop(w.link.replies, 1, |bodies|);
  }

  /** The paths a poll over every network of `networks` may request: the account, a session refresh and each device list. */
  function NetworkPaths(networks: seq<Network>): set<string> {
    {"account", "login/refresh"} + set n | n in networks :: ActionPath(DevicesAction(n.url))
  }

  /** The networks of an account answer; none when the answer is an error or not an account. */
  function AccountNetworks(res: Result<Body, Fault>): seq<Network> {
    if res.Ok? && res.value.AccountBody? then res.value.networks else []
  }

  /** The paths of a network list cover those of its tail and its first network's device list. */
  lemma NetworkPathsCons(networks: seq<Network>)
    requires networks != []
    ensures NetworkPaths(networks[1..]) <= NetworkPaths(networks)
    ensures ActionPath(DevicesAction(networks[0].url)) in NetworkPaths(networks)
  {
    assert networks == [networks[0]] + networks[1..];
  }

  /** The three results of a poll: the present-MAC list, the MAC-to-name map and the MAC-to-attributes map. */
  datatype Results = Results(present: seq<string>, names: map<string, string>, attrs: map<string, Attrs>)

  /** The results of a poll over the devices `ds`, built from empty. */
  function Poll(ds: seq<Device>, f: DeviceFilter): Results {
    Results(TrackedMacs(ds, f), NameMap(ds, f), AttrsMap(ds, f))
  }

  /** The results `r` after folding in the devices `ds`: their kept MACs appended, their entries recorded. */
  function Extend(r: Results, ds: seq<Device>, f: DeviceFilter): Results {
    Results(r.present + TrackedMacs(ds, f), Recorded(r.names, ds, f, NameValue), Recorded(r.attrs, ds, f, AttrsValue))
  }

  /** Folding one more fetched list into a poll's results extends them by that list alone. */
  lemma FoldStep(bodies: seq<Body>, b: Body, f: DeviceFilter)
    ensures Poll(AllDevices(bodies + [b]), f) == Extend(Poll(AllDevices(bodies), f), DevicesIn(b), f)
  {
    var all := AllDevices(bodies);
    AllDevicesSnoc(bodies, b);
    KeptAppend(all, DevicesIn(b), f);
    MacsAppend(Kept(all, f), Kept(DevicesIn(b), f));
    RecordedAppend(map[], all, DevicesIn(b), f, NameValue);
    RecordedAppend(map[], all, DevicesIn(b), f, AttrsValue);
  }
}
