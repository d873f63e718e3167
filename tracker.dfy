/**
 * The Home Assistant device scanner of device_tracker.py
 * (`EeroDeviceScanner`). Each poll refreshes the cached account when it is an
 * hour old, then asks every selected network for its devices and rebuilds
 * the present-MAC list and the MAC-to-name and MAC-to-attributes maps.
 */
module Tracker {
  import opened Wrappers
  import opened Strings
  import opened Urls
  import opened Api
  import opened Storage
  import opened Polling

  /** The platform settings the scanner reads (already validated by the schema). */
  datatype Config = Config(
    onlyMacs: string,            // comma-separated MAC allow-list, "" by default
    onlyNetworks: seq<int>,      // network IDs to poll, all when empty
    onlyWireless: bool,          // skip wired devices (default true)
    scanInterval: Option<int>)   // seconds between polls, if configured

  /** What the refresh answer leaves for the session: an error, no usable token (`None`), or the new token. */
  function RefreshToken(res: Result<Body, Fault>): (r: Result<Option<string>, Fault>)
    ensures res.Err? ==> r == Err(res.error)
    ensures r.Ok? && r.value.Some? ==> r.value.value != ""
    ensures r.Ok? && r.value.Some? <==> res.Ok? && res.value.TokenBody? && Truthy(res.value.userToken)
  {
    match res
    case Err(f) => Err(f)
    case Ok(b) =>
      match GetUserToken(b)
      case Err(f) => Err(f)
      case Ok(t) => Ok(if Truthy(t) then t else None)
  }

  /** The first attempt's outcome: a client error other than the expired session is logged and becomes `None`. */
  function Swallowed(res: Result<Body, Fault>): (r: Result<Option<Body>, Fault>)
    ensures r.Err? <==> res.Err? && !res.error.ClientError?
    ensures r.Ok? && r.value.Some? <==> res.Ok?
    ensures r.Err? ==> r == Err(res.error)
    ensures res.Ok? ==> r == Ok(Some(res.value))
  {
    match res
    case Ok(b) => Ok(Some(b))
    case Err(f) => if f.ClientError? then Ok(None) else Err(f)
  }

  /** The retry's outcome: nothing is caught any more. */
  function Lift(res: Result<Body, Fault>): Result<Option<Body>, Fault> {
    match res
    case Ok(b) => Ok(Some(b))
    case Err(f) => Err(f)
  }

  /** What one `_refreshed` call does: its result, the requests it issues, the session and the file it leaves. */
  datatype Effect = Effect(result: Result<Option<Body>, Fault>, calls: seq<Call>, session: string, contents: Option<string>)

  /**
   * The refresh-and-retry branch of `_refreshed`, with the replies `s` still
   * to come at the refresh request: an error from the refresh ends it; a
   * missing or empty token leaves the session as it was; then the action is
   * issued once more with the cookie of that moment.
   */
  function RetryEffect(action: Action, session: string, writable: bool, contents: Option<string>, s: seq<Reply>): Effect {
    var refresh := RefreshCall(map["s" := session]);
    var token := RefreshToken(OutcomeAt(s, 0));
    if token.Err? then Effect(Err(token.error), [refresh], session, contents)
    else
      var cookie := if token.value.Some? then token.value.value else session;
      Effect(Lift(OutcomeAt(s, 1)), [refresh, ActionCall(action, map["s" := cookie])], cookie,
             if token.value.Some? && writable then token.value else contents)
  }

  /** What the refresh-and-retry branch does, request by request. */
  lemma RetryEffectSpec(action: Action, session: string, writable: bool, contents: Option<string>, s: seq<Reply>)
    ensures var e := RetryEffect(action, session, writable, contents, s);
            var token := RefreshToken(OutcomeAt(s, 0));
            && 1 <= |e.calls| <= 2 && e.calls[0] == RefreshCall(map["s" := session])
            && (forall c :: c in e.calls ==> c.action in {ActionPath(action), "login/refresh"})
            && (e.result.Ok? && e.result.value.Some? ==> Served(s, e.result.value.value))
            && (|e.calls| == 1 <==> token.Err?)
            && (|e.calls| == 1 ==> e.result == Err(token.error) && e.session == session && e.contents == contents)
            && (|e.calls| == 2 ==>
                  e.calls[1] == ActionCall(action, map["s" := e.session]) && e.result == Lift(OutcomeAt(s, 1)))
            && (e.session == session || Truthy(Some(e.session)))
            && (e.contents == contents || (writable && e.contents == Some(e.session)))
  {
    if OutcomeAt(s, 1).Ok? {
      OutcomeServed(s, 1);
    }
  }

  /**
   * `_refreshed` with session `session`, a session file holding `contents`
   * (writable or not) and the replies `s` still to come. The first attempt
   * carries the current cookie; only the expired-session error leads to a
   * refresh and a second attempt, which carries the cookie of that moment.
   */
  function RefreshedEffect(action: Action, session: string, writable: bool, contents: Option<string>, s: seq<Reply>): Effect {
    var first := ActionCall(action, map["s" := session]);
    if OutcomeAt(s, 0) != Err(SessionExpired) then
      Effect(Swallowed(OutcomeAt(s, 0)), [first], session, contents)
    else
      var retry := RetryEffect(action, session, writable, contents, Drop(s, 1));
      Effect(retry.result, [first] + retry.calls, retry.session, retry.contents)
  }

  /** What `_refreshed` does, request by request. */
  lemma RefreshedEffectSpec(action: Action, session: string, writable: bool, contents: Option<string>, s: seq<Reply>)
    ensures var e := RefreshedEffect(action, session, writable, contents, s);
            && 1 <= |e.calls| <= 3 && e.calls[0] == ActionCall(action, map["s" := session])
            && (forall c :: c in e.calls ==> c.action in {ActionPath(action), "login/refresh"})
            && (e.result.Ok? && e.result.value.Some? ==> Served(s, e.result.value.value))
            && (OutcomeAt(s, 0) != Err(SessionExpired) ==>
                  |e.calls| == 1 && e.session == session && e.contents == contents
                  && e.result == Swallowed(OutcomeAt(s, 0)))
            && (OutcomeAt(s, 0) == Err(SessionExpired) ==>
                  |e.calls| >= 2 && e.calls[1] == RefreshCall(map["s" := session]))
            && (|e.calls| == 3 ==>
                  e.calls[2] == ActionCall(action, map["s" := e.session]) && e.result == Lift(OutcomeAt(s, 2)))
            && (e.session == session || Truthy(Some(e.session)))
            && (e.contents == contents || (writable && e.contents == Some(e.session)))
  {
    var e := RefreshedEffect(action, session, writable, contents, s);
    if OutcomeAt(s, 0) != Err(SessionExpired) {
      if OutcomeAt(s, 0).Ok? {
        OutcomeServed(s, 0);
      }
    } else {
      var retry := RetryEffect(action, session, writable, contents, Drop(s, 1));
      RetryEffectSpec(action, session, writable, contents, Drop(s, 1));
      DropDrop(s, 1, 1);
      if e.result.Ok? && e.result.value.Some? {
        ServedDrop(s, 1, e.result.value.value);
      }
      forall c | c in e.calls ensures c.action in {ActionPath(action), "login/refresh"} {
        if c != e.calls[0] {
          assert c in retry.calls;
        }
      }
    }
  }

  /** The link after the requests of one `_refreshed` call. */
  function After(e: Effect, l: Link): Link {
    Advance(l, e.calls, e.session, e.contents)
  }

  /** `_refreshed` issuing `action` on the link `l`. */
  function RefreshedOn(action: Action, writable: bool, l: Link): Effect {
    RefreshedEffect(action, l.session, writable, l.contents, l.replies)
  }

  /** Whether a network whose URL gave `id` is polled: there is an ID and the filter selects it. */
  predicate PolledId(id: Option<nat>, onlyNetworks: set<int>) {
    id.Some? && NetworkSelected(id.value, onlyNetworks)
  }

  /** The networks a poll asks for devices: those whose URL gives an ID the filter selects, in order. */
  function SelectedNetworks(networks: seq<Network>, onlyNetworks: set<int>): (r: seq<Network>)
    ensures |r| <= |networks|
    decreases |networks|
  {
    if networks == [] then []
    else (if PolledId(NetworkIdFromUrl(networks[0].url), onlyNetworks) then [networks[0]] else [])
         + SelectedNetworks(networks[1..], onlyNetworks)
  }

  /** Exactly the networks with a readable ID that the filter selects are polled. */
  lemma {:induction false} SelectedNetworksMembers(networks: seq<Network>, onlyNetworks: set<int>, n: Network)
    ensures n in SelectedNetworks(networks, onlyNetworks) <==>
              n in networks && PolledId(NetworkIdFromUrl(n.url), onlyNetworks)
    decreases |networks|
  {
    if networks != [] {
      SelectedNetworksMembers(networks[1..], onlyNetworks, n);
      assert networks == [networks[0]] + networks[1..];
    }
  }

  /** The device-list paths of the selected networks. */
  function SelectedPaths(networks: seq<Network>, onlyNetworks: set<int>): set<string> {
    set n | n in SelectedNetworks(networks, onlyNetworks) :: ActionPath(DevicesAction(n.url))
  }

  /** No device-list path is the account path. */
  lemma AccountNotSelectedPath(networks: seq<Network>, onlyNetworks: set<int>)
    ensures "account" !in SelectedPaths(networks, onlyNetworks)
  {
    forall n | n in SelectedNetworks(networks, onlyNetworks) ensures ActionPath(DevicesAction(n.url)) != "account" {
      assert ActionPath(DevicesAction(n.url))[0] == 'n';
    }
  }

  /** The paths a poll may request once the cached account is `account`. */
  function PollPaths(account: Option<Body>, onlyNetworks: set<int>): set<string> {
    {"account", "login/refresh"}
    + if account.Some? && account.value.AccountBody? then SelectedPaths(account.value.networks, onlyNetworks) else {}
  }

  /**
   * `_devices(url)` as the network loop uses it: a swallowed error (`None`)
   * or a payload that is not a list cannot be iterated and raises.
   */
  function DevicesOutcome(res: Result<Option<Body>, Fault>): (r: Result<Body, Fault>)
    ensures r.Ok? <==> res.Ok? && res.value.Some? && IsDeviceList(res.value.value)
    ensures r.Ok? ==> r.value == res.value.value
    ensures res.Err? ==> r == Err(res.error)
  {
    match res
    case Err(f) => Err(f)
    case Ok(b) => if b.Some? then AsDeviceList(Ok(b.value)) else Err(Malformed)
  }

  /**
   * One iteration of the network loop of `_update_info`, on network `n`: a
   * URL without `/networks/<digits>` raises, a network outside the filter is
   * skipped, any other has its device list fetched and kept.
   */
  function Visit(n: Network, onlyNetworks: set<int>, writable: bool, w: Sweep): Sweep
    requires w.outcome.Pass?
  {
    var id := NetworkIdFromUrl(n.url);
    if id.None? then w.(outcome := Fail(Malformed))
    else if !NetworkSelected(id.value, onlyNetworks) then w
    else
      var e := RefreshedOn(DevicesAction(n.url), writable, w.link);
      var d := DevicesOutcome(e.result);
      if d.Err? then Sweep(Fail(d.error), After(e, w.link), w.fetched)
      else Sweep(Pass, After(e, w.link), w.fetched + [d.value])
  }

  /** The network loop of `_update_info` from `w`: the networks in order, until one raises. */
  function NetworkLoop(networks: seq<Network>, onlyNetworks: set<int>, writable: bool, w: Sweep): Sweep
    decreases |networks|
  {
    if networks == [] || w.outcome.Fail? then w
    else NetworkLoop(networks[1..], onlyNetworks, writable, Visit(networks[0], onlyNetworks, writable, w))
  }

  /** The loop from the `i`-th network, one step on. */
  lemma LoopStep(networks: seq<Network>, onlyNetworks: set<int>, writable: bool, w: Sweep, i: int)
    requires 0 <= i < |networks| && w.outcome.Pass?
    ensures NetworkLoop(networks[i..], onlyNetworks, writable, w)
            == NetworkLoop(networks[i + 1..], onlyNetworks, writable, Visit(networks[i], onlyNetworks, writable, w))
  {
    assert networks[i..][1..] == networks[i + 1..];
  }

  /** The network loop from `w` over the first `k` networks only. */
  ghost function LoopUpTo(networks: seq<Network>, onlyNetworks: set<int>, writable: bool, w: Sweep, k: nat): Sweep
    requires k <= |networks|
  {
    if k == 0 then w
    else
      var p := LoopUpTo(networks, onlyNetworks, writable, w, k - 1);
      if p.outcome.Fail? then p else Visit(networks[k - 1], onlyNetworks, writable, p)
  }

  /** Visiting the `j`-th network moves it from the rest of the loop to the first part. */
  lemma LoopUpToStep(networks: seq<Network>, onlyNetworks: set<int>, writable: bool, w: Sweep, j: nat)
    requires 0 < j <= |networks|
    ensures NetworkLoop(networks[j - 1..], onlyNetworks, writable, LoopUpTo(networks, onlyNetworks, writable, w, j - 1))
            == NetworkLoop(networks[j..], onlyNetworks, writable, LoopUpTo(networks, onlyNetworks, writable, w, j))
  {
    assert networks[j - 1..][1..] == networks[j..];
  }

  /** The loop over all networks is the loop over the first `j`, then over the rest. */
  lemma LoopUpToRest(networks: seq<Network>, onlyNetworks: set<int>, writable: bool, w: Sweep, j: nat)
    requires j <= |networks|
    ensures NetworkLoop(networks, onlyNetworks, writable, w)
            == NetworkLoop(networks[j..], onlyNetworks, writable, LoopUpTo(networks, onlyNetworks, writable, w, j))
  {
    assert networks[0..] == networks;
    var k := 0;
    while k < j
      invariant k <= j
      invariant NetworkLoop(networks, onlyNetworks, writable, w)
                == NetworkLoop(networks[k..], onlyNetworks, writable, LoopUpTo(networks, onlyNetworks, writable, w, k))
    {
      k := k + 1;
      LoopUpToStep(networks, onlyNetworks, writable, w, k);
    }
  }

  /** Once every network is visited, or one has raised, the loop over the first `k` is the whole loop. */
  lemma LoopUpToAll(networks: seq<Network>, onlyNetworks: set<int>, writable: bool, w: Sweep, k: nat, r: Sweep)
    requires k <= |networks| && r == LoopUpTo(networks, onlyNetworks, writable, w, k)
    requires k == |networks| || r.outcome.Fail?
    ensures NetworkLoop(networks, onlyNetworks, writable, w) == r
  {
    LoopUpToRest(networks, onlyNetworks, writable, w, k);
  }

  /** One visit asks only for a session refresh or the device list of a selected network. */
  lemma VisitPaths(networks: seq<Network>, onlyNetworks: set<int>, writable: bool, w: Sweep)
    requires networks != [] && w.outcome.Pass?
    ensures var v := Visit(networks[0], onlyNetworks, writable, w);
            Continues(v.link.sent, v.link.replies, w.link.sent, w.link.replies,
                      {"login/refresh"} + SelectedPaths(networks, onlyNetworks))
  {
    var n := networks[0];
    var allowed := {"login/refresh"} + SelectedPaths(networks, onlyNetworks);
    if PolledId(NetworkIdFromUrl(n.url), onlyNetworks) {
      var e := RefreshedOn(DevicesAction(n.url), writable, w.link);
      RefreshedEffectSpec(DevicesAction(n.url), w.link.session, writable, w.link.contents, w.link.replies);
      assert n in SelectedNetworks(networks, onlyNetworks);
      AdvanceContinues(w.link, e.calls, e.session, e.contents, allowed);
    } else {
      ContinuesRefl(w.link.sent, w.link.replies, allowed);
    }
  }

  /**
   * The network loop uses one reply per request and asks only for session
   * refreshes and the device lists of the networks the filter selects.
   */
  lemma {:induction false} LoopPaths(networks: seq<Network>, onlyNetworks: set<int>, writable: bool, w: Sweep)
    ensures var r := NetworkLoop(networks, onlyNetworks, writable, w);
            Continues(r.link.sent, r.link.replies, w.link.sent, w.link.replies,
                      {"login/refresh"} + SelectedPaths(networks, onlyNetworks))
    decreases |networks|
  {
    var allowed := {"login/refresh"} + SelectedPaths(networks, onlyNetworks);
    if networks == [] || w.outcome.Fail? {
      ContinuesRefl(w.link.sent, w.link.replies, allowed);
    } else {
      var v := Visit(networks[0], onlyNetworks, writable, w);
      var r := NetworkLoop(networks[1..], onlyNetworks, writable, v);
      VisitPaths(networks, onlyNetworks, writable, w);
      LoopPaths(networks[1..], onlyNetworks, writable, v);
      assert SelectedNetworks(networks, onlyNetworks)
             == (if PolledId(NetworkIdFromUrl(networks[0].url), onlyNetworks) then [networks[0]] else [])
                + SelectedNetworks(networks[1..], onlyNetworks);
      assert SelectedPaths(networks[1..], onlyNetworks) <= SelectedPaths(networks, onlyNetworks);
      ContinuesTrans(w.link.sent, w.link.replies, v.link.sent, v.link.replies, r.link.sent, r.link.replies,
                     allowed, {"login/refresh"} + SelectedPaths(networks[1..], onlyNetworks));
    }
  }

  /** A loop that gets through every network has fetched one device list per selected network. */
  lemma {:induction false} LoopCount(networks: seq<Network>, onlyNetworks: set<int>, writable: bool, w: Sweep)
    ensures var r := NetworkLoop(networks, onlyNetworks, writable, w);
            r.outcome.Pass? ==> |r.fetched| == |w.fetched| + |SelectedNetworks(networks, onlyNetworks)|
    decreases |networks|
  {
    if networks != [] && w.outcome.Pass? {
      LoopCount(networks[1..], onlyNetworks, writable, Visit(networks[0], onlyNetworks, writable, w));
    }
  }

  /**
   * One visit keeps the lists fetched before it, adds at most device lists
   * that some reply carried, and consumes replies from the front.
   */
  lemma VisitServed(n: Network, onlyNetworks: set<int>, writable: bool, w: Sweep) returns (j: nat)
    requires w.outcome.Pass?
    ensures var v := Visit(n, onlyNetworks, writable, w);
            v.link.replies == Drop(w.link.replies, j)
            && |w.fetched| <= |v.fetched| && v.fetched[..|w.fetched|] == w.fetched
            && forall k :: |w.fetched| <= k < |v.fetched| ==>
                 IsDeviceList(v.fetched[k]) && Served(w.link.replies, v.fetched[k])
  {
    j := 0;
    assert w.fetched[..|w.fetched|] == w.fetched;
    if PolledId(NetworkIdFromUrl(n.url), onlyNetworks) {
      var e := RefreshedOn(DevicesAction(n.url), writable, w.link);
      RefreshedEffectSpec(DevicesAction(n.url), w.link.session, writable, w.link.contents, w.link.replies);
      j := |e.calls|;
      var d := DevicesOutcome(e.result);
      if d.Ok? {
        assert (w.fetched + [d.value])[..|w.fetched|] == w.fetched;
      }
    }
  }

  /**
   * The loop only adds to the lists fetched before it, and every list it adds
   * is a device list that some reply of the script carried.
   */
  lemma {:induction false} LoopServed(networks: seq<Network>, onlyNetworks: set<int>, writable: bool, w: Sweep)
    ensures var r := NetworkLoop(networks, onlyNetworks, writable, w);
            |w.fetched| <= |r.fetched| && r.fetched[..|w.fetched|] == w.fetched
            && forall k :: |w.fetched| <= k < |r.fetched| ==>
                 IsDeviceList(r.fetched[k]) && Served(w.link.replies, r.fetched[k])
    decreases |networks|
  {
    if networks != [] && w.outcome.Pass? {
      var v := Visit(networks[0], onlyNetworks, writable, w);
      var r := NetworkLoop(networks[1..], onlyNetworks, writable, v);
      var j := VisitServed(networks[0], onlyNetworks, writable, w);
      LoopServed(networks[1..], onlyNetworks, writable, v);
      forall k | |w.fetched| <= k < |r.fetched| ensures IsDeviceList(r.fetched[k]) && Served(w.link.replies, r.fetched[k]) {
        if k < |v.fetched| {
          assert r.fetched[k] == r.fetched[..|v.fetched|][k];
        } else {
          ServedDrop(w.link.replies, j, r.fetched[k]);
        }
      }
      assert r.fetched[..|w.fetched|] == r.fetched[..|v.fetched|][..|w.fetched|];
    } else {
      assert w.fetched[..|w.fetched|] == w.fetched;
    }
  }

  /** A network whose URL gives no ID makes the loop raise, whatever comes before it. */
  lemma {:induction false} LoopMissingId(networks: seq<Network>, onlyNetworks: set<int>, writable: bool, w: Sweep, k: int)
    requires 0 <= k < |networks| && NetworkIdFromUrl(networks[k].url).None?
    ensures NetworkLoop(networks, onlyNetworks, writable, w).outcome.Fail?
    decreases |networks|
  {
    if w.outcome.Pass? && k > 0 {
      assert networks[1..][k - 1] == networks[k];
      LoopMissingId(networks[1..], onlyNetworks, writable, Visit(networks[0], onlyNetworks, writable, w), k - 1);
    }
  }

  /** A selected network whose device request is answered with a device list: one call, one list kept. */
  lemma VisitAnswered(n: Network, onlyNetworks: set<int>, writable: bool, w: Sweep, bodies: seq<Body>)
    requires w.outcome.Pass? && PolledId(NetworkIdFromUrl(n.url), onlyNetworks)
    requires bodies != [] && Answers(w.link.replies, bodies)
    ensures Visit(n, onlyNetworks, writable, w)
            == Answered(w, [ActionCall(DevicesAction(n.url), map["s" := w.link.session])], [bodies[0]])
    ensures Answers(Drop(w.link.replies, 1), bodies[1..])
  {
    AnswersNext(w.link.replies, bodies);
  }

  /** A network the filter leaves out is skipped without a request. */
  lemma VisitSkipped(n: Network, onlyNetworks: set<int>, writable: bool, w: Sweep)
    requires w.outcome.Pass? && NetworkIdFromUrl(n.url).Some? && !PolledId(NetworkIdFromUrl(n.url), onlyNetworks)
    ensures Visit(n, onlyNetworks, writable, w) == w
  {
  }

  /**
   * When every URL gives an ID and the server answers each device request
   * with a device list, the loop asks once per selected network, in order,
   * with the session unchanged, and keeps exactly those lists.
   */
  lemma {:induction false} LoopAnswered(networks: seq<Network>, onlyNetworks: set<int>, writable: bool, w: Sweep, bodies: seq<Body>)
    requires w.outcome.Pass?
    requires forall n :: n in networks ==> NetworkIdFromUrl(n.url).Some?
    requires |bodies| == |SelectedNetworks(networks, onlyNetworks)| && Answers(w.link.replies, bodies)
    ensures NetworkLoop(networks, onlyNetworks, writable, w)
            == Answered(w, DeviceCalls(SelectedNetworks(networks, onlyNetworks), w.link.session), bodies)
    decreases |networks|
  {
    if networks == [] {
      assert w.link.sent + [] == w.link.sent && w.fetched + [] == w.fetched;
    } else {
      var n := networks[0];
      var rest := networks[1..];
      assert networks == [n] + rest;
      var tail := SelectedNetworks(rest, onlyNetworks);
      if PolledId(NetworkIdFromUrl(n.url), onlyNetworks) {
        var call := ActionCall(DevicesAction(n.url), map["s" := w.link.session]);
        VisitAnswered(n, onlyNetworks, writable, w, bodies);
        var v := Answered(w, [call], [bodies[0]]);
        LoopAnswered(rest, onlyNetworks, writable, v, bodies[1..]);
        AnsweredCons(w, call, DeviceCalls(tail, w.link.session), bodies[0], bodies[1..]);
        assert DeviceCalls([n] + tail, w.link.session) == [call] + DeviceCalls(tail, w.link.session) by {
          assert ([n] + tail)[1..] == tail;
        }
        assert [bodies[0]] + bodies[1..] == bodies;
      } else {
        assert SelectedNetworks(networks, onlyNetworks) == tail;
        VisitSkipped(n, onlyNetworks, writable, w);
        LoopAnswered(rest, onlyNetworks, writable, w, bodies);
      }
    }
  }

  /**
   * What `_update_info` leaves: the cached account and its timestamp,
   * whether the three results were cleared, and where the network loop ended.
   */
  datatype Update = Update(account: Option<Body>, stamp: Option<int>, cleared: bool, sweep: Sweep)

  /** `_update_info` after the cache step: the results are cleared and the networks of `account` polled. */
  function PollAccount(account: Option<Body>, stamp: Option<int>, onlyNetworks: set<int>, writable: bool, l: Link): Update {
    if account.Some? && account.value.AccountBody? then
      Update(account, stamp, true, NetworkLoop(account.value.networks, onlyNetworks, writable, Sweep(Pass, l, [])))
    else
      Update(account, stamp, true, Sweep(Fail(Malformed), l, []))
  }

  /**
   * `_update_info` at time `now`, from the cached `account` fetched at
   * `stamp`: a stale account is fetched again and stamped with `now`; when
   * that raises, the poll ends with the cache and the results as they were.
   */
  function UpdateEffect(account: Option<Body>, stamp: Option<int>, now: int, onlyNetworks: set<int>, writable: bool, l: Link): Update {
    if !AccountStale(stamp, now) then PollAccount(account, stamp, onlyNetworks, writable, l)
    else
      var e := RefreshedOn(AccountAction, writable, l);
      if e.result.Err? then Update(account, stamp, false, Sweep(Fail(e.result.error), After(e, l), []))
      else PollAccount(e.result.value, Some(now), onlyNetworks, writable, After(e, l))
  }

  /** After the cache step the poll asks only for session refreshes and the device lists of selected networks. */
  lemma PollAccountPaths(account: Option<Body>, stamp: Option<int>, onlyNetworks: set<int>, writable: bool, l: Link)
    ensures var u := PollAccount(account, stamp, onlyNetworks, writable, l);
            Continues(u.sweep.link.sent, u.sweep.link.replies, l.sent, l.replies,
                      PollPaths(account, onlyNetworks) - {"account"})
  {
    var allowed := PollPaths(account, onlyNetworks) - {"account"};
    if account.Some? && account.value.AccountBody? {
      var networks := account.value.networks;
      var r := NetworkLoop(networks, onlyNetworks, writable, Sweep(Pass, l, []));
      LoopPaths(networks, onlyNetworks, writable, Sweep(Pass, l, []));
      AccountNotSelectedPath(networks, onlyNetworks);
      ContinuesTrans(l.sent, l.replies, l.sent, l.replies, r.link.sent, r.link.replies,
                     allowed, {"login/refresh"} + SelectedPaths(networks, onlyNetworks));
    } else {
      ContinuesRefl(l.sent, l.replies, allowed);
    }
  }

  /**
   * A poll uses one reply per request and asks only for the account, session
   * refreshes and the device lists of the selected networks of the account
   * it ends with.
   */
  lemma UpdatePaths(account: Option<Body>, stamp: Option<int>, now: int, onlyNetworks: set<int>, writable: bool, l: Link)
    ensures var u := UpdateEffect(account, stamp, now, onlyNetworks, writable, l);
            Continues(u.sweep.link.sent, u.sweep.link.replies, l.sent, l.replies, PollPaths(u.account, onlyNetworks))
  {
    var u := UpdateEffect(account, stamp, now, onlyNetworks, writable, l);
    var allowed := PollPaths(u.account, onlyNetworks);
    if !AccountStale(stamp, now) {
      PollAccountPaths(account, stamp, onlyNetworks, writable, l);
      ContinuesTrans(l.sent, l.replies, l.sent, l.replies, u.sweep.link.sent, u.sweep.link.replies,
                     allowed, allowed - {"account"});
    } else {
      var e := RefreshedOn(AccountAction, writable, l);
      var m := After(e, l);
      RefreshedEffectSpec(AccountAction, l.session, writable, l.contents, l.replies);
      AdvanceContinues(l, e.calls, e.session, e.contents, allowed);
      if e.result.Ok? {
        PollAccountPaths(e.result.value, Some(now), onlyNetworks, writable, m);
        ContinuesTrans(l.sent, l.replies, m.sent, m.replies, u.sweep.link.sent, u.sweep.link.replies,
                       allowed, allowed - {"account"});
      }
    }
  }

  /** Within the hour, a poll keeps the cached account and its timestamp and never asks for the account. */
  lemma UpdateCached(account: Option<Body>, stamp: Option<int>, now: int, onlyNetworks: set<int>, writable: bool, l: Link)
    requires !AccountStale(stamp, now)
    ensures var u := UpdateEffect(account, stamp, now, onlyNetworks, writable, l);
            u.account == account && u.stamp == stamp
            && |u.sweep.link.sent| >= |l.sent| && u.sweep.link.sent[..|l.sent|] == l.sent
            && forall j :: |l.sent| <= j < |u.sweep.link.sent| ==> u.sweep.link.sent[j].action != "account"
  {
    PollAccountPaths(account, stamp, onlyNetworks, writable, l);
  }

  /**
   * A stale poll first asks for the account with the current cookie; when
   * that fetch succeeds the cache holds its answer stamped with the poll's
   * time.
   */
  lemma StalePollFetches(account: Option<Body>, stamp: Option<int>, now: int, onlyNetworks: set<int>, writable: bool, l: Link)
    requires AccountStale(stamp, now)
    requires RefreshedOn(AccountAction, writable, l).result.Ok?
    ensures var u := UpdateEffect(account, stamp, now, onlyNetworks, writable, l);
            u.account == RefreshedOn(AccountAction, writable, l).result.value && u.stamp == Some(now)
            && |u.sweep.link.sent| > |l.sent| && u.sweep.link.sent[|l.sent|] == ActionCall(AccountAction, map["s" := l.session])
  {
    var e := RefreshedOn(AccountAction, writable, l);
    var m := After(e, l);
    var u := UpdateEffect(account, stamp, now, onlyNetworks, writable, l);
    assert u == PollAccount(e.result.value, Some(now), onlyNetworks, writable, m);
    RefreshedEffectSpec(AccountAction, l.session, writable, l.contents, l.replies);
    PollAccountPaths(e.result.value, Some(now), onlyNetworks, writable, m);
    assert u.sweep.link.sent[..|m.sent|][|l.sent|] == m.sent[|l.sent|] == e.calls[0];
  }

  /**
   * After a stale poll whose account fetch succeeds, a second poll within
   * the hour reuses the cached account without asking again.
   */
  lemma TwoPollsWithinHour(account: Option<Body>, stamp: Option<int>, now: int, later: int,
                           onlyNetworks: set<int>, writable: bool, l: Link)
    requires AccountStale(stamp, now) && now <= later < now + CacheExpiry
    requires RefreshedOn(AccountAction, writable, l).result.Ok?
    ensures var u := UpdateEffect(account, stamp, now, onlyNetworks, writable, l);
            var u' := UpdateEffect(u.account, u.stamp, later, onlyNetworks, writable, u.sweep.link);
            u.account == RefreshedOn(AccountAction, writable, l).result.value && u.stamp == Some(now)
            && |u.sweep.link.sent| > |l.sent| && u.sweep.link.sent[|l.sent|] == ActionCall(AccountAction, map["s" := l.session])
            && u'.account == u.account && u'.stamp == u.stamp
            && forall j :: |u.sweep.link.sent| <= j < |u'.sweep.link.sent| ==> u'.sweep.link.sent[j].action != "account"
  {
    var u := UpdateEffect(account, stamp, now, onlyNetworks, writable, l);
    StalePollFetches(account, stamp, now, onlyNetworks, writable, l);
    UpdateCached(u.account, u.stamp, later, onlyNetworks, writable, u.sweep.link);
  }

  /**
   * A poll that ends without raising has a real account, cleared and rebuilt
   * results, and one device list per selected network, each of which some
   * reply of the script carried.
   */
  lemma UpdatePass(account: Option<Body>, stamp: Option<int>, now: int, onlyNetworks: set<int>, writable: bool, l: Link)
    ensures var u := UpdateEffect(account, stamp, now, onlyNetworks, writable, l);
            u.sweep.outcome.Pass? ==>
              u.cleared && u.account.Some? && u.account.value.AccountBody?
              && |u.sweep.fetched| == |SelectedNetworks(u.account.value.networks, onlyNetworks)|
              && forall k :: 0 <= k < |u.sweep.fetched| ==>
                   IsDeviceList(u.sweep.fetched[k]) && Served(l.replies, u.sweep.fetched[k])
  {
    var u := UpdateEffect(account, stamp, now, onlyNetworks, writable, l);
    var m := if AccountStale(stamp, now) then After(RefreshedOn(AccountAction, writable, l), l) else l;
    if u.sweep.outcome.Pass? {
      var networks := u.account.value.networks;
      LoopCount(networks, onlyNetworks, writable, Sweep(Pass, m, []));
      LoopServed(networks, onlyNetworks, writable, Sweep(Pass, m, []));
      forall k | 0 <= k < |u.sweep.fetched| ensures Served(l.replies, u.sweep.fetched[k]) {
        if AccountStale(stamp, now) {
          ServedDrop(l.replies, |RefreshedOn(AccountAction, writable, l).calls|, u.sweep.fetched[k]);
        }
      }
    }
  }

  /**
   * A stale poll whose account request is answered with `networks`, all
   * with an ID, and whose device requests are answered with the lists
   * `bodies`: the account is cached with the poll's time, the requests are
   * the account and then one per selected network in order, and the poll
   * keeps exactly those lists.
   */
  lemma UpdateAnswered(account: Option<Body>, stamp: Option<int>, now: int, onlyNetworks: set<int>, writable: bool, l: Link,
                       networks: seq<Network>, bodies: seq<Body>)
    requires AccountStale(stamp, now)
    requires OutcomeAt(l.replies, 0) == Ok(AccountBody(networks))
    requires forall n :: n in networks ==> NetworkIdFromUrl(n.url).Some?
    requires |bodies| == |SelectedNetworks(networks, onlyNetworks)| && Answers(Drop(l.replies, 1), bodies)
    ensures UpdateEffect(account, stamp, now, onlyNetworks, writable, l)
            == Update(Some(AccountBody(networks)), Some(now), true,
                      Sweep(Pass, Link(l.session, l.contents, Drop(l.replies, 1 + |bodies|),
                                       l.sent + [ActionCall(AccountAction, map["s" := l.session])]
                                       + DeviceCalls(SelectedNetworks(networks, onlyNetworks), l.session)),
                            bodies))
  {
    var call := ActionCall(AccountAction, map["s" := l.session]);
    var m := Link(l.session, l.contents, Drop(l.replies, 1), l.sent + [call]);
    assert After(RefreshedOn(AccountAction, writable, l), l) == m;
    LoopAnswered(networks, onlyNetworks, writable, Sweep(Pass, m, []), bodies);
    DropDrop(l.replies, 1, |bodies|);
    assert [] + bodies == bodies;
  }

  class EeroDeviceScanner {
    const file: SessionFile
    const client: Client
    const onlyMacs: set<string>
    const onlyNetworks: set<int>
    const onlyWireless: bool
    const scanInterval: int

    var session: Option<string>
    var lastResults: seq<string>
    var account: Option<Body>
    var accountTimestamp: Option<int>
    var macToNickname: map<string, string>
    var macToAttrs: map<string, Attrs>

    /**
     * Reads the filters, floors the scan interval at 25 seconds, and loads the
     * session token from the file with its newlines removed; a missing file
     * leaves no session.
     */
    constructor(config: Config, file: SessionFile, client: Client)
      ensures this.file == file && this.client == client
      ensures onlyMacs == MacAllowList(config.onlyMacs)
      ensures onlyNetworks == set k | 0 <= k < |config.onlyNetworks| :: config.onlyNetworks[k]
      ensures onlyWireless == config.onlyWireless
      ensures scanInterval == EffectiveInterval(config.scanInterval)
      ensures file.contents.None? ==> session.None?
      ensures file.contents.Some? ==> session == Some(Remove(file.contents.value, '\n'))
      ensures lastResults == [] && account.None? && accountTimestamp.None?
      ensures macToNickname == map[] && macToAttrs == map[]
    {
      this.file := file;
      this.client := client;
      onlyMacs := MacAllowList(config.onlyMacs);
      onlyNetworks := set k | 0 <= k < |config.onlyNetworks| :: config.onlyNetworks[k];
      onlyWireless := config.onlyWireless;
      scanInterval := EffectiveInterval(config.scanInterval);
      lastResults := [];
      account := None;
      accountTimestamp := None;
      macToNickname := map[];
      macToAttrs := map[];
      new;
      var text := file.Read();
      session := if text.Some? then Some(Remove(text.value, '\n')) else None;
    }

    function Filter(): DeviceFilter {
      DeviceFilter(onlyMacs, onlyWireless)
    }

    /** The three results as they stand. */
    function Current(): Results
      reads this
    {
      Results(lastResults, macToNickname, macToAttrs)
    }

    /** The session, the session file and the network, as one value. */
    ghost function LinkNow(): Link
      requires session.Some?
      reads this, client, file
    {
      Link(session.value, file.contents, client.replies, client.sent)
    }

    /** `_cookie_dict`: the session token as cookie `s`. */
    function CookieDict(): (m: map<string, string>)
      requires session.Some?
      reads this
      ensures "s" in m && m["s"] == session.value && m.Keys == {"s"}
    {
      var m := map["s" := session.value];
      assert "s" in m;
      m
    }

    /** `get_device_name`: the recorded name of a MAC, if any. */
    function DeviceName(mac: string): (r: Option<string>)
      reads this
      ensures r.Some? <==> mac in macToNickname
      ensures r.Some? ==> r.value == macToNickname[mac]
    {
      if mac in macToNickname then Some(macToNickname[mac]) else None
    }

    /** `get_extra_attributes`: the recorded `source` attributes of a MAC, if any. */
    function ExtraAttributes(mac: string): (r: Option<Attrs>)
      reads this
      ensures r.Some? <==> mac in macToAttrs
      ensures r.Some? ==> r.value == macToAttrs[mac]
    {
      if mac in macToAttrs then Some(macToAttrs[mac]) else None
    }

    /**
     * `_login_refresh`: posts the cookie to the refresh endpoint; a missing or
     * empty `user_token` is logged and changes nothing. Otherwise the token
     * becomes the session first, then the file is overwritten; a failed write
     * is logged and swallowed.
     */
    method LoginRefresh() returns (o: Outcome<Fault>)
      requires session.Some?
      modifies this, client, file
      ensures client.sent == old(client.sent) + [RefreshCall(old(CookieDict()))]
      ensures client.replies == Drop(old(client.replies), 1)
      ensures file.writable == old(file.writable)
      ensures lastResults == old(lastResults) && account == old(account) && accountTimestamp == old(accountTimestamp)
      ensures macToNickname == old(macToNickname) && macToAttrs == old(macToAttrs)
      ensures var token := RefreshToken(OutcomeAt(old(client.replies), 0));
              if token.Err? then
                o == Fail(token.error) && session == old(session) && file.contents == old(file.contents)
              else
                o == Pass
                && session == (if token.value.Some? then token.value else old(session))
                && file.contents == (if token.value.Some? && old(file.writable) then token.value else old(file.contents))
    {
      var response := client.Request(RefreshCall(CookieDict()));
      var token := RefreshToken(response);
      if token.Err? {
        return Fail(token.error);
      }
      o := Pass;
      if token.value.Some? {
        session := token.value;
        var _ := file.Write(token.value.value);
      }
    }

    /**
     * The refresh-and-retry branch of `_refreshed(func)`: it does what
     * `RetryEffect` describes.
     */
    method RefreshAndRetry(action: Action) returns (r: Result<Option<Body>, Fault>)
      requires session.Some?
      modifies this, client, file
      ensures file.writable == old(file.writable)
      ensures lastResults == old(lastResults) && account == old(account) && accountTimestamp == old(accountTimestamp)
      ensures macToNickname == old(macToNickname) && macToAttrs == old(macToAttrs)
      ensures var e := RetryEffect(action, old(session).value, old(file.writable), old(file.contents), old(client.replies));
              r == e.result && session == Some(e.session) && file.contents == e.contents
              && client.sent == old(client.sent) + e.calls
              && client.replies == Drop(old(client.replies), |e.calls|)
    {
      ghost var s := client.replies;
      var o := LoginRefresh();
      if o.Fail? {
        return Err(o.error);
      }
      var res := client.Request(ActionCall(action, CookieDict()));
      DropDrop(s, 1, 1);
      r := Lift(res);
    }

    /**
     * `_refreshed(func)` where `func` issues `action` with the cookie of the
     * moment. On the expired-session error it refreshes and issues the action
     * once more, whose outcome stands; any other client error is logged and
     * the result is `None`; every other error propagates.
     */
    method Refreshed(action: Action) returns (r: Result<Option<Body>, Fault>)
      requires session.Some?
      modifies this, client, file
      ensures file.writable == old(file.writable)
      ensures lastResults == old(lastResults) && account == old(account) && accountTimestamp == old(accountTimestamp)
      ensures macToNickname == old(macToNickname) && macToAttrs == old(macToAttrs)
      ensures var e := RefreshedEffect(action, old(session).value, old(file.writable), old(file.contents), old(client.replies));
              r == e.result && session == Some(e.session) && file.contents == e.contents
              && client.sent == old(client.sent) + e.calls
              && client.replies == Drop(old(client.replies), |e.calls|)
    {
      ghost var s := client.replies;
      ghost var first := ActionCall(action, CookieDict());
      var res := client.Request(ActionCall(action, CookieDict()));
      if res != Err(SessionExpired) {
        r := Swallowed(res);
        assert RefreshedEffect(action, old(session).value, old(file.writable), old(file.contents), s)
               == Effect(r, [first], session.value, file.contents);
        return;
      }
      ghost var e := RetryEffect(action, session.value, file.writable, file.contents, Drop(s, 1));
      r := RefreshAndRetry(action);
      DropDrop(s, 1, |e.calls|);
      assert client.sent == old(client.sent) + ([first] + e.calls);
      assert RefreshedEffect(action, old(session).value, old(file.writable), old(file.contents), s)
             == Effect(e.result, [first] + e.calls, e.session, e.contents);
    }

    /**
     * `_update_tracked_devices`: appends the MAC of every device that passes
     * the filters to the present-MAC list, and records its name and
     * attributes when it has them.
     */
    method UpdateTrackedDevices(devices: seq<Device>)
      modifies this
      ensures lastResults == old(lastResults) + TrackedMacs(devices, Filter())
      ensures macToNickname == Recorded(old(macToNickname), devices, Filter(), NameValue)
      ensures macToAttrs == Recorded(old(macToAttrs), devices, Filter(), AttrsValue)
      ensures session == old(session) && account == old(account) && accountTimestamp == old(accountTimestamp)
    {
      var i := 0;
      while i < |devices|
        invariant 0 <= i <= |devices|
        invariant lastResults == old(lastResults) + TrackedMacs(devices[..i], Filter())
        invariant macToNickname == Recorded(old(macToNickname), devices[..i], Filter(), NameValue)
        invariant macToAttrs == Recorded(old(macToAttrs), devices[..i], Filter(), AttrsValue)
        invariant session == old(session) && account == old(account) && accountTimestamp == old(accountTimestamp)
      {
        var d := devices[i];
        assert devices[..i + 1][..i] == devices[..i];
        MacsAppend(Kept(devices[..i], Filter()), if Tracked(d, Filter()) then [d] else []);
        if Tracked(d, Filter()) {
          var name := NameValue(d);
          if name.Some? {
            macToNickname := macToNickname[d.mac := name.value];
          }
          var attrs := AttrsValue(d);
          if attrs.Some? {
            macToAttrs := macToAttrs[d.mac := attrs.value];
          }
          lastResults := lastResults + [d.mac];
        }
        i := i + 1;
      }
      assert devices[..i] == devices;
    }

    /**
     * The cache step of `_update_info`: when the account is stale it is
     * fetched (through `_refreshed`) and stamped with `now`; when that raises,
     * nothing is stamped. A swallowed client error caches `None`.
     */
    method RefreshAccount(now: int) returns (o: Outcome<Fault>)
      requires session.Some?
      modifies this, client, file
      ensures session.Some? && file.writable == old(file.writable)
      ensures lastResults == old(lastResults) && macToNickname == old(macToNickname) && macToAttrs == old(macToAttrs)
      ensures !AccountStale(old(accountTimestamp), now) ==>
                o == Pass && LinkNow() == old(LinkNow())
                && account == old(account) && accountTimestamp == old(accountTimestamp)
      ensures AccountStale(old(accountTimestamp), now) ==>
                var e := RefreshedOn(AccountAction, old(file.writable), old(LinkNow()));
                LinkNow() == After(e, old(LinkNow()))
                && if e.result.Err? then
                     o == Fail(e.result.error) && account == old(account) && accountTimestamp == old(accountTimestamp)
                   else
                     o == Pass && account == e.result.value && accountTimestamp == Some(now)
    {
      o := Pass;
      if AccountStale(accountTimestamp, now) {
        var a := Refreshed(AccountAction);
        if a.Err? {
          return Fail(a.error);
        }
        account := a.value;
        accountTimestamp := Some(now);
      }
    }

    /**
     * `_devices(url)` as the network loop uses it: the device list of one
     * network, fetched through `_refreshed`, as `DevicesOutcome` narrows it.
     */
    method FetchDevices(url: string) returns (r: Result<Body, Fault>)
      requires session.Some?
      modifies this, client, file
      ensures session.Some? && file.writable == old(file.writable)
      ensures lastResults == old(lastResults) && account == old(account) && accountTimestamp == old(accountTimestamp)
      ensures macToNickname == old(macToNickname) && macToAttrs == old(macToAttrs)
      ensures var e := RefreshedOn(DevicesAction(url), old(file.writable), old(LinkNow()));
              r == DevicesOutcome(e.result) && LinkNow() == After(e, old(LinkNow()))
    {
      var d := Refreshed(DevicesAction(url));
      if d.Err? {
        return Err(d.error);
      }
      if d.value.None? || !IsDeviceList(d.value.value) {
        return Err(Malformed);
      }
      r := Ok(d.value.value);
    }

    /** Folds one more fetched device list into the results. */
    method FoldDevices(payload: Body, ghost fetched: seq<Body>)
      requires Current() == Poll(AllDevices(fetched), Filter())
      modifies this
      ensures Current() == Poll(AllDevices(fetched + [payload]), Filter())
      ensures session == old(session) && account == old(account) && accountTimestamp == old(accountTimestamp)
    {
      UpdateTrackedDevices(DevicesIn(payload));
      FoldStep(fetched, payload, Filter());
    }

    /**
     * The `i`-th iteration of the network loop of `_update_info`, as `Visit`
     * describes it; a kept device list is folded into the results.
     */
    method VisitNetwork(networks: seq<Network>, i: nat, ghost w0: Sweep, ghost fetched: seq<Body>)
      returns (o: Outcome<Fault>, ghost fetched': seq<Body>)
      requires i < |networks| && session.Some?
      requires Sweep(Pass, LinkNow(), fetched) == LoopUpTo(networks, onlyNetworks, file.writable, w0, i)
      requires Current() == Poll(AllDevices(fetched), Filter())
      modifies this, client, file
      ensures session.Some? && file.writable == old(file.writable)
      ensures account == old(account) && accountTimestamp == old(accountTimestamp)
      ensures Sweep(o, LinkNow(), fetched') == LoopUpTo(networks, onlyNetworks, file.writable, w0, i + 1)
      ensures Current() == Poll(AllDevices(fetched'), Filter())
    {
      var id := NetworkIdFromUrl(networks[i].url);
      if id.None? {
        return Fail(Malformed), fetched;
      }
      if !NetworkSelected(id.value, onlyNetworks) {
        return Pass, fetched;
      }
      var d := FetchDevices(networks[i].url);
      if d.Err? {
        return Fail(d.error), fetched;
      }
      FoldDevices(d.value, fetched);
      o, fetched' := Pass, fetched + [d.value];
    }

    /**
     * The network loop of `_update_info`, from cleared results: it does what
     * `NetworkLoop` describes, and the results are those of the lists kept.
     */
    method PollNetworks(networks: seq<Network>) returns (o: Outcome<Fault>)
      requires session.Some? && Current() == Results([], map[], map[])
      modifies this, client, file
      ensures session.Some? && file.writable == old(file.writable)
      ensures account == old(account) && accountTimestamp == old(accountTimestamp)
      ensures var w := NetworkLoop(networks, onlyNetworks, old(file.writable), Sweep(Pass, old(LinkNow()), []));
              o == w.outcome && LinkNow() == w.link && Current() == Poll(AllDevices(w.fetched), Filter())
    {
      ghost var w0 := Sweep(Pass, LinkNow(), []);
      ghost var writable := file.writable;
      ghost var fetched: seq<Body> := [];
      o := Pass;
      var i := 0;
      while i < |networks| && o.Pass?
        invariant 0 <= i <= |networks| && session.Some?
        invariant file.writable == old(file.writable)
        invariant account == old(account) && accountTimestamp == old(accountTimestamp)
        invariant Sweep(o, LinkNow(), fetched) == LoopUpTo(networks, onlyNetworks, writable, w0, i)
        invariant Current() == Poll(AllDevices(fetched), Filter())
      {
        o, fetched := VisitNetwork(networks, i, w0, fetched);
        i := i + 1;
      }
      ghost var r := Sweep(o, LinkNow(), fetched);
      LoopUpToAll(networks, onlyNetworks, writable, w0, i, r);
    }

    /**
     * `_update_info`: it does what `UpdateEffect` describes; the results are
     * those of the lists kept, or as they were when the account fetch raised.
     */
    method UpdateInfo(now: int) returns (o: Outcome<Fault>)
      requires session.Some?
      modifies this, client, file
      ensures session.Some? && file.writable == old(file.writable)
      ensures var u := UpdateEffect(old(account), old(accountTimestamp), now, onlyNetworks, old(file.writable), old(LinkNow()));
              o == u.sweep.outcome && LinkNow() == u.sweep.link
              && account == u.account && accountTimestamp == u.stamp
              && Current() == if u.cleared then Poll(AllDevices(u.sweep.fetched), Filter()) else old(Current())
    {
      o := RefreshAccount(now);
      if o.Fail? {
        return;
      }
      macToNickname := map[];
      macToAttrs := map[];
      lastResults := [];
      if account.None? || !account.value.AccountBody? {
        return Fail(Malformed);
      }
      o := PollNetworks(account.value.networks);
    }

    /**
     * `scan_devices`: with no session, nothing is asked and the result is
     * empty; otherwise a poll runs as `UpdateEffect` describes, its errors
     * propagate, and the result is the present-MAC list.
     */
    method ScanDevices(now: int) returns (r: Result<seq<string>, Fault>)
      modifies this, client, file
      ensures file.writable == old(file.writable)
      ensures old(session).None? ==>
                r == Ok([]) && session.None? && client.sent == old(client.sent) && client.replies == old(client.replies)
                && file.contents == old(file.contents) && Current() == old(Current())
                && account == old(account) && accountTimestamp == old(accountTimestamp)
      ensures old(session).Some? ==>
                session.Some?
                && var u := UpdateEffect(old(account), old(accountTimestamp), now, onlyNetworks, old(file.writable), old(LinkNow()));
                LinkNow() == u.sweep.link && account == u.account && accountTimestamp == u.stamp
                && Current() == (if u.cleared then Poll(AllDevices(u.sweep.fetched), Filter()) else old(Current()))
                && r == if u.sweep.outcome.Pass? then Ok(lastResults) else Err(u.sweep.outcome.error)
      ensures r.Ok? && old(session).Some? ==> forall mac :: mac in macToNickname || mac in macToAttrs ==> mac in r.value
    {
      if session.None? {
        return Ok([]);
      }
      ghost var u := UpdateEffect(account, accountTimestamp, now, onlyNetworks, file.writable, LinkNow());
      ghost var l := LinkNow();
      var o := UpdateInfo(now);
      if o.Fail? {
        return Err(o.error);
      }
      UpdatePass(old(account), old(accountTimestamp), now, onlyNetworks, old(file.writable), l);
      forall mac | mac in macToNickname || mac in macToAttrs ensures mac in lastResults {
        RecordedKeys(AllDevices(u.sweep.fetched), Filter(), NameValue, mac);
        RecordedKeys(AllDevices(u.sweep.fetched), Filter(), AttrsValue, mac);
      }
      r := Ok(lastResults);
    }
  }
}
