/**
 * The older Home Assistant scanner of custom_components/device_tracker
 * (`EeroDeviceScanner` of eero_tracker.py). It keeps no account cache, no
 * names and no network filter: each poll fetches the account, then the
 * device list of every network, and reports the MACs of the wireless,
 * connected devices on its allow-list.
 */
module LegacyTracker {
  import opened Wrappers
  import opened Strings
  import opened Api
  import opened Storage
  import opened Polling

  /** The platform settings the legacy scanner reads. */
  datatype Config = Config(
    onlyMacs: string,    // '.'-separated MAC allow-list, "" by default
    scanInterval: int)   // seconds between polls

  /** What one `_refreshed` call does: its result, the requests it issues, the session and the file it leaves. */
  datatype Attempt = Attempt(result: Result<Body, Fault>, calls: seq<Call>, session: string, contents: Option<string>)

  /**
   * The refresh-and-retry branch of `_refreshed`, with the replies `s` still
   * to come at the refresh request: a refresh without a `user_token` ends it;
   * a token becomes the session even when writing it to the file fails; then
   * the action is issued once more with the new cookie.
   */
  function RetryAttempt(action: Action, session: string, writable: bool, contents: Option<string>, s: seq<Reply>): Attempt {
    var refresh := RefreshCall(map["s" := session]);
    var token := IndexUserToken(OutcomeAt(s, 0));
    if token.Err? then Attempt(Err(token.error), [refresh], session, contents)
    else if !writable then Attempt(Err(IoError), [refresh], token.value, contents)
    else Attempt(OutcomeAt(s, 1), [refresh, ActionCall(action, map["s" := token.value])], token.value, Some(token.value))
  }

  /** What the refresh-and-retry branch does, request by request. */
  lemma RetryAttemptSpec(action: Action, session: string, writable: bool, contents: Option<string>, s: seq<Reply>)
    ensures var e := RetryAttempt(action, session, writable, contents, s);
            var token := IndexUserToken(OutcomeAt(s, 0));
            && 1 <= |e.calls| <= 2 && e.calls[0] == RefreshCall(map["s" := session])
            && (forall c :: c in e.calls ==> c.action in {ActionPath(action), "login/refresh"})
            && (e.result.Ok? ==> Served(s, e.result.value))
            && (|e.calls| == 2 <==> token.Ok? && writable)
            && (token.Err? ==> e.result == Err(token.error) && e.session == session && e.contents == contents)
            && (token.Ok? ==> e.session == token.value)
            && (token.Ok? && !writable ==> e.result == Err(IoError) && e.contents == contents)
            && (|e.calls| == 2 ==>
                  e.calls[1] == ActionCall(action, map["s" := e.session]) && e.result == OutcomeAt(s, 1)
                  && e.contents == Some(e.session))
  {
    if OutcomeAt(s, 1).Ok? {
      OutcomeServed(s, 1);
    }
  }

  /**
   * `_refreshed` with session `session`, a session file holding `contents`
   * (writable or not) and the replies `s` still to come. The expired-session
   * error leads to a refresh and one more attempt; any other client error
   * hits the handler's reference to an undefined name.
   */
  function RefreshedAttempt(action: Action, session: string, writable: bool, contents: Option<string>, s: seq<Reply>): Attempt {
    var first := ActionCall(action, map["s" := session]);
    var res := OutcomeAt(s, 0);
    if res != Err(SessionExpired) then
      Attempt(if res.Err? && res.error.ClientError? then Err(NameError) else res, [first], session, contents)
    else
      var retry := RetryAttempt(action, session, writable, contents, Drop(s, 1));
      Attempt(retry.result, [first] + retry.calls, retry.session, retry.contents)
  }

  /** What `_refreshed` does, request by request. */
  lemma RefreshedAttemptSpec(action: Action, session: string, writable: bool, contents: Option<string>, s: seq<Reply>)
    ensures var e := RefreshedAttempt(action, session, writable, contents, s);
            var res := OutcomeAt(s, 0);
            && 1 <= |e.calls| <= 3 && e.calls[0] == ActionCall(action, map["s" := session])
            && (forall c :: c in e.calls ==> c.action in {ActionPath(action), "login/refresh"})
            && (e.result.Ok? ==> Served(s, e.result.value))
            && (res != Err(SessionExpired) ==>
                  |e.calls| == 1 && e.session == session && e.contents == contents
                  && e.result == (if res.Err? && res.error.ClientError? then Err(NameError) else res))
            && (res == Err(SessionExpired) ==> |e.calls| >= 2 && e.calls[1] == RefreshCall(map["s" := session]))
            && (|e.calls| == 3 ==> e.calls[2] == ActionCall(action, map["s" := e.session]) && e.result == OutcomeAt(s, 2))
            && (e.result.Err? && e.result.error.ClientError? ==> |e.calls| >= 2)
            && (e.contents == contents || (writable && e.contents == Some(e.session)))
  {
    var e := RefreshedAttempt(action, session, writable, contents, s);
    if OutcomeAt(s, 0) != Err(SessionExpired) {
      if e.result.Ok? {
        OutcomeServed(s, 0);
      }
    } else {
      var retry := RetryAttempt(action, session, writable, contents, Drop(s, 1));
      RetryAttemptSpec(action, session, writable, contents, Drop(s, 1));
      DropDrop(s, 1, 1);
      if e.result.Ok? {
        ServedDrop(s, 1, e.result.value);
      }
      forall c | c in e.calls ensures c.action in {ActionPath(action), "login/refresh"} {
        if c != e.calls[0] {
          assert c in retry.calls;
        }
      }
    }
  }

  /** The link after the requests of one `_refreshed` call. */
  function After(e: Attempt, l: Link): Link {
    Advance(l, e.calls, e.session, e.contents)
  }

  /** `_refreshed` issuing `action` on the link `l`. */
  function RefreshedOn(action: Action, writable: bool, l: Link): Attempt {
    RefreshedAttempt(action, l.session, writable, l.contents, l.replies)
  }

  /**
   * One iteration of the network loop of `_update_info`, on network `n`: its
   * device list is fetched, and a payload that is not a list of device
   * records raises.
   */
  function Visit(n: Network, writable: bool, w: Sweep): Sweep
    requires w.outcome.Pass?
  {
    var e := RefreshedOn(DevicesAction(n.url), writable, w.link);
    var d := AsDeviceList(e.result);
    if d.Err? then Sweep(Fail(d.error), After(e, w.link), w.fetched)
    else Sweep(Pass, After(e, w.link), w.fetched + [d.value])
  }

  /** The network loop of `_update_info` from `w`: every network in order, until one raises. */
  function NetworkLoop(networks: seq<Network>, writable: bool, w: Sweep): Sweep
    decreases |networks|
  {
    if networks == [] || w.outcome.Fail? then w
    else NetworkLoop(networks[1..], writable, Visit(networks[0], writable, w))
  }

  /** The loop from the `i`-th network, one step on. */
  lemma LoopStep(networks: seq<Network>, writable: bool, w: Sweep, i: int)
    requires 0 <= i < |networks| && w.outcome.Pass?
    ensures NetworkLoop(networks[i..], writable, w) == NetworkLoop(networks[i + 1..], writable, Visit(networks[i], writable, w))
  {
    assert networks[i..][1..] == networks[i + 1..];
  }

  /** The network loop from `w` over the first `k` networks only. */
  ghost function LoopUpTo(networks: seq<Network>, writable: bool, w: Sweep, k: nat): Sweep
    requires k <= |networks|
  {
    if k == 0 then w
    else
      var p := LoopUpTo(networks, writable, w, k - 1);
      if p.outcome.Fail? then p else Visit(networks[k - 1], writable, p)
  }

  /** Visiting the `j`-th network moves it from the rest of the loop to the first part. */
  lemma LoopUpToStep(networks: seq<Network>, writable: bool, w: Sweep, j: nat)
    requires 0 < j <= |networks|
    ensures NetworkLoop(networks[j - 1..], writable, LoopUpTo(networks, writable, w, j - 1))
            == NetworkLoop(networks[j..], writable, LoopUpTo(networks, writable, w, j))
  {
    var p := LoopUpTo(networks, writable, w, j - 1);
    assert networks[j - 1..][1..] == networks[j..];
    if p.outcome.Fail? {
      LoopDone(networks[j..], writable, p);
    }
  }

  /** The loop over all networks is the loop over the first `j`, then over the rest. */
  lemma LoopUpToRest(networks: seq<Network>, writable: bool, w: Sweep, j: nat)
    requires j <= |networks|
    ensures NetworkLoop(networks, writable, w) == NetworkLoop(networks[j..], writable, LoopUpTo(networks, writable, w, j))
  {
    assert networks[0..] == networks;
    var k := 0;
    while k < j
      invariant k <= j
      invariant NetworkLoop(networks, writable, w) == NetworkLoop(networks[k..], writable, LoopUpTo(networks, writable, w, k))
    {
      k := k + 1;
      LoopUpToStep(networks, writable, w, k);
    }
  }

  /** Once every network is visited, or one has raised, the loop is over. */
  lemma LoopUpToAll(networks: seq<Network>, writable: bool, w: Sweep, k: nat, r: Sweep)
    requires k <= |networks| && r == LoopUpTo(networks, writable, w, k)
    requires k == |networks| || r.outcome.Fail?
    ensures NetworkLoop(networks, writable, w) == r
  {
    LoopUpToRest(networks, writable, w, k);
    LoopDone(networks[k..], writable, r);
  }

  /** A loop that has run out of networks, or has raised, is over. */
  lemma LoopDone(networks: seq<Network>, writable: bool, w: Sweep)
    requires networks == [] || w.outcome.Fail?
    ensures NetworkLoop(networks, writable, w) == w
  {
  }

  /** One visit asks only for a session refresh or the device list of the network. */
  lemma VisitPaths(networks: seq<Network>, writable: bool, w: Sweep)
    requires networks != [] && w.outcome.Pass?
    ensures var v := Visit(networks[0], writable, w);
            Continues(v.link.sent, v.link.replies, w.link.sent, w.link.replies, NetworkPaths(networks))
  {
    var e := RefreshedOn(DevicesAction(networks[0].url), writable, w.link);
    RefreshedAttemptSpec(DevicesAction(networks[0].url), w.link.session, writable, w.link.contents, w.link.replies);
    NetworkPathsCons(networks);
    AdvanceContinues(w.link, e.calls, e.session, e.contents, NetworkPaths(networks));
  }

  /**
   * The network loop uses one reply per request and asks only for session
   * refreshes and the device lists of the networks it was given.
   */
  lemma {:induction false} LoopPaths(networks: seq<Network>, writable: bool, w: Sweep)
    ensures var r := NetworkLoop(networks, writable, w);
            Continues(r.link.sent, r.link.replies, w.link.sent, w.link.replies, NetworkPaths(networks))
    decreases |networks|
  {
    if networks == [] || w.outcome.Fail? {
      ContinuesRefl(w.link.sent, w.link.replies, NetworkPaths(networks));
    } else {
      var v := Visit(networks[0], writable, w);
      var r := NetworkLoop(networks[1..], writable, v);
      VisitPaths(networks, writable, w);
      LoopPaths(networks[1..], writable, v);
      NetworkPathsCons(networks);
      ContinuesTrans(w.link.sent, w.link.replies, v.link.sent, v.link.replies, r.link.sent, r.link.replies,
                     NetworkPaths(networks), NetworkPaths(networks[1..]));
    }
  }

  /** A loop that gets through every network has fetched one device list per network. */
  lemma {:induction false} LoopCount(networks: seq<Network>, writable: bool, w: Sweep)
    ensures var r := NetworkLoop(networks, writable, w);
            r.outcome.Pass? ==> |r.fetched| == |w.fetched| + |networks|
    decreases |networks|
  {
    if networks != [] && w.outcome.Pass? {
      LoopCount(networks[1..], writable, Visit(networks[0], writable, w));
    }
  }

  /**
   * One visit keeps the lists fetched before it, adds at most a device list
   * that some reply carried, and consumes replies from the front.
   */
  lemma VisitServed(n: Network, writable: bool, w: Sweep) returns (j: nat)
    requires w.outcome.Pass?
    ensures var v := Visit(n, writable, w);
            v.link.replies == Drop(w.link.replies, j)
            && |w.fetched| <= |v.fetched| && v.fetched[..|w.fetched|] == w.fetched
            && forall k :: |w.fetched| <= k < |v.fetched| ==>
                 IsDeviceList(v.fetched[k]) && Served(w.link.replies, v.fetched[k])
  {
    var e := RefreshedOn(DevicesAction(n.url), writable, w.link);
    RefreshedAttemptSpec(DevicesAction(n.url), w.link.session, writable, w.link.contents, w.link.replies);
    j := |e.calls|;
    assert w.fetched[..|w.fetched|] == w.fetched;
    var d := AsDeviceList(e.result);
    if d.Ok? {
      assert (w.fetched + [d.value])[..|w.fetched|] == w.fetched;
    }
  }

  /**
   * The loop only adds to the lists fetched before it, and every list it adds
   * is a device list that some reply of the script carried.
   */
  lemma {:induction false} LoopServed(networks: seq<Network>, writable: bool, w: Sweep)
    ensures var r := NetworkLoop(networks, writable, w);
            |w.fetched| <= |r.fetched| && r.fetched[..|w.fetched|] == w.fetched
            && forall k :: |w.fetched| <= k < |r.fetched| ==>
                 IsDeviceList(r.fetched[k]) && Served(w.link.replies, r.fetched[k])
    decreases |networks|
  {
    if networks != [] && w.outcome.Pass? {
      var v := Visit(networks[0], writable, w);
      var r := NetworkLoop(networks[1..], writable, v);
      var j := VisitServed(networks[0], writable, w);
      LoopServed(networks[1..], writable, v);
      forall k | |w.fetched| <= k < |r.fetched| ensures IsDeviceList(r.fetched[k]) && Served(w.link.replies, r.fetched[k]) {
        if k < |v.fetched| {
          assert r.fetched[k] == r.fetched[..|v.fetched|][k];
        } else {
          ServedDrop(w.link.replies, j, r.fetched[k]);
        }
      }
      assert r.fetched[..|w.fetched|] == r.fetched[..|v.fetched|][..|w.fetched|];
    } else {
      assert w.fetched[..|w.fetched|] == w.fetched;
    }
  }

  /** A network whose device request is answered with a device list: one call, one list kept. */
  lemma VisitAnswered(n: Network, writable: bool, w: Sweep, bodies: seq<Body>)
    requires w.outcome.Pass? && bodies != [] && Answers(w.link.replies, bodies)
    ensures Visit(n, writable, w)
            == Answered(w, [ActionCall(DevicesAction(n.url), map["s" := w.link.session])], [bodies[0]])
    ensures Answers(Drop(w.link.replies, 1), bodies[1..])
  {
    AnswersNext(w.link.replies, bodies);
  }

  /**
   * When the server answers each device request with a device list, the
   * loop asks once per network, in order, with the session unchanged, and
   * keeps exactly those lists.
   */
  lemma {:induction false} LoopAnswered(networks: seq<Network>, writable: bool, w: Sweep, bodies: seq<Body>)
    requires w.outcome.Pass? && |bodies| == |networks| && Answers(w.link.replies, bodies)
    ensures NetworkLoop(networks, writable, w) == Answered(w, DeviceCalls(networks, w.link.session), bodies)
    decreases |networks|
  {
    if networks == [] {
      assert w.link.sent + [] == w.link.sent && w.fetched + [] == w.fetched;
    } else {
      var call := ActionCall(DevicesAction(networks[0].url), map["s" := w.link.session]);
      VisitAnswered(networks[0], writable, w, bodies);
      var v := Answered(w, [call], [bodies[0]]);
      LoopAnswered(networks[1..], writable, v, bodies[1..]);
      AnsweredCons(w, call, DeviceCalls(networks[1..], w.link.session), bodies[0], bodies[1..]);
      assert [bodies[0]] + bodies[1..] == bodies;
    }
  }

  /** What `_update_info` leaves: whether the present-MAC list was cleared, and where the network loop ended. */
  datatype Update = Update(cleared: bool, sweep: Sweep)

  /**
   * `_update_info` on the link `l`: the account is fetched (there is no
   * cache); when that raises the list is left as it was. Otherwise the list
   * is cleared, an answer that is not an account raises, and the networks
   * of the account are polled.
   */
  function UpdateAttempt(writable: bool, l: Link): Update {
    var e := RefreshedOn(AccountAction, writable, l);
    var m := After(e, l);
    if e.result.Err? then Update(false, Sweep(Fail(e.result.error), m, []))
    else if !e.result.value.AccountBody? then Update(true, Sweep(Fail(Malformed), m, []))
    else Update(true, NetworkLoop(e.result.value.networks, writable, Sweep(Pass, m, [])))
  }

  /**
   * A poll first asks for the account with the current cookie, uses one
   * reply per request, and asks only for the account, session refreshes and
   * the device lists of the networks of the account it got, which some reply
   * of the script carried.
   */
  lemma UpdatePaths(writable: bool, l: Link)
    ensures var e := RefreshedOn(AccountAction, writable, l);
            var u := UpdateAttempt(writable, l);
            |u.sweep.link.sent| > |l.sent| && u.sweep.link.sent[|l.sent|] == ActionCall(AccountAction, map["s" := l.session])
            && Continues(u.sweep.link.sent, u.sweep.link.replies, l.sent, l.replies, NetworkPaths(AccountNetworks(e.result)))
            && (e.result.Ok? && e.result.value.AccountBody? ==> Served(l.replies, e.result.value))
  {
    var e := RefreshedOn(AccountAction, writable, l);
    var m := After(e, l);
    var u := UpdateAttempt(writable, l);
    var networks := AccountNetworks(e.result);
    RefreshedAttemptSpec(AccountAction, l.session, writable, l.contents, l.replies);
    AdvanceContinues(l, e.calls, e.session, e.contents, NetworkPaths(networks));
    if e.result.Ok? && e.result.value.AccountBody? {
      LoopPaths(networks, writable, Sweep(Pass, m, []));
      ContinuesTrans(l.sent, l.replies, m.sent, m.replies, u.sweep.link.sent, u.sweep.link.replies,
                     NetworkPaths(networks), NetworkPaths(networks));
    }
    assert u.sweep.link.sent[..|m.sent|][|l.sent|] == m.sent[|l.sent|] == e.calls[0];
  }

  /**
   * A poll that ends without raising has cleared the list and fetched one
   * device list per network of the account, each carried by some reply.
   */
  lemma UpdatePass(writable: bool, l: Link)
    ensures var e := RefreshedOn(AccountAction, writable, l);
            var u := UpdateAttempt(writable, l);
            u.sweep.outcome.Pass? ==>
              u.cleared && e.result.Ok? && e.result.value.AccountBody?
              && |u.sweep.fetched| == |e.result.value.networks|
              && forall k :: 0 <= k < |u.sweep.fetched| ==>
                   IsDeviceList(u.sweep.fetched[k]) && Served(l.replies, u.sweep.fetched[k])
  {
    var e := RefreshedOn(AccountAction, writable, l);
    var m := After(e, l);
    var u := UpdateAttempt(writable, l);
    if u.sweep.outcome.Pass? {
      LoopCount(e.result.value.networks, writable, Sweep(Pass, m, []));
      LoopServed(e.result.value.networks, writable, Sweep(Pass, m, []));
      forall k | 0 <= k < |u.sweep.fetched| ensures Served(l.replies, u.sweep.fetched[k]) {
        ServedDrop(l.replies, |e.calls|, u.sweep.fetched[k]);
      }
    }
  }

  /** A first attempt that is answered issues one request and yields the answer. */
  lemma FirstAnswered(action: Action, writable: bool, l: Link, b: Body)
    requires OutcomeAt(l.replies, 0) == Ok(b)
    ensures RefreshedOn(action, writable, l) == Attempt(Ok(b), [ActionCall(action, map["s" := l.session])], l.session, l.contents)
  {
  }

  /**
   * A poll whose account request is answered with `networks` and whose
   * device requests are answered with the lists `bodies`: the requests are
   * the account and then one per network in order, and the poll keeps
   * exactly those lists.
   */
  lemma UpdateAnswered(writable: bool, l: Link, networks: seq<Network>, bodies: seq<Body>)
    requires OutcomeAt(l.replies, 0) == Ok(AccountBody(networks))
    requires |bodies| == |networks| && Answers(Drop(l.replies, 1), bodies)
    ensures UpdateAttempt(writable, l)
            == Update(true, Sweep(Pass, Link(l.session, l.contents, Drop(l.replies, 1 + |bodies|),
                                             l.sent + [ActionCall(AccountAction, map["s" := l.session])]
                                             + DeviceCalls(networks, l.session)),
                                  bodies))
  {
    var call := ActionCall(AccountAction, map["s" := l.session]);
    var m := Link(l.session, l.contents, Drop(l.replies, 1), l.sent + [call]);
    FirstAnswered(AccountAction, writable, l, AccountBody(networks));
    LoopAnswered(networks, writable, Sweep(Pass, m, []), bodies);
    DropDrop(l.replies, 1, |bodies|);
    assert [] + bodies == bodies;
  }

  class EeroDeviceScanner {
    const file: SessionFile
    const client: Client
    const onlyMacs: set<string>
    const scanInterval: int

    var session: Option<string>
    var lastResults: seq<string>

    /**
     * Reads the allow-list and the interval. An interval under 25 seconds
     * disables the scanner: the session file is not loaded and the session
     * stays empty. Otherwise the token is loaded with its newlines removed.
     */
    constructor(config: Config, file: SessionFile, client: Client)
      ensures this.file == file && this.client == client
      ensures onlyMacs == LegacyAllowList(config.onlyMacs) && scanInterval == config.scanInterval
      ensures lastResults == []
      ensures config.scanInterval < MinimumScanInterval || file.contents.None? ==> session.None?
      ensures config.scanInterval >= MinimumScanInterval && file.contents.Some? ==>
                session == Some(Remove(file.contents.value, '\n'))
    {
      this.file := file;
      this.client := client;
      onlyMacs := LegacyAllowList(config.onlyMacs);
      scanInterval := config.scanInterval;
      session := None;
      lastResults := [];
      new;
      if scanInterval >= MinimumScanInterval {
        var text := file.Read();
        session := if text.Some? then Some(Remove(text.value, '\n')) else None;
      }
    }

    /** Only wireless devices count. */
    function Filter(): DeviceFilter {
      DeviceFilter(onlyMacs, true)
    }

    /** The session, the session file and the network, as one value. */
    ghost function LinkNow(): Link
      requires session.Some?
      reads this, client, file
    {
      Link(session.value, file.contents, client.replies, client.sent)
    }

    /** `_cookie_dict`: the session token as cookie `s`. */
    function CookieDict(): (m: map<string, string>)
      requires session.Some?
      reads this
      ensures "s" in m && m["s"] == session.value && m.Keys == {"s"}
    {
      var m := map["s" := session.value];
      assert "s" in m;
      m
    }

    /** `get_device_name`: this scanner knows no names. */
    function DeviceName(mac: string): (r: Option<string>)
      ensures r.None?
    {
      None
    }

    /**
     * `_login_refresh`: posts the cookie to the refresh endpoint; a missing
     * `user_token` raises before anything changes. Otherwise the token becomes
     * the session first, then the file is overwritten, and a failed write
     * raises.
     */
    method LoginRefresh() returns (o: Outcome<Fault>)
      requires session.Some?
      modifies this, client, file
      ensures client.sent == old(client.sent) + [RefreshCall(old(CookieDict()))]
      ensures client.replies == Drop(old(client.replies), 1)
      ensures file.writable == old(file.writable) && lastResults == old(lastResults)
      ensures var token := IndexUserToken(OutcomeAt(old(client.replies), 0));
              if token.Err? then
                o == Fail(token.error) && session == old(session) && file.contents == old(file.contents)
              else
                session == Some(token.value)
                && file.contents == (if old(file.writable) then Some(token.value) else old(file.contents))
                && o == (if old(file.writable) then Pass else Fail(IoError))
    {
      var response := client.Request(RefreshCall(CookieDict()));
      var token := IndexUserToken(response);
      if token.Err? {
        return Fail(token.error);
      }
      session := Some(token.value);
      var ok := file.Write(token.value);
      o := if ok then Pass else Fail(IoError);
    }

    /**
     * The refresh-and-retry branch of `_refreshed(func)`: it does what
     * `RetryAttempt` describes.
     */
    method RefreshAndRetry(action: Action) returns (r: Result<Body, Fault>)
      requires session.Some?
      modifies this, client, file
      ensures file.writable == old(file.writable) && lastResults == old(lastResults)
      ensures var e := RetryAttempt(action, old(session).value, old(file.writable), old(file.contents), old(client.replies));
              r == e.result && session == Some(e.session) && file.contents == e.contents
              && client.sent == old(client.sent) + e.calls
              && client.replies == Drop(old(client.replies), |e.calls|)
    {
      ghost var s := client.replies;
      var o := LoginRefresh();
      if o.Fail? {
        return Err(o.error);
      }
      r := client.Request(ActionCall(action, CookieDict()));
      DropDrop(s, 1, 1);
    }

    /**
     * `_refreshed(func)` where `func` issues `action` with the cookie of the
     * moment: it does what `RefreshedAttempt` describes.
     */
    method Refreshed(action: Action) returns (r: Result<Body, Fault>)
      requires session.Some?
      modifies this, client, file
      ensures file.writable == old(file.writable) && lastResults == old(lastResults)
      ensures var e := RefreshedAttempt(action, old(session).value, old(file.writable), old(file.contents), old(client.replies));
              r == e.result && session == Some(e.session) && file.contents == e.contents
              && client.sent == old(client.sent) + e.calls
              && client.replies == Drop(old(client.replies), |e.calls|)
    {
      ghost var s := client.replies;
      ghost var first := ActionCall(action, CookieDict());
      var res := client.Request(ActionCall(action, CookieDict()));
      if res != Err(SessionExpired) {
        r := if res.Err? && res.error.ClientError? then Err(NameError) else res;
        assert RefreshedAttempt(action, old(session).value, old(file.writable), old(file.contents), s)
               == Attempt(r, [first], session.value, file.contents);
        return;
      }
      ghost var e := RetryAttempt(action, session.value, file.writable, file.contents, Drop(s, 1));
      r := RefreshAndRetry(action);
      DropDrop(s, 1, |e.calls|);
      assert client.sent == old(client.sent) + ([first] + e.calls);
      assert RefreshedAttempt(action, old(session).value, old(file.writable), old(file.contents), s)
             == Attempt(e.result, [first] + e.calls, e.session, e.contents);
    }

    /**
     * `_devices(url)` as the network loop uses it: the device list of one
     * network, fetched through `_refreshed`; a payload that cannot be
     * iterated as device records raises.
     */
    method FetchDevices(url: string) returns (r: Result<Body, Fault>)
      requires session.Some?
      modifies this, client, file
      ensures session.Some? && file.writable == old(file.writable) && lastResults == old(lastResults)
      ensures var e := RefreshedOn(DevicesAction(url), old(file.writable), old(LinkNow()));
              r == AsDeviceList(e.result) && LinkNow() == After(e, old(LinkNow()))
    {
      var d := Refreshed(DevicesAction(url));
      if d.Err? {
        return d;
      }
      if !IsDeviceList(d.value) {
        return Err(Malformed);
      }
      r := d;
    }

    /** The inner loop of `_update_info`: appends the MAC of every device that passes the filters. */
    method AppendTracked(devices: seq<Device>)
      modifies this
      ensures lastResults == old(lastResults) + TrackedMacs(devices, Filter())
      ensures session == old(session)
    {
      var i := 0;
      while i < |devices|
        invariant 0 <= i <= |devices|
        invariant lastResults == old(lastResults) + TrackedMacs(devices[..i], Filter())
        invariant session == old(session)
      {
        var d := devices[i];
        assert devices[..i + 1][..i] == devices[..i];
        MacsAppend(Kept(devices[..i], Filter()), if Tracked(d, Filter()) then [d] else []);
        if d.wireless && d.connected {
          if |onlyMacs| > 0 && d.mac !in onlyMacs {
            i := i + 1;
            continue;
          }
          lastResults := lastResults + [d.mac];
        }
        i := i + 1;
      }
      assert devices[..i] == devices;
    }

    /** Appends the kept MACs of one more fetched device list. */
    method FoldDevices(payload: Body, ghost fetched: seq<Body>)
      requires lastResults == TrackedMacs(AllDevices(fetched), Filter())
      modifies this
      ensures lastResults == TrackedMacs(AllDevices(fetched + [payload]), Filter())
      ensures session == old(session)
    {
      AppendTracked(DevicesIn(payload));
      FoldStep(fetched, payload, Filter());
    }

    /**
     * The `i`-th iteration of the network loop of `_update_info`, as `Visit`
     * describes it; a fetched device list is folded into the list.
     */
    method VisitNetwork(networks: seq<Network>, i: nat, ghost w0: Sweep, ghost fetched: seq<Body>)
      returns (o: Outcome<Fault>, ghost fetched': seq<Body>)
      requires i < |networks| && session.Some?
      requires Sweep(Pass, LinkNow(), fetched) == LoopUpTo(networks, file.writable, w0, i)
      requires lastResults == TrackedMacs(AllDevices(fetched), Filter())
      modifies this, client, file
      ensures session.Some? && file.writable == old(file.writable)
      ensures Sweep(o, LinkNow(), fetched') == LoopUpTo(networks, file.writable, w0, i + 1)
      ensures lastResults == TrackedMacs(AllDevices(fetched'), Filter())
    {
      var d := FetchDevices(networks[i].url);
      if d.Err? {
        return Fail(d.error), fetched;
      }
      FoldDevices(d.value, fetched);
      o, fetched' := Pass, fetched + [d.value];
    }

    /**
     * The network loop of `_update_info`, from a cleared list: it does what
     * `NetworkLoop` describes, and the list holds the kept MACs of the lists
     * fetched.
     */
    method PollNetworks(networks: seq<Network>) returns (o: Outcome<Fault>)
      requires session.Some? && lastResults == []
      modifies this, client, file
      ensures session.Some? && file.writable == old(file.writable)
      ensures var w := NetworkLoop(networks, old(file.writable), Sweep(Pass, old(LinkNow()), []));
              o == w.outcome && LinkNow() == w.link && lastResults == TrackedMacs(AllDevices(w.fetched), Filter())
    {
      ghost var w0 := Sweep(Pass, LinkNow(), []);
      ghost var fetched: seq<Body> := [];
      o := Pass;
      var i := 0;
      while i < |networks| && o.Pass?
        invariant 0 <= i <= |networks| && session.Some?
        invariant file.writable == old(file.writable)
        invariant Sweep(o, LinkNow(), fetched) == LoopUpTo(networks, old(file.writable), w0, i)
        invariant lastResults == TrackedMacs(AllDevices(fetched), Filter())
      {
        o, fetched := VisitNetwork(networks, i, w0, fetched);
        i := i + 1;
      }
      LoopUpToAll(networks, old(file.writable), Sweep(Pass, old(LinkNow()), []), i, Sweep(o, LinkNow(), fetched));
    }

    /**
     * `_update_info`: it does what `UpdateAttempt` describes; the list holds
     * the kept MACs of the lists fetched, or is as it was when the account
     * fetch raised.
     */
    method UpdateInfo() returns (o: Outcome<Fault>)
      requires session.Some?
      modifies this, client, file
      ensures session.Some? && file.writable == old(file.writable)
      ensures var u := UpdateAttempt(old(file.writable), old(LinkNow()));
              o == u.sweep.outcome && LinkNow() == u.sweep.link
              && lastResults == if u.cleared then TrackedMacs(AllDevices(u.sweep.fetched), Filter()) else old(lastResults)
    {
      var account := Refreshed(AccountAction);
      if account.Err? {
        return Fail(account.error);
      }
      lastResults := [];
      if !account.value.AccountBody? {
        return Fail(Malformed);
      }
      o := PollNetworks(account.value.networks);
    }

    /**
     * `scan_devices`: a scanner without a session reports nothing and asks
     * nothing; otherwise a poll runs as `UpdateAttempt` describes, its errors
     * propagate, and the result is the present-MAC list.
     */
    method ScanDevices() returns (r: Result<seq<string>, Fault>)
      modifies this, client, file
      ensures file.writable == old(file.writable)
      ensures old(session).None? ==>
                r == Ok([]) && session.None? && lastResults == old(lastResults)
                && client.sent == old(client.sent) && client.replies == old(client.replies)
                && file.contents == old(file.contents)
      ensures old(session).Some? ==>
                session.Some?
                && var u := UpdateAttempt(old(file.writable), old(LinkNow()));
                LinkNow() == u.sweep.link
                && lastResults == (if u.cleared then TrackedMacs(AllDevices(u.sweep.fetched), Filter()) else old(lastResults))
                && r == if u.sweep.outcome.Pass? then Ok(lastResults) else Err(u.sweep.outcome.error)
      ensures r.Ok? ==> forall mac :: mac in r.value && onlyMacs != {} ==> mac in onlyMacs
    {
      if session.None? {
        return Ok([]);
      }
      ghost var l := LinkNow();
      ghost var u := UpdateAttempt(file.writable, l);
      var o := UpdateInfo();
      if o.Fail? {
        return Err(o.error);
      }
      UpdatePass(old(file.writable), l);
      forall mac | mac in lastResults && onlyMacs != {} ensures mac in onlyMacs {
        TrackedMacsMembers(AllDevices(u.sweep.fetched), Filter(), mac);
      }
      r := Ok(lastResults);
    }
  }
}
