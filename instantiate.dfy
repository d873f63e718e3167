/**
 * The device dump of eero_tracker_instantiate.py, run when a session exists:
 * it fetches the account through `Eero`, then every network's device list,
 * and prints one line per wireless, connected device.
 */
module Instantiate {
  import opened Wrappers
  import opened Api
  import opened Polling
  import opened EeroClient

  /** The dump keeps the devices that are wireless and connected, whatever their MAC. */
  const DumpFilter: DeviceFilter := DeviceFilter({}, true)

  /** `"{}, {}, {}".format(nickname, hostname, mac)`: a null name prints as "None". */
  function DumpLine(d: Device): string {
    Show(d.nickname) + ", " + Show(d.hostname) + ", " + d.mac
  }

  /** The lines the dump prints for the devices `ds`, in order. */
  function DumpLines(ds: seq<Device>): (lines: seq<string>)
    ensures |lines| == |Kept(ds, DumpFilter)|
  {
    var kept := Kept(ds, DumpFilter);
    seq(|kept|, k requires 0 <= k < |kept| => DumpLine(kept[k]))
  }

  lemma DumpLinesAppend(a: seq<Device>, b: seq<Device>)
    ensures DumpLines(a + b) == DumpLines(a) + DumpLines(b)
  {
    KeptAppend(a, b, DumpFilter);
  }

  /** A line is printed exactly when some device of the list is wireless and connected and prints as it. */
  lemma DumpLinesMembers(ds: seq<Device>, line: string)
    ensures line in DumpLines(ds) <==>
              exists k :: 0 <= k < |ds| && ds[k].wireless && ds[k].connected && DumpLine(ds[k]) == line
  {
    var kept := Kept(ds, DumpFilter);
    if line in DumpLines(ds) {
      var i :| 0 <= i < |kept| && DumpLines(ds)[i] == line;
      KeptMembers(ds, DumpFilter, kept[i]);
      var k :| 0 <= k < |ds| && ds[k] == kept[i];
    }
    if exists k :: 0 <= k < |ds| && ds[k].wireless && ds[k].connected && DumpLine(ds[k]) == line {
      var k :| 0 <= k < |ds| && ds[k].wireless && ds[k].connected && DumpLine(ds[k]) == line;
      KeptMembers(ds, DumpFilter, ds[k]);
      var i :| 0 <= i < |kept| && kept[i] == ds[k];
      assert DumpLines(ds)[i] == line;
    }
  }

  /** The inner loop: one line per wireless, connected device of one list. */
  method PrintDevices(devices: seq<Device>) returns (lines: seq<string>)
    ensures lines == DumpLines(devices)
  {
    lines := [];
    var i := 0;
    while i < |devices|
      invariant 0 <= i <= |devices|
      invariant lines == DumpLines(devices[..i])
    {
      var d := devices[i];
      assert devices[..i + 1] == devices[..i] + [d];
      DumpLinesAppend(devices[..i], [d]);
      if d.wireless && d.connected {
        lines := lines + [DumpLine(d)];
      }
      i := i + 1;
    }
    assert devices[..i] == devices;
  }

  /** The link of an `Eero` that holds a session: its token, the file, the replies to come and the requests sent. */
  ghost function LinkOf(eero: Eero): Link
    requires eero.session.cookie.Some?
    reads eero.session, eero.session.file, eero.client
  {
    Link(eero.session.cookie.value, eero.session.file.contents, eero.client.replies, eero.client.sent)
  }

  /** `eero.refreshed` issuing `action` on the link `l`. */
  function RefreshedOn(action: Action, writable: bool, l: Link): Exchange {
    RefreshedExchange(action, Some(l.session), writable, l.contents, l.replies)
  }

  /** The link after the requests of one `refreshed` call; a stored token stays stored. */
  function After(x: Exchange, l: Link): Link {
    Advance(l, x.calls, x.cookie.GetOr(l.session), x.contents)
  }

  /**
   * One iteration of the dump's network loop, on network `n`: its device
   * list is fetched, and a payload that is not a list of device records
   * raises.
   */
  function Visit(n: Network, writable: bool, w: Sweep): Sweep
    requires w.outcome.Pass?
  {
    var x := RefreshedOn(DevicesAction(n.url), writable, w.link);
    var d := AsDeviceList(x.result);
    if d.Err? then Sweep(Fail(d.error), After(x, w.link), w.fetched)
    else Sweep(Pass, After(x, w.link), w.fetched + [d.value])
  }

  /** The dump's network loop from `w`: every network in order, until one raises. */
  function DumpLoop(networks: seq<Network>, writable: bool, w: Sweep): Sweep
    decreases |networks|
  {
    if networks == [] || w.outcome.Fail? then w
    else DumpLoop(networks[1..], writable, Visit(networks[0], writable, w))
  }

  /**
   * The dump on the link `l`: the account, and when it is an account, the
   * device list of each of its networks.
   */
  function DumpRun(writable: bool, l: Link): Sweep {
    var x := RefreshedOn(AccountAction, writable, l);
    var m := After(x, l);
    if x.result.Err? then Sweep(Fail(x.result.error), m, [])
    else if !x.result.value.AccountBody? then Sweep(Fail(Malformed), m, [])
    else DumpLoop(x.result.value.networks, writable, Sweep(Pass, m, []))
  }

  lemma LoopStep(networks: seq<Network>, writable: bool, w: Sweep, i: int)
    requires 0 <= i < |networks| && w.outcome.Pass?
    ensures DumpLoop(networks[i..], writable, w) == DumpLoop(networks[i + 1..], writable, Visit(networks[i], writable, w))
  {
    assert networks[i..][1..] == networks[i + 1..];
  }

  lemma LoopDone(networks: seq<Network>, writable: bool, w: Sweep)
    requires networks == [] || w.outcome.Fail?
    ensures DumpLoop(networks, writable, w) == w
  {
  }

  /**
   * The dump's loop uses one reply per request and asks only for session
   * refreshes and the device lists of the networks it was given.
   */
  lemma {:induction false} LoopPaths(networks: seq<Network>, writable: bool, w: Sweep)
    ensures var r := DumpLoop(networks, writable, w);
            Continues(r.link.sent, r.link.replies, w.link.sent, w.link.replies, NetworkPaths(networks))
    decreases |networks|
  {
    if networks == [] || w.outcome.Fail? {
      ContinuesRefl(w.link.sent, w.link.replies, NetworkPaths(networks));
    } else {
      var x := RefreshedOn(DevicesAction(networks[0].url), writable, w.link);
      var v := Visit(networks[0], writable, w);
      var r := DumpLoop(networks[1..], writable, v);
      RefreshedExchangeSpec(DevicesAction(networks[0].url), Some(w.link.session), writable, w.link.contents, w.link.replies);
      NetworkPathsCons(networks);
      AdvanceContinues(w.link, x.calls, x.cookie.GetOr(w.link.session), x.contents, NetworkPaths(networks));
      LoopPaths(networks[1..], writable, v);
      ContinuesTrans(w.link.sent, w.link.replies, v.link.sent, v.link.replies, r.link.sent, r.link.replies,
                     NetworkPaths(networks), NetworkPaths(networks[1..]));
    }
  }

  /** A loop that gets through every network has fetched one device list per network. */
  lemma {:induction false} LoopCount(networks: seq<Network>, writable: bool, w: Sweep)
    ensures var r := DumpLoop(networks, writable, w);
            r.outcome.Pass? ==> |r.fetched| == |w.fetched| + |networks|
    decreases |networks|
  {
    if networks != [] && w.outcome.Pass? {
      LoopCount(networks[1..], writable, Visit(networks[0], writable, w));
    }
  }

  /** A first attempt that is answered issues one request with the stored cookie and yields the answer. */
  lemma FirstAnswered(action: Action, writable: bool, l: Link, b: Body)
    requires OutcomeAt(l.replies, 0) == Ok(b)
    ensures RefreshedOn(action, writable, l) == Exchange(Ok(b), [ActionCall(action, map["s" := l.session])], Some(l.session), l.contents)
  {
  }

  /**
   * When the server answers each device request with a device list, the
   * dump's loop asks once per network, in order, and keeps exactly those
   * lists.
   */
  lemma {:induction false} LoopAnswered(networks: seq<Network>, writable: bool, w: Sweep, bodies: seq<Body>)
    requires w.outcome.Pass? && |bodies| == |networks| && Answers(w.link.replies, bodies)
    ensures DumpLoop(networks, writable, w) == Answered(w, DeviceCalls(networks, w.link.session), bodies)
    decreases |networks|
  {
    if networks == [] {
      assert w.link.sent + [] == w.link.sent && w.fetched + [] == w.fetched;
    } else {
      var call := ActionCall(DevicesAction(networks[0].url), map["s" := w.link.session]);
      AnswersNext(w.link.replies, bodies);
      FirstAnswered(DevicesAction(networks[0].url), writable, w.link, bodies[0]);
      var v := Answered(w, [call], [bodies[0]]);
      assert Visit(networks[0], writable, w) == v;
      LoopAnswered(networks[1..], writable, v, bodies[1..]);
      AnsweredCons(w, call, DeviceCalls(networks[1..], w.link.session), bodies[0], bodies[1..]);
      assert [bodies[0]] + bodies[1..] == bodies;
    }
  }

  /**
   * The dump first asks for the account with the stored cookie, uses one
   * reply per request, and asks only for the account, session refreshes and
   * the device lists of the networks of the account it got.
   */
  lemma DumpPaths(writable: bool, l: Link)
    ensures var x := RefreshedOn(AccountAction, writable, l);
            var d := DumpRun(writable, l);
            |d.link.sent| > |l.sent| && d.link.sent[|l.sent|] == ActionCall(AccountAction, map["s" := l.session])
            && Continues(d.link.sent, d.link.replies, l.sent, l.replies, NetworkPaths(AccountNetworks(x.result)))
  {
    var x := RefreshedOn(AccountAction, writable, l);
    var m := After(x, l);
    var d := DumpRun(writable, l);
    var networks := AccountNetworks(x.result);
    RefreshedExchangeSpec(AccountAction, Some(l.session), writable, l.contents, l.replies);
    AdvanceContinues(l, x.calls, x.cookie.GetOr(l.session), x.contents, NetworkPaths(networks));
    if x.result.Ok? && x.result.value.AccountBody? {
      LoopPaths(networks, writable, Sweep(Pass, m, []));
      ContinuesTrans(l.sent, l.replies, m.sent, m.replies, d.link.sent, d.link.replies,
                     NetworkPaths(networks), NetworkPaths(networks));
    }
    assert d.link.sent[..|m.sent|][|l.sent|] == m.sent[|l.sent|] == x.calls[0];
  }

  /** A dump that ends without raising got an account and one device list per network of it. */
  lemma DumpPass(writable: bool, l: Link)
    ensures var x := RefreshedOn(AccountAction, writable, l);
            var d := DumpRun(writable, l);
            d.outcome.Pass? ==>
              x.result.Ok? && x.result.value.AccountBody? && |d.fetched| == |x.result.value.networks|
  {
    var x := RefreshedOn(AccountAction, writable, l);
    if x.result.Ok? && x.result.value.AccountBody? {
      LoopCount(x.result.value.networks, writable, Sweep(Pass, After(x, l), []));
    }
  }

  /** A dump whose account request is answered with `networks` goes on to loop over them. */
  lemma DumpAccountAnswered(writable: bool, l: Link, networks: seq<Network>)
    requires OutcomeAt(l.replies, 0) == Ok(AccountBody(networks))
    ensures DumpRun(writable, l)
            == DumpLoop(networks, writable,
                        Sweep(Pass, Link(l.session, l.contents, Drop(l.replies, 1), l.sent + [ActionCall(AccountAction, map["s" := l.session])]), []))
  {
    FirstAnswered(AccountAction, writable, l, AccountBody(networks));
  }

  /**
   * A dump whose account request is answered with `networks` and whose
   * device requests are answered with the lists `bodies` sends the account
   * request and then one per network in order, and prints the lines of all
   * those lists.
   */
  lemma DumpAnswered(writable: bool, l: Link, networks: seq<Network>, bodies: seq<Body>)
    requires OutcomeAt(l.replies, 0) == Ok(AccountBody(networks))
    requires |bodies| == |networks| && Answers(Drop(l.replies, 1), bodies)
    ensures DumpRun(writable, l)
            == Sweep(Pass, Link(l.session, l.contents, Drop(l.replies, 1 + |bodies|),
                                l.sent + [ActionCall(AccountAction, map["s" := l.session])] + DeviceCalls(networks, l.session)),
                     bodies)
  {
    var call := ActionCall(AccountAction, map["s" := l.session]);
    var m := Link(l.session, l.contents, Drop(l.replies, 1), l.sent + [call]);
    DumpAccountAnswered(writable, l, networks);
    LoopAnswered(networks, writable, Sweep(Pass, m, []), bodies);
    DropDrop(l.replies, 1, |bodies|);
    assert [] + bodies == bodies;
  }

  /**
   * `eero.devices(url)` and the inner loop: the lines of one network's device
   * list, fetched through `refreshed`; a payload that cannot be iterated as
   * device records raises.
   */
  method DumpNetwork(eero: Eero, url: string) returns (more: seq<string>, r: Result<Body, Fault>)
    requires !eero.NeedsLogin()
    modifies eero.client, eero.session, eero.session.file
    ensures !eero.NeedsLogin() && eero.session.file.writable == old(eero.session.file.writable)
    ensures var x := RefreshedOn(DevicesAction(url), old(eero.session.file.writable), old(LinkOf(eero)));
            r == AsDeviceList(x.result) && LinkOf(eero) == After(x, old(LinkOf(eero)))
    ensures more == if r.Ok? then DumpLines(DevicesIn(r.value)) else []
  {
    more := [];
    r := eero.Refreshed(DevicesAction(url));
    if r.Err? {
      return;
    }
    if !IsDeviceList(r.value) {
      return [], Err(Malformed);
    }
    more := PrintDevices(DevicesIn(r.value));
  }

  /**
   * The dump, run when a session is stored: it does what `DumpRun`
   * describes, and prints the lines of every device list fetched; lines
   * already printed stay printed when a later request or payload raises.
   */
  method Dump(eero: Eero) returns (lines: seq<string>, o: Outcome<Fault>)
    requires !eero.NeedsLogin()
    modifies eero.client, eero.session, eero.session.file
    ensures !eero.NeedsLogin() && eero.session.file.writable == old(eero.session.file.writable)
    ensures var d := DumpRun(old(eero.session.file.writable), old(LinkOf(eero)));
            o == d.outcome && LinkOf(eero) == d.link && lines == DumpLines(AllDevices(d.fetched))
  {
    ghost var writable := eero.session.file.writable;
    lines := [];
    var account := eero.Refreshed(AccountAction);
    if account.Err? {
      return [], Fail(account.error);
    }
    if !account.value.AccountBody? {
      return [], Fail(Malformed);
    }
    var networks := account.value.networks;
    ghost var w0 := Sweep(Pass, LinkOf(eero), []);
    ghost var fetched: seq<Body> := [];
    o := Pass;
    var i := 0;
    while i < |networks| && o.Pass?
      invariant 0 <= i <= |networks| && !eero.NeedsLogin()
      invariant eero.session.file.writable == writable
      invariant DumpLoop(networks, writable, w0) == DumpLoop(networks[i..], writable, Sweep(o, LinkOf(eero), fetched))
      invariant lines == DumpLines(AllDevices(fetched))
    {
      LoopStep(networks, writable, Sweep(o, LinkOf(eero), fetched), i);
      var more, r := DumpNetwork(eero, networks[i].url);
      if r.Err? {
        o := Fail(r.error);
      } else {
        AllDevicesSnoc(fetched, r.value);
        DumpLinesAppend(AllDevices(fetched), DevicesIn(r.value));
        lines := lines + more;
        fetched := fetched + [r.value];
      }
      i := i + 1;
    }
    LoopDone(networks[i..], writable, Sweep(o, LinkOf(eero), fetched));
  }
}
