/**
 * The eero cloud API as the tracker sees it: the records it returns, the
 * `{meta: {code, error?}, data}` response envelope, the errors a call can
 * raise, and a client whose network is a script of replies consumed in order.
 */
module Api {
  import opened Wrappers
  import opened Strings
  import opened Urls

  /** The `source` blob of a device: attributes passed through to the host. */
  type Attrs = map<string, string>

  /** A network of the account; the tracker uses only its URL. */
  datatype Network = Network(url: string)

  /** A device record of a network's device list; JSON `null` is `None`. */
  datatype Device = Device(
    mac: string,
    hostname: Option<string>,
    nickname: Option<string>,
    wireless: bool,
    connected: bool,
    source: Option<Attrs>)

  /** The `data` member of a response, in the shapes the tracker handles. */
  datatype Body =
    | Blank                                  // the "" the client substitutes when `data` is absent
    | TokenBody(userToken: Option<string>)   // a dict whose `user_token` may be missing
    | AccountBody(networks: seq<Network>)    // the account, with its `networks.data` list
    | DevicesBody(devices: seq<Device>)      // a list of device records

  /** A decoded response: `meta.code`, `meta.error` if present, `data` if present. */
  datatype Envelope = Envelope(code: int, error: Option<string>, data: Option<Body>)

  /** What a request yields: no answer (the HTTP library raises), a body that is not JSON, or an envelope. */
  datatype Reply = Unreachable | Garbled | Answer(envelope: Envelope)

  /** The exceptions a call can end with. */
  datatype Fault =
    | ClientError(status: int, message: string)  // ClientException / EeroException from `_parse_response`
    | ConnectionFailed                           // raised by the HTTP library
    | Malformed                                  // a JSON, key, type or attribute error on a payload
    | IoError                                    // the session file could not be written
    | NameError                                  // a reference to an undefined name

  /** The one error that asks for a session refresh. */
  const SessionExpired: Fault := ClientError(401, "error.session.refresh")

  /** Python truthiness of an optional string: present and non-empty. */
  predicate Truthy(s: Option<string>) { s.Some? && s.value != "" }

  // ---------------------------------------------------------------------------
  // the envelope check

  /**
   * `_parse_response`: a `meta.code` other than 200 and 201 raises with the
   * code and `meta.error` (defaulting to ""); otherwise the result is `data`,
   * defaulting to "".
   */
  function ParseResponse(e: Envelope): (r: Result<Body, Fault>)
    ensures r.Ok? <==> e.code == 200 || e.code == 201
    ensures r.Err? ==> r.error.ClientError? && r.error.status == e.code
    ensures r.Err? ==> r.error.message == if e.error.Some? then e.error.value else ""
    ensures r.Ok? && e.data.Some? ==> r.value == e.data.value
    ensures r.Ok? && e.data.None? ==> r.value == Blank
  {
    if e.code != 200 && e.code != 201 then Err(ClientError(e.code, e.error.GetOr("")))
    else Ok(e.data.GetOr(Blank))
  }

  /** Only a 401 whose `meta.error` is exactly "error.session.refresh" signals an expired session. */
  lemma SessionExpiredIff(e: Envelope)
    ensures ParseResponse(e) == Err(SessionExpired)
            <==> e.code == 401 && e.error == Some("error.session.refresh")
  {
    if e.code == 401 && e.error.None? {
      assert ParseResponse(e).error.message == "";
      assert "" != "error.session.refresh";
    }
  }

  /** What a reply turns into once the client has decoded and checked it. */
  function Receive(reply: Reply): (r: Result<Body, Fault>)
    ensures r.Ok? ==> reply.Answer?
    ensures reply.Answer? ==> r == ParseResponse(reply.envelope)
    ensures reply.Unreachable? ==> r == Err(ConnectionFailed)
    ensures reply.Garbled? ==> r == Err(Malformed)
  {
    match reply
    case Unreachable => Err(ConnectionFailed)
    case Garbled => Err(Malformed)
    case Answer(e) => ParseResponse(e)
  }

  // ---------------------------------------------------------------------------
  // reading the session token out of a response

  /** `response.get('user_token')`: a dict answers, `None` when the key is missing; other payloads raise. */
  function GetUserToken(b: Body): (r: Result<Option<string>, Fault>)
    ensures r.Ok? <==> b.TokenBody? || b.AccountBody?
    ensures b.TokenBody? ==> r == Ok(b.userToken)
    ensures b.AccountBody? ==> r == Ok(None)
  {
    match b
    case TokenBody(t) => Ok(t)
    case AccountBody(_) => Ok(None)
    case _ => Err(Malformed)
  }

  /** `response['user_token']` on the outcome of a request: a missing key or a non-dict raises. */
  function IndexUserToken(res: Result<Body, Fault>): (r: Result<string, Fault>)
    ensures r.Ok? <==> res.Ok? && res.value.TokenBody? && res.value.userToken.Some?
    ensures r.Ok? ==> r.value == res.value.userToken.value
    ensures res.Err? ==> r == Err(res.error)
  {
    match res
    case Err(f) => Err(f)
    case Ok(b) => if b.TokenBody? && b.userToken.Some? then Ok(b.userToken.value) else Err(Malformed)
  }

  // ---------------------------------------------------------------------------
  // requests

  datatype Verb = Get | Post

  /** One HTTP request: verb, action (the path under the API root), JSON body and cookies. */
  datatype Call = Call(verb: Verb, action: string, json: map<string, string>, cookies: map<string, string>)

  /** The two reads the pollers retry: the account, and one network's devices. */
  datatype Action = AccountAction | DevicesAction(networkUrl: string)

  /** `'{}'.format(x)` of an optional string: `None` prints as "None". */
  function Show(s: Option<string>): string {
    match s
    case Some(v) => v
    case None => "None"
  }

  /** The path of an action: `account`, or `networks/<id_from_url(url)>/devices`. */
  function ActionPath(a: Action): string {
    match a
    case AccountAction => "account"
    case DevicesAction(url) => "networks/" + Show(IdFromUrl(url)) + "/devices"
  }

  function ActionCall(a: Action, cookies: map<string, string>): Call {
    Call(Get, ActionPath(a), map[], cookies)
  }

  function RefreshCall(cookies: map<string, string>): Call {
    Call(Post, "login/refresh", map[], cookies)
  }

  /** The devices request for a network whose URL ends in its ID goes to that ID's path. */
  lemma DevicesPathOfUrl(base: string, id: string)
    requires |id| > 0 && AllDigits(id)
    ensures ActionPath(DevicesAction(base + "/" + id)) == "networks/" + id + "/devices"
  {
    IdOfUrl(base, id);
  }

  // ---------------------------------------------------------------------------
  // the scripted network

  function Head(s: seq<Reply>): Reply {
    if s == [] then Unreachable else s[0]
  }

  function Drop(s: seq<Reply>, k: nat): (t: seq<Reply>)
    ensures |t| == if k <= |s| then |s| - k else 0
  {
    if k <= |s| then s[k..] else []
  }

  /** The checked outcome of the `k`-th request from now, given the replies still to come. */
  function OutcomeAt(s: seq<Reply>, k: nat): Result<Body, Fault> {
    Receive(Head(Drop(s, k)))
  }

  /** Some reply of `s` carried `b` as its successful payload. */
  ghost predicate Served(s: seq<Reply>, b: Body) {
    exists j :: 0 <= j < |s| && Receive(s[j]) == Ok(b)
  }

  lemma DropDrop(s: seq<Reply>, a: nat, b: nat)
    ensures Drop(Drop(s, a), b) == Drop(s, a + b)
  {
  }

  /** A successful outcome was carried by a reply that was actually in the script. */
  lemma OutcomeServed(s: seq<Reply>, k: nat)
    requires OutcomeAt(s, k).Ok?
    ensures Served(s, OutcomeAt(s, k).value)
  {
    assert k < |s| && s[k] == Head(Drop(s, k));
  }

  lemma ServedDrop(s: seq<Reply>, k: nat, b: Body)
    requires Served(Drop(s, k), b)
    ensures Served(s, b)
  {
    var j :| 0 <= j < |Drop(s, k)| && Receive(Drop(s, k)[j]) == Ok(b);
    assert s[k + j] == Drop(s, k)[j];
  }

  /**
   * The request log `sent` continues `sent0` and each request to an `allowed`
   * path only, and `replies` is what is left of `script` after one reply per
   * request added.
   */
  ghost predicate Continues(sent: seq<Call>, replies: seq<Reply>, sent0: seq<Call>, script: seq<Reply>, allowed: set<string>) {
    |sent| >= |sent0| && sent[..|sent0|] == sent0
    && replies == Drop(script, |sent| - |sent0|)
    && forall j :: |sent0| <= j < |sent| ==> sent[j].action in allowed
  }

  /** Issuing `calls`, one reply each, continues the log. */
  lemma ContinuesCalls(sent0: seq<Call>, script: seq<Reply>, calls: seq<Call>, allowed: set<string>)
    requires forall c :: c in calls ==> c.action in allowed
    ensures Continues(sent0 + calls, Drop(script, |calls|), sent0, script, allowed)
  {
    assert (sent0 + calls)[..|sent0|] == sent0;
    forall j | |sent0| <= j < |sent0 + calls| ensures (sent0 + calls)[j].action in allowed {
      assert (sent0 + calls)[j] == calls[j - |sent0|];
    }
  }

  lemma ContinuesRefl(sent: seq<Call>, replies: seq<Reply>, allowed: set<string>)
    ensures Continues(sent, replies, sent, replies, allowed)
  {
    assert sent[..|sent|] == sent;
  }

  /** Two continuations in a row are one, to the larger set of paths. */
  lemma ContinuesTrans(s0: seq<Call>, r0: seq<Reply>, s1: seq<Call>, r1: seq<Reply>, s2: seq<Call>, r2: seq<Reply>,
                       a: set<string>, b: set<string>)
    requires Continues(s1, r1, s0, r0, a) && Continues(s2, r2, s1, r1, b) && b <= a
    ensures Continues(s2, r2, s0, r0, a)
  {
    DropDrop(r0, |s1| - |s0|, |s2| - |s1|);
    assert s2[..|s0|] == s2[..|s1|][..|s0|];
    forall j | |s0| <= j < |s2| ensures s2[j].action in a {
      if j < |s1| {
        assert s2[j] == s1[j];
      }
    }
  }

  /**
   * What a run of requests changes, as a value: the session token, the
   * session file's contents, the replies still to come and the request log.
   */
  datatype Link = Link(session: string, contents: Option<string>, replies: seq<Reply>, sent: seq<Call>)

  /** The link once `calls` were issued, one reply each, leaving `session` and a file holding `contents`. */
  function Advance(l: Link, calls: seq<Call>, session: string, contents: Option<string>): Link {
    Link(session, contents, Drop(l.replies, |calls|), l.sent + calls)
  }

  /** Issuing `calls` to `allowed` paths only continues the log of `l`. */
  lemma AdvanceContinues(l: Link, calls: seq<Call>, session: string, contents: Option<string>, allowed: set<string>)
    requires forall c :: c in calls ==> c.action in allowed
    ensures var m := Advance(l, calls, session, contents);
            Continues(m.sent, m.replies, l.sent, l.replies, allowed)
  {
    ContinuesCalls(l.sent, l.replies, calls, allowed);
  }

  /**
   * The HTTP client (`Client.post`/`Client.get` with `_parse_response`). The
   * network is the script `replies`, answered in order; once it is used up
   * every request fails to connect. `sent` records every request issued.
   */
  class Client {
    var replies: seq<Reply>
    var sent: seq<Call>

    constructor(replies: seq<Reply>)
      ensures this.replies == replies && sent == []
    {
      this.replies := replies;
      sent := [];
    }

    method Request(call: Call) returns (r: Result<Body, Fault>)
      modifies this
      ensures sent == old(sent) + [call]
      ensures replies == Drop(old(replies), 1)
      ensures r == OutcomeAt(old(replies), 0)
    {
      r := Receive(Head(replies));
      sent := sent + [call];
      replies := Drop(replies, 1);
    }
  }
}
