/**
 * The session manager of eero.py (`Eero`), whose copy in
 * eero_tracker_instantiate.py has the same methods: it owns the session token in
 * a `CookieStore`, logs in, verifies the login, refreshes an expired session
 * and retries a read once after such a refresh.
 */
module EeroClient {
  import opened Wrappers
  import opened Api
  import opened Storage

  /** The JSON body of the login request. */
  function LoginCall(identifier: string): Call {
    Call(Post, "login", map["login" := identifier], map[])
  }

  /** The verify request carries the code and, as its cookie, the pending token. */
  function VerifyCall(code: string, userToken: string): Call {
    Call(Post, "login/verify", map["code" := code], map["s" := userToken])
  }

  /** `_cookie_dict` of a stored cookie: none before login, afterwards the token as cookie `s`. */
  function Cookies(cookie: Option<string>): map<string, string> {
    if cookie.None? then map[] else map["s" := cookie.value]
  }

  /** What one `refreshed` call does: its result, the requests it issues, the cookie and the file it leaves. */
  datatype Exchange = Exchange(result: Result<Body, Fault>, calls: seq<Call>, cookie: Option<string>, contents: Option<string>)

  /**
   * The expired-session branch of `refreshed`, with the replies `s` still to
   * come at the refresh request: a refresh without a `user_token` ends it; a
   * token is stored even when writing it through to the file fails, which
   * raises; then the action is issued once more with the new cookie.
   */
  function RetryExchange(action: Action, cookie: Option<string>, writable: bool, contents: Option<string>, s: seq<Reply>): Exchange {
    var refresh := RefreshCall(Cookies(cookie));
    var token := IndexUserToken(OutcomeAt(s, 0));
    if token.Err? then Exchange(Err(token.error), [refresh], cookie, contents)
    else if !writable then Exchange(Err(IoError), [refresh], Some(token.value), contents)
    else Exchange(OutcomeAt(s, 1), [refresh, ActionCall(action, map["s" := token.value])], Some(token.value), Some(token.value))
  }

  /** What the expired-session branch of `refreshed` does, request by request. */
  lemma RetryExchangeSpec(action: Action, cookie: Option<string>, writable: bool, contents: Option<string>, s: seq<Reply>)
    ensures var x := RetryExchange(action, cookie, writable, contents, s);
            var token := IndexUserToken(OutcomeAt(s, 0));
            && 1 <= |x.calls| <= 2 && x.calls[0] == RefreshCall(Cookies(cookie))
            && (forall c :: c in x.calls ==> c.action in {ActionPath(action), "login/refresh"})
            && (x.result.Ok? ==> Served(s, x.result.value))
            && (|x.calls| == 2 <==> token.Ok? && writable)
            && (token.Err? ==> x.result == Err(token.error) && x.cookie == cookie && x.contents == contents)
            && (token.Ok? ==> x.cookie == Some(token.value))
            && (token.Ok? && !writable ==> x.result == Err(IoError) && x.contents == contents)
            && (|x.calls| == 2 ==>
                  x.cookie.Some? && x.calls[1] == ActionCall(action, map["s" := x.cookie.value])
                  && x.result == OutcomeAt(s, 1) && x.contents == x.cookie)
  {
    if OutcomeAt(s, 1).Ok? {
      OutcomeServed(s, 1);
    }
  }

  /**
   * `refreshed` with the stored `cookie`, a session file holding `contents`
   * (writable or not) and the replies `s` still to come. Only the
   * expired-session error leads to a refresh and one more attempt; every
   * other outcome stands as it is, errors re-raised unchanged.
   */
  function RefreshedExchange(action: Action, cookie: Option<string>, writable: bool, contents: Option<string>, s: seq<Reply>): Exchange {
    var first := ActionCall(action, Cookies(cookie));
    var res := OutcomeAt(s, 0);
    if res != Err(SessionExpired) then Exchange(res, [first], cookie, contents)
    else
      var retry := RetryExchange(action, cookie, writable, contents, Drop(s, 1));
      Exchange(retry.result, [first] + retry.calls, retry.cookie, retry.contents)
  }

  /** What `refreshed` does, request by request. */
  lemma RefreshedExchangeSpec(action: Action, cookie: Option<string>, writable: bool, contents: Option<string>, s: seq<Reply>)
    ensures var x := RefreshedExchange(action, cookie, writable, contents, s);
            && 1 <= |x.calls| <= 3 && x.calls[0] == ActionCall(action, Cookies(cookie))
            && (forall c :: c in x.calls ==> c.action in {ActionPath(action), "login/refresh"})
            && (x.result.Ok? ==> Served(s, x.result.value))
            && (OutcomeAt(s, 0) != Err(SessionExpired) ==>
                  x == Exchange(OutcomeAt(s, 0), [ActionCall(action, Cookies(cookie))], cookie, contents))
            && (OutcomeAt(s, 0) == Err(SessionExpired) ==>
                  |x.calls| >= 2 && x.calls[1] == RefreshCall(Cookies(cookie)))
            && (|x.calls| == 3 ==>
                  x.cookie.Some? && x.calls[2] == ActionCall(action, map["s" := x.cookie.value])
                  && x.result == OutcomeAt(s, 2))
            && (x.cookie == cookie || x.cookie.Some?)
            && (x.contents == contents || (writable && x.contents == x.cookie))
  {
    var x := RefreshedExchange(action, cookie, writable, contents, s);
    if OutcomeAt(s, 0) != Err(SessionExpired) {
      if OutcomeAt(s, 0).Ok? {
        OutcomeServed(s, 0);
      }
    } else {
      var retry := RetryExchange(action, cookie, writable, contents, Drop(s, 1));
      RetryExchangeSpec(action, cookie, writable, contents, Drop(s, 1));
      DropDrop(s, 1, 1);
      if x.result.Ok? {
        ServedDrop(s, 1, x.result.value);
      }
      forall c | c in x.calls ensures c.action in {ActionPath(action), "login/refresh"} {
        if c != x.calls[0] {
          assert c in retry.calls;
        }
      }
    }
  }

  class Eero {
    const session: CookieStore
    const client: Client

    constructor(session: CookieStore, client: Client)
      ensures this.session == session && this.client == client
    {
      this.session := session;
      this.client := client;
    }

    /** `needs_login`: there is no token yet. */
    predicate NeedsLogin()
      reads session
    {
      session.cookie.None?
    }

    /** `_cookie_dict`: no cookie before login, afterwards the token as cookie `s`. */
    function CookieDict(): (m: map<string, string>)
      reads session
      ensures m == map[] <==> NeedsLogin()
      ensures !NeedsLogin() ==> "s" in m && m["s"] == session.cookie.value && m.Keys == {"s"}
    {
      var m := Cookies(session.cookie);
      assert !NeedsLogin() ==> "s" in m;
      m
    }

    /** `login`: posts the identifier and answers the pending `user_token`; the session is untouched. */
    method Login(identifier: string) returns (r: Result<string, Fault>)
      modifies client
      ensures client.sent == old(client.sent) + [LoginCall(identifier)]
      ensures client.replies == Drop(old(client.replies), 1)
      ensures r == IndexUserToken(OutcomeAt(old(client.replies), 0))
    {
      var data := client.Request(LoginCall(identifier));
      r := IndexUserToken(data);
    }

    /**
     * `login_verify`: posts the code with the pending token as cookie; only
     * when that returns does the pending token become the stored session.
     */
    method LoginVerify(code: string, userToken: string) returns (r: Result<Body, Fault>)
      modifies client, session, session.file
      ensures client.sent == old(client.sent) + [VerifyCall(code, userToken)]
      ensures client.replies == Drop(old(client.replies), 1)
      ensures session.file.writable == old(session.file.writable)
      ensures var resp := OutcomeAt(old(client.replies), 0);
              if resp.Err? then
                r == resp && session.cookie == old(session.cookie)
                && session.file.contents == old(session.file.contents)
              else
                session.cookie == Some(userToken)
                && session.file.contents == (if old(session.file.writable) then Some(userToken) else old(session.file.contents))
                && r == (if old(session.file.writable) then resp else Err(IoError))
    {
      r := client.Request(VerifyCall(code, userToken));
      if r.Ok? {
        var o := session.SetCookie(userToken);
        if o.Fail? {
          r := Err(o.error);
        }
      }
    }

    /**
     * `login_refresh`: posts the current cookie to the refresh endpoint and
     * stores the answered `user_token`; a missing token raises before the
     * store is touched.
     */
    method LoginRefresh() returns (o: Outcome<Fault>)
      modifies client, session, session.file
      ensures client.sent == old(client.sent) + [RefreshCall(old(CookieDict()))]
      ensures client.replies == Drop(old(client.replies), 1)
      ensures session.file.writable == old(session.file.writable)
      ensures var token := IndexUserToken(OutcomeAt(old(client.replies), 0));
              if token.Err? then
                o == Fail(token.error) && session.cookie == old(session.cookie)
                && session.file.contents == old(session.file.contents)
              else
                session.cookie == Some(token.value)
                && session.file.contents == (if old(session.file.writable) then Some(token.value) else old(session.file.contents))
                && o == (if old(session.file.writable) then Pass else Fail(IoError))
    {
      var response := client.Request(RefreshCall(CookieDict()));
      var token := IndexUserToken(response);
      if token.Err? {
        return Fail(token.error);
      }
      o := session.SetCookie(token.value);
    }

    /**
     * The expired-session branch of `refreshed(func)`: it does what
     * `RetryExchange` describes.
     */
    method RefreshAndRetry(action: Action) returns (r: Result<Body, Fault>)
      modifies client, session, session.file
      ensures session.file.writable == old(session.file.writable)
      ensures var x := RetryExchange(action, old(session.cookie), old(session.file.writable), old(session.file.contents), old(client.replies));
              r == x.result && session.cookie == x.cookie && session.file.contents == x.contents
              && client.sent == old(client.sent) + x.calls && client.replies == Drop(old(client.replies), |x.calls|)
    {
      ghost var s := client.replies;
      var o := LoginRefresh();
      if o.Fail? {
        return Err(o.error);
      }
      r := client.Request(ActionCall(action, CookieDict()));
      DropDrop(s, 1, 1);
    }

    /**
     * `refreshed(func)` where `func` issues `action` with the cookie of the
     * moment: it does what `RefreshedExchange` describes.
     */
    method Refreshed(action: Action) returns (r: Result<Body, Fault>)
      modifies client, session, session.file
      ensures session.file.writable == old(session.file.writable)
      ensures var x := RefreshedExchange(action, old(session.cookie), old(session.file.writable), old(session.file.contents), old(client.replies));
              r == x.result && session.cookie == x.cookie && session.file.contents == x.contents
              && client.sent == old(client.sent) + x.calls && client.replies == Drop(old(client.replies), |x.calls|)
    {
      ghost var s := client.replies;
      var first := ActionCall(action, CookieDict());
      assert first == ActionCall(action, Cookies(session.cookie));
      r := client.Request(first);
      if r != Err(SessionExpired) {
        return;
      }
      ghost var x := RetryExchange(action, session.cookie, session.file.writable, session.file.contents, Drop(s, 1));
      r := RefreshAndRetry(action);
      DropDrop(s, 1, |x.calls|);
      assert client.sent == old(client.sent) + ([first] + x.calls);
      assert RefreshedExchange(action, old(session.cookie), old(session.file.writable), old(session.file.contents), s)
             == Exchange(x.result, [first] + x.calls, x.cookie, x.contents);
    }
  }
}
