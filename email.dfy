/**
 * The e-mail adapter: one HTML message to every configured address, sent
 * through a pool of one SMTP connection to `host:port`, authenticated with
 * the LOGIN mechanism (section 4 of RFC 4954) unless authentication is
 * switched off.
 */
module Email {
  import opened Wrappers
  import Utf8

  const NoAddresses := "no addresses to send"
  const UnknownChallenge := "unknown for server"
  const Mechanism := "LOGIN"
  /** The server's two LOGIN challenges, decoded from base64: "Username:" and "Password:". */
  const UsernamePrompt: seq<Utf8.byte> := [0x55, 0x73, 0x65, 0x72, 0x6e, 0x61, 0x6d, 0x65, 0x3a]
  const PasswordPrompt: seq<Utf8.byte> := [0x50, 0x61, 0x73, 0x73, 0x77, 0x6f, 0x72, 0x64, 0x3a]
  const PoolSize := 1

  datatype Config = Config(
    smtpUser: string,
    smtpPass: string,
    smtpHost: string,
    smtpPort: string,
    visibleName: string,
    timeout: int,                 // seconds allowed for sending
    addresses: seq<string>,
    withoutAuth: bool)

  datatype Notificator = Notificator(cfg: Config)

  // ---------------------------------------------------------------------------
  // LOGIN authentication
  // ---------------------------------------------------------------------------

  /** The credentials the LOGIN mechanism answers with. */
  datatype Userinfo = Userinfo(username: string, password: string)

  /** What `Start` returns: the mechanism, the initial response and an error. */
  datatype Started = Started(mechanism: string, initial: seq<Utf8.byte>, err: Option<string>)

  /** What `Next` returns: a response (absent for Go's nil) and an error. */
  datatype Response = Response(data: Option<seq<Utf8.byte>>, err: Option<string>)

  /** `loginAuth`: the credentials wrapped as the mechanism's state. */
  function LoginAuth(username: string, password: string): (u: Userinfo)
    ensures u.username == username && u.password == password
  {
    Userinfo(username, password)
  }

  /** `Start`: the LOGIN mechanism, with the user name as the initial response. */
  function Start(u: Userinfo): (s: Started)
    ensures s.mechanism == Mechanism && s.err == None
    ensures s.initial == Utf8.Encode(u.username)
  {
    Started(Mechanism, Utf8.Encode(u.username), None)
  }

  /** A challenge the mechanism knows how to answer. */
  predicate IsPrompt(challenge: seq<Utf8.byte>) {
    challenge == UsernamePrompt || challenge == PasswordPrompt
  }

  /**
   * `Next`: while the server has more to ask, the user-name prompt is
   * answered with the user name, the password prompt with the password,
   * and anything else fails; once the server is done, nothing is answered.
   */
  function Next(u: Userinfo, fromServer: seq<Utf8.byte>, more: bool): (r: Response)
    ensures !more ==> r == Response(None, None)
    ensures more ==> (r.err == None <==> IsPrompt(fromServer))
    ensures more && r.err != None ==> r == Response(None, Some(UnknownChallenge))
  {
    if more then
      if fromServer == UsernamePrompt then Response(Some(Utf8.Encode(u.username)), None)
      else if fromServer == PasswordPrompt then Response(Some(Utf8.Encode(u.password)), None)
      else Response(None, Some(UnknownChallenge))
    else Response(None, None)
  }

  /** `bytes` are the encoding of the ASCII text `text`, byte for byte. */
  lemma AsciiBytes(text: string, bytes: seq<Utf8.byte>)
    requires |text| == |bytes|
    requires forall i :: 0 <= i < |text| ==> text[i] as int < 0x80 && bytes[i] == text[i] as int as Utf8.byte
    ensures bytes == Utf8.Encode(text)
  {
    Utf8.EncodeAscii(text);
  }

  /** The challenges are the texts "Username:" and "Password:", and no challenge is both. */
  lemma PromptTexts(username: string, password: string)
    requires username == "Username:" && password == "Password:"
    ensures UsernamePrompt == Utf8.Encode(username) && PasswordPrompt == Utf8.Encode(password)
    ensures UsernamePrompt != PasswordPrompt
  {
    AsciiBytes(username, UsernamePrompt);
    AsciiBytes(password, PasswordPrompt);
  }

  /** Each prompt is answered with its own credential, encoded as UTF-8. */
  lemma NextAnswers(u: Userinfo)
    ensures Next(u, UsernamePrompt, true) == Response(Some(Utf8.Encode(u.username)), None)
    ensures Next(u, PasswordPrompt, true) == Response(Some(Utf8.Encode(u.password)), None)
  {
  }

  /**
   * The responses to a run of challenges the server sends while it has more
   * to ask, `Next` after `Next`, up to the first one that fails.
   */
  function Exchange(u: Userinfo, challenges: seq<seq<Utf8.byte>>): (r: Result<seq<seq<Utf8.byte>>, string>)
    ensures r.Success? <==> forall k :: 0 <= k < |challenges| ==> IsPrompt(challenges[k])
    ensures r.Failure? ==> r.error == UnknownChallenge
    ensures r.Success? ==> |r.value| == |challenges|
    ensures r.Success? ==> forall k :: 0 <= k < |challenges| ==> (
      || (challenges[k] == UsernamePrompt && r.value[k] == Utf8.Encode(u.username))
      || (challenges[k] == PasswordPrompt && r.value[k] == Utf8.Encode(u.password)))
  {
    if challenges == [] then Success([])
    else
      var step := Next(u, challenges[0], true);
      if step.err != None then Failure(step.err.value)
      else
        match Exchange(u, challenges[1..])
        case Failure(e) => Failure(e)
        case Success(rest) => Success([step.data.value] + rest)
  }

  /**
   * A LOGIN conversation: the user name goes out with `Start`, and the
   * password prompt that follows is answered with the password; a server
   * that asks for both gets both, in order.
   */
  lemma LoginConversation(u: Userinfo)
    ensures Start(u).initial == Utf8.Encode(u.username)
    ensures Exchange(u, [PasswordPrompt]) == Success([Utf8.Encode(u.password)])
    ensures Exchange(u, [UsernamePrompt, PasswordPrompt])
      == Success([Utf8.Encode(u.username), Utf8.Encode(u.password)])
  {
    var up, pp := UsernamePrompt, PasswordPrompt;
    var user, pass := Utf8.Encode(u.username), Utf8.Encode(u.password);
    NextAnswers(u);
    assert [pp][0] == pp && [pp][1..] == [];
    assert Exchange(u, [pp]).Success? && Exchange(u, [pp]).value == [pass] + [];
    assert Exchange(u, [pp]).value == [pass];
    assert [up, pp][0] == up && [up, pp][1..] == [pp];
    assert Exchange(u, [up, pp]).Success? && Exchange(u, [up, pp]).value == [user] + [pass];
    assert Exchange(u, [up, pp]).value == [user, pass];
  }

  // ---------------------------------------------------------------------------
  // The message and the endpoint
  // ---------------------------------------------------------------------------

  /** The `From` header before formatting: the address and its display name. */
  datatype Address = Address(address: string, name: string)

  /** The message handed to the pool: one for all recipients. */
  datatype Message = Message(
    from: Address,
    to: seq<string>,
    subject: string,
    html: seq<Utf8.byte>,
    headers: map<string, seq<string>>)

  /** The message `SendMessage` builds from the body and the subject. */
  function Compose(n: Notificator, body: seq<Utf8.byte>, subject: string): (m: Message)
    ensures m.from == Address(n.cfg.smtpUser, n.cfg.visibleName)
    ensures m.to == n.cfg.addresses && m.subject == subject && m.html == body
    ensures m.headers == map[]
  {
    Message(Address(n.cfg.smtpUser, n.cfg.visibleName), n.cfg.addresses, subject, body, map[])
  }

  /** The authentication: none when it is switched off, LOGIN with the SMTP credentials otherwise. */
  function AuthFor(cfg: Config): (auth: Option<Userinfo>)
    ensures auth == None <==> cfg.withoutAuth
    ensures auth != None ==> auth.value.username == cfg.smtpUser && auth.value.password == cfg.smtpPass
  {
    if cfg.withoutAuth then None else Some(LoginAuth(cfg.smtpUser, cfg.smtpPass))
  }

  /** The SMTP server's address handed to `NewPool`: the host and the port joined by a colon. */
  function Endpoint(cfg: Config): string {
    cfg.smtpHost + ":" + cfg.smtpPort
  }

  /**
   * The position of the last colon of `s`, if it has one. This and the two
   * lemmas after it describe the shape of the endpoint string: the split
   * itself happens in the dialer of the mail library, which is not part of
   * this model, and bracketed IPv6 hosts (`[::1]:25`) are not covered.
   */
  function LastColon(s: string): (r: Option<nat>)
    ensures r == None <==> ':' !in s
    ensures r != None ==> r.value < |s| && s[r.value] == ':' && ':' !in s[r.value + 1..]
  {
    if s == [] then None
    else if s[|s| - 1] == ':' then Some(|s| - 1)
    else
      var r := LastColon(s[..|s| - 1]);
      assert forall c :: c in s ==> c in s[..|s| - 1] || c == s[|s| - 1];
      if r == None then None
      else
        assert s[r.value + 1..] == s[..|s| - 1][r.value + 1..] + [s[|s| - 1]];
        r
  }

  /** A colon with no colon after it is the last colon. */
  lemma {:induction false} LastColonAt(s: string, i: nat)
    requires i < |s| && s[i] == ':' && ':' !in s[i + 1..]
    ensures LastColon(s) == Some(i)
    decreases |s|
  {
    var j := |s| - 1;
    if i < j {
      assert s[i + 1..] == s[..j][i + 1..] + [s[j]];
      LastColonAt(s[..j], i);
    }
  }

  /**
   * The endpoint splits back into host and port at its last colon, as a
   * dialer reads `host:port`, whenever the port holds no colon.
   */
  lemma EndpointSplits(cfg: Config)
    requires ':' !in cfg.smtpPort
    ensures LastColon(Endpoint(cfg)) == Some(|cfg.smtpHost|)
    ensures Endpoint(cfg)[..|cfg.smtpHost|] == cfg.smtpHost
    ensures Endpoint(cfg)[|cfg.smtpHost| + 1..] == cfg.smtpPort
  {
    var e := Endpoint(cfg);
    var h := |cfg.smtpHost|;
    assert e[h] == ':';
    assert e[h + 1..] == cfg.smtpPort;
    LastColonAt(e, h);
  }

  // ---------------------------------------------------------------------------
  // `SendMessage`
  // ---------------------------------------------------------------------------

  /** A call into the mail library: creating the pool, sending, closing. */
  datatype Call =
    | NewPool(address: string, count: nat, auth: Option<Userinfo>)
    | Send(message: Message, timeout: int)
    | Close

  /**
   * The mail library behind `SendMessage`, as a script: whether creating the
   * pool fails and whether sending fails, with the calls made so far.
   */
  class Smtp {
    const poolErr: Option<string>
    const sendErr: Option<string>
    var calls: seq<Call>

    constructor (poolErr: Option<string>, sendErr: Option<string>)
      ensures this.poolErr == poolErr && this.sendErr == sendErr && calls == []
    {
      this.poolErr := poolErr;
      this.sendErr := sendErr;
      calls := [];
    }

    method NewPool(address: string, count: nat, auth: Option<Userinfo>) returns (err: Option<string>)
      modifies this
      ensures calls == old(calls) + [Call.NewPool(address, count, auth)] && err == poolErr
    {
      calls := calls + [Call.NewPool(address, count, auth)];
      err := poolErr;
    }

    method Send(message: Message, timeout: int) returns (err: Option<string>)
      modifies this
      ensures calls == old(calls) + [Call.Send(message, timeout)] && err == sendErr
    {
      calls := calls + [Call.Send(message, timeout)];
      err := sendErr;
    }

    method Close()
      modifies this
      ensures calls == old(calls) + [Call.Close]
    {
      calls := calls + [Call.Close];
    }
  }

  /**
   * The calls `SendMessage` makes: none without addresses; otherwise one
   * pool of one connection to the endpoint with the chosen authentication,
   * then, if the pool was made, one send of the composed message and the
   * pool's closing.
   */
  function Session(n: Notificator, body: seq<Utf8.byte>, subject: string, poolErr: Option<string>): (calls: seq<Call>)
    ensures n.cfg.addresses == [] <==> calls == []
    ensures calls != [] ==> calls[0] == Call.NewPool(Endpoint(n.cfg), PoolSize, AuthFor(n.cfg))
    ensures calls != [] && poolErr != None ==> |calls| == 1
    ensures calls != [] && poolErr == None ==>
      |calls| == 3 && calls[1] == Call.Send(Compose(n, body, subject), n.cfg.timeout) && calls[2] == Call.Close
  {
    if n.cfg.addresses == [] then []
    else
      var pool := Call.NewPool(Endpoint(n.cfg), PoolSize, AuthFor(n.cfg));
      if poolErr != None then [pool]
      else [pool, Call.Send(Compose(n, body, subject), n.cfg.timeout), Call.Close]
  }

  /** The error `SendMessage` returns: the empty list's, the pool's, or the send's. */
  function Returned(n: Notificator, poolErr: Option<string>, sendErr: Option<string>): (err: Option<string>)
    ensures n.cfg.addresses == [] ==> err == Some(NoAddresses)
    ensures n.cfg.addresses != [] ==> err == if poolErr != None then poolErr else sendErr
  {
    if n.cfg.addresses == [] then Some(NoAddresses)
    else if poolErr != None then poolErr
    else sendErr
  }

  /**
   * `SendMessage`: rejects an empty address list before anything else;
   * otherwise builds the message and the authentication, creates the pool
   * and sends, closing the pool once it exists.
   */
  method SendMessage(n: Notificator, body: seq<Utf8.byte>, subject: string, smtp: Smtp)
    returns (err: Option<string>)
    modifies smtp
    ensures smtp.calls == old(smtp.calls) + Session(n, body, subject, smtp.poolErr)
    ensures err == Returned(n, smtp.poolErr, smtp.sendErr)
  {
    if |n.cfg.addresses| == 0 {
      return Some(NoAddresses);
    }
    var message := Compose(n, body, subject);
    var auth: Option<Userinfo> := None;
    if !n.cfg.withoutAuth {
      auth := Some(LoginAuth(n.cfg.smtpUser, n.cfg.smtpPass));
    }
    err := smtp.NewPool(n.cfg.smtpHost + ":" + n.cfg.smtpPort, PoolSize, auth);
    if err != None {
      return err;
    }
    err := smtp.Send(message, n.cfg.timeout);
    smtp.Close();
  }
}
