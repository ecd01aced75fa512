/**
 * The Telegram adapter: the message text is read once from its stream and
 * sent to every address in turn as a `sendMessage` call of the Bot API,
 * whose JSON body carries the chat id parsed from the address, the text and
 * the HTML parse mode. The first address that does not parse, the first
 * transport failure and the first reply that is not a 200 stop the call.
 */
module Telegram {
  import opened Wrappers
  import Strconv
  import Query
  import Http

  const TelegramProtocol := "https"
  const RequestMessage := "sendMessage"
  const ContentType := "application/json"
  const ParseMode := "html"

  const DecodeFailed := "decode json errResponse: "
  const Unsupported := "unsupported telegram-api response"

  datatype Config = Config(
    proto: string,
    host: string,
    token: string,
    timeout: int)                 // the HTTP client's timeout

  datatype Notificator = Notificator(cfg: Config)

  /** `New`: a missing protocol defaults to https; a given one is kept. */
  function New(cfg: Config): (n: Notificator)
    ensures n.cfg.proto != ""
    ensures cfg.proto != "" ==> n.cfg == cfg
    ensures cfg.proto == "" ==> n.cfg == cfg.(proto := TelegramProtocol)
  {
    Notificator(if cfg.proto == "" then cfg.(proto := TelegramProtocol) else cfg)
  }

  /** `New` is idempotent: a notificator built from a built one has the same settings. */
  lemma NewIdempotent(cfg: Config)
    ensures New(New(cfg).cfg) == New(cfg)
  {
  }

  /** The Bot API path of method `request` for the configured bot token. */
  function RequestPath(n: Notificator, request: string): string {
    "/bot" + n.cfg.token + "/" + request
  }

  /**
   * The path names the bot and the method: it is `/bot`, the token, `/` and
   * the method with nothing else between them, so two methods have two paths.
   */
  lemma RequestPathParts(n: Notificator, request: string, other: string)
    ensures var p := RequestPath(n, request);
            && |p| == 5 + |n.cfg.token| + |request|
            && p[..4 + |n.cfg.token|] == "/bot" + n.cfg.token
            && p[|p| - |request| - 1..] == "/" + request
    ensures RequestPath(n, request) == RequestPath(n, other) ==> request == other
  {
    var p, q := RequestPath(n, request), RequestPath(n, other);
    assert p == ("/bot" + n.cfg.token) + ("/" + request);
    assert q == ("/bot" + n.cfg.token) + ("/" + other);
    if p == q {
      assert request == p[4 + |n.cfg.token| + 1..];
      assert other == q[4 + |n.cfg.token| + 1..];
    }
  }

  /** The URL of `sendMessage`: scheme, host and path, with no query. */
  function MessageUrl(n: Notificator): (url: string)
    ensures url == n.cfg.proto + "://" + n.cfg.host + RequestPath(n, RequestMessage)
  {
    Query.Url(n.cfg.proto, n.cfg.host, RequestPath(n, RequestMessage), [])
  }

  // ---------------------------------------------------------------------------
  // Requests and replies
  // ---------------------------------------------------------------------------

  /** The request body before its JSON encoding: `chat_id`, `text`, `parse_mode`. */
  datatype Body = Body(chatId: Strconv.Int64, text: string, parseMode: string)

  /** A request with a body: the URL, the Content-Type header and the body. */
  datatype Request = Request(url: string, contentType: string, body: Body)

  /** The request sent for one chat. */
  function MessageRequest(n: Notificator, chatId: Strconv.Int64, text: string): Request {
    Request(MessageUrl(n), ContentType, Body(chatId, text, ParseMode))
  }

  /** What decoding a non-200 body into the `{ok, error_code, description}` struct gave. */
  datatype ErrorBody =
    | ErrorFields(ok: bool, errorCode: Strconv.Int64, description: string)
    | ErrorUndecodable(cause: string)

  /** The reply to one request: the transport failed, or the server answered. */
  datatype Reply =
    | Unreachable(cause: string)
    | Answered(statusCode: int, asError: ErrorBody)

  /**
   * `fmt.Errorf("error:%d: %s", code, description)`: between `error:` and the
   * `: ` before the description stands the code in decimal, which parses
   * back to the code.
   */
  function CodedError(code: Strconv.Int64, description: string): (text: string)
    ensures |text| >= 8 + |description| && text[..6] == "error:"
    ensures text[|text| - |description| - 2..] == ": " + description
    ensures Strconv.Atoi(text[6..|text| - |description| - 2]) == Success(code)
  {
    var digits := Strconv.Itoa(code);
    var text := "error:" + digits + ": " + description;
    assert text[6..|text| - |description| - 2] == digits;
    assert text[|text| - |description| - 2..] == ": " + description;
    Strconv.AtoiItoa(code);
    text
  }

  /**
   * The reply handling of `SendMessage` as written: a transport error is
   * returned as it is, a 200 passes without its body being looked at, and a
   * decoded error body yields the coded error only when its `ok` flag is set.
   */
  function CheckAsWritten(reply: Reply): (err: Option<string>)
    ensures err == None <==> reply.Answered? && reply.statusCode == 200
  {
    match reply
    case Unreachable(cause) => Some(cause)
    case Answered(status, asError) =>
      if status == 200 then None
      else
        match asError
        case ErrorUndecodable(cause) => Some(DecodeFailed + cause)
        case ErrorFields(ok, code, description) =>
          if ok then Some(CodedError(code, description)) else Some(Unsupported)
  }

  /**
   * The reply handling with the `ok` test the Bot API calls for: its error
   * replies carry `"ok": false` with a code and a description, and those are
   * what the coded error reports.
   */
  function Check(reply: Reply): (err: Option<string>)
    ensures err == None <==> reply.Answered? && reply.statusCode == 200
  {
    match reply
    case Unreachable(cause) => Some(cause)
    case Answered(status, asError) =>
      if status == 200 then None
      else
        match asError
        case ErrorUndecodable(cause) => Some(DecodeFailed + cause)
        case ErrorFields(ok, code, description) =>
          if !ok then Some(CodedError(code, description)) else Some(Unsupported)
  }

  /**
   * The error each failed reply gives: the transport's own, the decoder's,
   * the coded error of an API error reply, or "unsupported" for a non-200
   * reply that does not say it failed.
   */
  lemma CheckErrors(reply: Reply)
    ensures reply.Unreachable? ==> Check(reply) == Some(reply.cause)
    ensures reply.Answered? && reply.statusCode != 200 && reply.asError.ErrorUndecodable?
      ==> Check(reply) == Some(DecodeFailed + reply.asError.cause)
    ensures reply.Answered? && reply.statusCode != 200 && reply.asError.ErrorFields? && !reply.asError.ok
      ==> Check(reply) == Some(CodedError(reply.asError.errorCode, reply.asError.description))
    ensures reply.Answered? && reply.statusCode != 200 && reply.asError.ErrorFields? && reply.asError.ok
      ==> Check(reply) == Some(Unsupported)
  {
  }

  /**
   * The code as written and the corrected check differ exactly on decoded
   * error bodies of non-200 replies, where the written test of `ok` is the
   * negation of the intended one; everywhere else they agree.
   */
  lemma CheckAsWrittenInverted(reply: Reply)
    ensures reply.Answered? && reply.statusCode != 200 && reply.asError.ErrorFields?
      ==> CheckAsWritten(reply) == Check(reply.(asError := reply.asError.(ok := !reply.asError.ok)))
    ensures !(reply.Answered? && reply.statusCode != 200 && reply.asError.ErrorFields?)
      ==> CheckAsWritten(reply) == Check(reply)
  {
  }

  /**
   * A Bot API error reply, `{"ok": false, "error_code": 400, "description":
   * "Bad Request: chat not found"}` with status 400, is reported as written
   * as an unsupported response, while its code and description are what the
   * coded error exists to report.
   */
  lemma ApiErrorMisreported(reply: Reply)
    requires reply == Answered(400, ErrorFields(false, 400, "Bad Request: chat not found"))
    ensures CheckAsWritten(reply) == Some(Unsupported)
    ensures Check(reply) == Some(CodedError(400, "Bad Request: chat not found"))
  {
  }

  // ---------------------------------------------------------------------------
  // The message stream
  // ---------------------------------------------------------------------------

  /**
   * `message.Content`, an `io.Reader` holding `unread`; reading it to the end
   * reports `fault` when the stream fails. `readCount` counts the reads.
   */
  class Stream {
    var unread: string
    var readCount: nat
    const fault: Option<string>

    constructor (content: string, fault: Option<string>)
      ensures unread == content && readCount == 0 && this.fault == fault
    {
      unread := content;
      readCount := 0;
      this.fault := fault;
    }

    /** `io.ReadAll`: everything left, and the stream's error if it has one. */
    method ReadAll() returns (data: string, err: Option<string>)
      modifies this
      ensures data == old(unread) && err == fault
      ensures unread == [] && readCount == old(readCount) + 1
    {
      data := unread;
      err := fault;
      unread := [];
      readCount := readCount + 1;
    }
  }

  // ---------------------------------------------------------------------------
  // `SendMessage`
  // ---------------------------------------------------------------------------

  /** Which reply handling a delivery applies: the code's or the corrected one. */
  datatype Rule = AsWritten | Corrected

  function Checked(rule: Rule, reply: Reply): Option<string> {
    if rule.AsWritten? then CheckAsWritten(reply) else Check(reply)
  }

  /** The requests a call issued, and the error it returned. */
  datatype Outcome = Outcome(issued: seq<Request>, err: Option<string>)

  /**
   * The address loop of `SendMessage` as a function of the replies, the
   * request with index `from` being the first it issues: the addresses in
   * order, each parsed and then sent, up to the first failure. `rule` picks
   * the handling of a reply: `CheckAsWritten` for the code as it stands,
   * `Check` for the corrected one.
   */
  function Deliver(n: Notificator, text: string, addresses: seq<string>, rule: Rule,
                   respond: (nat, Request) -> Reply, from: nat): (o: Outcome)
    ensures |o.issued| <= |addresses|
    ensures o.err == None ==> |o.issued| == |addresses|
    decreases |addresses|
  {
    if addresses == [] then Outcome([], None)
    else
      var init := addresses[..|addresses| - 1];
      var o := Deliver(n, text, init, rule, respond, from);
      if o.err != None then o
      else
        match Strconv.Atoi(addresses[|init|])
        case Failure(e) => Outcome(o.issued, Some(e))
        case Success(chatId) =>
          var request := MessageRequest(n, chatId, text);
          Outcome(o.issued + [request], Checked(rule, respond(from + |init|, request)))
  }

  /** `request` is the message for the chat whose id `address` spells. */
  predicate AddressedTo(n: Notificator, text: string, address: string, request: Request) {
    Strconv.Atoi(address).Success? && request == MessageRequest(n, Strconv.Atoi(address).value, text)
  }

  /** Every request of `issued`, the first of them numbered `from`, got a reply that passes `rule`'s check. */
  predicate Passed(rule: Rule, respond: (nat, Request) -> Reply, from: nat, issued: seq<Request>) {
    forall k :: 0 <= k < |issued| ==> Checked(rule, respond(from + k, issued[k])) == None
  }

  /**
   * The requests go out in the order of the addresses: the k-th request is
   * the message for the chat id the k-th address parses to.
   */
  lemma {:induction false} DeliverIssued(n: Notificator, text: string, addresses: seq<string>,
                                         rule: Rule,
                                         respond: (nat, Request) -> Reply, from: nat, o: Outcome)
    requires o == Deliver(n, text, addresses, rule, respond, from)
    ensures forall k {:trigger o.issued[k]} :: 0 <= k < |o.issued| ==> AddressedTo(n, text, addresses[k], o.issued[k])
    decreases |addresses|
  {
    if addresses != [] {
      var i := |addresses| - 1;
      var p := Deliver(n, text, addresses[..i], rule, respond, from);
      DeliverIssued(n, text, addresses[..i], rule, respond, from, p);
      if p.err == None {
        var parsed := Strconv.Atoi(addresses[i]);
        DeliverSnoc(n, text, addresses, i, rule, respond, from, from + i, p.issued, parsed);
        assert addresses[..i + 1] == addresses;
        AddressedSnoc(n, text, addresses, p.issued, parsed, o.issued);
      }
    }
  }

  /** One more request, for the last address, keeps every request addressed to its own address. */
  lemma AddressedSnoc(n: Notificator, text: string, addresses: seq<string>, issued: seq<Request>,
                      parsed: Result<Strconv.Int64, string>, next: seq<Request>)
    requires |addresses| >= 1 && |issued| == |addresses| - 1
    requires forall k :: 0 <= k < |issued| ==> AddressedTo(n, text, addresses[..|issued|][k], issued[k])
    requires parsed == Strconv.Atoi(addresses[|issued|])
    requires parsed.Failure? ==> next == issued
    requires parsed.Success? ==> next == issued + [MessageRequest(n, parsed.value, text)]
    ensures forall k {:trigger next[k]} :: 0 <= k < |next| ==> AddressedTo(n, text, addresses[k], next[k])
  {
    forall k | 0 <= k < |next|
      ensures AddressedTo(n, text, addresses[k], next[k])
    {
      if k < |issued| {
        assert next[k] == issued[k] && addresses[..|issued|][k] == addresses[k];
      }
    }
  }

  /**
   * Abort on the first failure, the shape of an outcome of `Deliver`.
   * Without an error every request issued got a reply that passed. With one,
   * either every request issued passed and the next address is the one that
   * does not parse, with its parse error, or every request but the last
   * passed and the error is the last reply's.
   */
  predicate Aborted(rule: Rule, respond: (nat, Request) -> Reply, from: nat, addresses: seq<string>, o: Outcome) {
    && (o.err == None ==> Passed(rule, respond, from, o.issued))
    && (o.err != None ==>
          || (&& Passed(rule, respond, from, o.issued)
              && |o.issued| < |addresses| && Strconv.Atoi(addresses[|o.issued|]) == Failure(o.err.value))
          || (&& |o.issued| >= 1 && Passed(rule, respond, from, o.issued[..|o.issued| - 1])
              && o.err == Checked(rule, respond(from + |o.issued| - 1, o.issued[|o.issued| - 1]))))
  }

  /** Every outcome of `Deliver` aborts at its first failure. */
  lemma {:induction false} DeliverAbort(n: Notificator, text: string, addresses: seq<string>, rule: Rule,
                                        respond: (nat, Request) -> Reply, from: nat, o: Outcome)
    requires o == Deliver(n, text, addresses, rule, respond, from)
    ensures Aborted(rule, respond, from, addresses, o)
    decreases |addresses|
  {
    if addresses != [] {
      var i := |addresses| - 1;
      var p := Deliver(n, text, addresses[..i], rule, respond, from);
      DeliverAbort(n, text, addresses[..i], rule, respond, from, p);
      if p.err == None {
        var parsed := Strconv.Atoi(addresses[i]);
        DeliverSnoc(n, text, addresses, i, rule, respond, from, from + i, p.issued, parsed);
        assert addresses[..i + 1] == addresses;
        if parsed.Success? {
          var request := MessageRequest(n, parsed.value, text);
          AbortedSent(rule, respond, from, addresses, p, request, o);
        } else {
          AbortedParse(rule, respond, from, addresses, p, o);
        }
      } else {
        AbortedKept(rule, respond, from, addresses, p, o);
      }
    }
  }

  /** A failed prefix is the whole outcome. */
  lemma AbortedKept(rule: Rule, respond: (nat, Request) -> Reply, from: nat, addresses: seq<string>,
                    p: Outcome, o: Outcome)
    requires |addresses| >= 1 && |p.issued| <= |addresses| - 1
    requires Aborted(rule, respond, from, addresses[..|addresses| - 1], p) && p.err != None && o == p
    ensures Aborted(rule, respond, from, addresses, o)
  {
    if |p.issued| < |addresses| - 1 {
      assert addresses[..|addresses| - 1][|p.issued|] == addresses[|p.issued|];
    }
  }

  /** The next address after a prefix that went through does not parse. */
  lemma AbortedParse(rule: Rule, respond: (nat, Request) -> Reply, from: nat, addresses: seq<string>,
                     p: Outcome, o: Outcome)
    requires |addresses| >= 1 && |p.issued| == |addresses| - 1
    requires Aborted(rule, respond, from, addresses[..|addresses| - 1], p) && p.err == None
    requires Strconv.Atoi(addresses[|p.issued|]).Failure?
    requires o == Outcome(p.issued, Some(Strconv.Atoi(addresses[|p.issued|]).error))
    ensures Aborted(rule, respond, from, addresses, o)
  {
  }

  /** The next request after a prefix that went through is sent, and its reply decides. */
  lemma AbortedSent(rule: Rule, respond: (nat, Request) -> Reply, from: nat, addresses: seq<string>,
                    p: Outcome, request: Request, o: Outcome)
    requires |addresses| >= 1 && |p.issued| == |addresses| - 1
    requires Aborted(rule, respond, from, addresses[..|addresses| - 1], p) && p.err == None
    requires o == Outcome(p.issued + [request], Checked(rule, respond(from + |p.issued|, request)))
    ensures Aborted(rule, respond, from, addresses, o)
  {
    assert o.issued[..|o.issued| - 1] == p.issued;
    if o.err == None {
      forall k | 0 <= k < |o.issued|
        ensures Checked(rule, respond(from + k, o.issued[k])) == None
      {
        if k < |p.issued| {
          assert o.issued[k] == p.issued[k];
        }
      }
    }
  }

  /**
   * How the code as written and the corrected check compare on one delivery:
   * the same requests, failing together, and where the errors differ the
   * last request's reply is a non-200 whose error body decoded, and each
   * error is its own check of that reply.
   */
  predicate Agree(respond: (nat, Request) -> Reply, from: nat, w: Outcome, c: Outcome) {
    && w.issued == c.issued
    && (w.err == None <==> c.err == None)
    && (w.err != c.err ==>
          && |w.issued| >= 1
          && var r := respond(from + |w.issued| - 1, w.issued[|w.issued| - 1]);
          && r.Answered? && r.statusCode != 200 && r.asError.ErrorFields?
          && w.err == CheckAsWritten(r) && c.err == Check(r))
  }

  /**
   * The code as written and the corrected check agree on every delivery in
   * the sense of `Agree`; by `CheckAsWrittenInverted`, where their errors
   * differ they differ in the `ok` flag they test.
   */
  lemma {:induction false} DeliverCorrected(n: Notificator, text: string, addresses: seq<string>,
                                            respond: (nat, Request) -> Reply, from: nat, w: Outcome, c: Outcome)
    requires w == Deliver(n, text, addresses, AsWritten, respond, from)
    requires c == Deliver(n, text, addresses, Corrected, respond, from)
    ensures Agree(respond, from, w, c)
    decreases |addresses|
  {
    if addresses != [] {
      var i := |addresses| - 1;
      var w' := Deliver(n, text, addresses[..i], AsWritten, respond, from);
      var c' := Deliver(n, text, addresses[..i], Corrected, respond, from);
      DeliverCorrected(n, text, addresses[..i], respond, from, w', c');
      if w'.err == None {
        var parsed := Strconv.Atoi(addresses[i]);
        var at := from + i;
        DeliverSnoc(n, text, addresses, i, AsWritten, respond, from, at, w'.issued, parsed);
        DeliverSnoc(n, text, addresses, i, Corrected, respond, from, at, c'.issued, parsed);
        assert addresses[..i + 1] == addresses;
        if parsed.Success? {
          var request := MessageRequest(n, parsed.value, text);
          assert |w'.issued| == i;
          AgreeSent(respond, from, at, w', c', request, w, c);
        }
      }
    }
  }

  /** One more request after two agreeing deliveries that went through. */
  lemma AgreeSent(respond: (nat, Request) -> Reply, from: nat, at: nat, w': Outcome, c': Outcome, request: Request,
                  w: Outcome, c: Outcome)
    requires Agree(respond, from, w', c') && w'.err == None && at == from + |w'.issued|
    requires w == Outcome(w'.issued + [request], Checked(AsWritten, respond(at, request)))
    requires c == Outcome(c'.issued + [request], Checked(Corrected, respond(at, request)))
    ensures Agree(respond, from, w, c)
  {
    ChecksDiffer(respond(at, request));
    assert w.issued[|w.issued| - 1] == request;
  }

  /** Where the two checks of one reply differ, the reply is a non-200 with a decoded error body. */
  lemma ChecksDiffer(r: Reply)
    ensures CheckAsWritten(r) == None <==> Check(r) == None
    ensures CheckAsWritten(r) != Check(r) ==> r.Answered? && r.statusCode != 200 && r.asError.ErrorFields?
  {
  }

  /** An address list with no entries sends nothing and returns no error. */
  lemma DeliverNothing(n: Notificator, text: string, rule: Rule,
                       respond: (nat, Request) -> Reply, from: nat)
    ensures Deliver(n, text, [], rule, respond, from) == Outcome([], None)
  {
  }

  /** Delivering to one more address after a prefix that went through. */
  lemma DeliverSnoc(n: Notificator, text: string, addresses: seq<string>, i: nat,
                    rule: Rule, respond: (nat, Request) -> Reply, from: nat, at: nat,
                    issued: seq<Request>, parsed: Result<Strconv.Int64, string>)
    requires i < |addresses| && Deliver(n, text, addresses[..i], rule, respond, from) == Outcome(issued, None)
    requires at == from + i && parsed == Strconv.Atoi(addresses[i])
    ensures parsed.Failure? ==>
      Deliver(n, text, addresses[..i + 1], rule, respond, from) == Outcome(issued, Some(parsed.error))
    ensures parsed.Success? ==>
      var request := MessageRequest(n, parsed.value, text);
      Deliver(n, text, addresses[..i + 1], rule, respond, from)
        == Outcome(issued + [request], Checked(rule, respond(at, request)))
  {
    assert addresses[..i + 1][..i] == addresses[..i];
  }

  /** Once a prefix of the addresses fails, the addresses after it are never looked at. */
  lemma {:induction false} DeliverStops(n: Notificator, text: string, addresses: seq<string>, i: nat,
                                        rule: Rule, respond: (nat, Request) -> Reply, from: nat)
    requires i <= |addresses| && Deliver(n, text, addresses[..i], rule, respond, from).err != None
    ensures Deliver(n, text, addresses, rule, respond, from) == Deliver(n, text, addresses[..i], rule, respond, from)
    decreases |addresses| - i
  {
    if i < |addresses| {
      var j := |addresses| - 1;
      if i < j {
        assert addresses[..j][..i] == addresses[..i];
        DeliverStops(n, text, addresses[..j], i, rule, respond, from);
      } else {
        assert addresses[..j] == addresses[..i];
      }
    } else {
      assert addresses[..i] == addresses;
    }
  }

  /**
   * The address loop of `SendMessage`: the text to every address in order,
   * stopping at the first address that does not parse and at the first
   * request that fails, with the reply handling as written.
   */
  method SendTo(n: Notificator, text: string, addresses: seq<string>, client: Http.Client<Request, Reply>)
    returns (err: Option<string>)
    modifies client
    ensures var o := Deliver(n, text, addresses, AsWritten, client.respond, |old(client.log)|);
            client.log == old(client.log) + o.issued && err == o.err
  {
    ghost var log0 := client.log;
    ghost var issued: seq<Request> := [];
    for i := 0 to |addresses|
      invariant client.log == log0 + issued
      invariant Deliver(n, text, addresses[..i], AsWritten, client.respond, |log0|) == Outcome(issued, None)
    {
      var parsed := Strconv.Atoi(addresses[i]);
      DeliverSnoc(n, text, addresses, i, AsWritten, client.respond, |log0|, |client.log|, issued, parsed);
      if parsed.Failure? {
        DeliverStops(n, text, addresses, i + 1, AsWritten, client.respond, |log0|);
        return Some(parsed.error);
      }
      var request := MessageRequest(n, parsed.value, text);
      var reply := client.Do(request);
      issued := issued + [request];
      var failure := CheckAsWritten(reply);
      if failure != None {
        DeliverStops(n, text, addresses, i + 1, AsWritten, client.respond, |log0|);
        return failure;
      }
    }
    assert addresses[..|addresses|] == addresses;
    return None;
  }

  /**
   * `SendMessage`: reads the text once, and sends it to the addresses unless
   * reading failed.
   */
  method SendMessage(n: Notificator, addresses: seq<string>, content: Stream, client: Http.Client<Request, Reply>)
    returns (err: Option<string>)
    modifies content, client
    ensures content.unread == [] && content.readCount == old(content.readCount) + 1
    ensures content.fault != None ==> err == content.fault && client.log == old(client.log)
    ensures content.fault == None ==>
      var o := Deliver(n, old(content.unread), addresses, AsWritten, client.respond, |old(client.log)|);
      client.log == old(client.log) + o.issued && err == o.err
  {
    var text, readErr := content.ReadAll();
    if readErr != None {
      return readErr;
    }
    err := SendTo(n, text, addresses, client);
  }
}
