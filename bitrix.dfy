/**
 * The Bitrix24 adapter: a message goes out as system messages in dialogs,
 * optionally preceded by system notifications to users, and every posted
 * message gets a delete request scheduled for `LifetimeMessage` hours later.
 * Each request is a URL whose parameters travel in its query string.
 */
module Bitrix {
  import opened Wrappers
  import Strconv
  import Query
  import Http
  import opened Batches

  const BitrixProtocol := "https"
  const RequestMessage := "im.message.add.json"
  const RequestDelete := "im.message.delete"
  const RequestNotify := "im.notify.system.add.json"
  const ReqValueMessId := "MESSAGE_ID"
  const ReqValueDialog := "DIALOG_ID"
  const ReqValueUserId := "USER_ID"
  const ReqValueMessage := "MESSAGE"
  const ReqValueSystem := "SYSTEM"

  const NoAddresses := "no addresses to send"
  const NoResult := "no result in the response"
  const Unsupported := "unsupported bitrix-api response"

  datatype Config = Config(
    proto: string,
    host: string,
    token: string,
    userId: string,
    globalChat: string,
    timeout: int,                 // seconds allowed per request
    lifetimeMessage: int,         // hours before a posted message is deleted
    addresses: seq<string>,
    globalChatUsers: seq<string>,
    useGlobalNotification: bool)

  datatype Notificator = Notificator(cfg: Config)

  /** `New`: a missing protocol defaults to https; a given one is kept. */
  function New(cfg: Config): (n: Notificator)
    ensures n.cfg.proto != ""
    ensures cfg.proto != "" ==> n.cfg == cfg
    ensures cfg.proto == "" ==> n.cfg == cfg.(proto := BitrixProtocol)
  {
    Notificator(if cfg.proto == "" then cfg.(proto := BitrixProtocol) else cfg)
  }

  /** `New` is idempotent: a notificator built from a built one has the same settings. */
  lemma NewIdempotent(cfg: Config)
    ensures New(New(cfg).cfg) == New(cfg)
  {
  }

  /** The REST path of method `request` for the configured user and webhook token. */
  function RequestPath(n: Notificator, request: string): string {
    "/rest/" + n.cfg.userId + "/" + n.cfg.token + "/" + request
  }

  function UrlForMessage(n: Notificator, dialogId: string, message: string): string {
    Query.Url(n.cfg.proto, n.cfg.host, RequestPath(n, RequestMessage),
      [(ReqValueSystem, "Y"), (ReqValueDialog, dialogId), (ReqValueMessage, message)])
  }

  function UrlForDelete(n: Notificator, messageId: string): string {
    Query.Url(n.cfg.proto, n.cfg.host, RequestPath(n, RequestDelete),
      [(ReqValueMessId, messageId)])
  }

  function UrlForNotify(n: Notificator, userId: string, message: string): string {
    Query.Url(n.cfg.proto, n.cfg.host, RequestPath(n, RequestNotify),
      [(ReqValueUserId, userId), (ReqValueMessage, message)])
  }

  /** The parameter names and the SYSTEM flag's value are sent as they are. */
  lemma KeysAreUnescaped()
    ensures Query.Escape(ReqValueDialog) == ReqValueDialog
    ensures Query.Escape(ReqValueMessage) == ReqValueMessage
    ensures Query.Escape(ReqValueSystem) == ReqValueSystem
    ensures Query.Escape(ReqValueUserId) == ReqValueUserId
    ensures Query.Escape(ReqValueMessId) == ReqValueMessId
    ensures Query.Escape("Y") == "Y"
  {
    assert Query.AllUnreserved(ReqValueDialog) && Query.AllUnreserved(ReqValueMessage);
    assert Query.AllUnreserved(ReqValueSystem) && Query.AllUnreserved(ReqValueUserId);
    assert Query.AllUnreserved(ReqValueMessId) && Query.AllUnreserved("Y");
    Query.EscapeUnreserved(ReqValueDialog);
    Query.EscapeUnreserved(ReqValueMessage);
    Query.EscapeUnreserved(ReqValueSystem);
    Query.EscapeUnreserved(ReqValueUserId);
    Query.EscapeUnreserved(ReqValueMessId);
    Query.EscapeUnreserved("Y");
  }

  /** The message parameters, as passed, are a permutation of their key order. */
  lemma MessageKeysOrdered(dialogId: string, message: string)
    ensures Query.Less(ReqValueDialog, ReqValueMessage) && Query.Less(ReqValueMessage, ReqValueSystem)
    ensures multiset([(ReqValueSystem, "Y"), (ReqValueDialog, dialogId), (ReqValueMessage, message)])
         == multiset([(ReqValueDialog, dialogId), (ReqValueMessage, message), (ReqValueSystem, "Y")])
  {
  }

  /** The notify parameters, as passed, are a permutation of their key order. */
  lemma NotifyKeysOrdered(userId: string, message: string)
    ensures Query.Less(ReqValueMessage, ReqValueUserId)
    ensures multiset([(ReqValueUserId, userId), (ReqValueMessage, message)])
         == multiset([(ReqValueMessage, message), (ReqValueUserId, userId)])
  {
  }

  /**
   * The message URL: keys in the order DIALOG_ID < MESSAGE < SYSTEM, not the
   * order they are passed in, and the values escaped.
   */
  lemma UrlForMessageForm(n: Notificator, dialogId: string, message: string)
    ensures UrlForMessage(n, dialogId, message) ==
      n.cfg.proto + "://" + n.cfg.host + RequestPath(n, RequestMessage) + "?"
      + (ReqValueDialog + "=" + Query.Escape(dialogId) + "&"
         + (ReqValueMessage + "=" + Query.Escape(message) + "&"
            + (ReqValueSystem + "=" + "Y")))
  {
    KeysAreUnescaped();
    MessageKeysOrdered(dialogId, message);
    Query.UrlThree(n.cfg.proto, n.cfg.host, RequestPath(n, RequestMessage),
      [(ReqValueSystem, "Y"), (ReqValueDialog, dialogId), (ReqValueMessage, message)],
      ReqValueDialog, dialogId, ReqValueMessage, message, ReqValueSystem, "Y");
  }

  /** The delete URL carries the message id as its only parameter. */
  lemma UrlForDeleteForm(n: Notificator, messageId: string)
    ensures UrlForDelete(n, messageId) ==
      n.cfg.proto + "://" + n.cfg.host + RequestPath(n, RequestDelete) + "?"
      + (ReqValueMessId + "=" + Query.Escape(messageId))
  {
    KeysAreUnescaped();
    Query.UrlSingle(n.cfg.proto, n.cfg.host, RequestPath(n, RequestDelete), ReqValueMessId, messageId);
  }

  /** The notify URL: keys in the order MESSAGE < USER_ID. */
  lemma UrlForNotifyForm(n: Notificator, userId: string, message: string)
    ensures UrlForNotify(n, userId, message) ==
      n.cfg.proto + "://" + n.cfg.host + RequestPath(n, RequestNotify) + "?"
      + (ReqValueMessage + "=" + Query.Escape(message) + "&"
         + (ReqValueUserId + "=" + Query.Escape(userId)))
  {
    KeysAreUnescaped();
    NotifyKeysOrdered(userId, message);
    Query.UrlTwo(n.cfg.proto, n.cfg.host, RequestPath(n, RequestNotify),
      [(ReqValueUserId, userId), (ReqValueMessage, message)],
      ReqValueMessage, message, ReqValueUserId, userId);
  }

  // ---------------------------------------------------------------------------
  // Classifying a reply (`send`)
  // ---------------------------------------------------------------------------

  /** What decoding a body into the `{result, time}` struct gave. */
  datatype ResultBody =
    | Decoded(result: Strconv.Int64)
      /** The decoder stopped with `cause`, after filling `result` with `partial`. */
    | Undecodable(partial: Strconv.Int64, cause: string)

  /** What decoding a body into the `{error, error_description}` struct gave. */
  datatype ErrorBody =
    | ErrorFields(error: string, errorDescription: string)
    | ErrorUndecodable(cause: string)

  /**
   * The reply to one request: the transport failed with `cause`, or the server
   * answered with a status and a body, shown here as what each of the two
   * decodings `send` may apply to it gives.
   */
  datatype Reply =
    | Unreachable(cause: string)
    | Answered(statusCode: int, asResult: ResultBody, asError: ErrorBody)

  function DecodeError(cause: string): string {
    "decode result json: " + cause
  }

  /**
   * `send`'s case analysis of a reply. Only a 200 reply whose body decodes to
   * a nonzero `result` succeeds, and then the id is that result; any other
   * status yields id 0.
   */
  function Classify(reply: Reply): (r: Sent)
    ensures r.err == None <==>
      reply.Answered? && reply.statusCode == 200 && reply.asResult.Decoded? && reply.asResult.result != 0
    ensures r.err == None ==> r.id == reply.asResult.result
    ensures !(reply.Answered? && reply.statusCode == 200) ==> r.id == 0
  {
    match reply
    case Unreachable(cause) => Sent(0, Some(cause))
    case Answered(status, asResult, asError) =>
      if status == 200 then
        match asResult
        case Undecodable(partial, cause) => Sent(partial, Some(DecodeError(cause)))
        case Decoded(result) =>
          if result == 0 then Sent(0, Some(NoResult)) else Sent(result, None)
      else
        match asError
        case ErrorUndecodable(cause) => Sent(0, Some(DecodeError(cause)))
        case ErrorFields(e, d) =>
          if e != "" then Sent(0, Some(e + ": " + d)) else Sent(0, Some(Unsupported))
  }

  /**
   * The error texts of a failed reply that the server did answer: which of
   * them appears is decided by the status and the decoded fields alone.
   */
  lemma ClassifyErrors(reply: Reply)
    requires reply.Answered?
    ensures reply.statusCode == 200 && reply.asResult.Decoded? && reply.asResult.result == 0
      ==> Classify(reply) == Sent(0, Some(NoResult))
    ensures reply.statusCode == 200 && reply.asResult.Undecodable?
      ==> Classify(reply).err == Some(DecodeError(reply.asResult.cause))
    ensures reply.statusCode != 200 && reply.asError.ErrorUndecodable?
      ==> Classify(reply).err == Some(DecodeError(reply.asError.cause))
    ensures reply.statusCode != 200 && reply.asError.ErrorFields? && reply.asError.error != ""
      ==> Classify(reply) == Sent(0, Some(reply.asError.error + ": " + reply.asError.errorDescription))
    ensures reply.statusCode != 200 && reply.asError.ErrorFields? && reply.asError.error == ""
      ==> Classify(reply) == Sent(0, Some(Unsupported))
  {
  }

  // ---------------------------------------------------------------------------
  // The plan of `SendMessage`
  // ---------------------------------------------------------------------------

  /** The server's replies as `send` reports them. */
  function Classified(respond: (nat, string) -> Reply): (nat, string) -> Sent {
    Reported(respond, Classify)
  }

  /**
   * A delete that `SendMessage` leaves running in the background: after
   * `afterHours` hours it requests `DeleteUrl` of the message, and nothing
   * waits for its reply.
   */
  datatype Deletion = Deletion(afterHours: int, messageId: Strconv.Int64)

  /** The request a scheduled delete issues: the message id in decimal. */
  function DeleteUrl(n: Notificator, d: Deletion): string {
    UrlForDelete(n, Strconv.Itoa(d.messageId))
  }

  /**
   * A delete names its message by `MESSAGE_ID`, the id written in decimal
   * and left unescaped, and that text parses back to the id.
   */
  lemma DeleteUrlForm(n: Notificator, d: Deletion)
    ensures DeleteUrl(n, d) ==
      n.cfg.proto + "://" + n.cfg.host + RequestPath(n, RequestDelete) + "?"
      + (ReqValueMessId + "=" + Strconv.Itoa(d.messageId))
    ensures Strconv.Atoi(Strconv.Itoa(d.messageId)) == Success(d.messageId)
  {
    var id := Strconv.Itoa(d.messageId);
    assert Query.AllUnreserved(id);
    Query.EscapeUnreserved(id);
    UrlForDeleteForm(n, id);
    Strconv.AtoiItoa(d.messageId);
  }

  /** Who is notified and where the message is posted (`users`, `addresses`). */
  function Recipients(cfg: Config): (seq<string>, seq<string>) {
    if cfg.useGlobalNotification then (cfg.globalChatUsers, [cfg.globalChat])
    else (cfg.addresses, cfg.addresses)
  }

  function NotifyUrls(n: Notificator, users: seq<string>, subject: string): seq<string> {
    seq(|users|, i requires 0 <= i < |users| => UrlForNotify(n, users[i], subject))
  }

  function PostUrls(n: Notificator, chats: seq<string>, message: string): seq<string> {
    seq(|chats|, i requires 0 <= i < |chats| => UrlForMessage(n, chats[i], message))
  }

  /** One delete per posted message. */
  function DeletesFor(afterHours: int, ids: seq<Strconv.Int64>): seq<Deletion> {
    seq(|ids|, k requires 0 <= k < |ids| => Deletion(afterHours, ids[k]))
  }

  /** Every request `SendMessage` would issue if none failed: notifies, then posts. */
  function Plan(n: Notificator, message: string, subject: string): seq<string> {
    NotifyUrls(n, Recipients(n.cfg).0, subject) + PostUrls(n, Recipients(n.cfg).1, message)
  }

  /**
   * The plan in the terms of the configuration: in global mode one notify per
   * global chat user and one post to the global chat, otherwise one notify
   * and one post per address; every notify carries the subject, every post
   * the whole message, and all notifies come before all posts.
   */
  lemma PlanOrder(n: Notificator, message: string, subject: string, users: seq<string>, chats: seq<string>)
    requires users == if n.cfg.useGlobalNotification then n.cfg.globalChatUsers else n.cfg.addresses
    requires chats == if n.cfg.useGlobalNotification then [n.cfg.globalChat] else n.cfg.addresses
    ensures |Plan(n, message, subject)| == |users| + |chats|
    ensures forall i :: 0 <= i < |users| ==> Plan(n, message, subject)[i] == UrlForNotify(n, users[i], subject)
    ensures forall j :: 0 <= j < |chats| ==>
      Plan(n, message, subject)[|users| + j] == UrlForMessage(n, chats[j], message)
  {
    assert Recipients(n.cfg) == (users, chats);
    var first, second := NotifyUrls(n, users, subject), PostUrls(n, chats, message);
    assert Plan(n, message, subject) == first + second;
  }

  /** What a call of `SendMessage` does: the requests, the deletes left behind, the error. */
  datatype Outcome = Outcome(issued: seq<string>, deletes: seq<Deletion>, err: Option<string>)

  /**
   * `SendMessage` as a function of the replies: the request with index
   * `from` is the first it issues.
   */
  function Dispatch(n: Notificator, message: string, subject: string,
                    respond: (nat, string) -> Reply, from: nat): (o: Outcome)
    ensures n.cfg.addresses == [] ==> o == Outcome([], [], Some(NoAddresses))
    ensures o.issued <= Plan(n, message, subject)
    ensures o.err == None ==> o.issued == Plan(n, message, subject)
  {
    if n.cfg.addresses == [] then Outcome([], [], Some(NoAddresses))
    else
      var p := SendPhases(Classified(respond), from,
                          NotifyUrls(n, Recipients(n.cfg).0, subject),
                          PostUrls(n, Recipients(n.cfg).1, message));
      Outcome(p.Issued(), DeletesFor(n.cfg.lifetimeMessage, p.second.ids), p.Err())
  }

  /**
   * Abort on the first failure: every request issued before the last one
   * went through, the last one too when no error is returned, and otherwise
   * the error returned is the last request's.
   */
  lemma DispatchAbort(n: Notificator, message: string, subject: string,
                      respond: (nat, string) -> Reply, from: nat, o: Outcome)
    requires n.cfg.addresses != []
    requires o == Dispatch(n, message, subject, respond, from)
    ensures o.err != None ==>
      |o.issued| >= 1 && o.err == Classified(respond)(from + |o.issued| - 1, o.issued[|o.issued| - 1]).err
    ensures forall k :: 0 <= k < |o.issued| && (k < |o.issued| - 1 || o.err == None) ==>
      Classified(respond)(from + k, o.issued[k]).err == None
  {
    PhasesAbort(Classified(respond), from, NotifyUrls(n, Recipients(n.cfg).0, subject),
                PostUrls(n, Recipients(n.cfg).1, message), o.issued, o.err);
  }

  /**
   * Each post that went through leaves exactly one delete behind, and a post
   * that failed, or any notify, leaves none.
   */
  lemma DispatchDeleteCount(n: Notificator, message: string, subject: string,
                            respond: (nat, string) -> Reply, from: nat, o: Outcome, notifies: nat)
    requires n.cfg.addresses != []
    requires o == Dispatch(n, message, subject, respond, from)
    requires notifies == |NotifyUrls(n, Recipients(n.cfg).0, subject)|
    ensures |o.issued| <= notifies ==> o.deletes == []
    ensures |o.issued| > notifies ==>
      |o.deletes| == |o.issued| - notifies - (if o.err == None then 0 else 1)
  {
    var first, second := NotifyUrls(n, Recipients(n.cfg).0, subject), PostUrls(n, Recipients(n.cfg).1, message);
    var ids := SendPhases(Classified(respond), from, first, second).second.ids;
    PhasesSecondIds(Classified(respond), from, first, second, o.issued, o.err, ids);
  }

  /**
   * The deletes follow the posts in order: the k-th delete is for the k-th
   * post, which went through, and carries the id its reply returned.
   */
  lemma DispatchDelete(n: Notificator, message: string, subject: string,
                       respond: (nat, string) -> Reply, from: nat, o: Outcome,
                       notifies: nat, k: nat, j: nat, at: nat)
    requires n.cfg.addresses != []
    requires o == Dispatch(n, message, subject, respond, from)
    requires notifies == |NotifyUrls(n, Recipients(n.cfg).0, subject)|
    requires k < |o.deletes| && j == notifies + k && at == from + j
    ensures j < |o.issued|
    ensures Classified(respond)(at, o.issued[j]) == Sent(o.deletes[k].messageId, None)
    ensures o.deletes[k].afterHours == n.cfg.lifetimeMessage
  {
    var first, second := NotifyUrls(n, Recipients(n.cfg).0, subject), PostUrls(n, Recipients(n.cfg).1, message);
    var p := SendPhases(Classified(respond), from, first, second);
    DispatchIsPhases(n, message, subject, respond, from, first, second, p);
    PhasesSecondIdAt(Classified(respond), from, first, second, p, k, j, at);
    assert o.deletes[k] == Deletion(n.cfg.lifetimeMessage, p.second.ids[k]);
  }

  /** `Dispatch` with addresses is the two phases over the notify and post URLs. */
  lemma DispatchIsPhases(n: Notificator, message: string, subject: string, respond: (nat, string) -> Reply,
                         from: nat, first: seq<string>, second: seq<string>, p: Phases)
    requires n.cfg.addresses != []
    requires first == NotifyUrls(n, Recipients(n.cfg).0, subject)
    requires second == PostUrls(n, Recipients(n.cfg).1, message)
    requires p == SendPhases(Classified(respond), from, first, second)
    ensures Dispatch(n, message, subject, respond, from) ==
      Outcome(p.Issued(), DeletesFor(n.cfg.lifetimeMessage, p.second.ids), p.Err())
  {
  }

  /** `Dispatch` when a notify fails: no post is sent. */
  lemma DispatchNotifyFails(n: Notificator, message: string, subject: string,
                            respond: (nat, string) -> Reply, from: nat, notifies: seq<string>, notified: Batch)
    requires n.cfg.addresses != []
    requires notifies == NotifyUrls(n, Recipients(n.cfg).0, subject)
    requires notified == SendEach(Classified(respond), from, notifies) && notified.err != None
    ensures Dispatch(n, message, subject, respond, from) == Outcome(notified.issued, [], notified.err)
  {
    PhasesStopped(Classified(respond), from, notifies, PostUrls(n, Recipients(n.cfg).1, message), notified);
    assert notified.issued + [] == notified.issued;
  }

  /** `Dispatch` when every notify went through: the posts follow them. */
  lemma DispatchPosts(n: Notificator, message: string, subject: string,
                      respond: (nat, string) -> Reply, from: nat,
                      notifies: seq<string>, posts: seq<string>, mid: nat, notified: Batch, posted: Batch)
    requires n.cfg.addresses != []
    requires notifies == NotifyUrls(n, Recipients(n.cfg).0, subject)
    requires posts == PostUrls(n, Recipients(n.cfg).1, message)
    requires notified == SendEach(Classified(respond), from, notifies) && notified.err == None
    requires mid == from + |notifies| && posted == SendEach(Classified(respond), mid, posts)
    ensures Dispatch(n, message, subject, respond, from) ==
      Outcome(notified.issued + posted.issued, DeletesFor(n.cfg.lifetimeMessage, posted.ids), posted.err)
  {
    PhasesThrough(Classified(respond), from, notifies, posts, mid, notified, posted);
  }

  /**
   * `SendMessage`: notifies every user of the subject, then posts the message
   * to every chat and schedules its delete, stopping at the first request
   * that fails. The deletes scheduled are returned rather than run.
   */
  method SendMessage(n: Notificator, message: string, subject: string, client: Http.Client<string, Reply>)
    returns (err: Option<string>, deletes: seq<Deletion>)
    modifies client
    ensures client.log == old(client.log) + Dispatch(n, message, subject, client.respond, |old(client.log)|).issued
    ensures err == Dispatch(n, message, subject, client.respond, |old(client.log)|).err
    ensures deletes == Dispatch(n, message, subject, client.respond, |old(client.log)|).deletes
  {
    if |n.cfg.addresses| == 0 {
      return Some(NoAddresses), [];
    }
    var users := n.cfg.addresses;
    var chats := n.cfg.addresses;
    if n.cfg.useGlobalNotification {
      chats := [n.cfg.globalChat];
      users := n.cfg.globalChatUsers;
    }
    assert (users, chats) == Recipients(n.cfg);
    ghost var log0 := client.log;
    var notifies := NotifyUrls(n, users, subject);
    var posts := PostUrls(n, chats, message);
    var notified := SendAll(client, Classify, notifies);
    if notified.err != None {
      DispatchNotifyFails(n, message, subject, client.respond, |log0|, notifies, notified);
      return notified.err, [];
    }
    ghost var mid := |client.log|;
    var posted := SendAll(client, Classify, posts);
    DispatchPosts(n, message, subject, client.respond, |log0|, notifies, posts, mid, notified, posted);
    AppendAssoc(log0, notified.issued, posted.issued);
    return posted.err, DeletesFor(n.cfg.lifetimeMessage, posted.ids);
  }

  // ---------------------------------------------------------------------------
  // The fixture of the package's tests and its three golden URLs
  // ---------------------------------------------------------------------------

  function TestNotificator(): Notificator {
    Notificator(Config(BitrixProtocol, "company-name.bitrix24.eu", "777token666", "1234", "",
                       0, 0, ["999"], [], false))
  }

  /** The test phrase is escaped with a `+` for its space. */
  lemma EscapeTestPhrase(s: string)
    requires s == "test phrase"
    ensures Query.Escape(s) == "test+phrase"
  {
    assert s == "test" + " " + "phrase";
    assert Query.AllUnreserved("test") && Query.AllUnreserved("phrase");
    Query.EscapeWords(s, "test", "phrase");
  }

  /** Texts made of letters and digits only are sent as they are. */
  lemma PlainTestValue(s: string)
    requires s in {"chat987", "987654321", "1234"}
    ensures Query.Escape(s) == s
  {
    assert Query.AllUnreserved(s);
    Query.EscapeUnreserved(s);
  }

  /** The origin of the test notificator's URLs. */
  lemma TestOrigin(n: Notificator)
    requires n == TestNotificator()
    ensures n.cfg.proto + "://" + n.cfg.host == "https" + "://" + "company-name.bitrix24.eu"
  {
  }

  /** The REST path of a method for the test notificator's user and token. */
  lemma TestPath(n: Notificator, request: string)
    requires n == TestNotificator()
    ensures RequestPath(n, request) == "/rest/1234/777token666/" + request
  {
  }

  /** The query strings the tests expect, written out one parameter at a time. */
  lemma MessageTestQuery(dialogId: string, message: string)
    requires dialogId == "chat987" && message == "test+phrase"
    ensures ReqValueDialog + "=" + dialogId + "&" + (ReqValueMessage + "=" + message + "&" + (ReqValueSystem + "=" + "Y"))
      == "DIALOG_ID=chat987&" + ("MESSAGE=test+phrase&" + "SYSTEM=Y")
  {
    assert ReqValueSystem + "=" + "Y" == "SYSTEM=Y";
    assert ReqValueMessage + "=" + message + "&" == "MESSAGE=test+phrase&";
    assert ReqValueDialog + "=" + dialogId + "&" == "DIALOG_ID=chat987&";
  }

  lemma DeleteTestQuery(messageId: string)
    requires messageId == "987654321"
    ensures ReqValueMessId + "=" + messageId == "MESSAGE_ID=987654321"
  {
  }

  lemma NotifyTestQuery(userId: string, message: string)
    requires userId == "1234" && message == "test+phrase"
    ensures ReqValueMessage + "=" + message + "&" + (ReqValueUserId + "=" + userId)
      == "MESSAGE=test+phrase&" + "USER_ID=1234"
  {
  }

  /** bitrix_test.go: the message URL, with its keys sorted and its text escaped. */
  lemma UrlForMessageGolden(n: Notificator, dialogId: string, message: string)
    requires n == TestNotificator() && dialogId == "chat987" && message == "test phrase"
    ensures UrlForMessage(n, dialogId, message) ==
      "https" + "://" + "company-name.bitrix24.eu" + ("/rest/1234/777token666/" + "im.message.add.json")
      + "?" + ("DIALOG_ID=chat987&" + ("MESSAGE=test+phrase&" + "SYSTEM=Y"))
  {
    TestOrigin(n);
    TestPath(n, RequestMessage);
    PlainTestValue(dialogId);
    EscapeTestPhrase(message);
    MessageTestQuery(Query.Escape(dialogId), Query.Escape(message));
    UrlForMessageForm(n, dialogId, message);
  }

  /** bitrix_test.go: the delete URL. */
  lemma UrlForDeleteGolden(n: Notificator, messageId: string)
    requires n == TestNotificator() && messageId == "987654321"
    ensures UrlForDelete(n, messageId) ==
      "https" + "://" + "company-name.bitrix24.eu" + ("/rest/1234/777token666/" + "im.message.delete")
      + "?" + "MESSAGE_ID=987654321"
  {
    TestOrigin(n);
    TestPath(n, RequestDelete);
    PlainTestValue(messageId);
    DeleteTestQuery(Query.Escape(messageId));
    UrlForDeleteForm(n, messageId);
  }

  /** bitrix_test.go: the notify URL, with its keys sorted and its text escaped. */
  lemma UrlForNotifyGolden(n: Notificator, userId: string, message: string)
    requires n == TestNotificator() && userId == "1234" && message == "test phrase"
    ensures UrlForNotify(n, userId, message) ==
      "https" + "://" + "company-name.bitrix24.eu" + ("/rest/1234/777token666/" + "im.notify.system.add.json")
      + "?" + ("MESSAGE=test+phrase&" + "USER_ID=1234")
  {
    TestOrigin(n);
    TestPath(n, RequestNotify);
    PlainTestValue(userId);
    EscapeTestPhrase(message);
    var user, text := Query.Escape(userId), Query.Escape(message);
    NotifyTestQuery(user, text);
    UrlForNotifyForm(n, userId, message);
  }
}
