/**
 * The transport under the adapters (`request.Do` with an `http.Client`),
 * abstracted to a scripted server: the reply to the i-th request issued is
 * `respond(i, request)`. The client keeps the log of every request issued,
 * in order, which is what the adapters' ordering properties are stated over.
 */
module Http {

  class Client<Req, Rep> {
    /** The scripted remote side: request index and request to reply. */
    const respond: (nat, Req) -> Rep
    /** Every request issued through this client so far, oldest first. */
    var log: seq<Req>

    constructor (respond: (nat, Req) -> Rep)
      ensures this.respond == respond && log == []
    {
      this.respond := respond;
      log := [];
    }

    /** Issues one request and waits for its reply. */
    method Do(req: Req) returns (rep: Rep)
      modifies this
      ensures log == old(log) + [req]
      ensures rep == respond(|old(log)|, req)
    {
      rep := respond(|log|, req);
      log := log + [req];
    }
  }
}
