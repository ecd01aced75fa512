/**
 * Sending a list of requests one at a time and stopping at the first one
 * that fails, as both loops of the Bitrix adapter's `SendMessage` do.
 */
module Batches {
  import opened Wrappers
  import Strconv
  import Http

  /** What `send` returns: the message id and the error. */
  datatype Sent = Sent(id: Strconv.Int64, err: Option<string>)

  /** A batch of requests sent one after the other until the first failure. */
  datatype Batch = Batch(issued: seq<string>, ids: seq<Strconv.Int64>, err: Option<string>)

  /**
   * Sends `urls` in order, the first of them as request number `from`, and
   * stops at the first one that `sent` reports as an error. `ids` holds the
   * ids of the requests that succeeded, in order.
   */
  function SendEach(sent: (nat, string) -> Sent, from: nat, urls: seq<string>): (b: Batch)
    ensures b.issued <= urls
    ensures b.err == None ==> b.issued == urls && |b.ids| == |urls|
    ensures b.err != None ==>
      |b.issued| >= 1 && |b.ids| == |b.issued| - 1
      && b.err == sent(from + |b.issued| - 1, urls[|b.issued| - 1]).err
    ensures forall k {:trigger b.ids[k]} :: 0 <= k < |b.ids| ==> sent(from + k, urls[k]) == Sent(b.ids[k], None)
    decreases |urls|
  {
    if urls == [] then Batch([], [], None)
    else
      var b := SendEach(sent, from, urls[..|urls| - 1]);
      if b.err != None then b
      else
        var r := sent(from + |urls| - 1, urls[|urls| - 1]);
        Batch(urls, if r.err == None then b.ids + [r.id] else b.ids, r.err)
  }

  /** Sending one more URL after a batch that went through extends the batch. */
  lemma SendEachSnoc(sent: (nat, string) -> Sent, from: nat, urls: seq<string>, url: string)
    requires SendEach(sent, from, urls).err == None
    ensures var r := sent(from + |urls|, url);
            SendEach(sent, from, urls + [url]) ==
              Batch(urls + [url],
                    if r.err == None then SendEach(sent, from, urls).ids + [r.id] else SendEach(sent, from, urls).ids,
                    r.err)
  {
    assert (urls + [url])[..|urls|] == urls;
  }

  /** Once a batch fails, whatever would follow it is never sent. */
  lemma {:induction false} SendEachStops(sent: (nat, string) -> Sent, from: nat, urls: seq<string>, more: seq<string>)
    requires SendEach(sent, from, urls).err != None
    ensures SendEach(sent, from, urls + more) == SendEach(sent, from, urls)
    decreases |more|
  {
    if more == [] {
      assert urls + more == urls;
    } else {
      var m := more[..|more| - 1];
      assert (urls + more)[..|urls + more| - 1] == urls + m;
      SendEachStops(sent, from, urls, m);
    }
  }

  /** The batch of the first `i + 1` URLs, from that of the first `i`. */
  lemma SendEachStep(sent: (nat, string) -> Sent, from: nat, urls: seq<string>, i: nat, ids: seq<Strconv.Int64>, r: Sent)
    requires i < |urls| && SendEach(sent, from, urls[..i]) == Batch(urls[..i], ids, None)
    requires r == sent(from + i, urls[i])
    ensures SendEach(sent, from, urls[..i + 1]) == Batch(urls[..i + 1], if r.err == None then ids + [r.id] else ids, r.err)
  {
    assert urls[..i + 1] == urls[..i] + [urls[i]];
    SendEachSnoc(sent, from, urls[..i], urls[i]);
  }

  /** A batch whose first `i` URLs already fail is that failed prefix. */
  lemma SendEachFailsAt(sent: (nat, string) -> Sent, from: nat, urls: seq<string>, i: nat)
    requires i <= |urls| && SendEach(sent, from, urls[..i]).err != None
    ensures SendEach(sent, from, urls) == SendEach(sent, from, urls[..i])
  {
    SendEachStops(sent, from, urls[..i], urls[i..]);
    assert urls[..i] + urls[i..] == urls;
  }

  /** The `i`-th request fails after all before it went through: the batch ends there. */
  lemma SendEachFailure(sent: (nat, string) -> Sent, from: nat, urls: seq<string>, i: nat, ids: seq<Strconv.Int64>,
                        at: nat, r: Sent)
    requires i < |urls| && SendEach(sent, from, urls[..i]) == Batch(urls[..i], ids, None)
    requires at == from + i && r == sent(at, urls[i]) && r.err != None
    ensures SendEach(sent, from, urls) == Batch(urls[..i + 1], ids, r.err)
  {
    SendEachStep(sent, from, urls, i, ids, r);
    SendEachFailsAt(sent, from, urls, i + 1);
  }

  /** The `i`-th request goes through after all before it did: its id is kept. */
  lemma SendEachSuccess(sent: (nat, string) -> Sent, from: nat, urls: seq<string>, i: nat, ids: seq<Strconv.Int64>,
                        at: nat, r: Sent)
    requires i < |urls| && SendEach(sent, from, urls[..i]) == Batch(urls[..i], ids, None)
    requires at == from + i && r == sent(at, urls[i]) && r.err == None
    ensures SendEach(sent, from, urls[..i + 1]) == Batch(urls[..i + 1], ids + [r.id], None)
  {
    SendEachStep(sent, from, urls, i, ids, r);
  }

  /** The replies of a transport as `classify` reports them. */
  function Reported<R>(respond: (nat, string) -> R, classify: R -> Sent): (nat, string) -> Sent {
    (i: nat, url: string) => classify(respond(i, url))
  }

  /** `send`: one request through the client, then the classification of its reply. */
  method Send<R>(client: Http.Client<string, R>, classify: R -> Sent, url: string) returns (r: Sent)
    modifies client
    ensures client.log == old(client.log) + [url]
    ensures r == Reported(client.respond, classify)(|old(client.log)|, url)
  {
    var reply := client.Do(url);
    r := classify(reply);
  }

  /**
   * Sends `urls` over `client` one at a time, stopping at the first request
   * whose reply `classify` reports as an error: the loop of `SendMessage`,
   * once over the notifies and once over the posts.
   */
  method SendAll<R>(client: Http.Client<string, R>, classify: R -> Sent, urls: seq<string>) returns (b: Batch)
    modifies client
    ensures b == SendEach(Reported(client.respond, classify), |old(client.log)|, urls)
    ensures client.log == old(client.log) + b.issued
  {
    ghost var log0 := client.log;
    ghost var from := |log0|;
    ghost var sent := Reported(client.respond, classify);
    var ids := [];
    for i := 0 to |urls|
      invariant client.log == log0 + urls[..i]
      invariant SendEach(sent, from, urls[..i]) == Batch(urls[..i], ids, None)
    {
      ghost var at := |client.log|;
      var r := Send(client, classify, urls[i]);
      assert urls[..i + 1] == urls[..i] + [urls[i]];
      if r.err != None {
        SendEachFailure(sent, from, urls, i, ids, at, r);
        return Batch(urls[..i + 1], ids, r.err);
      }
      SendEachSuccess(sent, from, urls, i, ids, at, r);
      ids := ids + [r.id];
    }
    assert urls[..|urls|] == urls;
    return Batch(urls, ids, None);
  }

  /**
   * Regrouping a log of three parts; a lemma of its own so that the methods
   * that use it do not reason about sequence equality themselves.
   */
  lemma AppendAssoc<T>(a: seq<T>, b: seq<T>, c: seq<T>)
    ensures a + b + c == a + (b + c)
  {
  }

  /** Two batches, the second sent only when the first went through. */
  datatype Phases = Phases(first: Batch, second: Batch) {
    function Issued(): seq<string> { first.issued + second.issued }
    function Err(): Option<string> { if first.err != None then first.err else second.err }
  }

  function SendPhases(sent: (nat, string) -> Sent, from: nat, first: seq<string>, second: seq<string>): (p: Phases)
    ensures p.Issued() <= first + second
    ensures p.Err() == None ==> p.Issued() == first + second
    ensures p.first == SendEach(sent, from, first)
    ensures p.first.err != None ==> p.second == Batch([], [], None)
  {
    var b := SendEach(sent, from, first);
    if b.err != None then Phases(b, Batch([], [], None))
    else Phases(b, SendEach(sent, from + |first|, second))
  }

  /** The first batch failed: the second is never sent. */
  lemma PhasesStopped(sent: (nat, string) -> Sent, from: nat, first: seq<string>, second: seq<string>, b1: Batch)
    requires b1 == SendEach(sent, from, first) && b1.err != None
    ensures SendPhases(sent, from, first, second) == Phases(b1, Batch([], [], None))
  {
  }

  /** Both batches once known: the second starts where the first ended. */
  lemma PhasesThrough(sent: (nat, string) -> Sent, from: nat, first: seq<string>, second: seq<string>,
                      mid: nat, b1: Batch, b2: Batch)
    requires b1 == SendEach(sent, from, first) && b1.err == None
    requires mid == from + |first| && b2 == SendEach(sent, mid, second)
    ensures SendPhases(sent, from, first, second) == Phases(b1, b2)
  {
  }

  /**
   * Abort on the first failure: every request issued before the last one
   * went through, the last one too when there is no error, and otherwise the
   * error is the last request's.
   */
  lemma PhasesAbort(sent: (nat, string) -> Sent, from: nat, first: seq<string>, second: seq<string>,
                    issued: seq<string>, err: Option<string>)
    requires issued == SendPhases(sent, from, first, second).Issued()
    requires err == SendPhases(sent, from, first, second).Err()
    ensures err != None ==> |issued| >= 1 && err == sent(from + |issued| - 1, issued[|issued| - 1]).err
    ensures forall k :: 0 <= k < |issued| && (k < |issued| - 1 || err == None) ==>
      sent(from + k, issued[k]).err == None
  {
    var p := SendPhases(sent, from, first, second);
    forall k | 0 <= k < |issued| && (k < |issued| - 1 || err == None)
      ensures sent(from + k, issued[k]).err == None
    {
      if k < |p.first.issued| {
        assert issued[k] == first[k];
        assert sent(from + k, first[k]) == Sent(p.first.ids[k], None);
      } else {
        var j := k - |p.first.issued|;
        assert issued[k] == second[j];
        assert sent(from + |first| + j, second[j]) == Sent(p.second.ids[j], None);
      }
    }
    if err != None && p.first.err == None {
      assert issued[|issued| - 1] == second[|p.second.issued| - 1];
    }
  }

  /**
   * The ids of the second batch are the ids its requests' replies carried,
   * one per request that went through, in order.
   */
  lemma PhasesSecondIds(sent: (nat, string) -> Sent, from: nat, first: seq<string>, second: seq<string>,
                        issued: seq<string>, err: Option<string>, ids: seq<Strconv.Int64>)
    requires issued == SendPhases(sent, from, first, second).Issued()
    requires err == SendPhases(sent, from, first, second).Err()
    requires ids == SendPhases(sent, from, first, second).second.ids
    ensures |issued| <= |first| ==> ids == []
    ensures |issued| > |first| ==> |ids| == |issued| - |first| - (if err == None then 0 else 1)
    ensures forall j :: |first| <= j < |first| + |ids| ==>
      j < |issued| && sent(from + j, issued[j]) == Sent(ids[j - |first|], None)
  {
    var p := SendPhases(sent, from, first, second);
    if p.first.err == None {
      forall j | |first| <= j < |first| + |ids|
        ensures j < |issued| && sent(from + j, issued[j]) == Sent(ids[j - |first|], None)
      {
        var k := j - |first|;
        assert issued[j] == second[k];
        assert sent(from + |first| + k, second[k]) == Sent(ids[k], None);
      }
    }
  }

  /** `PhasesSecondIds` at one position: the `k`-th id of the second batch came from request `j`. */
  lemma PhasesSecondIdAt(sent: (nat, string) -> Sent, from: nat, first: seq<string>, second: seq<string>,
                         p: Phases, k: nat, j: nat, at: nat)
    requires p == SendPhases(sent, from, first, second) && k < |p.second.ids|
    requires j == |first| + k && at == from + j
    ensures j < |p.Issued()| && sent(at, p.Issued()[j]) == Sent(p.second.ids[k], None)
  {
    PhasesSecondIds(sent, from, first, second, p.Issued(), p.Err(), p.second.ids);
  }
}
