/** UigClient: posts a request document to the broker over HTTP, trying again
    when an attempt throws, at most three attempts in all. The HTTP exchange of
    one attempt is supplied by the caller as a `Network`. */
module Uig {
  import opened Lang

  /** Attempts made before a thrown exception is passed on. */
  const MaxSendTimes: nat := 3
  const StatusOk: int := 200
  const ConnectionTimeoutMs: nat := 15000
  const SoTimeoutMs: nat := 15000

  /** What one attempt hands to the HTTP library. */
  datatype PostRequest = PostRequest(
    url: JString,
    headers: seq<(string, string)>,
    body: string,
    connectionTimeoutMs: nat,
    soTimeoutMs: nat,
    contentCharset: string)

  /** How one attempt ends: creating the post method throws (so there is no
      connection to release), a later step throws, or the server answers with
      a status and, for that status, a body (`getResponseBodyAsString` may give null). */
  datatype Attempt = PostNotCreated(e: Exception) | Failed(e: Exception) | Answered(status: int, body: JString)
  {
    predicate Threw() { !Answered? }
  }

  /** The outcome of attempt number `n` (counting from 1) for a request. */
  type Network = (nat, PostRequest) -> Attempt

  /** The post method every attempt builds for `body`. */
  function NewPost(url: JString, charSet: string, body: string): (p: PostRequest)
    ensures p.url == url && p.body == body && p.contentCharset == charSet
  {
    PostRequest(url,
      [("Content-type", "text/xml; charset=" + charSet), ("Connection", "close"),
       ("Accept", "text/plain;charset=utf-8")],
      body, ConnectionTimeoutMs, SoTimeoutMs, charSet)
  }

  /** The number of attempts that created a post method, each of which
      releases its connection once. */
  function Created(outcomes: seq<Attempt>): (n: nat)
    ensures n <= |outcomes|
  {
    if outcomes == [] then 0
    else (if outcomes[0].PostNotCreated? then 0 else 1) + Created(outcomes[1..])
  }

  /** A whole exchange: what `requestService` returns or throws, the outcome of
      every attempt in order, and how many connections were released. */
  datatype Exchange = Exchange(result: Result<JString, Exception>, outcomes: seq<Attempt>, released: nat)

  /** `postMessage(xml, sendTimes)`: attempt number `sendTimes + 1`, then, if it
      threw and fewer than three attempts were made, the next one. */
  function PostMessage(url: JString, charSet: string, xml: string, net: Network, sendTimes: nat): (x: Exchange)
    requires sendTimes < MaxSendTimes
    decreases MaxSendTimes - sendTimes
    ensures 1 <= |x.outcomes| <= MaxSendTimes - sendTimes
  {
    var n := sendTimes + 1;
    var post := NewPost(url, charSet, xml);
    var outcome := net(n, post);
    if outcome.Answered? then
      Exchange(Ok(if outcome.status == StatusOk then outcome.body else Str("")), [outcome], 1)
    else
      var release := if outcome.PostNotCreated? then 0 else 1;
      if n < MaxSendTimes then
        var rest := PostMessage(url, charSet, xml, net, n);
        Exchange(rest.result, [outcome] + rest.outcomes, release + rest.released)
      else
        Exchange(Err(outcome.e), [outcome], release)
  }

  /** Every attempt posts the same request, attempt k (counting from
      `sendTimes + 1`) getting the network's k-th outcome, and every attempt
      but the last threw. */
  lemma {:induction false} PostMessageAttempts(url: JString, charSet: string, xml: string, net: Network, sendTimes: nat)
    requires sendTimes < MaxSendTimes
    decreases MaxSendTimes - sendTimes
    ensures var x := PostMessage(url, charSet, xml, net, sendTimes);
      && (forall k :: 0 <= k < |x.outcomes| ==>
            x.outcomes[k] == net(sendTimes + k + 1, NewPost(url, charSet, xml)))
      && (forall k :: 0 <= k < |x.outcomes| - 1 ==> x.outcomes[k].Threw())
  {
    var o := net(sendTimes + 1, NewPost(url, charSet, xml));
    PostMessageUnfold(url, charSet, xml, net, sendTimes);
    if o.Threw() && sendTimes + 1 < MaxSendTimes {
      var rest := PostMessage(url, charSet, xml, net, sendTimes + 1);
      PostMessageAttempts(url, charSet, xml, net, sendTimes + 1);
      var os := [o] + rest.outcomes;
      assert forall k :: 1 <= k < |os| ==> os[k] == rest.outcomes[k - 1];
    }
  }

  /** How the exchange ends: an answer ends it, with the body for status 200 and
      the empty string for any other status; a thrown exception ends it only
      at the third attempt, and is passed on. One connection is released per
      attempt whose post method was created. */
  lemma {:induction false} PostMessageResult(url: JString, charSet: string, xml: string, net: Network, sendTimes: nat)
    requires sendTimes < MaxSendTimes
    decreases MaxSendTimes - sendTimes
    ensures var x := PostMessage(url, charSet, xml, net, sendTimes);
      var last := x.outcomes[|x.outcomes| - 1];
      && (last.Answered? ==>
            x.result == Ok(if last.status == StatusOk then last.body else Str("")))
      && (last.Threw() ==> sendTimes + |x.outcomes| == MaxSendTimes && x.result == Err(last.e))
      && x.released == Created(x.outcomes)
  {
    var o := net(sendTimes + 1, NewPost(url, charSet, xml));
    PostMessageUnfold(url, charSet, xml, net, sendTimes);
    if o.Threw() && sendTimes + 1 < MaxSendTimes {
      var rest := PostMessage(url, charSet, xml, net, sendTimes + 1);
      PostMessageResult(url, charSet, xml, net, sendTimes + 1);
      var os := [o] + rest.outcomes;
      assert os[1..] == rest.outcomes;
      assert os[|os| - 1] == rest.outcomes[|rest.outcomes| - 1];
    }
  }

  /** The exchange depends on the network only through its answers to this
      one request at the attempts still to come. */
  lemma {:induction false} PostMessageSameNet(url: JString, charSet: string, xml: string,
    net: Network, net': Network, sendTimes: nat)
    requires sendTimes < MaxSendTimes
    requires forall k :: sendTimes < k <= MaxSendTimes ==>
      net(k, NewPost(url, charSet, xml)) == net'(k, NewPost(url, charSet, xml))
    decreases MaxSendTimes - sendTimes
    ensures PostMessage(url, charSet, xml, net, sendTimes) == PostMessage(url, charSet, xml, net', sendTimes)
  {
    if sendTimes + 1 < MaxSendTimes {
      PostMessageSameNet(url, charSet, xml, net, net', sendTimes + 1);
    }
  }

  /** One attempt of `postMessage`: its outcome, then the rest of the exchange. */
  lemma PostMessageUnfold(url: JString, charSet: string, xml: string, net: Network, sendTimes: nat)
    requires sendTimes < MaxSendTimes
    ensures var o := net(sendTimes + 1, NewPost(url, charSet, xml));
      var x := PostMessage(url, charSet, xml, net, sendTimes);
      && (o.Answered? ==> x == Exchange(Ok(if o.status == StatusOk then o.body else Str("")), [o], 1))
      && (o.Threw() && sendTimes + 1 == MaxSendTimes ==>
            x == Exchange(Err(o.e), [o], if o.PostNotCreated? then 0 else 1))
      && (o.Threw() && sendTimes + 1 < MaxSendTimes ==>
            var rest := PostMessage(url, charSet, xml, net, sendTimes + 1);
            x == Exchange(rest.result, [o] + rest.outcomes,
              (if o.PostNotCreated? then 0 else 1) + rest.released))
  {
  }

  /** `outcomes` and `released` so far, followed by the exchange from attempt
      `sendTimes + 1` on, make up the whole exchange. */
  ghost predicate Resumes(url: JString, charSet: string, xml: string, net: Network,
    sendTimes: nat, outcomes: seq<Attempt>, released: nat)
    requires sendTimes < MaxSendTimes
  {
    var rest := PostMessage(url, charSet, xml, net, sendTimes);
    PostMessage(url, charSet, xml, net, 0) ==
      Exchange(rest.result, outcomes + rest.outcomes, released + rest.released)
  }

  /** One turn of the retry loop keeps `Resumes`, or ends the whole exchange. */
  lemma ResumesStep(url: JString, charSet: string, xml: string, net: Network,
    sendTimes: nat, outcomes: seq<Attempt>, released: nat)
    requires sendTimes < MaxSendTimes
    requires Resumes(url, charSet, xml, net, sendTimes, outcomes, released)
    ensures var o := net(sendTimes + 1, NewPost(url, charSet, xml));
      var released' := released + if o.PostNotCreated? then 0 else 1;
      && (o.Answered? ==>
            PostMessage(url, charSet, xml, net, 0) ==
              Exchange(Ok(if o.status == StatusOk then o.body else Str("")), outcomes + [o], released'))
      && (o.Threw() && sendTimes + 1 == MaxSendTimes ==>
            PostMessage(url, charSet, xml, net, 0) == Exchange(Err(o.e), outcomes + [o], released'))
      && (o.Threw() && sendTimes + 1 < MaxSendTimes ==>
            Resumes(url, charSet, xml, net, sendTimes + 1, outcomes + [o], released'))
  {
    var o := net(sendTimes + 1, NewPost(url, charSet, xml));
    PostMessageUnfold(url, charSet, xml, net, sendTimes);
    if o.Threw() && sendTimes + 1 < MaxSendTimes {
      var rest := PostMessage(url, charSet, xml, net, sendTimes + 1);
      assert outcomes + ([o] + rest.outcomes) == (outcomes + [o]) + rest.outcomes;
    }
  }

  class UigClient {
    const url: JString
    const charSet: string

    constructor (url: JString)
      ensures this.url == url && charSet == "utf-8"
    {
      this.url := url;
      charSet := "utf-8";
    }

    /** `requestService(xml)`: attempts in turn, counting them from 1, until one
        does not throw or the third has thrown. Returns the result, the outcome
        of each attempt and the number of released connections. */
    method RequestService(xml: string, net: Network)
      returns (r: Result<JString, Exception>, outcomes: seq<Attempt>, released: nat)
      ensures PostMessage(url, charSet, xml, net, 0) == Exchange(r, outcomes, released)
    {
      var sendTimes: nat := 0;
      outcomes := [];
      released := 0;
      while true
        invariant sendTimes < MaxSendTimes && |outcomes| == sendTimes
        invariant Resumes(url, charSet, xml, net, sendTimes, outcomes, released)
        decreases MaxSendTimes - sendTimes
      {
        ResumesStep(url, charSet, xml, net, sendTimes, outcomes, released);
        sendTimes := sendTimes + 1;
        var post := NewPost(url, charSet, xml);
        var outcome := net(sendTimes, post);
        outcomes := outcomes + [outcome];
        match outcome {
          case Answered(status, body) =>
            var resultMsg := Str("");
            if status == StatusOk {
              resultMsg := body;
            }
            released := released + 1;
            return Ok(resultMsg), outcomes, released;
          case Failed(e) =>
            released := released + 1;
            if sendTimes >= MaxSendTimes {
              return Err(e), outcomes, released;
            }
          case PostNotCreated(e) =>
            if sendTimes >= MaxSendTimes {
              return Err(e), outcomes, released;
            }
        }
      }
    }
  }
}
