/**
 The two renderer clients: each call is bracketed by its own breaker, one question before and at most one recorded
 outcome after (internal/worker/renderer_client.go, internal/worker/grpc_renderer_client.go).
 */
module RendererClients {
  import opened Basics
  import opened CircuitBreaker

  /** What a call meets: its two clock readings, and how far the request gets. */
  datatype HttpReply = NoConnection | Truncated | Answered(code: int, body: Option<string>)

  /** `encodes`: the request has a JSON form, which it lacks only if a coordinate or an opacity is NaN or infinite. */
  datatype HttpCall = HttpCall(askedAt: int, doneAt: int, encodes: bool, reply: HttpReply)

  datatype RenderResult = Rendered(response: string) | Refused | NotSent | RendererError

  /** The recorded outcome of an admitted call: none before the request is sent, otherwise exactly one. */
  function HttpOutcome(c: HttpCall, urlParses: bool): Outcome {
    if !c.encodes || !urlParses then NoRecord
    else if c.reply.Answered? && c.reply.code == 200 && c.reply.body.Some? then Worked
    else Broke(c.doneAt)
  }

  /** Recommended settings: three failures, thirty seconds (in nanoseconds). */
  function NewBreaker(): Breaker {
    New(3, 30_000_000_000)
  }

  class RendererClient {
    const cb: Circuit
    /** The configured base URL can be parsed. It is fixed for the life of the client. */
    const urlParses: bool

    constructor (urlParses: bool)
      ensures fresh(cb) && cb.View() == NewBreaker() && this.urlParses == urlParses
      ensures cb.state == Closed && cb.failureCount == 0 && cb.failureThreshold == 3
      ensures cb.cooldownPeriod == 30_000_000_000
    {
      this.cb := new Circuit(3, 30_000_000_000);
      this.urlParses := urlParses;
    }

    method Render(c: HttpCall) returns (r: RenderResult)
      modifies cb
      ensures cb.View() == Called(old(cb.View()), Call(c.askedAt, HttpOutcome(c, urlParses)))
      ensures r.Refused? <==> !Admits(old(cb.View()), c.askedAt)
      ensures r.Rendered? <==> !r.Refused? && HttpOutcome(c, urlParses) == Worked
      ensures r.Rendered? ==> c.reply.body == Some(r.response) && cb.state == Closed && cb.failureCount == 0
      ensures r.NotSent? <==> !r.Refused? && HttpOutcome(c, urlParses) == NoRecord
      ensures var admitted := old(cb.state) == Open ==> c.askedAt - old(cb.lastFailureTime) > cb.cooldownPeriod;
              var sent := admitted && c.encodes && urlParses;
              var good := sent && c.reply.Answered? && c.reply.code == 200 && c.reply.body.Some?;
              && (r.Refused? <==> !admitted)
              && (r.NotSent? <==> admitted && !sent)
              && (r.RendererError? <==> sent && !good)
              && (if good then r == Rendered(c.reply.body.value) else !r.Rendered?)
              && (good ==> cb.state == Closed && cb.failureCount == 0 && cb.lastFailureTime == old(cb.lastFailureTime))
              && (sent && !good ==> cb.failureCount == old(cb.failureCount) + 1 && cb.lastFailureTime == c.doneAt)
              && (sent && !good ==>
                  (cb.state == Open <==> old(cb.state) != Closed || cb.failureCount >= cb.failureThreshold))
              && (!sent ==> cb.failureCount == old(cb.failureCount) && cb.lastFailureTime == old(cb.lastFailureTime))
              && (!sent ==> cb.state == if admitted && old(cb.state) == Open then HalfOpen else old(cb.state))
    {
      var ok := cb.Allow(c.askedAt);
      if !ok {
        return Refused;
      }
      if !c.encodes {
        return NotSent;
      }
      if !urlParses {
        return NotSent;
      }
      if c.reply.NoConnection? {
        cb.RecordFailure(c.doneAt);
        return RendererError;
      }
      if c.reply.Truncated? {
        cb.RecordFailure(c.doneAt);
        return RendererError;
      }
      if c.reply.code != 200 {
        cb.RecordFailure(c.doneAt);
        return RendererError;
      }
      if c.reply.body.None? {
        cb.RecordFailure(c.doneAt);
        return RendererError;
      }
      cb.RecordSuccess();
      return Rendered(c.reply.body.value);
    }
  }

  datatype Layer = Layer(url: string, name: string, opacity: real)

  /** The protobuf message of a layer carries the fields in the same order. */
  datatype WmsLayer = WmsLayer(url: string, name: string, opacity: real)

  function FromProto(l: WmsLayer): Layer {
    Layer(l.url, l.name, l.opacity)
  }

  class GRPCRendererClient {
    const cb: Circuit

    constructor ()
      ensures fresh(cb) && cb.View() == NewBreaker()
      ensures cb.state == Closed && cb.failureCount == 0 && cb.failureThreshold == 3
      ensures cb.cooldownPeriod == 30_000_000_000
    {
      cb := new Circuit(3, 30_000_000_000);
    }

    /** The request's layers, message by message: reading them back gives the layers that were sent, in order. */
    static method ToProto(layers: seq<Layer>) returns (out: seq<WmsLayer>)
      ensures |out| == |layers|
      ensures forall i :: 0 <= i < |layers| ==> FromProto(out[i]) == layers[i]
      ensures forall i :: 0 <= i < |layers| ==>
                out[i].url == layers[i].url && out[i].name == layers[i].name && out[i].opacity == layers[i].opacity
    {
      out := [];
      for i := 0 to |layers|
        invariant |out| == i
        invariant forall j :: 0 <= j < i ==> FromProto(out[j]) == layers[j]
        invariant forall j :: 0 <= j < i ==>
                    out[j].url == layers[j].url && out[j].name == layers[j].name && out[j].opacity == layers[j].opacity
      {
        out := out + [WmsLayer(layers[i].url, layers[i].name, layers[i].opacity)];
      }
    }

    /** Nothing can stop an admitted call before it is sent, so every admitted call records an outcome. */
    method Render(layers: seq<Layer>, askedAt: int, doneAt: int, reply: Option<string>)
        returns (r: RenderResult, sent: seq<WmsLayer>)
      modifies cb
      ensures cb.View() == Called(old(cb.View()), Call(askedAt, if reply.Some? then Worked else Broke(doneAt)))
      ensures r.Refused? <==> !Admits(old(cb.View()), askedAt)
      ensures !r.Refused? ==> |sent| == |layers|
      ensures !r.Refused? ==> forall i :: 0 <= i < |layers| ==>
                sent[i].url == layers[i].url && sent[i].name == layers[i].name && sent[i].opacity == layers[i].opacity
      ensures !r.Refused? ==> r == if reply.Some? then Rendered(reply.value) else RendererError
      ensures var admitted := old(cb.state) == Open ==> askedAt - old(cb.lastFailureTime) > cb.cooldownPeriod;
              && (r.Refused? <==> !admitted)
              && (admitted && reply.Some? ==> cb.state == Closed && cb.failureCount == 0)
              && (admitted && reply.None? ==>
                  && cb.failureCount == old(cb.failureCount) + 1 && cb.lastFailureTime == doneAt
                  && (cb.state == Open <==> old(cb.state) != Closed || cb.failureCount >= cb.failureThreshold))
              && (!admitted ==> cb.state == Open && cb.failureCount == old(cb.failureCount))
    {
      sent := [];
      var ok := cb.Allow(askedAt);
      if !ok {
        return Refused, sent;
      }
      sent := ToProto(layers);
      if reply.None? {
        cb.RecordFailure(doneAt);
        return RendererError, sent;
      }
      cb.RecordSuccess();
      return Rendered(reply.value), sent;
    }
  }

  /** The breaker of one client after a sequence of calls. */
  function AfterHttp(urlParses: bool, calls: seq<HttpCall>): Breaker {
    if calls == [] then NewBreaker()
    else
      var c := calls[|calls| - 1];
      Called(AfterHttp(urlParses, calls[..|calls| - 1]), Call(c.askedAt, HttpOutcome(c, urlParses)))
  }

  /** The call was let through, and its end left no trace in the breaker. */
  predicate Unsent(urlParses: bool, before: seq<HttpCall>, c: HttpCall) {
    Admits(AfterHttp(urlParses, before), c.askedAt) && HttpOutcome(c, urlParses) == NoRecord
  }

  lemma {:induction false} UnparsableNeverSends(calls: seq<HttpCall>)
    ensures AfterHttp(false, calls) == NewBreaker()
  {
    if calls != [] {
      UnparsableNeverSends(calls[..|calls| - 1]);
    }
  }

  /**
   The early returns that record nothing do no harm: for requests that have a JSON form, an admitted call ends without
   an outcome if and only if the client's URL cannot be parsed, and the breaker of such a client is CLOSED and without
   failures for ever. So no call leaves HALF_OPEN undecided.
   */
  lemma UnsentOnlyWhileClosed(urlParses: bool, before: seq<HttpCall>, c: HttpCall)
    requires c.encodes
    ensures Unsent(urlParses, before, c) <==> !urlParses
    ensures Unsent(urlParses, before, c) ==> AfterHttp(urlParses, before) == NewBreaker()
  {
    if !urlParses {
      UnparsableNeverSends(before);
    }
  }
}
