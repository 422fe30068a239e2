/**
 * The stateful steps around the gateway's requests and connections: the
 * per-request trace id written on the shared logger and on the response, the
 * HTTP execution context, the modern server's teardown of a closed
 * connection's subscription iterators, and the legacy server's socket ids and
 * operation contexts.
 */
module Connections {
  import opened Wrappers
  import opened JsValues

  // ---------------------------------------------------------------- trace id

  /** `uuid().slice(0, 8)`: the first eight characters of the generated id, or all of a shorter one. */
  function TraceIdOf(freshId: string): (t: string)
    ensures |t| == if |freshId| < 8 then |freshId| else 8
    ensures t == freshId[..|t|]
  {
    if |freshId| <= 8 then freshId else freshId[..8]
  }

  /** The logger shared by every request; it remembers the last trace id set on it. */
  class Logger {
    var traceId: Option<string>

    constructor()
      ensures traceId == None
    {
      traceId := None;
    }

    method SetTraceId(t: string)
      modifies this
      ensures traceId == Some(t)
    {
      traceId := Some(t);
    }

    function GetTraceId(): Option<string>
      reads this
    {
      traceId
    }
  }

  /** The HTTP response: its headers and the `locals` the authentication middleware fills in. */
  class HttpResponse {
    var headers: map<string, string>
    var locals: JsValue

    constructor(locals: JsValue)
      ensures headers == map[] && this.locals == locals
    {
      headers := map[];
      this.locals := locals;
    }

    method SetHeader(name: string, value: string)
      modifies this
      ensures headers == old(headers)[name := value] && locals == old(locals)
    {
      headers := headers[name := value];
    }
  }

  /** The first middleware on the query route: a short trace id on the logger and in `X-WaveTraceId`. */
  method TraceStep(freshId: string, logger: Logger, res: HttpResponse) returns (traceId: string)
    modifies logger, res
    ensures traceId == TraceIdOf(freshId)
    ensures logger.traceId == Some(traceId)
    ensures res.headers == old(res.headers)["X-WaveTraceId" := traceId]
    ensures res.locals == old(res.locals)
  {
    traceId := TraceIdOf(freshId);
    logger.SetTraceId(traceId);
    res.SetHeader("X-WaveTraceId", traceId);
  }

  /** The properties of the authenticated user copied into the execution context. */
  const AuthKeys: set<string> := {"user", "roles", "access"}

  /**
   * The context handed to the executor: `user`, `roles` and `access` of
   * `locals?.user || {}`, each defaulting to `null`, and the logger's trace id.
   */
  function RequestContext(locals: JsValue, traceId: Option<string>): (ctx: map<string, JsValue>)
    ensures ctx.Keys == AuthKeys + {"traceId"}
    ensures forall k :: k in AuthKeys ==> ctx[k] != Undefined
    ensures var u := Prop(locals, "user");
      forall k :: k in AuthKeys ==>
        (ctx[k] == Null || (u.Obj? && k in u.fields && ctx[k] == u.fields[k]))
        && (u.Obj? && k in u.fields && u.fields[k] != Undefined ==> ctx[k] == u.fields[k])
    ensures !Truthy(Prop(locals, "user")) ==> forall k :: k in AuthKeys ==> ctx[k] == Null
    ensures ctx["traceId"] == if traceId.Some? then Str(traceId.value) else Undefined
  {
    var u := Or(Prop(locals, "user"), Obj(map[]));
    map["user" := DefaultNull(Prop(u, "user")),
        "roles" := DefaultNull(Prop(u, "roles")),
        "access" := DefaultNull(Prop(u, "access")),
        "traceId" := if traceId.Some? then Str(traceId.value) else Undefined]
  }

  /**
   * The query route up to execution: the trace step, then the context built
   * from the response's locals and the logger. The context and the response
   * header carry the same trace id when no other request runs in between.
   */
  method HandleQuery(freshId: string, logger: Logger, res: HttpResponse) returns (ctx: map<string, JsValue>)
    modifies logger, res
    ensures ctx == RequestContext(old(res.locals), Some(TraceIdOf(freshId)))
    ensures "X-WaveTraceId" in res.headers && ctx["traceId"] == Str(res.headers["X-WaveTraceId"])
  {
    var traceId := TraceStep(freshId, logger, res);
    ctx := RequestContext(res.locals, logger.GetTraceId());
  }

  // ---------------------------------------------------------------- modern server: teardown on close

  /** A subscription's async iterator; `hasReturn` says whether it has a `return` method. */
  class SubscriptionStream {
    const hasReturn: bool
    var returnCalls: nat

    constructor(hasReturn: bool)
      ensures this.hasReturn == hasReturn && returnCalls == 0
    {
      this.hasReturn := hasReturn;
      returnCalls := 0;
    }

    method Return()
      requires hasReturn
      modifies this
      ensures returnCalls == old(returnCalls) + 1
    {
      returnCalls := returnCalls + 1;
    }
  }

  /** One entry of `ctx.subscriptions`: its key and its iterator, `None` for a falsy value. */
  datatype SubEntry = SubEntry(key: string, sub: Option<SubscriptionStream>)

  predicate Closes(e: SubEntry)
  {
    e.sub.Some? && e.sub.value.hasReturn
  }

  function Streams(entries: seq<SubEntry>): set<SubscriptionStream>
  {
    set i | 0 <= i < |entries| && entries[i].sub.Some? :: entries[i].sub.value
  }

  /** The keys, in entry order, whose iterator has `return` called on it. */
  function ClosedKeys(entries: seq<SubEntry>): (keys: seq<string>)
    ensures |keys| <= |entries|
  {
    if |entries| == 0 then []
    else
      var last := entries[|entries| - 1];
      ClosedKeys(entries[..|entries| - 1]) + (if Closes(last) then [last.key] else [])
  }

  /** How many entries hold the iterator `s` and close it. */
  function CallsOn(entries: seq<SubEntry>, s: SubscriptionStream): nat
  {
    if |entries| == 0 then 0
    else
      var last := entries[|entries| - 1];
      CallsOn(entries[..|entries| - 1], s) + (if Closes(last) && last.sub.value == s then 1 else 0)
  }

  /** `onClose`: every subscription iterator that has `return` gets it called, in entry order. */
  method OnClose(subscriptions: Option<seq<SubEntry>>) returns (closed: seq<string>)
    modifies if subscriptions.Some? then Streams(subscriptions.value) else {}
    ensures subscriptions.None? ==> closed == []
    ensures subscriptions.Some? ==> closed == ClosedKeys(subscriptions.value)
    ensures subscriptions.Some? ==>
      forall s :: s in Streams(subscriptions.value) ==>
        s.returnCalls == old(s.returnCalls) + CallsOn(subscriptions.value, s)
  {
    closed := [];
    if subscriptions.None? {
      return;
    }
    var entries := subscriptions.value;
    var i := 0;
    while i < |entries|
      invariant 0 <= i <= |entries|
      invariant closed == ClosedKeys(entries[..i])
      invariant forall s :: s in Streams(entries) ==> s.returnCalls == old(s.returnCalls) + CallsOn(entries[..i], s)
    {
      var e := entries[i];
      assert entries[..i + 1][..i] == entries[..i];
      if e.sub.Some? {
        var stream := e.sub.value;
        assert stream in Streams(entries);
        if stream.hasReturn {
          stream.Return();
          closed := closed + [e.key];
        }
      }
      i := i + 1;
    }
    assert entries[..i] == entries;
  }

  /** The keys of the entries that close, and no other key. */
  lemma {:induction false} ClosedKeysExact(entries: seq<SubEntry>, k: string)
    ensures k in ClosedKeys(entries) <==> exists i :: 0 <= i < |entries| && Closes(entries[i]) && entries[i].key == k
  {
    if |entries| > 0 {
      var init := entries[..|entries| - 1];
      ClosedKeysExact(init, k);
      assert forall i :: 0 <= i < |init| ==> init[i] == entries[i];
    }
  }

  /** Each entry is counted against its own iterator only. */
  lemma {:induction false} CallsOnBound(entries: seq<SubEntry>, s: SubscriptionStream)
    ensures CallsOn(entries, s) <= |entries|
    ensures !s.hasReturn ==> CallsOn(entries, s) == 0
    ensures (forall i :: 0 <= i < |entries| ==> entries[i].sub != Some(s)) ==> CallsOn(entries, s) == 0
  {
    if |entries| > 0 {
      var init := entries[..|entries| - 1];
      CallsOnBound(init, s);
      assert forall i :: 0 <= i < |init| ==> init[i] == entries[i];
    }
  }

  /** Entries holding distinct iterators: the usual shape, one iterator per subscription. */
  predicate DistinctStreams(entries: seq<SubEntry>)
  {
    forall i, j :: 0 <= i < j < |entries| && entries[i].sub.Some? && entries[j].sub.Some? ==>
      entries[i].sub.value != entries[j].sub.value
  }

  /** With one iterator per subscription, `return` is called exactly once on each iterator that has it. */
  lemma {:induction false} ReturnCalledOnce(entries: seq<SubEntry>, s: SubscriptionStream)
    requires DistinctStreams(entries)
    requires s in Streams(entries)
    ensures CallsOn(entries, s) == if s.hasReturn then 1 else 0
  {
    var n := |entries|;
    var init := entries[..n - 1];
    assert forall i :: 0 <= i < |init| ==> init[i] == entries[i];
    var last := entries[n - 1];
    if last.sub == Some(s) {
      CallsOnBound(init, s);
    } else {
      var i :| 0 <= i < n && entries[i].sub.Some? && entries[i].sub.value == s;
      assert i < n - 1 && init[i].sub.Some?;
      ReturnCalledOnce(init, s);
    }
  }

  // ---------------------------------------------------------------- legacy server: socket ids and contexts

  /** A legacy-transport socket; `id` is written at connect. */
  class Socket {
    var id: Option<string>

    constructor()
      ensures id == None
    {
      id := None;
    }
  }

  /** `onConnect`: the socket gets the generated id and is handed back. */
  method OnConnect(socket: Socket, freshId: string) returns (r: Socket)
    modifies socket
    ensures r == socket && socket.id == Some(freshId)
  {
    socket.id := Some(freshId);
    r := socket;
  }

  /** `socket?.id`: `undefined` without a socket or before an id was assigned. */
  function SocketIdValue(socket: Socket?): (v: JsValue)
    reads socket
    ensures v == Undefined || (socket != null && socket.id.Some? && v == Str(socket.id.value))
    ensures socket != null && socket.id.Some? ==> v == Str(socket.id.value)
  {
    if socket != null && socket.id.Some? then Str(socket.id.value) else Undefined
  }

  /**
   * `onOperation`: the authentication context spread into a new object, then
   * `socketId`. A nullish authentication result spreads nothing.
   */
  function OperationContext(auth: Option<map<string, JsValue>>, socket: Socket?): (ctx: map<string, JsValue>)
    reads socket
    ensures "socketId" in ctx && ctx["socketId"] == SocketIdValue(socket)
    ensures forall k :: k != "socketId" ==> (k in ctx <==> auth.Some? && k in auth.value)
    ensures forall k :: k != "socketId" && k in ctx ==> auth.Some? && ctx[k] == auth.value[k]
  {
    var base := if auth.Some? then auth.value else map[];
    base["socketId" := SocketIdValue(socket)]
  }

  /** After connect, every operation on the socket carries its id, whatever the authentication context holds. */
  lemma SocketIdOverridesAuth(auth: map<string, JsValue>, socket: Socket, freshId: string)
    requires socket.id == Some(freshId)
    ensures OperationContext(Some(auth), socket)["socketId"] == Str(freshId)
    ensures forall k :: k in auth && k != "socketId" ==> OperationContext(Some(auth), socket)[k] == auth[k]
  {
  }

  /** Two sockets connected with different generated ids give their operations different socket ids. */
  lemma DistinctSocketIds(a1: Option<map<string, JsValue>>, a2: Option<map<string, JsValue>>,
                          s1: Socket, s2: Socket, id1: string, id2: string)
    requires s1.id == Some(id1) && s2.id == Some(id2) && id1 != id2
    ensures OperationContext(a1, s1)["socketId"] != OperationContext(a2, s2)["socketId"]
  {
  }
}
