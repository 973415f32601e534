/**
 * The pure decisions of the RPC session: rebuilding a structured error from
 * its wire record, telling stream-teardown errors apart, deciding whether an
 * RPC error is re-emitted, the fixed method table of the mirror service,
 * handler binding and the two call modes of every method. Framing and the
 * message encodings themselves belong to the RPC runtime and are not modelled.
 */
module Rpc {
  import opened Wrappers

  // ---------------------------------------------------------------------------
  // Error codec

  /** The RPCError record as decoded from the wire. */
  datatype ErrorRecord = ErrorRecord(message: string, code: string, errno: int, details: string)

  /** The Error object handed to the caller whose request failed. */
  datatype RemoteError = RemoteError(message: string, code: string, errno: int, details: string)

  /** What encode reads off an Error object to build the record. */
  function RecordOf(err: RemoteError): ErrorRecord {
    ErrorRecord(err.message, err.code, err.errno, err.details)
  }

  /** The error `errorEncoding.decode` builds from a record. */
  function ErrorOf(record: ErrorRecord): (err: RemoteError)
    ensures RecordOf(err) == record
  {
    RemoteError(record.message, record.code, record.errno, record.details)
  }

  /** Encoding an error and decoding the record gives back an error with the same four fields. */
  lemma ErrorRoundTrip(err: RemoteError)
    ensures ErrorOf(RecordOf(err)) == err
  {
  }

  /** `errorEncoding`: its decode also publishes how many bytes the record took (`decode.bytes`). */
  class ErrorEncoding {
    var bytes: nat

    constructor ()
      ensures bytes == 0
    {
      bytes := 0;
    }

    /**
     * `decode(buf, offset)`, given what the message decoder produced from the
     * buffer: the record and the number of bytes it consumed.
     */
    method Decode(record: ErrorRecord, consumed: nat) returns (err: RemoteError)
      modifies this
      ensures bytes == consumed
      ensures err.message == record.message && err.code == record.code
      ensures err.errno == record.errno && err.details == record.details
    {
      bytes := consumed;
      err := ErrorOf(record);
    }
  }

  // ---------------------------------------------------------------------------
  // Error forwarding

  /** An error raised inside the session; `id` stands for the object's identity. */
  datatype Fault = Fault(id: nat, message: string)

  const TeardownSuffix: string := " stream closed prematurely"
  const WritableClosed: string := "Writable" + TeardownSuffix
  const ReadableClosed: string := "Readable" + TeardownSuffix

  /** `isStreamError`: the error is one of the two stream-teardown errors. */
  predicate IsStreamError(err: Fault): (b: bool)
    ensures b ==> |err.message| == 8 + |TeardownSuffix| && err.message[8..] == TeardownSuffix
  {
    err.message == WritableClosed || err.message == ReadableClosed
  }

  /**
   * The session re-emits an RPC error when it is neither the error the raw
   * socket reported nor a stream teardown, or when someone listens for errors.
   */
  predicate ShouldEmit(err: Fault, rawSocketError: Option<Fault>, errorListeners: nat): (b: bool)
    ensures errorListeners > 0 ==> b
    ensures rawSocketError == Some(err) ==> (b <==> errorListeners > 0)
  {
    (rawSocketError != Some(err) && !IsStreamError(err)) || errorListeners > 0
  }

  /**
   * With nobody listening, exactly the socket's own error and the teardown
   * errors are swallowed; with a listener, nothing is.
   */
  lemma EmitRule(err: Fault, rawSocketError: Option<Fault>, errorListeners: nat)
    ensures errorListeners > 0 ==> ShouldEmit(err, rawSocketError, errorListeners)
    ensures errorListeners == 0 ==>
      (ShouldEmit(err, rawSocketError, errorListeners) <==>
        rawSocketError != Some(err) && err.message != WritableClosed && err.message != ReadableClosed)
  {
  }

  /** Only the two exact teardown messages count; any other text, however close, is not one. */
  lemma TeardownMessagesExact(err: Fault)
    requires err.message == "Writable stream closed" || err.message == "stream closed prematurely"
    ensures !IsStreamError(err)
    ensures ShouldEmit(err, None, 0)
  {
    assert |WritableClosed| == |ReadableClosed| == 8 + |TeardownSuffix| == 34;
  }

  /** The error-handling part of an HRPCSession. */
  class Session {
    var rawSocketError: Option<Fault>
    var errorListeners: nat
    var emitted: seq<Fault>

    constructor ()
      ensures rawSocketError == None && errorListeners == 0 && emitted == []
    {
      rawSocketError := None;
      errorListeners := 0;
      emitted := [];
    }

    /** The raw socket's 'error' handler: remember the error. */
    method OnSocketError(err: Fault)
      modifies this`rawSocketError
      ensures rawSocketError == Some(err)
    {
      rawSocketError := Some(err);
    }

    /** Someone subscribes to the session's 'error' event. */
    method AddErrorListener()
      modifies this`errorListeners
      ensures errorListeners == old(errorListeners) + 1
    {
      errorListeners := errorListeners + 1;
    }

    /**
     * The RPC stream's 'error' handler. A re-emitted error reaches the
     * listeners when there are any; with none, `emit('error')` throws it
     * out of the handler instead.
     */
    method OnRpcError(err: Fault) returns (thrown: Option<Fault>)
      modifies this`emitted
      ensures var emits := ShouldEmit(err, rawSocketError, errorListeners);
        && emitted == old(emitted) + (if emits && errorListeners > 0 then [err] else [])
        && thrown == (if emits && errorListeners == 0 then Some(err) else None)
    {
      thrown := None;
      if ShouldEmit(err, rawSocketError, errorListeners) {
        if errorListeners > 0 {
          emitted := emitted + [err];
        } else {
          thrown := Some(err);
        }
      }
    }
  }

  // ---------------------------------------------------------------------------
  // The mirror service's method table

  const ServiceId: nat := 1

  datatype MethodName = MirrorMethod | UnmirrorMethod | StatusMethod | ListMethod | StopMethod

  /** Payload encodings; `Null` is the runtime's "no payload". */
  datatype Encoding = MirrorRequest | MirrorStatus | ListResponse | Null

  datatype MethodDef = MethodDef(id: nat, request: Encoding, response: Encoding)

  function Definition(m: MethodName): (d: MethodDef)
    ensures 1 <= d.id <= 5
    ensures d.request == MirrorRequest <==> m in {MirrorMethod, UnmirrorMethod, StatusMethod}
    ensures d.request == Null <==> m in {ListMethod, StopMethod}
    ensures d.response == MirrorStatus <==> d.request == MirrorRequest
    ensures d.response == ListResponse <==> m == ListMethod
    ensures d.response == Null <==> m == StopMethod
  {
    match m
    case MirrorMethod => MethodDef(1, MirrorRequest, MirrorStatus)
    case UnmirrorMethod => MethodDef(2, MirrorRequest, MirrorStatus)
    case StatusMethod => MethodDef(3, MirrorRequest, MirrorStatus)
    case ListMethod => MethodDef(4, Null, ListResponse)
    case StopMethod => MethodDef(5, Null, Null)
  }

  /** The five method ids are pairwise distinct and cover 1 to 5. */
  lemma MethodIdsDistinct(m: MethodName, m': MethodName, id: nat)
    ensures Definition(m).id == Definition(m').id ==> m == m'
    ensures 1 <= id <= 5 ==> exists n :: Definition(n).id == id
  {
    if id == 1 { assert Definition(MirrorMethod).id == id; }
    if id == 2 { assert Definition(UnmirrorMethod).id == id; }
    if id == 3 { assert Definition(StatusMethod).id == id; }
    if id == 4 { assert Definition(ListMethod).id == id; }
    if id == 5 { assert Definition(StopMethod).id == id; }
  }

  /** A handler function bound to a dispatch context (`fn.bind(context)`). */
  datatype Bound = Bound(handler: nat, context: nat)

  /** A dispatch context: an object identity and the handler functions it carries. */
  datatype Context = Context(id: nat, handlers: map<MethodName, nat>)

  /** An outgoing request frame, as far as this layer decides it. */
  datatype Call<P> = Call(service: nat, methodId: nat, request: Encoding, response: Encoding,
                          expectsReply: bool, payload: Option<P>)

  /** One method object created by `service.defineMethod`. */
  class RpcMethod {
    const service: nat
    const definition: MethodDef
    var onrequest: Option<Bound>

    constructor (service: nat, definition: MethodDef)
      ensures this.service == service && this.definition == definition && onrequest == None
    {
      this.service := service;
      this.definition := definition;
      onrequest := None;
    }

    /** `request(data)`: a frame that expects a reply. */
    function Request<P>(data: Option<P>): (c: Call<P>)
      ensures c.service == service && c.methodId == definition.id && c.expectsReply && c.payload == data
      ensures c.request == definition.request && c.response == definition.response
    {
      Call(service, definition.id, definition.request, definition.response, true, data)
    }

    /** `requestNoReply(data)`: the same frame, sent fire-and-forget. */
    function RequestNoReply<P>(data: Option<P>): (c: Call<P>)
      ensures c == Request(data).(expectsReply := false)
    {
      Call(service, definition.id, definition.request, definition.response, false, data)
    }
  }

  /** HRPCServiceMirror: the five method objects of service 1. */
  class ServiceMirror {
    const mirror: RpcMethod
    const unmirror: RpcMethod
    const status: RpcMethod
    const list: RpcMethod
    const stop: RpcMethod

    function MethodFor(m: MethodName): RpcMethod {
      match m
      case MirrorMethod => mirror
      case UnmirrorMethod => unmirror
      case StatusMethod => status
      case ListMethod => list
      case StopMethod => stop
    }

    /** The method objects are distinct and each carries its table entry under service 1. */
    predicate Valid() {
      && mirror != unmirror && mirror != status && mirror != list && mirror != stop
      && unmirror != status && unmirror != list && unmirror != stop
      && status != list && status != stop && list != stop
      && forall m :: MethodFor(m).service == ServiceId && MethodFor(m).definition == Definition(m)
    }

    constructor ()
      ensures Valid()
      ensures fresh(mirror) && fresh(unmirror) && fresh(status) && fresh(list) && fresh(stop)
      ensures forall m :: MethodFor(m).onrequest == None
    {
      mirror := new RpcMethod(ServiceId, Definition(MirrorMethod));
      unmirror := new RpcMethod(ServiceId, Definition(UnmirrorMethod));
      status := new RpcMethod(ServiceId, Definition(StatusMethod));
      list := new RpcMethod(ServiceId, Definition(ListMethod));
      stop := new RpcMethod(ServiceId, Definition(StopMethod));
    }

    /**
     * `onRequest(context, handlers = context)`: bind each handler that is
     * present to the context; a method without one keeps its handler.
     */
    method OnRequest(context: Context, handlers: Option<map<MethodName, nat>>)
      requires Valid()
      modifies mirror, unmirror, status, list, stop
      ensures var given := if handlers.Some? then handlers.value else context.handlers;
        forall m :: MethodFor(m).onrequest ==
          if m in given then Some(Bound(given[m], context.id)) else old(MethodFor(m).onrequest)
    {
      var given := if handlers.Some? then handlers.value else context.handlers;
      if MirrorMethod in given { mirror.onrequest := Some(Bound(given[MirrorMethod], context.id)); }
      if UnmirrorMethod in given { unmirror.onrequest := Some(Bound(given[UnmirrorMethod], context.id)); }
      if StatusMethod in given { status.onrequest := Some(Bound(given[StatusMethod], context.id)); }
      if ListMethod in given { list.onrequest := Some(Bound(given[ListMethod], context.id)); }
      if StopMethod in given { stop.onrequest := Some(Bound(given[StopMethod], context.id)); }
    }

    /** `mirror(data)`, `unmirror(data)`, `status(data)`, `list()`, `stop()`: the last two send no data. */
    function Request<P>(m: MethodName, data: Option<P>): (c: Call<P>)
      requires Valid()
      requires Definition(m).request == Null ==> data.None?
      ensures c.service == ServiceId && c.methodId == Definition(m).id && c.expectsReply && c.payload == data
      ensures c.request == Definition(m).request && c.response == Definition(m).response
    {
      MethodFor(m).Request(data)
    }

    /** The `...NoReply` twin of each of the five calls. */
    function RequestNoReply<P>(m: MethodName, data: Option<P>): (c: Call<P>)
      requires Valid()
      requires Definition(m).request == Null ==> data.None?
      ensures c.service == ServiceId && c.methodId == Definition(m).id && !c.expectsReply && c.payload == data
    {
      MethodFor(m).RequestNoReply(data)
    }

    /** Each call and its NoReply twin target the same method and differ only in reply mode. */
    lemma ReplyModesDiffer<P>(m: MethodName, data: Option<P>)
      requires Valid()
      requires Definition(m).request == Null ==> data.None?
      ensures RequestNoReply(m, data) == Request(m, data).(expectsReply := false)
      ensures RequestNoReply(m, data) != Request(m, data)
    {
    }
  }
}
