/**
 * The inbound side of record-api.js: the three coordinator-message handlers,
 * each acting only on a truthy flag of the message, and the choice, by the
 * per-window `_recordListener` marker, of which of them are registered.
 * The highlight capability (`selenium["doShowElement"]`) is a parameter; the
 * calls into the recorder are effects, applied by `OnRecorderMessage`.
 */
module MessageHandlers {
  import opened Options
  import opened Recorders

  /** A coordinator message; each flag is the truthiness of the field of that name. */
  datatype Message = Message(showElement: bool, targetValue: string, attachRecorder: bool, detachRecorder: bool)

  /** The `{result: ...}` that `startShowElement` resolves to. */
  datatype ShowElementReply<R> = ShowElementReply(result: R)

  /** A call a handler makes on the frame's recorder. */
  datatype RecorderCall = CallAttach | CallDetach

  /** `startShowElement`: replies with the highlight result exactly when asked to show an element. */
  function StartShowElement<R>(message: Message, doShowElement: string -> R): (reply: Option<ShowElementReply<R>>)
    ensures reply.Some? <==> message.showElement
    ensures reply.Some? ==> reply.value.result == doShowElement(message.targetValue)
  {
    if message.showElement then Some(ShowElementReply(doShowElement(message.targetValue))) else None
  }

  /** `attachRecorderHandler`: calls `attach` exactly when the message asks for it. */
  function AttachRecorderHandler(message: Message): (call: Option<RecorderCall>)
    ensures call != None <==> message.attachRecorder
    ensures call != None ==> call == Some(CallAttach)
  {
    if message.attachRecorder then Some(CallAttach) else None
  }

  /** `detachRecorderHandler`: calls `detach` exactly when the message asks for it. */
  function DetachRecorderHandler(message: Message): (call: Option<RecorderCall>)
    ensures call != None <==> message.detachRecorder
    ensures call != None ==> call == Some(CallDetach)
  {
    if message.detachRecorder then Some(CallDetach) else None
  }

  datatype MessageListener = StartShowElementListener | AttachRecorderListener | DetachRecorderListener

  /**
   * The listeners registered when the script loads: the injector handler in a
   * window without the `_recordListener` marker, the attach/detach pair, in
   * that order, in one that has it.
   */
  function RegisteredListeners(recordListenerPresent: bool): (listeners: seq<MessageListener>)
    ensures StartShowElementListener in listeners <==> !recordListenerPresent
    ensures AttachRecorderListener in listeners <==> recordListenerPresent
    ensures DetachRecorderListener in listeners <==> recordListenerPresent
    ensures recordListenerPresent ==> listeners == [AttachRecorderListener, DetachRecorderListener]
  {
    if !recordListenerPresent then [StartShowElementListener]
    else [AttachRecorderListener, DetachRecorderListener]
  }

  /** What delivering a message to a list of listeners produces: a reply and the recorder calls, in order. */
  datatype Outcome<R> = Outcome(reply: Option<ShowElementReply<R>>, calls: seq<RecorderCall>)

  function OptionToSeq<T>(o: Option<T>): seq<T> {
    if o.Some? then [o.value] else []
  }

  /** Every listener sees the message; the first reply is the one the transport delivers. */
  function Dispatch<R>(listeners: seq<MessageListener>, message: Message, doShowElement: string -> R): (r: Outcome<R>)
    ensures r.reply.Some? <==> StartShowElementListener in listeners && message.showElement
    ensures r.reply.Some? ==> r.reply == StartShowElement(message, doShowElement)
    ensures CallAttach in r.calls <==> AttachRecorderListener in listeners && message.attachRecorder
    ensures CallDetach in r.calls <==> DetachRecorderListener in listeners && message.detachRecorder
    decreases |listeners|
  {
    if listeners == [] then Outcome(None, [])
    else
      var rest := Dispatch(listeners[1..], message, doShowElement);
      match listeners[0]
      case StartShowElementListener =>
        var reply := StartShowElement(message, doShowElement);
        Outcome(if reply.Some? then reply else rest.reply, rest.calls)
      case AttachRecorderListener => Outcome(rest.reply, OptionToSeq(AttachRecorderHandler(message)) + rest.calls)
      case DetachRecorderListener => Outcome(rest.reply, OptionToSeq(DetachRecorderHandler(message)) + rest.calls)
  }

  /** An injector window only ever highlights: it never touches the recorder. */
  lemma InjectorWindowOnlyHighlights<R>(message: Message, doShowElement: string -> R)
    ensures Dispatch(RegisteredListeners(false), message, doShowElement).calls == []
    ensures Dispatch(RegisteredListeners(false), message, doShowElement).reply.Some? <==> message.showElement
    ensures message.showElement ==>
      Dispatch(RegisteredListeners(false), message, doShowElement).reply == Some(ShowElementReply(doShowElement(message.targetValue)))
  {
  }

  /**
   * A recorder window never replies, and calls `attach` then `detach`
   * according to the message's two flags.
   */
  lemma RecorderWindowOnlyAttachesAndDetaches<R>(message: Message, doShowElement: string -> R)
    ensures Dispatch(RegisteredListeners(true), message, doShowElement).reply == None
    ensures Dispatch(RegisteredListeners(true), message, doShowElement).calls
      == (if message.attachRecorder then [CallAttach] else []) + (if message.detachRecorder then [CallDetach] else [])
  {
  }

  /** In either kind of window, `{showElement: true}` alone causes no recorder call. */
  lemma ShowElementNeverAttaches<R>(present: bool, message: Message, doShowElement: string -> R)
    requires !message.attachRecorder && !message.detachRecorder
    ensures Dispatch(RegisteredListeners(present), message, doShowElement).calls == []
  {
    if present {
      RecorderWindowOnlyAttachesAndDetaches(message, doShowElement);
    } else {
      InjectorWindowOnlyHighlights(message, doShowElement);
    }
  }

  /**
   * The recorder window's two listeners, in registration order, applied to
   * the frame's recorder: `attach` on a truthy `attachRecorder`, then
   * `detach` on a truthy `detachRecorder`.
   */
  method OnRecorderMessage(r: Recorder, table: EventHandlerTable, message: Message)
    requires r.Valid()
    modifies r, r.document
    ensures r.Valid()
    ensures r.attached == (!message.detachRecorder && (message.attachRecorder || old(r.attached)))
    ensures !message.attachRecorder && !message.detachRecorder ==> unchanged(r) && unchanged(r.document)
    ensures message.attachRecorder && !message.detachRecorder && old(r.attached) ==> unchanged(r) && unchanged(r.document)
    ensures message.attachRecorder && !message.detachRecorder && !old(r.attached) ==>
      r.eventListeners == table.handlers && r.document.listeners == old(r.document.listeners) + Installed(table.handlers)
    ensures !message.attachRecorder && message.detachRecorder ==>
      r.eventListeners == map[] && r.document.listeners == old(r.document.listeners) - Installed(old(r.eventListeners))
    ensures message.attachRecorder && message.detachRecorder ==>
      r.eventListeners == map[] &&
      r.document.listeners == (if old(r.attached) then old(r.document.listeners) - Installed(old(r.eventListeners))
                               else old(r.document.listeners) - Installed(table.handlers))
  {
    if AttachRecorderHandler(message) == Some(CallAttach) {
      r.Attach(table);
    }
    if DetachRecorderHandler(message) == Some(CallDetach) {
      r.Detach();
    }
  }
}
