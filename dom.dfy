/**
 * The slice of the DOM that record-api.js touches: handler function objects
 * (which the source tags with a `handlerName` property) and a document's
 * event-listener registry, seen as a set of (type, callback, capture)
 * triples. As in `EventTarget.addEventListener`, adding a triple that is
 * already registered does nothing, and removing one that is not does nothing.
 */
module Dom {
  import opened Options

  /** A handler function; `handlerName` is absent until `addEventHandler` sets it. */
  class Handler {
    var handlerName: Option<string>

    constructor ()
      ensures handlerName == None
    {
      handlerName := None;
    }
  }

  /** One registered listener: listeners are identified by reference and capture flag. */
  datatype Listener = Listener(eventName: string, handler: Handler, capture: bool)

  class Document {
    var listeners: set<Listener>

    constructor ()
      ensures listeners == {}
    {
      listeners := {};
    }

    method AddEventListener(eventName: string, handler: Handler, capture: bool)
      modifies this
      ensures listeners == old(listeners) + {Listener(eventName, handler, capture)}
    {
      listeners := listeners + {Listener(eventName, handler, capture)};
    }

    method RemoveEventListener(eventName: string, handler: Handler, capture: bool)
      modifies this
      ensures listeners == old(listeners) - {Listener(eventName, handler, capture)}
    {
      listeners := listeners - {Listener(eventName, handler, capture)};
    }
  }
}
