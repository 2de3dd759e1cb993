/**
 * The `Recorder` of record-api.js: the static table `Recorder.eventHandlers`
 * filled by `Recorder.addEventHandler`, and a recorder object that installs
 * the whole table on its window's document (`attach`) and removes exactly
 * what it installed (`detach`).
 */
module Recorders {
  import opened Options
  import opened EventKeys
  import opened Dom

  /** A table from event key to the handlers filed under it, in registration order. */
  type HandlerMap = map<string, seq<Handler>>

  /** The listener triples that installing the handlers filed under `eventKey` registers. */
  function EntriesOf(eventKey: string, handlers: seq<Handler>): (s: set<Listener>)
    ensures forall h :: h in handlers ==> Listener(ParseEventKey(eventKey).eventName, h, ParseEventKey(eventKey).capture) in s
    ensures forall l :: l in s ==> l.handler in handlers && EventInfo(l.eventName, l.capture) == ParseEventKey(eventKey)
  {
    var info := ParseEventKey(eventKey);
    set h | h in handlers :: Listener(info.eventName, h, info.capture)
  }

  /** Every listener triple decoded from a table: what attaching it installs. */
  function Installed(m: HandlerMap): set<Listener> {
    set k, h | k in m && h in m[k] :: Listener(ParseEventKey(k).eventName, h, ParseEventKey(k).capture)
  }

  /** A triple is installed from a table exactly when some key's entries contain it. */
  lemma InstalledMembers(m: HandlerMap)
    ensures forall k, h :: k in m && h in m[k] ==> Listener(ParseEventKey(k).eventName, h, ParseEventKey(k).capture) in Installed(m)
    ensures forall l :: l in Installed(m) ==> exists k :: k in m && l in EntriesOf(k, m[k])
  {
  }

  /** The part of a table whose keys lie in `keys`. */
  function Restrict(m: HandlerMap, keys: set<string>): (r: HandlerMap)
    ensures r.Keys == m.Keys * keys
    ensures forall k :: k in r ==> r[k] == m[k]
  {
    map k | k in m && k in keys :: m[k]
  }

  /** Installing one more key of a table adds exactly that key's entries. */
  lemma InstalledStep(m: HandlerMap, done: set<string>, k: string)
    requires k in m
    ensures Installed(Restrict(m, done + {k})) == Installed(Restrict(m, done)) + EntriesOf(k, m[k])
  {
    var a := Restrict(m, done + {k});
    var b := Restrict(m, done);
    InstalledMembers(a);
    InstalledMembers(b);
    forall l | l in Installed(a)
      ensures l in Installed(b) + EntriesOf(k, m[k])
    {
      var k' :| k' in a && l in EntriesOf(k', a[k']);
      if k' != k {
        assert k' in b;
      }
    }
    forall l | l in Installed(b) + EntriesOf(k, m[k])
      ensures l in Installed(a)
    {
      if l in Installed(b) {
        var k' :| k' in b && l in EntriesOf(k', b[k']);
        assert k' in a;
      } else {
        assert k in a;
      }
    }
  }

  /** Adding one key to a restriction is a map update, also under an override. */
  lemma RestrictStep(before: HandlerMap, m: HandlerMap, done: set<string>, k: string)
    requires k in m
    ensures (before + Restrict(m, done))[k := m[k]] == before + Restrict(m, done + {k})
  {
  }

  /** One turn of `attach`'s outer loop, from the keys still to do before and after it. */
  lemma AttachStep(before: HandlerMap, m: HandlerMap, todo: set<string>, k: string)
    requires k in todo && todo <= m.Keys
    ensures (before + Restrict(m, m.Keys - todo))[k := m[k]] == before + Restrict(m, m.Keys - (todo - {k}))
    ensures Installed(Restrict(m, m.Keys - todo)) + EntriesOf(k, m[k]) == Installed(Restrict(m, m.Keys - (todo - {k})))
  {
    assert m.Keys - (todo - {k}) == (m.Keys - todo) + {k};
    InstalledStep(m, m.Keys - todo, k);
    RestrictStep(before, m, m.Keys - todo, k);
  }

  /** A table that covers all keys of `m` is `m` itself. */
  lemma RestrictAll(m: HandlerMap)
    ensures Restrict(m, m.Keys) == m
  {
  }

  /** A listener filed by `addEventHandler(_, eventName, handler, capture)` is installed as that triple. */
  lemma RegisteredHandlerIsInstalled(m: HandlerMap, eventName: string, handler: Handler, capture: bool)
    requires EventKey(eventName, capture) in m && handler in m[EventKey(eventName, capture)]
    requires capture || !HasCapturePrefix(eventName)
    ensures Listener(eventName, handler, capture) in Installed(m)
  {
    var k := EventKey(eventName, capture);
    ParseEventKeyInvertsEventKey(eventName, capture);
    InstalledMembers(m);
    assert Listener(eventName, handler, capture) in EntriesOf(k, m[k]);
  }

  /** The static `Recorder.eventHandlers`, shared by every recorder of the frame. */
  class EventHandlerTable {
    var handlers: HandlerMap

    constructor ()
      ensures handlers == map[]
    {
      handlers := map[];
    }

    /**
     * `Recorder.addEventHandler`: tags the handler with its name and appends
     * it to the list filed under its key, creating the list when absent;
     * every other key and every earlier entry stays as it was.
     */
    method AddEventHandler(handlerName: string, eventName: string, handler: Handler, options: bool)
      modifies this, handler
      ensures handler.handlerName == Some(handlerName)
      ensures var key := EventKey(eventName, options);
        && key in handlers
        && handlers == old(handlers)[key := (if key in old(handlers) then old(handlers)[key] else []) + [handler]]
    {
      handler.handlerName := Some(handlerName);
      var key := EventKey(eventName, options);
      if key !in handlers {
        handlers := handlers[key := []];
      }
      handlers := handlers[key := handlers[key] + [handler]];
    }
  }

  class Recorder {
    /** `this.window.document` */
    const document: Document
    var eventListeners: HandlerMap
    var attached: bool

    /** What every recorder keeps: a detached recorder tracks no listeners. */
    ghost predicate Valid()
      reads this
    {
      !attached ==> eventListeners == map[]
    }

    constructor (document: Document)
      ensures this.document == document
      ensures eventListeners == map[] && !attached
      ensures Valid()
    {
      this.document := document;
      eventListeners := map[];
      attached := false;
    }

    /**
     * `attach`: a no-op on an attached recorder; otherwise installs every
     * handler of the table on the document with the capture flag decoded from
     * its key, records a copy of each list in `eventListeners`, and becomes
     * attached.
     */
    method Attach(table: EventHandlerTable)
      modifies this, document
      ensures Valid() && attached
      ensures old(attached) ==> unchanged(this) && unchanged(document)
      ensures !old(attached) ==> eventListeners == old(eventListeners) + table.handlers
      ensures !old(attached) ==> document.listeners == old(document.listeners) + Installed(table.handlers)
    {
      if !attached {
        InstallTable(table);
        attached := true;
      }
    }

    /**
     * The loop of `attach` over the keys of the table: installs every handler
     * of every key and tracks each list under its key.
     */
    method InstallTable(table: EventHandlerTable)
      modifies this, document
      ensures attached == old(attached)
      ensures eventListeners == old(eventListeners) + table.handlers
      ensures document.listeners == old(document.listeners) + Installed(table.handlers)
    {
      ghost var m := table.handlers;
      ghost var trackedBefore := eventListeners;
      ghost var installedBefore := document.listeners;
      var todo := table.handlers.Keys;
      while todo != {}
        invariant todo <= m.Keys && table.handlers == m && attached == old(attached)
        invariant eventListeners == trackedBefore + Restrict(m, m.Keys - todo)
        invariant document.listeners == installedBefore + Installed(Restrict(m, m.Keys - todo))
        decreases todo
      {
        var eventKey :| eventKey in todo;
        InstallKey(eventKey, table.handlers[eventKey]);
        AttachStep(trackedBefore, m, todo, eventKey);
        todo := todo - {eventKey};
      }
      RestrictAll(table.handlers);
    }

    /**
     * The body of `attach`'s loop for one key: installs every handler filed
     * under `eventKey` and tracks the same list in `eventListeners`.
     */
    method InstallKey(eventKey: string, handlers: seq<Handler>)
      modifies this, document
      ensures attached == old(attached)
      ensures eventListeners == old(eventListeners)[eventKey := handlers]
      ensures document.listeners == old(document.listeners) + EntriesOf(eventKey, handlers)
    {
      var info := ParseEventKey(eventKey);
      eventListeners := eventListeners[eventKey := []];
      var i := 0;
      while i < |handlers|
        invariant 0 <= i <= |handlers|
        invariant attached == old(attached)
        invariant eventListeners == old(eventListeners)[eventKey := handlers[..i]]
        invariant document.listeners == old(document.listeners) + EntriesOf(eventKey, handlers[..i])
      {
        document.AddEventListener(info.eventName, handlers[i], info.capture);
        eventListeners := eventListeners[eventKey := eventListeners[eventKey] + [handlers[i]]];
        assert handlers[..i + 1] == handlers[..i] + [handlers[i]];
        i := i + 1;
      }
      assert handlers[..i] == handlers;
    }

    /**
     * `detach`: removes from the document exactly the triples decoded from
     * `eventListeners` (with the capture flag used when they were installed),
     * then forgets them and becomes detached.
     */
    method Detach()
      modifies this, document
      ensures Valid() && !attached && eventListeners == map[]
      ensures document.listeners == old(document.listeners) - Installed(old(eventListeners))
    {
      var todo := eventListeners.Keys;
      while todo != {}
        invariant todo <= eventListeners.Keys
        invariant eventListeners == old(eventListeners)
        invariant document.listeners == old(document.listeners) - Installed(Restrict(eventListeners, eventListeners.Keys - todo))
        decreases todo
      {
        var eventKey :| eventKey in todo;
        ghost var done := eventListeners.Keys - todo;
        ghost var listenersBefore := document.listeners;
        var info := ParseEventKey(eventKey);
        var i := 0;
        while i < |eventListeners[eventKey]|
          invariant eventListeners == old(eventListeners)
          invariant 0 <= i <= |eventListeners[eventKey]|
          invariant document.listeners == listenersBefore - EntriesOf(eventKey, eventListeners[eventKey][..i])
        {
          document.RemoveEventListener(info.eventName, eventListeners[eventKey][i], info.capture);
          assert eventListeners[eventKey][..i + 1] == eventListeners[eventKey][..i] + [eventListeners[eventKey][i]];
          i := i + 1;
        }
        assert eventListeners[eventKey][..i] == eventListeners[eventKey];
        InstalledStep(eventListeners, done, eventKey);
        todo := todo - {eventKey};
        assert eventListeners.Keys - todo == done + {eventKey};
      }
      RestrictAll(eventListeners);
      eventListeners := map[];
      attached := false;
    }
  }

  /** A second `attach` right after a first installs nothing more. */
  method AttachTwice(r: Recorder, table: EventHandlerTable)
    requires r.Valid() && !r.attached
    modifies r, r.document
    ensures r.attached && r.eventListeners == table.handlers
    ensures r.document.listeners == old(r.document.listeners) + Installed(table.handlers)
  {
    r.Attach(table);
    r.Attach(table);
  }

  /**
   * `detach` after `attach` takes off exactly what `attach` put on: the
   * document is back to its earlier listeners, minus any of the table's
   * triples that were already registered beforehand.
   */
  method AttachThenDetach(r: Recorder, table: EventHandlerTable)
    requires r.Valid() && !r.attached
    modifies r, r.document
    ensures !r.attached && r.eventListeners == map[]
    ensures r.document.listeners == old(r.document.listeners) - Installed(table.handlers)
    ensures old(r.document.listeners) !! Installed(table.handlers) ==> r.document.listeners == old(r.document.listeners)
  {
    r.Attach(table);
    r.Detach();
  }

  /** `detach` on a detached recorder (initially, or a second time) leaves the document alone. */
  method DetachWhenDetached(r: Recorder)
    requires r.Valid() && !r.attached
    modifies r, r.document
    ensures !r.attached && r.eventListeners == map[]
    ensures r.document.listeners == old(r.document.listeners)
  {
    r.Detach();
  }
}
