/**
 * The key under which `Recorder.addEventHandler` files a handler, and its
 * decoder `Recorder.prototype.parseEventKey`. A capture-phase handler is
 * filed under the event name prefixed with "C_", any other under the bare
 * event name.
 */
module EventKeys {

  const CapturePrefix: string := "C_"

  /** What `parseEventKey` returns: the DOM event name and the capture flag. */
  datatype EventInfo = EventInfo(eventName: string, capture: bool)

  /** The regular expression `/^C_/` of record-api.js. */
  predicate HasCapturePrefix(key: string) {
    |key| >= 2 && key[..2] == CapturePrefix
  }

  /** The key chosen by `addEventHandler` for an event name and a (truthy or not) `options`. */
  function EventKey(eventName: string, capture: bool): (key: string)
    ensures capture ==> |key| == |eventName| + 2 && key[..2] == CapturePrefix && key[2..] == eventName
    ensures !capture ==> key == eventName
  {
    if capture then CapturePrefix + eventName else eventName
  }

  /**
   * `parseEventKey`: the capture flag is exactly "the key starts with C_",
   * and re-encoding what was decoded gives back the key, whatever the key.
   */
  function ParseEventKey(eventKey: string): (info: EventInfo)
    ensures info.capture <==> HasCapturePrefix(eventKey)
    ensures EventKey(info.eventName, info.capture) == eventKey
  {
    if HasCapturePrefix(eventKey) then
      assert eventKey == CapturePrefix + eventKey[2..];
      EventInfo(eventKey[2..], true)
    else
      EventInfo(eventKey, false)
  }

  /**
   * Decoding inverts the encoding exactly when the pair is not a bubbling
   * handler for an event whose own name starts with "C_".
   */
  lemma ParseEventKeyInvertsEventKey(eventName: string, capture: bool)
    ensures ParseEventKey(EventKey(eventName, capture)) == EventInfo(eventName, capture)
            <==> (capture || !HasCapturePrefix(eventName))
  {
    if capture {
      var key := CapturePrefix + eventName;
      assert key[..2] == CapturePrefix;
      assert key[2..] == eventName;
    }
  }

  /** The excluded case: a bubbling "C_x" handler shares its key with a capturing "x" handler. */
  lemma CapturePrefixCollision(eventName: string)
    ensures EventKey(CapturePrefix + eventName, false) == EventKey(eventName, true)
    ensures ParseEventKey(EventKey(CapturePrefix + eventName, false)) == EventInfo(eventName, true)
  {
    var key := CapturePrefix + eventName;
    assert key[..2] == CapturePrefix;
    assert key[2..] == eventName;
  }
}
