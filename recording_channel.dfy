/**
 * The payload `record(...)` sends to the coordinator. The frame address it
 * carries is the caller's override when one is given (anything but `null`
 * or `undefined`, as the loose `!=` test of the source decides), otherwise
 * the address cached when the script loaded.
 */
module RecordingChannel {
  import opened Options
  import opened FrameLocator

  /** `contentSideexTabId`: set once to -1 and never reassigned. */
  const ContentSideexTabId: int := -1

  datatype RecordMessage = RecordMessage(
    command: string,
    target: string,
    value: string,
    insertBeforeLastCommand: bool,
    frameLocation: string,
    commandSideexTabId: int)

  /**
   * The message `record` sends; `cachedFrameLocation` is the module-level
   * `frameLocation`, and `actualFrameLocation` is `None` for `null` or
   * `undefined`.
   */
  function Record(cachedFrameLocation: string, command: string, target: string, value: string,
                  insertBeforeLastCommand: bool, actualFrameLocation: Option<string>): (m: RecordMessage)
    ensures m.command == command && m.target == target && m.value == value
    ensures m.insertBeforeLastCommand == insertBeforeLastCommand
    ensures actualFrameLocation.Some? ==> m.frameLocation == actualFrameLocation.value
    ensures actualFrameLocation.None? ==> m.frameLocation == cachedFrameLocation
    ensures m.commandSideexTabId == -1
  {
    RecordMessage(command, target, value, insertBeforeLastCommand,
                  if actualFrameLocation != None then actualFrameLocation.value else cachedFrameLocation,
                  ContentSideexTabId)
  }

  /**
   * Without an override, a recorded action reports the frame's own address,
   * and the coordinator can read the frame's index path back from it.
   */
  lemma RecordReportsOwnFrame(t: WindowTree, window: WindowId, fuel: nat,
                              command: string, target: string, value: string, insertBeforeLastCommand: bool)
    requires Closed(t) && window in t.parent
    requires WalkUp(t, window, fuel).Reached?
    ensures ParseAddress(Record(Render(WalkUp(t, window, fuel).indices), command, target, value,
                                insertBeforeLastCommand, None).frameLocation)
            == Some(WalkUp(t, window, fuel).indices)
  {
    AddressRoundTrip(WalkUp(t, window, fuel).indices);
  }

  /** An override wins even when it is the empty string, which `!= undefined` lets through. */
  lemma EmptyOverrideWins(cachedFrameLocation: string, command: string, target: string, value: string,
                          insertBeforeLastCommand: bool)
    ensures Record(cachedFrameLocation, command, target, value, insertBeforeLastCommand, Some("")).frameLocation == ""
  {
  }
}
