/**
 * The browser's persisted room pointer: the `localStorage` slot
 * `itunymous_lastRoomId`, shared by the matchmaking screen and the chat
 * screen. `None` is the removed key.
 */
module Session {
  import opened Wrappers

  class PointerSlot {
    var lastRoomId: Option<string>

    constructor (stored: Option<string>)
      ensures lastRoomId == stored
    {
      lastRoomId := stored;
    }
  }
}
