/** The room locks of cognitive_os_agent.c: rooms share them by number. */
module Rooms {

  const ROOM_LOCKS: nat := 64

  function Bucket(room: nat): (b: nat)
    ensures b < ROOM_LOCKS
  {
    room % ROOM_LOCKS
  }
}
