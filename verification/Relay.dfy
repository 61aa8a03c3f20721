/** What the two relays, over UDP and over TCP, have in common. */
module Relay {
  import opened Wire

  datatype Mode = Echo | Broadcast

  /** Of all packets only a LogoutRequest changes who is in the room. */
  function RoomAfter<Id(==)>(room: set<Id>, sender: Id, packet: Bytes): set<Id>
    requires WellFormed(packet)
  {
    if KindOf(packet) == LOGOUT_REQUEST then room - {sender} else room
  }
}
