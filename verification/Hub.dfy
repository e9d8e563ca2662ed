/** What the hub's event loop does for each event (the branches of run in internal/transport/hub.go). */
module Hub {
  import opened Common
  import opened Connection

  class Hub {
    var connections: set<Connection>

    constructor ()
      ensures connections == {}
    {
      connections := {};
    }

    method OnRegister(conn: Connection)
      modifies this
      ensures connections == old(connections) + {conn}
    {
      connections := connections + {conn};
    }

    /** Unregistering a connection the hub does not have does nothing; in particular it is not stopped. */
    method OnUnregister(conn: Connection)
      modifies this, conn`closed, conn`doneCloses
      ensures connections == old(connections) - {conn}
      ensures conn.Value() == if conn in old(connections) then Stopped(old(conn.Value())) else old(conn.Value())
    {
      if conn in connections {
        connections := connections - {conn};
        conn.Stop();
      }
    }

    /** Every connection with room gets the frame, whatever happens to the others; nobody else gets it. */
    method OnBroadcast(data: Bytes)
      modifies connections`send
      ensures connections == old(connections)
      ensures forall conn :: conn in connections ==> conn.Value() == Enqueued(old(conn.Value()), data).0
    {
      var todo := connections;
      while todo != {}
        invariant todo <= connections
        invariant forall conn :: conn in connections && conn in todo ==> conn.send == old(conn.send)
        invariant forall conn :: conn in connections && conn !in todo ==>
                    conn.Value() == Enqueued(old(conn.Value()), data).0
        decreases todo
      {
        var conn :| conn in todo;
        todo := todo - {conn};
        var _ := conn.Enqueue(data);
      }
    }

    /** One connection of the player takes the frame, or none of them could. */
    method OnPushToUid(uid: int, data: Bytes) returns (delivered: bool)
      modifies connections`send
      ensures connections == old(connections)
      ensures delivered <==>
              (exists conn :: conn in connections && conn.uid == uid && Enqueued(old(conn.Value()), data).1 == None)
      ensures delivered ==>
                (exists conn :: conn in connections && conn.uid == uid
                                && Enqueued(old(conn.Value()), data) == (conn.Value(), None)
                                && forall other :: other in connections && other != conn ==>
                                     other.Value() == old(other.Value()))
      ensures !delivered ==> forall conn :: conn in connections ==> conn.Value() == old(conn.Value())
    {
      var todo := connections;
      while todo != {}
        invariant todo <= connections
        invariant forall conn :: conn in connections ==> conn.send == old(conn.send)
        invariant forall conn :: conn in connections && conn !in todo ==>
                    conn.uid != uid || Enqueued(old(conn.Value()), data).1 != None
        decreases todo
      {
        var conn :| conn in todo;
        todo := todo - {conn};
        if conn.uid == uid {
          var error := conn.Enqueue(data);
          if error == None {
            return true;
          }
        }
      }
      return false;
    }

    method OnCloseAll()
      modifies this, connections`closed, connections`doneCloses
      ensures connections == {}
      ensures forall conn :: conn in old(connections) ==> conn.Value() == Stopped(old(conn.Value())) && conn.closed
    {
      var todo := connections;
      while todo != {}
        invariant todo == connections && todo <= old(connections)
        invariant forall conn :: conn in old(connections) && conn in todo ==> conn.Value() == old(conn.Value())
        invariant forall conn :: conn in old(connections) && conn !in todo ==> conn.Value() == Stopped(old(conn.Value()))
        decreases todo
      {
        var conn :| conn in todo;
        conn.Stop();
        connections := connections - {conn};
        todo := todo - {conn};
      }
    }
  }
}
