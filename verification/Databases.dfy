/** The database the stores share: one log of events and a table for each store. */
module Databases {
  import opened Events
  import Entities
  import Tasks
  import Objects

  class Database {
    var events: Log
    var entities: map<string, Entities.EntityRow>
    var tasks: map<string, Tasks.TaskRow>
    var objects: map<string, Objects.ObjectRow>

    constructor ()
      ensures events == [] && entities == map[] && tasks == map[] && objects == map[]
    {
      events, entities, tasks, objects := [], map[], map[], map[];
    }

    /** Appends an event and returns the id it is given. */
    method AddEvent(stream: Stream, subject: string, kind: Kind, time: int, body: Body) returns (id: nat)
      modifies this`events
      ensures events == Events.AddEvent(old(events), stream, subject, kind, time, body)
      ensures id == |old(events)| + 1
    {
      id := |events| + 1;
      events := events + [Event(id, stream, subject, kind, time, body)];
    }
  }
}
