/**
 The event bus (backend/internal/events/bus.go). Channels are kept by their number; a send on a closed
 channel or closing one twice would be a panic, so both are preconditions here.
 */
module EventBus {

  const BUFFER_SIZE := 64

  /** `number` is the sequence number, 0 for what has no row. */
  datatype Event = Event(number: nat, terminal: bool)

  /** The non-blocking send: a full buffer drops the event. */
  function Offer(queue: seq<Event>, e: Event): seq<Event> {
    if |queue| < BUFFER_SIZE then queue + [e] else queue
  }

  class Bus {
    var topics: map<nat, set<nat>>
    var nextId: nat
    var queues: map<nat, seq<Event>>
    var closed: set<nat>
    ghost var topicOf: map<nat, nat>

    /** A subscribed channel is open, and it belongs to one run. */
    ghost predicate Valid()
      reads this
    {
      && (forall id | id in queues :: id < nextId && id in topicOf)
      && (forall run | run in topics :: topics[run] != {})
      && (forall run, id | run in topics && id in topics[run] :: id in queues && id !in closed && topicOf[id] == run)
      && (forall id | id in queues && id !in closed :: topicOf[id] in topics && id in topics[topicOf[id]])
      && closed <= queues.Keys
    }

    constructor ()
      ensures Valid() && topics == map[] && queues == map[]
    {
      topics, nextId, queues, closed, topicOf := map[], 0, map[], {}, map[];
    }

    method Send(id: nat, e: Event)
      requires id in queues && id !in closed
      modifies this`queues
      ensures queues == old(queues)[id := Offer(old(queues[id]), e)]
    {
      if |queues[id]| < BUFFER_SIZE {
        queues := queues[id := queues[id] + [e]];
      }
    }

    method Close(id: nat)
      requires id in queues && id !in closed
      modifies this`closed
      ensures closed == old(closed) + {id}
    {
      closed := closed + {id};
    }

    /** Every listener of the run is offered the event, and nobody else. */
    method Publish(run: nat, e: Event)
      requires Valid()
      modifies this`queues
      ensures Valid() && queues.Keys == old(queues.Keys)
      ensures forall id | id in queues ::
        queues[id] == if run in topics && id in topics[run] then Offer(old(queues[id]), e) else old(queues[id])
    {
      if run !in topics {
        return;
      }
      var left := topics[run];
      while left != {}
        invariant left <= topics[run] && Valid() && queues.Keys == old(queues.Keys)
        invariant forall id | id in queues ::
          queues[id] == if id in topics[run] && id !in left then Offer(old(queues[id]), e) else old(queues[id])
        decreases |left|
      {
        var id :| id in left;
        left := left - {id};
        Send(id, e);
      }
    }

    method Subscribe(run: nat) returns (id: nat)
      requires Valid()
      modifies this
      ensures Valid() && id == old(nextId) && id !in old(queues)
      ensures queues == old(queues)[id := []] && closed == old(closed) && topicOf == old(topicOf)[id := run]
      ensures run in topics && id in topics[run]
    {
      id := nextId;
      nextId := nextId + 1;
      if run !in topics {
        topics := topics[run := {}];
      }
      topics := topics[run := topics[run] + {id}];
      queues := queues[id := []];
      topicOf := topicOf[id := run];
    }

    /** The function that `Subscribe` returns; only its first call does anything. */
    method Unsubscribe(run: nat, id: nat)
      requires Valid() && id in queues && topicOf[id] == run
      modifies this`topics, this`closed
      ensures Valid() && closed == old(closed) + {id}
      ensures forall other | other in queues && other != id :: (other in closed) == (other in old(closed))
    {
      if id in closed {
        return;
      }
      if run in topics {
        var rest := topics[run] - {id};
        if rest == {} {
          topics := topics - {run};
        } else {
          topics := topics[run := rest];
        }
      }
      Close(id);
    }

    method SubscriberCount(run: nat) returns (n: nat)
      requires Valid()
      ensures n == |set id | id in queues && id !in closed && topicOf[id] == run|
    {
      var ids := if run in topics then topics[run] else {};
      assert ids == set id | id in queues && id !in closed && topicOf[id] == run;
      n := |ids|;
    }
  }
}
