/**
 * The outgoing side of the message broker: `Controller.publish(queue,
 * message)` appends the message to the queue's log. Serialisation and
 * delivery are not part of this model.
 */
module Outbox {
  import opened Values

  /** The body of a request to the SMEV gateway (`Request::Create.message_data`). */
  datatype OutboundMessage = OutboundMessage(queue: string, id: string, content: map<Name, Value>)

  datatype Publication = Publication(queue: string, message: OutboundMessage)

  class Broker {
    var published: seq<Publication>

    constructor ()
      ensures published == []
    {
      published := [];
    }

    method Publish(queue: string, message: OutboundMessage)
      modifies this
      ensures published == old(published) + [Publication(queue, message)]
    {
      published := published + [Publication(queue, message)];
    }
  }
}
