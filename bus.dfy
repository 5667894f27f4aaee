// The message bus as the modelled handlers see it: every Publish (an event, to whoever
// subscribes) and every Send (a command, to its one handler) is appended to an outbox, in
// the order the handler issues them.
module Bus {
  class Outbox<M> {
    var published: seq<M>
    var sent: seq<M>

    constructor ()
      ensures published == [] && sent == []
    {
      published, sent := [], [];
    }

    method Publish(message: M)
      modifies this
      ensures published == old(published) + [message] && sent == old(sent)
    {
      published := published + [message];
    }

    method Send(message: M)
      modifies this
      ensures sent == old(sent) + [message] && published == old(published)
    {
      sent := sent + [message];
    }
  }
}
