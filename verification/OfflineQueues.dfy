/** The bounded per-recipient FIFO queue of server/app/websocket/queue.py. */
module OfflineQueues {
  import opened Prelude

  type Queues<M> = map<Identity, seq<M>>

  /** The messages queued for a recipient; an untracked recipient has none. */
  function QueueOf<M>(q: Queues<M>, recipient: Identity): seq<M> {
    if recipient in q then q[recipient] else []
  }

  predicate Accepts<M>(q: Queues<M>, recipient: Identity, maxPerRecipient: nat, maxRecipients: nat) {
    && (recipient in q || |q| < maxRecipients)
    && |QueueOf(q, recipient)| < maxPerRecipient
  }

  /** The queues after offering one message. A refusal evicts nothing, but under a per-recipient
      bound of zero the code has by then started to track the recipient. */
  function Enqueued<M>(q: Queues<M>, recipient: Identity, m: M, maxPerRecipient: nat, maxRecipients: nat): Queues<M> {
    if Accepts(q, recipient, maxPerRecipient, maxRecipients) then q[recipient := QueueOf(q, recipient) + [m]]
    else if recipient !in q && |q| < maxRecipients then q[recipient := []]
    else q
  }

  class OfflineQueue<M> {
    const maxPerRecipient: nat
    const maxRecipients: nat
    var queues: Queues<M>

    constructor (maxPerRecipient: nat, maxRecipients: nat)
      ensures queues == map[]
      ensures this.maxPerRecipient == maxPerRecipient && this.maxRecipients == maxRecipients
    {
      this.maxPerRecipient := maxPerRecipient;
      this.maxRecipients := maxRecipients;
      queues := map[];
    }

    method Enqueue(recipient: Identity, envelope: M) returns (ok: bool)
      modifies this
      ensures ok <==> old(Accepts(queues, recipient, maxPerRecipient, maxRecipients))
      ensures queues == Enqueued(old(queues), recipient, envelope, maxPerRecipient, maxRecipients)
    {
      if recipient !in queues {
        if |queues| >= maxRecipients {
          return false;
        }
        queues := queues[recipient := []];
      }
      if |queues[recipient]| >= maxPerRecipient {
        return false;
      }
      queues := queues[recipient := queues[recipient] + [envelope]];
      return true;
    }

    method Drain(recipient: Identity) returns (envelopes: seq<M>)
      modifies this
      ensures envelopes == old(QueueOf(queues, recipient))
      ensures queues == old(queues) - {recipient}
    {
      if recipient !in queues {
        return [];
      }
      envelopes := queues[recipient];
      queues := queues - {recipient};
    }

    method Count(recipient: Identity) returns (n: nat)
      ensures n == |QueueOf(queues, recipient)|
    {
      if recipient in queues {
        n := |queues[recipient]|;
      } else {
        n := 0;
      }
    }
  }
}
