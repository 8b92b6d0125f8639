/** The actor's queues as objects and the subscriptions of the whole-system model are the same thing. */
module QueueFanOut {
  import opened Prelude
  import opened ControlState
  import opened AgentActor
  import ReplicationSystem

  /** A queue whose subscription still exists, as the whole-system model sees it; `seen` is the state of its loop. */
  ghost function FeedOf(c: UpdateChannel, seen: ReplicationSystem.Feed): ReplicationSystem.Feed
    reads c
  {
    seen.(position := c.origin + |c.received|, queue := c.queue, registered := c.senderOpen, overflowed := c.resyncRequired)
  }

  /** What one recorded update does to a queue that still has its receiver is the model's offer. */
  twostate lemma DeliveredIsOffered(c: UpdateChannel, seen: ReplicationSystem.Feed, update: AgentUpdate)
    requires old(allocated(c)) && c.receiverOpen && update.Agent() == seen.agentId
    requires old(c.senderOpen) ==> !old(c.resyncRequired)
    requires old(|c.queue|) <= c.capacity
    requires Delivered(c, update)
    ensures FeedOf(c, seen) == ReplicationSystem.Offer(old(FeedOf(c, seen)), update, c.capacity)
  {
  }

  /** What a subscription receives is what the model's loop takes from the front of its queue. */
  twostate lemma ReceivedIsTaken(c: UpdateChannel, seen: ReplicationSystem.Feed, update: AgentUpdate)
    requires old(allocated(c))
    requires c.received == old(c.received) + [update] && old(c.queue) == [update] + c.queue
    requires c.senderOpen == old(c.senderOpen) && c.resyncRequired == old(c.resyncRequired)
    ensures var before := old(FeedOf(c, seen));
            && before.queue != [] && before.queue[0] == update
            && FeedOf(c, seen) == before.(queue := before.queue[1..], position := before.position + 1)
  {
  }
}
