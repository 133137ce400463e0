/** internal/alert/pubsub.go and service.go as objects: topics, their subscribers, and publishing to them. */
module PubSub {

  /** A subscriber: an adapter with its configuration. */
  datatype Manager =
    | Prometheus(address: string)
    | GitOps(repoDir: string)
    | Slack(webhookURL: string)

  /** The arguments of CreateAlert. */
  datatype Message = Message(podName: string, powerCapValue: int, devices: map<string, string>)

  /** The topic that every alert is published on. */
  const ALERTS := "alerts"

  type Subscribers = map<string, seq<Manager>>

  /** ps.subscribers[topic]: Go reads a missing key as an empty list. */
  function SubscribersOf(subscribers: Subscribers, topic: string): seq<Manager> {
    if topic in subscribers then subscribers[topic] else []
  }

  /** What subscribing makes of the lists. */
  function Subscribed(subscribers: Subscribers, topic: string, subscriber: Manager): Subscribers {
    subscribers[topic := SubscribersOf(subscribers, topic) + [subscriber]]
  }

  /** Append-only: each topic's old list is the beginning of its new one. */
  ghost predicate Extends(before: Subscribers, after: Subscribers) {
    forall topic :: SubscribersOf(before, topic) <= SubscribersOf(after, topic)
  }

  /** One goroutine: go subscriber.CreateAlert(...) */
  datatype Goroutine = Goroutine(manager: Manager, message: Message)

  class PubSub {
    var subscribers: Subscribers

    constructor ()
      ensures subscribers == map[]
    {
      subscribers := map[];
    }

    method Subscribe(topic: string, subscriber: Manager)
      modifies this
      ensures subscribers == old(subscribers)[topic := SubscribersOf(old(subscribers), topic) + [subscriber]]
      ensures Extends(old(subscribers), subscribers)
    {
      subscribers := Subscribed(subscribers, topic, subscriber);
    }

    /** Starts one goroutine for each subscriber of the topic, in subscription order. */
    method Publish(topic: string, message: Message) returns (started: seq<Goroutine>)
      ensures |started| == |SubscribersOf(subscribers, topic)|
      ensures forall i :: 0 <= i < |started| ==> started[i] == Goroutine(SubscribersOf(subscribers, topic)[i], message)
    {
      started := [];
      var listed := SubscribersOf(subscribers, topic);
      for i := 0 to |listed|
        invariant |started| == i
        invariant forall j :: 0 <= j < i ==> started[j] == Goroutine(listed[j], message)
      {
        started := started + [Goroutine(listed[i], message)];
      }
    }
  }

  /** service.go */
  class AlertService {
    var pubsub: PubSub

    constructor (pubsub: PubSub)
      ensures this.pubsub == pubsub
    {
      this.pubsub := pubsub;
    }

    method SendAlert(message: Message) returns (started: seq<Goroutine>)
      ensures |started| == |SubscribersOf(pubsub.subscribers, "alerts")|
      ensures forall i :: 0 <= i < |started| ==>
                started[i] == Goroutine(SubscribersOf(pubsub.subscribers, "alerts")[i], message)
    {
      started := pubsub.Publish(ALERTS, message);
    }
  }
}
