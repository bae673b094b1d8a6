/**
  The broadcast registry of main.go: a map from channel name (the request
  path) to the set of subscriber endpoints currently registered on it.

  A Go endpoint is a `chan []byte` created by `make`, and every `make` yields
  a new channel. Here an endpoint is a natural number and the registry
  carries the next unused one, so that "fresh" is a checkable fact. The lock
  around each operation is abstracted away: every operation is one atomic
  step on an immutable value.
*/
module Bus {
  import opened Octets

  type Channel = string

  /** One subscriber endpoint. */
  type SubId = nat

  /** `subs` is the registry of main.go; `next` is the endpoint allocator. */
  datatype Bus = Bus(subs: map<Channel, set<SubId>>, next: nat)

  /** What the release closure returned by subscribe captures: the channel it
      subscribed to and the endpoint it created. */
  datatype Registration = Registration(channel: Channel, sub: SubId)

  /** The result of subscribe: the updated registry and the registration. */
  datatype Subscription = Subscription(bus: Bus, reg: Registration)

  /** One payload handed to one subscriber endpoint. */
  datatype Delivery = Delivery(sub: SubId, payload: Bytes)

  /** The registry starts empty. */
  const Empty: Bus := Bus(map[], 0)

  /** The subscribers of a channel; an absent key reads as the empty set,
      as indexing a Go map with a missing key yields a nil (empty) map. */
  function Members(b: Bus, channel: Channel): (r: set<SubId>)
  {
    if channel in b.subs then b.subs[channel] else {}
  }

  /** The registry invariants:
      - a channel key is present only with a non-empty subscriber set;
      - every registered endpoint was allocated before (is below `next`);
      - an endpoint is registered under at most one channel. */
  ghost predicate Valid(b: Bus)
  {
    && (forall c :: c in b.subs ==> b.subs[c] != {})
    && (forall c, s :: c in b.subs && s in b.subs[c] ==> s < b.next)
    && (forall c, c', s :: c in b.subs && c' in b.subs && s in b.subs[c] && s in b.subs[c'] ==> c == c')
  }

  /** bus.subscribe: create a fresh endpoint and add it to the channel's set,
      creating the set when the channel is absent. */
  function Subscribe(b: Bus, channel: Channel): (r: Subscription)
    ensures r.reg.channel == channel
    ensures r.reg.sub == b.next && r.bus.next == b.next + 1
    ensures r.bus.subs.Keys == b.subs.Keys + {channel}
    ensures Members(r.bus, channel) == Members(b, channel) + {r.reg.sub}
    ensures forall c :: c != channel ==> Members(r.bus, c) == Members(b, c)
    ensures Valid(b) ==> forall c :: r.reg.sub !in Members(b, c)
    ensures Valid(b) ==> Valid(r.bus)
  {
    var sub := b.next;
    var set0 := if channel in b.subs then b.subs[channel] else {};
    Subscription(Bus(b.subs[channel := set0 + {sub}], b.next + 1), Registration(channel, sub))
  }

  /** The release closure: remove the endpoint from its channel's set, and
      delete the channel when that leaves the set empty. Deleting from an
      absent channel's (nil) set changes nothing. */
  function Release(b: Bus, reg: Registration): (r: Bus)
    ensures r.next == b.next
    ensures Members(r, reg.channel) == Members(b, reg.channel) - {reg.sub}
    ensures reg.channel in r.subs <==> Members(b, reg.channel) - {reg.sub} != {}
    ensures forall c :: c != reg.channel ==> (c in r.subs <==> c in b.subs)
    ensures forall c :: c != reg.channel ==> Members(r, c) == Members(b, c)
    ensures Valid(b) ==> Valid(r)
  {
    var rest := Members(b, reg.channel) - {reg.sub};
    if rest == {} then Bus(b.subs - {reg.channel}, b.next)
    else Bus(b.subs[reg.channel := rest], b.next)
  }

  /** bus.publish: the payload handed to every subscriber registered on the
      channel at that instant, and to no one else. A set, because Go leaves
      the iteration order of a map unspecified. */
  function Publish(b: Bus, channel: Channel, payload: Bytes): (r: set<Delivery>)
    ensures forall d :: d in r ==> d.sub in Members(b, channel) && d.payload == payload
    ensures forall s :: s in Members(b, channel) ==> Delivery(s, payload) in r
  {
    set s | s in Members(b, channel) :: Delivery(s, payload)
  }

  /** The publish loop itself: `for sub := range b.subs[channel]` visits
      the set in an unspecified order, which the `:|` choice models, and
      hands the payload to each endpoint in turn. */
  method PublishLoop(b: Bus, channel: Channel, payload: Bytes) returns (sent: seq<Delivery>)
    ensures forall i, j :: 0 <= i < j < |sent| ==> sent[i].sub != sent[j].sub
    ensures forall d :: d in sent <==> d in Publish(b, channel, payload)
    ensures |sent| == |Members(b, channel)|
  {
    var pending := Members(b, channel);
    sent := [];
    while pending != {}
      invariant pending <= Members(b, channel)
      invariant forall d :: d in sent <==> d.sub in Members(b, channel) - pending && d.payload == payload
      invariant forall i, j :: 0 <= i < j < |sent| ==> sent[i].sub != sent[j].sub
      invariant |sent| + |pending| == |Members(b, channel)|
      decreases |pending|
    {
      var s :| s in pending;
      sent := sent + [Delivery(s, payload)];
      pending := pending - {s};
    }
  }

  /** The first registry invariant, stated as an equivalence: a channel
      key is present exactly when the channel has a subscriber. */
  lemma PresentIffSubscribed(b: Bus, channel: Channel)
    requires Valid(b)
    ensures channel in b.subs <==> Members(b, channel) != {}
  {
  }

  /** Subscribe followed by its own release gives back the registry it
      started from, because the endpoint subscribe created is fresh. */
  lemma SubscribeThenRelease(b: Bus, channel: Channel)
    requires Valid(b)
    ensures Release(Subscribe(b, channel).bus, Subscribe(b, channel).reg).subs == b.subs
  {
  }

  /** Once an endpoint is not registered on its channel, releasing it
      changes nothing. */
  lemma {:induction false} ReleaseAbsent(b: Bus, reg: Registration)
    requires Valid(b)
    requires reg.sub !in Members(b, reg.channel)
    ensures Release(b, reg) == b
  {
    if reg.channel in b.subs {
      assert b.subs[reg.channel] - {reg.sub} == b.subs[reg.channel];
    }
  }

  /** Release is idempotent: a second call leaves the registry as the
      first one did. */
  lemma {:induction false} ReleaseIdempotent(b: Bus, reg: Registration)
    requires Valid(b)
    ensures Release(Release(b, reg), reg) == Release(b, reg)
  {
    ReleaseAbsent(Release(b, reg), reg);
  }

  /** Publish delivers exactly once per registered subscriber: as many
      deliveries as subscribers. */
  lemma {:induction false} PublishExactlyOnce(b: Bus, channel: Channel, payload: Bytes)
    ensures |Publish(b, channel, payload)| == |Members(b, channel)|
  {
    DeliveriesCount(Members(b, channel), payload);
  }

  /** Publishing to a channel with no entry delivers nothing. */
  lemma PublishToAbsent(b: Bus, channel: Channel, payload: Bytes)
    requires channel !in b.subs
    ensures Publish(b, channel, payload) == {}
  {
  }

  /** Handing one payload to each endpoint of a set yields as many
      deliveries as endpoints. */
  lemma {:induction false} DeliveriesCount(subs: set<SubId>, payload: Bytes)
    ensures |set s | s in subs :: Delivery(s, payload)| == |subs|
    decreases |subs|
  {
    if subs != {} {
      var x :| x in subs;
      DeliveriesCount(subs - {x}, payload);
      assert (set s | s in subs :: Delivery(s, payload))
          == (set s | s in subs - {x} :: Delivery(s, payload)) + {Delivery(x, payload)};
    }
  }

  /** The operations a sequence of requests applies to the registry. */
  datatype Op =
    | Subscribed(channel: Channel)
    | Released(reg: Registration)
    | Published(channel: Channel, payload: Bytes)

  /** The registry after one operation; publish only reads it. */
  function Step(b: Bus, op: Op): (r: Bus)
    ensures op.Published? ==> r == b
    ensures op.Subscribed? ==> r.next > b.next
    ensures r.next >= b.next
  {
    match op
    case Subscribed(c) => Subscribe(b, c).bus
    case Released(reg) => Release(b, reg)
    case Published(_, _) => b
  }

  /** The registry after a sequence of operations, applied in order. */
  function Run(b: Bus, ops: seq<Op>): (r: Bus)
    ensures r.next >= b.next
    decreases |ops|
  {
    if ops == [] then b else Run(Step(b, ops[0]), ops[1..])
  }

  /** No endpoint is issued twice: whatever operations follow a subscribe,
      a later subscribe creates a different endpoint. */
  lemma SubscribeNeverReissues(b: Bus, c: Channel, ops: seq<Op>, c': Channel)
    ensures Subscribe(Run(Subscribe(b, c).bus, ops), c').reg.sub != Subscribe(b, c).reg.sub
  {
  }

  /** Every reachable registry keeps the invariants. */
  lemma {:induction false} RunValid(b: Bus, ops: seq<Op>)
    requires Valid(b)
    ensures Valid(Run(b, ops))
    decreases |ops|
  {
    if ops != [] {
      RunValid(Step(b, ops[0]), ops[1..]);
    }
  }

  /** Publishes only read the registry: a sequence of them leaves it as
      it was. */
  lemma {:induction false} RunPublishesOnly(b: Bus, ops: seq<Op>)
    requires forall i :: 0 <= i < |ops| ==> ops[i].Published?
    ensures Run(b, ops) == b
    decreases |ops|
  {
    if ops != [] {
      RunPublishesOnly(Step(b, ops[0]), ops[1..]);
    }
  }

  /** A registered endpoint stays on its channel until its own release:
      subscribes only add, publishes change nothing, and the release of any
      other registration removes a different endpoint or works on a
      different channel. */
  lemma {:induction false} RunKeepsRegistered(b: Bus, reg: Registration, ops: seq<Op>)
    requires reg.sub in Members(b, reg.channel)
    requires forall i :: 0 <= i < |ops| && ops[i].Released? ==> ops[i].reg != reg
    ensures reg.sub in Members(Run(b, ops), reg.channel)
    decreases |ops|
  {
    if ops != [] {
      RunKeepsRegistered(Step(b, ops[0]), reg, ops[1..]);
    }
  }

  /** A released endpoint is never registered again: later subscribes
      create fresh endpoints and later releases only remove. */
  lemma {:induction false} RunKeepsReleased(b: Bus, reg: Registration, ops: seq<Op>)
    requires Valid(b)
    requires reg.sub < b.next
    requires reg.sub !in Members(b, reg.channel)
    ensures reg.sub !in Members(Run(b, ops), reg.channel)
    decreases |ops|
  {
    if ops != [] {
      var b' := Step(b, ops[0]);
      RunKeepsReleased(b', reg, ops[1..]);
    }
  }

  /** Release stays idempotent when other requests ran in between: a second
      release of the same registration, after any subscribes, releases and
      publishes, changes nothing. */
  lemma {:induction false} ReleaseIdempotentAfter(b: Bus, reg: Registration, ops: seq<Op>)
    requires Valid(b)
    requires reg.sub < b.next
    ensures Release(Run(Release(b, reg), ops), reg) == Run(Release(b, reg), ops)
  {
    var b1 := Release(b, reg);
    RunValid(b1, ops);
    RunKeepsReleased(b1, reg, ops);
    ReleaseAbsent(Run(b1, ops), reg);
  }
}
