/** Several processes that share a broker. A publish is handed to the publisher's own
    subscribers at once and copied to every queue bound for its channel, its own included;
    a process drops the copies it published itself. */
module Cluster {
  import opened Routing

  /** What travels with every copy: the routing key and the publisher's queue name. */
  datatype Message = Message(channel: nat, origin: nat)

  /** A process: its subscribers, and the broker's queue of message numbers for it. */
  datatype Process = Process(subs: map<nat, Sub>, lost: set<(nat, nat)>, queue: seq<nat>)

  datatype Delivery = Delivery(msg: nat, process: nat, sub: nat)

  datatype Cluster = Cluster(processes: map<nat, Process>, messages: seq<Message>, log: multiset<Delivery>)

  datatype Op =
    | Construct(s: nat)
    | Init(s: nat)
    | SubscribeChannel(s: nat, channel: nat)
    | UnsubscribeChannel(s: nat, channel: nat)
    | SubscribeRange(s: nat, r: Range)
    | UnsubscribeRange(s: nat, r: Range)
    | Shutdown(s: nat)

  datatype Action = Local(process: nat, op: Op) | Publish(process: nat, channel: nat) | Consume(process: nat)

  function Put(p: Process, s: nat, sub: Sub): Process {
    p.(subs := p.subs[s := sub])
  }

  function Apply(p: Process, op: Op): Process {
    if op.Construct? then (if op.s in p.subs then p else Put(p, op.s, Sub(false, {}, [])))
    else if op.s !in p.subs then p
    else
      var sub := p.subs[op.s];
      match op
      case Init(s) => Put(p, s, Share(sub))
      case SubscribeChannel(s, channel) => Put(p, s, WithChannel(sub, channel))
      case UnsubscribeChannel(s, channel) => Put(p, s, WithoutChannel(sub, channel))
      case SubscribeRange(s, r) =>
        if r in sub.ranges then p
        else Put(p, s, WithRange(sub, r)).(lost := LostAfterSubscribe(p.lost, s, sub, r))
      case UnsubscribeRange(s, r) =>
        if r !in sub.ranges then p
        else Put(p, s, WithoutRange(sub, r)).(lost := LostAfterUnsubscribe(p.lost, s, sub, r))
      case Shutdown(s) =>
        Put(p, s, Sub(sub.shared, {}, [])).(lost := set x | x in p.lost && x.0 != s)
  }

  /** The subscribers of a process that a message on the channel is handed to now. */
  function Interested(c: Cluster, process: nat, channel: nat): set<nat> {
    if process in c.processes then Receivers(c.processes[process].subs, c.processes[process].lost, channel) else {}
  }

  function Deliveries(msg: nat, process: nat, subs: set<nat>): multiset<Delivery> {
    multiset(set s | s in subs :: Delivery(msg, process, s))
  }

  /** One copy for every queue that is bound when the message is published. */
  function FanOut(processes: map<nat, Process>, channel: nat, msg: nat): map<nat, Process> {
    map j | j in processes ::
      if Bound(processes[j].subs, channel) then processes[j].(queue := processes[j].queue + [msg]) else processes[j]
  }

  function OnPublish(c: Cluster, process: nat, channel: nat): Cluster {
    Cluster(FanOut(c.processes, channel, |c.messages|), c.messages + [Message(channel, process)],
            c.log + Deliveries(|c.messages|, process, Interested(c, process, channel)))
  }

  function OnConsume(c: Cluster, process: nat): Cluster
    requires Sane(c)
  {
    if process !in c.processes || c.processes[process].queue == [] then c
    else
      var p := c.processes[process];
      var msg := p.queue[0];
      assert msg in p.queue;
      var m := c.messages[msg];
      var d := c.(processes := c.processes[process := p.(queue := p.queue[1..])]);
      if m.origin == process then d
      else d.(log := d.log + Deliveries(msg, process, Interested(c, process, m.channel)))
  }

  function Step(c: Cluster, a: Action): Cluster
    requires Sane(c)
  {
    match a
    case Local(j, op) =>
      if j in c.processes then c.(processes := c.processes[j := Apply(c.processes[j], op)]) else c
    case Publish(j, channel) => if j in c.processes then OnPublish(c, j, channel) else c
    case Consume(j) => OnConsume(c, j)
  }

  /* ---- Copies under way and copies handled ---- */

  function Copies(queue: seq<nat>, msg: nat): nat {
    multiset(queue)[msg]
  }

  /** Copies in the queue that the process will not drop as its own. */
  function InFlight(c: Cluster, process: nat, msg: nat): nat
    requires process in c.processes && msg < |c.messages|
  {
    if c.messages[msg].origin == process then 0 else Copies(c.processes[process].queue, msg)
  }

  /** Queues and log only speak of messages that were published. */
  ghost predicate Sane(c: Cluster) {
    && (forall j, m :: j in c.processes && m in c.processes[j].queue ==> m < |c.messages|)
    && (forall d :: d in c.log ==> d.msg < |c.messages|)
  }

  /** No subscriber has handled a message and has another copy coming, or either twice. */
  ghost predicate AtMostOnce(c: Cluster) {
    && Sane(c)
    && (forall j, m: nat :: j in c.processes && m < |c.messages| ==> Copies(c.processes[j].queue, m) <= 1)
    && (forall d: Delivery :: d.process in c.processes && d.msg < |c.messages| ==> c.log[d] + InFlight(c, d.process, d.msg) <= 1)
  }

  lemma DeliveredOnce(msg: nat, process: nat, subs: set<nat>, d: Delivery)
    ensures Deliveries(msg, process, subs)[d] == if d.msg == msg && d.process == process && d.sub in subs then 1 else 0
  {
    var all := set s | s in subs :: Delivery(msg, process, s);
    assert d in all <==> d.msg == msg && d.process == process && d.sub in subs;
  }

  lemma LocalIsSane(c: Cluster, j: nat, op: Op)
    requires j in c.processes
    ensures Apply(c.processes[j], op).queue == c.processes[j].queue
  {}

  lemma StepIsSane(c: Cluster, a: Action)
    requires Sane(c)
    ensures Sane(Step(c, a))
    ensures c.messages <= Step(c, a).messages && Step(c, a).processes.Keys == c.processes.Keys
  {
    match a
    case Local(j, op) => if j in c.processes { LocalIsSane(c, j, op); }
    case Publish(j, channel) =>
      forall d | d in Deliveries(|c.messages|, j, Interested(c, j, channel)) ensures d.msg == |c.messages| {
        DeliveredOnce(|c.messages|, j, Interested(c, j, channel), d);
      }
    case Consume(j) => ConsumeIsSane(c, j);
  }

  lemma ConsumeIsSane(c: Cluster, j: nat)
    requires Sane(c)
    ensures Sane(OnConsume(c, j))
  {
    if j in c.processes && c.processes[j].queue != [] {
      var msg := c.processes[j].queue[0];
      assert msg in c.processes[j].queue;
      assert forall m :: m in c.processes[j].queue[1..] ==> m in c.processes[j].queue;
      forall d | d in Deliveries(msg, j, Interested(c, j, c.messages[msg].channel)) ensures d.msg == msg {
        DeliveredOnce(msg, j, Interested(c, j, c.messages[msg].channel), d);
      }
    }
  }

  /** What a publish adds: the publisher's own interested subscribers handle it at once,
      and every other bound process gets one copy. */
  lemma PublishAdds(c: Cluster, i: nat, channel: nat, d: Delivery)
    requires Sane(c) && i in c.processes && d.process in c.processes && d.msg <= |c.messages|
    ensures var e := OnPublish(c, i, channel);
            && Sane(e)
            && e.log[d] == c.log[d] + (if d.msg == |c.messages| && d.process == i && d.sub in Interested(c, i, channel) then 1 else 0)
            && Copies(e.processes[d.process].queue, d.msg) == Copies(c.processes[d.process].queue, d.msg)
               + (if d.msg == |c.messages| && Bound(c.processes[d.process].subs, channel) then 1 else 0)
            && (d.msg == |c.messages| ==> c.log[d] == 0 && Copies(c.processes[d.process].queue, d.msg) == 0)
  {
    StepIsSane(c, Publish(i, channel));
    DeliveredOnce(|c.messages|, i, Interested(c, i, channel), d);
    if d.msg == |c.messages| {
      assert d !in c.log;
      assert d.msg !in c.processes[d.process].queue;
    }
  }

  /** What consuming does to one delivery: the copy at the head becomes a delivery to
      every interested subscriber, unless it is the process's own. */
  lemma ConsumeAdds(c: Cluster, j: nat, d: Delivery)
    requires Sane(c) && d.process in c.processes && d.msg < |c.messages|
    ensures var e := OnConsume(c, j);
            var handles := j == d.process && c.processes[j].queue != [] && c.processes[j].queue[0] == d.msg;
            && e.messages == c.messages && e.processes.Keys == c.processes.Keys
            && e.log[d] == c.log[d] + (if handles && c.messages[d.msg].origin != j
                                          && d.sub in Interested(c, j, c.messages[d.msg].channel) then 1 else 0)
            && Copies(e.processes[d.process].queue, d.msg) == Copies(c.processes[d.process].queue, d.msg) - (if handles then 1 else 0)
  {
    if j in c.processes && c.processes[j].queue != [] {
      var queue := c.processes[j].queue;
      assert queue == [queue[0]] + queue[1..];
      assert queue[0] in queue;
      DeliveredOnce(queue[0], j, Interested(c, j, c.messages[queue[0]].channel), d);
    }
  }

  /** Nothing else touches queues or log. */
  lemma LocalAdds(c: Cluster, j: nat, op: Op, k: nat)
    requires Sane(c) && k in c.processes
    ensures var e := Step(c, Local(j, op));
            e.log == c.log && e.messages == c.messages && k in e.processes && e.processes[k].queue == c.processes[k].queue
  {
    if j in c.processes { LocalIsSane(c, j, op); }
  }

  lemma StepAtMostOnce(c: Cluster, a: Action)
    requires AtMostOnce(c)
    ensures AtMostOnce(Step(c, a))
  {
    var e := Step(c, a);
    StepIsSane(c, a);
    hide OnPublish, OnConsume, Apply, Bound, Interested;
    forall d: Delivery | d.process in e.processes && d.msg < |e.messages|
      ensures Copies(e.processes[d.process].queue, d.msg) <= 1 && e.log[d] + InFlight(e, d.process, d.msg) <= 1
    {
      match a
      case Local(j, op) => LocalAdds(c, j, op, d.process);
      case Publish(i, channel) => if i in c.processes { PublishOnce(c, i, channel, d); }
      case Consume(j) => ConsumeAdds(c, j, d);
    }
    forall j, m: nat | j in e.processes && m < |e.messages| ensures Copies(e.processes[j].queue, m) <= 1 {
      assert Delivery(m, j, 0).process == j && Delivery(m, j, 0).msg == m;
    }
  }

  lemma PublishOnce(c: Cluster, i: nat, channel: nat, d: Delivery)
    requires AtMostOnce(c) && i in c.processes && d.process in c.processes && d.msg <= |c.messages|
    ensures var e := OnPublish(c, i, channel);
            d.msg < |e.messages| && d.process in e.processes
            && Copies(e.processes[d.process].queue, d.msg) <= 1 && e.log[d] + InFlight(e, d.process, d.msg) <= 1
  {
    PublishAdds(c, i, channel, d);
  }

  /** A delivery only happens to a subscriber that is interested at that moment. */
  lemma OnlyInterestedHandle(c: Cluster, a: Action, d: Delivery)
    requires Sane(c) && Step(c, a).log[d] > c.log[d]
    ensures d.process in c.processes && d.msg < |Step(c, a).messages|
    ensures d.sub in Interested(c, d.process, Step(c, a).messages[d.msg].channel)
  {
    StepIsSane(c, a);
    assert d in Step(c, a).log;
    match a
    case Local(j, op) =>
    case Publish(j, channel) => DeliveredOnce(|c.messages|, j, Interested(c, j, channel), d);
    case Consume(j) =>
      if j in c.processes && c.processes[j].queue != [] {
        var msg := c.processes[j].queue[0];
        assert msg in c.processes[j].queue;
        DeliveredOnce(msg, j, Interested(c, j, c.messages[msg].channel), d);
      }
  }

  /* ---- Whole runs ---- */

  function Run(c: Cluster, actions: seq<Action>): (d: Cluster)
    requires Sane(c)
    ensures Sane(d) && c.messages <= d.messages && d.processes.Keys == c.processes.Keys
    decreases |actions|
  {
    if actions == [] then c
    else
      var before := Run(c, actions[..|actions| - 1]);
      StepIsSane(before, actions[|actions| - 1]);
      Step(before, actions[|actions| - 1])
  }

  lemma {:induction false} RunAtMostOnce(c: Cluster, actions: seq<Action>)
    requires AtMostOnce(c)
    ensures AtMostOnce(Run(c, actions))
    decreases |actions|
  {
    if actions != [] {
      RunAtMostOnce(c, actions[..|actions| - 1]);
      StepAtMostOnce(Run(c, actions[..|actions| - 1]), actions[|actions| - 1]);
    }
  }

  /** The subscriber is interested in the channel when it is published to and at every
      moment of the run that follows. */
  ghost predicate StaysInterested(c: Cluster, actions: seq<Action>, process: nat, s: nat, channel: nat)
    requires Sane(c)
    decreases |actions|
  {
    && s in Interested(Run(c, actions), process, channel)
    && (actions != [] ==> StaysInterested(c, actions[..|actions| - 1], process, s, channel))
  }

  /** One delivery is made or still to be made. */
  ghost predicate Owed(c: Cluster, d: Delivery) {
    d.process in c.processes && d.msg < |c.messages| && c.log[d] + InFlight(c, d.process, d.msg) == 1
  }

  lemma StepStaysOwed(c: Cluster, a: Action, d: Delivery)
    requires Sane(c) && Owed(c, d) && d.sub in Interested(c, d.process, c.messages[d.msg].channel)
    ensures Owed(Step(c, a), d)
  {
    StepIsSane(c, a);
    hide OnPublish, OnConsume, Apply, Bound, Interested;
    match a
    case Local(j, op) => LocalAdds(c, j, op, d.process);
    case Publish(i, channel) => if i in c.processes { PublishAdds(c, i, channel, d); }
    case Consume(j) => ConsumeAdds(c, j, d);
  }

  lemma PublishOwes(c: Cluster, i: nat, channel: nat, j: nat, s: nat)
    requires Sane(c) && i in c.processes && s in Interested(c, j, channel)
    ensures Owed(Step(c, Publish(i, channel)), Delivery(|c.messages|, j, s))
  {
    ReceiversAreBound(c.processes[j].subs, c.processes[j].lost, channel);
    PublishAdds(c, i, channel, Delivery(|c.messages|, j, s));
  }

  lemma {:induction false} RunStaysOwed(c: Cluster, actions: seq<Action>, d: Delivery)
    requires Sane(c) && Owed(c, d) && StaysInterested(c, actions, d.process, d.sub, c.messages[d.msg].channel)
    ensures Owed(Run(c, actions), d)
    decreases |actions|
  {
    hide Interested, Step;
    if actions != [] {
      assert StaysInterested(c, actions[..|actions| - 1], d.process, d.sub, c.messages[d.msg].channel);
      RunStaysOwed(c, actions[..|actions| - 1], d);
      StepStaysOwed(Run(c, actions[..|actions| - 1]), actions[|actions| - 1], d);
    }
  }

  /** A subscriber that is interested when a message is published, and stays so, handles it
      exactly once: at once in the publisher's own process, and in any other as soon as
      the copy owed to it has been consumed. */
  lemma ExactlyOnce(c: Cluster, i: nat, channel: nat, actions: seq<Action>, j: nat, s: nat)
    requires Sane(c) && i in c.processes && s in Interested(c, j, channel)
    requires Sane(Step(c, Publish(i, channel))) && StaysInterested(Step(c, Publish(i, channel)), actions, j, s, channel)
    ensures var e := Run(Step(c, Publish(i, channel)), actions);
            var d := Delivery(|c.messages|, j, s);
            && Owed(e, d)
            && (j == i ==> e.log[d] == 1)
            && (|c.messages| !in e.processes[j].queue ==> e.log[d] == 1)
  {
    PublishOwes(c, i, channel, j, s);
    RunStaysOwed(Step(c, Publish(i, channel)), actions, Delivery(|c.messages|, j, s));
  }

  /* ---- Ranges that keep to their own buckets ---- */

  ghost predicate Tidy(c: Cluster) {
    forall j, s :: j in c.processes && s in c.processes[j].subs ==>
      Distinct(c.processes[j].subs[s].ranges) && DisjointBuckets(c.processes[j].subs[s].ranges)
  }

  ghost predicate NothingLost(c: Cluster) {
    forall j :: j in c.processes ==> c.processes[j].lost == {}
  }

  lemma ApplyLosesNothing(p: Process, op: Op)
    requires p.lost == {}
    requires forall s :: s in p.subs ==> Distinct(p.subs[s].ranges) && DisjointBuckets(p.subs[s].ranges)
    ensures Apply(p, op).lost == {}
  {
    if op.UnsubscribeRange? && op.s in p.subs && op.r in p.subs[op.s].ranges {
      DisjointRangesLoseNothing(op.s, p.subs[op.s], op.r);
    }
  }

  lemma StepLosesNothing(c: Cluster, a: Action)
    requires Sane(c) && NothingLost(c) && Tidy(c)
    ensures NothingLost(Step(c, a))
  {
    hide Apply, Bound, Interested;
    if a.Local? && a.process in c.processes { ApplyLosesNothing(c.processes[a.process], a.op); }
  }

  /** Tidy before every action of the run. */
  ghost predicate StaysTidy(c: Cluster, actions: seq<Action>)
    requires Sane(c)
    decreases |actions|
  {
    actions != [] ==> Tidy(Run(c, actions[..|actions| - 1])) && StaysTidy(c, actions[..|actions| - 1])
  }

  /** If the ranges of every subscriber always touch different buckets, nothing is ever
      lost, so that being interested is what a scan of the subscribers would say. */
  lemma {:induction false} TidyRunsLoseNothing(c: Cluster, actions: seq<Action>)
    requires Sane(c) && NothingLost(c) && StaysTidy(c, actions)
    ensures NothingLost(Run(c, actions))
    decreases |actions|
  {
    hide Tidy, Step;
    if actions != [] {
      TidyRunsLoseNothing(c, actions[..|actions| - 1]);
      StepLosesNothing(Run(c, actions[..|actions| - 1]), actions[|actions| - 1]);
    }
  }

  lemma InterestedIsScanned(c: Cluster, j: nat, channel: nat)
    requires NothingLost(c) && j in c.processes
    ensures Interested(c, j, channel) == Scan(c.processes[j].subs, channel)
  {
    NothingLostNothingMissed(c.processes[j].subs, channel);
  }
}
