/** What subscribing, unsubscribing and publishing achieve: who hears a channel afterwards,
    and that whoever has subscribed to it, and does not quit, handles every message once. */
module ClusterEffects {
  import opened Routing
  import opened Cluster

  /** The subscriber asked for the channel, by itself or within a range. */
  predicate AsksFor(sub: Sub, channel: nat) {
    channel in sub.channels || exists r :: r in sub.ranges && r.lo <= channel <= r.hi
  }

  /** The message director knows the subscriber, which asked for the channel; and if it did
      so only within ranges, its bucket of 65536 channels has not been lost. */
  predicate Hears(p: Process, s: nat, channel: nat) {
    && s in p.subs && p.subs[s].shared && AsksFor(p.subs[s], channel)
    && (channel in p.subs[s].channels || (s, channel / 0x1_0000) !in p.lost)
  }

  /** Whom a message on the channel is handed to. */
  lemma InterestedHear(c: Cluster, j: nat, s: nat, channel: nat)
    ensures s in Interested(c, j, channel) <==> j in c.processes && Hears(c.processes[j], s, channel)
  {
    if j in c.processes && s in c.processes[j].subs {
      var sub := c.processes[j].subs[s];
      AskingIsWanting(sub, channel);
    }
  }

  lemma AskingIsWanting(sub: Sub, channel: nat)
    ensures AsksFor(sub, channel) <==> Wants(sub, channel)
  {
    if exists r :: r in sub.ranges && r.lo <= channel <= r.hi {
      var r :| r in sub.ranges && r.lo <= channel <= r.hi;
      assert Contains(r, channel);
    }
    if exists r :: r in sub.ranges && Contains(r, channel) {
      var r :| r in sub.ranges && Contains(r, channel);
      assert r.lo <= channel <= r.hi;
    }
  }

  /** Only one process and one of its subscribers change. */
  ghost predicate OnlyTouches(c: Cluster, j: nat, s: nat, d: Cluster)
    requires j in c.processes
  {
    && d.messages == c.messages && d.log == c.log && d.processes.Keys == c.processes.Keys
    && (forall k :: k in c.processes && k != j ==> d.processes[k] == c.processes[k])
    && d.processes[j].queue == c.processes[j].queue
    && (forall t, channel :: t != s ==> (Hears(d.processes[j], t, channel) <==> Hears(c.processes[j], t, channel)))
  }

  /** A new subscriber hears nothing, and a name that is taken changes nothing. */
  lemma NewcomersHearNothing(c: Cluster, j: nat, s: nat)
    requires Sane(c) && j in c.processes
    ensures var d := Step(c, Local(j, Construct(s)));
            && OnlyTouches(c, j, s, d) && s in d.processes[j].subs
            && (s in c.processes[j].subs ==> d == c)
            && (s !in c.processes[j].subs ==> forall channel :: !Hears(d.processes[j], s, channel))
  {
  }

  /** Once the message director knows it, a subscriber hears whatever it asked for; what was
      lost before it was known, which never happens, would stay lost. */
  lemma KnownSubscribersHear(c: Cluster, j: nat, s: nat, channel: nat)
    requires Sane(c) && j in c.processes && s in c.processes[j].subs
    ensures var p, d := c.processes[j], Step(c, Local(j, Init(s)));
            && OnlyTouches(c, j, s, d)
            && s in d.processes[j].subs && d.processes[j].subs[s].shared
            && (forall x :: AsksFor(d.processes[j].subs[s], x) <==> AsksFor(p.subs[s], x))
            && (Hears(d.processes[j], s, channel) <==>
                  AsksFor(p.subs[s], channel) && (channel in p.subs[s].channels || (s, channel / 0x1_0000) !in p.lost))
  {
  }

  /** Who subscribes to a channel hears it, and hears nothing else that it did not hear. */
  lemma SubscribersHear(c: Cluster, j: nat, s: nat, channel: nat, x: nat)
    requires Sane(c) && j in c.processes && s in c.processes[j].subs
    ensures var p, d := c.processes[j], Step(c, Local(j, SubscribeChannel(s, channel)));
            && OnlyTouches(c, j, s, d)
            && s in d.processes[j].subs && channel in d.processes[j].subs[s].channels
            && d.processes[j].subs[s].shared == p.subs[s].shared
            && (Hears(d.processes[j], s, x) <==> (x == channel && p.subs[s].shared) || Hears(p, s, x))
  {
  }

  /** Who unsubscribes hears it only within a range from then on. */
  lemma UnsubscribersStopHearing(c: Cluster, j: nat, s: nat, channel: nat, x: nat)
    requires Sane(c) && j in c.processes && s in c.processes[j].subs
    ensures var p, d := c.processes[j], Step(c, Local(j, UnsubscribeChannel(s, channel)));
            && OnlyTouches(c, j, s, d)
            && (Hears(d.processes[j], s, x) <==>
                  if x != channel then Hears(p, s, x)
                  else p.subs[s].shared && (s, x / 0x1_0000) !in p.lost
                       && exists r :: r in p.subs[s].ranges && r.lo <= x <= r.hi)
  {
  }

  /** The bucket of the channel is one that the range reaches into. */
  predicate Reaches(r: Range, channel: nat) {
    r.lo / 0x1_0000 <= channel / 0x1_0000 <= r.hi / 0x1_0000
  }

  /** Who subscribes to a range it does not have hears all channels in it, and again those of
      its other ranges in the same buckets that were lost. */
  lemma RangesAreHeard(c: Cluster, j: nat, s: nat, r: Range, x: nat)
    requires Sane(c) && j in c.processes && s in c.processes[j].subs
    ensures var p, d := c.processes[j], Step(c, Local(j, SubscribeRange(s, r)));
            && OnlyTouches(c, j, s, d)
            && (r in p.subs[s].ranges ==> d == c)
            && (r !in p.subs[s].ranges ==>
                  (Hears(d.processes[j], s, x) <==>
                     && p.subs[s].shared && (AsksFor(p.subs[s], x) || r.lo <= x <= r.hi)
                     && (x in p.subs[s].channels || Reaches(r, x) || (s, x / 0x1_0000) !in p.lost)))
  {
    var p := c.processes[j];
    if r !in p.subs[s].ranges {
      var d := Step(c, Local(j, SubscribeRange(s, r)));
      RangeIsAsked(p.subs[s], d.processes[j].subs[s], r, x);
      SpanIsReached(s, r, x);
      assert (s, x / 0x1_0000) in d.processes[j].lost
        <==> (s, x / 0x1_0000) in p.lost && !(p.subs[s].shared && Reaches(r, x));
      OthersKeepTheirLosses(p.lost, d.processes[j].lost, s);
    }
  }

  lemma SpanIsReached(s: nat, r: Range, x: nat)
    ensures (s, x / 0x1_0000) in Pairs(s, Span(r)) <==> Reaches(r, x)
    ensures x / 0x1_0000 in Span(r) <==> Reaches(r, x)
  {
    var b := x / 0x1_0000;
    PairsHold(s, Span(r), b);
    assert b >= 0 && Bucket(r.lo) == r.lo / 0x1_0000 && Bucket(r.hi) == r.hi / 0x1_0000;
    assert Touches(r, b) <==> Reaches(r, x);
  }

  lemma PairsHold(s: nat, buckets: set<nat>, b: nat)
    ensures (s, b) in Pairs(s, buckets) <==> b in buckets
  {
    if (s, b) in Pairs(s, buckets) {
      var k :| k in buckets && (s, k) == (s, b);
      assert k == b;
    }
    if b in buckets {
      assert (s, b) == (s, b);
    }
  }

  lemma RangeIsAsked(was: Sub, sub: Sub, r: Range, x: nat)
    requires sub.channels == was.channels && sub.ranges == was.ranges + [r]
    ensures AsksFor(sub, x) <==> AsksFor(was, x) || r.lo <= x <= r.hi
  {
    assert r in sub.ranges;
    assert forall q :: q in was.ranges ==> q in sub.ranges;
  }

  /** What other subscribers have lost is not touched. */
  lemma OthersKeepTheirLosses(was: set<(nat, nat)>, lost: set<(nat, nat)>, s: nat)
    requires forall x: (nat, nat) :: x.0 != s ==> (x in lost <==> x in was)
    ensures forall t, b :: t != s ==> ((t, b) in lost <==> (t, b) in was)
  {
  }

  /** Who drops a range hears only what it asked for otherwise; and within other ranges only
      in buckets that the dropped one does not reach into. */
  lemma DroppedRangesAreNotHeard(c: Cluster, j: nat, s: nat, r: Range, x: nat)
    requires Sane(c) && j in c.processes && s in c.processes[j].subs && Distinct(c.processes[j].subs[s].ranges)
    ensures var p, d := c.processes[j], Step(c, Local(j, UnsubscribeRange(s, r)));
            && OnlyTouches(c, j, s, d)
            && (r !in p.subs[s].ranges ==> d == c)
            && (r in p.subs[s].ranges ==>
                  (Hears(d.processes[j], s, x) <==>
                     && p.subs[s].shared
                     && (|| x in p.subs[s].channels
                         || (!Reaches(r, x) && (s, x / 0x1_0000) !in p.lost
                             && exists q :: q in p.subs[s].ranges && q.lo <= x <= q.hi))))
  {
    var p := c.processes[j];
    if r in p.subs[s].ranges {
      var d := Step(c, Local(j, UnsubscribeRange(s, r)));
      WithoutRemoves(p.subs[s].ranges, r);
      OthersKeepTheirLosses(p.lost, d.processes[j].lost, s);
      SpanIsReached(s, r, x);
      var rest := Without(p.subs[s].ranges, r);
      assert d.processes[j].subs[s].ranges == rest;
      if Reaches(r, x) && exists q :: q in rest && q.lo <= x <= q.hi {
        var q :| q in rest && q.lo <= x <= q.hi;
        BucketsGrow(q, x);
        assert Touches(q, Bucket(x)) && TouchesBucket(rest, x / 0x1_0000);
        if p.subs[s].shared { DroppedBucketIsLost(p.lost, s, p.subs[s], r, x / 0x1_0000); }
      }
      assert !Reaches(r, x) ==> ((s, x / 0x1_0000) in d.processes[j].lost <==> (s, x / 0x1_0000) in p.lost);
      if r.lo <= x <= r.hi { BucketsGrow(r, x); }
    }
  }

  lemma DroppedBucketIsLost(lost: set<(nat, nat)>, s: nat, sub: Sub, r: Range, b: nat)
    requires sub.shared && b in Span(r) && TouchesBucket(Without(sub.ranges, r), b)
    ensures (s, b) in LostAfterUnsubscribe(lost, s, sub, r)
  {
    var shared := set k | k in Span(r) && TouchesBucket(Without(sub.ranges, r), k);
    assert b in shared;
    assert (s, b) in Pairs(s, shared);
  }

  lemma BucketsGrow(r: Range, x: nat)
    requires r.lo <= x <= r.hi
    ensures r.lo / 0x1_0000 <= x / 0x1_0000 <= r.hi / 0x1_0000
  {
  }

  /** Who shuts down hears nothing. */
  lemma NobodyHearsAfterwards(c: Cluster, j: nat, s: nat, x: nat)
    requires Sane(c) && j in c.processes && s in c.processes[j].subs
    ensures var d := Step(c, Local(j, Shutdown(s)));
            OnlyTouches(c, j, s, d) && !Hears(d.processes[j], s, x)
  {
    OthersKeepTheirLosses(c.processes[j].lost, Step(c, Local(j, Shutdown(s))).processes[j].lost, s);
  }

  /** Anybody, known or not, asks for the channel or for a range that reaches into its bucket. */
  predicate Asked(subs: map<nat, Sub>, channel: nat) {
    exists t :: t in subs && (channel in subs[t].channels || exists r :: r in subs[t].ranges && Reaches(r, channel))
  }

  /** A message is handed to whoever hears it in the publisher's process, and a copy is put on
      the queue of every process in which anybody asked for it. */
  lemma PublishedMessagesAreCopied(c: Cluster, i: nat, channel: nat, j: nat, s: nat)
    requires Sane(c) && i in c.processes && j in c.processes
    ensures var d := Step(c, Publish(i, channel));
            && d.messages == c.messages + [Message(channel, i)]
            && d.processes.Keys == c.processes.Keys
            && d.log[Delivery(|c.messages|, j, s)]
               == (if j == i && Hears(c.processes[i], s, channel) then 1 else 0)
            && d.processes[j].subs == c.processes[j].subs && d.processes[j].lost == c.processes[j].lost
            && d.processes[j].queue == c.processes[j].queue
               + (if Asked(c.processes[j].subs, channel) then [|c.messages|] else [])
  {
    PublishAdds(c, i, channel, Delivery(|c.messages|, j, s));
    InterestedHear(c, i, s, channel);
    BoundIsAsked(c.processes[j].subs, channel);
    assert c.processes[j].queue + [] == c.processes[j].queue;
  }

  lemma BoundIsAsked(subs: map<nat, Sub>, channel: nat)
    ensures Bound(subs, channel) <==> Asked(subs, channel)
  {
    if ChannelHolders(subs, channel) != {} {
      var t :| t in ChannelHolders(subs, channel);
      assert t in subs && channel in subs[t].channels;
    }
    if RangeHolders(subs, Bucket(channel)) != {} {
      var x :| x in RangeHolders(subs, Bucket(channel));
      assert x.0 in subs && x.1 in subs[x.0].ranges && Reaches(x.1, channel);
    }
    if Asked(subs, channel) {
      var t :| t in subs && (channel in subs[t].channels || exists r :: r in subs[t].ranges && Reaches(r, channel));
      if channel in subs[t].channels {
        assert t in ChannelHolders(subs, channel);
      } else {
        var r :| r in subs[t].ranges && Reaches(r, channel);
        assert Touches(r, Bucket(channel));
        assert (t, r) in RangeHolders(subs, Bucket(channel));
      }
    }
  }

  /** The oldest copy on the queue is handed to whoever hears it now, unless the process
      published it itself. */
  lemma CopiesAreHandedOut(c: Cluster, j: nat, d: Delivery)
    requires Sane(c) && j in c.processes && d.process in c.processes && d.msg < |c.messages|
    ensures var e := Step(c, Consume(j));
            var queue := c.processes[j].queue;
            && e.messages == c.messages && e.processes.Keys == c.processes.Keys
            && (queue == [] ==> e == c)
            && (queue != [] ==>
                  && e.processes[j] == c.processes[j].(queue := queue[1..])
                  && e.log[d] == c.log[d]
                     + (if d.process == j && d.msg == queue[0] && c.messages[d.msg].origin != j
                           && Hears(c.processes[j], d.sub, c.messages[d.msg].channel) then 1 else 0))
  {
    if c.processes[j].queue != [] {
      assert c.processes[j].queue[0] in c.processes[j].queue;
      ConsumeAdds(c, j, d);
      InterestedHear(c, j, d.sub, c.messages[d.msg].channel);
    }
  }

  /* ---- From subscribing to handling ---- */

  /** The subscriber is known and asks for the channel by itself. */
  predicate Subscribed(c: Cluster, j: nat, s: nat, channel: nat) {
    j in c.processes && s in c.processes[j].subs && c.processes[j].subs[s].shared
    && channel in c.processes[j].subs[s].channels
  }

  lemma SubscribedIsInterested(c: Cluster, j: nat, s: nat, channel: nat)
    requires Subscribed(c, j, s, channel)
    ensures s in Interested(c, j, channel)
  {
    InterestedHear(c, j, s, channel);
  }

  /** It neither unsubscribes from the channel nor shuts down. */
  predicate Stays(actions: seq<Action>, j: nat, s: nat, channel: nat) {
    Local(j, UnsubscribeChannel(s, channel)) !in actions && Local(j, Shutdown(s)) !in actions
  }

  lemma StepStaysSubscribed(c: Cluster, a: Action, j: nat, s: nat, channel: nat)
    requires Sane(c) && Subscribed(c, j, s, channel) && Stays([a], j, s, channel)
    ensures Subscribed(Step(c, a), j, s, channel)
  {
    match a
    case Local(k, op) =>
      if k == j && op.s == s {
        assert a in [a];
        match op
        case Construct(_) =>
        case Init(_) =>
        case SubscribeChannel(_, x) =>
        case UnsubscribeChannel(_, x) =>
        case SubscribeRange(_, r) =>
        case UnsubscribeRange(_, r) =>
        case Shutdown(_) =>
      }
    case Publish(i, x) => if i in c.processes { PublishedMessagesAreCopied(c, i, x, j, s); }
    case Consume(k) =>
  }

  lemma {:induction false} RunStaysSubscribed(c: Cluster, actions: seq<Action>, j: nat, s: nat, channel: nat)
    requires Sane(c) && Subscribed(c, j, s, channel) && Stays(actions, j, s, channel)
    ensures Subscribed(Run(c, actions), j, s, channel) && StaysInterested(c, actions, j, s, channel)
    decreases |actions|
  {
    hide Subscribed, Step, Interested;
    if actions != [] {
      var rest, a := actions[..|actions| - 1], actions[|actions| - 1];
      assert forall x :: x in rest ==> x in actions;
      RunStaysSubscribed(c, rest, j, s, channel);
      assert Stays([a], j, s, channel) by { assert a in actions; }
      StepStaysSubscribed(Run(c, rest), a, j, s, channel);
    }
    SubscribedIsInterested(Run(c, actions), j, s, channel);
  }

  lemma RunIsStep(c: Cluster, a: Action)
    requires Sane(c)
    ensures Run(c, [a]) == Step(c, a)
  {
    assert [a][..0] == [];
  }

  lemma RunAppends(c: Cluster, actions: seq<Action>, a: Action)
    requires Sane(c)
    ensures Run(c, actions + [a]) == Step(Run(c, actions), a)
  {
    assert (actions + [a])[..|actions|] == actions;
    StepIsSane(Run(c, actions), a);
  }

  /** A new subscriber is made, handed to the message director and subscribed to a channel. */
  function Joining(j: nat, s: nat, channel: nat): seq<Action> {
    [Local(j, Construct(s))] + [Local(j, Init(s))] + [Local(j, SubscribeChannel(s, channel))]
  }

  lemma JoiningSubscribes(c: Cluster, j: nat, s: nat, channel: nat)
    requires Sane(c) && j in c.processes && s !in c.processes[j].subs
    ensures Subscribed(Run(c, Joining(j, s, channel)), j, s, channel)
  {
    hide Step, Run, Subscribed;
    RunIsStep(c, Local(j, Construct(s)));
    var constructed := Run(c, [Local(j, Construct(s))]);
    NewcomersHearNothing(c, j, s);
    RunAppends(c, [Local(j, Construct(s))], Local(j, Init(s)));
    var known := Run(c, [Local(j, Construct(s))] + [Local(j, Init(s))]);
    KnownSubscribersHear(constructed, j, s, channel);
    RunAppends(c, [Local(j, Construct(s))] + [Local(j, Init(s))], Local(j, SubscribeChannel(s, channel)));
    SubscribersHear(known, j, s, channel, channel);
    KnownKeepsItsName(known, Run(c, Joining(j, s, channel)), j, s, channel);
  }

  /** A new subscriber, once known and subscribed to a channel, handles every message that is
      published on it from then on exactly once, as long as it stays, whatever else happens in
      between and afterwards: at once, if the publisher is in its own process, and otherwise
      as soon as no copy is left on its queue. */
  lemma SubscribersHandleEverythingOnce(c: Cluster, j: nat, s: nat, channel: nat, before: seq<Action>, i: nat, after: seq<Action>)
    requires Sane(c) && j in c.processes && i in c.processes && s !in c.processes[j].subs
    requires Stays(before, j, s, channel) && Stays(after, j, s, channel)
    ensures var joined := Run(Run(c, Joining(j, s, channel)), before);
            var e := Run(Run(joined, [Publish(i, channel)]), after);
            var d := Delivery(|joined.messages|, j, s);
            && e.log[d] <= 1 && j in e.processes
            && (j == i || |joined.messages| !in e.processes[j].queue ==> e.log[d] == 1)
  {
    hide Step, Run, Interested, Subscribed, Joining;
    JoiningSubscribes(c, j, s, channel);
    var subscribed := Run(c, Joining(j, s, channel));
    RunStaysSubscribed(subscribed, before, j, s, channel);
    var joined := Run(subscribed, before);
    SubscribedIsInterested(joined, j, s, channel);
    assert Stays([Publish(i, channel)], j, s, channel);
    StepStaysSubscribed(joined, Publish(i, channel), j, s, channel);
    RunIsStep(joined, Publish(i, channel));
    RunStaysSubscribed(Run(joined, [Publish(i, channel)]), after, j, s, channel);
    ExactlyOnce(joined, i, channel, after, j, s);
  }

  lemma KnownKeepsItsName(c: Cluster, d: Cluster, j: nat, s: nat, channel: nat)
    requires j in c.processes && s in c.processes[j].subs && c.processes[j].subs[s].shared
    requires OnlyTouches(c, j, s, d) && s in d.processes[j].subs
    requires channel in d.processes[j].subs[s].channels && d.processes[j].subs[s].shared == c.processes[j].subs[s].shared
    ensures Subscribed(d, j, s, channel)
  {
  }
}
