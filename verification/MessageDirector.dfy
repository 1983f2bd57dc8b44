/** One process: its subscribers, and the reference counts, bindings and dispatch indexes
    that spare it a scan of all of them. */
module MessageDirector {
  import opened Routing

  class ChannelSubscriber {
    var shared: bool
    var localChannels: set<nat>
    var localRanges: seq<Range>

    ghost function State(): Sub
      reads this
    {
      Sub(shared, localChannels, localRanges)
    }

    constructor ()
      ensures State() == Sub(false, {}, [])
    {
      shared, localChannels, localRanges := false, {}, [];
    }

    method IsWithinLocalRange(channel: nat) returns (within: bool)
      ensures within <==> WithinLocalRange(State(), channel)
    {
      for i := 0 to |localRanges|
        invariant forall j :: 0 <= j < i ==> !Contains(localRanges[j], channel)
      {
        if localRanges[i].lo <= channel <= localRanges[i].hi {
          assert localRanges[i] in State().ranges && Contains(localRanges[i], channel);
          return true;
        }
      }
      return false;
    }
  }

  class MessageDirector {
    ghost var all: set<ChannelSubscriber>
    ghost var lost: set<(ChannelSubscriber, nat)>
    var subscribers: set<ChannelSubscriber>
    var globalChannels: map<nat, nat>
    var globalBuckets: map<nat, nat>
    var channelIndex: map<nat, set<ChannelSubscriber>>
    var bucketIndex: map<nat, set<ChannelSubscriber>>
    var bindings: set<Binding>

    ghost function Subs(): map<ChannelSubscriber, Sub>
      reads this, all
    {
      map s | s in all :: s.State()
    }

    ghost function State(): Tables<ChannelSubscriber>
      reads this
    {
      Tables(globalChannels, globalBuckets, channelIndex, bucketIndex, bindings)
    }

    ghost predicate Valid()
      reads this, all
    {
      Consistent(Subs(), lost, State())
    }

    constructor ()
      ensures Valid() && all == {} && lost == {}
    {
      all, lost, subscribers := {}, {}, {};
      globalChannels, globalBuckets, channelIndex, bucketIndex, bindings := map[], map[], map[], map[], {};
    }

    /** A subscriber under construction: its subscriptions count, but it is not indexed. */
    method Construct() returns (s: ChannelSubscriber)
      requires Valid()
      modifies this
      ensures Valid() && fresh(s) && all == old(all) + {s} && lost == old(lost)
      ensures Subs() == old(Subs())[s := Sub(false, {}, [])]
    {
      ghost var subs := Subs();
      s := new ChannelSubscriber();
      all := all + {s};
      assert Subs() == subs[s := Sub(false, {}, [])];
      NewcomerKeeps(subs, lost, State(), s);
    }

    /* ---- Channels ---- */

    method SubscribeChannel(s: ChannelSubscriber, channel: nat)
      requires Valid() && s in all
      modifies this, s
      ensures Valid() && all == old(all) && lost == old(lost) && subscribers == old(subscribers)
      ensures Subs() == old(Subs())[s := WithChannel(old(Subs())[s], channel)]
    {
      hide Consistent;
      if channel in s.localChannels {
        assert s.localChannels + {channel} == s.localChannels;
        return;
      }
      SubscribeChannelKeeps(Subs(), lost, State(), s, channel);
      OpenChannel(s, channel);
      assert Subs() == old(Subs())[s := WithChannel(old(Subs())[s], channel)];
    }

    method OpenChannel(s: ChannelSubscriber, channel: nat)
      modifies this`channelIndex, this`globalChannels, this`bindings, s`localChannels
      ensures s.localChannels == old(s.localChannels) + {channel}
      ensures channelIndex == if s.shared then Insert(old(channelIndex), channel, s) else old(channelIndex)
      ensures globalChannels == Acquire(old(globalChannels), channel)
      ensures bindings == if channel in old(globalChannels) then old(bindings) else old(bindings) + {Point(channel)}
    {
      s.localChannels := s.localChannels + {channel};
      if s.shared { channelIndex := Insert(channelIndex, channel, s); }
      if channel in globalChannels {
        globalChannels := globalChannels[channel := globalChannels[channel] + 1];
        return;
      }
      bindings := bindings + {Point(channel)};
      globalChannels := globalChannels[channel := 1];
    }

    method UnsubscribeChannel(s: ChannelSubscriber, channel: nat)
      requires Valid() && s in all
      modifies this, s
      ensures Valid() && all == old(all) && lost == old(lost) && subscribers == old(subscribers)
      ensures Subs() == old(Subs())[s := WithoutChannel(old(Subs())[s], channel)]
    {
      hide Consistent;
      if channel !in s.localChannels {
        assert s.localChannels - {channel} == s.localChannels;
        return;
      }
      UnsubscribeChannelKeeps(Subs(), lost, State(), s, channel);
      CloseChannel(s, channel);
      assert Subs() == old(Subs())[s := WithoutChannel(old(Subs())[s], channel)];
    }

    method CloseChannel(s: ChannelSubscriber, channel: nat)
      requires channel in globalChannels && globalChannels[channel] > 0
      modifies this`channelIndex, this`globalChannels, this`bindings, s`localChannels
      ensures s.localChannels == old(s.localChannels) - {channel}
      ensures channelIndex == Erase(old(channelIndex), channel, s)
      ensures globalChannels == Release(old(globalChannels), channel)
      ensures bindings == if old(globalChannels)[channel] == 1 then old(bindings) - {Point(channel)} else old(bindings)
    {
      s.localChannels := s.localChannels - {channel};
      channelIndex := Erase(channelIndex, channel, s);
      globalChannels := globalChannels[channel := globalChannels[channel] - 1];
      if globalChannels[channel] == 0 {
        globalChannels := globalChannels - {channel};
        bindings := bindings - {Point(channel)};
      }
    }

    /* ---- Ranges ---- */

    method SubscribeRange(s: ChannelSubscriber, min: nat, max: nat)
      requires Valid() && s in all
      modifies this, s
      ensures Valid() && all == old(all) && subscribers == old(subscribers)
      ensures var sub, r := old(Subs())[s], Range(min, max);
              if r in sub.ranges then Subs() == old(Subs()) && lost == old(lost)
              else Subs() == old(Subs())[s := WithRange(sub, r)] && lost == LostAfterSubscribe(old(lost), s, sub, r)
    {
      hide Consistent, LostAfterSubscribe, AcquireAll, InsertAll, Blocks, Span;
      var r := Range(min, max);
      if r in s.localRanges { return; }
      SubscribeRangeKeeps(Subs(), lost, State(), s, r);
      ghost var sub := Subs()[s];
      s.localRanges := s.localRanges + [r];
      if s.shared { IndexRange(s, r); }
      BindRange(r);
      lost := LostAfterSubscribe(lost, s, sub, r);
      assert Subs() == old(Subs())[s := WithRange(sub, r)];
    }

    method IndexRange(s: ChannelSubscriber, r: Range)
      modifies `bucketIndex
      ensures bucketIndex == InsertAll(old(bucketIndex), Span(r), s)
    {
      var bucket := Bucket(r.lo);
      while bucket <= Bucket(r.hi)
        invariant Bucket(r.lo) <= bucket
        invariant bucket <= Bucket(r.hi) + 1 || bucket == Bucket(r.lo)
        invariant bucketIndex == InsertAll(old(bucketIndex), Below(r, bucket), s)
        decreases Bucket(r.hi) + 1 - bucket
      {
        NextBelow(r, bucket);
        bucketIndex := Insert(bucketIndex, bucket, s);
        bucket := bucket + 1;
      }
      AllBelow(r, bucket);
    }

    method BindRange(r: Range)
      modifies `globalBuckets, `bindings
      ensures globalBuckets == AcquireAll(old(globalBuckets), Span(r))
      ensures bindings == old(bindings) + Blocks(Span(r) - old(globalBuckets).Keys)
    {
      var bucket := Bucket(r.lo);
      while bucket <= Bucket(r.hi)
        invariant Bucket(r.lo) <= bucket
        invariant bucket <= Bucket(r.hi) + 1 || bucket == Bucket(r.lo)
        invariant globalBuckets == AcquireAll(old(globalBuckets), Below(r, bucket))
        invariant bindings == old(bindings) + Blocks(Below(r, bucket) - old(globalBuckets).Keys)
        decreases Bucket(r.hi) + 1 - bucket
      {
        NextBelow(r, bucket);
        if bucket !in globalBuckets { bindings := bindings + {Block(bucket)}; }
        globalBuckets := Acquire(globalBuckets, bucket);
        bucket := bucket + 1;
      }
      AllBelow(r, bucket);
    }

    method UnsubscribeRange(s: ChannelSubscriber, min: nat, max: nat)
      requires Valid() && s in all
      modifies this, s
      ensures Valid() && all == old(all) && subscribers == old(subscribers)
      ensures var sub, r := old(Subs())[s], Range(min, max);
              if r !in sub.ranges then Subs() == old(Subs()) && lost == old(lost)
              else Subs() == old(Subs())[s := WithoutRange(sub, r)] && lost == LostAfterUnsubscribe(old(lost), s, sub, r)
    {
      hide Consistent, LostAfterUnsubscribe, ReleaseAll, EraseAll, Blocks, Span, Without;
      var r := Range(min, max);
      if r !in s.localRanges { return; }
      UnsubscribeRangeKeeps(Subs(), lost, State(), s, r);
      ghost var sub := Subs()[s];
      s.localRanges := Without(s.localRanges, r);
      UnindexRange(s, r);
      UnbindRange(r);
      lost := LostAfterUnsubscribe(lost, s, sub, r);
      assert Subs() == old(Subs())[s := WithoutRange(sub, r)];
    }

    method UnindexRange(s: ChannelSubscriber, r: Range)
      modifies `bucketIndex
      ensures bucketIndex == EraseAll(old(bucketIndex), Span(r), s)
    {
      var bucket := Bucket(r.lo);
      while bucket <= Bucket(r.hi)
        invariant Bucket(r.lo) <= bucket
        invariant bucket <= Bucket(r.hi) + 1 || bucket == Bucket(r.lo)
        invariant bucketIndex == EraseAll(old(bucketIndex), Below(r, bucket), s)
        decreases Bucket(r.hi) + 1 - bucket
      {
        NextBelow(r, bucket);
        bucketIndex := Erase(bucketIndex, bucket, s);
        bucket := bucket + 1;
      }
      AllBelow(r, bucket);
    }

    method UnbindRange(r: Range)
      requires forall b :: b in Span(r) ==> b in globalBuckets && globalBuckets[b] > 0
      modifies `globalBuckets, `bindings
      ensures globalBuckets == ReleaseAll(old(globalBuckets), Span(r))
      ensures bindings == old(bindings) - Blocks(set b | b in Span(r) && old(globalBuckets)[b] == 1)
    {
      var bucket := Bucket(r.lo);
      while bucket <= Bucket(r.hi)
        invariant Bucket(r.lo) <= bucket
        invariant bucket <= Bucket(r.hi) + 1 || bucket == Bucket(r.lo)
        invariant globalBuckets == ReleaseAll(old(globalBuckets), Below(r, bucket))
        invariant bindings == old(bindings) - Blocks(set b | b in Below(r, bucket) && old(globalBuckets)[b] == 1)
        decreases Bucket(r.hi) + 1 - bucket
      {
        NextBelow(r, bucket);
        globalBuckets := globalBuckets[bucket := globalBuckets[bucket] - 1];
        if globalBuckets[bucket] == 0 {
          globalBuckets := globalBuckets - {bucket};
          bindings := bindings - {Block(bucket)};
        }
        bucket := bucket + 1;
      }
      AllBelow(r, bucket);
    }

    /* ---- Registering and tearing down ---- */

    /** Hands the subscriber to the message director and indexes what it subscribed to
        while it was being constructed. */
    method Init(s: ChannelSubscriber)
      requires Valid() && s in all && !s.shared
      modifies this, s
      ensures Valid() && all == old(all) && lost == old(lost) && s in subscribers
      ensures Subs() == old(Subs())[s := Share(old(Subs())[s])]
    {
      hide Consistent, InsertAll, AllBuckets;
      ShareKeeps(Subs(), lost, State(), s);
      s.shared := true;
      subscribers := subscribers + {s};
      IndexChannels(s);
      IndexRanges(s);
      assert Subs() == old(Subs())[s := Share(old(Subs())[s])];
    }

    method IndexChannels(s: ChannelSubscriber)
      modifies `channelIndex
      ensures channelIndex == InsertAll(old(channelIndex), s.localChannels, s)
    {
      hide InsertAll, Insert;
      InsertNone(channelIndex, s);
      var left := s.localChannels;
      ghost var done: set<nat> := {};
      while left != {}
        invariant done + left == s.localChannels
        invariant channelIndex == InsertAll(old(channelIndex), done, s)
        decreases |left|
      {
        var channel :| channel in left;
        InsertNext(old(channelIndex), done, channel, s);
        channelIndex := Insert(channelIndex, channel, s);
        left, done := left - {channel}, done + {channel};
      }
      assert done == s.localChannels;
    }

    method IndexRanges(s: ChannelSubscriber)
      modifies `bucketIndex
      ensures bucketIndex == InsertAll(old(bucketIndex), AllBuckets(s.localRanges), s)
    {
      for i := 0 to |s.localRanges|
        invariant bucketIndex == InsertAll(old(bucketIndex), AllBuckets(s.localRanges[..i]), s)
      {
        IndexRange(s, s.localRanges[i]);
        assert s.localRanges[..i + 1][..i] == s.localRanges[..i];
        InsertTwice(old(bucketIndex), AllBuckets(s.localRanges[..i]), Span(s.localRanges[i]), s);
      }
      assert s.localRanges[..|s.localRanges|] == s.localRanges;
    }

    method ReleaseChannels(s: ChannelSubscriber)
      requires Valid() && s in all
      modifies this, s
      ensures Valid() && all == old(all) && lost == old(lost) && subscribers == old(subscribers)
      ensures Subs() == old(Subs())[s := old(Subs())[s].(channels := {})]
    {
      hide Consistent;
      while s.localChannels != {}
        invariant Valid() && all == old(all) && lost == old(lost) && subscribers == old(subscribers)
        invariant Subs() == old(Subs())[s := old(Subs())[s].(channels := s.localChannels)]
        decreases |s.localChannels|
      {
        var channel :| channel in s.localChannels;
        ghost var before := s.localChannels;
        UnsubscribeChannel(s, channel);
        assert Subs()[s] == s.State() && s.localChannels == before - {channel};
      }
    }

    method ReleaseRanges(s: ChannelSubscriber)
      requires Valid() && s in all
      modifies this, s
      ensures Valid() && all == old(all) && subscribers == old(subscribers)
      ensures Subs() == old(Subs())[s := old(Subs())[s].(ranges := [])]
      ensures lost == Others(old(lost), s)
    {
      hide Consistent, LostAfterUnsubscribe, Others;
      while s.localRanges != []
        invariant Valid() && all == old(all) && subscribers == old(subscribers)
        invariant Subs() == old(Subs())[s := old(Subs())[s].(ranges := s.localRanges)]
        invariant Others(lost, s) == Others(old(lost), s)
        decreases |s.localRanges|
      {
        var r := s.localRanges[|s.localRanges| - 1];
        ghost var sub, was := Subs()[s], lost;
        UnsubscribeRange(s, r.lo, r.hi);
        assert Subs()[s] == s.State();
        WithoutShrinks(sub.ranges, r);
        OthersStay(was, s, sub, r);
      }
      NoneLost(Subs(), lost, State(), s);
    }

    /** Everything a subscriber held is released, and nothing else. */
    method Shutdown(s: ChannelSubscriber)
      requires Valid() && s in all
      modifies this, s
      ensures Valid() && all == old(all) && subscribers == old(subscribers) - {s}
      ensures Subs() == old(Subs())[s := Sub(old(s.shared), {}, [])]
      ensures lost == Others(old(lost), s)
    {
      hide Consistent, Others;
      subscribers := subscribers - {s};
      assert Subs() == old(Subs());
      ReleaseChannels(s);
      ReleaseRanges(s);
    }

    /* ---- Dispatch ---- */

    method FilterRange(candidates: set<ChannelSubscriber>, channel: nat) returns (within: set<ChannelSubscriber>)
      ensures within == set s | s in candidates && WithinLocalRange(s.State(), channel)
    {
      within := {};
      var left := candidates;
      while left != {}
        invariant left <= candidates
        invariant within == set s | s in candidates - left && WithinLocalRange(s.State(), channel)
        decreases |left|
      {
        var s :| s in left;
        var inRange := s.IsWithinLocalRange(channel);
        if inRange { within := within + {s}; }
        left := left - {s};
      }
    }

    /** The subscribers of a channel, through the indexes. */
    method Lookup(channel: nat) returns (interested: set<ChannelSubscriber>)
      requires Valid()
      ensures interested == Receivers(Subs(), lost, channel)
    {
      hide Consistent, SharedHolders, IndexedHolders, Receivers;
      Indexed(Subs(), lost, State(), channel);
      interested := if channel in channelIndex then channelIndex[channel] else {};
      var blocks := if Bucket(channel) in bucketIndex then bucketIndex[Bucket(channel)] else {};
      var within := FilterRange(blocks, channel);
      interested := interested + within;
      IndexedAreReceivers(Subs(), lost, channel);
    }

    /** Each interested subscriber handles the datagram once. */
    method DeliverLocally(channel: nat) returns (handled: seq<ChannelSubscriber>)
      requires Valid()
      ensures forall i, j :: 0 <= i < j < |handled| ==> handled[i] != handled[j]
      ensures Elements(handled) == Receivers(Subs(), lost, channel)
    {
      var interested := Lookup(channel);
      handled := [];
      var left := interested;
      while left != {}
        invariant left <= interested && Elements(handled) == interested - left
        invariant forall i, j :: 0 <= i < j < |handled| ==> handled[i] != handled[j]
        decreases |left|
      {
        var s :| s in left;
        assert s !in Elements(handled);
        ElementsSnoc(handled, s);
        handled := handled + [s];
        left := left - {s};
      }
    }

    /** A copy from the broker. Our own comes back to us too, and is dropped. */
    method OnReceived(channel: nat, ours: bool) returns (handled: seq<ChannelSubscriber>)
      requires Valid()
      ensures forall i, j :: 0 <= i < j < |handled| ==> handled[i] != handled[j]
      ensures Elements(handled) == if ours then {} else Receivers(Subs(), lost, channel)
    {
      handled := [];
      if ours { return; }
      if channel !in globalChannels && Bucket(channel) !in globalBuckets {
        UnboundHasNoReceivers(Subs(), lost, State(), channel);
        return;
      }
      handled := DeliverLocally(channel);
    }
  }

  function Elements<S>(s: seq<S>): set<S> {
    set x | x in s
  }

  lemma ElementsSnoc<S>(s: seq<S>, x: S)
    ensures Elements(s + [x]) == Elements(s) + {x}
  {}

  lemma Indexed<S>(subs: map<S, Sub>, lost: set<(S, nat)>, t: Tables<S>, channel: nat)
    requires Consistent(subs, lost, t)
    ensures At(t.channelIndex, channel) == SharedHolders(subs, channel)
    ensures At(t.bucketIndex, Bucket(channel)) == IndexedHolders(subs, lost, Bucket(channel))
    ensures IndexedHolders(subs, lost, Bucket(channel)) <= subs.Keys
  {}

  function Others<S(==)>(lost: set<(S, nat)>, s: S): set<(S, nat)> {
    set p | p in lost && p.0 != s
  }

  lemma OthersStay<S>(lost: set<(S, nat)>, s: S, sub: Sub, r: Range)
    ensures Others(LostAfterUnsubscribe(lost, s, sub, r), s) == Others(lost, s)
  {}

  lemma {:induction false} WithoutShrinks(ranges: seq<Range>, r: Range)
    requires r in ranges
    ensures |Without(ranges, r)| == |ranges| - 1
  {
    if ranges[0] != r { WithoutShrinks(ranges[1..], r); }
  }

  /** A subscriber without ranges has lost nothing. */
  lemma NoneLost<S>(subs: map<S, Sub>, lost: set<(S, nat)>, t: Tables<S>, s: S)
    requires Consistent(subs, lost, t) && s in subs && subs[s].ranges == []
    ensures Others(lost, s) == lost
  {
    forall p | p in lost ensures p.0 != s {}
  }

  lemma InsertTwice<S>(index: map<nat, set<S>>, a: set<nat>, b: set<nat>, s: S)
    ensures InsertAll(InsertAll(index, a, s), b, s) == InsertAll(index, a + b, s)
  {}

  lemma InsertNone<S>(index: map<nat, set<S>>, s: S)
    ensures InsertAll(index, {}, s) == index
  {}

  lemma InsertNext<S>(index: map<nat, set<S>>, keys: set<nat>, key: nat, s: S)
    ensures Insert(InsertAll(index, keys, s), key, s) == InsertAll(index, keys + {key}, s)
  {}

  lemma IndexedAreReceivers<S>(subs: map<S, Sub>, lost: set<(S, nat)>, channel: nat)
    ensures SharedHolders(subs, channel)
            + (set s | s in IndexedHolders(subs, lost, Bucket(channel)) && WithinLocalRange(subs[s], channel))
            == Receivers(subs, lost, channel)
  {}

  lemma UnboundHasNoReceivers<S>(subs: map<S, Sub>, lost: set<(S, nat)>, t: Tables<S>, channel: nat)
    requires Consistent(subs, lost, t) && channel !in t.globalChannels && Bucket(channel) !in t.globalBuckets
    ensures Receivers(subs, lost, channel) == {}
  {
    assert Counted(t.globalChannels, channel, ChannelHolders(subs, channel));
    assert Counted(t.globalBuckets, Bucket(channel), RangeHolders(subs, Bucket(channel)));
    if Receivers(subs, lost, channel) != {} { ReceiversAreBound(subs, lost, channel); }
  }

  /** The broker's copies arrive exactly when somebody holds the channel or its bucket. */
  lemma BindingsMatchHolders<S>(subs: map<S, Sub>, lost: set<(S, nat)>, t: Tables<S>, channel: nat)
    requires Consistent(subs, lost, t)
    ensures Bound(subs, channel) <==> Point(channel) in t.bindings || Block(Bucket(channel)) in t.bindings
  {
    assert Counted(t.globalChannels, channel, ChannelHolders(subs, channel));
    assert Counted(t.globalBuckets, Bucket(channel), RangeHolders(subs, Bucket(channel)));
  }

  /** The buckets of a range that come before another bucket. */
  function Below(r: Range, bucket: nat): set<nat> {
    set b | b in Span(r) && b < bucket
  }

  lemma NextBelow(r: Range, bucket: nat)
    requires Touches(r, bucket)
    ensures Below(r, bucket + 1) == Below(r, bucket) + {bucket} && bucket !in Below(r, bucket) && bucket in Span(r)
    ensures Below(r, Bucket(r.lo)) == {}
  {}

  lemma AllBelow(r: Range, bucket: nat)
    requires bucket > Bucket(r.hi)
    ensures Below(r, bucket) == Span(r)
  {}
}
