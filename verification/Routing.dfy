/** What one process of the cluster wants to receive: the subscribers it holds and the
    channels and ranges each has asked for. `S` identifies a subscriber. */
module Routing {
  const BUCKET_SIZE: nat := 0x1_0000

  function Bucket(channel: nat): nat {
    channel / BUCKET_SIZE
  }

  /** Both ends belong to the range. */
  datatype Range = Range(lo: nat, hi: nat)

  predicate Contains(r: Range, channel: nat) {
    r.lo <= channel <= r.hi
  }

  predicate Touches(r: Range, bucket: nat) {
    Bucket(r.lo) <= bucket <= Bucket(r.hi)
  }

  /** `shared` once the subscriber has been handed to the message director. */
  datatype Sub = Sub(shared: bool, channels: set<nat>, ranges: seq<Range>)

  predicate WithinLocalRange(sub: Sub, channel: nat) {
    exists r :: r in sub.ranges && Contains(r, channel)
  }

  predicate TouchesBucket(ranges: seq<Range>, bucket: nat) {
    exists r :: r in ranges && Touches(r, bucket)
  }

  /** A queue is bound to single channels and to whole buckets. */
  datatype Binding = Point(channel: nat) | Block(bucket: nat)

  /* ---- What a scan of all subscribers would find ---- */

  predicate Wants(sub: Sub, channel: nat) {
    channel in sub.channels || WithinLocalRange(sub, channel)
  }

  function Scan<S>(subs: map<S, Sub>, channel: nat): set<S> {
    set s | s in subs && subs[s].shared && Wants(subs[s], channel)
  }

  /** Dropped from the index of the channel's bucket and not subscribed to the channel itself. */
  predicate Missed<S(==)>(subs: map<S, Sub>, lost: set<(S, nat)>, channel: nat, s: S)
    requires s in subs
  {
    (s, Bucket(channel)) in lost && channel !in subs[s].channels
  }

  /** The subscribers a message on the channel is handed to. */
  function Receivers<S>(subs: map<S, Sub>, lost: set<(S, nat)>, channel: nat): set<S> {
    set s | s in Scan(subs, channel) && !Missed(subs, lost, channel, s)
  }

  function ChannelHolders<S>(subs: map<S, Sub>, channel: nat): set<S> {
    set s | s in subs && channel in subs[s].channels
  }

  function RangeHolders<S>(subs: map<S, Sub>, bucket: nat): set<(S, Range)> {
    set s, r | s in subs && r in subs[s].ranges && Touches(r, bucket) :: (s, r)
  }

  /** The broker puts a copy on the queue when some binding matches. */
  predicate Bound<S>(subs: map<S, Sub>, channel: nat) {
    ChannelHolders(subs, channel) != {} || RangeHolders(subs, Bucket(channel)) != {}
  }

  /* ---- The tables kept beside the subscribers ---- */

  datatype Tables<S> = Tables(
    globalChannels: map<nat, nat>, globalBuckets: map<nat, nat>,
    channelIndex: map<nat, set<S>>, bucketIndex: map<nat, set<S>>, bindings: set<Binding>)

  function At<S>(index: map<nat, set<S>>, key: nat): set<S> {
    if key in index then index[key] else {}
  }

  function SharedHolders<S>(subs: map<S, Sub>, channel: nat): set<S> {
    set s | s in subs && subs[s].shared && channel in subs[s].channels
  }

  function IndexedHolders<S>(subs: map<S, Sub>, lost: set<(S, nat)>, bucket: nat): set<S> {
    set s | s in subs && subs[s].shared && TouchesBucket(subs[s].ranges, bucket) && (s, bucket) !in lost
  }

  ghost predicate Counted<T>(counts: map<nat, nat>, key: nat, holders: set<T>) {
    if holders == {} then key !in counts else key in counts && counts[key] == |holders|
  }

  ghost predicate ChannelsCounted<S>(subs: map<S, Sub>, t: Tables<S>) {
    && (forall c :: Counted(t.globalChannels, c, ChannelHolders(subs, c)))
    && (forall c :: Point(c) in t.bindings <==> c in t.globalChannels)
  }

  ghost predicate BucketsCounted<S>(subs: map<S, Sub>, t: Tables<S>) {
    && (forall b :: Counted(t.globalBuckets, b, RangeHolders(subs, b)))
    && (forall b :: Block(b) in t.bindings <==> b in t.globalBuckets)
  }

  ghost predicate ChannelsIndexed<S>(subs: map<S, Sub>, t: Tables<S>) {
    && (forall c :: At(t.channelIndex, c) == SharedHolders(subs, c))
    && (forall c :: c in t.channelIndex ==> t.channelIndex[c] != {})
  }

  ghost predicate BucketsIndexed<S>(subs: map<S, Sub>, lost: set<(S, nat)>, t: Tables<S>) {
    && (forall b :: At(t.bucketIndex, b) == IndexedHolders(subs, lost, b))
    && (forall b :: b in t.bucketIndex ==> t.bucketIndex[b] != {})
  }

  /** Only shared subscribers that still have a range in the bucket can be lost from it. */
  ghost predicate LostAreReal<S>(subs: map<S, Sub>, lost: set<(S, nat)>) {
    forall p :: p in lost ==> p.0 in subs && subs[p.0].shared && TouchesBucket(subs[p.0].ranges, p.1)
  }

  /** A list of ranges never holds one twice. */
  ghost predicate Distinct(ranges: seq<Range>) {
    forall i, j :: 0 <= i < j < |ranges| ==> ranges[i] != ranges[j]
  }

  /** Every count is the number of holders, a binding exists iff its count is positive,
      and the indexes list exactly the shared holders, except those that were lost. */
  ghost predicate Consistent<S>(subs: map<S, Sub>, lost: set<(S, nat)>, t: Tables<S>) {
    && ChannelsCounted(subs, t)
    && BucketsCounted(subs, t)
    && ChannelsIndexed(subs, t)
    && BucketsIndexed(subs, lost, t)
    && LostAreReal(subs, lost)
    && (forall s :: s in subs ==> Distinct(subs[s].ranges))
  }

  /* ---- Channels ---- */

  function Insert<S>(index: map<nat, set<S>>, key: nat, s: S): map<nat, set<S>> {
    index[key := At(index, key) + {s}]
  }

  function Erase<S>(index: map<nat, set<S>>, key: nat, s: S): map<nat, set<S>> {
    if key !in index then index
    else if index[key] - {s} == {} then index - {key}
    else index[key := index[key] - {s}]
  }

  /** One more holder: the channel is bound if it is the first. */
  function Acquire(counts: map<nat, nat>, key: nat): map<nat, nat> {
    if key in counts then counts[key := counts[key] + 1] else counts[key := 1]
  }

  /** One holder less: the entry goes with the last. */
  function Release(counts: map<nat, nat>, key: nat): map<nat, nat>
    requires key in counts && counts[key] > 0
  {
    if counts[key] == 1 then counts - {key} else counts[key := counts[key] - 1]
  }

  function WithChannel(t: Sub, channel: nat): Sub {
    t.(channels := t.channels + {channel})
  }

  function WithoutChannel(t: Sub, channel: nat): Sub {
    t.(channels := t.channels - {channel})
  }

  lemma CountedMore<T>(counts: map<nat, nat>, key: nat, holders: set<T>, x: T)
    requires Counted(counts, key, holders) && x !in holders
    ensures Counted(Acquire(counts, key), key, holders + {x})
    ensures forall k, hs: set<T> :: k != key && Counted(counts, k, hs) ==> Counted(Acquire(counts, key), k, hs)
  {}

  lemma CountedLess<T>(counts: map<nat, nat>, key: nat, holders: set<T>, x: T)
    requires Counted(counts, key, holders) && x in holders
    ensures key in counts && counts[key] > 0
    ensures Counted(Release(counts, key), key, holders - {x})
  {
    assert holders == holders - {x} + {x};
  }

  lemma SubscribeChannelCounts<S>(subs: map<S, Sub>, t: Tables<S>, s: S, c: nat)
    requires ChannelsCounted(subs, t) && s in subs && c !in subs[s].channels
    ensures ChannelsCounted(subs[s := WithChannel(subs[s], c)],
              t.(globalChannels := Acquire(t.globalChannels, c),
                 bindings := if c in t.globalChannels then t.bindings else t.bindings + {Point(c)}))
  {
    var subs' := subs[s := WithChannel(subs[s], c)];
    forall k ensures Counted(Acquire(t.globalChannels, c), k, ChannelHolders(subs', k)) {
      if k == c {
        assert ChannelHolders(subs', c) == ChannelHolders(subs, c) + {s};
        CountedMore(t.globalChannels, c, ChannelHolders(subs, c), s);
      } else {
        assert ChannelHolders(subs', k) == ChannelHolders(subs, k);
        assert Counted(t.globalChannels, k, ChannelHolders(subs, k));
      }
    }
  }

  lemma UnsubscribeChannelCounts<S>(subs: map<S, Sub>, t: Tables<S>, s: S, c: nat)
    requires ChannelsCounted(subs, t) && s in subs && c in subs[s].channels
    ensures c in t.globalChannels && t.globalChannels[c] > 0
    ensures ChannelsCounted(subs[s := WithoutChannel(subs[s], c)],
              t.(globalChannels := Release(t.globalChannels, c),
                 bindings := if t.globalChannels[c] == 1 then t.bindings - {Point(c)} else t.bindings))
  {
    var subs' := subs[s := WithoutChannel(subs[s], c)];
    assert Counted(t.globalChannels, c, ChannelHolders(subs, c));
    CountedLess(t.globalChannels, c, ChannelHolders(subs, c), s);
    forall k ensures Counted(Release(t.globalChannels, c), k, ChannelHolders(subs', k)) {
      if k == c {
        assert ChannelHolders(subs', c) == ChannelHolders(subs, c) - {s};
      } else {
        assert ChannelHolders(subs', k) == ChannelHolders(subs, k);
        assert Counted(t.globalChannels, k, ChannelHolders(subs, k));
      }
    }
  }

  lemma SubscribeChannelIndexes<S>(subs: map<S, Sub>, t: Tables<S>, s: S, c: nat)
    requires ChannelsIndexed(subs, t) && s in subs
    ensures ChannelsIndexed(subs[s := WithChannel(subs[s], c)],
              t.(channelIndex := if subs[s].shared then Insert(t.channelIndex, c, s) else t.channelIndex))
  {
    var subs' := subs[s := WithChannel(subs[s], c)];
    var index := if subs[s].shared then Insert(t.channelIndex, c, s) else t.channelIndex;
    forall k ensures At(index, k) == SharedHolders(subs', k) {
      assert At(t.channelIndex, k) == SharedHolders(subs, k);
      assert SharedHolders(subs', k) == if k == c && subs[s].shared then SharedHolders(subs, k) + {s} else SharedHolders(subs, k);
    }
  }

  lemma UnsubscribeChannelIndexes<S>(subs: map<S, Sub>, t: Tables<S>, s: S, c: nat)
    requires ChannelsIndexed(subs, t) && s in subs
    ensures ChannelsIndexed(subs[s := WithoutChannel(subs[s], c)], t.(channelIndex := Erase(t.channelIndex, c, s)))
  {
    var subs' := subs[s := WithoutChannel(subs[s], c)];
    forall k ensures At(Erase(t.channelIndex, c, s), k) == SharedHolders(subs', k) {
      assert At(t.channelIndex, k) == SharedHolders(subs, k);
      assert SharedHolders(subs', k) == if k == c then SharedHolders(subs, k) - {s} else SharedHolders(subs, k);
    }
  }

  /** Channels have no bearing on the bucket tables. */
  lemma ChannelsLeaveBuckets<S>(subs: map<S, Sub>, lost: set<(S, nat)>, t: Tables<S>, s: S, sub: Sub, u: Tables<S>)
    requires BucketsCounted(subs, t) && BucketsIndexed(subs, lost, t) && s in subs
    requires sub.ranges == subs[s].ranges && sub.shared == subs[s].shared
    requires u.globalBuckets == t.globalBuckets && u.bucketIndex == t.bucketIndex
    requires forall b :: Block(b) in u.bindings <==> Block(b) in t.bindings
    ensures BucketsCounted(subs[s := sub], u) && BucketsIndexed(subs[s := sub], lost, u)
  {
    var subs' := subs[s := sub];
    forall b ensures RangeHolders(subs', b) == RangeHolders(subs, b) && IndexedHolders(subs', lost, b) == IndexedHolders(subs, lost, b) {}
    forall b ensures Counted(u.globalBuckets, b, RangeHolders(subs', b)) && At(u.bucketIndex, b) == IndexedHolders(subs', lost, b) {
      assert Counted(t.globalBuckets, b, RangeHolders(subs, b)) && At(t.bucketIndex, b) == IndexedHolders(subs, lost, b);
    }
  }

  /** Nor have ranges on the channel tables. */
  lemma RangesLeaveChannels<S>(subs: map<S, Sub>, t: Tables<S>, s: S, sub: Sub, u: Tables<S>)
    requires ChannelsCounted(subs, t) && ChannelsIndexed(subs, t) && s in subs
    requires sub.channels == subs[s].channels && sub.shared == subs[s].shared
    requires u.globalChannels == t.globalChannels && u.channelIndex == t.channelIndex
    requires forall c :: Point(c) in u.bindings <==> Point(c) in t.bindings
    ensures ChannelsCounted(subs[s := sub], u) && ChannelsIndexed(subs[s := sub], u)
  {
    var subs' := subs[s := sub];
    forall c ensures ChannelHolders(subs', c) == ChannelHolders(subs, c) && SharedHolders(subs', c) == SharedHolders(subs, c) {}
    forall c ensures Counted(u.globalChannels, c, ChannelHolders(subs', c)) && At(u.channelIndex, c) == SharedHolders(subs', c) {
      assert Counted(t.globalChannels, c, ChannelHolders(subs, c)) && At(t.channelIndex, c) == SharedHolders(subs, c);
    }
  }

  /* ---- Ranges ---- */

  function Span(r: Range): set<nat> {
    set b | Bucket(r.lo) <= b <= Bucket(r.hi) && Touches(r, b)
  }

  function AcquireAll(counts: map<nat, nat>, buckets: set<nat>): map<nat, nat> {
    map b | b in counts.Keys + buckets :: (if b in counts then counts[b] else 0) + if b in buckets then 1 else 0
  }

  function ReleaseAll(counts: map<nat, nat>, buckets: set<nat>): map<nat, nat>
    requires forall b :: b in buckets ==> b in counts && counts[b] > 0
  {
    map b | b in counts && !(b in buckets && counts[b] == 1) :: if b in buckets then counts[b] - 1 else counts[b]
  }

  function InsertAll<S>(index: map<nat, set<S>>, buckets: set<nat>, s: S): map<nat, set<S>> {
    map b | b in index.Keys + buckets :: if b in buckets then At(index, b) + {s} else At(index, b)
  }

  function EraseAll<S>(index: map<nat, set<S>>, buckets: set<nat>, s: S): map<nat, set<S>> {
    map b | b in index && !(b in buckets && index[b] - {s} == {}) :: if b in buckets then index[b] - {s} else index[b]
  }

  function Blocks(buckets: set<nat>): set<Binding> {
    set b | b in buckets :: Block(b)
  }

  function Pairs<S(==)>(s: S, buckets: set<nat>): set<(S, nat)> {
    set b | b in buckets :: (s, b)
  }

  /** The list without the first occurrence of a range. */
  function Without(ranges: seq<Range>, r: Range): seq<Range> {
    if ranges == [] then []
    else if ranges[0] == r then ranges[1..]
    else [ranges[0]] + Without(ranges[1..], r)
  }

  function WithRange(t: Sub, r: Range): Sub {
    t.(ranges := t.ranges + [r])
  }

  function WithoutRange(t: Sub, r: Range): Sub {
    t.(ranges := Without(t.ranges, r))
  }

  lemma ConsDistinct(r: Range, ranges: seq<Range>)
    ensures Distinct([r] + ranges) <==> r !in ranges && Distinct(ranges)
  {
    var all := [r] + ranges;
    assert forall j :: 0 <= j < |ranges| ==> all[j + 1] == ranges[j];
    if Distinct(all) {
      forall i, j | 0 <= i < j < |ranges| ensures ranges[i] != ranges[j] {
        assert all[i + 1] != all[j + 1];
      }
      forall j | 0 <= j < |ranges| ensures ranges[j] != r {
        assert all[0] != all[j + 1];
      }
    }
  }

  lemma {:induction false} WithoutRemoves(ranges: seq<Range>, r: Range)
    requires Distinct(ranges)
    ensures Distinct(Without(ranges, r))
    ensures forall x :: x in Without(ranges, r) <==> x in ranges && x != r
    decreases |ranges|
  {
    if ranges != [] {
      assert ranges == [ranges[0]] + ranges[1..];
      ConsDistinct(ranges[0], ranges[1..]);
      WithoutRemoves(ranges[1..], r);
      ConsDistinct(ranges[0], Without(ranges[1..], r));
    }
  }

  /** Subscribing puts the subscriber back into every bucket of the range. */
  function LostAfterSubscribe<S(==)>(lost: set<(S, nat)>, s: S, sub: Sub, r: Range): set<(S, nat)> {
    if sub.shared then lost - Pairs(s, Span(r)) else lost
  }

  /** Unsubscribing drops the subscriber from every bucket of the range, whatever other
      ranges it has there. */
  function LostAfterUnsubscribe<S(==)>(lost: set<(S, nat)>, s: S, sub: Sub, r: Range): set<(S, nat)> {
    lost - Pairs(s, Span(r))
    + if sub.shared then Pairs(s, set b | b in Span(r) && TouchesBucket(Without(sub.ranges, r), b)) else {}
  }

  lemma HoldersWith<S>(subs: map<S, Sub>, s: S, r: Range, b: nat)
    requires s in subs && r !in subs[s].ranges
    ensures (s, r) !in RangeHolders(subs, b)
    ensures RangeHolders(subs[s := WithRange(subs[s], r)], b)
         == if b in Span(r) then RangeHolders(subs, b) + {(s, r)} else RangeHolders(subs, b)
  {}

  lemma SubscribeRangeCounts<S>(subs: map<S, Sub>, t: Tables<S>, s: S, r: Range)
    requires BucketsCounted(subs, t) && s in subs && r !in subs[s].ranges
    ensures BucketsCounted(subs[s := WithRange(subs[s], r)],
              t.(globalBuckets := AcquireAll(t.globalBuckets, Span(r)),
                 bindings := t.bindings + Blocks(Span(r) - t.globalBuckets.Keys)))
  {
    hide RangeHolders, Span;
    var subs' := subs[s := WithRange(subs[s], r)];
    forall b ensures Counted(AcquireAll(t.globalBuckets, Span(r)), b, RangeHolders(subs', b)) {
      assert Counted(t.globalBuckets, b, RangeHolders(subs, b));
      HoldersWith(subs, s, r, b);
    }
  }

  lemma HeldBuckets<S>(subs: map<S, Sub>, t: Tables<S>, s: S, r: Range)
    requires BucketsCounted(subs, t) && s in subs && r in subs[s].ranges
    ensures forall b :: b in Span(r) ==> b in t.globalBuckets && t.globalBuckets[b] > 0
  {
    forall b | b in Span(r) ensures b in t.globalBuckets && t.globalBuckets[b] > 0 {
      assert Counted(t.globalBuckets, b, RangeHolders(subs, b));
      assert (s, r) in RangeHolders(subs, b);
    }
  }

  lemma HoldersWithout<S>(subs: map<S, Sub>, s: S, r: Range, b: nat)
    requires s in subs && r in subs[s].ranges && Distinct(subs[s].ranges)
    ensures RangeHolders(subs[s := WithoutRange(subs[s], r)], b) == RangeHolders(subs, b) - {(s, r)}
    ensures (s, r) in RangeHolders(subs, b) <==> b in Span(r)
  {
    WithoutRemoves(subs[s].ranges, r);
  }

  lemma ReleasedCount<S>(subs: map<S, Sub>, counts: map<nat, nat>, s: S, r: Range, b: nat)
    requires s in subs && r in subs[s].ranges && Distinct(subs[s].ranges)
    requires forall k :: k in Span(r) ==> k in counts && counts[k] > 0
    requires Counted(counts, b, RangeHolders(subs, b))
    ensures Counted(ReleaseAll(counts, Span(r)), b, RangeHolders(subs[s := WithoutRange(subs[s], r)], b))
  {
    HoldersWithout(subs, s, r, b);
    hide RangeHolders;
    var before := RangeHolders(subs, b);
    if b in Span(r) { assert before == before - {(s, r)} + {(s, r)}; }
  }

  lemma UnsubscribeRangeCounts<S>(subs: map<S, Sub>, t: Tables<S>, s: S, r: Range)
    requires BucketsCounted(subs, t) && s in subs && r in subs[s].ranges && Distinct(subs[s].ranges)
    ensures forall b :: b in Span(r) ==> b in t.globalBuckets && t.globalBuckets[b] > 0
    ensures BucketsCounted(subs[s := WithoutRange(subs[s], r)],
              t.(globalBuckets := ReleaseAll(t.globalBuckets, Span(r)),
                 bindings := t.bindings - Blocks(set b | b in Span(r) && t.globalBuckets[b] == 1)))
  {
    HeldBuckets(subs, t, s, r);
    hide RangeHolders;
    var subs' := subs[s := WithoutRange(subs[s], r)];
    forall b ensures Counted(ReleaseAll(t.globalBuckets, Span(r)), b, RangeHolders(subs', b)) {
      ReleasedCount(subs, t.globalBuckets, s, r, b);
    }
  }

  lemma SubscribeRangeIndexes<S>(subs: map<S, Sub>, lost: set<(S, nat)>, t: Tables<S>, s: S, r: Range)
    requires BucketsIndexed(subs, lost, t) && s in subs
    ensures BucketsIndexed(subs[s := WithRange(subs[s], r)], LostAfterSubscribe(lost, s, subs[s], r),
              t.(bucketIndex := if subs[s].shared then InsertAll(t.bucketIndex, Span(r), s) else t.bucketIndex))
  {
    var subs' := subs[s := WithRange(subs[s], r)];
    var lost' := LostAfterSubscribe(lost, s, subs[s], r);
    var index := if subs[s].shared then InsertAll(t.bucketIndex, Span(r), s) else t.bucketIndex;
    forall b ensures At(index, b) == IndexedHolders(subs', lost', b) {
      assert At(t.bucketIndex, b) == IndexedHolders(subs, lost, b);
      TouchesMore(subs[s].ranges, r, b);
      assert IndexedHolders(subs', lost', b)
          == if b in Span(r) && subs[s].shared then IndexedHolders(subs, lost, b) + {s} else IndexedHolders(subs, lost, b);
    }
  }

  lemma TouchesMore(ranges: seq<Range>, r: Range, b: nat)
    ensures TouchesBucket(ranges + [r], b) <==> TouchesBucket(ranges, b) || Touches(r, b)
  {
    if Touches(r, b) { assert r in ranges + [r]; }
    if TouchesBucket(ranges, b) {
      var q :| q in ranges && Touches(q, b);
      assert q in ranges + [r];
    }
  }

  lemma UnsubscribeRangeIndexes<S>(subs: map<S, Sub>, lost: set<(S, nat)>, t: Tables<S>, s: S, r: Range)
    requires BucketsIndexed(subs, lost, t) && s in subs && Distinct(subs[s].ranges) && r in subs[s].ranges
    ensures BucketsIndexed(subs[s := WithoutRange(subs[s], r)], LostAfterUnsubscribe(lost, s, subs[s], r),
              t.(bucketIndex := EraseAll(t.bucketIndex, Span(r), s)))
  {
    var subs' := subs[s := WithoutRange(subs[s], r)];
    var lost' := LostAfterUnsubscribe(lost, s, subs[s], r);
    WithoutRemoves(subs[s].ranges, r);
    forall b ensures At(EraseAll(t.bucketIndex, Span(r), s), b) == IndexedHolders(subs', lost', b) {
      assert At(t.bucketIndex, b) == IndexedHolders(subs, lost, b);
      assert b !in Span(r) ==> (TouchesBucket(subs[s].ranges, b) <==> TouchesBucket(Without(subs[s].ranges, r), b));
      assert IndexedHolders(subs', lost', b)
          == if b in Span(r) then IndexedHolders(subs, lost, b) - {s} else IndexedHolders(subs, lost, b);
    }
  }

  /* ---- Whole operations ---- */

  lemma SubscribeChannelKeeps<S>(subs: map<S, Sub>, lost: set<(S, nat)>, t: Tables<S>, s: S, c: nat)
    requires Consistent(subs, lost, t) && s in subs && c !in subs[s].channels
    ensures Consistent(subs[s := WithChannel(subs[s], c)], lost, Tables(
              Acquire(t.globalChannels, c), t.globalBuckets,
              if subs[s].shared then Insert(t.channelIndex, c, s) else t.channelIndex, t.bucketIndex,
              if c in t.globalChannels then t.bindings else t.bindings + {Point(c)}))
  {
    SubscribeChannelCounts(subs, t, s, c);
    SubscribeChannelIndexes(subs, t, s, c);
    ChannelsLeaveBuckets(subs, lost, t, s, WithChannel(subs[s], c), Tables(
              Acquire(t.globalChannels, c), t.globalBuckets,
              if subs[s].shared then Insert(t.channelIndex, c, s) else t.channelIndex, t.bucketIndex,
              if c in t.globalChannels then t.bindings else t.bindings + {Point(c)}));
  }

  lemma UnsubscribeChannelKeeps<S>(subs: map<S, Sub>, lost: set<(S, nat)>, t: Tables<S>, s: S, c: nat)
    requires Consistent(subs, lost, t) && s in subs && c in subs[s].channels
    ensures c in t.globalChannels && t.globalChannels[c] > 0
    ensures Consistent(subs[s := WithoutChannel(subs[s], c)], lost, Tables(
              Release(t.globalChannels, c), t.globalBuckets, Erase(t.channelIndex, c, s), t.bucketIndex,
              if t.globalChannels[c] == 1 then t.bindings - {Point(c)} else t.bindings))
  {
    UnsubscribeChannelCounts(subs, t, s, c);
    UnsubscribeChannelIndexes(subs, t, s, c);
    ChannelsLeaveBuckets(subs, lost, t, s, WithoutChannel(subs[s], c), Tables(
              Release(t.globalChannels, c), t.globalBuckets, Erase(t.channelIndex, c, s), t.bucketIndex,
              if t.globalChannels[c] == 1 then t.bindings - {Point(c)} else t.bindings));
  }

  lemma SubscribeRangeKeeps<S>(subs: map<S, Sub>, lost: set<(S, nat)>, t: Tables<S>, s: S, r: Range)
    requires Consistent(subs, lost, t) && s in subs && r !in subs[s].ranges
    ensures Consistent(subs[s := WithRange(subs[s], r)], LostAfterSubscribe(lost, s, subs[s], r), Tables(
              t.globalChannels, AcquireAll(t.globalBuckets, Span(r)), t.channelIndex,
              if subs[s].shared then InsertAll(t.bucketIndex, Span(r), s) else t.bucketIndex,
              t.bindings + Blocks(Span(r) - t.globalBuckets.Keys)))
  {
    var u := Tables(t.globalChannels, AcquireAll(t.globalBuckets, Span(r)), t.channelIndex,
              if subs[s].shared then InsertAll(t.bucketIndex, Span(r), s) else t.bucketIndex,
              t.bindings + Blocks(Span(r) - t.globalBuckets.Keys));
    SubscribeRangeCounts(subs, t, s, r);
    SubscribeRangeIndexes(subs, lost, t, s, r);
    RangesLeaveChannels(subs, t, s, WithRange(subs[s], r), u);
    hide AcquireAll, InsertAll, Blocks, Span;
    forall p | p in lost && p.0 == s ensures TouchesBucket(subs[s].ranges + [r], p.1) {
      TouchesMore(subs[s].ranges, r, p.1);
    }
  }

  lemma UnsubscribeRangeKeeps<S>(subs: map<S, Sub>, lost: set<(S, nat)>, t: Tables<S>, s: S, r: Range)
    requires Consistent(subs, lost, t) && s in subs && r in subs[s].ranges
    ensures forall b :: b in Span(r) ==> b in t.globalBuckets && t.globalBuckets[b] > 0
    ensures Consistent(subs[s := WithoutRange(subs[s], r)], LostAfterUnsubscribe(lost, s, subs[s], r), Tables(
              t.globalChannels, ReleaseAll(t.globalBuckets, Span(r)), t.channelIndex,
              EraseAll(t.bucketIndex, Span(r), s),
              t.bindings - Blocks(set b | b in Span(r) && t.globalBuckets[b] == 1)))
  {
    UnsubscribeRangeCounts(subs, t, s, r);
    UnsubscribeRangeIndexes(subs, lost, t, s, r);
    WithoutRemoves(subs[s].ranges, r);
    RangesLeaveChannels(subs, t, s, WithoutRange(subs[s], r), Tables(
              t.globalChannels, ReleaseAll(t.globalBuckets, Span(r)), t.channelIndex,
              EraseAll(t.bucketIndex, Span(r), s),
              t.bindings - Blocks(set b | b in Span(r) && t.globalBuckets[b] == 1)));
    RangesLeftTouch(subs, lost, s, r);
  }

  lemma RangesLeftTouch<S>(subs: map<S, Sub>, lost: set<(S, nat)>, s: S, r: Range)
    requires LostAreReal(subs, lost) && s in subs && Distinct(subs[s].ranges)
    ensures LostAreReal(subs[s := WithoutRange(subs[s], r)], LostAfterUnsubscribe(lost, s, subs[s], r))
  {
    WithoutRemoves(subs[s].ranges, r);
    forall p | p in lost && p.0 == s && p.1 !in Span(r) ensures TouchesBucket(Without(subs[s].ranges, r), p.1) {
      var q :| q in subs[s].ranges && Touches(q, p.1);
      assert q != r;
    }
  }

  /** All buckets that some range touches. */
  function AllBuckets(ranges: seq<Range>): set<nat> {
    if ranges == [] then {} else AllBuckets(ranges[..|ranges| - 1]) + Span(ranges[|ranges| - 1])
  }

  lemma {:induction false} AllBucketsTouched(ranges: seq<Range>, b: nat)
    ensures b in AllBuckets(ranges) <==> TouchesBucket(ranges, b)
    decreases |ranges|
  {
    if ranges != [] {
      var n := |ranges| - 1;
      AllBucketsTouched(ranges[..n], b);
      TouchesMore(ranges[..n], ranges[n], b);
      assert ranges == ranges[..n] + [ranges[n]];
    }
  }

  function Share(t: Sub): Sub {
    t.(shared := true)
  }

  /** Handing a subscriber to the message director enters it into both indexes. */
  lemma ShareKeeps<S>(subs: map<S, Sub>, lost: set<(S, nat)>, t: Tables<S>, s: S)
    requires Consistent(subs, lost, t) && s in subs && !subs[s].shared
    ensures Consistent(subs[s := Share(subs[s])], lost, t.(
              channelIndex := InsertAll(t.channelIndex, subs[s].channels, s),
              bucketIndex := InsertAll(t.bucketIndex, AllBuckets(subs[s].ranges), s)))
  {
    ShareChannels(subs, lost, t, s);
    ShareBuckets(subs, lost, t, s);
    ShareCounts(subs, t, s);
  }

  lemma ShareChannels<S>(subs: map<S, Sub>, lost: set<(S, nat)>, t: Tables<S>, s: S)
    requires Consistent(subs, lost, t) && s in subs && !subs[s].shared
    ensures ChannelsIndexed(subs[s := Share(subs[s])], t.(
              channelIndex := InsertAll(t.channelIndex, subs[s].channels, s),
              bucketIndex := InsertAll(t.bucketIndex, AllBuckets(subs[s].ranges), s)))
  {
    var subs' := subs[s := Share(subs[s])];
    forall c ensures At(InsertAll(t.channelIndex, subs[s].channels, s), c) == SharedHolders(subs', c) {
      assert At(t.channelIndex, c) == SharedHolders(subs, c);
      assert SharedHolders(subs', c) == if c in subs[s].channels then SharedHolders(subs, c) + {s} else SharedHolders(subs, c);
    }
  }

  lemma ShareBuckets<S>(subs: map<S, Sub>, lost: set<(S, nat)>, t: Tables<S>, s: S)
    requires Consistent(subs, lost, t) && s in subs && !subs[s].shared
    ensures BucketsIndexed(subs[s := Share(subs[s])], lost, t.(
              channelIndex := InsertAll(t.channelIndex, subs[s].channels, s),
              bucketIndex := InsertAll(t.bucketIndex, AllBuckets(subs[s].ranges), s)))
  {
    var subs' := subs[s := Share(subs[s])];
    forall b ensures At(InsertAll(t.bucketIndex, AllBuckets(subs[s].ranges), s), b) == IndexedHolders(subs', lost, b) {
      assert At(t.bucketIndex, b) == IndexedHolders(subs, lost, b);
      AllBucketsTouched(subs[s].ranges, b);
      assert IndexedHolders(subs', lost, b)
          == if TouchesBucket(subs[s].ranges, b) then IndexedHolders(subs, lost, b) + {s} else IndexedHolders(subs, lost, b);
    }
  }

  lemma ShareCounts<S>(subs: map<S, Sub>, t: Tables<S>, s: S)
    requires ChannelsCounted(subs, t) && BucketsCounted(subs, t) && s in subs
    ensures ChannelsCounted(subs[s := Share(subs[s])], t) && BucketsCounted(subs[s := Share(subs[s])], t)
  {
    var subs' := subs[s := Share(subs[s])];
    forall c ensures ChannelHolders(subs', c) == ChannelHolders(subs, c) && RangeHolders(subs', c) == RangeHolders(subs, c) {}
    forall c ensures Counted(t.globalChannels, c, ChannelHolders(subs', c)) && Counted(t.globalBuckets, c, RangeHolders(subs', c)) {
      assert Counted(t.globalChannels, c, ChannelHolders(subs, c)) && Counted(t.globalBuckets, c, RangeHolders(subs, c));
    }
  }

  /** A new subscriber holds nothing. */
  lemma NewcomerKeeps<S>(subs: map<S, Sub>, lost: set<(S, nat)>, t: Tables<S>, s: S)
    requires Consistent(subs, lost, t) && s !in subs
    ensures Consistent(subs[s := Sub(false, {}, [])], lost, t)
  {
    var subs' := subs[s := Sub(false, {}, [])];
    forall c
      ensures ChannelHolders(subs', c) == ChannelHolders(subs, c) && RangeHolders(subs', c) == RangeHolders(subs, c)
      ensures SharedHolders(subs', c) == SharedHolders(subs, c) && IndexedHolders(subs', lost, c) == IndexedHolders(subs, lost, c)
    {}
    forall c ensures Counted(t.globalChannels, c, ChannelHolders(subs', c)) && Counted(t.globalBuckets, c, RangeHolders(subs', c)) {
      assert Counted(t.globalChannels, c, ChannelHolders(subs, c)) && Counted(t.globalBuckets, c, RangeHolders(subs, c));
    }
    forall c ensures At(t.channelIndex, c) == SharedHolders(subs', c) && At(t.bucketIndex, c) == IndexedHolders(subs', lost, c) {
      assert At(t.channelIndex, c) == SharedHolders(subs, c) && At(t.bucketIndex, c) == IndexedHolders(subs, lost, c);
    }
  }

  /* ---- When nothing is lost ---- */

  ghost predicate DisjointBuckets(ranges: seq<Range>) {
    forall q, r, b :: q in ranges && r in ranges && Touches(q, b) && Touches(r, b) ==> q == r
  }

  /** Removing a range loses a bucket exactly when another range of the subscriber is there. */
  lemma LosesIffShares<S>(lost: set<(S, nat)>, s: S, sub: Sub, r: Range, b: nat)
    requires Distinct(sub.ranges) && r in sub.ranges && sub.shared && (s, b) !in lost
    ensures (s, b) in LostAfterUnsubscribe(lost, s, sub, r)
       <==> Touches(r, b) && exists q :: q in sub.ranges && q != r && Touches(q, b)
  {
    WithoutRemoves(sub.ranges, r);
  }

  /** A lost bucket that some non-empty range still covers has a channel whose messages
      the subscriber would get from a scan, but does not get. */
  lemma LostBucketMisses<S>(subs: map<S, Sub>, lost: set<(S, nat)>, s: S, q: Range, b: nat)
    requires s in subs && subs[s].shared && (s, b) in lost && q in subs[s].ranges && Touches(q, b) && q.lo <= q.hi
    requires subs[s].channels == {}
    ensures exists c :: Bucket(c) == b && s in Scan(subs, c) && s !in Receivers(subs, lost, c)
  {
    var c := if Bucket(q.lo) == b then q.lo else b * BUCKET_SIZE;
    assert Bucket(c) == b && Contains(q, c);
    assert WithinLocalRange(subs[s], c);
  }

  lemma DisjointRangesLoseNothing<S>(s: S, sub: Sub, r: Range)
    requires Distinct(sub.ranges) && r in sub.ranges && DisjointBuckets(sub.ranges)
    ensures LostAfterUnsubscribe({}, s, sub, r) == {}
  {
    WithoutRemoves(sub.ranges, r);
  }

  /** With nothing lost the index finds exactly what a scan finds. */
  lemma NothingLostNothingMissed<S>(subs: map<S, Sub>, channel: nat)
    ensures Receivers(subs, {}, channel) == Scan(subs, channel)
  {}

  /** Whoever is interested in a channel has its queue bound for it. */
  lemma ReceiversAreBound<S>(subs: map<S, Sub>, lost: set<(S, nat)>, channel: nat)
    requires Receivers(subs, lost, channel) != {}
    ensures Bound(subs, channel)
  {
    var s :| s in Receivers(subs, lost, channel);
    if channel in subs[s].channels {
      assert s in ChannelHolders(subs, channel);
    } else {
      var r :| r in subs[s].ranges && Contains(r, channel);
      assert (s, r) in RangeHolders(subs, Bucket(channel));
    }
  }
}
