/** Pending objects and the operations that load them. As long as no operation is opened
    on a location that another one is still loading, every pending object points to an
    operation that holds an entrance of it, so no held-back message is ever looked up
    under an operation that is gone; and every operation finishes at most once. */
module InterestOperations {
  import opened ParentingRule
  import opened Common
  import opened InterestModel

  /* ---- What an operation holds back ---- */

  function GenIds(es: seq<Entrance>): set<DoId> {
    set i | 0 <= i < |es| :: es[i].doId
  }

  /** The object a held-back message is about. */
  function Subject(m: Msg): DoId
    requires Queueable(m)
  {
    if m.EnterLocation? then m.entrance.doId else m.doId
  }

  function Introduces(m: Msg): set<DoId> {
    if m.EnterLocation? then {m.entrance.doId} else {}
  }

  /** The objects that enter somewhere in the queue. */
  function Announced(queue: seq<Datagram>): set<DoId> {
    if queue == [] then {} else Introduces(queue[0].msg) + Announced(queue[1..])
  }

  /** Every message is about an object that is known or that entered before it. */
  predicate Introduced(known: set<DoId>, queue: seq<Datagram>)
    decreases |queue|
  {
    queue == [] ||
    (Queueable(queue[0].msg)
     && (queue[0].msg.EnterLocation? || Subject(queue[0].msg) in known)
     && Introduced(known + Introduces(queue[0].msg), queue[1..]))
  }

  ghost predicate Admissible(channel: nat, at: set<Location>, dg: Datagram) {
    dg.sender != channel && Queueable(dg.msg) && (dg.msg.EnterLocation? ==> dg.msg.entrance.at in at)
  }

  ghost predicate Held(channel: nat, known: set<DoId>, at: set<Location>, queue: seq<Datagram>) {
    && (forall i :: 0 <= i < |queue| ==> Admissible(channel, at, queue[i]))
    && Introduced(known, queue)
  }

  ghost predicate SoundOp(channel: nat, op: Operation) {
    Held(channel, GenIds(op.generates), OpLocations(op), op.queue)
  }

  ghost predicate SoundOps(channel: nat, ops: map<nat, Operation>) {
    forall k :: k in ops ==> SoundOp(channel, ops[k])
  }

  ghost predicate Disjoint(ops: map<nat, Operation>, replaying: set<Location>) {
    && (forall j, k :: j in ops && k in ops && j != k ==> OpLocations(ops[j]) !! OpLocations(ops[k]))
    && (forall k :: k in ops ==> OpLocations(ops[k]) !! replaying)
  }

  /** The operation `k` holds an entrance of `d`. */
  ghost predicate Tracked(ops: map<nat, Operation>, k: nat, d: DoId) {
    k in ops && d in GenIds(ops[k].generates) + Announced(ops[k].queue)
  }

  /** Every pending object points to a live operation with an entrance of it, except that
      while `rest` is being replayed the operation of some may be gone: they have not
      been heard of since, and they are still to enter in `rest`. */
  ghost predicate AllTracked(pending: map<DoId, nat>, ops: map<nat, Operation>, known: set<DoId>, rest: seq<Datagram>) {
    forall d :: d in pending ==> Tracked(ops, pending[d], d) || (d !in known && d in Announced(rest))
  }

  ghost predicate Coherent(c: Client, known: set<DoId>, rest: seq<Datagram>) {
    && SoundOps(c.channel, c.ints.ops)
    && Disjoint(c.ints.ops, c.history.replaying)
    && AllTracked(c.objs.pending, c.ints.ops, known, rest)
    && Held(c.channel, known, c.history.replaying, rest)
  }

  /** Contexts are never used twice. */
  ghost predicate Numbered(ops: map<nat, Operation>, finished: multiset<nat>, next: nat) {
    && (forall k :: k in ops ==> k < next && k !in finished)
    && (forall k :: k in finished ==> k < next && finished[k] == 1)
  }

  /** The invariant, while the messages `rest` are still to be replayed. */
  ghost predicate Replaying(c: Client, known: set<DoId>, rest: seq<Datagram>) {
    && Numbered(c.ints.ops, c.history.finished, c.nextContext)
    && (!c.history.overlap ==> !c.history.dangling && (c.connected ==> Coherent(c, known, rest)))
  }

  /** The invariant between messages. */
  ghost predicate Orderly(c: Client) {
    Replaying(c, {}, [])
  }

  lemma {:induction false} IntroducedMore(known: set<DoId>, more: set<DoId>, queue: seq<Datagram>)
    requires Introduced(known, queue) && known <= more
    ensures Introduced(more, queue)
    decreases |queue|
  {
    if queue != [] {
      IntroducedMore(known + Introduces(queue[0].msg), more + Introduces(queue[0].msg), queue[1..]);
    }
  }

  lemma {:induction false} AppendIntroduced(known: set<DoId>, queue: seq<Datagram>, dg: Datagram)
    requires Introduced(known, queue) && Queueable(dg.msg)
    requires dg.msg.EnterLocation? || Subject(dg.msg) in known + Announced(queue)
    ensures Introduced(known, queue + [dg])
    ensures Announced(queue + [dg]) == Announced(queue) + Introduces(dg.msg)
    decreases |queue|
  {
    if queue == [] {
      assert [dg][1..] == [];
      assert queue + [dg] == [dg];
    } else {
      assert (queue + [dg])[1..] == queue[1..] + [dg];
      AppendIntroduced(known + Introduces(queue[0].msg), queue[1..], dg);
    }
  }

  /* ---- Steps that leave the operations alone ---- */

  ghost predicate Quiet(c: Client, d: Client) {
    && d.ints.ops == c.ints.ops && d.channel == c.channel && d.nextContext >= c.nextContext
    && d.objs.pending.Items <= c.objs.pending.Items
    && d.history == c.history.(declared := d.history.declared)
    && (d.connected ==> c.connected)
  }

  lemma FewerPending(few: map<DoId, nat>, many: map<DoId, nat>, ops: map<nat, Operation>, known: set<DoId>, rest: seq<Datagram>)
    requires few.Items <= many.Items && AllTracked(many, ops, known, rest)
    ensures AllTracked(few, ops, known, rest)
  {
    forall d | d in few ensures d in many && many[d] == few[d] {
      assert (d, few[d]) in few.Items;
    }
  }

  lemma QuietKeeps(c: Client, d: Client, known: set<DoId>, rest: seq<Datagram>)
    requires Replaying(c, known, rest) && Quiet(c, d)
    ensures Replaying(d, known, rest)
  {
    hide AllTracked, Held, SoundOps, Disjoint;
    if !c.history.overlap && c.connected {
      FewerPending(d.objs.pending, c.objs.pending, c.ints.ops, known, rest);
    }
  }

  lemma ShutdownKeeps(c: Client, known: set<DoId>, rest: seq<Datagram>)
    requires Replaying(c, known, rest)
    ensures Replaying(Shutdown(c), known, rest) && Replaying(Disconnect(c), known, rest)
  {
    hide Coherent;
    var keys := multiset(c.ints.ops.Keys);
    assert forall k :: k in keys <==> k in c.ints.ops;
    assert forall k :: keys[k] <= 1;
  }

  lemma CloseZonesKeeps(cfg: Config, c: Client, parent: DoId, killed: set<nat>, known: set<DoId>, rest: seq<Datagram>)
    requires Replaying(c, known, rest)
    ensures Replaying(CloseZones(cfg, c, parent, killed), known, rest)
  {
    hide Replaying, Victims, ClosesSession, Disconnect;
    var gone := Victims(c.objs, parent, killed, cfg.order(|c.sent|, c.objs.visible.Keys));
    var told := c.(sent := if c.connected then c.sent + Leavings(gone) else c.sent,
                   objs := c.objs.(seen := c.objs.seen - ToSet(gone)));
    QuietKeeps(c, told, known, rest);
    ShutdownKeeps(told, known, rest);
    QuietKeeps(told, told.(objs := told.objs.(visible := c.objs.visible - ToSet(gone)),
               ints := c.ints.(subscribed := c.ints.subscribed - Locations(parent, killed))), known, rest);
  }

  /* ---- Opening operations ---- */

  lemma OpenOperationKeeps(c: Client, i: Interest, zones: set<nat>, ctx: nat, caller: nat, known: set<DoId>, rest: seq<Datagram>)
    requires Replaying(c, known, rest)
    ensures Replaying(OpenOperation(c, i, zones, ctx, caller), known, rest)
  {
    var d := OpenOperation(c, i, zones, ctx, caller);
    if !d.history.overlap && c.connected {
      OpenCoherent(c, i, zones, ctx, caller, known, rest);
    }
  }

  lemma OpenCoherent(c: Client, i: Interest, zones: set<nat>, ctx: nat, caller: nat, known: set<DoId>, rest: seq<Datagram>)
    requires Coherent(c, known, rest) && !Overlaps(c, Locations(i.parent, zones))
    requires forall k :: k in c.ints.ops ==> k < c.nextContext
    ensures Coherent(OpenOperation(c, i, zones, ctx, caller), known, rest)
  {
    hide Held;
    var ops := OpenOperation(c, i, zones, ctx, caller).ints.ops;
    var op := ops[c.nextContext];
    assert OpLocations(op) == Locations(i.parent, zones);
    assert SoundOp(c.channel, op) by { EmptyHeld(c.channel, GenIds([]), OpLocations(op)); }
  }

  lemma EmptyHeld(channel: nat, known: set<DoId>, at: set<Location>)
    ensures Held(channel, known, at, [])
  {}

  lemma AddInterestKeeps(cfg: Config, c: Client, given: Interest, ctx: nat, caller: nat, known: set<DoId>, rest: seq<Datagram>)
    requires Replaying(c, known, rest)
    ensures Replaying(AddInterest(cfg, c, given, ctx, caller), known, rest)
  {
    hide Replaying, CloseZones, OpenOperation, Extend, NewZones, KilledZones, ReplacingClosesSession;
    var i := Extend(cfg, c, given);
    var closed := CloseReplaced(cfg, c, i);
    if i.id in c.ints.open {
      CloseZonesKeeps(cfg, c, c.ints.open[i.id].parent, KilledZones(c.ints.open, i), known, rest);
    }
    var recorded := Record(closed, i);
    QuietKeeps(closed, recorded, known, rest);
    OpenOperationKeeps(recorded, i, NewZones(c.ints.open, i), ctx, caller, known, rest);
    QuietKeeps(recorded, TellDone(NotifyDone(recorded, i.id, caller), i.id, ctx), known, rest);
  }

  lemma RemoveInterestKeeps(cfg: Config, c: Client, id: nat, ctx: nat, caller: nat, known: set<DoId>, rest: seq<Datagram>)
    requires Replaying(c, known, rest) && id in c.ints.open
    ensures Replaying(RemoveInterest(cfg, c, id, ctx, caller), known, rest)
  {
    hide Replaying, CloseZones, ClosesSession, SoleZones;
    var closed := CloseZones(cfg, c, c.ints.open[id].parent, SoleZones(c.ints.open, id));
    CloseZonesKeeps(cfg, c, c.ints.open[id].parent, SoleZones(c.ints.open, id), known, rest);
    var told := TellDone(NotifyDone(closed, id, caller), id, ctx);
    QuietKeeps(closed, told.(ints := told.ints.(open := told.ints.open - {id})), known, rest);
  }

  lemma ApplyRuleKeeps(cfg: Config, c: Client, parent: DoId, rule: Rule)
    requires Orderly(c)
    ensures Orderly(ApplyRule(cfg, c, parent, rule))
  {
    hide Replaying, AddInterest, Allocate, RuleZones;
    if Tracks(rule) {
      var (id, next) := Allocate(c.ints.open, c.avatar.nextId, INTERNAL_IDS);
      var d := c.(avatar := c.avatar.(nextId := next, rule := Some(AvatarRule(parent, rule, id))));
      QuietKeeps(c, d, {}, []);
      AddInterestKeeps(cfg, d, Interest(id, parent, RuleZones(rule, c.avatar.at.zone), true), 0, 0, {}, []);
    } else {
      QuietKeeps(c, ApplyRule(cfg, c, parent, rule), {}, []);
    }
  }

  lemma UpdateRuleKeeps(cfg: Config, c: Client, known: set<DoId>, rest: seq<Datagram>)
    requires Replaying(c, known, rest)
    ensures Replaying(UpdateRule(cfg, c), known, rest)
  {
    hide Replaying, AddInterest, RuleZones;
    if c.avatar.rule.Some? {
      var r := c.avatar.rule.value;
      var zones := RuleZones(r.rule, c.avatar.at.zone);
      if r.interestId in c.ints.open {
        AddInterestKeeps(cfg, c, c.ints.open[r.interestId].(zones := zones, internal := true), 0, 0, known, rest);
      } else {
        AddInterestKeeps(cfg, c, Interest(r.interestId, r.parent, zones, true), 0, 0, known, rest);
      }
    }
  }

  lemma ClearRuleKeeps(cfg: Config, c: Client, known: set<DoId>, rest: seq<Datagram>)
    requires Replaying(c, known, rest)
    ensures Replaying(ClearRule(cfg, c), known, rest)
  {
    hide Replaying, RemoveInterest;
    if c.avatar.rule.Some? {
      var id := c.avatar.rule.value.interestId;
      var d := if id in c.ints.open then RemoveInterest(cfg, c, id, 0, 0) else c;
      if id in c.ints.open { RemoveInterestKeeps(cfg, c, id, 0, 0, known, rest); }
      QuietKeeps(d, d.(avatar := d.avatar.(rule := None)), known, rest);
    }
  }

  lemma MoveAvatarKeeps(cfg: Config, c: Client, to: Location, known: set<DoId>, rest: seq<Datagram>)
    requires Replaying(c, known, rest)
    ensures Replaying(MoveAvatar(cfg, c, to), known, rest)
  {
    hide Replaying, ClearRule, UpdateRule;
    var moved := c.(avatar := c.avatar.(at := to));
    QuietKeeps(c, moved, known, rest);
    ClearRuleKeeps(cfg, moved, known, rest);
    UpdateRuleKeeps(cfg, moved, known, rest);
    QuietKeeps(ClearRule(cfg, moved), RequestClass(ClearRule(cfg, moved), to.parent), known, rest);
  }

  /* ---- Objects ---- */

  lemma ChangeLocationKeeps(cfg: Config, c: Client, doId: DoId, to: Location, known: set<DoId>, rest: seq<Datagram>)
    requires Replaying(c, known, rest)
    ensures Replaying(ChangeLocation(cfg, c, doId, to), known, rest)
  {
    hide Replaying, MoveAvatar;
    MoveAvatarKeeps(cfg, c, to, known, rest);
    var d := if c.avatar.doId == doId then MoveAvatar(cfg, c, to) else c;
    QuietKeeps(d, Send(d, Moved(doId, to)), known, rest);
  }

  lemma OnMoveKeeps(cfg: Config, c: Client, doId: DoId, to: Location, known: set<DoId>, rest: seq<Datagram>)
    requires Replaying(c, known, rest)
    ensures Replaying(OnMove(cfg, c, doId, to), known, rest)
  {
    hide Replaying, ChangeLocation, Disconnect, Covered;
    var d := c.(objs := c.objs.(visible := Relocate(c.objs.visible, doId, to), owned := Relocate(c.objs.owned, doId, to)));
    QuietKeeps(c, d, known, rest);
    ChangeLocationKeeps(cfg, d, doId, to, known, rest);
    ShutdownKeeps(d, known, rest);
    QuietKeeps(d, DropVisible(d, doId), known, rest);
  }

  lemma OnDeleteKeeps(cfg: Config, c: Client, doId: DoId, known: set<DoId>, rest: seq<Datagram>)
    requires Replaying(c, known, rest)
    ensures Replaying(OnDelete(cfg, c, doId), known, rest)
  {
    hide Replaying;
    if doId in c.objs.session {
      var d := c.(objs := c.objs.(session := c.objs.session - {doId}));
      QuietKeeps(c, d, known, rest);
      ShutdownKeeps(d, known, rest);
    } else {
      QuietKeeps(c, OnDelete(cfg, c, doId), known, rest);
    }
  }

  lemma EnterQuiet(c: Client, e: Entrance)
    ensures Quiet(c, Enter(c, e)) && Enter(c, e).objs.pending == c.objs.pending - {e.doId}
  {}

  lemma {:induction false} LoadingFinds(ops: map<nat, Operation>, at: Location, order: seq<nat>)
    ensures var k := Loading(ops, at, order); k.Some? ==> k.value in ops && at in OpLocations(ops[k.value])
  {
    if order != [] { LoadingFinds(ops, at, order[1..]); }
  }

  lemma AppendSound(channel: nat, op: Operation, dg: Datagram)
    requires SoundOp(channel, op) && Admissible(channel, OpLocations(op), dg)
    requires dg.msg.EnterLocation? || Subject(dg.msg) in GenIds(op.generates) + Announced(op.queue)
    ensures SoundOp(channel, op.(queue := op.queue + [dg]))
    ensures Announced(op.queue + [dg]) == Announced(op.queue) + Introduces(dg.msg)
  {
    AppendIntroduced(GenIds(op.generates), op.queue, dg);
    forall i | 0 <= i < |op.queue + [dg]| ensures Admissible(channel, OpLocations(op), (op.queue + [dg])[i]) {
      assert (op.queue + [dg])[i] == if i < |op.queue| then op.queue[i] else dg;
    }
  }

  /** Replacing an operation by one that holds more. */
  lemma SetOpKeeps(c: Client, d: Client, k: nat, op: Operation, known: set<DoId>, rest: seq<Datagram>)
    requires Coherent(c, known, rest) && k in c.ints.ops
    requires SoundOp(c.channel, op) && OpLocations(op) == OpLocations(c.ints.ops[k])
    requires GenIds(c.ints.ops[k].generates) + Announced(c.ints.ops[k].queue) <= GenIds(op.generates) + Announced(op.queue)
    requires d.channel == c.channel && d.history.replaying == c.history.replaying && d.ints.ops == c.ints.ops[k := op]
    requires forall x :: x in d.objs.pending ==>
               (x in c.objs.pending && c.objs.pending[x] == d.objs.pending[x]) || Tracked(d.ints.ops, d.objs.pending[x], x)
    ensures Coherent(d, known, rest)
  {
    hide Held, GenIds, Announced;
  }

  lemma TryQueueKeeps(c: Client, doId: DoId, dg: Datagram, known: set<DoId>, rest: seq<Datagram>)
    requires Replaying(c, known, rest) && c.connected && dg.sender != c.channel
    requires Queueable(dg.msg) && !dg.msg.EnterLocation? && Subject(dg.msg) == doId
    requires doId in known || doId !in Announced(rest)
    ensures Replaying(TryQueue(c, doId, dg), known, rest)
  {
    hide Disjoint, Held;
    if doId in c.objs.pending && !c.history.overlap {
      var k := c.objs.pending[doId];
      assert Tracked(c.ints.ops, k, doId);
      AppendSound(c.channel, c.ints.ops[k], dg);
      SetOpKeeps(c, Append(c, k, dg), k, c.ints.ops[k].(queue := c.ints.ops[k].queue + [dg]), known, rest);
    }
  }

  lemma OnEnterLocationKeeps(cfg: Config, c: Client, dg: Datagram, e: Entrance, known: set<DoId>, rest: seq<Datagram>)
    requires Replaying(c, known, rest) && c.connected && dg.sender != c.channel && dg.msg == EnterLocation(e)
    ensures Replaying(OnEnterLocation(cfg, c, dg, e), known, rest)
  {
    hide Loading, Enter, Disjoint, Held;
    var k := Loading(c.ints.ops, e.at, cfg.order(|c.sent|, c.ints.ops.Keys));
    LoadingFinds(c.ints.ops, e.at, cfg.order(|c.sent|, c.ints.ops.Keys));
    if k.None? {
      EnterQuiet(c, e);
      QuietKeeps(c, Enter(c, e), known, rest);
    } else if !c.history.overlap {
      var op := c.ints.ops[k.value];
      AppendSound(c.channel, op, dg);
      SetOpKeeps(c, OnEnterLocation(cfg, c, dg, e), k.value, op.(queue := op.queue + [dg]), known, rest);
    }
  }

  lemma OnQueueableKeeps(cfg: Config, c: Client, dg: Datagram, known: set<DoId>, rest: seq<Datagram>)
    requires Replaying(c, known, rest) && c.connected && dg.sender != c.channel && Queueable(dg.msg)
    requires dg.msg.EnterLocation? || Subject(dg.msg) in known || Subject(dg.msg) !in Announced(rest)
    ensures Replaying(OnQueueable(cfg, c, dg), known, rest)
  {
    hide Replaying, Lookup, OnDelete, OnMove, OnEnterLocation, TryQueue;
    if !dg.msg.EnterLocation? { TryQueueKeeps(c, dg.msg.doId, dg, known, rest); }
    match dg.msg
    case SetField(doId, field, data) => QuietKeeps(c, Send(c, FieldSet(doId, field, data)), known, rest);
    case SetFields(doId, count, data) => QuietKeeps(c, Send(c, FieldsSet(doId, count, data)), known, rest);
    case DeleteRam(doId) => OnDeleteKeeps(cfg, c, doId, known, rest);
    case EnterLocation(e) => OnEnterLocationKeeps(cfg, c, dg, e, known, rest);
    case ChangingLocation(doId, to) => OnMoveKeeps(cfg, c, doId, to, known, rest);
  }

  /* ---- Finishing ---- */

  /** The first message has been dispatched: if it was an entrance, the object is no
      longer pending. */
  lemma Shift(c: Client, known: set<DoId>, rest: seq<Datagram>)
    requires Replaying(c, known, rest) && rest != []
    requires !c.history.overlap && c.connected ==> c.objs.pending.Keys !! Introduces(rest[0].msg)
    ensures Replaying(c, known + Introduces(rest[0].msg), rest[1..])
  {
    hide SoundOps, Disjoint, Tracked;
  }

  /** A replayed entrance is not held back again. */
  lemma EntranceEnters(cfg: Config, c: Client, dg: Datagram, known: set<DoId>, rest: seq<Datagram>)
    requires Coherent(c, known, [dg] + rest) && dg.msg.EnterLocation?
    ensures OnQueueable(cfg, c, dg) == Enter(c, dg.msg.entrance)
  {
    var order := cfg.order(|c.sent|, c.ints.ops.Keys);
    LoadingFinds(c.ints.ops, dg.msg.entrance.at, order);
    assert ([dg] + rest)[0] == dg;
  }

  lemma RedeliverKeeps(cfg: Config, c: Client, known: set<DoId>, rest: seq<Datagram>)
    requires Replaying(c, known, rest) && rest != []
    ensures Replaying(Redeliver(cfg, c, rest[0]), known + Introduces(rest[0].msg), rest[1..])
  {
    var dg := rest[0];
    hide OnQueueable, Disjoint, SoundOps, AllTracked;
    if c.connected && dg.sender != c.channel && Queueable(dg.msg) {
      if c.history.overlap || !dg.msg.EnterLocation? {
        RedeliverOther(cfg, c, known, rest);
      } else {
        assert rest == [dg] + rest[1..];
        EntranceEnters(cfg, c, dg, known, rest[1..]);
        EnterQuiet(c, dg.msg.entrance);
        QuietKeeps(c, Enter(c, dg.msg.entrance), known, rest);
        Shift(Enter(c, dg.msg.entrance), known, rest);
      }
    } else {
      Shift(c, known, rest);
    }
  }

  lemma RedeliverOther(cfg: Config, c: Client, known: set<DoId>, rest: seq<Datagram>)
    requires Replaying(c, known, rest) && rest != [] && c.connected && rest[0].sender != c.channel && Queueable(rest[0].msg)
    requires c.history.overlap || !rest[0].msg.EnterLocation?
    ensures Replaying(OnQueueable(cfg, c, rest[0]), known + Introduces(rest[0].msg), rest[1..])
  {
    hide OnQueueable, SoundOps, Disjoint, AllTracked;
    if c.history.overlap {
      OnQueueableKeeps(cfg, c, rest[0], {}, [IMPOSSIBLE]);
    } else {
      OnQueueableKeeps(cfg, c, rest[0], known, rest);
      Shift(OnQueueable(cfg, c, rest[0]), known, rest);
    }
  }

  /** A message no operation holds back: after an overlap the invariant allows even it to
      be replayed, so the overlap must have stayed on record. */
  const IMPOSSIBLE := Datagram(0, Eject)

  lemma {:induction false} ReplayKeeps(cfg: Config, c: Client, known: set<DoId>, queue: seq<Datagram>)
    requires Replaying(c, known, queue)
    ensures Orderly(Replay(cfg, c, queue))
    decreases |queue|
  {
    hide Redeliver, Numbered;
    if queue == [] {
      assert Coherent(c, known, []) ==> Coherent(c, {}, []);
    } else {
      RedeliverKeeps(cfg, c, known, queue);
      ReplayKeeps(cfg, Redeliver(cfg, c, queue[0]), known + Introduces(queue[0].msg), queue[1..]);
    }
  }

  lemma {:induction false} EnterAllQuiet(c: Client, es: seq<Entrance>)
    ensures Quiet(c, EnterAll(c, es)) && EnterAll(c, es).objs.pending == c.objs.pending - GenIds(es)
    decreases |es|
  {
    if es != [] {
      EnterQuiet(c, es[0]);
      EnterAllQuiet(Enter(c, es[0]), es[1..]);
      assert GenIds(es) == {es[0].doId} + GenIds(es[1..]);
    }
  }

  /** The operation is gone; those of its objects that are still pending enter in its queue. */
  lemma SettleCoherent(c: Client, d: Client, ctx: nat)
    requires Coherent(c, {}, []) && ctx in c.ints.ops
    requires d.channel == c.channel && d.ints.ops == c.ints.ops - {ctx} && d.history.replaying == OpLocations(c.ints.ops[ctx])
    requires d.objs.pending == c.objs.pending - GenIds(c.ints.ops[ctx].generates)
    ensures Coherent(d, GenIds(c.ints.ops[ctx].generates), c.ints.ops[ctx].queue)
  {
    hide Held, GenIds, Announced;
    assert Announced([]) == {} by { NothingAnnounced(); }
  }

  lemma NothingAnnounced()
    ensures Announced([]) == {}
  {}

  lemma SettleKeeps(c: Client, ctx: nat)
    requires Orderly(c) && ctx in c.ints.ops
    ensures Replaying(Settle(c, ctx), GenIds(c.ints.ops[ctx].generates), c.ints.ops[ctx].queue)
  {
    hide Coherent, EnterAll, OpLocations;
    EnterAllQuiet(c, c.ints.ops[ctx].generates);
    if !c.history.overlap && Settle(c, ctx).connected { SettleCoherent(c, Settle(c, ctx), ctx); }
  }

  lemma FinishKeeps(cfg: Config, c: Client, ctx: nat)
    requires Orderly(c) && ctx in c.ints.ops
    ensures Orderly(Finish(cfg, c, ctx))
  {
    hide Replay, Settle, SoundOps, AllTracked, Held;
    SettleKeeps(c, ctx);
    ReplayKeeps(cfg, Settle(c, ctx), GenIds(c.ints.ops[ctx].generates), c.ints.ops[ctx].queue);
    ForgetReplaying(Replay(cfg, Settle(c, ctx), c.ints.ops[ctx].queue));
  }

  lemma ForgetReplaying(c: Client)
    requires Orderly(c)
    ensures Orderly(c.(history := c.history.(replaying := {})))
  {
    hide SoundOps, AllTracked;
  }

  /* ---- Dispatch ---- */

  lemma OnEnterInterestKeeps(cfg: Config, c: Client, ctx: nat, e: Entrance)
    requires Orderly(c) && c.connected
    ensures Orderly(OnEnterInterest(cfg, c, ctx, e))
  {
    if ctx in c.ints.ops {
      var op := c.ints.ops[ctx];
      var more := op.(generates := op.generates + [e]);
      var d := SetOp(c.(objs := c.objs.(pending := c.objs.pending[e.doId := ctx])), ctx, more);
      hide Finish, Held, Disjoint, Announced;
      assert Orderly(d) by { if !c.history.overlap { PromiseKept(c, ctx, e); } }
      FinishKeeps(cfg, d, ctx);
    }
  }

  lemma PromiseKept(c: Client, ctx: nat, e: Entrance)
    requires Coherent(c, {}, []) && ctx in c.ints.ops
    ensures var op := c.ints.ops[ctx];
            Coherent(SetOp(c.(objs := c.objs.(pending := c.objs.pending[e.doId := ctx])), ctx,
                           op.(generates := op.generates + [e])), {}, [])
  {
    var op := c.ints.ops[ctx];
    var more := op.(generates := op.generates + [e]);
    var d := SetOp(c.(objs := c.objs.(pending := c.objs.pending[e.doId := ctx])), ctx, more);
    MoreGenerates(op.generates, e);
    assert SoundOp(c.channel, more) by { IntroducedMore(GenIds(op.generates), GenIds(more.generates), op.queue); }
    hide Held, GenIds, Announced;
    SetOpKeeps(c, d, ctx, more, {}, []);
  }

  lemma MoreGenerates(es: seq<Entrance>, e: Entrance)
    ensures GenIds(es + [e]) == GenIds(es) + {e.doId}
  {
    forall x ensures x in GenIds(es + [e]) <==> x in GenIds(es) + {e.doId} {
      if x == e.doId { assert (es + [e])[|es|].doId == x; }
      if x in GenIds(es) {
        var i :| 0 <= i < |es| && es[i].doId == x;
        assert (es + [e])[i].doId == x;
      }
    }
  }

  lemma OnZonesCountKeeps(cfg: Config, c: Client, ctx: nat, count: nat)
    requires Orderly(c) && c.connected
    ensures Orderly(OnZonesCount(cfg, c, ctx, count))
  {
    if ctx in c.ints.ops {
      var op := c.ints.ops[ctx];
      var told := op.(total := if op.total.None? then Some(count) else op.total);
      var d := SetOp(c, ctx, told);
      hide Finish, Held, Disjoint, Announced, GenIds;
      assert Orderly(d) by { if !c.history.overlap { SetOpKeeps(c, d, ctx, told, {}, []); } }
      FinishKeeps(cfg, d, ctx);
    }
  }

  lemma OnAddInterestKeeps(cfg: Config, c: Client, i: Interest, caller: nat)
    requires Orderly(c)
    ensures Orderly(OnAddInterest(cfg, c, i, caller))
  {
    hide Replaying, AddInterest;
    var next := Send(c.(nextContext := c.nextContext + 1), InterestAdded(c.nextContext, i));
    QuietKeeps(c, next, {}, []);
    AddInterestKeeps(cfg, next, i.(internal := false), c.nextContext, caller, {}, []);
  }

  lemma OnRemoveInterestKeeps(cfg: Config, c: Client, id: nat, caller: nat)
    requires Orderly(c)
    ensures Orderly(OnRemoveInterest(cfg, c, id, caller))
  {
    hide Replaying, RemoveInterest;
    var numbered := c.(nextContext := c.nextContext + 1);
    var next := Send(numbered, InterestRemoved(c.nextContext, id));
    QuietKeeps(c, numbered, {}, []);
    QuietKeeps(c, next, {}, []);
    if id in c.ints.open { RemoveInterestKeeps(cfg, next, id, c.nextContext, caller, {}, []); }
  }

  lemma OnClassRespKeeps(cfg: Config, c: Client, ctx: nat, doId: DoId, dcId: nat)
    requires Orderly(c)
    ensures Orderly(OnClassResp(cfg, c, ctx, doId, dcId))
  {
    hide Replaying, ApplyRule;
    if ctx in c.avatar.lookups {
      var d := c.(avatar := c.avatar.(lookups := c.avatar.lookups - {ctx}));
      QuietKeeps(c, d, {}, []);
      if dcId in cfg.rules { ApplyRuleKeeps(cfg, d, c.avatar.lookups[ctx], cfg.rules[dcId]); }
      QuietKeeps(d, d.(avatar := d.avatar.(rule := Some(AvatarRule(c.avatar.lookups[ctx], Stated, 0)))), {}, []);
    }
  }

  lemma OnChangingOwnerKeeps(c: Client, doId: DoId, newOwner: nat)
    requires Orderly(c)
    ensures Orderly(OnChangingOwner(c, doId, newOwner))
  {
    hide Replaying, Disconnect;
    ShutdownKeeps(c, {}, []);
    QuietKeeps(c, LoseOwnership(c, doId), {}, []);
  }

  lemma DispatchKeeps(cfg: Config, c: Client, dg: Datagram)
    requires Orderly(c) && c.connected && !Queueable(dg.msg) && !Declares(dg.msg)
    ensures Orderly(Dispatch(cfg, c, dg))
  {
    hide Replaying, Orderly, OnAddInterest, OnRemoveInterest, OnEnterInterest, OnZonesCount, OnClassResp, OnChangingOwner;
    match dg.msg
    case Eject => EndsKeep(c);
    case Drop => EndsKeep(c);
    case AddInterestMsg(i) => OnAddInterestKeeps(cfg, c, i, dg.sender);
    case RemoveInterestMsg(id) => OnRemoveInterestKeeps(cfg, c, id, dg.sender);
    case EnterOwner(e) => OnEnterOwnerKeeps(cfg, c, e);
    case EnterInterest(ctx, e) => OnEnterInterestKeeps(cfg, c, ctx, e);
    case ZonesCount(ctx, count) => OnZonesCountKeeps(cfg, c, ctx, count);
    case ClassResp(ctx, doId, dcId) => OnClassRespKeeps(cfg, c, ctx, doId, dcId);
    case ChangingOwner(doId, newOwner) => OnChangingOwnerKeeps(c, doId, newOwner);
  }

  lemma EndsKeep(c: Client)
    requires Orderly(c)
    ensures Orderly(Shutdown(c)) && Orderly(Disconnect(c))
  {
    ShutdownKeeps(c, {}, []);
  }

  lemma OnEnterOwnerKeeps(cfg: Config, c: Client, e: Entrance)
    requires Orderly(c)
    ensures Orderly(OnEnterOwner(cfg, c, e))
  {
    hide Replaying;
    QuietKeeps(c, OnEnterOwner(cfg, c, e), {}, []);
  }

  lemma ReceiveKeeps(cfg: Config, c: Client, dg: Datagram)
    requires Orderly(c)
    ensures Orderly(Receive(cfg, c, dg))
  {
    hide Replaying, Dispatch, OnQueueable;
    if c.connected && dg.sender != c.channel {
      if Queueable(dg.msg) { assert Announced([]) == {}; OnQueueableKeeps(cfg, c, dg, {}, []); }
      else if Declares(dg.msg) { QuietKeeps(c, OnDeclare(c, dg.msg), {}, []); }
      else { DispatchKeeps(cfg, c, dg); }
    }
  }

  lemma StepKeeps(cfg: Config, c: Client, ev: Event)
    requires Orderly(c)
    ensures Orderly(Step(cfg, c, ev))
  {
    hide Replaying, Receive, AddInterest, RemoveInterest, Finish, Shutdown, Disconnect;
    EndsKeep(c);
    match ev
    case FromCluster(dg) => ReceiveKeeps(cfg, c, dg);
    case ClientAdds(ctx, i) => AddInterestKeeps(cfg, c, i.(internal := false), ctx, 0, {}, []);
    case ClientRemoves(ctx, id) => if id in c.ints.open { RemoveInterestKeeps(cfg, c, id, ctx, 0, {}, []); }
    case OperationTimesOut(ctx) => if ctx in c.ints.ops { FinishKeeps(cfg, c, ctx); }
    case LookupTimesOut(ctx) => QuietKeeps(c, Step(cfg, c, ev), {}, []);
    case ConnectionEnds =>
  }

  /** In every run: no context finishes twice or while its operation is pending; and if no
      operation was ever opened on a location still being loaded, no pending object ever
      led to an operation that was gone, and every pending object of a connected client
      points to an operation that holds an entrance of it. */
  lemma {:induction false} OperationsAreOrderly(cfg: Config, channel: nat, events: seq<Event>)
    ensures Orderly(Run(cfg, channel, events))
    decreases |events|
  {
    hide Step;
    if events != [] {
      OperationsAreOrderly(cfg, channel, events[..|events| - 1]);
      StepKeeps(cfg, Run(cfg, channel, events[..|events| - 1]), events[|events| - 1]);
    }
  }

  /** If no operation was ever opened on a location that another was still loading, every
      pending object of a connected client points to an operation holding an entrance of it. */
  lemma PendingObjectsAreLoading(cfg: Config, channel: nat, events: seq<Event>)
    requires !Run(cfg, channel, events).history.overlap
    ensures var c := Run(cfg, channel, events);
            !c.history.dangling
            && (c.connected ==> forall d :: d in c.objs.pending ==> Tracked(c.ints.ops, c.objs.pending[d], d))
  {
    hide Run;
    OperationsAreOrderly(cfg, channel, events);
  }

  /** No operation finishes twice, or finishes and stays pending. */
  lemma OperationsFinishOnce(cfg: Config, channel: nat, events: seq<Event>, ctx: nat)
    ensures var c := Run(cfg, channel, events);
            c.history.finished[ctx] <= 1 && (ctx in c.ints.ops ==> c.history.finished[ctx] == 0)
  {
    hide Run, Coherent;
    OperationsAreOrderly(cfg, channel, events);
  }

  /* ---- The condition is needed ---- */

  function Visit(parent: DoId): Interest {
    Interest(1, parent, {5}, false)
  }

  /** A message of the cluster; whoever sends it, it is not this client. */
  function News(channel: nat, msg: Msg): Event {
    FromCluster(Datagram(channel + 1, msg))
  }

  /** A client that knows no object, with two operations that both load zone 5 of the parent
      and hold nothing. */
  ghost predicate LoadsTwice(c: Client, parent: DoId) {
    && c.connected && c.ints.ops.Keys == {1, 4} && c.objs == Initial(0).objs
    && forall k :: k in c.ints.ops ==> Empty(c.ints.ops[k], parent)
  }

  ghost predicate Empty(op: Operation, parent: DoId) {
    op.parent == parent && op.zones == {5} && op.generates == [] && op.queue == []
  }

  /** The cluster opens the interest, which no permission is needed for. */
  lemma VisitOpens(cfg: Config, c: Client, parent: DoId)
    requires ValidConfig(cfg) && parent !in cfg.uberdogs
    requires c.connected && c.objs == Initial(0).objs && c.ints.open == map[]
    ensures var d := Step(cfg, c, News(c.channel, AddInterestMsg(Visit(parent))));
            && d.connected && d.objs == c.objs && d.channel == c.channel && d.nextContext == c.nextContext + 2
            && d.ints.open == map[1 := Visit(parent)] && d.ints.ops.Keys == c.ints.ops.Keys + {c.nextContext + 1}
            && Empty(d.ints.ops[c.nextContext + 1], parent)
            && forall k :: k in c.ints.ops && k != c.nextContext + 1 ==> d.ints.ops[k] == c.ints.ops[k]
  {
    var i := Visit(parent);
    var told := Send(c.(nextContext := c.nextContext + 1), InterestAdded(c.nextContext, i));
    assert NewZones(map[], i) == {5};
    assert Extend(cfg, told, i) == i;
    assert OnAddInterest(cfg, c, i, c.channel + 1)
        == OpenOperation(Record(told, i), i, {5}, c.nextContext, c.channel + 1);
  }

  function FirstOf(order: seq<nat>): Option<nat> {
    if order == [] then None else Some(order[0])
  }

  function AllOf(keys: set<nat>): set<Option<nat>> {
    set k | k in keys :: Some(k)
  }

  lemma NothingToVisit(order: seq<nat>, keys: set<nat>)
    requires Enumerates(order, keys) && keys == {}
    ensures order == []
  {
    assert FirstOf(order) in AllOf(keys) + {None};
  }

  lemma VisitCloses(cfg: Config, c: Client, parent: DoId)
    requires ValidConfig(cfg) && c.connected && c.objs == Initial(0).objs && c.ints.open == map[1 := Visit(parent)]
    ensures var d := Step(cfg, c, News(c.channel, RemoveInterestMsg(1)));
            d.connected && d.objs == c.objs && d.ints.open == map[] && d.ints.ops == c.ints.ops
            && d.nextContext == c.nextContext + 1 && d.channel == c.channel
  {
    hide SoleZones;
    var told := Send(c.(nextContext := c.nextContext + 1), InterestRemoved(c.nextContext, 1));
    var order := cfg.order(|told.sent|, told.objs.visible.Keys);
    assert Enumerates(order, told.objs.visible.Keys);
    NothingToVisit(order, told.objs.visible.Keys);
    assert RemoveInterest(cfg, told, 1, c.nextContext, c.channel + 1).objs == c.objs;
    assert c.ints.open - {1} == map[];
  }

  /** Opening, closing and reopening an interest before its objects have arrived. */
  lemma ReopeningLoadsTwice(cfg: Config, channel: nat, parent: DoId)
    requires ValidConfig(cfg) && parent !in cfg.uberdogs
    ensures var open, close := News(channel, AddInterestMsg(Visit(parent))), News(channel, RemoveInterestMsg(1));
            LoadsTwice(Run(cfg, channel, [open, close, open]), parent) && Run(cfg, channel, [open, close, open]).channel == channel
  {
    hide Step, ValidConfig;
    var open, close := News(channel, AddInterestMsg(Visit(parent))), News(channel, RemoveInterestMsg(1));
    var a := Step(cfg, Initial(channel), open);
    VisitOpens(cfg, Initial(channel), parent);
    VisitCloses(cfg, a, parent);
    VisitOpens(cfg, Step(cfg, a, close), parent);
    assert [open, close, open][..2] == [open, close] && [open, close][..1] == [open] && [open][..0] == [];
    assert Run(cfg, channel, [open]) == a;
    assert Run(cfg, channel, [open, close]) == Step(cfg, a, close);
  }

  lemma RunOn(cfg: Config, channel: nat, events: seq<Event>, ev: Event)
    ensures Run(cfg, channel, events + [ev]) == Step(cfg, Run(cfg, channel, events), ev)
  {
    hide Step;
    assert (events + [ev])[..|events|] == events;
  }

  lemma {:induction false} NotAll(keys: set<nat>) returns (k: nat)
    ensures k !in keys && k != INVALID && forall j :: j in keys ==> j < k
    decreases keys
  {
    if keys == {} {
      k := 1;
    } else {
      var j :| j in keys;
      var above := NotAll(keys - {j});
      assert forall i :: i in keys <==> i == j || i in keys - {j};
      k := if j < above then above else j + 1;
    }
  }

  /** The operation that holds back what enters a location, of those that load it. */
  function Holder(cfg: Config, c: Client, at: Location): Option<nat> {
    Loading(c.ints.ops, at, cfg.order(|c.sent|, c.ints.ops.Keys))
  }

  lemma {:induction false} LoadingSome(ops: map<nat, Operation>, at: Location, order: seq<nat>, k: nat)
    requires k in order && k in ops && at in OpLocations(ops[k])
    ensures Loading(ops, at, order).Some?
    decreases |order|
  {
    if order[0] != k { LoadingSome(ops, at, order[1..], k); }
  }

  /** Whoever holds an entrance, loads its location. */
  lemma HolderLoads(cfg: Config, c: Client, at: Location, k: nat)
    requires ValidConfig(cfg) && k in c.ints.ops && at in OpLocations(c.ints.ops[k])
    ensures var h := Holder(cfg, c, at);
            h.Some? && h.value in c.ints.ops && at in OpLocations(c.ints.ops[h.value])
  {
    hide OpLocations, Loading;
    var order := cfg.order(|c.sent|, c.ints.ops.Keys);
    assert Enumerates(order, c.ints.ops.Keys);
    LoadingSome(c.ints.ops, at, order, k);
    LoadingFinds(c.ints.ops, at, order);
  }

  /** The client has never heard of the object. */
  predicate Stranger(cfg: Config, o: Objects, doId: DoId) {
    && doId !in cfg.uberdogs && doId !in o.seen && doId !in o.visible && doId !in o.owned
    && doId !in o.session && doId !in o.declared && doId !in o.pending
  }

  function Newcomer(doId: DoId, at: Location): Msg {
    EnterLocation(Entrance(doId, at, 0, false, []))
  }

  /** From every connected state in which two operations load one location, and the one that
      would hold back what enters there holds nothing yet, three events lead to the lookup of
      an operation that is gone: an object enters, that operation times out, and something is
      said about the object. */
  lemma OverlapDangles(cfg: Config, c: Client, at: Location, k: nat, j: nat) returns (events: seq<Event>)
    requires ValidConfig(cfg) && c.connected && k in c.ints.ops && j in c.ints.ops && k != j
    requires at in OpLocations(c.ints.ops[k]) && at in OpLocations(c.ints.ops[j])
    requires Holder(cfg, c, at) == Some(k) && c.ints.ops[k].generates == [] && c.ints.ops[k].queue == []
    ensures |events| == 3
    ensures Step(cfg, Step(cfg, Step(cfg, c, events[0]), events[1]), events[2]).history.dangling
  {
    hide Step, Loading, OpLocations;
    var doId := NotAll(cfg.uberdogs.Keys + c.objs.seen + c.objs.visible.Keys + c.objs.owned.Keys
                       + c.objs.session + c.objs.declared.Keys + c.objs.pending.Keys);
    var dg := Datagram(c.channel + 1, Newcomer(doId, at));
    events := [FromCluster(dg), OperationTimesOut(k), News(c.channel, SetField(doId, 0, []))];
    EntranceIsHeld(cfg, c, at, doId, k);
    assert Stranger(cfg, c.objs.(pending := map[]), doId);
    HeldElsewhere(cfg, Step(cfg, c, events[0]), at, doId, k, j);
  }

  lemma EntranceIsHeld(cfg: Config, c: Client, at: Location, doId: DoId, k: nat)
    requires c.connected && k in c.ints.ops && Holder(cfg, c, at) == Some(k) && doId !in c.objs.pending
    ensures var dg := Datagram(c.channel + 1, Newcomer(doId, at));
            Step(cfg, c, FromCluster(dg)) == Append(c, k, dg).(objs := c.objs.(pending := c.objs.pending[doId := k]))
  {
    hide Loading;
  }

  /** Timing the operation out hands the entrance to another one, but the object still
      points to the first. */
  lemma HeldElsewhere(cfg: Config, c: Client, at: Location, doId: DoId, k: nat, j: nat)
    requires ValidConfig(cfg) && c.connected && Stranger(cfg, c.objs.(pending := map[]), doId)
    requires k in c.ints.ops && j in c.ints.ops && k != j && at in OpLocations(c.ints.ops[j])
    requires doId in c.objs.pending && c.objs.pending[doId] == k
    requires c.ints.ops[k].generates == [] && c.ints.ops[k].queue == [Datagram(c.channel + 1, Newcomer(doId, at))]
    ensures var d := Step(cfg, c, OperationTimesOut(k));
            Step(cfg, d, News(c.channel, SetField(doId, 0, []))).history.dangling
  {
    hide Loading, OpLocations;
    var dg := Datagram(c.channel + 1, Newcomer(doId, at));
    var settled := Settle(c, k);
    HolderLoads(cfg, settled, at, j);
    var replayed := Redeliver(cfg, settled, dg);
    assert replayed.objs == c.objs && k !in replayed.ints.ops;
    ReplayOne(cfg, settled, dg);
  }

  lemma ReplayOne(cfg: Config, c: Client, dg: Datagram)
    ensures Replay(cfg, c, [dg]) == Redeliver(cfg, c, dg)
  {
    hide Redeliver;
    assert [dg][1..] == [];
  }

  /** Whatever the configuration, the cluster can drive an agent into looking up an operation
      that is gone, by loading a location twice. */
  lemma OverlapsCanDangle(cfg: Config, channel: nat) returns (events: seq<Event>)
    requires ValidConfig(cfg)
    ensures Run(cfg, channel, events).history.dangling
  {
    hide Run, Step, ValidConfig, LoadsTwice;
    var parent := NotAll(cfg.uberdogs.Keys);
    var open, close := News(channel, AddInterestMsg(Visit(parent))), News(channel, RemoveInterestMsg(1));
    var first := [open, close, open];
    ReopeningLoadsTwice(cfg, channel, parent);
    var more := LoadingTwiceDangles(cfg, Run(cfg, channel, first), parent);
    RunOn(cfg, channel, first, more[0]);
    RunOn(cfg, channel, first + [more[0]], more[1]);
    RunOn(cfg, channel, first + [more[0]] + [more[1]], more[2]);
    events := first + [more[0]] + [more[1]] + [more[2]];
  }

  lemma LoadingTwiceDangles(cfg: Config, c: Client, parent: DoId) returns (events: seq<Event>)
    requires ValidConfig(cfg) && LoadsTwice(c, parent)
    ensures |events| == 3
    ensures Step(cfg, Step(cfg, Step(cfg, c, events[0]), events[1]), events[2]).history.dangling
  {
    hide Step;
    var at := Location(parent, 5);
    assert at in OpLocations(c.ints.ops[1]) && at in OpLocations(c.ints.ops[4]);
    HolderLoads(cfg, c, at, 1);
    var k := Holder(cfg, c, at).value;
    events := OverlapDangles(cfg, c, at, k, 5 - k);
  }
}
