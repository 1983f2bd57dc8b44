/** The location channels a client is subscribed to: exactly those of the parent and zone
    pairs that some open interest covers. */
module InterestSubscriptions {
  import opened ParentingRule
  import opened Common
  import opened InterestModel

  ghost predicate Named(open: map<nat, Interest>) {
    forall id :: id in open ==> open[id].id == id
  }

  ghost predicate Exact(open: map<nat, Interest>, subscribed: set<Location>) {
    forall at :: at in subscribed <==> Covered(open, at)
  }

  /** The invariant of every run. */
  ghost predicate Subscribed(c: Client) {
    c.connected ==> Named(c.ints.open) && Exact(c.ints.open, c.ints.subscribed)
  }

  /** Neither interests nor subscriptions change, unless the connection ends. */
  ghost predicate Idle(c: Client, d: Client) {
    d.connected ==> c.connected && d.ints.open == c.ints.open && d.ints.subscribed == c.ints.subscribed
  }

  lemma CoversLocations(i: Interest, zones: set<nat>, at: Location)
    ensures at in Locations(i.parent, zones) <==> at.parent == i.parent && at.zone in zones
  {
    assert at == Location(at.parent, at.zone);
  }

  /* ---- Opening and closing interests ---- */

  /** Replacing an interest: what only it covered is closed, what nothing covered is opened. */
  lemma ReplaceExact(open: map<nat, Interest>, subscribed: set<Location>, i: Interest)
    requires Exact(open, subscribed) && i.id in open
    ensures Exact(open[i.id := i], subscribed - Locations(open[i.id].parent, KilledZones(open, i))
                                   + Locations(i.parent, NewZones(open, i)))
  {
    var prev := open[i.id];
    var killed := KilledZones(open, i);
    var new' := open[i.id := i];
    forall at: Location
      ensures at in subscribed - Locations(prev.parent, killed) + Locations(i.parent, NewZones(open, i)) <==> Covered(new', at)
    {
      CoversLocations(prev, killed, at);
      CoversLocations(i, NewZones(open, i), at);
      assert at == Location(at.parent, at.zone);
      CoveredAfter(open, i, at);
    }
  }

  lemma CoveredAfter(open: map<nat, Interest>, i: Interest, at: Location)
    ensures Covered(open[i.id := i], at) <==> Covers(i, at) || CoveredByOther(open, at, i.id)
    ensures Covered(open, at) <==> (i.id in open && Covers(open[i.id], at)) || CoveredByOther(open, at, i.id)
  {
    var after := open[i.id := i];
    if Covers(i, at) { assert i.id in after && Covers(after[i.id], at); }
    if CoveredByOther(open, at, i.id) {
      var k :| k in open && k != i.id && Covers(open[k], at);
      assert k in after && Covers(after[k], at);
    }
  }

  lemma AddExact(open: map<nat, Interest>, subscribed: set<Location>, i: Interest)
    requires Exact(open, subscribed) && i.id !in open
    ensures Exact(open[i.id := i], subscribed + Locations(i.parent, NewZones(open, i)))
  {
    forall at: Location
      ensures at in subscribed + Locations(i.parent, NewZones(open, i)) <==> Covered(open[i.id := i], at)
    {
      CoversLocations(i, NewZones(open, i), at);
      assert at == Location(at.parent, at.zone);
      CoveredAfter(open, i, at);
    }
  }

  lemma RemoveExact(open: map<nat, Interest>, subscribed: set<Location>, id: nat)
    requires Exact(open, subscribed) && id in open
    ensures Exact(open - {id}, subscribed - Locations(open[id].parent, SoleZones(open, id)))
  {
    var i := open[id];
    forall at: Location
      ensures at in subscribed - Locations(i.parent, SoleZones(open, id)) <==> Covered(open - {id}, at)
    {
      CoversLocations(i, SoleZones(open, id), at);
      assert at == Location(at.parent, at.zone);
      if Covered(open - {id}, at) {
        var k :| k in open - {id} && Covers((open - {id})[k], at);
        assert k in open && k != id && Covers(open[k], at);
      }
      if CoveredByOther(open, at, id) {
        var k :| k in open && k != id && Covers(open[k], at);
        assert k in open - {id} && Covers((open - {id})[k], at);
      }
      if Covered(open, at) && !CoveredByOther(open, at, id) {
        var k :| k in open && Covers(open[k], at);
        assert k == id;
      }
    }
  }

  /** What AddInterest does to the interests and subscriptions of a client that stays connected. */
  lemma AddInterestEffect(cfg: Config, c: Client, given: Interest, ctx: nat, caller: nat)
    ensures var d := AddInterest(cfg, c, given, ctx, caller);
            var i := Extend(cfg, c, given);
            d.connected ==>
              && c.connected
              && d.ints.open == c.ints.open[i.id := i]
              && d.ints.subscribed ==
                 (if i.id in c.ints.open
                  then c.ints.subscribed - Locations(c.ints.open[i.id].parent, KilledZones(c.ints.open, i))
                  else c.ints.subscribed) + Locations(i.parent, NewZones(c.ints.open, i))
  {
    var i := Extend(cfg, c, given);
    var closed := CloseReplaced(cfg, c, i);
    hide Extend, KilledZones, NewZones, Victims, ClosesSession;
    assert NewZones(c.ints.open, i) == {} ==> Locations(i.parent, NewZones(c.ints.open, i)) == {};
    assert ReplacingClosesSession(c, i) ==> !closed.connected;
    if !ReplacingClosesSession(c, i) {
      LoadEffect(Record(closed, i), i, NewZones(c.ints.open, i), ctx, caller);
    }
  }

  lemma LoadEffect(c: Client, i: Interest, zones: set<nat>, ctx: nat, caller: nat)
    ensures var d := Load(c, i, zones, ctx, caller);
            d.connected == c.connected && d.ints.open == c.ints.open
            && d.ints.subscribed == c.ints.subscribed + Locations(i.parent, zones)
  {
    if zones == {} { assert Locations(i.parent, zones) == {}; }
  }

  lemma AddInterestSubscribes(cfg: Config, c: Client, given: Interest, ctx: nat, caller: nat)
    requires Subscribed(c)
    ensures Subscribed(AddInterest(cfg, c, given, ctx, caller))
  {
    var i := Extend(cfg, c, given);
    hide AddInterest, Extend, Exact, KilledZones, NewZones;
    AddInterestEffect(cfg, c, given, ctx, caller);
    if AddInterest(cfg, c, given, ctx, caller).connected {
      if i.id in c.ints.open {
        ReplaceExact(c.ints.open, c.ints.subscribed, i);
      } else {
        AddExact(c.ints.open, c.ints.subscribed, i);
      }
    }
  }

  lemma RemoveInterestEffect(cfg: Config, c: Client, id: nat, ctx: nat, caller: nat)
    requires id in c.ints.open
    ensures var d := RemoveInterest(cfg, c, id, ctx, caller);
            d.connected ==>
              && c.connected
              && d.ints.open == c.ints.open - {id}
              && d.ints.subscribed == c.ints.subscribed - Locations(c.ints.open[id].parent, SoleZones(c.ints.open, id))
  {
    hide SoleZones, Victims, ClosesSession;
  }

  lemma RemoveInterestSubscribes(cfg: Config, c: Client, id: nat, ctx: nat, caller: nat)
    requires Subscribed(c) && id in c.ints.open
    ensures Subscribed(RemoveInterest(cfg, c, id, ctx, caller))
  {
    hide RemoveInterest, Exact, SoleZones;
    RemoveInterestEffect(cfg, c, id, ctx, caller);
    if RemoveInterest(cfg, c, id, ctx, caller).connected {
      RemoveExact(c.ints.open, c.ints.subscribed, id);
    }
  }

  /* ---- Parenting rules ---- */

  lemma ApplyRuleSubscribes(cfg: Config, c: Client, parent: DoId, rule: Rule)
    requires Subscribed(c)
    ensures Subscribed(ApplyRule(cfg, c, parent, rule))
  {
    hide AddInterest, Allocate, RuleZones;
    if Tracks(rule) {
      var (id, next) := Allocate(c.ints.open, c.avatar.nextId, INTERNAL_IDS);
      var d := c.(avatar := c.avatar.(nextId := next, rule := Some(AvatarRule(parent, rule, id))));
      AddInterestSubscribes(cfg, d, Interest(id, parent, RuleZones(rule, c.avatar.at.zone), true), 0, 0);
    }
  }

  lemma UpdateRuleSubscribes(cfg: Config, c: Client)
    requires Subscribed(c)
    ensures Subscribed(UpdateRule(cfg, c))
  {
    hide AddInterest, RuleZones;
    if c.avatar.rule.Some? {
      var r := c.avatar.rule.value;
      var zones := RuleZones(r.rule, c.avatar.at.zone);
      if r.interestId in c.ints.open {
        AddInterestSubscribes(cfg, c, c.ints.open[r.interestId].(zones := zones, internal := true), 0, 0);
      } else {
        AddInterestSubscribes(cfg, c, Interest(r.interestId, r.parent, zones, true), 0, 0);
      }
    }
  }

  lemma ClearRuleSubscribes(cfg: Config, c: Client)
    requires Subscribed(c)
    ensures Subscribed(ClearRule(cfg, c))
  {
    hide RemoveInterest;
    if c.avatar.rule.Some? && c.avatar.rule.value.interestId in c.ints.open {
      RemoveInterestSubscribes(cfg, c, c.avatar.rule.value.interestId, 0, 0);
    }
  }

  lemma MoveAvatarSubscribes(cfg: Config, c: Client, to: Location)
    requires Subscribed(c)
    ensures Subscribed(MoveAvatar(cfg, c, to))
  {
    hide ClearRule, UpdateRule;
    var moved := c.(avatar := c.avatar.(at := to));
    ClearRuleSubscribes(cfg, moved);
    UpdateRuleSubscribes(cfg, moved);
  }

  /** When the avatar moves within its parent, the subscriptions change by exactly the
      difference of the two windows that no other interest holds. */
  lemma WindowFollowsAvatar(cfg: Config, c: Client)
    requires Subscribed(c) && c.connected
    requires c.avatar.rule.Some? && Tracks(c.avatar.rule.value.rule) && c.avatar.rule.value.interestId in c.ints.open
    ensures var r := c.avatar.rule.value;
            var i := c.ints.open[r.interestId];
            var zones := RuleZones(r.rule, c.avatar.at.zone);
            var d := UpdateRule(cfg, c);
            d.connected ==>
              && d.ints.open == c.ints.open[r.interestId := i.(zones := zones, internal := true)]
              && d.ints.subscribed - c.ints.subscribed
                 == (set at | at in Locations(i.parent, zones - i.zones) && !CoveredByOther(c.ints.open, at, r.interestId))
              && c.ints.subscribed - d.ints.subscribed
                 == (set at | at in Locations(i.parent, i.zones - zones) && !CoveredByOther(c.ints.open, at, r.interestId))
  {
    var r := c.avatar.rule.value;
    var i := c.ints.open[r.interestId];
    var zones := RuleZones(r.rule, c.avatar.at.zone);
    var j := i.(zones := zones, internal := true);
    hide AddInterest, RuleZones;
    AddInterestEffect(cfg, c, j, 0, 0);
    AddInterestSubscribes(cfg, c, j, 0, 0);
    forall at: Location
      ensures Covered(c.ints.open[j.id := j], at) <==> Covers(j, at) || CoveredByOther(c.ints.open, at, j.id)
      ensures Covered(c.ints.open, at) <==> Covers(i, at) || CoveredByOther(c.ints.open, at, j.id)
      ensures at in Locations(i.parent, zones - i.zones) <==> Covers(j, at) && !Covers(i, at)
      ensures at in Locations(i.parent, i.zones - zones) <==> Covers(i, at) && !Covers(j, at)
    {
      CoveredAfter(c.ints.open, j, at);
      CoversLocations(i, zones - i.zones, at);
      CoversLocations(i, i.zones - zones, at);
    }
  }

  /* ---- Everything else ---- */

  lemma IdleSubscribes(c: Client, d: Client)
    requires Subscribed(c) && Idle(c, d)
    ensures Subscribed(d)
  {}

  lemma ChangeLocationSubscribes(cfg: Config, c: Client, doId: DoId, to: Location)
    requires Subscribed(c)
    ensures Subscribed(ChangeLocation(cfg, c, doId, to))
  {
    hide MoveAvatar;
    MoveAvatarSubscribes(cfg, c, to);
  }

  lemma OnMoveSubscribes(cfg: Config, c: Client, doId: DoId, to: Location)
    requires Subscribed(c)
    ensures Subscribed(OnMove(cfg, c, doId, to))
  {
    hide ChangeLocation;
    var d := c.(objs := c.objs.(visible := Relocate(c.objs.visible, doId, to), owned := Relocate(c.objs.owned, doId, to)));
    ChangeLocationSubscribes(cfg, d, doId, to);
  }

  lemma OnQueueableSubscribes(cfg: Config, c: Client, dg: Datagram)
    requires Subscribed(c) && Queueable(dg.msg)
    ensures Subscribed(OnQueueable(cfg, c, dg))
  {
    hide OnMove, Lookup, Loading;
    if dg.msg.ChangingLocation? { OnMoveSubscribes(cfg, c, dg.msg.doId, dg.msg.to); }
    else { QuietlyQueued(cfg, c, dg); }
  }

  lemma QuietlyQueued(cfg: Config, c: Client, dg: Datagram)
    requires Queueable(dg.msg) && !dg.msg.ChangingLocation?
    ensures Idle(c, OnQueueable(cfg, c, dg))
  {
    hide Lookup, Loading;
  }

  lemma {:induction false} EnterAllIdle(c: Client, es: seq<Entrance>)
    ensures Idle(c, EnterAll(c, es))
    decreases |es|
  {
    if es != [] { EnterAllIdle(Enter(c, es[0]), es[1..]); }
  }

  lemma {:induction false} ReplaySubscribes(cfg: Config, c: Client, queue: seq<Datagram>)
    requires Subscribed(c)
    ensures Subscribed(Replay(cfg, c, queue))
    decreases |queue|
  {
    hide OnQueueable, Subscribed;
    if queue != [] {
      if Queueable(queue[0].msg) { OnQueueableSubscribes(cfg, c, queue[0]); }
      ReplaySubscribes(cfg, Redeliver(cfg, c, queue[0]), queue[1..]);
    }
  }

  lemma FinishSubscribes(cfg: Config, c: Client, ctx: nat)
    requires Subscribed(c) && ctx in c.ints.ops
    ensures Subscribed(Finish(cfg, c, ctx))
  {
    hide EnterAll, Replay;
    EnterAllIdle(c, c.ints.ops[ctx].generates);
    ReplaySubscribes(cfg, Settle(c, ctx), c.ints.ops[ctx].queue);
  }

  lemma OnAddInterestSubscribes(cfg: Config, c: Client, i: Interest, caller: nat)
    requires Subscribed(c)
    ensures Subscribed(OnAddInterest(cfg, c, i, caller))
  {
    hide AddInterest;
    var next := Send(c.(nextContext := c.nextContext + 1), InterestAdded(c.nextContext, i));
    AddInterestSubscribes(cfg, next, i.(internal := false), c.nextContext, caller);
  }

  lemma OnRemoveInterestSubscribes(cfg: Config, c: Client, id: nat, caller: nat)
    requires Subscribed(c)
    ensures Subscribed(OnRemoveInterest(cfg, c, id, caller))
  {
    hide RemoveInterest;
    var next := Send(c.(nextContext := c.nextContext + 1), InterestRemoved(c.nextContext, id));
    if id in c.ints.open { RemoveInterestSubscribes(cfg, next, id, c.nextContext, caller); }
  }

  lemma OnClassRespSubscribes(cfg: Config, c: Client, ctx: nat, doId: DoId, dcId: nat)
    requires Subscribed(c)
    ensures Subscribed(OnClassResp(cfg, c, ctx, doId, dcId))
  {
    hide ApplyRule;
    if ctx in c.avatar.lookups && dcId in cfg.rules {
      var d := c.(avatar := c.avatar.(lookups := c.avatar.lookups - {ctx}));
      ApplyRuleSubscribes(cfg, d, c.avatar.lookups[ctx], cfg.rules[dcId]);
    }
  }

  lemma OnEnterInterestSubscribes(cfg: Config, c: Client, ctx: nat, e: Entrance)
    requires Subscribed(c)
    ensures Subscribed(OnEnterInterest(cfg, c, ctx, e))
  {
    hide Finish;
    if ctx in c.ints.ops {
      var op := c.ints.ops[ctx];
      var d := c.(objs := c.objs.(pending := c.objs.pending[e.doId := ctx]));
      FinishSubscribes(cfg, SetOp(d, ctx, op.(generates := op.generates + [e])), ctx);
    }
  }

  lemma OnZonesCountSubscribes(cfg: Config, c: Client, ctx: nat, count: nat)
    requires Subscribed(c)
    ensures Subscribed(OnZonesCount(cfg, c, ctx, count))
  {
    hide Finish;
    if ctx in c.ints.ops {
      var op := c.ints.ops[ctx];
      FinishSubscribes(cfg, SetOp(c, ctx, op.(total := if op.total.None? then Some(count) else op.total)), ctx);
    }
  }

  lemma DispatchSubscribes(cfg: Config, c: Client, dg: Datagram)
    requires Subscribed(c) && !Queueable(dg.msg) && !Declares(dg.msg)
    ensures Subscribed(Dispatch(cfg, c, dg))
  {
    hide Subscribed, OnAddInterest, OnRemoveInterest, OnEnterInterest, OnZonesCount, OnClassResp;
    match dg.msg
    case AddInterestMsg(i) => OnAddInterestSubscribes(cfg, c, i, dg.sender);
    case RemoveInterestMsg(id) => OnRemoveInterestSubscribes(cfg, c, id, dg.sender);
    case EnterInterest(ctx, e) => OnEnterInterestSubscribes(cfg, c, ctx, e);
    case ZonesCount(ctx, count) => OnZonesCountSubscribes(cfg, c, ctx, count);
    case ClassResp(ctx, doId, dcId) => OnClassRespSubscribes(cfg, c, ctx, doId, dcId);
    case Eject => IdleSubscribes(c, Disconnect(c));
    case Drop => IdleSubscribes(c, Shutdown(c));
    case EnterOwner(e) => IdleSubscribes(c, OnEnterOwner(cfg, c, e));
    case ChangingOwner(doId, newOwner) => IdleSubscribes(c, OnChangingOwner(c, doId, newOwner));
  }

  lemma StepSubscribes(cfg: Config, c: Client, ev: Event)
    requires Subscribed(c)
    ensures Subscribed(Step(cfg, c, ev))
  {
    hide Dispatch, OnQueueable, AddInterest, RemoveInterest, Finish;
    match ev
    case FromCluster(dg) =>
      if Queueable(dg.msg) { OnQueueableSubscribes(cfg, c, dg); }
      else if !Declares(dg.msg) { DispatchSubscribes(cfg, c, dg); }
    case ClientAdds(ctx, i) => AddInterestSubscribes(cfg, c, i.(internal := false), ctx, 0);
    case ClientRemoves(ctx, id) => if id in c.ints.open { RemoveInterestSubscribes(cfg, c, id, ctx, 0); }
    case OperationTimesOut(ctx) => if ctx in c.ints.ops { FinishSubscribes(cfg, c, ctx); }
    case _ =>
  }

  /** In every run, a connected client is subscribed to a location exactly when one of
      its open interests covers it. */
  lemma {:induction false} SubscribedToInterests(cfg: Config, channel: nat, events: seq<Event>)
    ensures Subscribed(Run(cfg, channel, events))
    decreases |events|
  {
    if events != [] {
      SubscribedToInterests(cfg, channel, events[..|events| - 1]);
      StepSubscribes(cfg, Run(cfg, channel, events[..|events| - 1]), events[|events| - 1]);
    }
  }
}
