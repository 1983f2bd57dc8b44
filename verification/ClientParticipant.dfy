/** One client of the client agent, updated in place. Every method is proved to do what the
    function of InterestModel it is named after does to the state. */
module ClientParticipant {
  import opened ParentingRule
  import opened Common
  import opened InterestModel
  import M = InterestModel
  import InterestMirror
  import InterestOperations
  import InterestSubscriptions

  class InterestOperation {
    const interestId: nat
    const clientContext: nat
    const parent: DoId
    const zones: set<nat>
    const caller: nat
    var hasTotal: bool
    var total: nat
    var pendingGenerates: seq<Entrance>
    var pendingDatagrams: seq<Datagram>

    ghost function State(): Operation
      reads this
    {
      Operation(interestId, clientContext, parent, zones, caller,
                if hasTotal then Some(total) else None, pendingGenerates, pendingDatagrams)
    }

    constructor (interestId: nat, clientContext: nat, parent: DoId, zones: set<nat>, caller: nat)
      ensures State() == Operation(interestId, clientContext, parent, zones, caller, None, [], [])
    {
      this.interestId, this.clientContext, this.parent, this.zones, this.caller :=
        interestId, clientContext, parent, zones, caller;
      hasTotal, total, pendingGenerates, pendingDatagrams := false, 0, [], [];
    }

    method SetExpected(count: nat)
      modifies this
      ensures State() == old(State()).(total := if old(State()).total.None? then Some(count) else old(State()).total)
    {
      if !hasTotal { hasTotal, total := true, count; }
    }

    method QueueExpected(e: Entrance)
      modifies this
      ensures State() == old(State()).(generates := old(State()).generates + [e])
    {
      pendingGenerates := pendingGenerates + [e];
    }

    method QueueDatagram(dg: Datagram)
      modifies this
      ensures State() == old(State()).(queue := old(State()).queue + [dg])
    {
      pendingDatagrams := pendingDatagrams + [dg];
    }

    predicate IsReady()
      reads this
      ensures IsReady() <==> M.IsReady(State())
    {
      hasTotal && |pendingGenerates| >= total
    }
  }

  predicate Parsed(rule: Rule) {
    rule.Cartesian? ==> AcceptsGrid(rule.start, rule.size, rule.radius)
  }

  /** Shutdown(), part by part. */
  lemma ShutdownIs(c: Client, d: Client)
    requires if !c.connected then d == c
             else && d.objs == c.objs.(session := {}) && d.ints == c.ints.(ops := map[], subscribed := {})
                  && d.avatar == c.avatar.(rule := None, lookups := map[])
                  && d.history == c.history.(finished := c.history.finished + multiset(c.ints.ops.Keys))
                  && d.published == c.published + [AnswerAll(c.ints.ops), DeleteSessionObjects(c.objs.session)]
                  && d == c.(connected := false, objs := d.objs, ints := d.ints, avatar := d.avatar,
                             history := d.history, published := d.published)
    ensures d == M.Shutdown(c)
  {
  }

  class ClientParticipant {
    const cfg: Config
    var connected: bool
    const channel: nat
    var nextContext: nat
    var seenObjects: set<DoId>
    var visibleObjects: map<DoId, Object>
    var ownedObjects: map<DoId, Object>
    var sessionObjects: set<DoId>
    var declaredObjects: map<DoId, nat>
    var pendingObjects: map<DoId, nat>
    var interests: map<nat, Interest>
    var pendingInterests: map<nat, InterestOperation>
    var subscribed: set<Location>
    var avatarDoId: DoId
    var avatarAt: Location
    var avatarParentRule: Option<AvatarRule>
    var pendingParentClassLookups: map<nat, DoId>
    var nextInternalInterestId: nat
    var sent: seq<ToClient>
    var published: seq<ToCluster>
    ghost var history: History

    /** No two contexts share an operation, and a rule that was recorded came from the parser. */
    ghost predicate Valid()
      reads this
    {
      && ValidConfig(cfg)
      && 0xF000 <= nextInternalInterestId < 0x1_0000
      && (avatarParentRule.Some? ==> Parsed(avatarParentRule.value.rule))
      && forall j, k :: j in pendingInterests && k in pendingInterests && j != k ==> pendingInterests[j] != pendingInterests[k]
    }

    ghost function Objs(): Objects
      reads this
    {
      Objects(seenObjects, visibleObjects, ownedObjects, sessionObjects, declaredObjects, pendingObjects)
    }

    /** Operations that were not there before are new. */
    twostate predicate OnlyFresh()
      reads this, pendingInterests.Values
    {
      fresh(pendingInterests.Values - old(pendingInterests.Values))
    }

    ghost function Ops(): map<nat, Operation>
      reads this, pendingInterests.Values
    {
      map k | k in pendingInterests :: pendingInterests[k].State()
    }

    ghost function Model(): Client
      reads this, pendingInterests.Values
    {
      Client(connected, channel, nextContext, Objs(), Interests(interests, Ops(), subscribed),
             Avatar(avatarDoId, avatarAt, avatarParentRule, pendingParentClassLookups, nextInternalInterestId),
             sent, published, history)
    }

    constructor (cfg: Config, channel: nat)
      requires ValidConfig(cfg)
      ensures Valid() && Model() == Initial(channel) && this.cfg == cfg && pendingInterests == map[]
    {
      this.cfg, connected, this.channel, nextContext := cfg, true, channel, 0;
      seenObjects, visibleObjects, ownedObjects, sessionObjects := {}, map[], map[], {};
      declaredObjects, pendingObjects := map[], map[];
      interests, pendingInterests, subscribed := map[], map[], {};
      avatarDoId, avatarAt, avatarParentRule := INVALID, Location(INVALID, INVALID), None;
      pendingParentClassLookups, nextInternalInterestId := map[], 0xF000;
      sent, published, history := [], [], History({}, multiset{}, {}, false, false);
    }

    /* ---- Output ---- */

    method SendDatagram(m: ToClient)
      requires Valid()
      modifies this`sent
      ensures Valid() && Model() == M.Send(old(Model()), m)
    {
      if connected { sent := sent + [m]; }
    }

    method PublishDatagram(m: ToCluster)
      requires Valid()
      modifies this`published
      ensures Valid() && Model() == M.Publish(old(Model()), m)
    {
      published := published + [m];
    }

    /** NotifyInterestDone() for every pending operation. */
    method Answers() returns (answers: ToCluster)
      ensures answers == AnswerAll(Ops())
    {
      var resps := map k | k in pendingInterests :: DoneInterestResp(pendingInterests[k].caller, pendingInterests[k].interestId);
      assert resps == AnswerAll(Ops()).resps;
      answers := AllDone(resps);
    }

    /** The tear-down itself. Every pending operation is finished: whoever asked for it is
        told, and the client, with the connection gone, is not. */
    method TearDown(answers: ToCluster)
      modifies `connected, `avatarParentRule, `pendingParentClassLookups, `pendingInterests, `history, `published,
               `sessionObjects, `subscribed
      ensures !connected && avatarParentRule == None && pendingParentClassLookups == map[] && pendingInterests == map[]
      ensures history == old(history).(finished := old(history).finished + multiset(old(pendingInterests).Keys))
      ensures published == old(published) + [answers, DeleteSessionObjects(old(sessionObjects))]
      ensures sessionObjects == {} && subscribed == {}
    {
      connected, avatarParentRule, pendingParentClassLookups := false, None, map[];
      history := history.(finished := history.finished + multiset(pendingInterests.Keys));
      pendingInterests := map[];
      published := published + [answers, DeleteSessionObjects(sessionObjects)];
      sessionObjects, subscribed := {}, {};
    }

    method Shutdown()
      requires Valid()
      modifies this
      ensures Valid() && Model() == M.Shutdown(old(Model()))
      ensures pendingInterests.Values <= old(pendingInterests.Values)
    {
      hide M.Shutdown, AnswerAll, ValidConfig, Parsed;
      ghost var c := Model();
      if connected {
        var answers := Answers();
        TearDown(answers);
        assert c.ints.ops.Keys == old(pendingInterests).Keys && Ops() == map[];
        ShutdownIs(c, Model());
      } else {
        ShutdownIs(c, c);
      }
    }

    method SendDisconnect()
      requires Valid()
      modifies this
      ensures Valid() && Model() == M.Disconnect(old(Model()))
      ensures pendingInterests.Values <= old(pendingInterests.Values)
    {
      if !connected { return; }
      SendDatagram(Ejected);
      Shutdown();
    }

    /* ---- Lookups ---- */

    method LookupObject(doId: DoId) returns (cls: Option<nat>)
      ensures cls == M.Lookup(cfg, Objs(), doId)
    {
      if doId in cfg.uberdogs { return Some(cfg.uberdogs[doId]); }
      if doId in ownedObjects { return ClassOf(cfg, ownedObjects[doId].dcId); }
      if doId in seenObjects && doId in visibleObjects { return ClassOf(cfg, visibleObjects[doId].dcId); }
      if doId in declaredObjects { return ClassOf(cfg, declaredObjects[doId]); }
      return None;
    }

    /** The interests that can see a zone, in iteration order: one entry for each. */
    method LookupInterests(parent: DoId, zone: nat) returns (found: seq<nat>)
      requires Valid()
      ensures forall id :: id in found <==> id in interests && Covers(interests[id], Location(parent, zone))
      ensures forall i, j :: 0 <= i < j < |found| ==> found[i] != found[j]
    {
      var order := cfg.order(|sent|, interests.Keys);
      assert Enumerates(order, interests.Keys);
      found := [];
      for i := 0 to |order|
        invariant forall id :: id in found <==> id in order[..i] && Covers(interests[id], Location(parent, zone))
        invariant forall j, k :: 0 <= j < k < |found| ==> found[j] != found[k]
      {
        if interests[order[i]].parent == parent && zone in interests[order[i]].zones {
          found := found + [order[i]];
        }
      }
    }

    /** Nobody else sees the zone iff the lookup finds one interest. */
    method IsSeenByOther(id: nat, zone: nat) returns (other: bool)
      requires Valid() && id in interests && zone in interests[id].zones
      ensures other <==> CoveredByOther(interests, Location(interests[id].parent, zone), id)
    {
      var found := LookupInterests(interests[id].parent, zone);
      other := |found| > 1;
      assert id in found;
      if other {
        var k := if found[0] == id then found[1] else found[0];
        assert k in found && k != id;
      } else if k :| k in found && k != id {
        assert false;
      }
    }

    method NewZones(i: Interest) returns (zones: set<nat>)
      requires Valid()
      ensures zones == M.NewZones(interests, i)
    {
      zones := {};
      var left := i.zones;
      while left != {}
        invariant left <= i.zones
        invariant zones == set z | z in i.zones - left && !Covered(interests, Location(i.parent, z))
        decreases |left|
      {
        var zone :| zone in left;
        var found := LookupInterests(i.parent, zone);
        if found == [] { zones := zones + {zone}; }
        else { assert found[0] in found; }
        left := left - {zone};
      }
    }

    method KilledZones(i: Interest) returns (zones: set<nat>)
      requires Valid() && i.id in interests
      ensures zones == M.KilledZones(interests, i)
    {
      zones := {};
      var prev := interests[i.id];
      var left := prev.zones;
      while left != {}
        invariant left <= prev.zones
        invariant zones == set z | z in prev.zones - left && !CoveredByOther(interests, Location(prev.parent, z), i.id)
                                   && (i.parent != prev.parent || z !in i.zones)
        decreases |left|
      {
        var zone :| zone in left;
        var other := IsSeenByOther(i.id, zone);
        if !other && (i.parent != prev.parent || zone !in i.zones) { zones := zones + {zone}; }
        left := left - {zone};
      }
    }

    method SoleZones(id: nat) returns (zones: set<nat>)
      requires Valid() && id in interests
      ensures zones == M.SoleZones(interests, id)
    {
      zones := {};
      var left := interests[id].zones;
      while left != {}
        invariant left <= interests[id].zones
        invariant zones == set z | z in interests[id].zones - left
                                   && !CoveredByOther(interests, Location(interests[id].parent, z), id)
        decreases |left|
      {
        var zone :| zone in left;
        var other := IsSeenByOther(id, zone);
        if !other { zones := zones + {zone}; }
        left := left - {zone};
      }
    }

    /* ---- Closing zones ---- */

    /** Tells the client that the visible objects in the zones leave, one by one, until a
        session object turns up. */
    method TellLeaving(parent: DoId, killed: set<nat>) returns (ok: bool, toRemove: seq<DoId>)
      requires ValidConfig(cfg)
      modifies `sent, `seenObjects
      ensures toRemove == Victims(old(Objs()), parent, killed, cfg.order(|old(sent)|, visibleObjects.Keys))
      ensures sent == if connected then old(sent) + Leavings(toRemove) else old(sent)
      ensures seenObjects == old(seenObjects) - ToSet(toRemove)
      ensures ok <==> !ClosesSession(old(Objs()), parent, killed)
    {
      hide Victims, Leavings;
      ghost var o := Objs();
      var order := cfg.order(|sent|, visibleObjects.Keys);
      assert Enumerates(order, visibleObjects.Keys);
      toRemove := [];
      NoLeavings();
      for i := 0 to |order|
        invariant Victims(o, parent, killed, order[0..]) == toRemove + Victims(o, parent, killed, order[i..])
        invariant sent == if connected then old(sent) + Leavings(toRemove) else old(sent)
        invariant seenObjects == old(seenObjects) - ToSet(toRemove)
        invariant forall j :: 0 <= j < i ==> !(Doomed(o, parent, killed, order[j]) && order[j] in sessionObjects)
      {
        var doId := order[i];
        VictimsNext(o, parent, killed, order, i);
        if visibleObjects[doId].at.parent == parent && visibleObjects[doId].at.zone in killed {
          if doId in sessionObjects {
            assert order[0..] == order;
            return false, toRemove;
          }
          LeavingsSnoc(toRemove, doId);
          RemoveSeen(doId);
          toRemove := toRemove + [doId];
        }
      }
      NoVictims(o, parent, killed);
      assert order[|order|..] == [] && order[0..] == order;
      ok := true;
    }

    method RemoveSeen(doId: DoId)
      modifies `sent, `seenObjects
      ensures sent == if connected then old(sent) + [Leaving(doId)] else old(sent)
      ensures seenObjects == old(seenObjects) - {doId}
    {
      if connected { sent := sent + [Leaving(doId)]; }
      seenObjects := seenObjects - {doId};
    }

    /** Up to the point where the zones are dropped, or the client is. */
    method TellClosing(parent: DoId, killed: set<nat>) returns (ok: bool, gone: set<DoId>)
      requires Valid()
      modifies `sent, `seenObjects
      ensures Valid()
      ensures var c := old(Model());
              var victims := Victims(c.objs, parent, killed, cfg.order(|c.sent|, c.objs.visible.Keys));
              && gone == ToSet(victims)
              && Model() == c.(sent := if c.connected then c.sent + Leavings(victims) else c.sent,
                               objs := c.objs.(seen := c.objs.seen - gone))
      ensures ok <==> !ClosesSession(old(Objs()), parent, killed)
    {
      hide Victims, ClosesSession, Leavings, ToSet;
      var toRemove;
      ok, toRemove := TellLeaving(parent, killed);
      gone := ToSet(toRemove);
    }

    method CloseZones(parent: DoId, killed: set<nat>) returns (ok: bool)
      requires Valid()
      modifies this
      ensures Valid() && Model() == M.CloseZones(cfg, old(Model()), parent, killed)
      ensures ok <==> !ClosesSession(old(Objs()), parent, killed)
      ensures OnlyFresh()
    {
      hide M.Disconnect, Victims, ClosesSession, Leavings, ToSet, Locations;
      var gone;
      ok, gone := TellClosing(parent, killed);
      if !ok {
        SendDisconnect();
      } else {
        DropZones(gone, Locations(parent, killed));
      }
    }

    method DropZones(gone: set<DoId>, closed: set<Location>)
      requires Valid()
      modifies `visibleObjects, `subscribed
      ensures Valid()
      ensures var c := old(Model());
              Model() == c.(objs := c.objs.(visible := c.objs.visible - gone),
                            ints := c.ints.(subscribed := c.ints.subscribed - closed))
    {
      visibleObjects := visibleObjects - gone;
      subscribed := subscribed - closed;
    }

    /* ---- Interests ---- */

    method HandleInterestDone(id: nat, ctx: nat)
      requires Valid()
      modifies `sent
      ensures Valid() && Model() == TellDone(old(Model()), id, ctx)
    {
      if !(id in interests && interests[id].internal) { SendDatagram(InterestDone(ctx, id)); }
    }

    method NotifyInterestDone(id: nat, caller: nat)
      requires Valid()
      modifies `published
      ensures Valid() && Model() == NotifyDone(old(Model()), id, caller)
    {
      if caller != 0 { PublishDatagram(DoneInterestResp(caller, id)); }
    }

    method MaybeApplyAutoRule(i: Interest) returns (extended: Interest)
      requires Valid()
      ensures extended == Extend(cfg, Model(), i)
    {
      extended := i;
      if i.internal { return; }
      var cls := LookupObject(i.parent);
      if cls.None? || cls.value !in cfg.rules { return; }
      match cfg.rules[cls.value]
      case Auto(origin, extras) => if origin in i.zones { extended := i.(zones := i.zones + extras); }
      case _ =>
    }

    method StartOperation(i: Interest, zones: set<nat>, ctx: nat, caller: nat)
      requires Valid()
      modifies this
      ensures Valid() && Model() == OpenOperation(old(Model()), i, zones, ctx, caller)
      ensures OnlyFresh()
    {
      hide Overlaps, Locations, ValidConfig, Parsed;
      var iop := new InterestOperation(i.id, ctx, i.parent, zones, caller);
      var at := Locations(i.parent, zones);
      RecordOperation(iop, at, GetZonesObjects(nextContext, i.parent, zones), Overlaps(Model(), at));
      assert Ops() == old(Ops())[old(nextContext) := Operation(i.id, ctx, i.parent, zones, caller, None, [], [])];
    }

    method RecordOperation(iop: InterestOperation, at: set<Location>, request: ToCluster, ghost overlaps: bool)
      modifies `nextContext, `pendingInterests, `subscribed, `published, `history
      ensures nextContext == old(nextContext) + 1 && pendingInterests == old(pendingInterests)[old(nextContext) := iop]
      ensures subscribed == old(subscribed) + at && published == old(published) + [request]
      ensures history == old(history).(overlap := old(history).overlap || overlaps)
    {
      pendingInterests := pendingInterests[nextContext := iop];
      nextContext := nextContext + 1;
      subscribed := subscribed + at;
      published := published + [request];
      history := history.(overlap := history.overlap || overlaps);
    }

    method CloseReplaced(i: Interest) returns (ok: bool)
      requires Valid()
      modifies this
      ensures Valid() && Model() == M.CloseReplaced(cfg, old(Model()), i)
      ensures ok <==> !ReplacingClosesSession(old(Model()), i)
      ensures OnlyFresh()
    {
      hide M.CloseZones, M.KilledZones, ClosesSession;
      ok := true;
      if i.id in interests {
        var killed := KilledZones(i);
        ok := CloseZones(interests[i.id].parent, killed);
      }
    }

    method Load(i: Interest, zones: set<nat>, ctx: nat, caller: nat)
      requires Valid()
      modifies this
      ensures Valid() && Model() == M.Load(old(Model()), i, zones, ctx, caller)
      ensures OnlyFresh()
    {
      hide OpenOperation, TellDone, NotifyDone;
      if zones == {} {
        NotifyInterestDone(i.id, caller);
        HandleInterestDone(i.id, ctx);
      } else {
        StartOperation(i, zones, ctx, caller);
      }
    }

    method RecordInterest(i: Interest)
      requires Valid()
      modifies `interests
      ensures Valid() && Model() == Record(old(Model()), i)
    {
      interests := interests[i.id := i];
    }

    method AddInterest(given: Interest, ctx: nat, caller: nat)
      requires Valid()
      modifies this
      ensures Valid() && Model() == M.AddInterest(cfg, old(Model()), given, ctx, caller)
      ensures OnlyFresh()
    {
      hide M.CloseReplaced, Extend, M.NewZones, ReplacingClosesSession, M.Load, Record;
      var i := MaybeApplyAutoRule(given);
      var zones := NewZones(i);
      var ok := CloseReplaced(i);
      if ok {
        RecordInterest(i);
        Load(i, zones, ctx, caller);
      }
    }

    method ForgetInterest(id: nat)
      requires Valid()
      modifies `interests
      ensures Valid() && Model() == old(Model()).(ints := old(Model()).ints.(open := old(Model()).ints.open - {id}))
    {
      interests := interests - {id};
    }

    method RemoveInterest(id: nat, ctx: nat, caller: nat)
      requires Valid() && id in interests
      modifies this
      ensures Valid() && Model() == M.RemoveInterest(cfg, old(Model()), id, ctx, caller)
      ensures OnlyFresh()
    {
      hide M.CloseZones, M.SoleZones, ClosesSession, TellDone, NotifyDone;
      var killed := SoleZones(id);
      var ok := CloseZones(interests[id].parent, killed);
      if !ok { return; }
      NotifyInterestDone(id, caller);
      HandleInterestDone(id, ctx);
      ForgetInterest(id);
    }

    /* ---- Parenting rules ---- */

    method RequestParentClass(parent: DoId)
      requires Valid()
      modifies `nextContext, `pendingParentClassLookups, `published
      ensures Valid() && Model() == RequestClass(old(Model()), parent)
    {
      hide ValidConfig, Parsed;
      if parent == INVALID { return; }
      var ctx := nextContext;
      nextContext := nextContext + 1;
      pendingParentClassLookups := pendingParentClassLookups[ctx := parent];
      published := published + [GetClass(ctx, parent)];
    }

    /** Walks forward from the cursor, wrapping from 0xFFFF to 0xF000, until an id is free
        or the cursor is back where it started. */
    method AllocateInternalInterestId() returns (id: nat)
      requires Valid()
      modifies `nextInternalInterestId
      ensures Valid() && (id, nextInternalInterestId) == Allocate(interests, old(nextInternalInterestId), INTERNAL_IDS)
    {
      hide ValidConfig, Parsed;
      var start := nextInternalInterestId;
      ghost var tries: nat := INTERNAL_IDS;
      while true
        invariant 0xF000 <= nextInternalInterestId < 0x1_0000 && 1 <= tries <= INTERNAL_IDS
        invariant nextInternalInterestId == Cycle(start, INTERNAL_IDS - tries)
        invariant Allocate(interests, nextInternalInterestId, tries) == Allocate(interests, start, INTERNAL_IDS)
        decreases tries
      {
        id := nextInternalInterestId;
        nextInternalInterestId := (nextInternalInterestId + 1) % 0x1_0000;
        if nextInternalInterestId == 0 { nextInternalInterestId := 0xF000; }
        if id !in interests { return id; }
        CycleEnds(start, INTERNAL_IDS - tries + 1);
        if nextInternalInterestId == start { return 0; }
        tries := tries - 1;
      }
    }

    method WantedZones(rule: Rule) returns (zones: set<nat>)
      requires Parsed(rule)
      ensures zones == RuleZones(rule, avatarAt.zone)
    {
      zones := {};
      if rule.Follow? {
        if avatarAt.zone != INVALID { zones := {avatarAt.zone}; }
      } else if rule.Cartesian? {
        zones := CartesianGridZones(rule, avatarAt.zone);
      }
    }

    method SetRule(rule: Option<AvatarRule>)
      requires Valid() && (rule.Some? ==> Parsed(rule.value.rule))
      modifies `avatarParentRule
      ensures Valid() && Model() == old(Model()).(avatar := old(Model()).avatar.(rule := rule))
    {
      avatarParentRule := rule;
    }

    method ApplyAvatarParentRule(parent: DoId, rule: Rule)
      requires Valid() && Parsed(rule)
      modifies this
      ensures Valid() && Model() == ApplyRule(cfg, old(Model()), parent, rule)
      ensures OnlyFresh()
    {
      hide M.AddInterest, Allocate, RuleZones;
      if !Tracks(rule) {
        SetRule(Some(AvatarRule(parent, rule, 0)));
        return;
      }
      var zones := WantedZones(rule);
      var id := AllocateInternalInterestId();
      SetRule(Some(AvatarRule(parent, rule, id)));
      ghost var c := old(Model());
      assert Model() == c.(avatar := c.avatar.(nextId := nextInternalInterestId, rule := Some(AvatarRule(parent, rule, id))));
      if zones != {} { AddInterest(Interest(id, parent, zones, true), 0, 0); }
    }

    method UpdateAvatarParentRule()
      requires Valid()
      modifies this
      ensures Valid() && Model() == UpdateRule(cfg, old(Model()))
      ensures OnlyFresh()
    {
      hide M.AddInterest, RuleZones;
      if avatarParentRule.None? || !Tracks(avatarParentRule.value.rule) { return; }
      var r := avatarParentRule.value;
      var zones := WantedZones(r.rule);
      if r.interestId !in interests {
        if zones != {} { AddInterest(Interest(r.interestId, r.parent, zones, true), 0, 0); }
      } else {
        AddInterest(interests[r.interestId].(zones := zones, internal := true), 0, 0);
      }
    }

    method ClearAvatarParentRule()
      requires Valid()
      modifies this
      ensures Valid() && Model() == ClearRule(cfg, old(Model()))
      ensures OnlyFresh()
    {
      hide M.RemoveInterest;
      if avatarParentRule.None? { return; }
      var id := avatarParentRule.value.interestId;
      if id in interests { RemoveInterest(id, 0, 0); }
      SetRule(None);
    }

    /* ---- Objects ---- */

    method HandleObjectEntrance(e: Entrance)
      requires Valid()
      modifies `pendingObjects, `visibleObjects, `seenObjects, `sent
      ensures Valid() && Model() == Enter(old(Model()), e)
    {
      ErasePending(e.doId);
      if e.doId !in seenObjects && !(e.doId in ownedObjects && e.doId in sessionObjects) { HandleAddObject(e); }
    }

    method ErasePending(doId: DoId)
      requires Valid()
      modifies `pendingObjects
      ensures Valid() && pendingObjects == old(pendingObjects) - {doId}
      ensures Model() == old(Model()).(objs := old(Model()).objs.(pending := old(Model()).objs.pending - {doId}))
    {
      pendingObjects := pendingObjects - {doId};
    }

    method HandleAddObject(e: Entrance)
      requires Valid()
      modifies `visibleObjects, `seenObjects, `sent
      ensures Valid()
      ensures var c := old(Model());
              var visible := if e.doId in c.objs.visible then c.objs.visible else c.objs.visible[e.doId := Object(e.dcId, e.at)];
              Model() == Send(c.(objs := c.objs.(visible := visible, seen := c.objs.seen + {e.doId})), Entered(e))
    {
      SeeObject(e);
      SendDatagram(Entered(e));
    }

    method SeeObject(e: Entrance)
      requires Valid()
      modifies `visibleObjects, `seenObjects
      ensures Valid()
      ensures var c := old(Model());
              var visible := if e.doId in c.objs.visible then c.objs.visible else c.objs.visible[e.doId := Object(e.dcId, e.at)];
              Model() == c.(objs := c.objs.(visible := visible, seen := c.objs.seen + {e.doId}))
    {
      if e.doId !in visibleObjects { visibleObjects := visibleObjects[e.doId := Object(e.dcId, e.at)]; }
      seenObjects := seenObjects + {e.doId};
    }

    method HandleRemoveOwnership(doId: DoId)
      requires Valid()
      modifies `avatarDoId, `avatarAt, `ownedObjects, `sent
      ensures Valid() && Model() == LoseOwnership(old(Model()), doId)
    {
      Disown(doId);
      SendDatagram(OwnerLeaving(doId));
    }

    method Disown(doId: DoId)
      requires Valid()
      modifies `avatarDoId, `avatarAt, `ownedObjects
      ensures Valid()
      ensures var c := old(Model());
              Model() == c.(avatar := if c.avatar.doId == doId
                                      then c.avatar.(doId := INVALID, at := Location(INVALID, INVALID)) else c.avatar,
                            objs := c.objs.(owned := c.objs.owned - {doId}))
    {
      if avatarDoId == doId { SetAvatar(INVALID, Location(INVALID, INVALID)); }
      EraseOwned(doId);
    }

    method EraseOwned(doId: DoId)
      requires Valid()
      modifies `ownedObjects
      ensures Valid()
      ensures Model() == old(Model()).(objs := old(Model()).objs.(owned := old(Model()).objs.owned - {doId}))
    {
      ownedObjects := ownedObjects - {doId};
    }

    method MoveAvatar(to: Location)
      requires Valid()
      modifies this
      ensures Valid() && Model() == M.MoveAvatar(cfg, old(Model()), to)
      ensures OnlyFresh()
    {
      hide ClearRule, UpdateRule, RequestClass;
      var oldParent := avatarAt.parent;
      avatarAt := to;
      assert Model() == old(Model()).(avatar := old(Model()).avatar.(at := to));
      if cfg.parentingRules {
        if to.parent != oldParent {
          ClearAvatarParentRule();
          RequestParentClass(to.parent);
        } else if avatarParentRule.Some? && avatarParentRule.value.parent == to.parent {
          UpdateAvatarParentRule();
        }
      }
    }

    method HandleChangeLocation(doId: DoId, to: Location)
      requires Valid()
      modifies this
      ensures Valid() && Model() == ChangeLocation(cfg, old(Model()), doId, to)
      ensures OnlyFresh()
    {
      hide M.MoveAvatar;
      if avatarDoId == doId { MoveAvatar(to); }
      SendDatagram(Moved(doId, to));
    }

    /** False when the object is not pending. A pending object's operation is looked up
        without checking that it is still there. */
    method TryQueuePending(doId: DoId, dg: Datagram) returns (queued: bool)
      requires Valid()
      modifies `history, pendingInterests.Values
      ensures Valid() && Model() == TryQueue(old(Model()), doId, dg) && queued == (doId in pendingObjects)
    {
      queued := doId in pendingObjects;
      if queued {
        if pendingObjects[doId] in pendingInterests {
          AppendTo(pendingObjects[doId], dg);
        } else {
          history := history.(dangling := true);
        }
      }
    }

    method AppendTo(ctx: nat, dg: Datagram)
      requires Valid() && ctx in pendingInterests
      modifies pendingInterests.Values
      ensures Valid() && Model() == Append(old(Model()), ctx, dg)
    {
      pendingInterests[ctx].QueueDatagram(dg);
      assert Ops() == old(Ops())[ctx := old(Ops())[ctx].(queue := old(Ops())[ctx].queue + [dg])];
    }

    method DropVisible(doId: DoId)
      requires Valid()
      modifies `seenObjects, `visibleObjects, `sent
      ensures Valid() && Model() == M.DropVisible(old(Model()), doId)
    {
      hide Send;
      EraseSeen(doId);
      EraseVisible(doId);
      SendDatagram(Leaving(doId));
    }

    method EraseSeen(doId: DoId)
      requires Valid()
      modifies `seenObjects
      ensures Valid()
      ensures Model() == old(Model()).(objs := old(Model()).objs.(seen := old(Model()).objs.seen - {doId}))
    {
      seenObjects := seenObjects - {doId};
    }

    method EraseVisible(doId: DoId)
      requires Valid()
      modifies `visibleObjects
      ensures Valid()
      ensures Model() == old(Model()).(objs := old(Model()).objs.(visible := old(Model()).objs.visible - {doId}))
    {
      visibleObjects := visibleObjects - {doId};
    }

    method EraseSession(doId: DoId)
      requires Valid()
      modifies `sessionObjects
      ensures Valid()
      ensures Model() == old(Model()).(objs := old(Model()).objs.(session := old(Model()).objs.session - {doId}))
    {
      sessionObjects := sessionObjects - {doId};
    }

    method HandleDelete(doId: DoId)
      requires Valid()
      modifies this
      ensures Valid() && Model() == OnDelete(cfg, old(Model()), doId)
      ensures OnlyFresh()
    {
      hide M.Disconnect, M.DropVisible, LoseOwnership;
      if doId in sessionObjects {
        EraseSession(doId);
        SendDisconnect();
        return;
      }
      if doId in seenObjects { DropVisible(doId); }
      label dropped:
      assert Model().objs.owned == ownedObjects;
      if doId in ownedObjects { HandleRemoveOwnership(doId); }
      EraseVisible(doId);
    }

    method IsOpen(at: Location) returns (open: bool)
      requires Valid()
      ensures open <==> Covered(interests, at)
    {
      var order := cfg.order(|sent|, interests.Keys);
      assert Enumerates(order, interests.Keys);
      open := false;
      for i := 0 to |order|
        invariant open <==> exists j :: 0 <= j < i && Covers(interests[order[j]], at)
      {
        if interests[order[i]].parent == at.parent && at.zone in interests[order[i]].zones { open := true; }
      }
    }

    method MoveObject(doId: DoId, to: Location)
      requires Valid()
      modifies `visibleObjects, `ownedObjects
      ensures Valid()
      ensures Model() == old(Model()).(objs := old(Model()).objs.(visible := Relocate(old(visibleObjects), doId, to),
                                                                  owned := Relocate(old(ownedObjects), doId, to)))
    {
      if doId in visibleObjects { visibleObjects := visibleObjects[doId := visibleObjects[doId].(at := to)]; }
      if doId in ownedObjects { ownedObjects := ownedObjects[doId := ownedObjects[doId].(at := to)]; }
    }

    method HandleMove(doId: DoId, to: Location)
      requires Valid()
      modifies this
      ensures Valid() && Model() == OnMove(cfg, old(Model()), doId, to)
      ensures OnlyFresh()
    {
      hide M.Disconnect, M.DropVisible, ChangeLocation, Covered, Relocate;
      var open := IsOpen(to);
      var visible, owned, session := doId in visibleObjects, doId in ownedObjects, doId in sessionObjects;
      if !visible && !owned { return; }
      MoveObject(doId, to);
      if !open && visible {
        if session {
          if owned { HandleChangeLocation(doId, to); } else { SendDisconnect(); }
        } else {
          DropVisible(doId);
        }
      } else {
        HandleChangeLocation(doId, to);
      }
    }

    /** The first operation, in iteration order, that is loading the location. */
    method FindLoading(at: Location) returns (ctx: Option<nat>)
      requires Valid()
      ensures ctx == Loading(Ops(), at, cfg.order(|sent|, Ops().Keys))
      ensures ctx.Some? ==> ctx.value in pendingInterests
    {
      var order := cfg.order(|sent|, pendingInterests.Keys);
      assert Ops().Keys == pendingInterests.Keys && order[0..] == order;
      assert Enumerates(order, pendingInterests.Keys);
      for i := 0 to |order|
        invariant Loading(Ops(), at, order[i..]) == Loading(Ops(), at, order)
      {
        var iop := pendingInterests[order[i]];
        assert order[i..][0] == order[i] && order[i..][1..] == order[i + 1..];
        assert at == Location(at.parent, at.zone);
        if iop.parent == at.parent && at.zone in iop.zones { return Some(order[i]); }
      }
      return None;
    }

    method SetPending(doId: DoId, ctx: nat)
      requires Valid()
      modifies `pendingObjects
      ensures Valid()
      ensures Model() == old(Model()).(objs := old(Model()).objs.(pending := old(Model()).objs.pending[doId := ctx]))
    {
      pendingObjects := pendingObjects[doId := ctx];
    }

    method HandleEnterLocation(dg: Datagram, e: Entrance)
      requires Valid()
      modifies this, pendingInterests.Values
      ensures Valid() && Model() == OnEnterLocation(cfg, old(Model()), dg, e)
      ensures OnlyFresh()
    {
      hide Enter, Loading, Append;
      var ctx := FindLoading(e.at);
      if ctx.Some? {
        AppendTo(ctx.value, dg);
        AppendKeeps(old(Model()), ctx.value, dg);
        if e.doId !in pendingObjects { SetPending(e.doId, ctx.value); }
        return;
      }
      HandleObjectEntrance(e);
    }

    /* ---- Messages ---- */

    method HandleUpdate(dg: Datagram)
      requires Valid() && (dg.msg.SetField? || dg.msg.SetFields?)
      modifies `history, `sent, pendingInterests.Values
      ensures Valid() && Model() == OnQueueable(cfg, old(Model()), dg)
    {
      hide Lookup, TryQueue, Send;
      var cls := LookupObject(dg.msg.doId);
      if cls.None? {
        var _ := TryQueuePending(dg.msg.doId, dg);
      } else if dg.msg.SetField? {
        SendDatagram(FieldSet(dg.msg.doId, dg.msg.field, dg.msg.data));
      } else {
        SendDatagram(FieldsSet(dg.msg.doId, dg.msg.count, dg.msg.data));
      }
    }

    method HandleDeleteRam(doId: DoId, dg: Datagram)
      requires Valid() && dg.msg == DeleteRam(doId)
      modifies this, pendingInterests.Values
      ensures Valid() && Model() == OnQueueable(cfg, old(Model()), dg)
      ensures OnlyFresh()
    {
      hide Lookup, OnDelete, TryQueue;
      var cls := LookupObject(doId);
      if cls.None? { var _ := TryQueuePending(doId, dg); } else { HandleDelete(doId); }
    }

    method HandleQueueable(dg: Datagram)
      requires Valid() && Queueable(dg.msg)
      modifies this, pendingInterests.Values
      ensures Valid() && Model() == OnQueueable(cfg, old(Model()), dg)
      ensures OnlyFresh()
    {
      hide Lookup, OnDelete, OnMove, OnEnterLocation, TryQueue, Send;
      match dg.msg
      case SetField(_, _, _) => HandleUpdate(dg);
      case SetFields(_, _, _) => HandleUpdate(dg);
      case DeleteRam(doId) => HandleDeleteRam(doId, dg);
      case EnterLocation(e) => HandleEnterLocation(dg, e);
      case ChangingLocation(doId, to) =>
        var queued := TryQueuePending(doId, dg);
        if !queued {
          NotPending(old(Model()), doId, dg);
          HandleMove(doId, to);
        }
    }

    method Redeliver(dg: Datagram)
      requires Valid()
      modifies this, pendingInterests.Values
      ensures Valid() && Model() == M.Redeliver(cfg, old(Model()), dg)
      ensures OnlyFresh()
    {
      hide OnQueueable;
      if connected && dg.sender != channel && Queueable(dg.msg) { HandleQueueable(dg); }
    }

    /** Enters everything the operation was promised, in order of arrival. */
    method GenerateAll(iop: InterestOperation)
      requires Valid()
      modifies `pendingObjects, `visibleObjects, `seenObjects, `sent
      ensures Valid() && Model() == EnterAll(old(Model()), iop.pendingGenerates)
    {
      hide Enter;
      var generates := iop.pendingGenerates;
      assert generates[0..] == generates;
      for i := 0 to |generates|
        invariant Valid()
        invariant EnterAll(Model(), generates[i..]) == EnterAll(old(Model()), generates)
      {
        assert generates[i..][0] == generates[i] && generates[i..][1..] == generates[i + 1..];
        HandleObjectEntrance(generates[i]);
      }
      assert generates[|generates|..] == [];
    }

    method Dispatch(queue: seq<Datagram>)
      requires Valid()
      modifies this, pendingInterests.Values
      ensures Valid() && Model() == Replay(cfg, old(Model()), queue)
      ensures OnlyFresh()
    {
      hide M.Redeliver;
      assert queue[0..] == queue;
      for i := 0 to |queue|
        invariant Valid() && OnlyFresh()
        invariant Replay(cfg, Model(), queue[i..]) == Replay(cfg, old(Model()), queue)
      {
        assert queue[i..][0] == queue[i] && queue[i..][1..] == queue[i + 1..];
        Redeliver(queue[i]);
      }
      assert queue[|queue|..] == [];
    }

    method EraseOperation(ctx: nat)
      requires Valid() && ctx in pendingInterests
      modifies `pendingInterests, `history
      ensures Valid() && pendingInterests == old(pendingInterests) - {ctx}
      ensures var c := old(Model());
              Model() == c.(ints := c.ints.(ops := c.ints.ops - {ctx}),
                            history := c.history.(finished := c.history.finished + multiset{ctx},
                                                  replaying := OpLocations(c.ints.ops[ctx])))
    {
      history := history.(finished := history.finished + multiset{ctx}, replaying := OpLocations(Ops()[ctx]));
      pendingInterests := pendingInterests - {ctx};
    }

    method SettleOperation(ctx: nat)
      requires Valid() && ctx in pendingInterests
      modifies this
      ensures Valid() && Model() == Settle(old(Model()), ctx)
      ensures pendingInterests == old(pendingInterests) - {ctx}
    {
      hide EnterAll, TellDone, Publish;
      var iop := pendingInterests[ctx];
      GenerateAll(iop);
      PublishDatagram(DoneInterestResp(iop.caller, iop.interestId));
      HandleInterestDone(iop.interestId, iop.clientContext);
      EnteredKeepsOps(old(Model()), ctx);
      EraseOperation(ctx);
    }

    method EndReplay()
      requires Valid()
      modifies `history
      ensures Valid() && Model() == old(Model()).(history := old(Model()).history.(replaying := {}))
    {
      history := history.(replaying := {});
    }

    /** InterestOperation::Finish(): the operation is erased before what it held back is
        dispatched, so that nothing is handed back to it. */
    method FinishOperation(ctx: nat)
      requires Valid() && ctx in pendingInterests
      modifies this, pendingInterests.Values
      ensures Valid() && Model() == Finish(cfg, old(Model()), ctx)
      ensures OnlyFresh()
    {
      hide Settle, Replay;
      var queue := pendingInterests[ctx].pendingDatagrams;
      SettleOperation(ctx);
      Dispatch(queue);
      EndReplay();
    }

    method HandleEnterInterest(ctx: nat, e: Entrance)
      requires Valid()
      modifies this, pendingInterests.Values
      ensures Valid() && Model() == OnEnterInterest(cfg, old(Model()), ctx, e)
      ensures OnlyFresh()
    {
      hide Finish;
      if ctx !in pendingInterests { return; }
      SetPending(e.doId, ctx);
      Expect(ctx, e);
      if pendingInterests[ctx].IsReady() { FinishOperation(ctx); }
    }

    method Expect(ctx: nat, e: Entrance)
      requires Valid() && ctx in pendingInterests
      modifies pendingInterests.Values
      ensures Valid()
      ensures var op := old(Model()).ints.ops[ctx];
              Model() == SetOp(old(Model()), ctx, op.(generates := op.generates + [e]))
    {
      pendingInterests[ctx].QueueExpected(e);
      assert Ops() == old(Ops())[ctx := old(Ops())[ctx].(generates := old(Ops())[ctx].generates + [e])];
    }

    method ExpectTotal(ctx: nat, count: nat)
      requires Valid() && ctx in pendingInterests
      modifies pendingInterests.Values
      ensures Valid()
      ensures var op := old(Model()).ints.ops[ctx];
              Model() == SetOp(old(Model()), ctx, op.(total := if op.total.None? then Some(count) else op.total))
    {
      pendingInterests[ctx].SetExpected(count);
      ghost var op := old(Ops())[ctx];
      assert Ops() == old(Ops())[ctx := op.(total := if op.total.None? then Some(count) else op.total)];
    }

    method HandleZonesCount(ctx: nat, count: nat)
      requires Valid()
      modifies this, pendingInterests.Values
      ensures Valid() && Model() == OnZonesCount(cfg, old(Model()), ctx, count)
      ensures OnlyFresh()
    {
      hide Finish;
      if ctx !in pendingInterests { return; }
      ExpectTotal(ctx, count);
      if pendingInterests[ctx].IsReady() { FinishOperation(ctx); }
    }

    method HandleDeclare(doId: DoId, dcId: nat)
      requires Valid()
      modifies `declaredObjects, `history
      ensures Valid() && Model() == OnDeclare(old(Model()), Declare(doId, dcId))
    {
      if doId !in declaredObjects {
        declaredObjects := declaredObjects[doId := dcId];
        history := history.(declared := history.declared + {doId});
      }
    }

    method EraseDeclared(doId: DoId)
      requires Valid()
      modifies `declaredObjects
      ensures Valid()
      ensures Model() == old(Model()).(objs := old(Model()).objs.(declared := old(Model()).objs.declared - {doId}))
    {
      declaredObjects := declaredObjects - {doId};
    }

    method InsertSession(doId: DoId)
      requires Valid()
      modifies `sessionObjects
      ensures Valid()
      ensures Model() == old(Model()).(objs := old(Model()).objs.(session := old(Model()).objs.session + {doId}))
    {
      sessionObjects := sessionObjects + {doId};
    }

    method HandleDeclaration(m: Msg)
      requires Valid() && Declares(m)
      modifies `declaredObjects, `sessionObjects, `history
      ensures Valid() && Model() == OnDeclare(old(Model()), m)
    {
      match m
      case Declare(doId, dcId) => HandleDeclare(doId, dcId);
      case Undeclare(doId) => EraseDeclared(doId);
      case AddSession(doId) => InsertSession(doId);
      case RemoveSession(doId) => EraseSession(doId);
    }

    method Number() returns (ctx: nat)
      requires Valid()
      modifies `nextContext
      ensures Valid() && ctx == old(nextContext) && Model() == old(Model()).(nextContext := ctx + 1)
    {
      ctx := nextContext;
      nextContext := nextContext + 1;
    }

    method HandleAddInterest(i: Interest, caller: nat)
      requires Valid()
      modifies this
      ensures Valid() && Model() == OnAddInterest(cfg, old(Model()), i, caller)
      ensures OnlyFresh()
    {
      hide M.AddInterest, Send;
      var ctx := Number();
      SendDatagram(InterestAdded(ctx, i));
      AddInterest(i.(internal := false), ctx, caller);
    }

    method HandleRemoveInterest(id: nat, caller: nat)
      requires Valid()
      modifies this
      ensures Valid() && Model() == OnRemoveInterest(cfg, old(Model()), id, caller)
      ensures OnlyFresh()
    {
      hide M.RemoveInterest;
      var ctx := Number();
      if id !in interests { return; }
      SendDatagram(InterestRemoved(ctx, id));
      RemoveInterest(id, ctx, caller);
    }

    method HandleGetClassResp(ctx: nat, doId: DoId, dcId: nat)
      requires Valid()
      modifies this
      ensures Valid() && Model() == OnClassResp(cfg, old(Model()), ctx, doId, dcId)
      ensures OnlyFresh()
    {
      hide ApplyRule;
      if ctx !in pendingParentClassLookups { return; }
      var parent := pendingParentClassLookups[ctx];
      EraseLookup(ctx);
      if doId != parent || avatarAt.parent != parent || dcId !in cfg.classes { return; }
      if avatarParentRule.Some? && avatarParentRule.value.parent == parent { return; }
      if dcId !in cfg.rules {
        SetRule(Some(AvatarRule(parent, Stated, 0)));
      } else {
        ApplyAvatarParentRule(parent, cfg.rules[dcId]);
      }
    }

    method EraseLookup(ctx: nat)
      requires Valid()
      modifies `pendingParentClassLookups
      ensures Valid()
      ensures Model() == old(Model()).(avatar := old(Model()).avatar.(lookups := old(Model()).avatar.lookups - {ctx}))
    {
      pendingParentClassLookups := pendingParentClassLookups - {ctx};
    }

    method RecordOwned(e: Entrance)
      requires Valid()
      modifies `ownedObjects
      ensures Valid() && Model() == Own(old(Model()), e)
    {
      if e.doId !in ownedObjects { ownedObjects := ownedObjects[e.doId := Object(e.dcId, e.at)]; }
    }

    method SetAvatar(doId: DoId, at: Location)
      requires Valid()
      modifies `avatarDoId, `avatarAt
      ensures Valid() && Model() == old(Model()).(avatar := old(Model()).avatar.(doId := doId, at := at))
    {
      avatarDoId, avatarAt := doId, at;
    }

    method HandleEnterOwner(e: Entrance)
      requires Valid()
      modifies this
      ensures Valid() && Model() == OnEnterOwner(cfg, old(Model()), e)
      ensures OnlyFresh()
    {
      hide RequestClass, Send;
      RecordOwned(e);
      if ownedObjects[e.doId].dcId in cfg.classes && ownedObjects[e.doId].dcId in cfg.avatarClasses {
        SetAvatar(e.doId, e.at);
        if cfg.parentingRules { RequestParentClass(e.at.parent); }
      }
      SendDatagram(OwnerEntered(e));
    }

    method HandleChangingOwner(doId: DoId, newOwner: nat)
      requires Valid()
      modifies this
      ensures Valid() && Model() == OnChangingOwner(old(Model()), doId, newOwner)
      ensures OnlyFresh()
    {
      hide LoseOwnership, M.Disconnect;
      if newOwner == channel || doId !in ownedObjects { return; }
      if doId in sessionObjects { SendDisconnect(); } else { HandleRemoveOwnership(doId); }
    }

    method HandleOther(dg: Datagram)
      requires Valid() && !Queueable(dg.msg) && !Declares(dg.msg)
      modifies this, pendingInterests.Values
      ensures Valid() && Model() == M.Dispatch(cfg, old(Model()), dg)
      ensures OnlyFresh()
    {
      hide M.Disconnect, M.Shutdown, OnAddInterest, OnRemoveInterest, OnEnterOwner, OnEnterInterest, OnZonesCount,
           OnClassResp, OnChangingOwner;
      match dg.msg
      case Eject => SendDisconnect();
      case Drop => Shutdown();
      case AddInterestMsg(i) => HandleAddInterest(i, dg.sender);
      case RemoveInterestMsg(id) => HandleRemoveInterest(id, dg.sender);
      case EnterOwner(e) => HandleEnterOwner(e);
      case EnterInterest(ctx, e) => HandleEnterInterest(ctx, e);
      case ZonesCount(ctx, count) => HandleZonesCount(ctx, count);
      case ClassResp(ctx, doId, dcId) => HandleGetClassResp(ctx, doId, dcId);
      case ChangingOwner(doId, newOwner) => HandleChangingOwner(doId, newOwner);
    }

    method HandleDatagram(dg: Datagram)
      requires Valid()
      modifies this, pendingInterests.Values
      ensures Valid() && Model() == Receive(cfg, old(Model()), dg)
      ensures OnlyFresh()
    {
      hide OnQueueable, OnDeclare, M.Dispatch;
      if !connected || dg.sender == channel { return; }
      if Queueable(dg.msg) { HandleQueueable(dg); }
      else if Declares(dg.msg) { HandleDeclaration(dg.msg); }
      else { HandleOther(dg); }
    }

    /* ---- The client's own requests, time-outs, the end ---- */

    method HandleClientAddInterest(i: Interest, ctx: nat)
      requires Valid()
      modifies this
      ensures Valid() && Model() == OnClientAdd(cfg, old(Model()), i, ctx)
      ensures OnlyFresh()
    {
      hide M.AddInterest, M.Disconnect, Lookup;
      if !connected { return; }
      if cfg.permission.Disabled? { SendDisconnect(); return; }
      var cls := LookupObject(i.parent);
      if cfg.permission.Visible? && cls.None? { SendDisconnect(); return; }
      var left := i.zones;
      while left != {}
        invariant left <= i.zones && forall z :: z in i.zones - left ==> cfg.zoneAllowed(z)
        decreases |left|
      {
        var zone :| zone in left;
        if !cfg.zoneAllowed(zone) { SendDisconnect(); return; }
        left := left - {zone};
      }
      AddInterest(i.(internal := false), ctx, 0);
    }

    method HandleClientRemoveInterest(id: nat, ctx: nat)
      requires Valid()
      modifies this
      ensures Valid() && Model() == OnClientRemove(cfg, old(Model()), id, ctx)
      ensures OnlyFresh()
    {
      hide M.RemoveInterest, M.Disconnect, Lookup;
      if !connected { return; }
      if cfg.permission.Disabled? || id !in interests { SendDisconnect(); return; }
      var cls := LookupObject(interests[id].parent);
      if cfg.permission.Visible? && cls.None? { SendDisconnect(); return; }
      RemoveInterest(id, ctx, 0);
    }

    method Handle(ev: Event)
      requires Valid()
      modifies this, pendingInterests.Values
      ensures Valid() && Model() == Step(cfg, old(Model()), ev)
      ensures OnlyFresh()
    {
      hide Receive, OnClientAdd, OnClientRemove, Finish, M.Shutdown;
      match ev
      case FromCluster(dg) => HandleDatagram(dg);
      case ClientAdds(ctx, i) => HandleClientAddInterest(i, ctx);
      case ClientRemoves(ctx, id) => HandleClientRemoveInterest(id, ctx);
      case OperationTimesOut(ctx) => if ctx in pendingInterests { FinishOperation(ctx); }
      case LookupTimesOut(ctx) => EraseLookup(ctx);
      case ConnectionEnds => Shutdown();
    }
  }

  /** Whatever reaches a client, the object ends up in the state of the run, so that all
      properties of runs hold of it. */
  method Serve(cfg: Config, channel: nat, events: seq<Event>) returns (p: ClientParticipant)
    requires ValidConfig(cfg)
    ensures fresh(p) && p.Valid() && p.Model() == Run(cfg, channel, events)
    ensures InterestMirror.Mirrors(cfg, p.Model()) && InterestSubscriptions.Subscribed(p.Model())
    ensures InterestOperations.Orderly(p.Model())
  {
    hide Step, InterestMirror.Mirrors, InterestSubscriptions.Subscribed, InterestOperations.Orderly;
    p := new ClientParticipant(cfg, channel);
    for i := 0 to |events|
      invariant p.Valid() && p.cfg == cfg && fresh(p) && fresh(p.pendingInterests.Values)
      invariant p.Model() == Run(cfg, channel, events[..i])
    {
      assert events[..i + 1][..i] == events[..i] && events[..i + 1][i] == events[i];
      p.Handle(events[i]);
    }
    assert events[..|events|] == events;
    InterestMirror.ClientMirrorsAgent(cfg, channel, events);
    InterestSubscriptions.SubscribedToInterests(cfg, channel, events);
    InterestOperations.OperationsAreOrderly(cfg, channel, events);
  }

  /** The id `n` places after `start` in the cycle of internal ids. */
  function Cycle(start: nat, n: nat): (id: nat)
    requires 0xF000 <= start < 0x1_0000
    ensures 0xF000 <= id < 0x1_0000
  {
    0xF000 + (start - 0xF000 + n) % INTERNAL_IDS
  }

  /** The cycle is closed after all internal ids, and not before. */
  lemma CycleEnds(start: nat, n: nat)
    requires 0xF000 <= start < 0x1_0000 && 1 <= n <= INTERNAL_IDS
    ensures Cycle(start, n) == start <==> n == INTERNAL_IDS
    ensures Cycle(start, n) == if Cycle(start, n - 1) == 0xFFFF then 0xF000 else Cycle(start, n - 1) + 1
  {}

  lemma {:induction false} AllocateScans(open: map<nat, Interest>, start: nat, tries: nat)
    requires 0xF000 <= start < 0x1_0000 && 1 <= tries <= INTERNAL_IDS
    ensures var (id, next) := Allocate(open, start, tries);
            && (id != 0 ==> id !in open && 0xF000 <= id < 0x1_0000)
            && (id == 0 ==> forall n :: 0 <= n < tries ==> Cycle(start, n) in open)
    decreases tries
  {
    if start in open && tries > 1 {
      var next := Cycle(start, 1);
      AllocateScans(open, next, tries - 1);
      if Allocate(open, start, tries).0 == 0 {
        forall n | 0 <= n < tries ensures Cycle(start, n) in open {
          if n > 0 { assert Cycle(start, n) == Cycle(next, n - 1); }
        }
      }
    }
  }

  /** An internal interest gets an id that is free, and gets none only when all are taken. */
  lemma AllocationFindsFreeId(open: map<nat, Interest>, start: nat)
    requires 0xF000 <= start < 0x1_0000
    ensures var (id, next) := Allocate(open, start, INTERNAL_IDS);
            && (id != 0 ==> id !in open && 0xF000 <= id < 0x1_0000)
            && (id == 0 <==> forall k :: 0xF000 <= k < 0x1_0000 ==> k in open)
  {
    AllocateScans(open, start, INTERNAL_IDS);
    forall k | 0xF000 <= k < 0x1_0000
      ensures Allocate(open, start, INTERNAL_IDS).0 == 0 ==> k in open
    {
      assert k == Cycle(start, (k - start) % INTERNAL_IDS);
    }
  }

  lemma AppendKeeps(c: Client, ctx: nat, dg: Datagram)
    requires ctx in c.ints.ops
    ensures Append(c, ctx, dg).objs == c.objs
  {}

  lemma NotPending(c: Client, doId: DoId, dg: Datagram)
    requires doId !in c.objs.pending
    ensures TryQueue(c, doId, dg) == c
  {}

  lemma {:induction false} EnterAllKeepsInterests(c: Client, es: seq<Entrance>)
    ensures EnterAll(c, es).ints == c.ints && EnterAll(c, es).history == c.history
    decreases |es|
  {
    if es != [] { EnterAllKeepsInterests(Enter(c, es[0]), es[1..]); }
  }

  lemma EnteredKeepsOps(c: Client, ctx: nat)
    requires ctx in c.ints.ops
    ensures var op := c.ints.ops[ctx];
            var told := TellDone(Publish(EnterAll(c, op.generates), DoneInterestResp(op.caller, op.interestId)),
                                 op.interestId, op.clientContext);
            told.ints == c.ints && told.history == c.history
  {
    EnterAllKeepsInterests(c, c.ints.ops[ctx].generates);
  }

  lemma NoLeavings()
    ensures Leavings([]) == []
  {}

  lemma NoVictims(o: Objects, parent: DoId, killed: set<nat>)
    ensures Victims(o, parent, killed, []) == []
  {}

  lemma VictimsNext(o: Objects, parent: DoId, killed: set<nat>, order: seq<DoId>, i: nat)
    requires i < |order|
    ensures Victims(o, parent, killed, order[i..]) ==
            if !Doomed(o, parent, killed, order[i]) then Victims(o, parent, killed, order[i + 1..])
            else if order[i] in o.session then []
            else [order[i]] + Victims(o, parent, killed, order[i + 1..])
  {
    assert order[i..][1..] == order[i + 1..];
  }

  lemma {:induction false} LeavingsSnoc(doIds: seq<DoId>, doId: DoId)
    ensures Leavings(doIds + [doId]) == Leavings(doIds) + [Leaving(doId)]
  {
    if doIds == [] {
      assert [doId][1..] == [];
    } else {
      assert (doIds + [doId])[1..] == doIds[1..] + [doId];
      LeavingsSnoc(doIds[1..], doId);
    }
  }
}
