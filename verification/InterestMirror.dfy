/** What a client can reconstruct from its own message stream: at every moment of every
    run, exactly the set of objects the agent believes it sees and owns, through
    messages each of which makes sense when it arrives. */
module InterestMirror {
  import opened Common
  import opened InterestModel

  /** A client's own record of its objects. */
  datatype View = View(seen: set<DoId>, owned: set<DoId>)

  function Apply(v: View, m: ToClient): View {
    match m
    case Entered(e) => v.(seen := v.seen + {e.doId})
    case Leaving(doId) => v.(seen := v.seen - {doId})
    case OwnerEntered(e) => v.(owned := v.owned + {e.doId})
    case OwnerLeaving(doId) => v.(owned := v.owned - {doId})
    case _ => v
  }

  function ViewOf(sent: seq<ToClient>): View {
    if sent == [] then View({}, {})
    else Apply(ViewOf(sent[..|sent| - 1]), sent[|sent| - 1])
  }

  /** A message makes sense to a client with the record `v`: objects enter once, leave
      only when present, and are only spoken of when known. `named` are the objects a
      client may hear about without having seen them. */
  predicate Sensible(named: set<DoId>, v: View, m: ToClient) {
    match m
    case Entered(e) => e.doId !in v.seen
    case Leaving(doId) => doId in v.seen
    case OwnerLeaving(doId) => doId in v.owned
    case FieldSet(doId, _, _) => doId in v.seen + v.owned + named
    case FieldsSet(doId, _, _) => doId in v.seen + v.owned + named
    case Moved(doId, _) => doId in v.seen + v.owned || doId == INVALID
    case _ => true
  }

  predicate AllSensible(named: set<DoId>, sent: seq<ToClient>) {
    sent == [] ||
    (AllSensible(named, sent[..|sent| - 1]) && Sensible(named, ViewOf(sent[..|sent| - 1]), sent[|sent| - 1]))
  }

  function Named(cfg: Config, c: Client): set<DoId> {
    cfg.uberdogs.Keys + c.history.declared
  }

  /** The client's record is what the agent believes. */
  ghost predicate Agrees(c: Client, v: View) {
    && v == View(c.objs.seen, c.objs.owned.Keys)
    && c.objs.seen == c.objs.visible.Keys
    && c.objs.declared.Keys <= c.history.declared
    && (c.avatar.doId == INVALID || c.avatar.doId in c.objs.owned)
  }

  /** The invariant of every run. */
  ghost predicate Mirrors(cfg: Config, c: Client) {
    && AllSensible(Named(cfg, c), c.sent)
    && (c.connected ==> Agrees(c, ViewOf(c.sent)))
  }

  lemma Appended(sent: seq<ToClient>, m: ToClient, named: set<DoId>)
    ensures ViewOf(sent + [m]) == Apply(ViewOf(sent), m)
    ensures AllSensible(named, sent + [m]) <==> AllSensible(named, sent) && Sensible(named, ViewOf(sent), m)
  {
    assert (sent + [m])[..|sent|] == sent;
  }

  lemma {:induction false} MoreNames(sent: seq<ToClient>, a: set<DoId>, b: set<DoId>)
    requires a <= b && AllSensible(a, sent)
    ensures AllSensible(b, sent)
    decreases |sent|
  {
    if sent != [] { MoreNames(sent[..|sent| - 1], a, b); }
  }

  /** Sending a message that changes nothing in the record. */
  lemma SendMirrors(cfg: Config, c: Client, m: ToClient)
    requires Mirrors(cfg, c)
    requires c.connected ==> Sensible(Named(cfg, c), ViewOf(c.sent), m) && Apply(ViewOf(c.sent), m) == ViewOf(c.sent)
    ensures Mirrors(cfg, Send(c, m)) && KeepsOwnership(c, Send(c, m))
  {
    if c.connected { Appended(c.sent, m, Named(cfg, c)); }
  }

  /** Sending the news of a change to the objects. */
  lemma NewsMirrors(cfg: Config, c: Client, d: Client, m: ToClient)
    requires Mirrors(cfg, c)
    requires d.sent == c.sent && d.connected == c.connected && d.history == c.history
    requires c.connected ==> Sensible(Named(cfg, c), ViewOf(c.sent), m) && Agrees(d, Apply(ViewOf(c.sent), m))
    ensures Mirrors(cfg, Send(d, m)) && Send(d, m) == d.(sent := Send(d, m).sent)
  {
    if c.connected { Appended(c.sent, m, Named(cfg, c)); }
  }

  /** What most steps leave alone. */
  ghost predicate KeepsOwnership(c: Client, d: Client) {
    && d.objs.owned == c.objs.owned && d.avatar.doId == c.avatar.doId
    && d.history.declared == c.history.declared && d.objs.declared == c.objs.declared
    && (d.connected ==> c.connected)
  }

  lemma DisconnectMirrors(cfg: Config, c: Client)
    requires AllSensible(Named(cfg, c), c.sent)
    ensures Mirrors(cfg, Shutdown(c.(connected := true))) && Mirrors(cfg, Disconnect(c.(connected := true)))
  {
    Appended(c.sent, Ejected, Named(cfg, c));
  }

  lemma EndsMirror(cfg: Config, c: Client)
    requires Mirrors(cfg, c) && c.connected
    ensures Mirrors(cfg, Shutdown(c)) && Mirrors(cfg, Disconnect(c))
  {
    DisconnectMirrors(cfg, c);
    assert c == c.(connected := true);
  }

  /* ---- Closing zones ---- */

  lemma {:induction false} VictimsAreDoomed(o: Objects, parent: DoId, killed: set<nat>, order: seq<DoId>)
    requires forall i, j :: 0 <= i < j < |order| ==> order[i] != order[j]
    ensures var vs := Victims(o, parent, killed, order);
            && (forall v :: v in vs ==> Doomed(o, parent, killed, v) && v in order)
            && (forall i, j :: 0 <= i < j < |vs| ==> vs[i] != vs[j])
  {
    if order != [] { VictimsAreDoomed(o, parent, killed, order[1..]); }
  }

  /** Without a session object in the way, every doomed object is a victim. */
  lemma {:induction false} DoomedAreVictims(o: Objects, parent: DoId, killed: set<nat>, order: seq<DoId>, d: DoId)
    requires d in order && Doomed(o, parent, killed, d) && !ClosesSession(o, parent, killed)
    ensures d in Victims(o, parent, killed, order)
  {
    if order[0] != d { DoomedAreVictims(o, parent, killed, order[1..], d); }
  }

  lemma {:induction false} LeavingsMirror(named: set<DoId>, sent: seq<ToClient>, vs: seq<DoId>)
    requires AllSensible(named, sent)
    requires forall v :: v in vs ==> v in ViewOf(sent).seen
    requires forall i, j :: 0 <= i < j < |vs| ==> vs[i] != vs[j]
    ensures AllSensible(named, sent + Leavings(vs))
    ensures ViewOf(sent + Leavings(vs)) == ViewOf(sent).(seen := ViewOf(sent).seen - ToSet(vs))
    decreases |vs|
  {
    hide AllSensible, ViewOf;
    if vs == [] {
      assert sent + Leavings(vs) == sent;
    } else {
      Appended(sent, Leaving(vs[0]), named);
      LeavingsMirror(named, sent + [Leaving(vs[0])], vs[1..]);
      assert sent + Leavings(vs) == sent + [Leaving(vs[0])] + Leavings(vs[1..]);
      assert ToSet(vs) == {vs[0]} + ToSet(vs[1..]);
    }
  }

  lemma CloseZonesMirrors(cfg: Config, c: Client, parent: DoId, killed: set<nat>)
    requires ValidConfig(cfg) && Mirrors(cfg, c) && c.connected
    ensures Mirrors(cfg, CloseZones(cfg, c, parent, killed))
    ensures KeepsOwnership(c, CloseZones(cfg, c, parent, killed))
  {
    var order := cfg.order(|c.sent|, c.objs.visible.Keys);
    var gone := Victims(c.objs, parent, killed, order);
    VictimsAreDoomed(c.objs, parent, killed, order);
    LeavingsMirror(Named(cfg, c), c.sent, gone);
    var told := c.(sent := c.sent + Leavings(gone), objs := c.objs.(seen := c.objs.seen - ToSet(gone)));
    DisconnectMirrors(cfg, told);
    assert told == told.(connected := true);
  }

  /* ---- Interests: only the messages about them are new ---- */

  lemma SilentSend(cfg: Config, c: Client, m: ToClient)
    requires Mirrors(cfg, c) && (m.InterestDone? || m.InterestAdded? || m.InterestRemoved?)
    ensures Mirrors(cfg, Send(c, m)) && KeepsOwnership(c, Send(c, m))
  {
    SendMirrors(cfg, c, m);
  }

  /** Once disconnected, nothing more is sent. */
  lemma CloseZonesMirrorsAlways(cfg: Config, c: Client, parent: DoId, killed: set<nat>)
    requires ValidConfig(cfg) && Mirrors(cfg, c)
    ensures Mirrors(cfg, CloseZones(cfg, c, parent, killed))
    ensures KeepsOwnership(c, CloseZones(cfg, c, parent, killed))
  {
    if c.connected { CloseZonesMirrors(cfg, c, parent, killed); }
  }

  lemma CloseReplacedMirrors(cfg: Config, c: Client, i: Interest)
    requires ValidConfig(cfg) && Mirrors(cfg, c)
    ensures Mirrors(cfg, CloseReplaced(cfg, c, i)) && KeepsOwnership(c, CloseReplaced(cfg, c, i))
  {
    if i.id in c.ints.open {
      CloseZonesMirrorsAlways(cfg, c, c.ints.open[i.id].parent, KilledZones(c.ints.open, i));
    }
  }

  lemma LoadMirrors(cfg: Config, c: Client, i: Interest, zones: set<nat>, ctx: nat, caller: nat)
    requires Mirrors(cfg, c)
    ensures Mirrors(cfg, Load(c, i, zones, ctx, caller)) && KeepsOwnership(c, Load(c, i, zones, ctx, caller))
  {
    if zones == {} { SilentSend(cfg, NotifyDone(c, i.id, caller), InterestDone(ctx, i.id)); }
  }

  lemma AddInterestMirrors(cfg: Config, c: Client, given: Interest, ctx: nat, caller: nat)
    requires ValidConfig(cfg) && Mirrors(cfg, c)
    ensures Mirrors(cfg, AddInterest(cfg, c, given, ctx, caller))
    ensures KeepsOwnership(c, AddInterest(cfg, c, given, ctx, caller))
  {
    var i := Extend(cfg, c, given);
    CloseReplacedMirrors(cfg, c, i);
    LoadMirrors(cfg, Record(CloseReplaced(cfg, c, i), i), i, NewZones(c.ints.open, i), ctx, caller);
  }

  lemma RemoveInterestMirrors(cfg: Config, c: Client, id: nat, ctx: nat, caller: nat)
    requires ValidConfig(cfg) && Mirrors(cfg, c) && id in c.ints.open
    ensures Mirrors(cfg, RemoveInterest(cfg, c, id, ctx, caller))
    ensures KeepsOwnership(c, RemoveInterest(cfg, c, id, ctx, caller))
  {
    hide CloseZones, AllSensible, ViewOf, ValidConfig, SoleZones;
    CloseZonesMirrorsAlways(cfg, c, c.ints.open[id].parent, SoleZones(c.ints.open, id));
    var closed := CloseZones(cfg, c, c.ints.open[id].parent, SoleZones(c.ints.open, id));
    SilentSend(cfg, NotifyDone(closed, id, caller), InterestDone(ctx, id));
  }

  lemma RulesMirror(cfg: Config, c: Client, parent: DoId, rule: ParentingRule.Rule)
    requires ValidConfig(cfg) && Mirrors(cfg, c)
    ensures Mirrors(cfg, ApplyRule(cfg, c, parent, rule))
    ensures Mirrors(cfg, UpdateRule(cfg, c)) && KeepsOwnership(c, UpdateRule(cfg, c))
    ensures Mirrors(cfg, ClearRule(cfg, c)) && KeepsOwnership(c, ClearRule(cfg, c))
  {
    ApplyRuleMirrors(cfg, c, parent, rule);
    UpdateRuleMirrors(cfg, c);
    if c.avatar.rule.Some? && c.avatar.rule.value.interestId in c.ints.open {
      RemoveInterestMirrors(cfg, c, c.avatar.rule.value.interestId, 0, 0);
    }
  }

  lemma ApplyRuleMirrors(cfg: Config, c: Client, parent: DoId, rule: ParentingRule.Rule)
    requires ValidConfig(cfg) && Mirrors(cfg, c)
    ensures Mirrors(cfg, ApplyRule(cfg, c, parent, rule))
  {
    if Tracks(rule) {
      var zones := RuleZones(rule, c.avatar.at.zone);
      var (id, next) := Allocate(c.ints.open, c.avatar.nextId, INTERNAL_IDS);
      var d := c.(avatar := c.avatar.(nextId := next, rule := Some(AvatarRule(parent, rule, id))));
      AddInterestMirrors(cfg, d, Interest(id, parent, zones, true), 0, 0);
    }
  }

  lemma UpdateRuleMirrors(cfg: Config, c: Client)
    requires ValidConfig(cfg) && Mirrors(cfg, c)
    ensures Mirrors(cfg, UpdateRule(cfg, c)) && KeepsOwnership(c, UpdateRule(cfg, c))
  {
    if c.avatar.rule.Some? && Tracks(c.avatar.rule.value.rule) {
      var r := c.avatar.rule.value;
      var zones := RuleZones(r.rule, c.avatar.at.zone);
      if r.interestId in c.ints.open {
        AddInterestMirrors(cfg, c, c.ints.open[r.interestId].(zones := zones, internal := true), 0, 0);
      } else {
        AddInterestMirrors(cfg, c, Interest(r.interestId, r.parent, zones, true), 0, 0);
      }
    }
  }

  /* ---- Objects ---- */

  lemma EnterMirrors(cfg: Config, c: Client, e: Entrance)
    requires Mirrors(cfg, c)
    ensures Mirrors(cfg, Enter(c, e))
  {
    var o := c.objs.(pending := c.objs.pending - {e.doId});
    if !(e.doId in o.seen || (e.doId in o.owned && e.doId in o.session)) {
      var visible := if e.doId in o.visible then o.visible else o.visible[e.doId := Object(e.dcId, e.at)];
      NewsMirrors(cfg, c, c.(objs := o.(visible := visible, seen := o.seen + {e.doId})), Entered(e));
    }
  }

  lemma {:induction false} EnterAllMirrors(cfg: Config, c: Client, es: seq<Entrance>)
    requires Mirrors(cfg, c)
    ensures Mirrors(cfg, EnterAll(c, es))
    decreases |es|
  {
    if es != [] {
      EnterMirrors(cfg, c, es[0]);
      EnterAllMirrors(cfg, Enter(c, es[0]), es[1..]);
    }
  }

  lemma LoseOwnershipMirrors(cfg: Config, c: Client, doId: DoId)
    requires Mirrors(cfg, c) && doId in c.objs.owned
    ensures Mirrors(cfg, LoseOwnership(c, doId))
    ensures LoseOwnership(c, doId).objs == c.objs.(owned := c.objs.owned - {doId})
    ensures LoseOwnership(c, doId).connected == c.connected
  {
    var a := if c.avatar.doId == doId
             then c.avatar.(doId := INVALID, at := Location(INVALID, INVALID)) else c.avatar;
    NewsMirrors(cfg, c, c.(avatar := a, objs := c.objs.(owned := c.objs.owned - {doId})), OwnerLeaving(doId));
  }

  lemma MoveAvatarMirrors(cfg: Config, c: Client, to: Location)
    requires ValidConfig(cfg) && Mirrors(cfg, c)
    ensures Mirrors(cfg, MoveAvatar(cfg, c, to)) && KeepsOwnership(c, MoveAvatar(cfg, c, to))
  {
    var moved := c.(avatar := c.avatar.(at := to));
    assert Mirrors(cfg, moved);
    hide ClearRule, UpdateRule;
    RulesMirror(cfg, moved, to.parent, ParentingRule.Stated);
    assert Mirrors(cfg, RequestClass(ClearRule(cfg, moved), to.parent));
  }

  lemma SendMoved(cfg: Config, c: Client, doId: DoId, to: Location)
    requires Mirrors(cfg, c) && (c.connected ==> doId in c.objs.visible || doId in c.objs.owned || doId == INVALID)
    ensures Mirrors(cfg, Send(c, Moved(doId, to)))
  {
    SendMirrors(cfg, c, Moved(doId, to));
  }

  lemma ChangeLocationMirrors(cfg: Config, c: Client, doId: DoId, to: Location)
    requires ValidConfig(cfg) && Mirrors(cfg, c)
    requires c.connected ==> doId in c.objs.visible || doId in c.objs.owned
    ensures Mirrors(cfg, ChangeLocation(cfg, c, doId, to))
  {
    if c.avatar.doId == doId { MoveAvatarMirrors(cfg, c, to); }
    SendMoved(cfg, if c.avatar.doId == doId then MoveAvatar(cfg, c, to) else c, doId, to);
  }

  lemma DropMirrors(cfg: Config, c: Client, doId: DoId)
    requires Mirrors(cfg, c) && c.connected && doId in c.objs.visible
    ensures Mirrors(cfg, DropVisible(c, doId)) && DropVisible(c, doId).connected
    ensures DropVisible(c, doId).objs == c.objs.(seen := c.objs.seen - {doId}, visible := c.objs.visible - {doId})
  {
    NewsMirrors(cfg, c, c.(objs := c.objs.(seen := c.objs.seen - {doId}, visible := c.objs.visible - {doId})), Leaving(doId));
  }

  lemma ForgetSeenMirrors(cfg: Config, c: Client, doId: DoId)
    requires Mirrors(cfg, c) && c.connected
    ensures var d := if doId in c.objs.seen then DropVisible(c, doId) else c;
            Mirrors(cfg, d) && d.connected && d.objs.owned == c.objs.owned && doId !in d.objs.visible
  {
    if doId in c.objs.seen { DropMirrors(cfg, c, doId); }
  }

  lemma ForgetOwnedMirrors(cfg: Config, c: Client, doId: DoId)
    requires Mirrors(cfg, c) && c.connected && doId !in c.objs.visible
    ensures var e := if doId in c.objs.owned then LoseOwnership(c, doId) else c;
            Mirrors(cfg, e) && e.objs.visible - {doId} == e.objs.visible
  {
    hide Mirrors;
    if doId in c.objs.owned { LoseOwnershipMirrors(cfg, c, doId); }
  }

  lemma OnDeleteMirrors(cfg: Config, c: Client, doId: DoId)
    requires Mirrors(cfg, c) && c.connected
    ensures Mirrors(cfg, OnDelete(cfg, c, doId))
  {
    if doId in c.objs.session {
      hide DropVisible, LoseOwnership;
      DisconnectMirrors(cfg, c.(objs := c.objs.(session := c.objs.session - {doId})));
    } else {
      hide Mirrors, DropVisible, LoseOwnership;
      var d := if doId in c.objs.seen then DropVisible(c, doId) else c;
      var e := if doId in d.objs.owned then LoseOwnership(d, doId) else d;
      ForgetSeenMirrors(cfg, c, doId);
      ForgetOwnedMirrors(cfg, d, doId);
      assert OnDelete(cfg, c, doId) == e;
    }
  }

  lemma OnMoveMirrors(cfg: Config, c: Client, doId: DoId, to: Location)
    requires ValidConfig(cfg) && Mirrors(cfg, c) && c.connected
    ensures Mirrors(cfg, OnMove(cfg, c, doId, to))
  {
    if doId in c.objs.visible || doId in c.objs.owned {
      var d := c.(objs := c.objs.(visible := Relocate(c.objs.visible, doId, to), owned := Relocate(c.objs.owned, doId, to)));
      assert d.objs.visible.Keys == c.objs.visible.Keys && d.objs.owned.Keys == c.objs.owned.Keys;
      ChangeLocationMirrors(cfg, d, doId, to);
      DisconnectMirrors(cfg, d);
      assert d == d.(connected := true);
      if doId in d.objs.visible { DropMirrors(cfg, d, doId); }
    }
  }

  lemma LookupKnows(cfg: Config, c: Client, doId: DoId)
    requires Mirrors(cfg, c) && c.connected && Lookup(cfg, c.objs, doId).Some?
    ensures doId in ViewOf(c.sent).seen + ViewOf(c.sent).owned + Named(cfg, c)
  {}

  lemma UpdateMirrors(cfg: Config, c: Client, doId: DoId, m: ToClient)
    requires Mirrors(cfg, c) && c.connected && Lookup(cfg, c.objs, doId).Some?
    requires (m.FieldSet? || m.FieldsSet?) && m.doId == doId
    ensures Mirrors(cfg, Send(c, m))
  {
    LookupKnows(cfg, c, doId);
    SendMirrors(cfg, c, m);
  }

  lemma OnEnterLocationMirrors(cfg: Config, c: Client, dg: Datagram, e: Entrance)
    requires Mirrors(cfg, c)
    ensures Mirrors(cfg, OnEnterLocation(cfg, c, dg, e))
  {
    hide Loading, Enter, AllSensible, ViewOf;
    EnterMirrors(cfg, c, e);
  }

  lemma TryQueueMirrors(cfg: Config, c: Client, doId: DoId, dg: Datagram)
    requires Mirrors(cfg, c)
    ensures Mirrors(cfg, TryQueue(c, doId, dg))
  {}

  lemma OnQueueableMirrors(cfg: Config, c: Client, dg: Datagram)
    requires ValidConfig(cfg) && Mirrors(cfg, c) && c.connected && Queueable(dg.msg)
    ensures Mirrors(cfg, OnQueueable(cfg, c, dg))
  {
    hide Lookup, OnDelete, OnMove, TryQueue, Mirrors;
    match dg.msg
    case DeleteRam(doId) =>
      TryQueueMirrors(cfg, c, doId, dg);
      OnDeleteMirrors(cfg, c, doId);
    case EnterLocation(e) => OnEnterLocationMirrors(cfg, c, dg, e);
    case ChangingLocation(doId, to) =>
      TryQueueMirrors(cfg, c, doId, dg);
      OnMoveMirrors(cfg, c, doId, to);
    case SetField(doId, field, data) =>
      TryQueueMirrors(cfg, c, doId, dg);
      if Lookup(cfg, c.objs, doId).Some? { UpdateMirrors(cfg, c, doId, FieldSet(doId, field, data)); }
    case SetFields(doId, count, data) =>
      TryQueueMirrors(cfg, c, doId, dg);
      if Lookup(cfg, c.objs, doId).Some? { UpdateMirrors(cfg, c, doId, FieldsSet(doId, count, data)); }
  }

  lemma {:induction false} ReplayMirrors(cfg: Config, c: Client, queue: seq<Datagram>)
    requires ValidConfig(cfg) && Mirrors(cfg, c)
    ensures Mirrors(cfg, Replay(cfg, c, queue))
    decreases |queue|
  {
    if queue != [] {
      if c.connected && Queueable(queue[0].msg) { OnQueueableMirrors(cfg, c, queue[0]); }
      ReplayMirrors(cfg, Redeliver(cfg, c, queue[0]), queue[1..]);
    }
  }

  lemma FinishMirrors(cfg: Config, c: Client, ctx: nat)
    requires ValidConfig(cfg) && Mirrors(cfg, c) && ctx in c.ints.ops
    ensures Mirrors(cfg, Finish(cfg, c, ctx))
  {
    var op := c.ints.ops[ctx];
    EnterAllMirrors(cfg, c, op.generates);
    var told := Publish(EnterAll(c, op.generates), DoneInterestResp(op.caller, op.interestId));
    SilentSend(cfg, told, InterestDone(op.clientContext, op.interestId));
    assert Mirrors(cfg, Settle(c, ctx));
    ReplayMirrors(cfg, Settle(c, ctx), op.queue);
  }

  lemma OnEnterOwnerMirrors(cfg: Config, c: Client, e: Entrance)
    requires Mirrors(cfg, c) && c.connected
    ensures Mirrors(cfg, OnEnterOwner(cfg, c, e))
  {
    NewsMirrors(cfg, c, TrackAvatar(cfg, Own(c, e), e), OwnerEntered(e));
  }

  lemma OnClassRespMirrors(cfg: Config, c: Client, ctx: nat, doId: DoId, dcId: nat)
    requires ValidConfig(cfg) && Mirrors(cfg, c)
    ensures Mirrors(cfg, OnClassResp(cfg, c, ctx, doId, dcId))
  {
    if ctx in c.avatar.lookups && dcId in cfg.rules {
      var d := c.(avatar := c.avatar.(lookups := c.avatar.lookups - {ctx}));
      ApplyRuleMirrors(cfg, d, c.avatar.lookups[ctx], cfg.rules[dcId]);
    }
  }

  lemma RenumberMirrors(cfg: Config, c: Client)
    requires Mirrors(cfg, c)
    ensures Mirrors(cfg, c.(nextContext := c.nextContext + 1))
  {}

  lemma OnAddInterestMirrors(cfg: Config, c: Client, i: Interest, caller: nat)
    requires ValidConfig(cfg) && Mirrors(cfg, c)
    ensures Mirrors(cfg, OnAddInterest(cfg, c, i, caller))
  {
    hide AddInterest, Mirrors, Send;
    var next := c.(nextContext := c.nextContext + 1);
    RenumberMirrors(cfg, c);
    SilentSend(cfg, next, InterestAdded(c.nextContext, i));
    AddInterestMirrors(cfg, Send(next, InterestAdded(c.nextContext, i)), i.(internal := false), c.nextContext, caller);
  }

  lemma OnRemoveInterestMirrors(cfg: Config, c: Client, id: nat, caller: nat)
    requires ValidConfig(cfg) && Mirrors(cfg, c)
    ensures Mirrors(cfg, OnRemoveInterest(cfg, c, id, caller))
  {
    hide RemoveInterest, Mirrors;
    var next := c.(nextContext := c.nextContext + 1);
    RenumberMirrors(cfg, c);
    SilentSend(cfg, next, InterestRemoved(c.nextContext, id));
    if id in c.ints.open {
      RemoveInterestMirrors(cfg, Send(next, InterestRemoved(c.nextContext, id)), id, c.nextContext, caller);
    }
  }

  lemma OnDeclareMirrors(cfg: Config, c: Client, m: Msg)
    requires Mirrors(cfg, c) && Declares(m)
    ensures Mirrors(cfg, OnDeclare(c, m))
  {
    if m.Declare? {
      MoreNames(c.sent, Named(cfg, c), Named(cfg, c) + {m.doId});
      assert Named(cfg, c) + {m.doId} == cfg.uberdogs.Keys + (c.history.declared + {m.doId});
    }
  }

  lemma OnEnterInterestMirrors(cfg: Config, c: Client, ctx: nat, e: Entrance)
    requires ValidConfig(cfg) && Mirrors(cfg, c)
    ensures Mirrors(cfg, OnEnterInterest(cfg, c, ctx, e))
  {
    if ctx in c.ints.ops {
      var op := c.ints.ops[ctx];
      var d := c.(objs := c.objs.(pending := c.objs.pending[e.doId := ctx]));
      FinishMirrors(cfg, SetOp(d, ctx, op.(generates := op.generates + [e])), ctx);
    }
  }

  lemma OnZonesCountMirrors(cfg: Config, c: Client, ctx: nat, count: nat)
    requires ValidConfig(cfg) && Mirrors(cfg, c)
    ensures Mirrors(cfg, OnZonesCount(cfg, c, ctx, count))
  {
    if ctx in c.ints.ops {
      var op := c.ints.ops[ctx];
      FinishMirrors(cfg, SetOp(c, ctx, op.(total := if op.total.None? then Some(count) else op.total)), ctx);
    }
  }

  lemma OnChangingOwnerMirrors(cfg: Config, c: Client, doId: DoId, newOwner: nat)
    requires Mirrors(cfg, c) && c.connected
    ensures Mirrors(cfg, OnChangingOwner(c, doId, newOwner))
  {
    DisconnectMirrors(cfg, c);
    assert c == c.(connected := true);
    if doId in c.objs.owned { LoseOwnershipMirrors(cfg, c, doId); }
  }

  lemma DispatchMirrors(cfg: Config, c: Client, dg: Datagram)
    requires ValidConfig(cfg) && Mirrors(cfg, c) && c.connected && !Queueable(dg.msg) && !Declares(dg.msg)
    ensures Mirrors(cfg, Dispatch(cfg, c, dg))
  {
    hide Mirrors, Shutdown, Disconnect, OnAddInterest, OnRemoveInterest, OnEnterOwner, OnEnterInterest, OnZonesCount,
         OnClassResp, OnChangingOwner;
    EndsMirror(cfg, c);
    match dg.msg
    case Eject =>
    case Drop =>
    case AddInterestMsg(i) => OnAddInterestMirrors(cfg, c, i, dg.sender);
    case RemoveInterestMsg(id) => OnRemoveInterestMirrors(cfg, c, id, dg.sender);
    case EnterOwner(e) => OnEnterOwnerMirrors(cfg, c, e);
    case EnterInterest(ctx, e) => OnEnterInterestMirrors(cfg, c, ctx, e);
    case ZonesCount(ctx, count) => OnZonesCountMirrors(cfg, c, ctx, count);
    case ClassResp(ctx, doId, dcId) => OnClassRespMirrors(cfg, c, ctx, doId, dcId);
    case ChangingOwner(doId, newOwner) => OnChangingOwnerMirrors(cfg, c, doId, newOwner);
  }

  lemma ReceiveMirrors(cfg: Config, c: Client, dg: Datagram)
    requires ValidConfig(cfg) && Mirrors(cfg, c) && c.connected
    ensures Mirrors(cfg, Receive(cfg, c, dg))
  {
    if Queueable(dg.msg) { OnQueueableMirrors(cfg, c, dg); }
    else if Declares(dg.msg) { OnDeclareMirrors(cfg, c, dg.msg); }
    else { DispatchMirrors(cfg, c, dg); }
  }

  lemma StepMirrors(cfg: Config, c: Client, ev: Event)
    requires ValidConfig(cfg) && Mirrors(cfg, c)
    ensures Mirrors(cfg, Step(cfg, c, ev))
  {
    if c.connected {
      DisconnectMirrors(cfg, c);
      assert c == c.(connected := true);
    }
    match ev
    case FromCluster(dg) => if c.connected { ReceiveMirrors(cfg, c, dg); }
    case ClientAdds(ctx, i) => AddInterestMirrors(cfg, c, i.(internal := false), ctx, 0);
    case ClientRemoves(ctx, id) => if id in c.ints.open { RemoveInterestMirrors(cfg, c, id, ctx, 0); }
    case OperationTimesOut(ctx) => if ctx in c.ints.ops { FinishMirrors(cfg, c, ctx); }
    case _ =>
  }

  /** In every run, every message sent to the client makes sense to it, and while it is
      connected its record is exactly what the agent believes. */
  lemma {:induction false} ClientMirrorsAgent(cfg: Config, channel: nat, events: seq<Event>)
    requires ValidConfig(cfg)
    ensures Mirrors(cfg, Run(cfg, channel, events))
    decreases |events|
  {
    if events != [] {
      ClientMirrorsAgent(cfg, channel, events[..|events| - 1]);
      StepMirrors(cfg, Run(cfg, channel, events[..|events| - 1]), events[|events| - 1]);
    }
  }
}
