/** The state of one client of the client agent, and what each message does to it, as
    functions on that state. ClientParticipant implements them in place. */
module InterestModel {
  import opened Common
  import opened ParentingRule

  type DoId = nat

  const INVALID: nat := 0

  datatype Location = Location(parent: DoId, zone: nat)

  datatype Object = Object(dcId: nat, at: Location)

  /** `internal` interests are opened by the agent for a parenting rule. */
  datatype Interest = Interest(id: nat, parent: DoId, zones: set<nat>, internal: bool)

  /* ---- Messages ---- */

  datatype Entrance = Entrance(doId: DoId, at: Location, dcId: nat, other: bool, data: seq<int>)

  datatype Msg =
    | Eject
    | Drop
    | AddInterestMsg(interest: Interest)
    | RemoveInterestMsg(id: nat)
    | Declare(doId: DoId, dcId: nat)
    | Undeclare(doId: DoId)
    | AddSession(doId: DoId)
    | RemoveSession(doId: DoId)
    | SetField(doId: DoId, field: nat, data: seq<int>)
    | SetFields(doId: DoId, count: nat, data: seq<int>)
    | DeleteRam(doId: DoId)
    | EnterOwner(entrance: Entrance)
    | EnterLocation(entrance: Entrance)
    | EnterInterest(ctx: nat, entrance: Entrance)
    | ZonesCount(ctx: nat, count: nat)
    | ClassResp(ctx: nat, doId: DoId, dcId: nat)
    | ChangingLocation(doId: DoId, to: Location)
    | ChangingOwner(doId: DoId, newOwner: nat)

  datatype Datagram = Datagram(sender: nat, msg: Msg)

  /** What the client is sent. */
  datatype ToClient =
    | Ejected
    | Entered(entrance: Entrance)
    | FieldSet(doId: DoId, field: nat, data: seq<int>)
    | FieldsSet(doId: DoId, count: nat, data: seq<int>)
    | Moved(doId: DoId, to: Location)
    | Leaving(doId: DoId)
    | OwnerEntered(entrance: Entrance)
    | OwnerLeaving(doId: DoId)
    | InterestAdded(ctx: nat, interest: Interest)
    | InterestRemoved(ctx: nat, id: nat)
    | InterestDone(ctx: nat, id: nat)

  /** What is published to the rest of the cluster. */
  datatype ToCluster =
    | GetZonesObjects(ctx: nat, parent: DoId, zones: set<nat>)
    | GetClass(ctx: nat, parent: DoId)
    | DoneInterestResp(caller: nat, id: nat)
    | AllDone(resps: map<nat, ToCluster>)
    | DeleteSessionObjects(doIds: set<DoId>)

  /* ---- State ---- */

  /** An InterestOperation: the entrances it was promised and the messages it holds
      back until they have all arrived. */
  datatype Operation = Operation(
    interestId: nat, clientContext: nat, parent: DoId, zones: set<nat>, caller: nat,
    total: Option<nat>, generates: seq<Entrance>, queue: seq<Datagram>)

  datatype AvatarRule = AvatarRule(parent: DoId, rule: Rule, interestId: nat)

  datatype Objects = Objects(
    seen: set<DoId>, visible: map<DoId, Object>, owned: map<DoId, Object>,
    session: set<DoId>, declared: map<DoId, nat>, pending: map<DoId, nat>)

  datatype Interests = Interests(
    open: map<nat, Interest>, ops: map<nat, Operation>, subscribed: set<Location>)

  datatype Avatar = Avatar(
    doId: DoId, at: Location, rule: Option<AvatarRule>, lookups: map<nat, DoId>, nextId: nat)

  /** What no handler reads but the properties speak of: every id declared so far, the
      operations finished so far, the locations of the operation whose queue is being
      replayed, whether an operation was ever opened on a location that another one was
      still loading, and whether a pending object ever led to an operation that is gone. */
  datatype History = History(
    declared: set<DoId>, finished: multiset<nat>, replaying: set<Location>, overlap: bool, dangling: bool)

  datatype Client = Client(
    connected: bool, channel: nat, nextContext: nat,
    objs: Objects, ints: Interests, avatar: Avatar,
    sent: seq<ToClient>, published: seq<ToCluster>, history: History)

  datatype Permission = Disabled | Visible | Enabled

  /** Everything that does not change while a client is connected. `order` is the order
      in which a hash table with the given keys is iterated; it may differ from one
      moment to the next, which the length of the trace stands for. */
  datatype Config = Config(
    uberdogs: map<DoId, nat>, classes: set<nat>, rules: map<nat, Rule>, avatarClasses: set<nat>,
    parentingRules: bool, permission: Permission, zoneAllowed: nat -> bool,
    order: (nat, set<nat>) -> seq<nat>)

  ghost predicate Enumerates(s: seq<nat>, keys: set<nat>) {
    && (forall i :: 0 <= i < |s| ==> s[i] in keys)
    && (forall k :: k in keys ==> k in s)
    && (forall i, j :: 0 <= i < j < |s| ==> s[i] != s[j])
  }

  ghost predicate ValidConfig(cfg: Config) {
    && (forall n, keys :: Enumerates(cfg.order(n, keys), keys))
    && (forall k :: k in cfg.rules && cfg.rules[k].Cartesian? ==>
          AcceptsGrid(cfg.rules[k].start, cfg.rules[k].size, cfg.rules[k].radius))
  }

  /** One of the orders in which the keys may come. */
  ghost function SomeOrder(keys: set<nat>): seq<nat>
    decreases keys
  {
    if keys == {} then [] else
      var k :| k in keys;
      [k] + SomeOrder(keys - {k})
  }

  lemma {:induction false} SomeOrderEnumerates(keys: set<nat>)
    ensures Enumerates(SomeOrder(keys), keys)
    decreases keys
  {
    if keys != {} {
      var s := SomeOrder(keys);
      var k := s[0];
      assert s == [k] + SomeOrder(keys - {k});
      SomeOrderEnumerates(keys - {k});
    }
  }

  /** Any settings whose rules were accepted are those of a valid configuration. */
  lemma ConfigsExist(cfg: Config)
    requires forall k :: k in cfg.rules && cfg.rules[k].Cartesian? ==>
               AcceptsGrid(cfg.rules[k].start, cfg.rules[k].size, cfg.rules[k].radius)
    ensures ValidConfig(cfg.(order := (n, keys) => SomeOrder(keys)))
  {
    hide SomeOrder, Enumerates, AcceptsGrid;
    var d := cfg.(order := (n, keys) => SomeOrder(keys));
    forall n, keys ensures Enumerates(d.order(n, keys), keys) { SomeOrderEnumerates(keys); }
  }

  function Initial(channel: nat): Client {
    Client(true, channel, 0,
           Objects({}, map[], map[], {}, map[], map[]),
           Interests(map[], map[], {}),
           Avatar(INVALID, Location(INVALID, INVALID), None, map[], 0xF000),
           [], [], History({}, multiset{}, {}, false, false))
  }

  /* ---- Small steps ---- */

  function Send(c: Client, m: ToClient): Client {
    if c.connected then c.(sent := c.sent + [m]) else c
  }

  function Publish(c: Client, m: ToCluster): Client {
    c.(published := c.published + [m])
  }

  /** The answers for all pending operations, in some order. */
  function AnswerAll(ops: map<nat, Operation>): ToCluster {
    AllDone(map k | k in ops :: DoneInterestResp(ops[k].caller, ops[k].interestId))
  }

  /** Shutdown(): every pending operation is finished, session objects are deleted and
      all subscriptions are dropped. Nothing reaches the client any more. */
  function Shutdown(c: Client): Client {
    if !c.connected then c
    else
      c.(connected := false,
         avatar := c.avatar.(rule := None, lookups := map[]),
         ints := c.ints.(ops := map[], subscribed := {}),
         objs := c.objs.(session := {}),
         history := c.history.(finished := c.history.finished + multiset(c.ints.ops.Keys)),
         published := c.published + [AnswerAll(c.ints.ops), DeleteSessionObjects(c.objs.session)])
  }

  function Disconnect(c: Client): Client {
    if !c.connected then c else Shutdown(Send(c, Ejected))
  }

  function ClassOf(cfg: Config, dcId: nat): Option<nat> {
    if dcId in cfg.classes then Some(dcId) else None
  }

  /** LookupObject(): the class of an object this client may know about. */
  function Lookup(cfg: Config, o: Objects, doId: DoId): Option<nat> {
    if doId in cfg.uberdogs then Some(cfg.uberdogs[doId])
    else if doId in o.owned then ClassOf(cfg, o.owned[doId].dcId)
    else if doId in o.seen && doId in o.visible then ClassOf(cfg, o.visible[doId].dcId)
    else if doId in o.declared then ClassOf(cfg, o.declared[doId])
    else None
  }

  predicate Covers(i: Interest, at: Location) {
    i.parent == at.parent && at.zone in i.zones
  }

  predicate Covered(open: map<nat, Interest>, at: Location) {
    exists id :: id in open && Covers(open[id], at)
  }

  predicate CoveredByOther(open: map<nat, Interest>, at: Location, id: nat) {
    exists k :: k in open && k != id && Covers(open[k], at)
  }

  function Locations(parent: DoId, zones: set<nat>): set<Location> {
    set z | z in zones :: Location(parent, z)
  }

  /* ---- Closing zones ---- */

  predicate Doomed(o: Objects, parent: DoId, killed: set<nat>, doId: DoId) {
    doId in o.visible && o.visible[doId].at.parent == parent && o.visible[doId].at.zone in killed
  }

  /** The visible objects in closed zones, in iteration order, up to the first session
      object: those the client is told about. */
  function Victims(o: Objects, parent: DoId, killed: set<nat>, order: seq<DoId>): seq<DoId> {
    if order == [] then []
    else if !Doomed(o, parent, killed, order[0]) then Victims(o, parent, killed, order[1..])
    else if order[0] in o.session then []
    else [order[0]] + Victims(o, parent, killed, order[1..])
  }

  predicate ClosesSession(o: Objects, parent: DoId, killed: set<nat>) {
    exists doId :: doId in o.session && Doomed(o, parent, killed, doId)
  }

  function Leavings(doIds: seq<DoId>): seq<ToClient> {
    if doIds == [] then [] else [Leaving(doIds[0])] + Leavings(doIds[1..])
  }

  function ToSet(s: seq<DoId>): set<DoId> {
    set x | x in s
  }

  /** CloseZones(): the client is told that every visible object in the zones leaves,
      and the location channels are unsubscribed; but a session object among them ends
      the connection. */
  function CloseZones(cfg: Config, c: Client, parent: DoId, killed: set<nat>): Client {
    var gone := Victims(c.objs, parent, killed, cfg.order(|c.sent|, c.objs.visible.Keys));
    var told := c.(sent := if c.connected then c.sent + Leavings(gone) else c.sent,
                   objs := c.objs.(seen := c.objs.seen - ToSet(gone)));
    if ClosesSession(c.objs, parent, killed) then Disconnect(told)
    else told.(objs := told.objs.(visible := c.objs.visible - ToSet(gone)),
               ints := c.ints.(subscribed := c.ints.subscribed - Locations(parent, killed)))
  }

  /* ---- Interests ---- */

  /** HandleInterestDone(): internal interests are invisible to the client. */
  function TellDone(c: Client, id: nat, ctx: nat): Client {
    if id in c.ints.open && c.ints.open[id].internal then c else Send(c, InterestDone(ctx, id))
  }

  function NotifyDone(c: Client, id: nat, caller: nat): Client {
    if caller == 0 then c else Publish(c, DoneInterestResp(caller, id))
  }

  /** MaybeApplyAutoRule(). */
  function Extend(cfg: Config, c: Client, i: Interest): Interest {
    var cls := Lookup(cfg, c.objs, i.parent);
    if i.internal || cls.None? || cls.value !in cfg.rules then i
    else
      match cfg.rules[cls.value]
      case Auto(origin, extras) => if origin in i.zones then i.(zones := i.zones + extras) else i
      case _ => i
  }

  function NewZones(open: map<nat, Interest>, i: Interest): set<nat> {
    set z | z in i.zones && !Covered(open, Location(i.parent, z))
  }

  /** The zones that only the interest being replaced was keeping open. */
  function KilledZones(open: map<nat, Interest>, i: Interest): set<nat>
    requires i.id in open
  {
    var prev := open[i.id];
    set z | z in prev.zones && !CoveredByOther(open, Location(prev.parent, z), i.id)
            && (i.parent != prev.parent || z !in i.zones)
  }

  function OpLocations(op: Operation): set<Location> {
    Locations(op.parent, op.zones)
  }

  predicate Overlaps(c: Client, at: set<Location>) {
    !(at !! c.history.replaying) || exists k :: k in c.ints.ops && !(at !! OpLocations(c.ints.ops[k]))
  }

  /** The operation that asks the state server for the objects of newly opened zones. */
  function OpenOperation(c: Client, i: Interest, zones: set<nat>, ctx: nat, caller: nat): Client {
    var request := c.nextContext;
    var op := Operation(i.id, ctx, i.parent, zones, caller, None, [], []);
    var at := Locations(i.parent, zones);
    c.(nextContext := c.nextContext + 1,
       ints := c.ints.(ops := c.ints.ops[request := op], subscribed := c.ints.subscribed + at),
       published := c.published + [GetZonesObjects(request, i.parent, zones)],
       history := c.history.(overlap := c.history.overlap || Overlaps(c, at)))
  }

  predicate ReplacingClosesSession(c: Client, i: Interest) {
    i.id in c.ints.open && ClosesSession(c.objs, c.ints.open[i.id].parent, KilledZones(c.ints.open, i))
  }

  function CloseReplaced(cfg: Config, c: Client, i: Interest): Client {
    if i.id in c.ints.open then CloseZones(cfg, c, c.ints.open[i.id].parent, KilledZones(c.ints.open, i)) else c
  }

  function Record(c: Client, i: Interest): Client {
    c.(ints := c.ints.(open := c.ints.open[i.id := i]))
  }

  function Load(c: Client, i: Interest, zones: set<nat>, ctx: nat, caller: nat): Client {
    if zones == {} then TellDone(NotifyDone(c, i.id, caller), i.id, ctx)
    else OpenOperation(c, i, zones, ctx, caller)
  }

  function AddInterest(cfg: Config, c: Client, given: Interest, ctx: nat, caller: nat): Client {
    var i := Extend(cfg, c, given);
    var closed := CloseReplaced(cfg, c, i);
    if ReplacingClosesSession(c, i) then closed
    else Load(Record(closed, i), i, NewZones(c.ints.open, i), ctx, caller)
  }

  function SoleZones(open: map<nat, Interest>, id: nat): set<nat>
    requires id in open
  {
    set z | z in open[id].zones && !CoveredByOther(open, Location(open[id].parent, z), id)
  }

  function RemoveInterest(cfg: Config, c: Client, id: nat, ctx: nat, caller: nat): Client
    requires id in c.ints.open
  {
    var i := c.ints.open[id];
    var killed := SoleZones(c.ints.open, id);
    var closed := CloseZones(cfg, c, i.parent, killed);
    if ClosesSession(c.objs, i.parent, killed) then closed
    else
      var told := TellDone(NotifyDone(closed, id, caller), id, ctx);
      told.(ints := told.ints.(open := told.ints.open - {id}))
  }

  /* ---- Parenting rules ---- */

  function RequestClass(c: Client, parent: DoId): Client {
    if parent == INVALID then c
    else
      var ctx := c.nextContext;
      c.(nextContext := ctx + 1, avatar := c.avatar.(lookups := c.avatar.lookups[ctx := parent]),
         published := c.published + [GetClass(ctx, parent)])
  }

  /** AllocateInternalInterestId(): the first free id from the cursor, 0 when all of
      0xF000 to 0xFFFF are taken. The second result is the new cursor. */
  function Allocate(open: map<nat, Interest>, start: nat, tries: nat): (nat, nat)
    decreases tries
  {
    var next := if start + 1 == 0x1_0000 then 0xF000 else start + 1;
    if start !in open then (start, next)
    else if tries <= 1 then (0, next)
    else Allocate(open, next, tries - 1)
  }

  const INTERNAL_IDS: nat := 0x1000

  /** The zones a rule wants open; only Follow and Cartesian want any. */
  function RuleZones(rule: Rule, zone: nat): set<nat> {
    match rule
    case Follow => if zone != INVALID then {zone} else {}
    case Cartesian(_, _, _) => Window(rule, zone)
    case _ => {}
  }

  predicate Tracks(rule: Rule) {
    rule.Follow? || rule.Cartesian?
  }

  /** ApplyAvatarParentRule(). */
  function ApplyRule(cfg: Config, c: Client, parent: DoId, rule: Rule): Client {
    if !Tracks(rule) then c.(avatar := c.avatar.(rule := Some(AvatarRule(parent, rule, 0))))
    else
      var zones := RuleZones(rule, c.avatar.at.zone);
      var (id, next) := Allocate(c.ints.open, c.avatar.nextId, INTERNAL_IDS);
      var d := c.(avatar := c.avatar.(nextId := next, rule := Some(AvatarRule(parent, rule, id))));
      if zones == {} then d else AddInterest(cfg, d, Interest(id, parent, zones, true), 0, 0)
  }

  /** UpdateAvatarParentRule(). */
  function UpdateRule(cfg: Config, c: Client): Client {
    if c.avatar.rule.None? || !Tracks(c.avatar.rule.value.rule) then c
    else
      var r := c.avatar.rule.value;
      var zones := RuleZones(r.rule, c.avatar.at.zone);
      if r.interestId in c.ints.open then
        AddInterest(cfg, c, c.ints.open[r.interestId].(zones := zones, internal := true), 0, 0)
      else if zones == {} then c
      else AddInterest(cfg, c, Interest(r.interestId, r.parent, zones, true), 0, 0)
  }

  /** ClearAvatarParentRule(). */
  function ClearRule(cfg: Config, c: Client): Client {
    if c.avatar.rule.None? then c
    else
      var id := c.avatar.rule.value.interestId;
      var d := if id in c.ints.open then RemoveInterest(cfg, c, id, 0, 0) else c;
      d.(avatar := d.avatar.(rule := None))
  }

  /* ---- Objects ---- */

  /** HandleObjectEntrance(). */
  function Enter(c: Client, e: Entrance): Client {
    var o := c.objs.(pending := c.objs.pending - {e.doId});
    if e.doId in o.seen || (e.doId in o.owned && e.doId in o.session) then c.(objs := o)
    else
      var visible := if e.doId in o.visible then o.visible else o.visible[e.doId := Object(e.dcId, e.at)];
      Send(c.(objs := o.(visible := visible, seen := o.seen + {e.doId})), Entered(e))
  }

  /** HandleRemoveOwnership() and erasing the owned object. */
  function LoseOwnership(c: Client, doId: DoId): Client {
    var a := if c.avatar.doId == doId
             then c.avatar.(doId := INVALID, at := Location(INVALID, INVALID)) else c.avatar;
    Send(c.(avatar := a, objs := c.objs.(owned := c.objs.owned - {doId})), OwnerLeaving(doId))
  }

  /** The avatar's parenting rule follows it to a new location. */
  function MoveAvatar(cfg: Config, c: Client, to: Location): Client {
    var moved := c.(avatar := c.avatar.(at := to));
    if !cfg.parentingRules then moved
    else if to.parent != c.avatar.at.parent then RequestClass(ClearRule(cfg, moved), to.parent)
    else if c.avatar.rule.Some? && c.avatar.rule.value.parent == to.parent then UpdateRule(cfg, moved)
    else moved
  }

  /** HandleChangeLocation(). */
  function ChangeLocation(cfg: Config, c: Client, doId: DoId, to: Location): Client {
    Send(if c.avatar.doId == doId then MoveAvatar(cfg, c, to) else c, Moved(doId, to))
  }

  /** TryQueuePending(): a pending object's messages wait for its operation; anyone
      else's are dropped. */
  function TryQueue(c: Client, doId: DoId, dg: Datagram): Client {
    if doId !in c.objs.pending then c
    else if c.objs.pending[doId] in c.ints.ops then Append(c, c.objs.pending[doId], dg)
    else c.(history := c.history.(dangling := true))
  }

  function Append(c: Client, ctx: nat, dg: Datagram): Client
    requires ctx in c.ints.ops
  {
    var op := c.ints.ops[ctx];
    c.(ints := c.ints.(ops := c.ints.ops[ctx := op.(queue := op.queue + [dg])]))
  }

  /** The first operation, in iteration order, that is loading the location. */
  function Loading(ops: map<nat, Operation>, at: Location, order: seq<nat>): Option<nat> {
    if order == [] then None
    else if order[0] in ops && at in OpLocations(ops[order[0]]) then Some(order[0])
    else Loading(ops, at, order[1..])
  }

  function DropVisible(c: Client, doId: DoId): Client {
    Send(c.(objs := c.objs.(seen := c.objs.seen - {doId}, visible := c.objs.visible - {doId})), Leaving(doId))
  }

  function OnDelete(cfg: Config, c: Client, doId: DoId): Client {
    if doId in c.objs.session then Disconnect(c.(objs := c.objs.(session := c.objs.session - {doId})))
    else
      var d := if doId in c.objs.seen then DropVisible(c, doId) else c;
      var e := if doId in d.objs.owned then LoseOwnership(d, doId) else d;
      e.(objs := e.objs.(visible := e.objs.visible - {doId}))
  }

  function Relocate(objects: map<DoId, Object>, doId: DoId, to: Location): map<DoId, Object> {
    if doId in objects then objects[doId := objects[doId].(at := to)] else objects
  }

  function OnMove(cfg: Config, c: Client, doId: DoId, to: Location): Client {
    var visible, owned := doId in c.objs.visible, doId in c.objs.owned;
    if !visible && !owned then c
    else
      var d := c.(objs := c.objs.(visible := Relocate(c.objs.visible, doId, to), owned := Relocate(c.objs.owned, doId, to)));
      if Covered(c.ints.open, to) || !visible || (doId in c.objs.session && owned) then ChangeLocation(cfg, d, doId, to)
      else if doId in c.objs.session then Disconnect(d)
      else DropVisible(d, doId)
  }

  function OnEnterLocation(cfg: Config, c: Client, dg: Datagram, e: Entrance): Client {
    var op := Loading(c.ints.ops, e.at, cfg.order(|c.sent|, c.ints.ops.Keys));
    if op.None? || op.value !in c.ints.ops then Enter(c, e)
    else
      var d := Append(c, op.value, dg);
      if e.doId in d.objs.pending then d
      else d.(objs := d.objs.(pending := d.objs.pending[e.doId := op.value]))
  }

  /** The messages that an operation may hold back. */
  predicate Queueable(m: Msg) {
    m.SetField? || m.SetFields? || m.DeleteRam? || m.EnterLocation? || m.ChangingLocation?
  }

  function OnQueueable(cfg: Config, c: Client, dg: Datagram): Client
    requires Queueable(dg.msg)
  {
    match dg.msg
    case SetField(doId, field, data) =>
      if Lookup(cfg, c.objs, doId).Some? then Send(c, FieldSet(doId, field, data))
      else TryQueue(c, doId, dg)
    case SetFields(doId, count, data) =>
      if Lookup(cfg, c.objs, doId).Some? then Send(c, FieldsSet(doId, count, data))
      else TryQueue(c, doId, dg)
    case DeleteRam(doId) =>
      if Lookup(cfg, c.objs, doId).Some? then OnDelete(cfg, c, doId)
      else TryQueue(c, doId, dg)
    case EnterLocation(e) => OnEnterLocation(cfg, c, dg, e)
    case ChangingLocation(doId, to) =>
      if doId in c.objs.pending then TryQueue(c, doId, dg) else OnMove(cfg, c, doId, to)
  }

  /* ---- Operations ---- */

  function EnterAll(c: Client, es: seq<Entrance>): Client
    decreases |es|
  {
    if es == [] then c else EnterAll(Enter(c, es[0]), es[1..])
  }

  /** Dispatching a held-back message: as if it had just arrived. */
  function Redeliver(cfg: Config, c: Client, dg: Datagram): Client {
    if !c.connected || dg.sender == c.channel || !Queueable(dg.msg) then c else OnQueueable(cfg, c, dg)
  }

  function Replay(cfg: Config, c: Client, queue: seq<Datagram>): Client
    decreases |queue|
  {
    if queue == [] then c else Replay(cfg, Redeliver(cfg, c, queue[0]), queue[1..])
  }

  /** Up to the moment when the held-back messages are dispatched. */
  function Settle(c: Client, ctx: nat): Client
    requires ctx in c.ints.ops
  {
    var op := c.ints.ops[ctx];
    var entered := EnterAll(c, op.generates);
    var told := TellDone(Publish(entered, DoneInterestResp(op.caller, op.interestId)), op.interestId, op.clientContext);
    told.(ints := told.ints.(ops := told.ints.ops - {ctx}),
          history := told.history.(finished := told.history.finished + multiset{ctx}, replaying := OpLocations(op)))
  }

  /** InterestOperation::Finish(). */
  function Finish(cfg: Config, c: Client, ctx: nat): Client
    requires ctx in c.ints.ops
  {
    var d := Replay(cfg, Settle(c, ctx), c.ints.ops[ctx].queue);
    d.(history := d.history.(replaying := {}))
  }

  predicate IsReady(op: Operation) {
    op.total.Some? && |op.generates| >= op.total.value
  }

  function FinishIfReady(cfg: Config, c: Client, ctx: nat): Client
    requires ctx in c.ints.ops
  {
    if IsReady(c.ints.ops[ctx]) then Finish(cfg, c, ctx) else c
  }

  function SetOp(c: Client, ctx: nat, op: Operation): Client {
    c.(ints := c.ints.(ops := c.ints.ops[ctx := op]))
  }

  /* ---- Dispatch ---- */

  function Own(c: Client, e: Entrance): Client {
    if e.doId in c.objs.owned then c
    else c.(objs := c.objs.(owned := c.objs.owned[e.doId := Object(e.dcId, e.at)]))
  }

  /** HandleAddOwnership(): the configured avatar class is the one whose location is tracked. */
  function TrackAvatar(cfg: Config, c: Client, e: Entrance): Client
    requires e.doId in c.objs.owned
  {
    if c.objs.owned[e.doId].dcId !in cfg.classes || c.objs.owned[e.doId].dcId !in cfg.avatarClasses then c
    else
      var a := c.(avatar := c.avatar.(doId := e.doId, at := e.at));
      if cfg.parentingRules then RequestClass(a, e.at.parent) else a
  }

  function OnEnterOwner(cfg: Config, c: Client, e: Entrance): Client {
    Send(TrackAvatar(cfg, Own(c, e), e), OwnerEntered(e))
  }

  function OnClassResp(cfg: Config, c: Client, ctx: nat, doId: DoId, dcId: nat): Client {
    if ctx !in c.avatar.lookups then c
    else
      var parent := c.avatar.lookups[ctx];
      var d := c.(avatar := c.avatar.(lookups := c.avatar.lookups - {ctx}));
      if doId != parent || d.avatar.at.parent != parent || dcId !in cfg.classes then d
      else if d.avatar.rule.Some? && d.avatar.rule.value.parent == parent then d
      else if dcId !in cfg.rules then d.(avatar := d.avatar.(rule := Some(AvatarRule(parent, Stated, 0))))
      else ApplyRule(cfg, d, parent, cfg.rules[dcId])
  }

  function OnAddInterest(cfg: Config, c: Client, i: Interest, caller: nat): Client {
    var ctx := c.nextContext;
    AddInterest(cfg, Send(c.(nextContext := ctx + 1), InterestAdded(ctx, i)), i.(internal := false), ctx, caller)
  }

  function OnRemoveInterest(cfg: Config, c: Client, id: nat, caller: nat): Client {
    var ctx := c.nextContext;
    var next := c.(nextContext := ctx + 1);
    if id !in c.ints.open then next
    else RemoveInterest(cfg, Send(next, InterestRemoved(ctx, id)), id, ctx, caller)
  }

  /** Messages that only change what the client may know of or lives with. */
  predicate Declares(m: Msg) {
    m.Declare? || m.Undeclare? || m.AddSession? || m.RemoveSession?
  }

  function OnDeclare(c: Client, m: Msg): Client
    requires Declares(m)
  {
    match m
    case Declare(doId, dcId) =>
      if doId in c.objs.declared then c
      else c.(objs := c.objs.(declared := c.objs.declared[doId := dcId]),
              history := c.history.(declared := c.history.declared + {doId}))
    case Undeclare(doId) => c.(objs := c.objs.(declared := c.objs.declared - {doId}))
    case AddSession(doId) => c.(objs := c.objs.(session := c.objs.session + {doId}))
    case RemoveSession(doId) => c.(objs := c.objs.(session := c.objs.session - {doId}))
  }

  /** QueueExpected() */
  function OnEnterInterest(cfg: Config, c: Client, ctx: nat, e: Entrance): Client {
    if ctx !in c.ints.ops then c
    else
      var op := c.ints.ops[ctx];
      var d := c.(objs := c.objs.(pending := c.objs.pending[e.doId := ctx]));
      FinishIfReady(cfg, SetOp(d, ctx, op.(generates := op.generates + [e])), ctx)
  }

  /** SetExpected() */
  function OnZonesCount(cfg: Config, c: Client, ctx: nat, count: nat): Client {
    if ctx !in c.ints.ops then c
    else
      var op := c.ints.ops[ctx];
      FinishIfReady(cfg, SetOp(c, ctx, op.(total := if op.total.None? then Some(count) else op.total)), ctx)
  }

  function OnChangingOwner(c: Client, doId: DoId, newOwner: nat): Client {
    if newOwner == c.channel || doId !in c.objs.owned then c
    else if doId in c.objs.session then Disconnect(c)
    else LoseOwnership(c, doId)
  }

  /** HandleDatagram(). */
  function Receive(cfg: Config, c: Client, dg: Datagram): Client {
    if !c.connected || dg.sender == c.channel then c
    else if Queueable(dg.msg) then OnQueueable(cfg, c, dg)
    else if Declares(dg.msg) then OnDeclare(c, dg.msg)
    else Dispatch(cfg, c, dg)
  }

  function Dispatch(cfg: Config, c: Client, dg: Datagram): Client
    requires !Queueable(dg.msg) && !Declares(dg.msg)
  {
    match dg.msg
    case Eject => Disconnect(c)
    case Drop => Shutdown(c)
    case AddInterestMsg(i) => OnAddInterest(cfg, c, i, dg.sender)
    case RemoveInterestMsg(id) => OnRemoveInterest(cfg, c, id, dg.sender)
    case EnterOwner(e) => OnEnterOwner(cfg, c, e)
    case EnterInterest(ctx, e) => OnEnterInterest(cfg, c, ctx, e)
    case ZonesCount(ctx, count) => OnZonesCount(cfg, c, ctx, count)
    case ClassResp(ctx, doId, dcId) => OnClassResp(cfg, c, ctx, doId, dcId)
    case ChangingOwner(doId, newOwner) => OnChangingOwner(c, doId, newOwner)
  }

  /** What else can happen: requests of the client itself, time-outs, and the end of the
      connection. */
  datatype Event =
    | FromCluster(dg: Datagram)
    | ClientAdds(ctx: nat, interest: Interest)
    | ClientRemoves(ctx: nat, id: nat)
    | OperationTimesOut(ctx: nat)
    | LookupTimesOut(ctx: nat)
    | ConnectionEnds

  function OnClientAdd(cfg: Config, c: Client, i: Interest, ctx: nat): Client {
    if !c.connected then c
    else if cfg.permission.Disabled? || (cfg.permission.Visible? && Lookup(cfg, c.objs, i.parent).None?)
            || exists z :: z in i.zones && !cfg.zoneAllowed(z)
    then Disconnect(c)
    else AddInterest(cfg, c, i.(internal := false), ctx, 0)
  }

  function OnClientRemove(cfg: Config, c: Client, id: nat, ctx: nat): Client {
    if !c.connected then c
    else if cfg.permission.Disabled? || id !in c.ints.open
            || (cfg.permission.Visible? && Lookup(cfg, c.objs, c.ints.open[id].parent).None?)
    then Disconnect(c)
    else RemoveInterest(cfg, c, id, ctx, 0)
  }

  function Step(cfg: Config, c: Client, ev: Event): Client {
    match ev
    case FromCluster(dg) => Receive(cfg, c, dg)
    case ClientAdds(ctx, i) => OnClientAdd(cfg, c, i, ctx)
    case ClientRemoves(ctx, id) => OnClientRemove(cfg, c, id, ctx)
    case OperationTimesOut(ctx) => if ctx in c.ints.ops then Finish(cfg, c, ctx) else c
    case LookupTimesOut(ctx) => c.(avatar := c.avatar.(lookups := c.avatar.lookups - {ctx}))
    case ConnectionEnds => Shutdown(c)
  }

  /** The state after a run. */
  function Run(cfg: Config, channel: nat, events: seq<Event>): Client
    decreases |events|
  {
    if events == [] then Initial(channel)
    else Step(cfg, Run(cfg, channel, events[..|events| - 1]), events[|events| - 1])
  }
}
