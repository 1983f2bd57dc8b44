/** What every event does to a client, in terms of what was there before: who is told what,
    which objects are known afterwards, what is held back, and that nothing else changes. */
module InterestEffects {
  import opened Common
  import opened ParentingRule
  import opened InterestModel

  /** A message of the cluster. */
  function News(sender: nat, msg: Msg): Event {
    FromCluster(Datagram(sender, msg))
  }

  /** The client is there, and the message is not its own. */
  predicate Arrives(c: Client, sender: nat) {
    c.connected && sender != c.channel
  }

  /** What a client says itself comes back to it and is ignored, and once it is gone
      everything is. */
  lemma OwnMessagesAreIgnored(cfg: Config, c: Client, sender: nat, msg: Msg)
    requires !Arrives(c, sender)
    ensures Step(cfg, c, News(sender, msg)) == c
  {
  }

  lemma GoneIsGone(cfg: Config, c: Client, ev: Event)
    requires !c.connected && !ev.LookupTimesOut? && !ev.OperationTimesOut?
    ensures Step(cfg, c, ev) == c
  {
  }

  /* ---- Objects that the client may know of ---- */

  /** The class of an object is looked for among the UberDOGs, what the client owns, what it
      sees and what was declared to it, in this order, and must be a class of the .dc file. */
  predicate Known(cfg: Config, o: Objects, doId: DoId) {
    || doId in cfg.uberdogs
    || (if doId in o.owned then o.owned[doId].dcId in cfg.classes
        else if doId in o.seen && doId in o.visible then o.visible[doId].dcId in cfg.classes
        else doId in o.declared && o.declared[doId] in cfg.classes)
  }

  /** A message about an object that is still loading waits at its operation; about any other
      it is dropped, and the history notes when the operation is gone. */
  ghost predicate Waits(c: Client, doId: DoId, dg: Datagram, d: Client) {
    if doId !in c.objs.pending then d == c
    else
      var k := c.objs.pending[doId];
      if k !in c.ints.ops then d == c.(history := c.history.(dangling := true))
      else d == c.(ints := c.ints.(ops := c.ints.ops[k := c.ints.ops[k].(queue := c.ints.ops[k].queue + [dg])]))
  }

  /** A field of a known object reaches the client. */
  lemma FieldsReachTheClient(cfg: Config, c: Client, sender: nat, doId: DoId, n: nat, data: seq<int>)
    requires Arrives(c, sender)
    ensures var d := Step(cfg, c, News(sender, SetField(doId, n, data)));
            if Known(cfg, c.objs, doId) then d == c.(sent := c.sent + [FieldSet(doId, n, data)])
            else Waits(c, doId, Datagram(sender, SetField(doId, n, data)), d)
    ensures var d := Step(cfg, c, News(sender, SetFields(doId, n, data)));
            if Known(cfg, c.objs, doId) then d == c.(sent := c.sent + [FieldsSet(doId, n, data)])
            else Waits(c, doId, Datagram(sender, SetFields(doId, n, data)), d)
  {
  }

  /** The objects of a connection that ends: its session objects go with it. */
  ghost predicate Ended(c: Client, d: Client) {
    && d.objs == c.objs.(session := {})
    && d.ints == c.ints.(ops := map[], subscribed := {})
    && d.avatar == c.avatar.(rule := None, lookups := map[])
    && d.published == c.published + [
         AllDone(map k | k in c.ints.ops :: DoneInterestResp(c.ints.ops[k].caller, c.ints.ops[k].interestId)),
         DeleteSessionObjects(c.objs.session)]
    && d == c.(connected := false, objs := d.objs, ints := d.ints, avatar := d.avatar,
               published := d.published, history := d.history)
  }

  lemma ConnectionsEnd(cfg: Config, c: Client, sender: nat)
    requires Arrives(c, sender)
    ensures Ended(c.(sent := c.sent + [Ejected]), Step(cfg, c, News(sender, Eject)))
    ensures Ended(c, Step(cfg, c, News(sender, Drop))) && Ended(c, Step(cfg, c, ConnectionEnds))
  {
  }

  /** A deleted object leaves the view, and the client's possession. */
  lemma DeletedObjectsLeave(cfg: Config, c: Client, sender: nat, doId: DoId)
    requires Arrives(c, sender)
    ensures var d := Step(cfg, c, News(sender, DeleteRam(doId)));
            if !Known(cfg, c.objs, doId) then Waits(c, doId, Datagram(sender, DeleteRam(doId)), d)
            else if doId in c.objs.session
            then Ended(c.(objs := c.objs.(session := c.objs.session - {doId}), sent := c.sent + [Ejected]), d)
            else d == c.(
              objs := c.objs.(seen := c.objs.seen - {doId}, visible := c.objs.visible - {doId},
                              owned := c.objs.owned - {doId}),
              avatar := if doId in c.objs.owned && doId == c.avatar.doId
                        then c.avatar.(doId := INVALID, at := Location(INVALID, INVALID)) else c.avatar,
              sent := c.sent + (if doId in c.objs.seen then [Leaving(doId)] else [])
                             + (if doId in c.objs.owned then [OwnerLeaving(doId)] else []))
  {
    var o := c.objs;
    if Known(cfg, o, doId) && doId !in o.session {
      assert o.visible - {doId} - {doId} == o.visible - {doId};
      if doId !in o.seen { assert o.seen - {doId} == o.seen; }
      if doId !in o.owned { assert o.owned - {doId} == o.owned; }
    }
  }

  /* ---- Entrances ---- */

  /** Operation `k` is loading the location. */
  predicate IsLoading(c: Client, k: nat, at: Location) {
    k in c.ints.ops && c.ints.ops[k].parent == at.parent && at.zone in c.ints.ops[k].zones
  }

  /** The client has the object: it sees it, or owns it as a session object. */
  predicate Has(o: Objects, doId: DoId) {
    doId in o.seen || (doId in o.owned && doId in o.session)
  }

  lemma {:induction false} NobodyLoads(ops: map<nat, Operation>, at: Location, order: seq<nat>)
    requires forall k :: k in ops ==> ops[k].parent != at.parent || at.zone !in ops[k].zones
    ensures Loading(ops, at, order) == None
    decreases |order|
  {
    if order != [] { NobodyLoads(ops, at, order[1..]); }
  }

  /** An object that enters where nothing is loading is told to the client, seen and visible
      from then on; unless the client has it already. */
  lemma EntrancesReachTheClient(cfg: Config, c: Client, sender: nat, e: Entrance)
    requires Arrives(c, sender) && forall k :: !IsLoading(c, k, e.at)
    ensures var d := Step(cfg, c, News(sender, EnterLocation(e)));
            if Has(c.objs, e.doId) then d == c.(objs := c.objs.(pending := c.objs.pending - {e.doId}))
            else d == c.(
              sent := c.sent + [Entered(e)],
              objs := c.objs.(
                pending := c.objs.pending - {e.doId}, seen := c.objs.seen + {e.doId},
                visible := if e.doId in c.objs.visible then c.objs.visible
                           else c.objs.visible[e.doId := Object(e.dcId, e.at)]))
  {
    forall k | k in c.ints.ops ensures c.ints.ops[k].parent != e.at.parent || e.at.zone !in c.ints.ops[k].zones {
      assert !IsLoading(c, k, e.at);
    }
    NobodyLoads(c.ints.ops, e.at, cfg.order(|c.sent|, c.ints.ops.Keys));
  }

  lemma {:induction false} SomebodyLoads(ops: map<nat, Operation>, at: Location, order: seq<nat>, k: nat)
    requires k in order && k in ops && ops[k].parent == at.parent && at.zone in ops[k].zones
    ensures var h := Loading(ops, at, order);
            h.Some? && h.value in ops && ops[h.value].parent == at.parent && at.zone in ops[h.value].zones
    decreases |order|
  {
    var h := order[0];
    assert h in ops ==> (at in OpLocations(ops[h]) <==> ops[h].parent == at.parent && at.zone in ops[h].zones) by {
      assert at == Location(at.parent, at.zone);
    }
    if !(h in ops && at in OpLocations(ops[h])) { SomebodyLoads(ops, at, order[1..], k); }
  }

  /** Where something is loading, one of the operations that load holds the entrance back. */
  lemma EntrancesWait(cfg: Config, c: Client, sender: nat, e: Entrance, k: nat)
    requires ValidConfig(cfg) && Arrives(c, sender) && IsLoading(c, k, e.at)
    ensures var d := Step(cfg, c, News(sender, EnterLocation(e)));
            exists h :: IsLoading(c, h, e.at)
              && d == c.(
                   ints := c.ints.(ops := c.ints.ops[h := c.ints.ops[h].(
                     queue := c.ints.ops[h].queue + [Datagram(sender, EnterLocation(e))])]),
                   objs := c.objs.(pending := if e.doId in c.objs.pending then c.objs.pending
                                              else c.objs.pending[e.doId := h]))
  {
    var order := cfg.order(|c.sent|, c.ints.ops.Keys);
    assert Enumerates(order, c.ints.ops.Keys);
    SomebodyLoads(c.ints.ops, e.at, order, k);
    hide Loading;
    var h := Loading(c.ints.ops, e.at, order).value;
    assert IsLoading(c, h, e.at);
  }

  /* ---- Operations finish ---- */

  /** The client is told of the generate at position `i`: it does not have the object, and no
      earlier generate was of the same object. */
  ghost predicate IsNew(o: Objects, es: seq<Entrance>, i: int) {
    0 <= i < |es| && !Has(o, es[i].doId) && forall j :: 0 <= j < i ==> es[j].doId != es[i].doId
  }

  /** The entrances of the first `n` generates, one for each new object, in their order. */
  ghost function Announced(o: Objects, es: seq<Entrance>, n: nat): seq<ToClient>
    requires n <= |es|
  {
    if n == 0 then []
    else if IsNew(o, es, n - 1) then Announced(o, es, n - 1) + [Entered(es[n - 1])]
    else Announced(o, es, n - 1)
  }

  /** The object is among the first `n` generates, and new. */
  ghost predicate IsAmongNew(o: Objects, es: seq<Entrance>, n: nat, doId: DoId) {
    exists i :: 0 <= i < n && IsNew(o, es, i) && es[i].doId == doId
  }

  /** The objects after the first `n` generates: all of them are had by the client, none of
      them is pending, and each one that was not visible is where its first generate says. */
  ghost predicate AllEntered(o: Objects, es: seq<Entrance>, n: nat, p: Objects)
    requires n <= |es|
  {
    && p == o.(seen := p.seen, visible := p.visible, pending := p.pending)
    && (forall doId :: doId in p.seen <==> doId in o.seen || IsAmongNew(o, es, n, doId))
    && (forall doId :: doId in p.visible <==> doId in o.visible || IsAmongNew(o, es, n, doId))
    && (forall doId :: doId in o.visible ==> p.visible[doId] == o.visible[doId])
    && (forall i :: 0 <= i < n && IsNew(o, es, i) && es[i].doId !in o.visible ==>
          p.visible[es[i].doId] == Object(es[i].dcId, es[i].at))
    && (forall doId :: doId in p.pending <==> doId in o.pending && forall i :: 0 <= i < n ==> es[i].doId != doId)
    && (forall doId :: doId in p.pending ==> p.pending[doId] == o.pending[doId])
  }

  lemma {:induction false} EnterAllSnoc(c: Client, es: seq<Entrance>, e: Entrance)
    ensures EnterAll(c, es + [e]) == Enter(EnterAll(c, es), e)
    decreases |es|
  {
    hide Enter;
    if es == [] {
      assert [e][1..] == [];
    } else {
      assert (es + [e])[0] == es[0] && (es + [e])[1..] == es[1..] + [e];
      EnterAllSnoc(Enter(c, es[0]), es[1..], e);
    }
  }

  lemma {:induction false} GeneratesEnter(c: Client, es: seq<Entrance>, n: nat)
    requires c.connected && n <= |es|
    ensures var d := EnterAll(c, es[..n]);
            AllEntered(c.objs, es, n, d.objs) && d == c.(objs := d.objs, sent := c.sent + Announced(c.objs, es, n))
    decreases n
  {
    hide EnterAll;
    if n == 0 {
      assert EnterAll(c, []) == c by { NothingEnters(c); }
      assert es[..0] == [] && c.sent + [] == c.sent;
    } else {
      GeneratesEnter(c, es, n - 1);
      assert es[..n] == es[..n - 1] + [es[n - 1]];
      EnterAllSnoc(c, es[..n - 1], es[n - 1]);
      NextEnters(c, es, n, EnterAll(c, es[..n - 1]));
    }
  }

  lemma NothingEnters(c: Client)
    ensures EnterAll(c, []) == c
  {
  }

  lemma NextEnters(c: Client, es: seq<Entrance>, n: nat, d: Client)
    requires c.connected && 0 < n <= |es| && AllEntered(c.objs, es, n - 1, d.objs)
    requires d == c.(objs := d.objs, sent := c.sent + Announced(c.objs, es, n - 1))
    ensures var f := Enter(d, es[n - 1]);
            AllEntered(c.objs, es, n, f.objs) && f == c.(objs := f.objs, sent := c.sent + Announced(c.objs, es, n))
  {
    hide IsNew, IsAmongNew, Has;
    NewIsUnseen(c.objs, es, n, d.objs);
    var o, e := c.objs, es[n - 1];
    forall doId ensures IsAmongNew(o, es, n, doId) <==> IsAmongNew(o, es, n - 1, doId) || (IsNew(o, es, n - 1) && e.doId == doId) {
      OneMoreNew(o, es, n, doId);
    }
    EnterIsNew(d, e);
    if IsNew(o, es, n - 1) {
      NewIsNotAmong(o, es, n);
      assert c.sent + Announced(o, es, n) == c.sent + Announced(o, es, n - 1) + [Entered(e)];
    }
  }

  lemma OneMoreNew(o: Objects, es: seq<Entrance>, n: nat, doId: DoId)
    requires 0 < n <= |es|
    ensures IsAmongNew(o, es, n, doId) <==> IsAmongNew(o, es, n - 1, doId) || (IsNew(o, es, n - 1) && es[n - 1].doId == doId)
  {
  }

  lemma NewIsNotAmong(o: Objects, es: seq<Entrance>, n: nat)
    requires 0 < n <= |es| && IsNew(o, es, n - 1)
    ensures !Has(o, es[n - 1].doId) && forall i :: 0 <= i < n - 1 ==> es[i].doId != es[n - 1].doId
    ensures !IsAmongNew(o, es, n - 1, es[n - 1].doId)
  {
  }

  /** One entrance, by whether the client has the object. */
  lemma EnterIsNew(d: Client, e: Entrance)
    requires d.connected
    ensures var p, f := d.objs, Enter(d, e);
            if Has(p, e.doId) then f == d.(objs := p.(pending := p.pending - {e.doId}))
            else f == d.(objs := p.(pending := p.pending - {e.doId}, seen := p.seen + {e.doId},
                                    visible := if e.doId in p.visible then p.visible else p.visible[e.doId := Object(e.dcId, e.at)]),
                         sent := d.sent + [Entered(e)])
  {
  }

  /** A generate is entered exactly if it is new. */
  lemma NewIsUnseen(o: Objects, es: seq<Entrance>, n: nat, p: Objects)
    requires 0 < n <= |es| && AllEntered(o, es, n - 1, p)
    ensures Has(p, es[n - 1].doId) <==> !IsNew(o, es, n - 1)
  {
    var doId := es[n - 1].doId;
    if !Has(o, doId) && exists j :: 0 <= j < n - 1 && es[j].doId == doId {
      var j :| 0 <= j < n - 1 && es[j].doId == doId;
      var i := FirstOf(es, doId, j);
      assert IsNew(o, es, i) && es[i].doId == doId;
    }
  }

  lemma {:induction false} FirstOf(es: seq<Entrance>, doId: DoId, j: nat) returns (i: nat)
    requires j < |es| && es[j].doId == doId
    ensures i <= j && es[i].doId == doId && forall k :: 0 <= k < i ==> es[k].doId != doId
    decreases j
  {
    i := j;
    if exists k :: 0 <= k < j && es[k].doId == doId {
      var k :| 0 <= k < j && es[k].doId == doId;
      i := FirstOf(es, doId, k);
    }
  }

  /** When an operation finishes, every new object is entered, in the order of the generates;
      then the client, unless the interest is internal, and whoever asked are told that it is
      done, and the operation is gone; all this before what it held back is looked at. */
  lemma FinishedOperationsEnter(c: Client, k: nat)
    requires c.connected && k in c.ints.ops
    ensures var op, d := c.ints.ops[k], Settle(c, k);
            && AllEntered(c.objs, op.generates, |op.generates|, d.objs)
            && d == c.(
                 objs := d.objs, history := d.history, ints := c.ints.(ops := c.ints.ops - {k}),
                 published := c.published + [DoneInterestResp(op.caller, op.interestId)],
                 sent := c.sent + Announced(c.objs, op.generates, |op.generates|)
                   + (if op.interestId in c.ints.open && c.ints.open[op.interestId].internal then []
                      else [InterestDone(op.clientContext, op.interestId)]))
  {
    hide EnterAll, Announced, AllEntered;
    var es := c.ints.ops[k].generates;
    assert es[..|es|] == es;
    GeneratesEnter(c, es, |es|);
    assert forall s: seq<ToClient> :: s + [] == s;
  }

  /** What was held back is handled afterwards, as if it arrived one after another. */
  ghost function Arriving(cfg: Config, c: Client, queue: seq<Datagram>): Client
    decreases |queue|
  {
    if queue == [] then c
    else Step(cfg, Arriving(cfg, c, queue[..|queue| - 1]), FromCluster(queue[|queue| - 1]))
  }

  lemma {:induction false} ReplaySnoc(cfg: Config, c: Client, queue: seq<Datagram>, dg: Datagram)
    ensures Replay(cfg, c, queue + [dg]) == Redeliver(cfg, Replay(cfg, c, queue), dg)
    decreases |queue|
  {
    hide Redeliver;
    if queue == [] {
      assert [dg][1..] == [];
    } else {
      assert (queue + [dg])[0] == queue[0] && (queue + [dg])[1..] == queue[1..] + [dg];
      ReplaySnoc(cfg, Redeliver(cfg, c, queue[0]), queue[1..], dg);
    }
  }

  /** Operations hold back messages about objects, and nothing else. */
  ghost predicate HoldsObjectMessages(queue: seq<Datagram>) {
    forall i :: 0 <= i < |queue| ==>
      var m := queue[i].msg;
      m.SetField? || m.SetFields? || m.DeleteRam? || m.EnterLocation? || m.ChangingLocation?
  }

  lemma {:induction false} HeldBackArrives(cfg: Config, c: Client, queue: seq<Datagram>)
    requires HoldsObjectMessages(queue)
    ensures Replay(cfg, c, queue) == Arriving(cfg, c, queue)
    decreases |queue|
  {
    hide OnQueueable, OnDeclare, Dispatch;
    if queue != [] {
      var rest, dg := queue[..|queue| - 1], queue[|queue| - 1];
      assert queue == rest + [dg];
      HeldBackArrives(cfg, c, rest);
      ReplaySnoc(cfg, c, rest, dg);
    }
  }

  /** A time-out finishes the operation. */
  lemma TimeOutsFinish(cfg: Config, c: Client, k: nat)
    requires k in c.ints.ops && HoldsObjectMessages(c.ints.ops[k].queue)
    ensures var d := Arriving(cfg, Settle(c, k), c.ints.ops[k].queue);
            Step(cfg, c, OperationTimesOut(k)) == d.(history := d.history.(replaying := {}))
  {
    hide Replay, Arriving, Settle;
    HeldBackArrives(cfg, Settle(c, k), c.ints.ops[k].queue);
  }

  /** A generate joins its operation, and the one that completes the announced number
      finishes it, as a time-out does. */
  lemma GeneratesAreCounted(cfg: Config, c: Client, sender: nat, k: nat, e: Entrance)
    requires Arrives(c, sender)
    ensures var d := Step(cfg, c, News(sender, EnterInterest(k, e)));
            if k !in c.ints.ops then d == c
            else
              var op := c.ints.ops[k];
              var f := c.(objs := c.objs.(pending := c.objs.pending[e.doId := k]),
                          ints := c.ints.(ops := c.ints.ops[k := op.(generates := op.generates + [e])]));
              d == if op.total.Some? && |op.generates| + 1 >= op.total.value
                   then Step(cfg, f, OperationTimesOut(k)) else f
  {
    hide Finish;
  }

  /** The first total counts, and finishes an operation that has all its generates. */
  lemma TotalsAreTaken(cfg: Config, c: Client, sender: nat, k: nat, count: nat)
    requires Arrives(c, sender)
    ensures var d := Step(cfg, c, News(sender, ZonesCount(k, count)));
            if k !in c.ints.ops then d == c
            else
              var op := c.ints.ops[k];
              var total := if op.total.Some? then op.total.value else count;
              var f := c.(ints := c.ints.(ops := c.ints.ops[k := op.(total := Some(total))]));
              d == if |op.generates| >= total then Step(cfg, f, OperationTimesOut(k)) else f
  {
    hide Finish;
  }

  /* ---- Moves ---- */

  /** Some open interest covers the location; `id` may be left out of account. */
  predicate Open(open: map<nat, Interest>, at: Location) {
    exists id :: id in open && open[id].parent == at.parent && at.zone in open[id].zones
  }

  predicate OpenApartFrom(open: map<nat, Interest>, at: Location, but: nat) {
    exists id :: id in open && id != but && open[id].parent == at.parent && at.zone in open[id].zones
  }

  lemma OpenIsCovered(open: map<nat, Interest>, at: Location)
    ensures Open(open, at) <==> Covered(open, at)
  {
    if Open(open, at) {
      var id :| id in open && open[id].parent == at.parent && at.zone in open[id].zones;
      assert Covers(open[id], at);
    }
    if Covered(open, at) {
      var id :| id in open && Covers(open[id], at);
      assert open[id].parent == at.parent && at.zone in open[id].zones;
    }
  }

  lemma OpenApartIsCovered(open: map<nat, Interest>, at: Location, but: nat)
    ensures OpenApartFrom(open, at, but) <==> CoveredByOther(open, at, but)
  {
    if OpenApartFrom(open, at, but) {
      var id :| id in open && id != but && open[id].parent == at.parent && at.zone in open[id].zones;
      assert Covers(open[id], at);
    }
    if CoveredByOther(open, at, but) {
      var id :| id in open && id != but && Covers(open[id], at);
      assert open[id].parent == at.parent && at.zone in open[id].zones;
    }
  }

  /** The objects when one of them has moved. */
  function Moving(o: Objects, doId: DoId, to: Location): Objects {
    o.(visible := if doId in o.visible then o.visible[doId := o.visible[doId].(at := to)] else o.visible,
       owned := if doId in o.owned then o.owned[doId := o.owned[doId].(at := to)] else o.owned)
  }

  /** An object that moves where the client looks, or that the client owns, stays and its
      location is told; one that moves away leaves; a session object that does ends the
      connection. */
  lemma MovedObjectsStayOrLeave(cfg: Config, c: Client, sender: nat, doId: DoId, to: Location)
    requires Arrives(c, sender)
    ensures var d := Step(cfg, c, News(sender, ChangingLocation(doId, to)));
            var visible, owned, session := doId in c.objs.visible, doId in c.objs.owned, doId in c.objs.session;
            var moved := c.(objs := Moving(c.objs, doId, to));
            if doId in c.objs.pending then Waits(c, doId, Datagram(sender, ChangingLocation(doId, to)), d)
            else if !visible && !owned then d == c
            else if Open(c.ints.open, to) || !visible || (session && owned)
            then doId != c.avatar.doId ==> d == moved.(sent := c.sent + [Moved(doId, to)])
            else if session then Ended(moved.(sent := c.sent + [Ejected]), d)
            else d == moved.(sent := c.sent + [Leaving(doId)],
                             objs := moved.objs.(seen := c.objs.seen - {doId}, visible := moved.objs.visible - {doId}))
  {
    OpenIsCovered(c.ints.open, to);
  }

  /* ---- Ownership, and what is declared ---- */

  /** The client owns the object from then on, and is told every time. An avatar's location is
      tracked, and its parent's class asked for. */
  lemma OwnersAreTold(cfg: Config, c: Client, sender: nat, e: Entrance)
    requires Arrives(c, sender)
    ensures var d := Step(cfg, c, News(sender, EnterOwner(e)));
            var owned := if e.doId in c.objs.owned then c.objs.owned else c.objs.owned[e.doId := Object(e.dcId, e.at)];
            var own := c.(objs := c.objs.(owned := owned), sent := c.sent + [OwnerEntered(e)]);
            var avatar := owned[e.doId].dcId in cfg.classes && owned[e.doId].dcId in cfg.avatarClasses;
            var tracked := own.(avatar := c.avatar.(doId := e.doId, at := e.at));
            if !avatar then d == own
            else if !cfg.parentingRules || e.at.parent == INVALID then d == tracked
            else d == tracked.(
              nextContext := c.nextContext + 1,
              avatar := tracked.avatar.(lookups := c.avatar.lookups[c.nextContext := e.at.parent]),
              published := c.published + [GetClass(c.nextContext, e.at.parent)])
  {
  }

  /** Another owner takes over. */
  lemma OwnersChange(cfg: Config, c: Client, sender: nat, doId: DoId, newOwner: nat)
    requires Arrives(c, sender)
    ensures var d := Step(cfg, c, News(sender, ChangingOwner(doId, newOwner)));
            if newOwner == c.channel || doId !in c.objs.owned then d == c
            else if doId in c.objs.session then Ended(c.(sent := c.sent + [Ejected]), d)
            else d == c.(
              objs := c.objs.(owned := c.objs.owned - {doId}), sent := c.sent + [OwnerLeaving(doId)],
              avatar := if doId == c.avatar.doId then c.avatar.(doId := INVALID, at := Location(INVALID, INVALID))
                        else c.avatar)
  {
  }

  /** The first declaration of an object counts until it is taken back. */
  lemma DeclarationsCount(cfg: Config, c: Client, sender: nat, doId: DoId, dcId: nat)
    requires Arrives(c, sender)
    ensures var d := Step(cfg, c, News(sender, Declare(doId, dcId)));
            d.objs == c.objs.(declared := d.objs.declared) && d == c.(objs := d.objs, history := d.history)
            && d.objs.declared == if doId in c.objs.declared then c.objs.declared else c.objs.declared[doId := dcId]
    ensures Step(cfg, c, News(sender, Undeclare(doId))) == c.(objs := c.objs.(declared := c.objs.declared - {doId}))
    ensures Step(cfg, c, News(sender, AddSession(doId))) == c.(objs := c.objs.(session := c.objs.session + {doId}))
    ensures Step(cfg, c, News(sender, RemoveSession(doId))) == c.(objs := c.objs.(session := c.objs.session - {doId}))
  {
  }

  /* ---- Closing zones ---- */

  function TellLeaving(gone: seq<DoId>): seq<ToClient> {
    seq(|gone|, i requires 0 <= i < |gone| => Leaving(gone[i]))
  }

  lemma {:induction false} LeavingsAreTold(gone: seq<DoId>)
    ensures Leavings(gone) == TellLeaving(gone)
    decreases |gone|
  {
    if gone != [] {
      LeavingsAreTold(gone[1..]);
      assert TellLeaving(gone) == [Leaving(gone[0])] + TellLeaving(gone[1..]);
    }
  }

  /** The visible objects in the zones. */
  function InZones(o: Objects, parent: DoId, zones: set<nat>): set<DoId> {
    set doId | doId in o.visible && o.visible[doId].at.parent == parent && o.visible[doId].at.zone in zones
  }

  /** Those of the list that are chosen, in the same order. */
  function Filtered(order: seq<DoId>, chosen: set<DoId>): seq<DoId> {
    if order == [] then []
    else (if order[0] in chosen then [order[0]] else []) + Filtered(order[1..], chosen)
  }

  /** The first of the list that is in the set. */
  predicate IsFirstOf(order: seq<DoId>, s: set<DoId>, n: nat) {
    n < |order| && order[n] in s && forall i :: 0 <= i < n ==> order[i] !in s
  }

  /** The client is told of every object that leaves with the zones, in the order in which the
      visible objects are kept, and the zones are no longer subscribed. A session object among
      them ends the connection instead, when those in front of it have left. */
  ghost predicate ZonesClosed(cfg: Config, c: Client, parent: DoId, zones: set<nat>, d: Client) {
    var order, leaving := cfg.order(|c.sent|, c.objs.visible.Keys), InZones(c.objs, parent, zones);
    if leaving * c.objs.session == {} then
      d == c.(sent := c.sent + TellLeaving(Filtered(order, leaving)),
              objs := c.objs.(seen := c.objs.seen - leaving, visible := c.objs.visible - leaving),
              ints := c.ints.(subscribed := c.ints.subscribed - (set z | z in zones :: Location(parent, z))))
    else
      exists n: nat :: IsFirstOf(order, leaving * c.objs.session, n) && EndedAfter(c, Filtered(order[..n], leaving), d)
  }

  /** The connection has ended, when those objects had left. */
  ghost predicate EndedAfter(c: Client, gone: seq<DoId>, d: Client) {
    Ended(c.(sent := c.sent + TellLeaving(gone) + [Ejected],
             objs := c.objs.(seen := c.objs.seen - (set doId | doId in gone))), d)
  }

  /** Everything that leaves is on the list, once. */
  lemma {:induction false} FilteredEnumerates(order: seq<DoId>, chosen: set<DoId>)
    requires forall i, j :: 0 <= i < j < |order| ==> order[i] != order[j]
    ensures var gone := Filtered(order, chosen);
            && (forall doId :: doId in gone <==> doId in order && doId in chosen)
            && (forall i, j :: 0 <= i < j < |gone| ==> gone[i] != gone[j])
    decreases |order|
  {
    if order != [] {
      FilteredEnumerates(order[1..], chosen);
      assert order[0] !in order[1..];
    }
  }

  lemma {:induction false} VictimsAreFiltered(o: Objects, parent: DoId, zones: set<nat>, order: seq<DoId>)
    ensures var leaving := InZones(o, parent, zones);
            && (leaving * o.session == {} ==> Victims(o, parent, zones, order) == Filtered(order, leaving))
            && forall n: nat :: IsFirstOf(order, leaving * o.session, n) ==>
                 Victims(o, parent, zones, order) == Filtered(order[..n], leaving)
    decreases |order|
  {
    var leaving := InZones(o, parent, zones);
    if order != [] {
      VictimsAreFiltered(o, parent, zones, order[1..]);
      assert Doomed(o, parent, zones, order[0]) <==> order[0] in leaving;
      if order[0] in leaving && order[0] in o.session { assert order[0] in leaving * o.session; }
      forall n: nat | IsFirstOf(order, leaving * o.session, n)
        ensures Victims(o, parent, zones, order) == Filtered(order[..n], leaving)
      {
        if n > 0 {
          assert IsFirstOf(order[1..], leaving * o.session, n - 1);
          assert order[..n][1..] == order[1..][..n - 1];
        } else {
          assert order[..0] == [];
        }
      }
    }
  }

  lemma FirstExists(order: seq<DoId>, s: set<DoId>, doId: DoId) returns (n: nat)
    requires doId in s && doId in order
    ensures IsFirstOf(order, s, n)
  {
    if order[0] in s {
      n := 0;
    } else {
      var m := FirstExists(order[1..], s, doId);
      n := m + 1;
      forall i | 0 <= i < n ensures order[i] !in s { assert i > 0 ==> order[i] == order[1..][i - 1]; }
    }
  }

  lemma ZonesAreClosed(cfg: Config, c: Client, parent: DoId, zones: set<nat>)
    requires ValidConfig(cfg) && c.connected
    ensures ZonesClosed(cfg, c, parent, zones, CloseZones(cfg, c, parent, zones))
  {
    hide Victims, Leavings, InZones, Filtered;
    var order := cfg.order(|c.sent|, c.objs.visible.Keys);
    assert Enumerates(order, c.objs.visible.Keys);
    var gone, leaving := Victims(c.objs, parent, zones, order), InZones(c.objs, parent, zones);
    VictimsAreFiltered(c.objs, parent, zones, order);
    LeavingsAreTold(gone);
    LeavingIsVisible(c.objs, parent, zones);
    if leaving * c.objs.session == {} {
      FilteredEnumerates(order, leaving);
      assert forall doId :: doId in gone <==> doId in leaving;
      assert ToSet(gone) == leaving;
    } else {
      var doId :| doId in leaving * c.objs.session;
      var n := FirstExists(order, leaving * c.objs.session, doId);
      assert ToSet(gone) == set doId | doId in gone;
    }
  }

  lemma LeavingIsVisible(o: Objects, parent: DoId, zones: set<nat>)
    ensures forall doId :: doId in InZones(o, parent, zones) ==> doId in o.visible
    ensures ClosesSession(o, parent, zones) <==> InZones(o, parent, zones) * o.session != {}
  {
    if ClosesSession(o, parent, zones) {
      var doId :| doId in o.session && Doomed(o, parent, zones, doId);
      assert doId in InZones(o, parent, zones) * o.session;
    }
    if InZones(o, parent, zones) * o.session != {} {
      var doId :| doId in InZones(o, parent, zones) * o.session;
      assert Doomed(o, parent, zones, doId);
    }
  }

  /* ---- Opening and closing interests ---- */

  /** The interest with the extra zones of an Auto rule: if the class of its parent has one,
      and the interest is not internal and includes the zone the rule starts from. */
  function Widened(cfg: Config, o: Objects, i: Interest): Interest {
    if i.internal || !Known(cfg, o, i.parent) then i
    else
      var cls := if i.parent in cfg.uberdogs then cfg.uberdogs[i.parent]
                 else if i.parent in o.owned then o.owned[i.parent].dcId
                 else if i.parent in o.seen && i.parent in o.visible then o.visible[i.parent].dcId
                 else o.declared[i.parent];
      if cls in cfg.rules && cfg.rules[cls].Auto? && cfg.rules[cls].origin in i.zones
      then i.(zones := i.zones + cfg.rules[cls].extras) else i
  }

  /** The zones of an interest that nothing open covers. */
  ghost function Uncovered(open: map<nat, Interest>, i: Interest): set<nat> {
    set z | z in i.zones && !Open(open, Location(i.parent, z))
  }

  /** The zones that only the interest of this id covers. */
  ghost function Lonely(open: map<nat, Interest>, id: nat): set<nat>
    requires id in open
  {
    set z | z in open[id].zones && !OpenApartFrom(open, Location(open[id].parent, z), id)
  }

  /** Those of them that an interest replacing it does not cover. */
  ghost function Abandoned(open: map<nat, Interest>, i: Interest): set<nat>
    requires i.id in open
  {
    set z | z in Lonely(open, i.id) && (i.parent != open[i.id].parent || z !in i.zones)
  }

  /** The interest is recorded in `m`. If it covers something new, an operation asks for the
      objects there; otherwise it is done at once, and whoever asked is told. */
  ghost predicate Loaded(m: Client, i: Interest, new': set<nat>, ctx: nat, caller: nat, d: Client) {
    if new' == {} then
      d == m.(ints := m.ints.(open := m.ints.open[i.id := i]),
              published := m.published + (if caller == 0 then [] else [DoneInterestResp(caller, i.id)]),
              sent := m.sent + (if i.internal then [] else [InterestDone(ctx, i.id)]))
    else
      d == m.(nextContext := m.nextContext + 1, history := d.history,
              ints := m.ints.(
                open := m.ints.open[i.id := i],
                ops := m.ints.ops[m.nextContext := Operation(i.id, ctx, i.parent, new', caller, None, [], [])],
                subscribed := m.ints.subscribed + (set z | z in new' :: Location(i.parent, z))),
              published := m.published + [GetZonesObjects(m.nextContext, i.parent, new')])
  }

  /** An interest of the same id is replaced: the zones that only it covered, and that the new
      one does not, are closed first. */
  ghost predicate Opened(cfg: Config, c: Client, given: Interest, ctx: nat, caller: nat, d: Client) {
    var i := Widened(cfg, c.objs, given);
    var new' := Uncovered(c.ints.open, i);
    if i.id !in c.ints.open then Loaded(c, i, new', ctx, caller, d)
    else
      var prev := c.ints.open[i.id];
      var closed := Abandoned(c.ints.open, i);
      exists m :: ZonesClosed(cfg, c, prev.parent, closed, m)
                  && if InZones(c.objs, prev.parent, closed) * c.objs.session != {} then d == m
                     else Loaded(m, i, new', ctx, caller, d)
  }

  lemma ClassesAreLookedUp(cfg: Config, o: Objects, doId: DoId)
    ensures Known(cfg, o, doId) <==> Lookup(cfg, o, doId).Some?
    ensures Known(cfg, o, doId) ==>
              Lookup(cfg, o, doId).value == if doId in cfg.uberdogs then cfg.uberdogs[doId]
                                            else if doId in o.owned then o.owned[doId].dcId
                                            else if doId in o.seen && doId in o.visible then o.visible[doId].dcId
                                            else o.declared[doId]
  {
  }

  lemma InterestsAreWidened(cfg: Config, c: Client, given: Interest)
    ensures Extend(cfg, c, given) == Widened(cfg, c.objs, given)
    ensures Widened(cfg, c.objs, given) == given.(zones := Widened(cfg, c.objs, given).zones)
  {
    hide Known, Lookup;
    ClassesAreLookedUp(cfg, c.objs, given.parent);
  }

  lemma NewZonesAreUncovered(open: map<nat, Interest>, i: Interest)
    ensures NewZones(open, i) == Uncovered(open, i)
  {
    hide Open, Covered;
    forall z | z in i.zones ensures z in NewZones(open, i) <==> z in Uncovered(open, i) {
      OpenIsCovered(open, Location(i.parent, z));
    }
  }

  lemma SoleZonesAreLonely(open: map<nat, Interest>, id: nat)
    requires id in open
    ensures SoleZones(open, id) == Lonely(open, id)
  {
    hide OpenApartFrom, CoveredByOther;
    forall z | z in open[id].zones ensures z in SoleZones(open, id) <==> z in Lonely(open, id) {
      OpenApartIsCovered(open, Location(open[id].parent, z), id);
    }
  }

  lemma KilledZonesAreLonely(open: map<nat, Interest>, i: Interest)
    requires i.id in open
    ensures KilledZones(open, i) == Abandoned(open, i)
  {
    hide OpenApartFrom, CoveredByOther;
    var prev := open[i.id];
    forall z | z in prev.zones
      ensures z in KilledZones(open, i) <==> z in Abandoned(open, i)
    {
      OpenApartIsCovered(open, Location(prev.parent, z), i.id);
    }
  }

  lemma InterestIsLoaded(m: Client, i: Interest, new': set<nat>, ctx: nat, caller: nat)
    requires m.connected
    ensures Loaded(m, i, new', ctx, caller, Load(Record(m, i), i, new', ctx, caller))
  {
    assert Locations(i.parent, new') == set z | z in new' :: Location(i.parent, z);
    if new' == {} {
      assert m.published + [] == m.published && m.sent + [] == m.sent;
    }
  }

  /** AddInterest does that. */
  lemma InterestsAreOpened(cfg: Config, c: Client, given: Interest, ctx: nat, caller: nat)
    requires ValidConfig(cfg) && c.connected
    ensures Opened(cfg, c, given, ctx, caller, AddInterest(cfg, c, given, ctx, caller))
  {
    hide Extend, Widened, NewZones, Uncovered, KilledZones, Abandoned, CloseZones, ClosesSession, InZones, ZonesClosed,
         Loaded, Load, Record, ValidConfig;
    InterestsAreWidened(cfg, c, given);
    var i := Extend(cfg, c, given);
    NewZonesAreUncovered(c.ints.open, i);
    if i.id in c.ints.open {
      KilledZonesAreLonely(c.ints.open, i);
      var parent, killed := c.ints.open[i.id].parent, KilledZones(c.ints.open, i);
      ZonesAreClosed(cfg, c, parent, killed);
      LeavingIsVisible(c.objs, parent, killed);
      var m := CloseZones(cfg, c, parent, killed);
      if !ClosesSession(c.objs, parent, killed) {
        StaysConnected(cfg, c, parent, killed, m);
        InterestIsLoaded(m, i, NewZones(c.ints.open, i), ctx, caller);
      }
    } else {
      InterestIsLoaded(c, i, NewZones(c.ints.open, i), ctx, caller);
    }
  }

  lemma StaysConnected(cfg: Config, c: Client, parent: DoId, zones: set<nat>, m: Client)
    requires c.connected && ZonesClosed(cfg, c, parent, zones, m) && InZones(c.objs, parent, zones) * c.objs.session == {}
    ensures m.connected && m.ints.open == c.ints.open
  {
  }

  /** The zones that only the interest covered are closed, and it is done and gone. */
  ghost predicate Removed(cfg: Config, c: Client, id: nat, ctx: nat, caller: nat, d: Client)
    requires id in c.ints.open
  {
    var i, closed := c.ints.open[id], Lonely(c.ints.open, id);
    exists m :: ZonesClosed(cfg, c, i.parent, closed, m)
                && if InZones(c.objs, i.parent, closed) * c.objs.session != {} then d == m
                   else d == m.(
                     ints := m.ints.(open := c.ints.open - {id}),
                     published := m.published + (if caller == 0 then [] else [DoneInterestResp(caller, id)]),
                     sent := m.sent + (if i.internal then [] else [InterestDone(ctx, id)]))
  }

  lemma InterestsAreRemoved(cfg: Config, c: Client, id: nat, ctx: nat, caller: nat)
    requires ValidConfig(cfg) && c.connected && id in c.ints.open
    ensures Removed(cfg, c, id, ctx, caller, RemoveInterest(cfg, c, id, ctx, caller))
  {
    hide SoleZones, Lonely, CloseZones, ClosesSession, InZones, ZonesClosed, ValidConfig;
    SoleZonesAreLonely(c.ints.open, id);
    var parent, closed := c.ints.open[id].parent, SoleZones(c.ints.open, id);
    ZonesAreClosed(cfg, c, parent, closed);
    LeavingIsVisible(c.objs, parent, closed);
    var m := CloseZones(cfg, c, parent, closed);
    assert m.published + [] == m.published && m.sent + [] == m.sent;
    if !ClosesSession(c.objs, parent, closed) { StaysConnected(cfg, c, parent, closed, m); }
  }

  /** A client opens interests as far as it is permitted: on parents it knows, unless all are
      permitted, and in allowed zones. It is thrown out otherwise. */
  lemma ClientsOpenInterests(cfg: Config, c: Client, ctx: nat, i: Interest)
    requires ValidConfig(cfg) && c.connected
    ensures var d := Step(cfg, c, ClientAdds(ctx, i));
            if cfg.permission.Disabled? || (cfg.permission.Visible? && !Known(cfg, c.objs, i.parent))
               || (exists z :: z in i.zones && !cfg.zoneAllowed(z))
            then Ended(c.(sent := c.sent + [Ejected]), d)
            else Opened(cfg, c, i.(internal := false), ctx, 0, d)
  {
    hide AddInterest, Opened, Known, Lookup, ValidConfig;
    ClassesAreLookedUp(cfg, c.objs, i.parent);
    InterestsAreOpened(cfg, c, i.(internal := false), ctx, 0);
  }

  lemma ClientsRemoveInterests(cfg: Config, c: Client, ctx: nat, id: nat)
    requires ValidConfig(cfg) && c.connected
    ensures var d := Step(cfg, c, ClientRemoves(ctx, id));
            if cfg.permission.Disabled? || id !in c.ints.open
               || (cfg.permission.Visible? && !Known(cfg, c.objs, c.ints.open[id].parent))
            then Ended(c.(sent := c.sent + [Ejected]), d)
            else Removed(cfg, c, id, ctx, 0, d)
  {
    hide RemoveInterest, Removed, Known, Lookup, ValidConfig;
    if id in c.ints.open {
      ClassesAreLookedUp(cfg, c.objs, c.ints.open[id].parent);
      InterestsAreRemoved(cfg, c, id, ctx, 0);
    }
  }

  /** The cluster needs no permission, and the client is told first. */
  lemma ClusterOpensInterests(cfg: Config, c: Client, sender: nat, i: Interest)
    requires ValidConfig(cfg) && Arrives(c, sender)
    ensures Opened(cfg, c.(nextContext := c.nextContext + 1, sent := c.sent + [InterestAdded(c.nextContext, i)]),
                   i.(internal := false), c.nextContext, sender, Step(cfg, c, News(sender, AddInterestMsg(i))))
  {
    hide AddInterest, Opened, ValidConfig;
    InterestsAreOpened(cfg, c.(nextContext := c.nextContext + 1, sent := c.sent + [InterestAdded(c.nextContext, i)]),
                       i.(internal := false), c.nextContext, sender);
  }

  lemma ClusterRemovesInterests(cfg: Config, c: Client, sender: nat, id: nat)
    requires ValidConfig(cfg) && Arrives(c, sender)
    ensures var d := Step(cfg, c, News(sender, RemoveInterestMsg(id)));
            var next := c.(nextContext := c.nextContext + 1);
            if id !in c.ints.open then d == next
            else Removed(cfg, next.(sent := c.sent + [InterestRemoved(c.nextContext, id)]), id, c.nextContext, sender, d)
  {
    hide RemoveInterest, Removed, ValidConfig;
    if id in c.ints.open {
      InterestsAreRemoved(cfg, c.(nextContext := c.nextContext + 1, sent := c.sent + [InterestRemoved(c.nextContext, id)]),
                          id, c.nextContext, sender);
    }
  }

  /* ---- Parenting rules ---- */

  /** The zones around the avatar that its parent's rule keeps open. */
  function Wanted(rule: Rule, zone: nat): set<nat> {
    if rule.Follow? && zone != INVALID then {zone} else if rule.Cartesian? then Window(rule, zone) else {}
  }

  /** The id `n` places after `start`, from 0xF000 to 0xFFFF and around again. */
  function After(start: nat, n: nat): nat
    requires start >= 0xF000
  {
    0xF000 + (start - 0xF000 + n) % 0x1000
  }

  ghost predicate FreeAt(open: map<nat, Interest>, start: nat, id: nat, next: nat, n: nat)
    requires start >= 0xF000
  {
    && id == After(start, n) && id !in open && next == After(start, n + 1)
    && forall j: nat :: j < n ==> After(start, j) in open
  }

  /** The next id that is free, in this order, and the one behind it; or 0, when none is. */
  ghost predicate NextFree(open: map<nat, Interest>, start: nat, tries: nat, id: nat, next: nat)
    requires start >= 0xF000
  {
    || (exists n: nat :: n < tries && FreeAt(open, start, id, next, n))
    || (id == 0 && next == After(start, tries) && forall j: nat :: j < tries ==> After(start, j) in open)
  }

  lemma AfterNext(start: nat, n: nat)
    requires 0xF000 <= start < 0x1_0000
    ensures After(start, 0) == start && After(start, 1) == if start == 0xFFFF then 0xF000 else start + 1
    ensures After(After(start, 1), n) == After(start, n + 1)
  {
  }

  lemma {:induction false} IdsAreAllocated(open: map<nat, Interest>, start: nat, tries: nat)
    requires 0xF000 <= start < 0x1_0000 && tries > 0
    ensures var (id, next) := Allocate(open, start, tries); NextFree(open, start, tries, id, next)
    decreases tries
  {
    hide After;
    AfterNext(start, 0);
    var (id, next) := Allocate(open, start, tries);
    if start !in open {
      assert FreeAt(open, start, id, next, 0);
    } else if tries > 1 {
      IdsAreAllocated(open, After(start, 1), tries - 1);
      FreeLater(open, start, tries, id, next);
    } else {
      assert forall j: nat :: j < 1 ==> After(start, j) in open;
    }
  }

  lemma FreeLater(open: map<nat, Interest>, start: nat, tries: nat, id: nat, next: nat)
    requires 0xF000 <= start < 0x1_0000 && tries > 1 && start in open
    requires After(start, 1) >= 0xF000 && NextFree(open, After(start, 1), tries - 1, id, next)
    ensures NextFree(open, start, tries, id, next)
  {
    hide After;
    forall n: nat ensures After(After(start, 1), n) == After(start, n + 1) && After(start, 0) == start { AfterNext(start, n); }
    var s := After(start, 1);
    if exists n: nat :: n < tries - 1 && FreeAt(open, s, id, next, n) {
      var n: nat :| n < tries - 1 && FreeAt(open, s, id, next, n);
      forall j: nat | j < n + 1 ensures After(start, j) in open {
        if j > 0 { assert After(s, j - 1) in open; }
      }
      assert FreeAt(open, start, id, next, n + 1);
    } else {
      forall j: nat | j < tries ensures After(start, j) in open {
        if j > 0 { assert After(s, j - 1) in open; }
      }
      assert next == After(start, tries - 1 + 1);
    }
  }

  lemma ZonesAreWanted(rule: Rule, zone: nat)
    ensures RuleZones(rule, zone) == Wanted(rule, zone)
  {
    hide Window;
  }

  /** A rule of the avatar's parent takes effect: one that keeps zones open gets an internal
      interest, if there are any just now. */
  ghost predicate Applied(cfg: Config, c: Client, parent: DoId, rule: Rule, d: Client)
    requires c.avatar.nextId >= 0xF000
  {
    if !rule.Follow? && !rule.Cartesian? then d == c.(avatar := c.avatar.(rule := Some(AvatarRule(parent, rule, 0))))
    else
      var zones := Wanted(rule, c.avatar.at.zone);
      exists id, next :: NextFree(c.ints.open, c.avatar.nextId, 0x1000, id, next) &&
        var e := c.(avatar := c.avatar.(nextId := next, rule := Some(AvatarRule(parent, rule, id))));
        if zones == {} then d == e else Opened(cfg, e, Interest(id, parent, zones, true), 0, 0, d)
  }

  lemma RulesAreApplied(cfg: Config, c: Client, parent: DoId, rule: Rule)
    requires ValidConfig(cfg) && c.connected && 0xF000 <= c.avatar.nextId < 0x1_0000
    ensures Applied(cfg, c, parent, rule, ApplyRule(cfg, c, parent, rule))
  {
    hide Allocate, NextFree, RuleZones, Wanted, AddInterest, Opened, ValidConfig;
    if rule.Follow? || rule.Cartesian? {
      IdsAreAllocated(c.ints.open, c.avatar.nextId, 0x1000);
      ZonesAreWanted(rule, c.avatar.at.zone);
      var (id, next) := Allocate(c.ints.open, c.avatar.nextId, INTERNAL_IDS);
      var e := c.(avatar := c.avatar.(nextId := next, rule := Some(AvatarRule(parent, rule, id))));
      InterestsAreOpened(cfg, e, Interest(id, parent, Wanted(rule, c.avatar.at.zone), true), 0, 0);
    }
  }

  /** The answer to a question about a parent's class gives the avatar its rule, if the avatar
      is still there and has none of this parent yet. A class without a rule has one that
      keeps nothing open. */
  lemma ClassesGiveRules(cfg: Config, c: Client, sender: nat, ctx: nat, doId: DoId, dcId: nat)
    requires ValidConfig(cfg) && Arrives(c, sender) && 0xF000 <= c.avatar.nextId < 0x1_0000
    ensures var d := Step(cfg, c, News(sender, ClassResp(ctx, doId, dcId)));
            if ctx !in c.avatar.lookups then d == c
            else
              var parent := c.avatar.lookups[ctx];
              var asked := c.(avatar := c.avatar.(lookups := c.avatar.lookups - {ctx}));
              var has := c.avatar.rule.Some? && c.avatar.rule.value.parent == parent;
              if doId != parent || c.avatar.at.parent != parent || dcId !in cfg.classes || has then d == asked
              else Applied(cfg, asked, parent, if dcId in cfg.rules then cfg.rules[dcId] else Stated, d)
    ensures Step(cfg, c, LookupTimesOut(ctx)) == c.(avatar := c.avatar.(lookups := c.avatar.lookups - {ctx}))
  {
    hide ApplyRule, Applied, ValidConfig;
    if ctx in c.avatar.lookups {
      var asked := c.(avatar := c.avatar.(lookups := c.avatar.lookups - {ctx}));
      if dcId in cfg.rules {
        RulesAreApplied(cfg, asked, c.avatar.lookups[ctx], cfg.rules[dcId]);
      } else {
        RulesAreApplied(cfg, asked, c.avatar.lookups[ctx], Stated);
        StatedIsRecorded(cfg, asked, c.avatar.lookups[ctx]);
      }
    }
  }

  lemma StatedIsRecorded(cfg: Config, c: Client, parent: DoId)
    ensures ApplyRule(cfg, c, parent, Stated) == c.(avatar := c.avatar.(rule := Some(AvatarRule(parent, Stated, 0))))
  {
  }

  /** The avatar's interest is replaced by one for the zones wanted now. */
  ghost predicate Follows(cfg: Config, c: Client, d: Client)
    requires c.avatar.rule.Some?
  {
    var r := c.avatar.rule.value;
    var zones := Wanted(r.rule, c.avatar.at.zone);
    if !r.rule.Follow? && !r.rule.Cartesian? then d == c
    else if r.interestId in c.ints.open
    then Opened(cfg, c, c.ints.open[r.interestId].(zones := zones, internal := true), 0, 0, d)
    else if zones == {} then d == c
    else Opened(cfg, c, Interest(r.interestId, r.parent, zones, true), 0, 0, d)
  }

  lemma RulesFollow(cfg: Config, c: Client)
    requires ValidConfig(cfg) && c.connected && c.avatar.rule.Some?
    ensures Follows(cfg, c, UpdateRule(cfg, c))
  {
    hide RuleZones, Wanted, AddInterest, Opened, ValidConfig;
    var r := c.avatar.rule.value;
    ZonesAreWanted(r.rule, c.avatar.at.zone);
    var zones := Wanted(r.rule, c.avatar.at.zone);
    if r.interestId in c.ints.open {
      InterestsAreOpened(cfg, c, c.ints.open[r.interestId].(zones := zones, internal := true), 0, 0);
    } else {
      InterestsAreOpened(cfg, c, Interest(r.interestId, r.parent, zones, true), 0, 0);
    }
  }

  /** The rule is forgotten, and its interest removed. */
  ghost predicate Cleared(cfg: Config, c: Client, d: Client) {
    if c.avatar.rule.None? then d == c
    else
      var id := c.avatar.rule.value.interestId;
      if id !in c.ints.open then d == c.(avatar := c.avatar.(rule := None))
      else exists m :: Removed(cfg, c, id, 0, 0, m) && d == m.(avatar := m.avatar.(rule := None))
  }

  lemma RulesAreCleared(cfg: Config, c: Client)
    requires ValidConfig(cfg) && c.connected
    ensures Cleared(cfg, c, ClearRule(cfg, c))
  {
    hide RemoveInterest, Removed, ValidConfig;
    if c.avatar.rule.Some? && c.avatar.rule.value.interestId in c.ints.open {
      InterestsAreRemoved(cfg, c, c.avatar.rule.value.interestId, 0, 0);
    }
  }

  /** Where parenting rules are used, an avatar that changes its parent drops the old rule and
      asks for the class of the new parent, and one that moves within its parent takes the
      rule along. */
  ghost predicate AvatarMoved(cfg: Config, c: Client, to: Location, d: Client) {
    var moved := c.(avatar := c.avatar.(at := to));
    if !cfg.parentingRules then d == moved
    else if to.parent != c.avatar.at.parent then
      exists m :: Cleared(cfg, moved, m)
                  && d == if to.parent == INVALID then m
                          else m.(nextContext := m.nextContext + 1, published := m.published + [GetClass(m.nextContext, to.parent)],
                                  avatar := m.avatar.(lookups := m.avatar.lookups[m.nextContext := to.parent]))
    else if c.avatar.rule.Some? && c.avatar.rule.value.parent == to.parent then Follows(cfg, moved, d)
    else d == moved
  }

  lemma AvatarsMove(cfg: Config, c: Client, to: Location)
    requires ValidConfig(cfg) && c.connected
    ensures AvatarMoved(cfg, c, to, MoveAvatar(cfg, c, to))
  {
    hide ClearRule, UpdateRule, Cleared, Follows, ValidConfig;
    var moved := c.(avatar := c.avatar.(at := to));
    if to.parent != c.avatar.at.parent {
      RulesAreCleared(cfg, moved);
      assert Cleared(cfg, moved, ClearRule(cfg, moved));
    } else if c.avatar.rule.Some? {
      RulesFollow(cfg, moved);
    }
  }

  /** An avatar that moves and stays takes its rule along, and then its location is told. */
  lemma MovedAvatarsAreFollowed(cfg: Config, c: Client, sender: nat, to: Location)
    requires ValidConfig(cfg) && Arrives(c, sender)
    requires var o, doId := c.objs, c.avatar.doId;
             && doId !in o.pending && (doId in o.visible || doId in o.owned)
             && (Open(c.ints.open, to) || doId !in o.visible || (doId in o.session && doId in o.owned))
    ensures var d := Step(cfg, c, News(sender, ChangingLocation(c.avatar.doId, to)));
            exists m :: AvatarMoved(cfg, c.(objs := Moving(c.objs, c.avatar.doId, to)), to, m)
              && d == if m.connected then m.(sent := m.sent + [Moved(c.avatar.doId, to)]) else m
  {
    hide MoveAvatar, AvatarMoved, Open, Covered, ValidConfig;
    OpenIsCovered(c.ints.open, to);
    var moved := c.(objs := Moving(c.objs, c.avatar.doId, to));
    AvatarsMove(cfg, moved, to);
    assert AvatarMoved(cfg, moved, to, MoveAvatar(cfg, moved, to));
  }
}
