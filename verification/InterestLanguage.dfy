/** The messages about one object, as a language. */
module InterestLanguage {
  import opened Common
  import opened InterestModel
  import opened InterestMirror

  datatype Word = Enters | Talks | Leaves | Owner

  /** The messages about `d`, in the order in which they were sent. */
  function About(d: DoId, sent: seq<ToClient>): seq<Word> {
    if sent == [] then []
    else
      var before := About(d, sent[..|sent| - 1]);
      match sent[|sent| - 1]
      case Entered(e) => if e.doId == d then before + [Enters] else before
      case Leaving(doId) => if doId == d then before + [Leaves] else before
      case FieldSet(doId, _, _) => if doId == d then before + [Talks] else before
      case FieldsSet(doId, _, _) => if doId == d then before + [Talks] else before
      case Moved(doId, _) => if doId == d then before + [Talks] else before
      case OwnerEntered(e) => if e.doId == d then before + [Owner] else before
      case OwnerLeaving(doId) => if doId == d then before + [Owner] else before
      case _ => before
  }

  /** The prefixes of (ENTERS TALKS* LEAVES)*. */
  predicate Visits(words: seq<Word>) {
    words == [] || (words[0] == Enters && Visit(words[1..]))
  }

  /** What may follow the first word of a visit. */
  predicate Visit(words: seq<Word>) {
    || words == []
    || (words[0] == Talks && Visit(words[1..]))
    || (words[0] == Leaves && Visits(words[1..]))
  }

  predicate Inside(words: seq<Word>) {
    words != [] && words[|words| - 1] != Leaves
  }

  lemma {:induction false} VisitsGoOn(words: seq<Word>, w: Word)
    requires if Inside(words) then w == Talks || w == Leaves else w == Enters
    ensures Visits(words) ==> Visits(words + [w])
    decreases |words|, 1
  {
    if words != [] {
      assert (words + [w])[1..] == words[1..] + [w];
      if words[0] == Enters {
        if |words| == 1 {
          assert words[1..] + [w] == [w];
        } else {
          VisitGoesOn(words[1..], w);
        }
      }
    }
  }

  lemma {:induction false} VisitGoesOn(words: seq<Word>, w: Word)
    requires words != [] && if Inside(words) then w == Talks || w == Leaves else w == Enters
    ensures Visit(words) ==> Visit(words + [w])
    decreases |words|, 0
  {
    assert (words + [w])[1..] == words[1..] + [w];
    if |words| == 1 {
      assert words[1..] + [w] == [w];
    } else {
      VisitGoesOn(words[1..], w);
      VisitsGoOn(words[1..], w);
    }
  }

  /** Messages that make sense to a client speak of an object only while it is there. */
  lemma {:induction false} SensibleIsVisits(named: set<DoId>, sent: seq<ToClient>, d: DoId)
    requires AllSensible(named, sent) && d !in named && d != INVALID && Owner !in About(d, sent)
    ensures Visits(About(d, sent))
    ensures Inside(About(d, sent)) <==> d in ViewOf(sent).seen
    ensures d !in ViewOf(sent).owned
    decreases |sent|
  {
    if sent != [] {
      var before := sent[..|sent| - 1];
      SensibleIsVisits(named, before, d);
      if About(d, sent) != About(d, before) {
        var w := About(d, sent)[|About(d, sent)| - 1];
        assert About(d, sent) == About(d, before) + [w];
        VisitsGoOn(About(d, before), w);
      }
    }
  }

  /** In every run, what a client hears of an object that was never declared to it and
      that it never owned is a sequence of visits; and while the client is connected the
      last of them is still going on exactly when the agent believes the object is seen. */
  lemma {:induction false} ObjectsComeAndGo(cfg: Config, channel: nat, events: seq<Event>, d: DoId)
    requires ValidConfig(cfg) && d != INVALID
    ensures var c := Run(cfg, channel, events);
            d !in Named(cfg, c) && Owner !in About(d, c.sent) ==>
              && Visits(About(d, c.sent))
              && (c.connected ==> (Inside(About(d, c.sent)) <==> d in c.objs.seen))
  {
    var c := Run(cfg, channel, events);
    ClientMirrorsAgent(cfg, channel, events);
    if d !in Named(cfg, c) && Owner !in About(d, c.sent) {
      SensibleIsVisits(Named(cfg, c), c.sent, d);
    }
  }
}
