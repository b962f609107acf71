/** Complete snapshots of opportunities and the transitions between them. */
module Snapshots {
  import opened Prelude
  import opened IsoTime

  datatype Availability = Available | Unavailable | Unknown

  /** Provider attributes: either serializable to JSON text or not. */
  datatype Attributes = Json(text: string) | Unserializable

  datatype Opportunity = Opportunity(
    id: string, title: string, availability: Availability,
    startsAt: Option<string>, bookingUrl: Option<string>, attributes: Attributes)

  datatype CheckResult = CheckResult(checkedAt: Wall, opportunities: seq<Opportunity>)

  predicate UniqueIds(s: seq<Opportunity>) {
    forall i, j :: 0 <= i < j < |s| ==> s[i].id != s[j].id
  }

  datatype Kind =
    | Appeared | Disappeared | BecameAvailable | BecameUnavailable | AvailabilityUnknown | InitiallyAvailable

  datatype Transition = Transition(
    kind: Kind, id: string, previous: Option<Opportunity>, current: Option<Opportunity>)

  /** Lookup by id; a later entry shadows an earlier one, as in a dictionary. */
  function At(s: seq<Opportunity>, id: string): (o: Option<Opportunity>)
    ensures o.Some? ==> o.value in s && o.value.id == id
    ensures o.None? ==> forall x | x in s :: x.id != id
  {
    if s == [] then None
    else if s[|s| - 1].id == id then Some(s[|s| - 1])
    else At(s[..|s| - 1], id)
  }

  function AvailabilityOf(o: Option<Opportunity>): Option<Availability> {
    if o.Some? then Some(o.value.availability) else None
  }

  function Status(s: seq<Opportunity>, id: string): Option<Availability> {
    AvailabilityOf(At(s, id))
  }

  lemma {:induction false} AtMember(s: seq<Opportunity>, i: nat)
    requires UniqueIds(s) && i < |s|
    ensures At(s, s[i].id) == Some(s[i])
  {
    if i < |s| - 1 { AtMember(s[..|s| - 1], i); }
  }

  function AvailabilityTransition(a: Availability): Kind {
    match a
    case Available => BecameAvailable
    case Unavailable => BecameUnavailable
    case Unknown => AvailabilityUnknown
  }

  function Change(prior: Option<Opportunity>, o: Opportunity): seq<Transition> {
    if prior.None? then [Transition(Appeared, o.id, None, Some(o))]
    else if prior.value.availability == o.availability then []
    else [Transition(AvailabilityTransition(o.availability), o.id, prior, Some(o))]
  }

  function Changes(previous: seq<Opportunity>, current: seq<Opportunity>): seq<Transition> {
    if current == [] then []
    else
      var o := current[|current| - 1];
      Changes(previous, current[..|current| - 1]) + Change(At(previous, o.id), o)
  }

  function Vanished(previous: seq<Opportunity>, current: seq<Opportunity>): seq<Transition> {
    if previous == [] then []
    else
      var o := previous[|previous| - 1];
      Vanished(previous[..|previous| - 1], current)
      + if At(current, o.id).None? then [Transition(Disappeared, o.id, Some(o), None)] else []
  }

  /** Changed and new opportunities in current order, then the vanished ones. */
  function Detect(previous: seq<Opportunity>, current: seq<Opportunity>): seq<Transition> {
    Changes(previous, current) + Vanished(previous, current)
  }

  function DetectInitial(current: seq<Opportunity>): seq<Transition> {
    if current == [] then []
    else
      var o := current[|current| - 1];
      DetectInitial(current[..|current| - 1])
      + if o.availability == Available then [Transition(InitiallyAvailable, o.id, None, Some(o))] else []
  }

  method ById(items: seq<Opportunity>) returns (byId: map<string, Opportunity>)
    ensures forall id :: At(items, id) == if id in byId then Some(byId[id]) else None
  {
    byId := map[];
    for i := 0 to |items|
      invariant forall id :: At(items[..i], id) == if id in byId then Some(byId[id]) else None
    {
      assert items[..i + 1][..i] == items[..i];
      byId := byId[items[i].id := items[i]];
    }
    assert items[..|items|] == items;
  }

  method DetectTransitions(previous: CheckResult, current: CheckResult) returns (transitions: seq<Transition>)
    ensures transitions == Detect(previous.opportunities, current.opportunities)
  {
    var olds, news := previous.opportunities, current.opportunities;
    var previousById := ById(olds);
    var currentById := ById(news);
    transitions := [];
    for i := 0 to |news|
      invariant transitions == Changes(olds, news[..i])
    {
      ChangesStep(olds, news, i);
      var o := news[i];
      if o.id !in previousById {
        transitions := transitions + [Transition(Appeared, o.id, None, Some(o))];
        continue;
      }
      var prior := previousById[o.id];
      if prior.availability == o.availability {
        continue;
      }
      transitions := transitions + [Transition(AvailabilityTransition(o.availability), o.id, Some(prior), Some(o))];
    }
    assert news[..|news|] == news;
    for i := 0 to |olds|
      invariant transitions == Changes(olds, news) + Vanished(olds[..i], news)
    {
      VanishedStep(olds, news, i);
      var o := olds[i];
      if o.id !in currentById {
        transitions := transitions + [Transition(Disappeared, o.id, Some(o), None)];
      }
    }
    assert olds[..|olds|] == olds;
  }

  lemma {:induction false} ChangesStep(previous: seq<Opportunity>, current: seq<Opportunity>, i: nat)
    requires i < |current|
    ensures Changes(previous, current[..i + 1])
         == Changes(previous, current[..i]) + Change(At(previous, current[i].id), current[i])
  {
    assert current[..i + 1][..i] == current[..i];
  }

  lemma {:induction false} VanishedStep(previous: seq<Opportunity>, current: seq<Opportunity>, i: nat)
    requires i < |previous|
    ensures Vanished(previous[..i + 1], current)
         == Vanished(previous[..i], current)
            + if At(current, previous[i].id).None?
              then [Transition(Disappeared, previous[i].id, Some(previous[i]), None)] else []
  {
    assert previous[..i + 1][..i] == previous[..i];
  }

  /* ---------- what the transitions say ---------- */

  predicate DistinctSubjects(ts: seq<Transition>) {
    forall i, j :: 0 <= i < j < |ts| ==> ts[i].id != ts[j].id
  }

  function KindOf(prior: Option<Availability>, next: Option<Availability>): Kind {
    if prior.None? then Appeared else if next.None? then Disappeared else AvailabilityTransition(next.value)
  }

  /** `t` records how its id changed from one snapshot to the other. */
  ghost predicate Records(t: Transition, previous: seq<Opportunity>, current: seq<Opportunity>) {
    && t.previous == At(previous, t.id) && t.current == At(current, t.id)
    && Status(previous, t.id) != Status(current, t.id)
    && t.kind == KindOf(Status(previous, t.id), Status(current, t.id))
  }

  ghost predicate Mentions(ts: seq<Transition>, id: string) {
    exists i :: 0 <= i < |ts| && ts[i].id == id
  }

  lemma {:induction false} MentionsConcat(a: seq<Transition>, b: seq<Transition>, id: string)
    ensures Mentions(a + b, id) <==> Mentions(a, id) || Mentions(b, id)
  {
    var ts := a + b;
    if Mentions(a, id) { var i :| 0 <= i < |a| && a[i].id == id; assert ts[i].id == id; }
    if Mentions(b, id) { var i :| 0 <= i < |b| && b[i].id == id; assert ts[|a| + i].id == id; }
  }

  lemma {:induction false} MentionsOne(t: Transition, id: string)
    ensures Mentions([t], id) <==> t.id == id
  {
    assert [t][0] == t;
  }

  lemma {:induction false} ChangesMention(previous: seq<Opportunity>, current: seq<Opportunity>, id: string)
    requires UniqueIds(current)
    ensures Mentions(Changes(previous, current), id)
       <==> At(current, id).Some? && Status(previous, id) != Status(current, id)
  {
    if current != [] {
      var front, o := current[..|current| - 1], current[|current| - 1];
      ChangesMention(previous, front, id);
      var step := Change(At(previous, o.id), o);
      MentionsConcat(Changes(previous, front), step, id);
      if step != [] { MentionsOne(step[0], id); assert step == [step[0]]; }
      if id == o.id { assert At(front, id).None?; }
    }
  }

  lemma {:induction false} ChangesRecord(previous: seq<Opportunity>, current: seq<Opportunity>)
    requires UniqueIds(current)
    ensures forall t | t in Changes(previous, current) :: Records(t, previous, current) && t.current.Some?
  {
    if current != [] {
      var front, o := current[..|current| - 1], current[|current| - 1];
      ChangesRecord(previous, front);
      assert At(front, o.id).None?;
      forall t | t in Changes(previous, front)
        ensures t.id != o.id && Records(t, previous, current)
      {
        StillChanged(t, previous, front, o);
        assert current == front + [o];
      }
    }
  }

  lemma {:induction false} ChangesDistinct(previous: seq<Opportunity>, current: seq<Opportunity>)
    requires UniqueIds(current)
    ensures DistinctSubjects(Changes(previous, current))
  {
    if current != [] {
      var front, o := current[..|current| - 1], current[|current| - 1];
      ChangesDistinct(previous, front);
      ChangesRecord(previous, front);
      assert At(front, o.id).None?;
      forall t | t in Changes(previous, front)
        ensures t.id != o.id
      {
        assert Records(t, previous, front);
      }
    }
  }

  lemma {:induction false} StillChanged(
      t: Transition, previous: seq<Opportunity>, front: seq<Opportunity>, o: Opportunity)
    requires At(front, o.id).None? && t.current.Some? && Records(t, previous, front)
    ensures t.id != o.id && Records(t, previous, front + [o])
  {
    assert (front + [o])[..|front|] == front;
  }

  lemma {:induction false} VanishedMention(previous: seq<Opportunity>, current: seq<Opportunity>, id: string)
    requires UniqueIds(previous)
    ensures Mentions(Vanished(previous, current), id) <==> At(previous, id).Some? && At(current, id).None?
  {
    if previous != [] {
      var front, o := previous[..|previous| - 1], previous[|previous| - 1];
      VanishedMention(front, current, id);
      var t := Transition(Disappeared, o.id, Some(o), None);
      MentionsConcat(Vanished(front, current), if At(current, o.id).None? then [t] else [], id);
      MentionsOne(t, id);
      if id == o.id { assert At(front, id).None?; }
    }
  }

  lemma {:induction false} GoneRecords(front: seq<Opportunity>, o: Opportunity, current: seq<Opportunity>)
    requires At(current, o.id).None?
    ensures Records(Transition(Disappeared, o.id, Some(o), None), front + [o], current)
  {
    assert At(front + [o], o.id) == Some(o);
  }

  lemma {:induction false} VanishedRecord(previous: seq<Opportunity>, current: seq<Opportunity>)
    requires UniqueIds(previous)
    ensures forall t | t in Vanished(previous, current) :: Records(t, previous, current) && t.current.None?
  {
    if previous != [] {
      var front, o := previous[..|previous| - 1], previous[|previous| - 1];
      assert previous == front + [o] && At(front, o.id).None?;
      VanishedRecord(front, current);
      forall t | t in Vanished(front, current) ensures Records(t, previous, current) {
        StillRecords(t, front, o, current);
      }
      if At(current, o.id).None? { GoneRecords(front, o, current); }
    }
  }

  lemma {:induction false} VanishedDistinct(previous: seq<Opportunity>, current: seq<Opportunity>)
    requires UniqueIds(previous)
    ensures DistinctSubjects(Vanished(previous, current))
  {
    if previous != [] {
      var front, o := previous[..|previous| - 1], previous[|previous| - 1];
      VanishedDistinct(front, current);
      VanishedRecord(front, current);
      assert At(front, o.id).None?;
      forall t | t in Vanished(front, current) ensures t.id != o.id {
        StillRecords(t, front, o, current);
      }
    }
  }

  lemma {:induction false} StillRecords(
      t: Transition, front: seq<Opportunity>, o: Opportunity, current: seq<Opportunity>)
    requires At(front, o.id).None? && t.current.None? && Records(t, front, current)
    ensures t.id != o.id && Records(t, front + [o], current)
  {
    assert At(front, t.id).Some?;
    assert (front + [o])[..|front|] == front;
  }

  /**
   * Exactly the ids whose availability (or presence) differs are reported, once
   * each, with the kind and both states the two snapshots give them.
   */
  lemma {:induction false} DetectExact(previous: seq<Opportunity>, current: seq<Opportunity>)
    requires UniqueIds(previous) && UniqueIds(current)
    ensures DistinctSubjects(Detect(previous, current))
    ensures forall t | t in Detect(previous, current) :: Records(t, previous, current)
    ensures forall id :: Mentions(Detect(previous, current), id) <==> Status(previous, id) != Status(current, id)
  {
    ChangesRecord(previous, current);
    ChangesDistinct(previous, current);
    VanishedRecord(previous, current);
    VanishedDistinct(previous, current);
    var a, b, ts := Changes(previous, current), Vanished(previous, current), Detect(previous, current);
    forall i, j | 0 <= i < j < |ts|
      ensures ts[i].id != ts[j].id
    {
      if i < |a| <= j {
        assert a[i] in a && b[j - |a|] in b;
        assert Records(a[i], previous, current) && Records(b[j - |a|], previous, current);
      }
    }
    forall id
      ensures Mentions(ts, id) <==> Status(previous, id) != Status(current, id)
    {
      MentionsConcat(a, b, id);
      ChangesMention(previous, current, id);
      VanishedMention(previous, current, id);
    }
  }

  /** What each kind says, read off the two snapshots. */
  lemma {:induction false} KindMeans(previous: seq<Opportunity>, current: seq<Opportunity>, t: Transition)
    requires UniqueIds(previous) && UniqueIds(current) && t in Detect(previous, current)
    ensures t.kind == Appeared <==> Status(previous, t.id).None?
    ensures t.kind == Disappeared <==> Status(current, t.id).None?
    ensures t.kind == BecameAvailable <==> Status(previous, t.id).Some? && Status(current, t.id) == Some(Available)
    ensures t.kind == BecameUnavailable <==> Status(previous, t.id).Some? && Status(current, t.id) == Some(Unavailable)
    ensures t.kind == AvailabilityUnknown <==> Status(previous, t.id).Some? && Status(current, t.id) == Some(Unknown)
  {
    DetectExact(previous, current);
    assert Records(t, previous, current);
  }

  /** A first snapshot reports exactly its available opportunities, once each. */
  lemma {:induction false} InitialExact(current: seq<Opportunity>)
    requires UniqueIds(current)
    ensures DistinctSubjects(DetectInitial(current))
    ensures forall t | t in DetectInitial(current) ::
              t.kind == InitiallyAvailable && t.previous.None? && t.current == At(current, t.id) && t.current.Some?
    ensures forall id :: Mentions(DetectInitial(current), id) <==> Status(current, id) == Some(Available)
  {
    if current != [] {
      var front, o := current[..|current| - 1], current[|current| - 1];
      InitialExact(front);
      var t := Transition(InitiallyAvailable, o.id, None, Some(o));
      var step := if o.availability == Available then [t] else [];
      assert At(front, o.id).None?;
      assert forall u | u in DetectInitial(front) :: u.id != o.id;
      forall id
        ensures Mentions(DetectInitial(current), id) <==> Status(current, id) == Some(Available)
      {
        MentionsConcat(DetectInitial(front), step, id);
        MentionsOne(t, id);
      }
    }
  }

  /* ---------- the order of the report ---------- */

  /** One id is listed before the other. */
  ghost predicate ListedBefore(s: seq<Opportunity>, id: string, other: string) {
    exists k, l :: 0 <= k < l < |s| && s[k].id == id && s[l].id == other
  }

  lemma {:induction false} ListedBeforeInLonger(s: seq<Opportunity>, o: Opportunity, id: string, other: string)
    ensures ListedBefore(s, id, other) ==> ListedBefore(s + [o], id, other)
    ensures (exists x :: x in s && x.id == id) && o.id == other ==> ListedBefore(s + [o], id, other)
  {
    var all := s + [o];
    if k, l :| 0 <= k < l < |s| && s[k].id == id && s[l].id == other {
      assert all[k].id == id && all[l].id == other;
    }
    if x :| x in s && x.id == id {
      var k :| 0 <= k < |s| && s[k] == x;
      assert all[k].id == id && all[|s|] == o;
    }
  }

  ghost predicate FollowsOrder(ts: seq<Transition>, s: seq<Opportunity>) {
    forall i, j | 0 <= i < j < |ts| :: ListedBefore(s, ts[i].id, ts[j].id)
  }

  /** Every report of these is about a listed opportunity. */
  ghost predicate AboutListed(ts: seq<Transition>, s: seq<Opportunity>) {
    forall t | t in ts :: exists x :: x in s && x.id == t.id
  }

  /** At most one report about the next opportunity, behind the others, keeps the order. */
  lemma {:induction false} OrderGrows(ts: seq<Transition>, s: seq<Opportunity>, step: seq<Transition>, o: Opportunity)
    requires FollowsOrder(ts, s) && AboutListed(ts, s)
    requires step == [] || (|step| == 1 && step[0].id == o.id)
    ensures FollowsOrder(ts + step, s + [o]) && AboutListed(ts + step, s + [o])
  {
    var all := ts + step;
    forall i, j | 0 <= i < j < |all| ensures ListedBefore(s + [o], all[i].id, all[j].id) {
      assert all[i] in ts;
      ListedBeforeInLonger(s, o, all[i].id, all[j].id);
    }
    forall t | t in all ensures exists x :: x in s + [o] && x.id == t.id {
      if t in ts {
        var x :| x in s && x.id == t.id;
        assert x in s + [o];
      } else {
        assert o in s + [o];
      }
    }
  }

  lemma {:induction false} ChangesInOrder(previous: seq<Opportunity>, current: seq<Opportunity>)
    ensures FollowsOrder(Changes(previous, current), current) && AboutListed(Changes(previous, current), current)
  {
    if current != [] {
      var front, o := current[..|current| - 1], current[|current| - 1];
      ChangesInOrder(previous, front);
      OrderGrows(Changes(previous, front), front, Change(At(previous, o.id), o), o);
      assert current == front + [o];
    }
  }

  lemma {:induction false} VanishedInOrder(previous: seq<Opportunity>, current: seq<Opportunity>)
    ensures FollowsOrder(Vanished(previous, current), previous) && AboutListed(Vanished(previous, current), previous)
  {
    if previous != [] {
      var front, o := previous[..|previous| - 1], previous[|previous| - 1];
      VanishedInOrder(front, current);
      OrderGrows(Vanished(front, current), front,
                 if At(current, o.id).None? then [Transition(Disappeared, o.id, Some(o), None)] else [], o);
      assert previous == front + [o];
    }
  }

  /** A first report follows the order of the snapshot. */
  lemma {:induction false} InitialInOrder(current: seq<Opportunity>)
    ensures FollowsOrder(DetectInitial(current), current) && AboutListed(DetectInitial(current), current)
  {
    if current != [] {
      var front, o := current[..|current| - 1], current[|current| - 1];
      InitialInOrder(front);
      OrderGrows(DetectInitial(front), front,
                 if o.availability == Available then [Transition(InitiallyAvailable, o.id, None, Some(o))] else [], o);
      assert current == front + [o];
    }
  }

  /**
   * A report follows the order of the current snapshot and then, for the
   * opportunities that are gone, the order of the previous one.
   */
  lemma {:induction false} ReportInOrder(previous: seq<Opportunity>, current: seq<Opportunity>, i: nat, j: nat)
    requires UniqueIds(previous) && UniqueIds(current) && i < j < |Detect(previous, current)|
    ensures var t, u := Detect(previous, current)[i], Detect(previous, current)[j];
      if u.current.Some? then t.current.Some? && ListedBefore(current, t.id, u.id)
      else t.current.Some? || ListedBefore(previous, t.id, u.id)
  {
    var a, b := Changes(previous, current), Vanished(previous, current);
    ChangesInOrder(previous, current);
    VanishedInOrder(previous, current);
    ChangesAreCurrent(previous, current);
    VanishedAreGone(previous, current);
    if j < |a| { assert a[i] in a && a[j] in a; }
    else if i < |a| { assert a[i] in a; }
    else { assert b[i - |a|] in b && b[j - |a|] in b; }
  }

  lemma {:induction false} ChangesAreCurrent(previous: seq<Opportunity>, current: seq<Opportunity>)
    ensures forall t | t in Changes(previous, current) :: t.current.Some?
  {
    if current != [] { ChangesAreCurrent(previous, current[..|current| - 1]); }
  }

  lemma {:induction false} VanishedAreGone(previous: seq<Opportunity>, current: seq<Opportunity>)
    ensures forall t | t in Vanished(previous, current) :: t.current.None?
  {
    if previous != [] { VanishedAreGone(previous[..|previous| - 1], current); }
  }

  /* ---------- transitions as a patch language ---------- */

  /** Availability by id. */
  function Statuses(s: seq<Opportunity>): (m: map<string, Availability>)
    ensures forall id :: Status(s, id) == if id in m then Some(m[id]) else None
  {
    if s == [] then map[] else
      var o := s[|s| - 1];
      Statuses(s[..|s| - 1])[o.id := o.availability]
  }

  function SetStatus(m: map<string, Availability>, id: string, a: Option<Availability>): map<string, Availability> {
    if a.Some? then m[id := a.value] else m - {id}
  }

  function Replay(m: map<string, Availability>, ts: seq<Transition>): map<string, Availability> {
    if ts == [] then m else
      var t := ts[|ts| - 1];
      SetStatus(Replay(m, ts[..|ts| - 1]), t.id, AvailabilityOf(t.current))
  }

  function Lookup(m: map<string, Availability>, id: string): Option<Availability> {
    if id in m then Some(m[id]) else None
  }

  lemma {:induction false} ReplayPointwise(m: map<string, Availability>, ts: seq<Transition>)
    requires DistinctSubjects(ts)
    ensures forall i | 0 <= i < |ts| :: Lookup(Replay(m, ts), ts[i].id) == AvailabilityOf(ts[i].current)
    ensures forall id | !Mentions(ts, id) :: Lookup(Replay(m, ts), id) == Lookup(m, id)
  {
    if ts != [] {
      var front, t := ts[..|ts| - 1], ts[|ts| - 1];
      ReplayPointwise(m, front);
      assert ts == front + [t];
      forall i | 0 <= i < |front|
        ensures Lookup(Replay(m, ts), ts[i].id) == AvailabilityOf(ts[i].current)
      {
        assert front[i] == ts[i];
      }
      forall id | !Mentions(ts, id)
        ensures Lookup(Replay(m, ts), id) == Lookup(m, id)
      {
        MentionsConcat(front, [t], id);
        MentionsOne(t, id);
      }
    }
  }

  lemma {:induction false} SameLookups(m: map<string, Availability>, n: map<string, Availability>)
    requires forall id :: Lookup(m, id) == Lookup(n, id)
    ensures m == n
  {
    forall id
      ensures id in m <==> id in n
      ensures id in m ==> m[id] == n[id]
    {
      assert Lookup(m, id) == Lookup(n, id);
    }
  }

  /** Replaying the transitions over the older snapshot gives the newer one. */
  lemma {:induction false} ReplayReproduces(previous: seq<Opportunity>, current: seq<Opportunity>)
    requires UniqueIds(previous) && UniqueIds(current)
    ensures Replay(Statuses(previous), Detect(previous, current)) == Statuses(current)
  {
    DetectExact(previous, current);
    var ts := Detect(previous, current);
    var result := Replay(Statuses(previous), ts);
    ReplayPointwise(Statuses(previous), ts);
    forall id
      ensures Lookup(result, id) == Lookup(Statuses(current), id)
    {
      if Mentions(ts, id) {
        var i :| 0 <= i < |ts| && ts[i].id == id;
        assert ts[i] in ts && Records(ts[i], previous, current);
      }
    }
    SameLookups(result, Statuses(current));
  }

  /** The same changes read backwards. */
  function Undo(ts: seq<Transition>): (u: seq<Transition>)
    ensures |u| == |ts|
    ensures forall i | 0 <= i < |ts| :: u[i] == ts[i].(previous := ts[i].current, current := ts[i].previous)
  {
    seq(|ts|, i requires 0 <= i < |ts| => ts[i].(previous := ts[i].current, current := ts[i].previous))
  }

  /** Undoing the transitions over the newer snapshot gives the older one back. */
  lemma {:induction false} UndoRestores(previous: seq<Opportunity>, current: seq<Opportunity>)
    requires UniqueIds(previous) && UniqueIds(current)
    ensures Replay(Statuses(current), Undo(Detect(previous, current))) == Statuses(previous)
  {
    DetectExact(previous, current);
    var ts := Detect(previous, current);
    var us := Undo(ts);
    var result := Replay(Statuses(current), us);
    ReplayPointwise(Statuses(current), us);
    forall id
      ensures Lookup(result, id) == Lookup(Statuses(previous), id)
    {
      if Mentions(ts, id) {
        var i :| 0 <= i < |ts| && ts[i].id == id;
        assert ts[i] in ts && Records(ts[i], previous, current) && us[i].id == id;
      } else {
        assert !Mentions(us, id);
      }
    }
    SameLookups(result, Statuses(previous));
  }

  /** Nothing is reported iff no availability or presence changed. */
  lemma {:induction false} SilentIffUnchanged(previous: seq<Opportunity>, current: seq<Opportunity>)
    requires UniqueIds(previous) && UniqueIds(current)
    ensures Detect(previous, current) == [] <==> Statuses(previous) == Statuses(current)
  {
    DetectExact(previous, current);
    var ts := Detect(previous, current);
    if ts == [] {
      forall id
        ensures Lookup(Statuses(previous), id) == Lookup(Statuses(current), id)
      {
        assert !Mentions(ts, id);
        assert Status(previous, id) == Status(current, id);
      }
      SameLookups(Statuses(previous), Statuses(current));
    } else {
      assert ts[0] in ts && Records(ts[0], previous, current);
      assert Lookup(Statuses(previous), ts[0].id) != Lookup(Statuses(current), ts[0].id);
    }
  }

  /* ---------- histories ---------- */

  type History = h: seq<seq<Opportunity>> | forall i :: 0 <= i < |h| ==> UniqueIds(h[i])

  /** The transitions recorded with snapshot `n` of a job's history. */
  function Emitted(h: seq<seq<Opportunity>>, n: nat): seq<Transition>
    requires n < |h|
  {
    if n == 0 then DetectInitial(h[0]) else Detect(h[n - 1], h[n])
  }

  /** All transitions recorded after the first snapshot, in order. */
  function Log(h: seq<seq<Opportunity>>): seq<Transition> {
    if |h| <= 1 then [] else Log(h[..|h| - 1]) + Emitted(h, |h| - 1)
  }

  lemma {:induction false} ReplayConcat(m: map<string, Availability>, a: seq<Transition>, b: seq<Transition>)
    ensures Replay(m, a + b) == Replay(Replay(m, a), b)
  {
    if b == [] {
      assert a + b == a;
    } else {
      var front := b[..|b| - 1];
      assert (a + b)[..|a + b| - 1] == a + front;
      ReplayConcat(m, a, front);
    }
  }

  lemma {:induction false} ReplayMore(start: map<string, Availability>, log: seq<Transition>,
                   previous: seq<Opportunity>, current: seq<Opportunity>)
    requires UniqueIds(previous) && UniqueIds(current)
    requires Replay(start, log) == Statuses(previous)
    ensures Replay(start, log + Detect(previous, current)) == Statuses(current)
  {
    ReplayConcat(start, log, Detect(previous, current));
    ReplayReproduces(previous, current);
  }

  /** For any history, the whole log over the first snapshot gives the last one. */
  lemma {:induction false} HistoryReplays(h: History)
    requires |h| > 0
    ensures Replay(Statuses(h[0]), Log(h)) == Statuses(h[|h| - 1])
    decreases |h|
  {
    var last := |h| - 1;
    if last == 0 {
      assert Log(h) == [];
    } else {
      HistoryReplays(h[..last]);
      ReplayMore(Statuses(h[0]), Log(h[..last]), h[last - 1], h[last]);
      assert Log(h) == Log(h[..last]) + Detect(h[last - 1], h[last]);
    }
  }

  /** A became-available report: before it the id was not available, after it it is. */
  lemma {:induction false} BecameAvailableMeans(h: History, n: nat, t: Transition)
    requires n < |h| && t in Emitted(h, n) && t.kind == BecameAvailable
    ensures n > 0 && Status(h[n - 1], t.id) != Some(Available) && Status(h[n], t.id) == Some(Available)
  {
    if n == 0 {
      InitialExact(h[0]);
    } else {
      DetectExact(h[n - 1], h[n]);
      assert Records(t, h[n - 1], h[n]);
    }
  }

  /**
   * Between two reports that one opportunity became available lies a snapshot
   * in which it was not available.
   */
  lemma {:induction false} AvailableReportsAreSeparated(h: History, m: nat, n: nat, t: Transition, u: Transition)
    requires m < n < |h|
    requires t in Emitted(h, m) && u in Emitted(h, n)
    requires t.kind == u.kind == BecameAvailable && t.id == u.id
    ensures exists k :: m < k < n && Status(h[k], t.id) != Some(Available)
  {
    BecameAvailableMeans(h, m, t);
    BecameAvailableMeans(h, n, u);
    assert Status(h[n - 1], t.id) != Some(Available);
  }
}
