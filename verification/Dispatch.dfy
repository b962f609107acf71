/**
 * One pass of the notification dispatcher over the outbox, run without
 * interleaving, and the progress that repeated passes guarantee. Interleaved
 * passes are the subject of DeliveryProtocol.
 */
module Dispatch {
  import opened Prelude
  import opened IsoTime
  import opened Tables
  import opened Integrity
  import opened Store

  /** When a delivery was attempted and how the adapter (or its lookup) failed, if it did. */
  datatype Attempt = Attempt(at: Wall, failure: Option<string>)

  /** What happens to each row if this pass attempts it. */
  type Weather = nat -> Attempt

  datatype DeliverySummary = DeliverySummary(delivered: nat, failed: nat)

  function AttemptRow(outbox: map<nat, Notification>, id: nat, w: Weather): map<nat, Notification> {
    var r := AfterAttempt(outbox, id, w(id).at, w(id).failure);
    if r.Success? then r.value else outbox
  }

  function Pass(outbox: map<nat, Notification>, ids: seq<nat>, w: Weather): map<nat, Notification> {
    if ids == [] then outbox else AttemptRow(Pass(outbox, ids[..|ids| - 1], w), ids[|ids| - 1], w)
  }

  /** The rows a pass attempts. */
  ghost function Listed(outbox: map<nat, Notification>, limit: int): seq<nat> {
    var ids := PendingIds(outbox);
    if limit <= 0 then [] else if limit < |ids| then ids[..limit] else ids
  }

  ghost function Awaiting(outbox: map<nat, Notification>): set<nat> {
    set n | n in outbox && outbox[n].deliveredAt.None?
  }

  function Settled(row: Notification, a: Attempt): Notification {
    Notification(row.transition, SettledItem(row.item, a.at, a.failure), if a.failure.None? then Some(a.at) else None)
  }

  /** The state of every row after a pass: each attempted row settled once. */
  lemma {:induction false} PassPointwise(outbox: map<nat, Notification>, ids: seq<nat>, w: Weather, n: nat)
    requires Distinct(ids) && forall i | i in ids :: i in Awaiting(outbox)
    ensures Pass(outbox, ids, w).Keys == outbox.Keys
    ensures n in outbox ==> Pass(outbox, ids, w)[n] == if n in ids then Settled(outbox[n], w(n)) else outbox[n]
    ensures n in outbox && n in ids ==>
      && AttemptedOnce(outbox[n].item, Pass(outbox, ids, w)[n].item, w(n).at, w(n).failure)
      && Pass(outbox, ids, w)[n].deliveredAt == (if w(n).failure.None? then Some(w(n).at) else None)
  {
    if ids != [] {
      var front, last := ids[..|ids| - 1], ids[|ids| - 1];
      assert last in ids && last !in front;
      assert ids == front + [last];
      PassPointwise(outbox, front, w, n);
      PassPointwise(outbox, front, w, last);
    }
  }

  /** How many of the rows a pass delivers. */
  function Successes(ids: seq<nat>, w: Weather): nat {
    if ids == [] then 0 else
      Successes(ids[..|ids| - 1], w) + if w(ids[|ids| - 1]).failure.None? then 1 else 0
  }

  class NotificationService {
    const store: SQLiteObservationStore

    constructor (store: SQLiteObservationStore)
      ensures this.store == store
    {
      this.store := store;
    }

    /**
     * Attempts every listed row once; a failing channel does not stop the others,
     * and no row is gone by the time its outcome is written back.
     */
    method DispatchPending(limit: int, w: Weather) returns (r: Result<DeliverySummary, StoreError>)
      requires store.Valid()
      modifies store`outbox
      ensures store.Valid()
      ensures store.outbox == Pass(old(store.outbox), Listed(old(store.outbox), limit), w)
      ensures r.Success? && r.value.delivered == Successes(Listed(old(store.outbox), limit), w)
      ensures r.Success? && r.value.delivered + r.value.failed == |Listed(old(store.outbox), limit)|
    {
      PassKeepsConsistent(store.Tables(), Listed(store.outbox, limit), w);
      r := AttemptAll(limit, w);
    }

    method AttemptAll(limit: int, w: Weather) returns (r: Result<DeliverySummary, StoreError>)
      modifies store`outbox
      ensures store.outbox == Pass(old(store.outbox), Listed(old(store.outbox), limit), w)
      ensures r.Success? && r.value.delivered == Successes(Listed(old(store.outbox), limit), w)
      ensures r.Success? && r.value.delivered + r.value.failed == |Listed(old(store.outbox), limit)|
    {
      ghost var before := store.outbox;
      ghost var ids := Listed(before, limit);
      ListedFacts(before, limit);
      var delivered, failed := 0, 0;
      var pending := store.ListPendingNotifications(limit);
      for i := 0 to |pending|
        invariant |pending| == |ids| && store.outbox == Pass(before, ids[..i], w)
        invariant delivered + failed == i && delivered == Successes(ids[..i], w)
      {
        var id := pending[i].id;
        NextIsAwaiting(before, ids, i, w);
        var attempt := w(id);
        if attempt.failure.Some? {
          var recorded := store.RecordNotificationFailure(id, attempt.at, attempt.failure.value);
          failed := failed + 1;
          continue;
        }
        var marked := store.MarkNotificationDelivered(id, attempt.at);
        delivered := delivered + 1;
      }
      assert ids[..|ids|] == ids;
      return Success(DeliverySummary(delivered, failed));
    }
  }

  lemma {:induction false} PassKeepsConsistent(db: Db, ids: seq<nat>, w: Weather)
    requires Consistent(db)
    ensures Consistent(db.(outbox := Pass(db.outbox, ids, w)))
  {
    if ids != [] {
      var last := |ids| - 1;
      PassKeepsConsistent(db, ids[..last], w);
      AttemptKeepsConsistent(db.(outbox := Pass(db.outbox, ids[..last], w)), ids[last], w(ids[last]).at,
        w(ids[last]).failure);
    }
  }

  lemma {:induction false} ListedFacts(outbox: map<nat, Notification>, limit: int)
    ensures var ids := Listed(outbox, limit);
      && Distinct(ids) && ids <= PendingIds(outbox)
      && (forall n | n in ids :: n in Awaiting(outbox))
      && |ids| == if limit <= 0 then 0 else if limit < |PendingIds(outbox)| then limit else |PendingIds(outbox)|
  {
    var ids := Listed(outbox, limit);
    forall n | n in ids
      ensures n in Awaiting(outbox)
    {
      assert n in PendingIds(outbox);
    }
  }

  /** The next listed row is still undelivered when its turn comes. */
  lemma {:induction false} NextIsAwaiting(outbox: map<nat, Notification>, ids: seq<nat>, i: nat, w: Weather)
    requires i < |ids| && Distinct(ids) && forall n | n in ids :: n in Awaiting(outbox)
    ensures var after := Pass(outbox, ids[..i], w);
      && AfterAttempt(after, ids[i], w(ids[i]).at, w(ids[i]).failure) == Success(Pass(outbox, ids[..i + 1], w))
      && Successes(ids[..i + 1], w) == Successes(ids[..i], w) + if w(ids[i]).failure.None? then 1 else 0
  {
    PassPointwise(outbox, ids[..i], w, ids[i]);
    assert ids[i] !in ids[..i] && ids[i] in ids;
    assert ids[..i + 1][..i] == ids[..i];
  }

  /* ---------- progress ---------- */

  ghost function Delivered(ids: seq<nat>, w: Weather): set<nat> {
    set n | n in ids && w(n).failure.None?
  }

  ghost function Delivers(outbox: map<nat, Notification>, limit: int, w: Weather): set<nat> {
    Delivered(Listed(outbox, limit), w)
  }

  /** Undelivered rows whose channel works, and those whose channel does not. */
  ghost function Good(outbox: map<nat, Notification>, works: nat -> bool): set<nat> {
    set n | n in Awaiting(outbox) && works(n)
  }

  ghost function Bad(outbox: map<nat, Notification>, works: nat -> bool): set<nat> {
    set n | n in Awaiting(outbox) && !works(n)
  }

  ghost predicate Agrees(w: Weather, works: nat -> bool) {
    forall n :: w(n).failure.None? <==> works(n)
  }

  lemma {:induction false} SuccessesCounted(ids: seq<nat>, w: Weather)
    requires Distinct(ids)
    ensures Successes(ids, w) == |Delivered(ids, w)|
  {
    if ids != [] {
      var front, last := ids[..|ids| - 1], ids[|ids| - 1];
      SuccessesCounted(front, w);
      DeliveredStep(front, last, w);
      assert ids == front + [last] && last !in front;
    }
  }

  lemma {:induction false} DeliveredStep(front: seq<nat>, last: nat, w: Weather)
    requires last !in front
    ensures Delivered(front + [last], w) == Delivered(front, w) + if w(last).failure.None? then {last} else {}
    ensures last !in Delivered(front, w)
  {
    forall n
      ensures n in front + [last] <==> n in front || n == last
    {
    }
  }

  lemma {:induction false} PendingCount(outbox: map<nat, Notification>, works: nat -> bool)
    ensures |PendingIds(outbox)| == |Good(outbox, works)| + |Bad(outbox, works)|
    ensures Awaiting(outbox) == Good(outbox, works) + Bad(outbox, works)
  {
    var ids := PendingIds(outbox);
    DistinctCount(ids);
    assert Elements(ids) == Good(outbox, works) + Bad(outbox, works);
    assert Good(outbox, works) !! Bad(outbox, works);
  }

  lemma {:induction false} AwaitingAfterPass(outbox: map<nat, Notification>, limit: int, w: Weather)
    ensures Awaiting(Pass(outbox, Listed(outbox, limit), w)) == Awaiting(outbox) - Delivers(outbox, limit, w)
  {
    var ids := Listed(outbox, limit);
    var after := Pass(outbox, ids, w);
    ListedFacts(outbox, limit);
    forall n
      ensures n in Awaiting(after) <==> n in Awaiting(outbox) && n !in Delivers(outbox, limit, w)
    {
      PassPointwise(outbox, ids, w, n);
    }
  }

  lemma {:induction false} AfterOnePass(outbox: map<nat, Notification>, limit: int, w: Weather, works: nat -> bool)
    requires Agrees(w, works)
    ensures var after := Pass(outbox, Listed(outbox, limit), w);
      && Good(after, works) == Good(outbox, works) - Delivers(outbox, limit, w)
      && Bad(after, works) == Bad(outbox, works)
    ensures Delivers(outbox, limit, w) <= Good(outbox, works)
  {
    AwaitingAfterPass(outbox, limit, w);
    ListedFacts(outbox, limit);
    forall n | n in Delivers(outbox, limit, w)
      ensures works(n)
    {
      assert w(n).failure.None? <==> works(n);
    }
  }

  lemma {:induction false} EnoughDelivered(listed: set<nat>, delivered: set<nat>, bad: set<nat>)
    requires delivered <= listed && listed - delivered <= bad
    ensures |delivered| >= |listed| - |bad|
  {
    var stuck := listed - delivered;
    assert listed == delivered + stuck && delivered !! stuck;
    assert bad == stuck + (bad - stuck) && stuck !! (bad - stuck);
  }

  /**
   * If fewer than `limit` undelivered rows keep failing, a pass delivers at
   * least as many of the others as the limit leaves room for: rows that fail
   * forever at the head of the queue cannot starve the rest.
   */
  lemma {:induction false} PassMakesProgress(outbox: map<nat, Notification>, limit: int, w: Weather, works: nat -> bool)
    requires Agrees(w, works) && |Bad(outbox, works)| < limit
    ensures var g, room := |Good(outbox, works)|, limit - |Bad(outbox, works)|;
            |Delivers(outbox, limit, w)| >= if g < room then g else room
  {
    var ids, delivered, bad := Listed(outbox, limit), Delivers(outbox, limit, w), Bad(outbox, works);
    ListedFacts(outbox, limit);
    PendingCount(outbox, works);
    DistinctCount(ids);
    forall n | n in Elements(ids) - delivered
      ensures n in bad
    {
      assert w(n).failure.None? <==> works(n);
    }
    EnoughDelivered(Elements(ids), delivered, bad);
  }

  /** Passes with nothing enqueued in between. */
  ghost function Passes(outbox: map<nat, Notification>, limit: int, ws: seq<Weather>): map<nat, Notification> {
    if ws == [] then outbox else
      var before := Passes(outbox, limit, ws[..|ws| - 1]);
      Pass(before, Listed(before, limit), ws[|ws| - 1])
  }

  lemma {:induction false} RemovedCount(all: set<nat>, gone: set<nat>)
    requires gone <= all
    ensures |all - gone| == |all| - |gone|
  {
    assert all == (all - gone) + gone;
  }

  lemma {:induction false} LessLeft(all: nat, left: nat, delivered: nat, passes: nat, room: nat)
    requires left == 0 || left + passes * room <= all
    requires delivered <= left && delivered >= if left < room then left else room
    ensures left - delivered == 0 || left - delivered + (passes + 1) * room <= all
  {
    assert (passes + 1) * room == passes * room + room;
  }

  lemma {:induction false} RemainingAfter(
      outbox: map<nat, Notification>, limit: int, ws: seq<Weather>, works: nat -> bool, room: int)
    requires room == limit - |Bad(outbox, works)| > 0 && forall i | 0 <= i < |ws| :: Agrees(ws[i], works)
    ensures Bad(Passes(outbox, limit, ws), works) == Bad(outbox, works)
    ensures var left := Good(Passes(outbox, limit, ws), works);
            |left| == 0 || |left| + |ws| * room <= |Good(outbox, works)|
    decreases |ws|
  {
    if ws != [] {
      var front, w := ws[..|ws| - 1], ws[|ws| - 1];
      RemainingAfter(outbox, limit, front, works, room);
      var before := Passes(outbox, limit, front);
      assert Agrees(w, works);
      AfterOnePass(before, limit, w, works);
      PassMakesProgress(before, limit, w, works);
      RemovedCount(Good(before, works), Delivers(before, limit, w));
      LessLeft(|Good(outbox, works)|, |Good(before, works)|, |Delivers(before, limit, w)|, |front|, room);
    }
  }

  /**
   * With b rows failing forever, g deliverable rows and b < limit, all g are
   * delivered after ceil(g / (limit - b)) passes.
   */
  lemma {:induction false} NoStarvation(
      outbox: map<nat, Notification>, limit: int, ws: seq<Weather>, works: nat -> bool)
    requires |Bad(outbox, works)| < limit && forall i | 0 <= i < |ws| :: Agrees(ws[i], works)
    requires var room := limit - |Bad(outbox, works)|; |ws| >= (|Good(outbox, works)| + room - 1) / room
    ensures Awaiting(Passes(outbox, limit, ws)) == Bad(outbox, works)
  {
    CeilingCovers(|Good(outbox, works)|, limit - |Bad(outbox, works)|, |ws|);
    NoneGoodLeft(outbox, limit, ws, works, limit - |Bad(outbox, works)|);
    PendingCount(Passes(outbox, limit, ws), works);
  }

  lemma {:induction false} NoneGoodLeft(
      outbox: map<nat, Notification>, limit: int, ws: seq<Weather>, works: nat -> bool, room: int)
    requires room == limit - |Bad(outbox, works)| > 0 && forall i | 0 <= i < |ws| :: Agrees(ws[i], works)
    requires |ws| * room >= |Good(outbox, works)|
    ensures Good(Passes(outbox, limit, ws), works) == {}
    ensures Bad(Passes(outbox, limit, ws), works) == Bad(outbox, works)
  {
    RemainingAfter(outbox, limit, ws, works, room);
    assert |Good(Passes(outbox, limit, ws), works)| == 0;
  }

  lemma {:induction false} CeilingCovers(g: nat, room: nat, passes: nat)
    requires room > 0 && passes >= (g + room - 1) / room
    ensures passes * room >= g
  {
    var q := (g + room - 1) / room;
    assert (g + room - 1) == q * room + (g + room - 1) % room;
    assert passes * room >= q * room;
  }
}
