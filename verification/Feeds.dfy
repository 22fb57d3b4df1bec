/**
 The event feed: a send lock, an inbox of new subscriptions, and a case list of which a shrinking
 prefix has not been served yet. Every call is broken into its atomic steps, and the calls may
 interleave in any order.
 */
module Feeds {
  type Channel = nat

  /** Slot 0 of the case list receives from the channel that announces removals. */
  const REMOVE_SUB: Channel := 0

  // ---------------------------------------------------------------- case lists

  predicate Distinct(cs: seq<Channel>) {
    forall i, j :: 0 <= i < j < |cs| ==> cs[i] != cs[j]
  }

  /** The first index of `ch`, or -1. */
  function IndexOf(cs: seq<Channel>, ch: Channel): (k: int)
    ensures if ch in cs then 0 <= k < |cs| && cs[k] == ch else k == -1
    ensures forall j :: 0 <= j < k ==> cs[j] != ch
  {
    if cs == [] then -1
    else if cs[0] == ch then 0
    else
      var k := IndexOf(cs[1..], ch);
      assert forall j :: 0 < j <= k ==> cs[j] == cs[1..][j - 1];
      if k < 0 then -1 else k + 1
  }

  method Find(cs: seq<Channel>, ch: Channel) returns (index: int)
    ensures index == IndexOf(cs, ch)
  {
    for i := 0 to |cs|
      invariant forall j :: 0 <= j < i ==> cs[j] != ch
    {
      if cs[i] == ch {
        return i;
      }
    }
    return -1;
  }

  function Delete(cs: seq<Channel>, k: nat): (r: seq<Channel>)
    requires k < |cs|
    ensures |r| == |cs| - 1 && forall i :: 0 <= i < |r| ==> r[i] == if i < k then cs[i] else cs[i + 1]
  {
    cs[..k] + cs[k + 1..]
  }

  /** Swaps the case at `k` to the end of the prefix of length `n`; the prefix then excludes it. */
  function Deactivate(cs: seq<Channel>, k: nat, n: nat): (r: seq<Channel>)
    requires k < n <= |cs|
    ensures |r| == |cs| && r[n - 1] == cs[k]
    ensures forall i :: 0 <= i < |r| && i != k && i != n - 1 ==> r[i] == cs[i]
    ensures k != n - 1 ==> r[k] == cs[n - 1]
  {
    cs[k := cs[n - 1]][n - 1 := cs[k]]
  }

  // ---------------------------------------------------------------- states and steps

  /** Who holds the send lock, and where its holder stands. */
  datatype Holder =
    | Free
    | Removing(ch: Channel)
    | Taken
    | Trying(next: nat)
    | Selecting

  /** The record of one `Send`: whom it set out to serve, who was removed meanwhile, and who was served. */
  datatype Report = Report(targets: set<Channel>, removed: set<Channel>, got: seq<Channel>, nsent: nat)

  /** `active` is the length of the unserved prefix of `sendCases`; `leaving` are the calls of
      `Unsubscribe` that did not find their channel in the inbox and wait for the lock or for the
      sender; `subs` records the channels subscribed and not yet removed. */
  datatype Feed = Feed(
    sendCases: seq<Channel>,
    inbox: seq<Channel>,
    holder: Holder,
    subs: set<Channel>,
    leaving: set<Channel>,
    active: nat,
    current: Report,
    log: seq<Report>,
    panicked: bool)

  datatype Event =
    | Subscribe(ch: Channel)
    | Unsubscribe(ch: Channel)
    | LockToRemove(ch: Channel)
    | RemoveLocked
    | LockToSend
    | TakeInbox
    | TrySend(ok: bool)
    | EndTry
    | ChosenSend(index: nat)
    | ChosenRemove(ch: Channel)

  const NO_REPORT := Report({}, {}, [], 0)

  function Init(): Feed {
    Feed([REMOVE_SUB], [], Free, {}, {}, 1, NO_REPORT, [], false)
  }

  /** Channels are distinct: one is subscribed again only after its removal is complete. */
  predicate Enabled(f: Feed, e: Event) {
    match e
    case Subscribe(ch) => ch != REMOVE_SUB && ch !in f.subs
    case Unsubscribe(ch) => ch in f.subs && ch !in f.leaving
    case LockToRemove(ch) => f.holder == Free && ch in f.leaving
    case RemoveLocked => f.holder.Removing?
    case LockToSend => f.holder == Free
    case TakeInbox => f.holder == Taken
    case TrySend(_) => f.holder.Trying? && f.holder.next < f.active
    case EndTry => f.holder.Trying? && f.holder.next >= f.active
    case ChosenSend(index) => f.holder == Selecting && 1 <= index < f.active
    case ChosenRemove(ch) => f.holder == Selecting && ch in f.leaving
  }

  /** Deletes a channel from the case list; deleting one that is not there would panic. */
  function Drop(f: Feed, ch: Channel): Feed {
    var k := IndexOf(f.sendCases, ch);
    if k < 0 then f.(panicked := true)
    else f.(sendCases := Delete(f.sendCases, k), leaving := f.leaving - {ch}, subs := f.subs - {ch},
            active := if k < f.active then f.active - 1 else f.active)
  }

  function Served(f: Feed, k: nat): Feed {
    if k < f.active <= |f.sendCases| then
      f.(sendCases := Deactivate(f.sendCases, k, f.active), active := f.active - 1,
         current := f.current.(got := f.current.got + [f.sendCases[k]], nsent := f.current.nsent + 1))
    else f.(panicked := true)
  }

  function Step(f: Feed, e: Event): Feed
    requires Enabled(f, e)
  {
    match e
    case Subscribe(ch) => f.(inbox := f.inbox + [ch], subs := f.subs + {ch})
    case Unsubscribe(ch) =>
      var k := IndexOf(f.inbox, ch);
      if k >= 0 then f.(inbox := Delete(f.inbox, k), subs := f.subs - {ch}) else f.(leaving := f.leaving + {ch})
    case LockToRemove(ch) => f.(holder := Removing(ch))
    case RemoveLocked => Drop(f, f.holder.ch).(holder := Free)
    case LockToSend => f.(holder := Taken)
    case TakeInbox =>
      var cs := f.sendCases + f.inbox;
      f.(sendCases := cs, inbox := [], holder := Trying(1), active := |cs|,
         current := Report(f.subs, {}, [], 0))
    case TrySend(ok) => if ok then Served(f, f.holder.next) else f.(holder := Trying(f.holder.next + 1))
    case EndTry =>
      if f.active == 1 then f.(holder := Free, log := f.log + [f.current]) else f.(holder := Selecting)
    case ChosenSend(index) => Served(f, index).(holder := Trying(1))
    case ChosenRemove(ch) =>
      var g := Drop(f, ch);
      g.(holder := Trying(1), current := g.current.(removed := g.current.removed + {ch}))
  }

  predicate Possible(f: Feed, es: seq<Event>)
    decreases |es|
  {
    es == [] || (Enabled(f, es[0]) && Possible(Step(f, es[0]), es[1..]))
  }

  function Play(f: Feed, es: seq<Event>): Feed
    requires Possible(f, es)
    decreases |es|
  {
    if es == [] then f else Play(Step(f, es[0]), es[1..])
  }

  // ---------------------------------------------------------------- the invariant

  /** Slot 0 stays in place, no channel is filed twice, a leaving channel is in the case list,
      and exactly the subscribed channels are filed. */
  ghost predicate Tidy(cs: seq<Channel>, inbox: seq<Channel>, leaving: set<Channel>, subs: set<Channel>) {
    && |cs| >= 1 && cs[0] == REMOVE_SUB
    && Distinct(cs) && Distinct(inbox) && (forall ch :: ch in inbox ==> ch !in cs)
    && (forall ch :: ch in leaving ==> ch in cs && ch != REMOVE_SUB)
    && (forall ch :: ch in subs <==> ch != REMOVE_SUB && (ch in cs || ch in inbox))
  }

  /** During a send the prefix holds exactly the channels of the case list that are not served yet. */
  ghost predicate Partition(cs: seq<Channel>, active: nat, r: Report) {
    && 1 <= active <= |cs| && Distinct(r.got) && r.nsent == |r.got|
    && (forall i :: 1 <= i < active ==> cs[i] !in r.got)
    && (forall i :: active <= i < |cs| ==> cs[i] in r.got)
    && (forall i :: 1 <= i < |cs| ==> cs[i] in r.targets)
    && (forall ch :: ch in r.got ==> ch in r.targets)
    && (forall ch :: ch in r.targets ==> ch in r.removed || ch in cs)
    && REMOVE_SUB !in r.targets
  }

  /** Each target that was not removed got the value exactly once, nobody got it twice, and `nsent` counts them. */
  ghost predicate Complete(r: Report) {
    && Distinct(r.got) && r.nsent == |r.got|
    && (forall ch :: ch in r.got ==> ch in r.targets)
    && (forall ch :: ch in r.targets && ch !in r.removed ==> ch in r.got)
  }

  ghost predicate Inv(f: Feed) {
    && Tidy(f.sendCases, f.inbox, f.leaving, f.subs) && !f.panicked
    && (f.holder.Removing? ==> f.holder.ch in f.leaving)
    && (f.holder.Trying? || f.holder.Selecting? ==> Partition(f.sendCases, f.active, f.current))
    && (f.holder.Trying? ==> 1 <= f.holder.next)
    && (forall i :: 0 <= i < |f.log| ==> Complete(f.log[i]))
  }

  // ---------------------------------------------------------------- every step keeps it

  lemma DeleteMembers(cs: seq<Channel>, k: nat)
    requires k < |cs| && Distinct(cs)
    ensures Distinct(Delete(cs, k))
    ensures forall ch :: ch in Delete(cs, k) <==> ch in cs && ch != cs[k]
  {
    var r := Delete(cs, k);
    forall ch | ch in cs && ch != cs[k] ensures ch in r {
      var i :| 0 <= i < |cs| && cs[i] == ch;
      assert r[if i < k then i else i - 1] == ch;
    }
  }

  lemma DeactivateMembers(cs: seq<Channel>, k: nat, n: nat)
    requires k < n <= |cs| && Distinct(cs)
    ensures Distinct(Deactivate(cs, k, n))
    ensures forall ch :: ch in Deactivate(cs, k, n) <==> ch in cs
  {
    var r := Deactivate(cs, k, n);
    forall ch | ch in cs ensures ch in r {
      var i :| 0 <= i < |cs| && cs[i] == ch;
      assert r[if i == k then n - 1 else if i == n - 1 then k else i] == ch;
    }
  }

  /** Delivering to an unserved channel moves it from the prefix to the served part. */
  lemma ServedPartition(cs: seq<Channel>, k: nat, active: nat, r: Report)
    requires Partition(cs, active, r) && Distinct(cs) && 1 <= k < active
    ensures Partition(Deactivate(cs, k, active), active - 1, r.(got := r.got + [cs[k]], nsent := r.nsent + 1))
  {
    hide Distinct;
    DeactivateMembers(cs, k, active);
    DistinctAdd(r.got, cs[k]);
    var cs', got := Deactivate(cs, k, active), r.got + [cs[k]];
    forall i | 1 <= i < active - 1 ensures cs'[i] !in got {
      DistinctAt(cs', i, active - 1);
    }
  }

  lemma DistinctAdd(cs: seq<Channel>, ch: Channel)
    requires Distinct(cs) && ch !in cs
    ensures Distinct(cs + [ch])
  {
  }

  lemma DistinctAt(cs: seq<Channel>, i: nat, j: nat)
    requires Distinct(cs) && i < j < |cs|
    ensures cs[i] != cs[j]
  {
  }

  /** Removing a channel keeps the partition, whichever part it was in. */
  lemma DroppedPartition(cs: seq<Channel>, k: nat, active: nat, r: Report)
    requires Partition(cs, active, r) && Distinct(cs) && 1 <= k < |cs|
    ensures Partition(Delete(cs, k), if k < active then active - 1 else active, r.(removed := r.removed + {cs[k]}))
  {
    hide Distinct;
    DeleteMembers(cs, k);
  }

  /** A leaving channel is always found, so its deletion cannot panic and never hits slot 0. */
  lemma LeavingIsFound(f: Feed, ch: Channel)
    requires Tidy(f.sendCases, f.inbox, f.leaving, f.subs) && ch in f.leaving
    ensures 1 <= IndexOf(f.sendCases, ch) < |f.sendCases| && f.sendCases[IndexOf(f.sendCases, ch)] == ch
  {
  }

  lemma DropTidy(f: Feed, ch: Channel)
    requires Tidy(f.sendCases, f.inbox, f.leaving, f.subs) && ch in f.leaving
    ensures var g := Drop(f, ch); Tidy(g.sendCases, g.inbox, g.leaving, g.subs) && !g.panicked == !f.panicked
  {
    hide Distinct;
    LeavingIsFound(f, ch);
    DeleteMembers(f.sendCases, IndexOf(f.sendCases, ch));
  }

  lemma ServedTidy(f: Feed, k: nat)
    requires Tidy(f.sendCases, f.inbox, f.leaving, f.subs) && 1 <= k < f.active <= |f.sendCases|
    ensures Tidy(Deactivate(f.sendCases, k, f.active), f.inbox, f.leaving, f.subs)
  {
    hide Distinct;
    DeactivateMembers(f.sendCases, k, f.active);
  }

  lemma SubscribeTidy(f: Feed, ch: Channel)
    requires Tidy(f.sendCases, f.inbox, f.leaving, f.subs) && ch !in f.subs && ch != REMOVE_SUB
    ensures Tidy(f.sendCases, f.inbox + [ch], f.leaving, f.subs + {ch})
  {
    hide Distinct;
    DistinctAdd(f.inbox, ch);
  }

  lemma UnsubscribeTidy(f: Feed, ch: Channel)
    requires Tidy(f.sendCases, f.inbox, f.leaving, f.subs) && ch in f.subs
    ensures var k := IndexOf(f.inbox, ch);
            if k >= 0 then Tidy(f.sendCases, Delete(f.inbox, k), f.leaving, f.subs - {ch})
            else Tidy(f.sendCases, f.inbox, f.leaving + {ch}, f.subs)
  {
    hide Distinct, Delete;
    var k := IndexOf(f.inbox, ch);
    if k >= 0 {
      DeleteMembers(f.inbox, k);
    }
  }

  lemma TakeInboxKeeps(f: Feed)
    requires Tidy(f.sendCases, f.inbox, f.leaving, f.subs)
    ensures var cs := f.sendCases + f.inbox;
            Tidy(cs, [], f.leaving, f.subs) && Partition(cs, |cs|, Report(f.subs, {}, [], 0))
  {
    hide Distinct;
    var cs := f.sendCases + f.inbox;
    DistinctConcat(f.sendCases, f.inbox);
    NoneDistinct();
    forall i | 1 <= i < |cs| ensures cs[i] in f.subs {
      DistinctAt(cs, 0, i);
    }
  }

  lemma DistinctConcat(a: seq<Channel>, b: seq<Channel>)
    requires Distinct(a) && Distinct(b) && forall ch :: ch in b ==> ch !in a
    ensures Distinct(a + b)
  {
    var cs := a + b;
    forall i, j | 0 <= i < j < |cs| ensures cs[i] != cs[j] {
      if i < |a| <= j {
        assert cs[j] == b[j - |a|] && cs[j] in b;
      }
    }
  }

  lemma NoneDistinct()
    ensures Distinct([])
  {
  }

  lemma ServedKeeps(f: Feed, k: nat)
    requires Inv(f) && (f.holder.Trying? || f.holder.Selecting?) && 1 <= k < f.active
    ensures Inv(Served(f, k).(holder := Trying(1))) && (f.holder.Trying? ==> Inv(Served(f, k)))
  {
    hide Distinct, Complete, Deactivate;
    ServedTidy(f, k);
    ServedPartition(f.sendCases, k, f.active, f.current);
  }

  lemma ChosenRemoveKeeps(f: Feed, ch: Channel)
    requires Inv(f) && f.holder == Selecting && ch in f.leaving
    ensures Inv(Step(f, ChosenRemove(ch)))
  {
    hide Distinct, Complete, Partition;
    LeavingIsFound(f, ch);
    DropTidy(f, ch);
    DroppedPartition(f.sendCases, IndexOf(f.sendCases, ch), f.active, f.current);
  }

  lemma StepKeepsInv(f: Feed, e: Event)
    requires Inv(f) && Enabled(f, e)
    ensures Inv(Step(f, e))
  {
    hide Tidy, Complete, Distinct, Deactivate, Delete, IndexOf, Served;
    match e
    case Subscribe(ch) => SubscribeTidy(f, ch);
    case Unsubscribe(ch) => UnsubscribeTidy(f, ch);
    case RemoveLocked => DropTidy(f, f.holder.ch);
    case TakeInbox => TakeInboxKeeps(f);
    case TrySend(ok) => ServedKeeps(f, f.holder.next);
    case EndTry => EndComplete(f);
    case ChosenSend(index) => ServedKeeps(f, index);
    case ChosenRemove(ch) => ChosenRemoveKeeps(f, ch);
    case _ =>
  }

  lemma EndComplete(f: Feed)
    requires Partition(f.sendCases, f.active, f.current) && Tidy(f.sendCases, f.inbox, f.leaving, f.subs)
    ensures f.active == 1 ==> Complete(f.current)
  {
  }

  lemma {:induction false} AlwaysInv(f: Feed, es: seq<Event>)
    requires Inv(f) && Possible(f, es)
    ensures Inv(Play(f, es))
    decreases |es|
  {
    if es != [] {
      StepKeepsInv(f, es[0]);
      AlwaysInv(Step(f, es[0]), es[1..]);
    }
  }

  // ---------------------------------------------------------------- the same run, read off its events

  /** What one `Send` owes: the subscribers it starts with, and those removed while it runs. */
  datatype Order = Order(targets: set<Channel>, removed: set<Channel>)

  /**
   A feed without locks, lists or indices: who subscribed since the last send began, who did before, whose removal holds
   the lock, and what each send owes.
   */
  datatype Roster = Roster(joining: set<Channel>, filed: set<Channel>, removing: Channel, orders: seq<Order>)

  const NOBODY := Roster({}, {}, REMOVE_SUB, [])

  function Note(r: Roster, e: Event): Roster {
    match e
    case Subscribe(ch) => r.(joining := r.joining + {ch})
    case Unsubscribe(ch) => r.(joining := r.joining - {ch})
    case LockToRemove(ch) => r.(removing := ch)
    case RemoveLocked => r.(filed := r.filed - {r.removing})
    case TakeInbox =>
      r.(joining := {}, filed := r.filed + r.joining, orders := r.orders + [Order(r.filed + r.joining, {})])
    case ChosenRemove(ch) => r.(filed := r.filed - {ch}, orders := WithRemoval(r.orders, ch))
    case _ => r
  }

  function WithRemoval(orders: seq<Order>, ch: Channel): seq<Order> {
    if orders == [] then []
    else
      var last := orders[|orders| - 1];
      orders[|orders| - 1 := last.(removed := last.removed + {ch})]
  }

  function NoteAll(r: Roster, es: seq<Event>): Roster
    decreases |es|
  {
    if es == [] then r else NoteAll(Note(r, es[0]), es[1..])
  }

  predicate Sending(f: Feed) {
    f.holder.Trying? || f.holder.Selecting?
  }

  ghost predicate SameOrder(r: Report, o: Order) {
    r.targets == o.targets && r.removed == o.removed
  }

  /** The lists hold exactly the channels of the roster, and the sends, finished and current, are its orders. */
  ghost predicate Follows(f: Feed, r: Roster) {
    && (forall ch :: ch in f.inbox <==> ch in r.joining)
    && (forall ch :: ch in f.sendCases <==> ch == REMOVE_SUB || ch in r.filed)
    && REMOVE_SUB !in r.filed && (f.holder.Removing? ==> f.holder.ch == r.removing)
    && |r.orders| == |f.log| + (if Sending(f) then 1 else 0)
    && (forall i :: 0 <= i < |f.log| ==> SameOrder(f.log[i], r.orders[i]))
    && (Sending(f) ==> SameOrder(f.current, r.orders[|f.log|]))
  }

  lemma UnsubscribeFollows(f: Feed, r: Roster, ch: Channel)
    requires Inv(f) && Follows(f, r) && ch in f.subs && ch !in f.leaving
    ensures Follows(Step(f, Unsubscribe(ch)), Note(r, Unsubscribe(ch)))
  {
    hide Distinct, Delete, Partition, Complete;
    var k := IndexOf(f.inbox, ch);
    if k >= 0 {
      DeleteMembers(f.inbox, k);
    }
  }

  lemma DropFollows(f: Feed, r: Roster, ch: Channel)
    requires Tidy(f.sendCases, f.inbox, f.leaving, f.subs) && Follows(f, r) && ch in f.leaving
    ensures Follows(Drop(f, ch), r.(filed := r.filed - {ch}))
    ensures Drop(f, ch).holder == f.holder && Drop(f, ch).log == f.log && Drop(f, ch).current == f.current
  {
    hide Distinct, Delete, IndexOf;
    LeavingIsFound(f, ch);
    DeleteMembers(f.sendCases, IndexOf(f.sendCases, ch));
  }

  lemma TakeInboxFollows(f: Feed, r: Roster)
    requires Tidy(f.sendCases, f.inbox, f.leaving, f.subs) && Follows(f, r) && f.holder == Taken
    ensures Follows(Step(f, TakeInbox), Note(r, TakeInbox))
  {
    hide Distinct;
    assert f.subs == r.filed + r.joining;
  }

  lemma ServedFollows(f: Feed, r: Roster, k: nat)
    requires Inv(f) && Follows(f, r) && Sending(f) && 1 <= k < f.active
    ensures Follows(Served(f, k), r) && Served(f, k).holder == f.holder
  {
    hide Distinct, Deactivate, Complete;
    DeactivateMembers(f.sendCases, k, f.active);
  }

  lemma StepFollows(f: Feed, r: Roster, e: Event)
    requires Inv(f) && Follows(f, r) && Enabled(f, e)
    ensures Follows(Step(f, e), Note(r, e))
  {
    hide Distinct, Deactivate, Delete, IndexOf, Served, Complete, Partition, Drop;
    match e
    case Unsubscribe(ch) => UnsubscribeFollows(f, r, ch);
    case RemoveLocked => DropFollows(f, r, f.holder.ch);
    case TakeInbox => TakeInboxFollows(f, r);
    case TrySend(ok) => ServedFollows(f, r, f.holder.next);
    case ChosenSend(index) => ServedFollows(f, r, index);
    case ChosenRemove(ch) => DropFollows(f, r, ch);
    case _ =>
  }

  lemma {:induction false} AlwaysFollows(f: Feed, r: Roster, es: seq<Event>)
    requires Inv(f) && Follows(f, r) && Possible(f, es)
    ensures Follows(Play(f, es), NoteAll(r, es))
    decreases |es|
  {
    hide Inv, Follows;
    if es != [] {
      StepKeepsInv(f, es[0]);
      StepFollows(f, r, es[0]);
      AlwaysFollows(Step(f, es[0]), Note(r, es[0]), es[1..]);
    }
  }

  // ---------------------------------------------------------------- over every run

  /**
   However the calls interleave: nothing panics, slot 0 stays in place, and during a send the prefix
   is exactly the part of the case list that was not served.
   */
  lemma PrefixIsUndelivered(es: seq<Event>, i: nat)
    requires Possible(Init(), es)
    ensures var f := Play(Init(), es);
            && !f.panicked && |f.sendCases| >= 1 && f.sendCases[0] == REMOVE_SUB
            && (f.holder.Trying? || f.holder.Selecting? ==> 1 <= f.active <= |f.sendCases|)
            && ((f.holder.Trying? || f.holder.Selecting?) && 1 <= i < |f.sendCases| ==>
                  (i < f.active <==> f.sendCases[i] !in f.current.got))
  {
    AlwaysInv(Init(), es);
  }

  /**
   However the calls interleave, and with the subscribers of each send read off the events before it: each channel that
   was subscribed when a send took the inbox and was not removed before it returned got the value exactly once, no
   channel got it twice, only such channels got it, and the count returned is the number of deliveries.
   */
  lemma SentExactlyOnce(es: seq<Event>, i: nat, ch: Channel)
    requires Possible(Init(), es) && i < |Play(Init(), es).log|
    ensures i < |NoteAll(NOBODY, es).orders|
    ensures var r, o := Play(Init(), es).log[i], NoteAll(NOBODY, es).orders[i];
            && (ch in o.targets && ch !in o.removed ==> multiset(r.got)[ch] == 1)
            && multiset(r.got)[ch] <= 1 && (ch in r.got ==> ch in o.targets)
            && r.nsent == |r.got| && r.targets == o.targets && r.removed == o.removed
  {
    AlwaysInv(Init(), es);
    AlwaysFollows(Init(), NOBODY, es);
    DistinctOnce(Play(Init(), es).log[i].got, ch);
  }

  lemma {:induction false} DistinctOnce(cs: seq<Channel>, ch: Channel)
    requires Distinct(cs)
    ensures multiset(cs)[ch] == if ch in cs then 1 else 0
  {
    if cs != [] {
      var last := |cs| - 1;
      assert cs == cs[..last] + [cs[last]];
      DistinctOnce(cs[..last], ch);
    }
  }
}
