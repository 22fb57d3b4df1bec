/**
 The scheduler of background pool runs, as a state machine over the steps of its loop and of the
 runs it starts. Requests that arrive while a run is active are merged into the input of the next.
 */
module ReorgLoop {
  import opened Transactions

  datatype Reset = Reset(oldHead: Hash, newHead: Hash)
  datatype Request = ResetRequest(reset: Reset) | PromoteRequest(accounts: set<Address>)

  /** What a run is started with. */
  datatype Input = Input(reset: Option<Reset>, dirty: Option<set<Address>>)

  /** A request that was merged, with the done channel its caller was given. */
  datatype Grant = Grant(request: Request, done: nat)

  /**
   The variables of the loop, and a record of what it did. Done channels are numbered in the order
   they are made, so `nextDone + 1` is a new one.
   */
  datatype Loop = Loop(
    atTop: bool,
    stopping: bool,
    stopped: bool,
    curDone: Option<nat>,
    nextDone: nat,
    launchNextRun: bool,
    input: Input,
    closed: set<nat>,
    active: set<nat>,
    runs: map<nat, Input>,
    grants: seq<Grant>)

  /** `Top` is the launch check that opens every iteration, `Finish` the end of a background run. */
  datatype Event = Top | Arrive(request: Request) | Finish(run: nat) | SeeDone | Shutdown | Exit

  const NOTHING := Input(None, None)

  function Init(): Loop {
    Loop(true, false, false, None, 0, false, NOTHING, {}, {}, map[], [])
  }

  /** The case of the `select` that takes a request. */
  function Merge(i: Input, r: Request): Input {
    match r
    case ResetRequest(reset) =>
      i.(reset := Some(if i.reset.None? then reset else i.reset.value.(newHead := reset.newHead)))
    case PromoteRequest(accounts) =>
      i.(dirty := Some(if i.dirty.None? then accounts else i.dirty.value + accounts))
  }

  predicate Enabled(s: Loop, e: Event) {
    match e
    case Top => s.atTop && !s.stopping
    case Arrive(_) => !s.atTop && !s.stopping
    case Finish(run) => run in s.active
    case SeeDone => !s.atTop && !s.stopping && s.curDone.Some? && s.curDone.value in s.closed
    case Shutdown => !s.atTop && !s.stopping
    case Exit => s.stopping && !s.stopped && (s.curDone.Some? ==> s.curDone.value in s.closed)
  }

  function Step(s: Loop, e: Event): Loop
    requires Enabled(s, e)
  {
    match e
    case Top =>
      if s.curDone.None? && s.launchNextRun then
        s.(atTop := false, curDone := Some(s.nextDone), nextDone := s.nextDone + 1, launchNextRun := false,
           input := NOTHING, active := s.active + {s.nextDone}, runs := s.runs[s.nextDone := s.input])
      else s.(atTop := false)
    case Arrive(r) =>
      s.(atTop := true, launchNextRun := true, input := Merge(s.input, r), grants := s.grants + [Grant(r, s.nextDone)])
    case Finish(run) => s.(active := s.active - {run}, closed := s.closed + {run})
    case SeeDone => s.(atTop := true, curDone := None)
    case Shutdown => s.(stopping := true)
    case Exit => s.(stopped := true, closed := s.closed + {s.nextDone})
  }

  predicate Possible(s: Loop, es: seq<Event>)
    decreases |es|
  {
    es == [] || (Enabled(s, es[0]) && Possible(Step(s, es[0]), es[1..]))
  }

  function Play(s: Loop, es: seq<Event>): Loop
    requires Possible(s, es)
    decreases |es|
  {
    if es == [] then s else Play(Step(s, es[0]), es[1..])
  }

  // ---------------------------------------------------------------- what a run owes

  /** The reset a group of requests amounts to: from the first old head to the last new head. */
  ghost predicate IsMergedReset(gs: seq<Grant>, done: nat, r: Option<Reset>) {
    if r.None? then forall i :: 0 <= i < |gs| && gs[i].done == done ==> gs[i].request.PromoteRequest?
    else exists i, j :: FirstReset(gs, done, i) && LastReset(gs, done, j)
                        && gs[i].request.reset.oldHead == r.value.oldHead
                        && gs[j].request.reset.newHead == r.value.newHead
  }

  predicate IsReset(gs: seq<Grant>, done: nat, i: int) {
    0 <= i < |gs| && gs[i].done == done && gs[i].request.ResetRequest?
  }

  predicate FirstReset(gs: seq<Grant>, done: nat, i: int) {
    IsReset(gs, done, i) && forall k :: 0 <= k < i ==> !IsReset(gs, done, k)
  }

  predicate LastReset(gs: seq<Grant>, done: nat, i: int) {
    IsReset(gs, done, i) && forall k :: i < k < |gs| ==> !IsReset(gs, done, k)
  }

  predicate IsPromote(gs: seq<Grant>, done: nat, i: int) {
    0 <= i < |gs| && gs[i].done == done && gs[i].request.PromoteRequest?
  }

  /** The accounts to promote are exactly those some request of the group named. */
  ghost predicate IsMergedDirty(gs: seq<Grant>, done: nat, dirty: Option<set<Address>>) {
    if dirty.None? then forall i :: !IsPromote(gs, done, i)
    else
      && (exists i :: IsPromote(gs, done, i))
      && forall a :: a in dirty.value <==> exists i :: IsPromote(gs, done, i) && a in gs[i].request.accounts
  }

  /** `input` is exactly what the requests granted `done` amount to. */
  ghost predicate Exact(gs: seq<Grant>, done: nat, input: Input) {
    IsMergedReset(gs, done, input.reset) && IsMergedDirty(gs, done, input.dirty)
  }

  /** The input includes what the request asks for: a run with a reset tries every account with queued transactions. */
  predicate Covers(input: Input, r: Request) {
    match r
    case ResetRequest(_) => input.reset.Some?
    case PromoteRequest(accounts) => input.reset.Some? || (input.dirty.Some? && accounts <= input.dirty.value)
  }

  // ---------------------------------------------------------------- the invariant

  /** At most one run is active, and it is the one the loop waits for. */
  predicate OneRun(s: Loop) {
    && (s.curDone.None? ==> s.active == {})
    && (s.curDone.Some? ==> s.active <= {s.curDone.value} && s.curDone.value in s.runs)
    && (s.curDone.Some? && s.active == {} ==> s.curDone.value in s.closed)
  }

  /** Only finished runs have closed their channels, except for the last channel after a shutdown. */
  ghost predicate ClosedByRuns(s: Loop) {
    && s.active <= s.runs.Keys && s.active !! s.closed
    && (forall d :: d in s.runs <==> 0 <= d < s.nextDone)
    && (forall d :: d in s.runs ==> d in s.active || d in s.closed)
    && (forall d :: d in s.closed ==> d in s.runs || (s.stopped && d == s.nextDone))
  }

  /** Every request granted a channel is in the input of that channel's run, or in the next input, with a launch due. */
  ghost predicate AllGranted(s: Loop) {
    && (forall i :: 0 <= i < |s.grants| ==>
          s.grants[i].done in s.runs || (s.grants[i].done == s.nextDone && s.launchNextRun))
    && (forall d :: d in s.runs ==> Exact(s.grants, d, s.runs[d]))
    && Exact(s.grants, s.nextDone, s.input)
  }

  /** Past the launch check of its iteration, a loop that waits for no run has none to start. */
  predicate NothingDue(s: Loop) {
    !s.atTop && s.curDone.None? ==> !s.launchNextRun
  }

  ghost predicate Inv(s: Loop) {
    && OneRun(s) && ClosedByRuns(s) && AllGranted(s) && NothingDue(s)
    && (s.stopped ==> s.stopping && s.active == {} && s.nextDone in s.closed)
  }

  lemma MergeReset(gs: seq<Grant>, done: nat, i: Input, r: Request)
    requires IsMergedReset(gs, done, i.reset)
    ensures IsMergedReset(gs + [Grant(r, done)], done, Merge(i, r).reset)
  {
    var gs' := gs + [Grant(r, done)];
    assert forall k :: 0 <= k < |gs| ==> gs'[k] == gs[k];
    assert forall k :: k < |gs| ==> IsReset(gs', done, k) == IsReset(gs, done, k);
    if i.reset.Some? {
      var f, l :| FirstReset(gs, done, f) && LastReset(gs, done, l)
                  && gs[f].request.reset.oldHead == i.reset.value.oldHead
                  && gs[l].request.reset.newHead == i.reset.value.newHead;
      assert FirstReset(gs', done, f);
      assert LastReset(gs', done, if r.ResetRequest? then |gs| else l);
    } else if r.ResetRequest? {
      assert FirstReset(gs', done, |gs|) && LastReset(gs', done, |gs|);
    }
  }

  lemma MergeDirty(gs: seq<Grant>, done: nat, i: Input, r: Request)
    requires IsMergedDirty(gs, done, i.dirty)
    ensures IsMergedDirty(gs + [Grant(r, done)], done, Merge(i, r).dirty)
  {
    var gs' := gs + [Grant(r, done)];
    assert forall k :: k < |gs| ==> IsPromote(gs', done, k) == IsPromote(gs, done, k);
    assert IsPromote(gs', done, |gs|) == r.PromoteRequest?;
    var dirty := Merge(i, r).dirty;
    if dirty.Some? {
      forall a ensures a in dirty.value <==> exists k :: IsPromote(gs', done, k) && a in gs'[k].request.accounts {
        if i.dirty.Some? && a in i.dirty.value {
          var k :| IsPromote(gs, done, k) && a in gs[k].request.accounts;
          assert IsPromote(gs', done, k) && gs'[k] == gs[k];
        }
      }
    }
  }

  /** A grant of one channel changes nothing for another. */
  lemma OtherGrant(gs: seq<Grant>, done: nat, input: Input, g: Grant)
    requires Exact(gs, done, input) && g.done != done
    ensures Exact(gs + [g], done, input)
  {
    var gs' := gs + [g];
    assert forall k :: IsReset(gs', done, k) == IsReset(gs, done, k);
    assert forall k :: IsPromote(gs', done, k) == IsPromote(gs, done, k);
    assert forall k :: 0 <= k < |gs| ==> gs'[k] == gs[k];
    if input.reset.Some? {
      var f, l :| FirstReset(gs, done, f) && LastReset(gs, done, l)
                  && gs[f].request.reset.oldHead == input.reset.value.oldHead
                  && gs[l].request.reset.newHead == input.reset.value.newHead;
      assert FirstReset(gs', done, f) && LastReset(gs', done, l);
    }
  }

  lemma StepKeepsInv(s: Loop, e: Event)
    requires Inv(s) && Enabled(s, e)
    ensures Inv(Step(s, e))
  {
    hide Exact;
    var s' := Step(s, e);
    match e
    case Arrive(r) =>
      ArriveExact(s, r);
    case Top =>
      NothingYet(s.grants, s.nextDone + 1);
    case _ =>
  }

  lemma ArriveExact(s: Loop, r: Request)
    requires AllGranted(s) && s.nextDone !in s.runs
    ensures var gs := s.grants + [Grant(r, s.nextDone)];
            && (forall d :: d in s.runs ==> Exact(gs, d, s.runs[d]))
            && Exact(gs, s.nextDone, Merge(s.input, r))
  {
    hide IsMergedReset, IsMergedDirty;
    MergeReset(s.grants, s.nextDone, s.input, r);
    MergeDirty(s.grants, s.nextDone, s.input, r);
    forall d | d in s.runs ensures Exact(s.grants + [Grant(r, s.nextDone)], d, s.runs[d]) {
      OtherGrant(s.grants, d, s.runs[d], Grant(r, s.nextDone));
    }
  }

  lemma NothingYet(gs: seq<Grant>, done: nat)
    ensures (forall i :: 0 <= i < |gs| ==> gs[i].done != done) ==> Exact(gs, done, NOTHING)
  {
  }

  lemma {:induction false} AlwaysInv(s: Loop, es: seq<Event>)
    requires Inv(s) && Possible(s, es)
    ensures Inv(Play(s, es))
    decreases |es|
  {
    if es != [] {
      StepKeepsInv(s, es[0]);
      AlwaysInv(Step(s, es[0]), es[1..]);
    }
  }

  /** At most one run is active, in every state the loop can reach. */
  lemma AtMostOneRun(es: seq<Event>)
    requires Possible(Init(), es)
    ensures |Play(Init(), es).active| <= 1
  {
    AlwaysInv(Init(), es);
    var s := Play(Init(), es);
    if s.curDone.Some? && s.active != {} {
      assert s.active == {s.curDone.value};
    }
  }

  /**
   Before the loop has stopped, a caller's channel is closed only by the end of a run that was
   started with exactly the requests merged under that channel, this caller's among them.
   */
  lemma ClosedOnlyByCoveringRun(es: seq<Event>, i: nat)
    requires Possible(Init(), es) && !Play(Init(), es).stopped
    requires i < |Play(Init(), es).grants| && Play(Init(), es).grants[i].done in Play(Init(), es).closed
    ensures var s := Play(Init(), es);
            var g := s.grants[i];
            && g.done in s.runs && g.done !in s.active
            && Exact(s.grants, g.done, s.runs[g.done]) && Covers(s.runs[g.done], g.request)
  {
    AlwaysInv(Init(), es);
    var s := Play(Init(), es);
    ExactCovers(s.grants, i, s.runs[s.grants[i].done]);
  }

  /** No request is lost: its run was started, or the next input covers it and a launch is due. */
  lemma NoRequestLost(es: seq<Event>, i: nat)
    requires Possible(Init(), es) && i < |Play(Init(), es).grants|
    ensures var s := Play(Init(), es);
            var g := s.grants[i];
            if g.done in s.runs then Covers(s.runs[g.done], g.request)
            else g.done == s.nextDone && s.launchNextRun && Covers(s.input, g.request)
  {
    AlwaysInv(Init(), es);
    var s := Play(Init(), es);
    ExactCovers(s.grants, i, if s.grants[i].done in s.runs then s.runs[s.grants[i].done] else s.input);
  }

  /** Once the loop has stopped, the channel of every caller is closed. */
  lemma NobodyLeftWaiting(es: seq<Event>, i: nat)
    requires Possible(Init(), es) && Play(Init(), es).stopped && i < |Play(Init(), es).grants|
    ensures Play(Init(), es).grants[i].done in Play(Init(), es).closed
  {
    AlwaysInv(Init(), es);
  }

  lemma ExactCovers(gs: seq<Grant>, i: nat, input: Input)
    requires i < |gs| && Exact(gs, gs[i].done, input)
    ensures Covers(input, gs[i].request)
  {
    if gs[i].request.PromoteRequest? {
      assert IsPromote(gs, gs[i].done, i);
      assert forall a :: a in gs[i].request.accounts ==> a in input.dirty.value;
    }
  }

  // ---------------------------------------------------------------- what the loop was asked

  /** The requests that arrived, in order, read off the events alone. */
  function Arrivals(es: seq<Event>): seq<Request> {
    if es == [] then []
    else (if es[0].Arrive? then [es[0].request] else []) + Arrivals(es[1..])
  }

  function Requests(gs: seq<Grant>): (rs: seq<Request>)
    ensures |rs| == |gs| && forall i :: 0 <= i < |gs| ==> rs[i] == gs[i].request
  {
    seq(|gs|, i requires 0 <= i < |gs| => gs[i].request)
  }

  lemma {:induction false} GrantsFrom(s: Loop, es: seq<Event>)
    requires Possible(s, es)
    ensures Requests(Play(s, es).grants) == Requests(s.grants) + Arrivals(es)
    decreases |es|
  {
    if es != [] {
      var s' := Step(s, es[0]);
      GrantsFrom(s', es[1..]);
      assert Requests(s'.grants) == Requests(s.grants) + Arrivals(es[..1]);
    }
  }

  /** The loop grants a channel to exactly the requests that arrived, in the order they came. */
  lemma GrantsAreArrivals(es: seq<Event>)
    requires Possible(Init(), es)
    ensures Requests(Play(Init(), es).grants) == Arrivals(es)
  {
    GrantsFrom(Init(), es);
  }

  /**
   When the loop waits in its select and no run is in flight, nothing is outstanding: no launch is due, the run of
   every request that ever arrived was started with it, has ended and has closed its channel.
   */
  lemma IdleOwesNothing(es: seq<Event>, i: nat)
    requires Possible(Init(), es) && i < |Arrivals(es)|
    requires !Play(Init(), es).atTop && Play(Init(), es).curDone.None?
    ensures var s := Play(Init(), es);
            && !s.launchNextRun && s.active == {} && s.input == NOTHING
            && |s.grants| == |Arrivals(es)| && s.grants[i].request == Arrivals(es)[i]
            && s.grants[i].done in s.runs && s.grants[i].done in s.closed
            && Covers(s.runs[s.grants[i].done], Arrivals(es)[i])
  {
    hide Exact;
    AlwaysInv(Init(), es);
    GrantsAreArrivals(es);
    var s := Play(Init(), es);
    assert s.grants[i].request == Requests(s.grants)[i];
    ExactCovers(s.grants, i, s.runs[s.grants[i].done]);
    NothingMerged(s);
  }

  /** With no launch due, the next input is empty. */
  lemma NothingMerged(s: Loop)
    requires AllGranted(s) && !s.launchNextRun && s.nextDone !in s.runs
    ensures s.input == NOTHING
  {
  }
}
