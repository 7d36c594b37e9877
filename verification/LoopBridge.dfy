/** Driving asyncio from libuv: draining the ready queue, and arming the idle and timer
    handles so that libuv does not block while asyncio has work. */
module LoopBridge {

  type Handle = nat

  /** What running a callback does: append to the ready queue, cancel handles, schedule
      timers, and perhaps raise something its handle does not catch. */
  datatype Effect = Effect(adds: seq<Handle>, cancels: set<Handle>, later: seq<Handle>, escapes: bool)

  /** Callbacks are arbitrary: what one does may depend on all that ran up to it. */
  type World = seq<Handle> -> Effect

  datatype Loop = Loop(ready: seq<Handle>, cancelled: set<Handle>, scheduled: seq<Handle>, ran: seq<Handle>)

  function After(l: Loop, ready: seq<Handle>, h: Handle, e: Effect): Loop {
    Loop(ready + e.adds, l.cancelled + e.cancels, l.scheduled + e.later, l.ran + [h])
  }

  /** One turn over a snapshot, with what is added kept apart in `l.ready` until the end. */
  function Turn(act: World, snapshot: seq<Handle>, l: Loop): Loop
    decreases |snapshot|
  {
    if snapshot == [] then l
    else
      var h, rest := snapshot[0], snapshot[1..];
      if h in l.cancelled then Turn(act, rest, l)
      else
        var e := act(l.ran + [h]);
        var l' := After(l, l.ready, h, e);
        if e.escapes then l'.(ready := rest + l'.ready) else Turn(act, rest, l')
  }

  /** asyncio's own turn: completed I/O and due timers join the queue, which is then run. */
  function Once(act: World, l: Loop, io: seq<Handle>, due: nat): Loop {
    var k := if due <= |l.scheduled| then due else |l.scheduled|;
    Turn(act, l.ready + io + l.scheduled[..k], l.(ready := [], scheduled := l.scheduled[k..]))
  }

  // ---- what a turn does ----

  /** What the callbacks `r`, run in this order after `hist`, add to the queue. */
  function Added(act: World, hist: seq<Handle>, r: seq<Handle>): seq<Handle>
    decreases |r|
  {
    if r == [] then [] else act(hist + [r[0]]).adds + Added(act, hist + [r[0]], r[1..])
  }

  /** What they schedule. */
  function Scheduled(act: World, hist: seq<Handle>, r: seq<Handle>): seq<Handle>
    decreases |r|
  {
    if r == [] then [] else act(hist + [r[0]]).later + Scheduled(act, hist + [r[0]], r[1..])
  }

  /** What they cancel. */
  function Cancels(act: World, hist: seq<Handle>, r: seq<Handle>): set<Handle>
    decreases |r|
  {
    if r == [] then {} else act(hist + [r[0]]).cancels + Cancels(act, hist + [r[0]], r[1..])
  }

  ghost predicate Quiet(act: World) {
    forall hist :: !act(hist).escapes
  }

  /** When position `i` of the snapshot comes, the first `k` of the positions `at` are over. */
  predicate Comes(at: seq<nat>, i: int, k: int) {
    0 <= k <= |at| && (k > 0 ==> at[k - 1] < i) && (k < |at| ==> i <= at[k])
  }

  /** `r` is run from the positions `at` of the snapshot, in order. */
  predicate InOrder(snapshot: seq<Handle>, r: seq<Handle>, at: seq<nat>) {
    && |at| == |r|
    && (forall k :: 0 <= k < |at| ==> at[k] < |snapshot| && snapshot[at[k]] == r[k])
    && (forall j, k :: 0 <= j < k < |at| ==> at[j] < at[k])
  }

  /** A position is run exactly when its handle has been cancelled neither before the turn nor
      by what was run in it so far. */
  ghost predicate RunsUncancelled(act: World, snapshot: seq<Handle>, l: Loop, r: seq<Handle>, at: seq<nat>)
    requires |at| == |r|
  {
    forall i, k :: 0 <= i < |snapshot| && Comes(at, i, k) ==>
      ((k < |at| && at[k] == i) <==> snapshot[i] !in l.cancelled + Cancels(act, l.ran, r[..k]))
  }

  function Shifted(at: seq<nat>): seq<nat> {
    seq(|at|, k requires 0 <= k < |at| => at[k] + 1)
  }

  lemma SkipFirst(act: World, snapshot: seq<Handle>, l: Loop, r: seq<Handle>, at: seq<nat>)
    requires snapshot != [] && snapshot[0] in l.cancelled
    requires |at| == |r| && RunsUncancelled(act, snapshot[1..], l, r, at)
    ensures RunsUncancelled(act, snapshot, l, r, Shifted(at))
  {
    var at' := Shifted(at);
    forall i, k | 0 <= i < |snapshot| && Comes(at', i, k)
      ensures (k < |at'| && at'[k] == i) <==> snapshot[i] !in l.cancelled + Cancels(act, l.ran, r[..k])
    {
      if i > 0 {
        assert Comes(at, i - 1, k) && snapshot[i] == snapshot[1..][i - 1];
      }
    }
  }

  lemma OrderShifts(h: Handle, rest: seq<Handle>, r: seq<Handle>, at: seq<nat>)
    requires InOrder(rest, r, at)
    ensures InOrder([h] + rest, r, Shifted(at)) && InOrder([h] + rest, [h] + r, [0] + Shifted(at))
  {
  }

  lemma CancelsFirst(act: World, hist: seq<Handle>, h: Handle, r: seq<Handle>, k: nat)
    requires k <= |r|
    ensures Cancels(act, hist, ([h] + r)[..k + 1]) == act(hist + [h]).cancels + Cancels(act, hist + [h], r[..k])
  {
    assert ([h] + r)[..k + 1] == [h] + r[..k];
    assert ([h] + r[..k])[1..] == r[..k];
  }

  lemma RunFirst(act: World, snapshot: seq<Handle>, l: Loop, r: seq<Handle>, at: seq<nat>)
    requires snapshot != [] && snapshot[0] !in l.cancelled
    requires |at| == |r| &&
             RunsUncancelled(act, snapshot[1..], After(l, l.ready, snapshot[0], act(l.ran + [snapshot[0]])), r, at)
    ensures RunsUncancelled(act, snapshot, l, [snapshot[0]] + r, [0] + Shifted(at))
  {
    var h, at', r' := snapshot[0], [0] + Shifted(at), [snapshot[0]] + r;
    forall i, k | 0 <= i < |snapshot| && Comes(at', i, k)
      ensures (k < |at'| && at'[k] == i) <==> snapshot[i] !in l.cancelled + Cancels(act, l.ran, r'[..k])
    {
      if i == 0 {
        assert k == 0 && r'[..0] == [];
      } else {
        assert k > 0 && Comes(at, i - 1, k - 1) && snapshot[i] == snapshot[1..][i - 1];
        CancelsFirst(act, l.ran, h, r, k - 1);
      }
    }
  }

  /** Of the handles `r`, run after `hist`, none but the last raises something nobody catches,
      and that one does if `escapes`. */
  predicate EndsBy(act: World, hist: seq<Handle>, r: seq<Handle>, escapes: bool)
    decreases |r|
  {
    if r == [] then !escapes
    else if |r| == 1 then escapes == act(hist + [r[0]]).escapes
    else !act(hist + [r[0]]).escapes && EndsBy(act, hist + [r[0]], r[1..], escapes)
  }

  /** The turn over `snapshot` that ran `r`, from the positions `at`, got through its first `m`
      positions: all of them, or up to the one whose callback raised. */
  ghost predicate Ran(act: World, snapshot: seq<Handle>, l: Loop, r: seq<Handle>, at: seq<nat>, m: nat, escapes: bool) {
    && m <= |snapshot| && InOrder(snapshot[..m], r, at) && RunsUncancelled(act, snapshot[..m], l, r, at)
    && EndsBy(act, l.ran, r, escapes)
    && (if escapes then |at| > 0 && at[|at| - 1] + 1 == m else m == |snapshot|)
  }

  /** A turn leaves what its callbacks added and scheduled, in the order they did, and has
      cancelled what they cancelled; what it did not reach stays in front of what was added. */
  predicate LeavesRest(act: World, snapshot: seq<Handle>, l: Loop, r: seq<Handle>, m: nat, l': Loop)
    requires m <= |snapshot|
  {
    && l'.ran == l.ran + r
    && l'.ready == snapshot[m..] + (l.ready + Added(act, l.ran, r))
    && l'.scheduled == l.scheduled + Scheduled(act, l.ran, r)
    && l'.cancelled == l.cancelled + Cancels(act, l.ran, r)
  }

  lemma RestFirst(act: World, snapshot: seq<Handle>, l: Loop, r: seq<Handle>, m: nat, l': Loop)
    requires snapshot != [] && m <= |snapshot| - 1
    requires LeavesRest(act, snapshot[1..], After(l, l.ready, snapshot[0], act(l.ran + [snapshot[0]])), r, m, l')
    ensures LeavesRest(act, snapshot, l, [snapshot[0]] + r, m + 1, l')
  {
    var h := snapshot[0];
    var e := act(l.ran + [h]);
    assert ([h] + r)[1..] == r && snapshot[1..][m..] == snapshot[m + 1..];
    assert l.ran + ([h] + r) == (l.ran + [h]) + r;
    assert (l.ready + e.adds) + Added(act, l.ran + [h], r) == l.ready + (e.adds + Added(act, l.ran + [h], r));
    assert (l.scheduled + e.later) + Scheduled(act, l.ran + [h], r) ==
           l.scheduled + (e.later + Scheduled(act, l.ran + [h], r));
  }

  lemma SkipRan(act: World, snapshot: seq<Handle>, l: Loop, r: seq<Handle>, at: seq<nat>, m: nat, escapes: bool)
    requires snapshot != [] && snapshot[0] in l.cancelled && Ran(act, snapshot[1..], l, r, at, m, escapes)
    ensures Ran(act, snapshot, l, r, Shifted(at), m + 1, escapes)
  {
    var front := snapshot[..m + 1];
    assert front[1..] == snapshot[1..][..m] && front == [snapshot[0]] + snapshot[1..][..m];
    OrderShifts(snapshot[0], front[1..], r, at);
    SkipFirst(act, front, l, r, at);
  }

  lemma EndsFirst(act: World, hist: seq<Handle>, h: Handle, r: seq<Handle>, escapes: bool)
    requires EndsBy(act, hist + [h], r, escapes) && !act(hist + [h]).escapes
    ensures EndsBy(act, hist, [h] + r, escapes)
  {
    assert ([h] + r)[1..] == r;
  }

  lemma FrontOf(snapshot: seq<Handle>, m: nat)
    requires m + 1 <= |snapshot|
    ensures snapshot[..m + 1][1..] == snapshot[1..][..m] && snapshot[..m + 1] == [snapshot[0]] + snapshot[1..][..m]
  {
  }

  lemma RunRan(act: World, snapshot: seq<Handle>, l: Loop, r: seq<Handle>, at: seq<nat>, m: nat, escapes: bool)
    requires snapshot != [] && snapshot[0] !in l.cancelled && !act(l.ran + [snapshot[0]]).escapes
    requires Ran(act, snapshot[1..], After(l, l.ready, snapshot[0], act(l.ran + [snapshot[0]])), r, at, m, escapes)
    ensures Ran(act, snapshot, l, [snapshot[0]] + r, [0] + Shifted(at), m + 1, escapes)
  {
    FrontOf(snapshot, m);
    OrderShifts(snapshot[0], snapshot[1..][..m], r, at);
    RunFirst(act, snapshot[..m + 1], l, r, at);
    EndsFirst(act, l.ran, snapshot[0], r, escapes);
    LastShifts(at, m, escapes);
  }

  lemma LastShifts(at: seq<nat>, m: nat, escapes: bool)
    requires escapes ==> |at| > 0 && at[|at| - 1] + 1 == m
    ensures var more := [0] + Shifted(at); escapes ==> |more| > 0 && more[|more| - 1] + 1 == m + 1
  {
  }

  /** A turn that its first handle ends. */
  lemma EndRan(act: World, snapshot: seq<Handle>, l: Loop)
    requires snapshot != [] && snapshot[0] !in l.cancelled && act(l.ran + [snapshot[0]]).escapes
    ensures Ran(act, snapshot, l, [snapshot[0]], [0], 1, true)
    ensures LeavesRest(act, snapshot, l, [snapshot[0]], 1, Turn(act, snapshot, l))
  {
    var h := snapshot[0];
    assert [h][1..] == [] && [h][..0] == [];
    var e := act(l.ran + [h]);
    assert e.adds + [] == e.adds && e.later + [] == e.later;
    forall i, k | 0 <= i < 1 && Comes([0], i, k)
      ensures (k < 1 && [0][k] == i) <==> h !in l.cancelled + Cancels(act, l.ran, [h][..k])
    {
      assert k == 0;
    }
  }

  /** A turn runs exactly the handles of the snapshot not yet cancelled when their position
      comes, in order: all of them, unless one raises something nobody catches; then those
      behind it stay in front of what was added. */
  lemma {:induction false} TurnIsFifo(act: World, snapshot: seq<Handle>, l: Loop)
    returns (r: seq<Handle>, at: seq<nat>, m: nat, escapes: bool)
    ensures Ran(act, snapshot, l, r, at, m, escapes)
    ensures LeavesRest(act, snapshot, l, r, m, Turn(act, snapshot, l))
    decreases |snapshot|
  {
    if snapshot == [] {
      r, at, m, escapes := [], [], 0, false;
    } else {
      var h, rest := snapshot[0], snapshot[1..];
      var e := act(l.ran + [h]);
      if h in l.cancelled {
        r, at, m, escapes := TurnIsFifo(act, rest, l);
        SkipRan(act, snapshot, l, r, at, m, escapes);
        assert rest[m..] == snapshot[m + 1..];
        at, m := Shifted(at), m + 1;
      } else if e.escapes {
        EndRan(act, snapshot, l);
        r, at, m, escapes := [h], [0], 1, true;
      } else {
        r, at, m, escapes := TurnIsFifo(act, rest, After(l, l.ready, h, e));
        RunRan(act, snapshot, l, r, at, m, escapes);
        RestFirst(act, snapshot, l, r, m, Turn(act, snapshot, l));
        r, at, m := [h] + r, [0] + Shifted(at), m + 1;
      }
    }
  }

  /** When nothing escapes, the turn gets through the whole snapshot. */
  lemma QuietRunsThrough(act: World, hist: seq<Handle>, r: seq<Handle>, escapes: bool)
    requires Quiet(act) && EndsBy(act, hist, r, escapes)
    ensures !escapes
    decreases |r|
  {
    if |r| > 1 {
      QuietRunsThrough(act, hist + [r[0]], r[1..], escapes);
    }
  }

  /** With nothing cancelled, it runs the whole snapshot. */
  lemma {:induction false} TurnRunsAll(act: World, snapshot: seq<Handle>, l: Loop)
    requires Quiet(act) && l.cancelled == {} && forall hist :: act(hist).cancels == {}
    ensures Turn(act, snapshot, l).ran == l.ran + snapshot
    decreases |snapshot|
  {
    if snapshot != [] {
      var h, rest := snapshot[0], snapshot[1..];
      assert snapshot == [h] + rest;
      TurnRunsAll(act, rest, After(l, l.ready, h, act(l.ran + [h])));
    }
  }

  // ---- the bridge ----

  datatype Event =
    | Check(io: seq<Handle>, due: nat)     // after each poll
    | Timer(io: seq<Handle>, due: nat)     // the timer handle fired
    | Poll(ok: bool, io: seq<Handle>, due: nat)  // the selector is readable
    | Suspend(adds: seq<Handle>, later: seq<Handle>)  // a dispatch whose task suspended
    | Inline(adds: seq<Handle>, later: seq<Handle>)  // a dispatch that finished inline

  class Bridge {
    const act: World
    const pollActive: bool       // libuv watches asyncio's selector
    var loop: Loop
    var idleActive: bool         // what the server believes of its two handles
    var timerActive: bool
    var uvIdle: bool             // and what libuv has
    var uvTimer: bool

    predicate Tracked()
      reads this
    {
      idleActive == uvIdle && timerActive == uvTimer
    }

    /** libuv's next poll fits asyncio's outstanding work. */
    predicate Armed()
      reads this
    {
      && Tracked()
      && (uvIdle <==> loop.ready != [])
      && (uvTimer <==> loop.scheduled != [])
    }

    /** Without an active idle handle libuv waits for I/O or the timer. */
    predicate Blocks()
      reads this
    {
      !uvIdle
    }

    constructor (act: World, pollActive: bool)
      ensures this.act == act && this.pollActive == pollActive && Armed() && loop == Loop([], {}, [], [])
    {
      this.act, this.pollActive, loop := act, pollActive, Loop([], {}, [], []);
      idleActive, timerActive, uvIdle, uvTimer := false, false, false, false;
    }

    /** Pops and runs as many handles as there were; ends early if one raises. */
    method DrainReady(ntodo: nat)
      requires ntodo <= |loop.ready|
      modifies this`loop
      ensures loop == Turn(act, old(loop).ready[..ntodo], old(loop).(ready := old(loop).ready[ntodo..]))
    {
      ghost var rest, l := loop.ready[..ntodo], loop.(ready := loop.ready[ntodo..]);
      assert loop.ready == rest + l.ready;
      for i := 0 to ntodo
        invariant |rest| == ntodo - i && loop == l.(ready := rest + l.ready)
        invariant Turn(act, rest, l) ==
                  Turn(act, old(loop).ready[..ntodo], old(loop).(ready := old(loop).ready[ntodo..]))
      {
        var h := loop.ready[0];
        assert loop.ready[1..] == rest[1..] + l.ready && h == rest[0];
        loop := loop.(ready := loop.ready[1..]);
        if h !in loop.cancelled {
          var e := act(loop.ran + [h]);
          assert (rest[1..] + l.ready) + e.adds == rest[1..] + (l.ready + e.adds);
          loop := After(loop, loop.ready, h, e);
          l := After(l, l.ready, h, e);
          if e.escapes {
            return;
          }
        }
        rest := rest[1..];
      }
      assert rest + l.ready == l.ready;
    }

    method RunOnce(io: seq<Handle>, due: nat)
      modifies this`loop
      ensures loop == Once(act, old(loop), io, due)
    {
      var k := if due <= |loop.scheduled| then due else |loop.scheduled|;
      loop := loop.(ready := loop.ready + io + loop.scheduled[..k], scheduled := loop.scheduled[k..]);
      assert loop.ready[..|loop.ready|] == loop.ready && loop.ready[|loop.ready|..] == [];
      DrainReady(|loop.ready|);
    }

    method ArmWakeups(nready: nat)
      requires nready == |loop.ready| && Tracked()
      modifies this`idleActive, this`timerActive, this`uvIdle, this`uvTimer
      ensures Armed()
    {
      var hasReady := nready > 0;
      if hasReady != idleActive {
        uvIdle := hasReady;
        idleActive := hasReady;
      }
      if |loop.scheduled| == 0 {
        if timerActive {
          uvTimer := false;
          timerActive := false;
        }
        return;
      }
      uvTimer := true;
      timerActive := true;
    }

    method CheckCb(io: seq<Handle>, due: nat)
      requires Tracked()
      modifies this
      ensures Armed()
      ensures old(loop).ready == [] ==> loop == old(loop)
      ensures old(loop).ready != [] && pollActive ==> loop == Turn(act, old(loop).ready, old(loop).(ready := []))
      ensures old(loop).ready != [] && !pollActive ==> loop == Once(act, old(loop), io, due)
    {
      var nready := |loop.ready|;
      if nready > 0 {
        if pollActive {
          assert loop.ready[..nready] == loop.ready && loop.ready[nready..] == [];
          DrainReady(nready);
        } else {
          RunOnce(io, due);
        }
        nready := |loop.ready|;
      }
      ArmWakeups(nready);
    }

    /** libuv has stopped the one-shot timer before it calls back. */
    method TimerCb(io: seq<Handle>, due: nat)
      requires idleActive == uvIdle && timerActive && !uvTimer
      modifies this
      ensures Armed() && loop == Once(act, old(loop), io, due)
    {
      timerActive := false;
      RunOnce(io, due);
      ArmWakeups(|loop.ready|);
    }

    method PollCb(ok: bool, io: seq<Handle>, due: nat)
      requires Tracked()
      modifies this
      ensures old(Armed()) || ok ==> Armed()
      ensures loop == if ok then Once(act, old(loop), io, due) else old(loop)
    {
      if !ok {
        return;
      }
      RunOnce(io, due);
      ArmWakeups(|loop.ready|);
    }

    /** A dispatch whose task is suspended, having put `adds` on the ready queue. */
    method DispatchSuspended(adds: seq<Handle>, later: seq<Handle>)
      requires Tracked()
      modifies this
      ensures Armed() && (adds != [] ==> !Blocks())
      ensures loop == old(loop).(ready := old(loop).ready + adds, scheduled := old(loop).scheduled + later)
    {
      loop := loop.(ready := loop.ready + adds, scheduled := loop.scheduled + later);
      ArmWakeups(|loop.ready|);
    }

    /** An app that finished inline is not followed by arming: the handles still fit exactly
        when it scheduled nothing they are not armed for already. */
    method DispatchInline(adds: seq<Handle>, later: seq<Handle>)
      requires Armed()
      modifies this`loop
      ensures loop == old(loop).(ready := old(loop).ready + adds, scheduled := old(loop).scheduled + later)
      ensures Armed() <==> (adds == [] || old(loop).ready != []) && (later == [] || old(loop).scheduled != [])
    {
      loop := loop.(ready := loop.ready + adds, scheduled := loop.scheduled + later);
    }

    method OnEvent(e: Event)
      requires Armed() && (e.Inline? ==> e.adds == [] && e.later == []) && (e.Timer? ==> uvTimer)
      modifies this
      ensures Armed()
    {
      match e
      case Check(io, due) =>
        CheckCb(io, due);
      case Timer(io, due) =>
        uvTimer := false;
        TimerCb(io, due);
      case Poll(ok, io, due) =>
        PollCb(ok, io, due);
      case Suspend(adds, later) =>
        DispatchSuspended(adds, later);
      case Inline(adds, later) =>
        DispatchInline(adds, later);
        assert loop == old(loop);
    }
  }

  /** Any run of callbacks in which apps finishing inline schedule nothing: at no point does
      libuv block while a callback is ready.  A timer event without a timer does not occur. */
  method Drive(b: Bridge, es: seq<Event>)
    requires b.Armed() && forall i :: 0 <= i < |es| && es[i].Inline? ==> es[i].adds == [] && es[i].later == []
    modifies b
    ensures b.Armed() && (b.Blocks() ==> b.loop.ready == [])
  {
    for i := 0 to |es|
      invariant b.Armed() && (b.Blocks() ==> b.loop.ready == [])
    {
      if !es[i].Timer? || b.uvTimer {
        b.OnEvent(es[i]);
      }
    }
  }
}
