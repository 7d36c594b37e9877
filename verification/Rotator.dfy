/** The thread that rotates the shared ring, and the two ways other threads reach it.
    `run` is an endless loop, so it is a program counter here; kick() and stop() may fall
    between any two of its steps. */
module Rotator {

  /** Before wait(), before clear(), before the stop test, before the rotation, inside it, returned. */
  datatype Pc = Wait | Woken | Cleared | Checked | Rotating | Exited

  datatype State = State(wake: bool, stopping: bool, ringGone: bool, pc: Pc)

  /** `Thread` is the rotator's own next step; `timeout` lets a wait() end unset, and `ok`
      says whether a rotation under way finds its ring. */
  datatype Event = Kick | StopFlag | StopWake | Thread(timeout: bool, ok: bool)

  predicate Enabled(s: State, e: Event) {
    match e
    case Thread(timeout, _) => !s.pc.Exited? && (s.pc.Wait? ==> s.wake || timeout)
    case StopWake => s.stopping
    case _ => true
  }

  function ThreadStep(s: State, ok: bool): State {
    match s.pc
    case Wait => s.(pc := Woken)
    case Woken => s.(pc := Cleared, wake := false)
    case Cleared => s.(pc := if s.stopping then Exited else Checked)
    case Checked => s.(pc := Rotating)
    case Rotating => if ok then s.(pc := Wait) else s.(pc := Exited, ringGone := true)
    case Exited => s
  }

  function Next(s: State, e: Event): State {
    match e
    case Kick => s.(wake := true)
    case StopFlag => s.(stopping := true)
    case StopWake => s.(wake := true)
    case Thread(_, ok) => ThreadStep(s, ok)
  }

  /** This step starts a rotation. */
  predicate Starts(s: State, e: Event) {
    e.Thread? && s.pc.Checked?
  }

  predicate Possible(s: State, es: seq<Event>)
    decreases |es|
  {
    es == [] || (Enabled(s, es[0]) && Possible(Next(s, es[0]), es[1..]))
  }

  function Run(s: State, es: seq<Event>): State
    decreases |es|
  {
    if es == [] then s else Run(Next(s, es[0]), es[1..])
  }

  /** How many rotations a run starts. */
  function Started(s: State, es: seq<Event>): nat
    decreases |es|
  {
    if es == [] then 0 else (if Starts(s, es[0]) then 1 else 0) + Started(Next(s, es[0]), es[1..])
  }

  /** How many steps of a run are the rotator's own. */
  function OwnSteps(es: seq<Event>): nat {
    if es == [] then 0 else (if es[0].Thread? then 1 else 0) + OwnSteps(es[1..])
  }

  /** The thread returns only because it was stopped or its ring is gone, and always when that
      is gone. */
  predicate Justified(s: State) {
    && (s.pc.Exited? ==> s.stopping || s.ringGone)
    && (s.ringGone ==> s.pc.Exited?)
  }

  /** Own steps until the rotation a pending request is owed has started. */
  function Distance(pc: Pc): nat {
    match pc
    case Rotating => 5
    case Wait => 4
    case Woken => 3
    case Cleared => 2
    case Checked => 1
    case Exited => 0
  }

  /** A rotation is owed: the event is set, or a pass has begun, whatever woke it. */
  predicate Pending(s: State) {
    s.wake || s.pc.Woken? || s.pc.Cleared? || s.pc.Checked?
  }

  lemma {:induction false} PendingServed(s: State, es: seq<Event>)
    requires Justified(s) && (Pending(s) || s.pc.Exited?) && Possible(s, es)
    requires OwnSteps(es) >= Distance(s.pc)
    ensures Started(s, es) >= 1 || Run(s, es).stopping || Run(s, es).ringGone
    decreases |es|
  {
    if s.pc.Exited? {
      ExitStays(s, es);
    } else if !Starts(s, es[0]) {
      PendingServed(Next(s, es[0]), es[1..]);
    }
  }

  /** Every kick is served: whenever it falls, once the thread has taken five steps of its own
      a rotation has started after the kick, unless the thread was stopped or the ring is
      gone. */
  lemma KickIsServed(s: State, es: seq<Event>)
    requires Justified(s) && Possible(Next(s, Kick), es) && OwnSteps(es) >= 5
    ensures var t := Next(s, Kick);
            Started(t, es) >= 1 || Run(t, es).stopping || Run(t, es).ringGone
  {
    PendingServed(Next(s, Kick), es);
  }

  /** The schedule holds without any kick: a wait that runs out leads to a rotation within three
      more steps of the thread, unless it was stopped. */
  lemma PeriodIsServed(s: State, ok: bool, es: seq<Event>)
    requires s.pc.Wait? && Justified(s) && Possible(Next(s, Thread(true, ok)), es) && OwnSteps(es) >= 3
    ensures var t := Next(s, Thread(true, ok));
            Started(t, es) >= 1 || Run(t, es).stopping || Run(t, es).ringGone
  {
    PendingServed(Next(s, Thread(true, ok)), es);
  }

  /** A rotation that fails ends the thread, for good. */
  lemma FailureEnds(s: State, timeout: bool, es: seq<Event>)
    requires Justified(s) && s.pc.Rotating? && Possible(Next(s, Thread(timeout, false)), es)
    ensures var t := Next(s, Thread(timeout, false));
            Run(t, es).pc.Exited? && Run(t, es).ringGone && Started(t, es) == 0
  {
    GoneStays(Next(s, Thread(timeout, false)), es);
  }

  lemma {:induction false} GoneStays(s: State, es: seq<Event>)
    requires s.pc.Exited? && s.ringGone && Possible(s, es)
    ensures Run(s, es).pc.Exited? && Run(s, es).ringGone && Started(s, es) == 0
    decreases |es|
  {
    if es != [] {
      GoneStays(Next(s, es[0]), es[1..]);
    }
  }

  /** One that succeeds goes back to waiting. */
  lemma SuccessWaits(s: State, timeout: bool)
    requires Justified(s) && s.pc.Rotating?
    ensures var t := Next(s, Thread(timeout, true)); t.pc.Wait? && !t.ringGone && t.wake == s.wake
  {
  }

  /** Rotations already owed: a pass under way, and a set event that pass will not clear. */
  function Owed(s: State): nat {
    match s.pc
    case Wait => if s.wake then 1 else 0
    case Woken => 1
    case Cleared => if s.wake then 2 else 1
    case Checked => if s.wake then 2 else 1
    case Rotating => if s.wake then 1 else 0
    case Exited => 0
  }

  /** Steps that may cause a rotation: setting the event, and a wait that runs out. */
  function Causes(es: seq<Event>): nat {
    if es == [] then 0
    else (if es[0].Kick? || es[0].StopWake? || (es[0].Thread? && es[0].timeout) then 1 else 0) + Causes(es[1..])
  }

  /** The thread does not rotate by itself: there are no more rotations than kicks, stops and
      waits that ran out, beside those owed already. */
  lemma {:induction false} RotationsHaveCauses(s: State, es: seq<Event>)
    requires Possible(s, es)
    ensures Started(s, es) <= Owed(s) + Causes(es)
    decreases |es|
  {
    if es != [] {
      RotationsHaveCauses(Next(s, es[0]), es[1..]);
    }
  }

  /** A kick during a rotation is not folded into it: four steps are not always enough. */
  lemma FiveStepsNeeded()
    ensures var s := State(false, false, false, Rotating);
            var es := [Thread(false, true), Thread(false, true), Thread(false, true), Thread(false, true)];
            Possible(Next(s, Kick), es) && Started(Next(s, Kick), es) == 0
  {
  }

  lemma {:induction false} ExitStays(s: State, es: seq<Event>)
    requires Justified(s) && s.pc.Exited? && Possible(s, es)
    ensures Run(s, es).pc.Exited? && (Run(s, es).stopping || Run(s, es).ringGone)
    decreases |es|
  {
    if es != [] {
      ExitStays(Next(s, es[0]), es[1..]);
    }
  }

  lemma {:induction false} RunJustified(s: State, es: seq<Event>)
    requires Justified(s) && Possible(s, es)
    ensures Justified(Run(s, es))
    decreases |es|
  {
    if es != [] {
      RunJustified(Next(s, es[0]), es[1..]);
    }
  }

  /** Own steps until a stopped thread has returned. */
  function StopDistance(pc: Pc): nat {
    match pc
    case Checked => 5
    case Rotating => 4
    case Wait => 3
    case Woken => 2
    case Cleared => 1
    case Exited => 0
  }

  /** stop() is honoured: after it the thread starts at most the one rotation it had already
      decided on, and has returned once it took five steps of its own. */
  lemma {:induction false} StopIsHonoured(s: State, es: seq<Event>)
    requires s.stopping && (s.wake || s.pc.Cleared? || s.pc.Exited?) && Possible(s, es)
    ensures Started(s, es) <= if s.pc.Checked? then 1 else 0
    ensures OwnSteps(es) >= StopDistance(s.pc) ==> Run(s, es).pc.Exited?
    decreases |es|
  {
    if es != [] {
      StopIsHonoured(Next(s, es[0]), es[1..]);
    }
  }
}
