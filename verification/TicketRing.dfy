/** The session-ticket ring shared by one writing process and any number of reading ones.
    The ring is a row of fields in shared memory, each read and written on its own; the
    processes interleave freely at that granularity, under sequential consistency. */
module TicketRing {

  const RING: nat := 3
  const SEQ_RETRIES: nat := 64
  const ROTATE_MS: nat := 60 * 60 * 1000
  const LIFETIME_MS: nat := 2 * 60 * 60 * 1000
  const GRACE_MS: nat := ROTATE_MS
  const UINT32: nat := 0x1_0000_0000

  /** A sealing key; names, cipher keys and MAC keys stand for their bytes. */
  datatype Key = Key(name: int, aes: int, hmac: int)

  // ---- layout: cur, rotate_due_ms, then name/aes/hmac/live of each slot ----

  const CUR: nat := 0
  const DUE: nat := 1
  const FIELDS: nat := 2 + 4 * RING

  function Base(slot: nat): nat {
    2 + 4 * slot
  }

  predicate Live(mem: seq<int>, slot: nat)
    requires slot < RING && |mem| == FIELDS
  {
    mem[Base(slot) + 3] != 0
  }

  function KeyIn(mem: seq<int>, slot: nat): Key
    requires slot < RING && |mem| == FIELDS
  {
    Key(mem[Base(slot)], mem[Base(slot) + 1], mem[Base(slot) + 2])
  }

  // ---- the writer ----

  const WRITES: nat := 10

  /** The stores of tls_ticket_ring_publish() between its two updates of seq, in order:
      the slot is zeroized, the fresh key copied in, cur set, and the deadline renewed. */
  function Store(slot: nat, key: Key, i: nat, due: int): (nat, int)
    requires i < WRITES
  {
    if i < 4 then (Base(slot) + i, 0)
    else if i == 4 then (Base(slot), key.name)
    else if i == 5 then (Base(slot) + 1, key.aes)
    else if i == 6 then (Base(slot) + 2, key.hmac)
    else if i == 7 then (Base(slot) + 3, 1)
    else if i == 8 then (CUR, slot)
    else (DUE, due)
  }

  datatype Writer = Resting | Writing(slot: nat, key: Key, pc: nat, began: nat, first: nat, stamp: nat)

  /** A finished publication: the ring it left, the key it brought, when it began, read
      the clock and ended, and the numbers of its first and last step. */
  datatype Pub = Pub(mem: seq<int>, key: Key, began: nat, stamp: nat, ended: nat, first: nat, last: nat)

  // ---- the readers ----

  /** A spoiled attempt: given up when it loaded seq, while a publication was under way or
      not and with so many complete; or at its check, with so many writer steps taken when
      it had loaded seq and by then. */
  datatype Try = AtLoad(busy: bool, complete: nat) | AtCheck(from: nat, to: nat)

  /** A seqlock read of the fields `want`.  `begun` publications were complete, and `prior`
      reads had succeeded, when it started; `seen` were complete when it loaded seq. */
  datatype Stage = Load | Copy(s1: nat, seen: nat, got: seq<int>, from: nat)
  datatype Actor =
    | Reader(want: seq<nat>, attempt: nat, stage: Stage, begun: nat, prior: nat, tries: seq<Try>)
    | Hook(before: nat, pubs: nat, busy: bool, at: nat)

  /** A read that returned true: what it copied, how many publications were complete at its
      start and at its final check, and the clock at that check. */
  datatype Done = Done(want: seq<nat>, got: seq<int>, begun: nat, ended: nat, prior: nat, at: nat)

  /** A read that returned false: what it wanted, what spoiled each attempt and when it gave up. */
  datatype Lost = Lost(want: seq<nat>, tries: seq<Try>, at: nat)

  /** A rotation hook that returned success: the seq it sampled, and the numbers of the steps
      that sampled it and returned. */
  datatype Hooked = Hooked(before: nat, sampled: nat, returned: nat)

  datatype Sys = Sys(
    seqno: nat,             // the uint32 `seq`
    mem: seq<int>,
    rotateMs: nat,
    writer: Writer,
    actors: map<nat, Actor>,
    now: nat,               // the monotonic clock
    step: nat,              // steps taken so far
    writes: nat,            // steps taken by the writer
    pubs: seq<Pub>,
    log: seq<Done>,
    lost: seq<Lost>,
    hooks: seq<Hooked>)

  datatype Event =
    | Tick(ms: nat)
    | Begin(key: Key)
    | Write
    | End
    | Open(id: nat, want: seq<nat>)
    | LoadSeq(id: nat)
    | CopyField(id: nat)
    | Check(id: nat)
    | Sample(id: nat)
    | Poll(id: nat)

  function SnapshotFields(): seq<nat> {
    [CUR, 2, 3, 4, 5, 6, 7, 8, 9, 10, 11, 12, 13]
  }

  predicate InRange(want: seq<nat>) {
    forall i :: 0 <= i < |want| ==> want[i] < FIELDS
  }

  predicate Enabled(s: Sys, e: Event) {
    match e
    case Tick(_) => true
    case Begin(_) => s.writer.Resting?
    case Write => s.writer.Writing? && s.writer.pc < WRITES
    case End => s.writer.Writing? && s.writer.pc == WRITES
    case Open(id, want) => id !in s.actors && InRange(want)
    case LoadSeq(id) => id in s.actors && s.actors[id].Reader? && s.actors[id].stage.Load?
    case CopyField(id) =>
      id in s.actors && s.actors[id].Reader? && s.actors[id].stage.Copy? &&
      |s.actors[id].stage.got| < |s.actors[id].want|
    case Check(id) =>
      id in s.actors && s.actors[id].Reader? && s.actors[id].stage.Copy? &&
      |s.actors[id].stage.got| == |s.actors[id].want|
    case Sample(id) => id !in s.actors
    case Poll(id) => id in s.actors && s.actors[id].Hook?
  }

  function Bump(n: nat): nat {
    (n + 1) % UINT32
  }

  /** The slot the next publication goes to: 0 at creation, then one past the current. */
  function NextSlot(s: Sys): nat {
    if s.pubs == [] || |s.mem| != FIELDS || s.mem[CUR] < 0 then 0 else (s.mem[CUR] + 1) % RING
  }

  function BeginPublish(s: Sys, key: Key): Sys {
    s.(seqno := Bump(s.seqno), writer := Writing(NextSlot(s), key, 0, s.now, s.step, 0))
  }

  function WriteNext(s: Sys): Sys
    requires Enabled(s, Write)
  {
    var w := s.writer;
    var (i, v) := Store(w.slot, w.key, w.pc, s.now + s.rotateMs);
    s.(mem := if i < |s.mem| then s.mem[i := v] else s.mem, writer := w.(pc := w.pc + 1, stamp := s.now))
  }

  function EndPublish(s: Sys): Sys
    requires Enabled(s, End)
  {
    var w := s.writer;
    s.(seqno := Bump(s.seqno), writer := Resting,
       pubs := s.pubs + [Pub(s.mem, w.key, w.began, w.stamp, s.now, w.first, s.step)])
  }

  /** Readers change nothing in the ring. */
  predicate SameRing(s: Sys, t: Sys) {
    && t.seqno == s.seqno && t.mem == s.mem && t.rotateMs == s.rotateMs && t.writer == s.writer
    && t.pubs == s.pubs && t.now == s.now && t.step == s.step && t.writes == s.writes
  }

  /** Another attempt, unless the budget is spent. */
  function Retry(s: Sys, id: nat, r: Actor, spoil: Try): (t: Sys)
    requires r.Reader?
    ensures SameRing(s, t)
  {
    var tries := r.tries + [spoil];
    if r.attempt + 1 < SEQ_RETRIES then
      s.(actors := s.actors[id := r.(attempt := r.attempt + 1, stage := Load, tries := tries)])
    else s.(actors := s.actors - {id}, lost := s.lost + [Lost(r.want, tries, s.now)])
  }

  function LoadStep(s: Sys, id: nat): (t: Sys)
    requires Enabled(s, LoadSeq(id))
    ensures SameRing(s, t)
  {
    var r := s.actors[id];
    if s.seqno == 0 || s.seqno % 2 == 1 then Retry(s, id, r, AtLoad(s.writer.Writing?, |s.pubs|))
    else s.(actors := s.actors[id := r.(stage := Copy(s.seqno, |s.pubs|, [], s.writes))])
  }

  function CopyStep(s: Sys, id: nat): (t: Sys)
    requires Enabled(s, CopyField(id))
    ensures SameRing(s, t)
  {
    var r := s.actors[id];
    var i := r.want[|r.stage.got|];
    s.(actors := s.actors[id := r.(stage := r.stage.(got := r.stage.got + [if i < |s.mem| then s.mem[i] else 0]))])
  }

  function CheckStep(s: Sys, id: nat): (t: Sys)
    requires Enabled(s, Check(id))
    ensures SameRing(s, t)
  {
    var r := s.actors[id];
    if s.seqno == r.stage.s1 then
      s.(actors := s.actors - {id},
         log := s.log + [Done(r.want, r.stage.got, r.begun, |s.pubs|, r.prior, s.now)])
    else Retry(s, id, r, AtCheck(r.stage.from, s.writes))
  }

  /** tls_ticket_rotate_hook(): remember seq, then wait for two more, even. */
  function SampleStep(s: Sys, id: nat): (t: Sys)
    ensures SameRing(s, t)
  {
    s.(actors := s.actors[id := Hook(s.seqno, |s.pubs|, s.writer.Writing?, s.step)])
  }

  function PollStep(s: Sys, id: nat): (t: Sys)
    requires Enabled(s, Poll(id))
    ensures SameRing(s, t)
  {
    var h := s.actors[id];
    if s.seqno >= (h.before + 2) % UINT32 && s.seqno % 2 == 0 then
      s.(actors := s.actors - {id}, hooks := s.hooks + [Hooked(h.before, h.at, s.step)])
    else s
  }

  predicate ByWriter(e: Event) {
    e.Begin? || e.Write? || e.End?
  }

  function Effect(s: Sys, e: Event): (t: Sys)
    requires Enabled(s, e)
    ensures !e.Tick? && !ByWriter(e) ==> SameRing(s, t)
  {
    match e
    case Tick(ms) => s.(now := s.now + ms)
    case Begin(key) => BeginPublish(s, key)
    case Write => WriteNext(s)
    case End => EndPublish(s)
    case Open(id, want) => s.(actors := s.actors[id := Reader(want, 0, Load, |s.pubs|, |s.log|, [])])
    case LoadSeq(id) => LoadStep(s, id)
    case CopyField(id) => CopyStep(s, id)
    case Check(id) => CheckStep(s, id)
    case Sample(id) => SampleStep(s, id)
    case Poll(id) => PollStep(s, id)
  }

  function Next(s: Sys, e: Event): Sys
    requires Enabled(s, e)
  {
    Effect(s, e).(step := s.step + 1, writes := s.writes + if ByWriter(e) then 1 else 0)
  }

  /** The region as tls_ticket_ring_create() maps it: all zero, nothing published. */
  predicate Initial(s: Sys) {
    && s.seqno == 0 && |s.mem| == FIELDS && (forall i :: 0 <= i < FIELDS ==> s.mem[i] == 0)
    && s.writer.Resting? && s.actors == map[] && s.pubs == [] && s.log == [] && s.lost == []
    && s.hooks == [] && s.writes == 0
  }

  ghost predicate Reachable(s: Sys, es: seq<Event>, t: Sys)
    decreases |es|
  {
    if es == [] then s == t else Enabled(s, es[0]) && Reachable(Next(s, es[0]), es[1..], t)
  }
}
