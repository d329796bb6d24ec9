/** Atomic operations built from a compare-exchange and retried in a loop: threads step over one
    shared cell, and what they do is set against operations that happen at once. */
module AtomicOps {
  import opened Wrappers

  const WORD: nat := 0x1_0000_0000

  type Word = n: nat | n < WORD

  /** The 32-bit value of a sum. */
  function Wrap(n: nat): (w: Word)
    ensures n < WORD ==> w == n
  {
    n % WORD
  }

  function Sum(a: Word, b: Word): Word { Wrap(a + b) }

  datatype Op =
    | Load
    | Store(put: Word)
    | CompareAndSwap(when: Word, put: Word)
    | Exchange(put: Word)
    | Increment(delta: Word)

  // ------------------------------------------------------------ the specification

  /** The cell after an operation that happens at once, and the operation's result. */
  function Apply(op: Op, cell: Word): (Word, Word) {
    match op
    case Load => (cell, cell)
    case Store(put) => (put, 0)
    case CompareAndSwap(when, put) => (if cell == when then put else cell, cell)
    case Exchange(put) => (put, cell)
    case Increment(delta) => (Sum(cell, delta), Sum(cell, delta))
  }

  datatype Event = Call(t: nat, op: Op) | Effect(t: nat, op: Op, result: Word) | Return(t: nat, result: Word)

  /** What a thread of the specification is about: an operation takes effect between its call
      and its return. */
  datatype Phase = Waiting | Called(op: Op) | Effected(op: Op, result: Word)

  datatype Atomic = Atomic(cell: Word, threads: seq<Phase>)

  function Accept(a: Atomic, e: Event): Option<Atomic> {
    if e.t >= |a.threads| then None
    else
      match e
      case Call(t, op) =>
        if a.threads[t] == Waiting then Some(a.(threads := a.threads[t := Called(op)])) else None
      case Effect(t, op, result) =>
        var (cell, r) := Apply(op, a.cell);
        if a.threads[t] == Called(op) && result == r then
          Some(Atomic(cell, a.threads[t := Effected(op, r)]))
        else None
      case Return(t, result) =>
        if a.threads[t].Effected? && a.threads[t].result == result then
          Some(a.(threads := a.threads[t := Waiting]))
        else None
  }

  function Replay(a: Atomic, es: seq<Event>): Option<Atomic> {
    if es == [] then Some(a)
    else
      match Replay(a, es[..|es| - 1])
      case None => None
      case Some(b) => Accept(b, es[|es| - 1])
  }

  // ------------------------------------------------------------ the program

  /** Where a thread stands: before its first read of the cell, before a compare-exchange,
      before the read that follows a failed one, or about to return. */
  datatype Pc =
    | Idle
    | Ready(op: Op)
    | Try(op: Op, expected: Word, desired: Word)
    | Reread(op: Op)
    | Done(op: Op, result: Word)

  datatype Thread = Thread(pc: Pc, started: nat)

  datatype State = State(cell: Word, threads: seq<Thread>, events: seq<Event>, failures: nat, writes: nat)

  /** Thread t calls an operation, or makes its next access to the cell, or returns. */
  datatype Move = Start(t: nat, op: Op) | Advance(t: nat)

  function Goto(s: State, t: nat, pc: Pc): State
    requires t < |s.threads|
  {
    s.(threads := s.threads[t := s.threads[t].(pc := pc)])
  }

  /** The thread's last access: the operation has its effect there. */
  function Finish(s: State, t: nat, op: Op, cell: Word, result: Word, write: nat): State
    requires t < |s.threads|
  {
    Goto(s, t, Done(op, result)).(cell := cell, events := s.events + [Effect(t, op, result)],
                                  writes := s.writes + write)
  }

  function FirstAccess(s: State, t: nat, op: Op): State
    requires t < |s.threads|
  {
    match op
    case Load => Finish(s, t, op, s.cell, s.cell, 0)
    case Store(put) => Finish(s, t, op, put, 0, 1)
    case CompareAndSwap(when, put) => Goto(s, t, Try(op, when, put))
    case Exchange(put) => Goto(s, t, Try(op, s.cell, put))
    case Increment(delta) => Goto(s, t, Try(op, s.cell, Sum(s.cell, delta)))
  }

  /** The kernel's compare-exchange. */
  function TryExchange(s: State, t: nat, op: Op, expected: Word, desired: Word): State
    requires t < |s.threads|
  {
    if s.cell == expected then
      Finish(s, t, op, desired, if op.Increment? then desired else expected, 1)
    else
      Goto(s, t, if op.CompareAndSwap? then Reread(op) else Ready(op)).(failures := s.failures + 1)
  }

  function ReadAgain(s: State, t: nat, op: Op): State
    requires t < |s.threads| && op.CompareAndSwap?
  {
    if s.cell == op.when then Goto(s, t, Try(op, op.when, op.put)) else Finish(s, t, op, s.cell, s.cell, 0)
  }

  /** A move that the thread is not ready for changes nothing. */
  function Step(s: State, m: Move): State {
    if m.t >= |s.threads| then s
    else
      var t := m.t;
      match m
      case Start(_, op) =>
        if s.threads[t].pc.Idle? then
          s.(threads := s.threads[t := Thread(Ready(op), s.threads[t].started + 1)],
             events := s.events + [Call(t, op)])
        else s
      case Advance(_) =>
        match s.threads[t].pc
        case Idle => s
        case Ready(op) => FirstAccess(s, t, op)
        case Try(op, expected, desired) => TryExchange(s, t, op, expected, desired)
        case Reread(op) => if op.CompareAndSwap? then ReadAgain(s, t, op) else s
        case Done(op, result) => Goto(s, t, Idle).(events := s.events + [Return(t, result)])
  }

  function Run(s: State, ms: seq<Move>): State {
    if ms == [] then s else Step(Run(s, ms[..|ms| - 1]), ms[|ms| - 1])
  }

  /** n threads, none in an operation. */
  function Initial(n: nat, cell: Word): State {
    State(cell, seq(n, _ => Thread(Idle, 0)), [], 0, 0)
  }

  // ------------------------------------------------------------ every run is a run of the specification

  function PhaseOf(pc: Pc): Phase {
    match pc
    case Idle => Waiting
    case Done(op, result) => Effected(op, result)
    case _ => Called(pc.op)
  }

  function View(s: State): (a: Atomic)
    ensures |a.threads| == |s.threads|
  {
    Atomic(s.cell, seq(|s.threads|, i requires 0 <= i < |s.threads| => PhaseOf(s.threads[i].pc)))
  }

  /** What a thread carries from one access to the next. */
  predicate PcOk(pc: Pc) {
    match pc
    case Try(op, expected, desired) =>
      (match op
       case CompareAndSwap(when, put) => expected == when && desired == put
       case Exchange(put) => desired == put
       case Increment(delta) => desired == Sum(expected, delta)
       case _ => false)
    case Reread(op) => op.CompareAndSwap?
    case _ => true
  }

  predicate Ok(s: State) { forall t :: 0 <= t < |s.threads| ==> PcOk(s.threads[t].pc) }

  lemma ViewGoto(s: State, t: nat, pc: Pc)
    requires t < |s.threads|
    ensures View(Goto(s, t, pc)) == View(s).(threads := View(s).threads[t := PhaseOf(pc)])
    ensures PhaseOf(pc) == PhaseOf(s.threads[t].pc) ==> View(Goto(s, t, pc)) == View(s)
  {
    assert View(Goto(s, t, pc)).threads == View(s).threads[t := PhaseOf(pc)];
    if PhaseOf(pc) == PhaseOf(s.threads[t].pc) {
      assert View(s).threads[t := PhaseOf(pc)] == View(s).threads;
    }
  }

  /** Each step of a thread is one step of the specification, or none. */
  lemma StepRefines(s: State, m: Move)
    requires Ok(s)
    ensures var s' := Step(s, m);
            && Ok(s') && |s'.threads| == |s.threads|
            && ((s'.events == s.events && View(s') == View(s))
                || (exists e :: s'.events == s.events + [e] && Accept(View(s), e) == Some(View(s'))))
  {
    var s' := Step(s, m);
    if m.t < |s.threads| {
      var t, pc := m.t, s.threads[m.t].pc;
      assert PcOk(pc);
      ViewGoto(s, t, s'.threads[t].pc);
      assert View(s') == View(Goto(s, t, s'.threads[t].pc)).(cell := s'.cell) by {
        assert View(s').threads == View(Goto(s, t, s'.threads[t].pc)).threads;
      }
      if s'.events != s.events {
        var e := s'.events[|s.events|];
        assert s'.events == s.events + [e];
        assert Accept(View(s), e) == Some(View(s'));
      }
    }
  }

  /** Linearizability: every run, of any number of threads calling any operations, reads as a
      run in which each operation happens at once, at its Effect. */
  lemma {:induction false} Linearizable(n: nat, cell: Word, ms: seq<Move>)
    ensures var s := Run(Initial(n, cell), ms);
            Ok(s) && |s.threads| == n && Replay(View(Initial(n, cell)), s.events) == Some(View(s))
  {
    if ms != [] {
      var before := ms[..|ms| - 1];
      Linearizable(n, cell, before);
      var s := Run(Initial(n, cell), before);
      StepRefines(s, ms[|ms| - 1]);
      var s' := Step(s, ms[|ms| - 1]);
      if s'.events != s.events {
        var e :| s'.events == s.events + [e] && Accept(View(s), e) == Some(View(s'));
        assert s'.events[..|s'.events| - 1] == s.events;
      }
    }
  }

  // ------------------------------------------------------------ what the specification promises a caller

  lemma {:induction false} ReplayPrefix(a: Atomic, es: seq<Event>, k: nat)
    requires k <= |es| && Replay(a, es) != None
    ensures Replay(a, es[..k]) != None
  {
    if k < |es| {
      ReplayPrefix(a, es[..|es| - 1], k);
      assert es[..|es| - 1][..k] == es[..k];
    } else {
      assert es[..k] == es;
    }
  }

  /** The threads of the specification that have been called, or have had their effect, since
      their last event. */
  ghost predicate OpenAt(a: Atomic, es: seq<Event>, t: nat, i: int) {
    && -1 <= i < |es|
    && (forall k :: i < k < |es| ==> es[k].t != t)
    && (i >= 0 ==> es[i].t == t)
  }

  lemma {:induction false} PhaseSource(a: Atomic, es: seq<Event>, t: nat) returns (i: int)
    requires Replay(a, es) != None && t < |a.threads| && a.threads[t] == Waiting
    ensures var b := Replay(a, es).value; |b.threads| == |a.threads| && OpenAt(a, es, t, i)
    ensures var b := Replay(a, es).value;
            match b.threads[t]
            case Waiting => i >= 0 ==> es[i].Return?
            case Called(op) => i >= 0 && es[i] == Call(t, op)
            case Effected(op, r) => i >= 0 && es[i] == Effect(t, op, r)
  {
    if es == [] { return -1; }
    var front := es[..|es| - 1];
    i := PhaseSource(a, front, t);
    if es[|es| - 1].t == t { i := |es| - 1; }
  }

  /** The value of the cell before the event at k. */
  function CellAt(a: Atomic, es: seq<Event>, k: nat): Word
    requires k <= |es| && Replay(a, es[..k]) != None
  {
    Replay(a, es[..k]).value.cell
  }

  /** The call at i, its effect at j and its return at k, with no other event of that thread
      between; the result is what the operation gives when applied at once to the cell at j. */
  ghost predicate EffectBetween(a: Atomic, es: seq<Event>, i: nat, j: nat, k: nat) {
    && i < j < k < |es|
    && es[i].Call? && es[k].Return? && es[i].t == es[k].t
    && es[j] == Effect(es[k].t, es[i].op, es[k].result)
    && (forall x :: i < x < k && x != j ==> es[x].t != es[k].t)
    && Replay(a, es[..j]) != None
    && es[k].result == Apply(es[i].op, CellAt(a, es, j)).1
  }

  lemma ReplayLast(a: Atomic, es: seq<Event>)
    requires es != [] && Replay(a, es[..|es| - 1]) != None
    ensures Replay(a, es) == Accept(Replay(a, es[..|es| - 1]).value, es[|es| - 1])
  {
  }

  lemma LastAccepted(a: Atomic, es: seq<Event>, k: nat)
    requires k < |es| && Replay(a, es) != None
    ensures Replay(a, es[..k]) != None
    ensures var b := Replay(a, es[..k]).value; |b.threads| == |a.threads| && Accept(b, es[k]) != None
  {
    ReplayPrefix(a, es, k + 1);
    assert es[..k + 1][..k] == es[..k] && es[..k + 1][k] == es[k];
    ThreadsKept(a, es[..k]);
  }

  lemma ReturnHasEffect(a: Atomic, es: seq<Event>, k: nat) returns (i: nat, j: nat)
    requires Replay(a, es) != None && k < |es| && es[k].Return?
    requires forall t :: 0 <= t < |a.threads| ==> a.threads[t] == Waiting
    ensures EffectBetween(a, es, i, j, k)
  {
    hide Replay;
    var t := es[k].t;
    LastAccepted(a, es, k);
    j := PhaseSource(a, es[..k], t);
    LastAccepted(a, es, j);
    i := PhaseSource(a, es[..j], t);
    assert es[j] == Effect(t, es[j].op, es[k].result) && es[i] == Call(t, es[j].op);
    forall x | i < x < k && x != j ensures es[x].t != t {
      if x < j { assert es[x] == es[..j][x]; } else { assert es[x] == es[..k][x]; }
    }
  }

  /** Whatever a call returns, its operation gives when applied at some moment during the call. */
  lemma TakesEffectBetween(n: nat, cell: Word, ms: seq<Move>, k: nat)
    requires k < |Run(Initial(n, cell), ms).events| && Run(Initial(n, cell), ms).events[k].Return?
    ensures exists i: nat, j: nat ::
              EffectBetween(View(Initial(n, cell)), Run(Initial(n, cell), ms).events, i, j, k)
  {
    Linearizable(n, cell, ms);
    var i, j := ReturnHasEffect(View(Initial(n, cell)), Run(Initial(n, cell), ms).events, k);
  }

  lemma {:induction false} ThreadsKept(a: Atomic, es: seq<Event>)
    requires Replay(a, es) != None
    ensures |Replay(a, es).value.threads| == |a.threads|
  {
    if es != [] { ThreadsKept(a, es[..|es| - 1]); }
  }

  // ------------------------------------------------------------ sums over threads

  function Total(ws: seq<nat>): nat {
    if ws == [] then 0 else Total(ws[..|ws| - 1]) + ws[|ws| - 1]
  }

  lemma {:induction false} TotalUpdate(ws: seq<nat>, t: nat, w: nat)
    requires t < |ws|
    ensures Total(ws[t := w]) == Total(ws) - ws[t] + w
  {
    var front := ws[..|ws| - 1];
    if t == |ws| - 1 {
      assert ws[t := w][..|ws| - 1] == front;
    } else {
      TotalUpdate(front, t, w);
      assert ws[t := w][..|ws| - 1] == front[t := w];
    }
  }

  lemma {:induction false} TotalPair(ws: seq<nat>, vs: seq<nat>)
    requires |ws| == |vs| && forall i :: 0 <= i < |ws| ==> ws[i] + vs[i] <= 1
    ensures Total(ws) + Total(vs) <= |ws|
  {
    if ws != [] { TotalPair(ws[..|ws| - 1], vs[..|vs| - 1]); }
  }

  lemma {:induction false} TotalZero(ws: seq<nat>)
    requires forall i :: 0 <= i < |ws| ==> ws[i] == 0
    ensures Total(ws) == 0
  {
    if ws != [] { TotalZero(ws[..|ws| - 1]); }
  }

  // ------------------------------------------------------------ nothing is lost

  function CalledDelta(p: Phase): nat { if p.Called? && p.op.Increment? then p.op.delta else 0 }

  /** The increments called and not yet made. */
  function Pending(ps: seq<Phase>): nat {
    Total(Deltas(ps))
  }

  function Deltas(ps: seq<Phase>): (ws: seq<nat>)
    ensures |ws| == |ps| && forall i :: 0 <= i < |ws| ==> ws[i] == CalledDelta(ps[i])
  {
    seq(|ps|, i requires 0 <= i < |ps| => CalledDelta(ps[i]))
  }

  lemma PendingUpdate(ps: seq<Phase>, t: nat, p: Phase)
    requires t < |ps|
    ensures Pending(ps[t := p]) == Pending(ps) - CalledDelta(ps[t]) + CalledDelta(p)
  {
    TotalUpdate(Deltas(ps), t, CalledDelta(p));
    assert Deltas(ps[t := p]) == Deltas(ps)[t := CalledDelta(p)];
  }

  /** The sum of the increments called for. */
  function Asked(es: seq<Event>): nat {
    if es == [] then 0
    else
      var e := es[|es| - 1];
      Asked(es[..|es| - 1]) + if e.Call? && e.op.Increment? then e.op.delta else 0
  }

  /** The sum of the increments made. */
  function Made(es: seq<Event>): nat {
    if es == [] then 0
    else
      var e := es[|es| - 1];
      Made(es[..|es| - 1]) + if e.Effect? && e.op.Increment? then e.op.delta else 0
  }

  predicate IsIncrement(op: Op) { op.Increment? }
  predicate IsTicket(op: Op) { op == Increment(1) }
  predicate IsSwapOrLoad(op: Op) { op.Exchange? || op.Load? }

  ghost predicate Calls(es: seq<Event>, allowed: Op -> bool) {
    forall i :: 0 <= i < |es| && es[i].Call? ==> allowed(es[i].op)
  }

  ghost predicate Among(a: Atomic, allowed: Op -> bool) {
    forall t :: 0 <= t < |a.threads| && !a.threads[t].Waiting? ==> allowed(a.threads[t].op)
  }

  ghost predicate Quiet(a: Atomic) { forall t :: 0 <= t < |a.threads| ==> a.threads[t] == Waiting }

  lemma {:induction false} OnlyAllowed(a: Atomic, es: seq<Event>, allowed: Op -> bool)
    requires Replay(a, es) != None && Quiet(a) && Calls(es, allowed)
    ensures Among(Replay(a, es).value, allowed)
    ensures forall i :: 0 <= i < |es| && es[i].Effect? ==> allowed(es[i].op)
  {
    if es != [] {
      var front := es[..|es| - 1];
      OnlyAllowed(a, front, allowed);
      var e := es[|es| - 1];
      var b := Replay(a, front).value;
      forall i | 0 <= i < |es| && es[i].Effect? ensures allowed(es[i].op) {
        if i < |es| - 1 { assert es[i] == front[i]; } else { assert b.threads[e.t] == Called(e.op); }
      }
    }
  }

  lemma WrapSum(a: nat, b: nat)
    ensures Wrap(Wrap(a) + b) == Wrap(a + b)
  {
  }

  lemma {:induction false} IncrementsReplayed(a: Atomic, es: seq<Event>)
    requires Replay(a, es) != None && Quiet(a) && Calls(es, IsIncrement)
    ensures Replay(a, es).value.cell == Wrap(a.cell + Made(es))
    ensures Asked(es) == Made(es) + Pending(Replay(a, es).value.threads)
  {
    hide Wrap;
    if es == [] {
      TotalZero(Deltas(a.threads));
    } else {
      var front := es[..|es| - 1];
      var e := es[|es| - 1];
      IncrementsReplayed(a, front);
      OnlyAllowed(a, es, IsIncrement);
      hide Calls, Among, Quiet, Pending;
      var b := Replay(a, front).value;
      if e.Effect? {
        assert es[|es| - 1].op.Increment?;
        WrapSum(a.cell + Made(front), e.op.delta);
        PendingUpdate(b.threads, e.t, Effected(e.op, e.result));
      } else if e.Call? {
        PendingUpdate(b.threads, e.t, Called(e.op));
      } else {
        PendingUpdate(b.threads, e.t, Waiting);
      }
    }
  }

  /** No increment is lost: when every call has returned, the cell has moved by the sum of all. */
  lemma IncrementsAddUp(n: nat, cell: Word, ms: seq<Move>)
    requires Calls(Run(Initial(n, cell), ms).events, IsIncrement)
    requires forall th :: th in Run(Initial(n, cell), ms).threads ==> th.pc.Idle?
    ensures var s := Run(Initial(n, cell), ms); s.cell == Wrap(cell + Asked(s.events))
  {
    hide Run, Replay, Wrap, Made, Asked, Calls;
    var s := Run(Initial(n, cell), ms);
    Linearizable(n, cell, ms);
    IncrementsReplayed(View(Initial(n, cell)), s.events);
    TotalZero(Deltas(View(s).threads));
  }

  /** How many increments have their effect among these events. */
  function Increments(es: seq<Event>): (n: nat)
    ensures n <= |es|
  {
    if es == [] then 0
    else
      var e := es[|es| - 1];
      Increments(es[..|es| - 1]) + if e.Effect? && e.op.Increment? then 1 else 0
  }

  lemma {:induction false} MadeBetween(es: seq<Event>, i: nat, j: nat)
    requires i <= j <= |es|
    requires forall k :: 0 <= k < |es| && es[k].Effect? ==> es[k].op == Increment(1)
    ensures Made(es[..j]) == Made(es[..i]) + Increments(es[i..j])
    ensures i < j && es[j - 1].Effect? ==> Increments(es[i..j]) > 0
  {
    if i < j {
      MadeBetween(es, i, j - 1);
      assert es[..j][..j - 1] == es[..j - 1] && es[i..j][..j - i - 1] == es[i..j - 1];
    }
  }

  lemma TicketIs(a: Atomic, es: seq<Event>, i: nat)
    requires Replay(a, es) != None && Quiet(a) && Calls(es, IsTicket)
    requires i < |es| && es[i].Effect?
    ensures es[i].result == Wrap(a.cell + Made(es[..i + 1]))
  {
    hide Wrap, Among, Quiet, Made, Asked, Pending, Replay;
    LastAccepted(a, es, i);
    ReplayPrefix(a, es, i + 1);
    OnlyAllowed(a, es, IsTicket);
    assert es[i].op == Increment(1);
    var front := es[..i + 1];
    assert front[..i] == es[..i] && front[i] == es[i];
    ReplayLast(a, front);
    assert Calls(front, IsIncrement);
    IncrementsReplayed(a, front);
  }

  lemma WrapEqual(x: nat, n: nat)
    ensures Wrap(x + n) == Wrap(x) <==> n % WORD == 0
  {
  }

  lemma TicketsReplayed(a: Atomic, es: seq<Event>, i: nat, j: nat)
    requires Replay(a, es) != None && Quiet(a) && Calls(es, IsTicket)
    requires i < j < |es| && es[i].Effect? && es[j].Effect?
    ensures es[i].result == es[j].result <==> Increments(es[i + 1..j + 1]) % WORD == 0
    ensures 0 < Increments(es[i + 1..j + 1])
  {
    hide Wrap, Replay, Made, Quiet, Calls, Increments;
    TicketIs(a, es, i);
    TicketIs(a, es, j);
    OnlyAllowed(a, es, IsTicket);
    MadeBetween(es, i + 1, j + 1);
    WrapEqual(a.cell + Made(es[..i + 1]), Increments(es[i + 1..j + 1]));
  }

  /** Threads that take tickets by adding one: two numbers are the same exactly when the increments
      after the first, up to the second, are a multiple of 2^32.  There is at least one. */
  lemma TicketsDiffer(n: nat, cell: Word, ms: seq<Move>, i: nat, j: nat)
    requires var es := Run(Initial(n, cell), ms).events;
             Calls(es, IsTicket) && i < j < |es| && es[i].Effect? && es[j].Effect?
    ensures var es := Run(Initial(n, cell), ms).events;
            && (es[i].result == es[j].result <==> Increments(es[i + 1..j + 1]) % WORD == 0)
            && 0 < Increments(es[i + 1..j + 1])
  {
    Linearizable(n, cell, ms);
    TicketsReplayed(View(Initial(n, cell)), Run(Initial(n, cell), ms).events, i, j);
  }

  /** The values stored by exchanges, and the values exchanges got back. */
  function Put(es: seq<Event>): multiset<Word> {
    if es == [] then multiset{}
    else
      var e := es[|es| - 1];
      var m := Put(es[..|es| - 1]);
      if e.Effect? && e.op.Exchange? then m + multiset{e.op.put} else m
  }

  function Got(es: seq<Event>): multiset<Word> {
    if es == [] then multiset{}
    else
      var e := es[|es| - 1];
      var m := Got(es[..|es| - 1]);
      if e.Effect? && e.op.Exchange? then m + multiset{e.result} else m
  }

  /** Every value handed over by an exchange is got back exactly once, or is in the cell. */
  lemma ExchangesConserve(n: nat, cell: Word, ms: seq<Move>)
    requires Calls(Run(Initial(n, cell), ms).events, IsSwapOrLoad)
    ensures var s := Run(Initial(n, cell), ms);
            multiset{cell} + Put(s.events) == Got(s.events) + multiset{s.cell}
  {
    Linearizable(n, cell, ms);
    ExchangesReplayed(View(Initial(n, cell)), Run(Initial(n, cell), ms).events);
  }

  lemma {:induction false} ExchangesReplayed(a: Atomic, es: seq<Event>)
    requires Replay(a, es) != None && Quiet(a) && Calls(es, IsSwapOrLoad)
    ensures multiset{a.cell} + Put(es) == Got(es) + multiset{Replay(a, es).value.cell}
  {
    if es != [] {
      var front, e := es[..|es| - 1], es[|es| - 1];
      ExchangesReplayed(a, front);
      OnlyAllowed(a, es, IsSwapOrLoad);
      hide Calls, Among, Quiet;
      if e.Effect? && e.op.Exchange? {
        assert Put(es) == Put(front) + multiset{e.op.put};
        assert Got(es) == Got(front) + multiset{e.result};
      } else {
        assert Put(es) == Put(front) && Got(es) == Got(front);
      }
    }
  }

  // ------------------------------------------------------------ what each operation does

  /** At its effect an operation returns, and leaves in the cell, what its name promises, given the
      value the cell held just before. */
  ghost predicate EffectIs(before: Word, after: Word, op: Op, result: Word) {
    match op
    case Load => result == before && after == before
    case Store(put) => after == put
    case Exchange(put) => result == before && after == put
    case CompareAndSwap(when, put) => result == before && (if before == when then after == put else after == before)
    case Increment(delta) => result == after && (after == before + delta || after == before + delta - WORD)
  }

  /** In every run, each step either has one operation's effect, or leaves the cell alone. */
  lemma StepEffect(n: nat, cell: Word, ms: seq<Move>, m: Move)
    ensures var s := Run(Initial(n, cell), ms);
            var s' := Step(s, m);
            || (s'.events == s.events && s'.cell == s.cell)
            || (exists e :: s'.events == s.events + [e] && e.t == m.t
                            && match e
                               case Call(t, op) => m == Start(t, op) && s'.cell == s.cell
                               case Effect(t, op, result) => EffectIs(s.cell, s'.cell, op, result)
                               case Return(t, result) => s'.cell == s.cell)
  {
    hide Run;
    Linearizable(n, cell, ms);
    var s := Run(Initial(n, cell), ms);
    var s' := Step(s, m);
    if s'.events != s.events {
      assert PcOk(s.threads[m.t].pc);
      var e := s'.events[|s.events|];
      assert s'.events == s.events + [e];
    }
  }

  predicate IsLockOp(op: Op) { op == CompareAndSwap(0, 1) || op == Store(0) }

  /** The event is a swap of 0 for 1 that found 0. */
  predicate Takes(e: Event) { e.Effect? && e.op == CompareAndSwap(0, 1) && e.result == 0 }

  predicate Frees(e: Event) { e.Effect? && e.op == Store(0) }

  /** A store of 0 has had its effect after the event at i. */
  ghost predicate FreedAfter(es: seq<Event>, i: int) {
    exists k :: 0 <= i < k < |es| && Frees(es[k])
  }

  /** A swap has found 0 and no store has had its effect since. */
  ghost predicate Taken(es: seq<Event>) { exists i :: 0 <= i < |es| && Takes(es[i]) && !FreedAfter(es, i) }

  lemma TakenNext(es: seq<Event>, e: Event)
    ensures Taken(es + [e]) <==> Takes(e) || (Taken(es) && !Frees(e))
  {
    var all := es + [e];
    forall i | 0 <= i < |es| ensures FreedAfter(all, i) <==> FreedAfter(es, i) || Frees(e) {
      assert all[|es|] == e && forall k :: 0 <= k < |es| ==> all[k] == es[k];
    }
    if Takes(e) { assert Takes(all[|es|]) && !FreedAfter(all, |es|); }
    if Taken(es) && !Frees(e) {
      var i :| 0 <= i < |es| && Takes(es[i]) && !FreedAfter(es, i);
      assert Takes(all[i]);
    }
  }

  /** Among swaps of 0 for 1 and stores of 0, the cell is 1 exactly while the lock is taken. */
  lemma {:induction false} LockReplayed(a: Atomic, es: seq<Event>)
    requires Replay(a, es) != None && Quiet(a) && Calls(es, IsLockOp) && a.cell == 0
    ensures Replay(a, es).value.cell == if Taken(es) then 1 else 0
  {
    if es != [] {
      var front, e := es[..|es| - 1], es[|es| - 1];
      LockReplayed(a, front);
      OnlyAllowed(a, es, IsLockOp);
      assert es == front + [e];
      TakenNext(front, e);
      assert e.Effect? ==> IsLockOp(es[|es| - 1].op);
      hide Taken, Calls, Among, Quiet;
    }
  }

  /** A swap of 0 for 1 succeeds once: of two that return 0, a store of 0 takes effect between. */
  lemma SwapsApart(n: nat, ms: seq<Move>, i: nat, j: nat)
    requires var es := Run(Initial(n, 0), ms).events;
             Calls(es, IsLockOp) && i < j < |es| && Takes(es[i]) && Takes(es[j])
    ensures var es := Run(Initial(n, 0), ms).events;
            exists k :: i < k < j && Frees(es[k])
  {
    hide Run, Replay;
    Linearizable(n, 0, ms);
    var a, es := View(Initial(n, 0)), Run(Initial(n, 0), ms).events;
    LastAccepted(a, es, j);
    LockReplayed(a, es[..j]);
    assert Takes(es[..j][i]);
    var k :| 0 <= i < k < j && Frees(es[..j][k]);
    assert Frees(es[k]);
  }

  // ------------------------------------------------------------ a lock

  /** Thread t has taken the lock and has not freed it since. */
  ghost predicate Owns(es: seq<Event>, t: nat) {
    exists i :: 0 <= i < |es| && Takes(es[i]) && es[i].t == t
                && forall k :: i < k < |es| && es[k].t == t ==> !Frees(es[k])
  }

  /** Every thread stores 0 only when it owns the lock. */
  ghost predicate Disciplined(es: seq<Event>) {
    forall i :: 0 <= i < |es| && es[i].Call? && es[i].op == Store(0) ==> Owns(es[..i], es[i].t)
  }

  lemma OwnsNext(es: seq<Event>, e: Event, t: nat)
    ensures Owns(es + [e], t) <==> (e.t == t && Takes(e)) || (Owns(es, t) && !(e.t == t && Frees(e)))
  {
    var all := es + [e];
    if Owns(es, t) {
      var i :| 0 <= i < |es| && Takes(es[i]) && es[i].t == t
               && forall k :: i < k < |es| && es[k].t == t ==> !Frees(es[k]);
      assert Takes(all[i]);
    }
    if e.t == t && Takes(e) { assert Takes(all[|es|]); }
    if Owns(all, t) && !(e.t == t && Takes(e)) {
      var i :| 0 <= i < |all| && Takes(all[i]) && all[i].t == t
               && forall k :: i < k < |all| && all[k].t == t ==> !Frees(all[k]);
      assert i < |es| && Takes(es[i]);
      assert forall k :: i < k < |es| ==> all[k] == es[k];
      assert all[|es|] == e;
    }
  }

  /** The cell says whether the lock is owned, by one thread; who is about to free it owns it. */
  ghost predicate LockOk(b: Atomic, es: seq<Event>) {
    && b.cell <= 1
    && (forall t :: Owns(es, t) ==> b.cell == 1)
    && (forall t, u :: Owns(es, t) && Owns(es, u) ==> t == u)
    && (forall t :: 0 <= t < |b.threads| && b.threads[t] == Called(Store(0)) ==> Owns(es, t))
  }

  lemma {:induction false} LockKept(a: Atomic, es: seq<Event>)
    requires Replay(a, es) != None && Quiet(a) && Calls(es, IsLockOp) && a.cell == 0 && Disciplined(es)
    ensures LockOk(Replay(a, es).value, es)
  {
    if es != [] {
      var front, e := es[..|es| - 1], es[|es| - 1];
      assert Disciplined(front) by {
        forall i | 0 <= i < |front| && front[i].Call? && front[i].op == Store(0) ensures Owns(front[..i], front[i].t) {
          assert front[..i] == es[..i];
        }
      }
      LockKept(a, front);
      OnlyAllowed(a, es, IsLockOp);
      assert es == front + [e];
      forall t: nat ensures Owns(es, t) <==> (e.t == t && Takes(e)) || (Owns(front, t) && !(e.t == t && Frees(e))) {
        OwnsNext(front, e, t);
      }
      assert e.Effect? ==> IsLockOp(es[|es| - 1].op);
      hide Owns, Disciplined, Calls, Among, Quiet;
    }
  }

  /** Mutual exclusion: when every thread takes the lock by swapping 0 for 1 and stores 0 only while
      it owns the lock, no two threads ever own it. */
  lemma OneOwner(n: nat, ms: seq<Move>, t: nat, u: nat)
    requires var es := Run(Initial(n, 0), ms).events;
             Calls(es, IsLockOp) && Disciplined(es) && Owns(es, t) && Owns(es, u)
    ensures t == u
  {
    hide Run, Owns, Disciplined;
    Linearizable(n, 0, ms);
    LockKept(View(Initial(n, 0)), Run(Initial(n, 0), ms).events);
  }

  // ------------------------------------------------------------ how often an exchange can fail

  /** One when the thread's next compare-exchange may fail without another write. */
  function Debt(cell: Word, pc: Pc): nat {
    match pc
    case Ready(op) => if op.CompareAndSwap? then 1 else 0
    case Try(_, expected, _) => if expected != cell then 1 else 0
    case _ => 0
  }

  function Debts(cell: Word, ths: seq<Thread>): (ws: seq<nat>)
    ensures |ws| == |ths| && forall i :: 0 <= i < |ws| ==> ws[i] == Debt(cell, ths[i].pc)
  {
    seq(|ths|, i requires 0 <= i < |ths| => Debt(cell, ths[i].pc))
  }

  function CompareCalls(es: seq<Event>): nat {
    if es == [] then 0
    else CompareCalls(es[..|es| - 1]) + if es[|es| - 1].Call? && es[|es| - 1].op.CompareAndSwap? then 1 else 0
  }

  lemma CompareCallsNext(es: seq<Event>, e: Event)
    ensures CompareCalls(es + [e]) == CompareCalls(es) + if e.Call? && e.op.CompareAndSwap? then 1 else 0
  {
    assert (es + [e])[..|es|] == es;
  }

  lemma {:induction false} TotalOthers(ws: seq<nat>, t: nat)
    requires t < |ws| && ws[t] == 0 && forall i :: 0 <= i < |ws| ==> ws[i] <= 1
    ensures Total(ws) <= |ws| - 1
  {
    var vs: seq<nat> := seq(|ws|, i => if i == t then 1 else 0);
    TotalPair(ws, vs);
    var zs: seq<nat> := seq(|ws|, i => 0);
    TotalZero(zs);
    assert vs == zs[t := 1];
    TotalUpdate(zs, t, 1);
  }

  /** A step that does not write pays for its failure out of the thread's own debt. */
  lemma QuietStep(s: State, m: Move)
    requires Ok(s) && Step(s, m).writes == s.writes
    ensures var s' := Step(s, m);
            s'.cell == s.cell
            && s'.failures + Total(Debts(s'.cell, s'.threads)) + CompareCalls(s.events)
               <= s.failures + Total(Debts(s.cell, s.threads)) + CompareCalls(s'.events)
  {
    hide Total, CompareCalls, Debts;
    var s' := Step(s, m);
    if m.t < |s.threads| {
      var t := m.t;
      assert PcOk(s.threads[t].pc);
      TotalUpdate(Debts(s.cell, s.threads), t, Debt(s.cell, s'.threads[t].pc));
      assert Debts(s.cell, s'.threads) == Debts(s.cell, s.threads)[t := Debt(s.cell, s'.threads[t].pc)];
      if s'.events != s.events {
        CompareCallsNext(s.events, s'.events[|s.events|]);
        assert s'.events == s.events + [s'.events[|s.events|]];
      }
    }
  }

  lemma WritingStep(s: State, m: Move)
    requires Ok(s) && Step(s, m).writes != s.writes
    ensures var s' := Step(s, m);
            && m.t < |s.threads| && |s'.threads| == |s.threads|
            && s'.writes == s.writes + 1 && s'.failures == s.failures
            && s'.threads[m.t].pc.Done? && !s.threads[m.t].pc.Idle? && !s.threads[m.t].pc.Done?
            && s'.threads == s.threads[m.t := s.threads[m.t].(pc := s'.threads[m.t].pc)]
            && CompareCalls(s'.events) == CompareCalls(s.events)
  {
    var s' := Step(s, m);
    CompareCallsNext(s.events, s'.events[|s.events|]);
    assert s'.events == s.events + [s'.events[|s.events|]];
  }

  /** What the failures so far are paid with. */
  ghost predicate PaidFor(s: State) {
    s.failures + Total(Debts(s.cell, s.threads)) <= s.writes * (|s.threads| - 1) + CompareCalls(s.events)
  }

  lemma MultiplyNext(w: nat, k: int)
    ensures (w + 1) * k == w * k + k
  {
  }

  lemma PaidStep(s: State, m: Move)
    requires Ok(s) && PaidFor(s)
    ensures PaidFor(Step(s, m))
  {
    hide Step;
    var s' := Step(s, m);
    StepRefines(s, m);
    if s'.writes == s.writes {
      QuietStep(s, m);
    } else {
      WritingStep(s, m);
      TotalOthers(Debts(s'.cell, s'.threads), m.t);
      MultiplyNext(s.writes, |s.threads| - 1);
    }
  }

  /** In every run each write makes at most one exchange of each other thread fail, and each
      compare-and-swap may fail once of itself. */
  lemma {:induction false} FailuresArePaidFor(n: nat, cell: Word, ms: seq<Move>)
    ensures var s := Run(Initial(n, cell), ms);
            s.failures <= s.writes * (n - 1) + CompareCalls(s.events)
  {
    AlwaysPaidFor(n, cell, ms);
    Linearizable(n, cell, ms);
  }

  lemma {:induction false} AlwaysPaidFor(n: nat, cell: Word, ms: seq<Move>)
    ensures PaidFor(Run(Initial(n, cell), ms))
  {
    if ms == [] {
      TotalZero(Debts(cell, Initial(n, cell).threads));
    } else {
      var before := ms[..|ms| - 1];
      AlwaysPaidFor(n, cell, before);
      Linearizable(n, cell, before);
      PaidStep(Run(Initial(n, cell), before), ms[|ms| - 1]);
    }
  }

  // ------------------------------------------------------------ one operation a thread

  predicate IsNotCompare(op: Op) { !op.CompareAndSwap? }

  lemma {:induction false} NoCompareCalls(es: seq<Event>)
    requires Calls(es, IsNotCompare)
    ensures CompareCalls(es) == 0
  {
    if es != [] { NoCompareCalls(es[..|es| - 1]); }
  }

  /** The threads that have had their effect and begun nothing since. */
  function Ended(th: Thread): nat { if th.started >= 1 && (th.pc.Idle? || th.pc.Done?) then 1 else 0 }

  function Ends(ths: seq<Thread>): (ws: seq<nat>)
    ensures |ws| == |ths| && forall i :: 0 <= i < |ws| ==> ws[i] == Ended(ths[i])
  {
    seq(|ths|, i requires 0 <= i < |ths| => Ended(ths[i]))
  }

  /** (n - 1) + (n - 2) + ... + (n - w): each write leaves one thread fewer to disturb. */
  function Budget(n: nat, w: nat): int { if w == 0 then 0 else Budget(n, w - 1) + n - w }

  lemma {:induction false} BudgetIs(n: nat, w: nat)
    ensures 2 * Budget(n, w) == 2 * n * w - w * (w + 1)
  {
    if w > 0 {
      BudgetIs(n, w - 1);
      assert 2 * n * w == 2 * n * (w - 1) + 2 * n;
      assert w * (w + 1) == (w - 1) * w + 2 * w;
    }
  }

  lemma BudgetMost(n: nat, w: nat)
    requires w <= n
    ensures 2 * Budget(n, w) <= n * (n - 1)
  {
    BudgetIs(n, w);
    var d := n - w;
    if d > 0 { assert d * (d - 1) >= 0; }
    assert n * (n - 1) - (2 * n * w - w * (w + 1)) == d * (d - 1);
  }

  lemma BudgetFull(n: nat)
    ensures 2 * Budget(n, n) == n * (n - 1)
  {
    BudgetIs(n, n);
  }

  ghost predicate StartedOnce(s: State) { forall t :: 0 <= t < |s.threads| ==> s.threads[t].started <= 1 }

  ghost predicate BusyStarted(s: State) {
    forall t :: 0 <= t < |s.threads| && !s.threads[t].pc.Idle? ==> s.threads[t].started >= 1
  }

  ghost predicate WithinBudget(s: State) {
    && s.writes <= Total(Ends(s.threads))
    && s.failures + Total(Debts(s.cell, s.threads)) <= Budget(|s.threads|, s.writes)
  }

  lemma StepKeepsBusy(s: State, m: Move)
    requires BusyStarted(s)
    ensures var s' := Step(s, m);
            && BusyStarted(s')
            && (StartedOnce(s') ==> StartedOnce(s))
            && (forall f :: Calls(s'.events, f) ==> Calls(s.events, f))
  {
    var s' := Step(s, m);
    assert |s'.threads| == |s.threads| && s.events <= s'.events;
    assert forall t :: 0 <= t < |s.threads| ==> s.threads[t].started <= s'.threads[t].started;
  }

  lemma EndsGrow(s: State, m: Move)
    requires BusyStarted(s) && StartedOnce(Step(s, m))
    ensures var s' := Step(s, m);
            Total(Ends(s'.threads)) >= Total(Ends(s.threads)) + s'.writes - s.writes
  {
    var s' := Step(s, m);
    if m.t < |s.threads| {
      assert s'.threads == s.threads[m.t := s'.threads[m.t]];
      TotalUpdate(Ends(s.threads), m.t, Ended(s'.threads[m.t]));
      assert Ends(s'.threads) == Ends(s.threads)[m.t := Ended(s'.threads[m.t])];
      assert s'.threads[m.t].started <= 1;
    }
  }

  lemma BudgetStep(s: State, m: Move)
    requires Ok(s) && BusyStarted(s) && WithinBudget(s)
    requires StartedOnce(Step(s, m)) && Calls(Step(s, m).events, IsNotCompare)
    ensures WithinBudget(Step(s, m))
  {
    hide Step, Ok, PcOk, Calls, CompareCalls, Total, Debts, Ends, BusyStarted, StartedOnce;
    var s' := Step(s, m);
    StepRefines(s, m);
    StepKeepsBusy(s, m);
    EndsGrow(s, m);
    if s'.writes == s.writes {
      QuietStep(s, m);
      NoCompareCalls(s.events);
      NoCompareCalls(s'.events);
    } else {
      WritingStep(s, m);
      TotalPair(Debts(s'.cell, s'.threads), Ends(s'.threads));
    }
  }

  lemma {:induction false} AlwaysWithinBudget(n: nat, cell: Word, ms: seq<Move>)
    ensures var s := Run(Initial(n, cell), ms);
            BusyStarted(s) && (StartedOnce(s) && Calls(s.events, IsNotCompare) ==> WithinBudget(s))
  {
    if ms == [] {
      TotalZero(Debts(cell, Initial(n, cell).threads));
    } else {
      var before := ms[..|ms| - 1];
      AlwaysWithinBudget(n, cell, before);
      Linearizable(n, cell, before);
      var s, m := Run(Initial(n, cell), before), ms[|ms| - 1];
      StepKeepsBusy(s, m);
      if StartedOnce(Step(s, m)) && Calls(Step(s, m).events, IsNotCompare) { BudgetStep(s, m); }
    }
  }

  /** With one operation a thread, none a compare-and-swap, at most n(n-1)/2 exchanges fail. */
  lemma FailuresAtMost(n: nat, cell: Word, ms: seq<Move>)
    requires var s := Run(Initial(n, cell), ms); StartedOnce(s) && Calls(s.events, IsNotCompare)
    ensures 2 * Run(Initial(n, cell), ms).failures <= n * (n - 1)
  {
    AlwaysWithinBudget(n, cell, ms);
    Linearizable(n, cell, ms);
    var s := Run(Initial(n, cell), ms);
    var zs: seq<nat> := seq(n, _ => 0);
    TotalZero(zs);
    TotalPair(Ends(s.threads), zs);
    BudgetMost(n, s.writes);
  }

  // ------------------------------------------------------------ the bound is reached

  lemma RunNext(s: State, ms: seq<Move>, m: Move)
    ensures Run(s, ms + [m]) == Step(Run(s, ms), m)
  {
    assert (ms + [m])[..|ms|] == ms;
  }

  predicate IsLate(th: Thread, cell: Word) { th.pc.Try? && th.pc.expected != cell && IsTrying(th, th.pc.expected) }

  predicate IsTrying(th: Thread, cell: Word) { th == Thread(Try(Increment(1), cell, Sum(cell, 1)), 1) }

  /** The first j threads have read the cell; the others have not begun. */
  ghost predicate Gathered(s: State, n: nat, j: nat) {
    && |s.threads| == n && s.failures == 0 && Calls(s.events, IsTicket)
    && (forall t :: 0 <= t < n ==> if t < j then IsTrying(s.threads[t], s.cell) else s.threads[t] == Thread(Idle, 0))
  }

  lemma GatherNone(n: nat, cell: Word)
    ensures Gathered(Run(Initial(n, cell), []), n, 0)
  {
  }

  lemma GatherStep(s: State, n: nat, j: nat)
    requires j < n && Gathered(s, n, j)
    ensures Gathered(Step(Step(s, Start(j, Increment(1))), Advance(j)), n, j + 1)
  {
    var s' := Step(s, Start(j, Increment(1)));
    assert s'.threads == s.threads[j := Thread(Ready(Increment(1)), 1)];
  }

  lemma {:induction false} Gather(n: nat, cell: Word, j: nat) returns (ms: seq<Move>)
    requires j <= n
    ensures Gathered(Run(Initial(n, cell), ms), n, j)
  {
    hide Step, Gathered;
    ms := [];
    GatherNone(n, cell);
    if j > 0 {
      ms := Gather(n, cell, j - 1);
      GatherStep(Run(Initial(n, cell), ms), n, j - 1);
      RunNext(Initial(n, cell), ms, Start(j - 1, Increment(1)));
      ms := ms + [Start(j - 1, Increment(1))];
      RunNext(Initial(n, cell), ms, Advance(j - 1));
      ms := ms + [Advance(j - 1)];
    }
  }

  /** The first k threads are done; of the rest those before j have read the cell as it is, and
      those from j on hold a value it no longer has. */
  ghost predicate Lined(s: State, n: nat, k: nat, j: nat) {
    && k <= n && j <= n
    && |s.threads| == n && s.failures == Budget(n, k) - (n - j) && Calls(s.events, IsTicket)
    && (forall t :: 0 <= t < k ==> s.threads[t].started == 1 && s.threads[t].pc.Done?)
    && (forall t :: k <= t < j ==> IsTrying(s.threads[t], s.cell))
    && (forall t :: j <= t < n ==> IsLate(s.threads[t], s.cell))
  }

  lemma GatheredIsLined(s: State, n: nat)
    requires Gathered(s, n, n)
    ensures Lined(s, n, 0, n)
  {
  }

  /** One thread succeeds and all the others are too late, again and again. */
  lemma {:induction false} LineUp(n: nat, cell: Word, k: nat, j: nat) returns (ms: seq<Move>)
    requires k <= j <= n && (k == 0 ==> j == n)
    ensures Lined(Run(Initial(n, cell), ms), n, k, j)
    decreases k, j
  {
    hide Step, Lined, Gathered;
    if k == 0 && j == n {
      ms := Gather(n, cell, n);
      GatheredIsLined(Run(Initial(n, cell), ms), n);
    } else if k < j {
      ms := LineUp(n, cell, k, j - 1);
      LateStep(Run(Initial(n, cell), ms), n, k, j - 1);
      RunNext(Initial(n, cell), ms, Advance(j - 1));
      ms := ms + [Advance(j - 1)];
      RunNext(Initial(n, cell), ms, Advance(j - 1));
      ms := ms + [Advance(j - 1)];
    } else {
      ms := LineUp(n, cell, k - 1, n);
      WinStep(Run(Initial(n, cell), ms), n, k - 1);
      RunNext(Initial(n, cell), ms, Advance(k - 1));
      ms := ms + [Advance(k - 1)];
    }
  }

  lemma LateStep(s: State, n: nat, k: nat, j: nat)
    requires k <= j < n && Lined(s, n, k, j)
    ensures Lined(Step(Step(s, Advance(j)), Advance(j)), n, k, j + 1)
  {
  }

  lemma WinStep(s: State, n: nat, k: nat)
    requires k < n && Lined(s, n, k, n)
    ensures Lined(Step(s, Advance(k)), n, k + 1, k + 1)
  {
    assert Sum(s.cell, 1) != s.cell;
  }

  /** Some run of n threads, each making one increment, does fail n(n-1)/2 times. */
  lemma FailuresReached(n: nat, cell: Word) returns (ms: seq<Move>)
    ensures var s := Run(Initial(n, cell), ms);
            StartedOnce(s) && Calls(s.events, IsIncrement) && 2 * s.failures == n * (n - 1)
  {
    ms := LineUp(n, cell, n, n);
    BudgetFull(n);
  }

  // ------------------------------------------------------------ a thread left alone

  function Alone(s: State, t: nat, k: nat): (r: State)
    ensures |r.threads| == |s.threads|
  {
    if k == 0 then s else Step(Alone(s, t, k - 1), Advance(t))
  }

  /** Undisturbed, an operation in any state of progress has its effect within three accesses. */
  lemma AloneFinishes(s: State, t: nat) returns (k: nat)
    requires Ok(s) && t < |s.threads| && !s.threads[t].pc.Idle?
    ensures k <= 3 && Alone(s, t, k).threads[t].pc.Done?
  {
    k := 0;
    assert PcOk(s.threads[t].pc);
    assert Alone(s, t, 0) == s;
    assert Alone(s, t, 1) == Step(s, Advance(t));
    if Alone(s, t, 1).threads[t].pc.Done? { k := 1; }
    else if Alone(s, t, 2).threads[t].pc.Done? { k := 2; }
    else if !s.threads[t].pc.Done? { k := 3; }
  }

  // ------------------------------------------------------------ the loops, seen from one thread

  /** The cell after a sequence of operations. */
  function After(cell: Word, ops: seq<Op>): Word {
    if ops == [] then cell else Apply(ops[|ops| - 1], After(cell, ops[..|ops| - 1])).0
  }

  function Flat(opss: seq<seq<Op>>): seq<Op> {
    if opss == [] then [] else Flat(opss[..|opss| - 1]) + opss[|opss| - 1]
  }

  lemma {:induction false} AfterBoth(cell: Word, xs: seq<Op>, ys: seq<Op>)
    ensures After(cell, xs + ys) == After(After(cell, xs), ys)
  {
    if ys == [] {
      assert xs + ys == xs;
    } else {
      AfterBoth(cell, xs, ys[..|ys| - 1]);
      assert (xs + ys)[..|xs + ys| - 1] == xs + ys[..|ys| - 1];
    }
  }

  /** What the others have done when they have come from `before` to `now`. */
  function Passed(before: seq<seq<Op>>, now: seq<seq<Op>>): seq<Op> {
    if |now| <= |before| then Flat(before[..|before| - |now|]) else []
  }

  ghost predicate IsRest(now: seq<seq<Op>>, before: seq<seq<Op>>) {
    |now| <= |before| && now == before[|before| - |now|..]
  }

  lemma PassedMore(cell: Word, first: seq<seq<Op>>, before: seq<seq<Op>>, now: seq<seq<Op>>)
    requires IsRest(before, first)
    requires now == if before == [] then [] else before[1..]
    ensures IsRest(now, first)
    ensures After(cell, Passed(first, now))
            == if before == [] then After(cell, Passed(first, before))
               else After(After(cell, Passed(first, before)), before[0])
  {
    if before != [] {
      var k := |first| - |before|;
      assert first[..k + 1][..k] == first[..k] && first[..k + 1][k] == before[0];
      AfterBoth(cell, Flat(first[..k]), before[0]);
    }
  }

  /** A shared cell; `others` is what the other threads do to it before each access of this one,
      until they stop. */
  class SharedCell {
    var value: Word
    var others: seq<seq<Op>>

    constructor (value: Word, others: seq<seq<Op>>)
      ensures this.value == value && this.others == others
    {
      this.value := value;
      this.others := others;
    }

    /** The operation happens at once, after some of what the others do. */
    ghost predicate TookEffect(was: Word, first: seq<seq<Op>>, op: Op, result: Word)
      reads this
    {
      IsRest(others, first) && (value, result) == Apply(op, After(was, Passed(first, others)))
    }

    /** The others have run for a while and this thread has changed nothing. */
    ghost predicate OnlyOthers(was: Word, first: seq<seq<Op>>)
      reads this
    {
      IsRest(others, first) && value == After(was, Passed(first, others))
    }

    method Interfere(ghost was: Word, ghost first: seq<seq<Op>>)
      requires OnlyOthers(was, first)
      modifies this
      ensures OnlyOthers(was, first)
      ensures others == if old(others) == [] then [] else old(others)[1..]
      ensures old(others) == [] ==> value == old(value)
    {
      hide After, Passed, IsRest;
      PassedMore(was, first, others, if others == [] then [] else others[1..]);
      if others != [] {
        Perform(others[0]);
        others := others[1..];
      }
    }

    method Perform(ops: seq<Op>)
      modifies this`value
      ensures value == After(old(value), ops)
    {
      var i := 0;
      while i < |ops|
        invariant 0 <= i <= |ops|
        invariant value == After(old(value), ops[..i])
      {
        assert ops[..i + 1][..i] == ops[..i];
        value := Apply(ops[i], value).0;
        i := i + 1;
      }
      assert ops[..i] == ops;
    }

    method Read(ghost was: Word, ghost first: seq<seq<Op>>) returns (v: Word)
      requires OnlyOthers(was, first)
      modifies this
      ensures OnlyOthers(was, first) && v == value
      ensures others == if old(others) == [] then [] else old(others)[1..]
      ensures old(others) == [] ==> value == old(value)
    {
      Interfere(was, first);
      v := value;
    }

    method KernelCompareExchange(expected: Word, desired: Word, ghost was: Word, ghost first: seq<seq<Op>>)
      returns (failed: bool)
      requires OnlyOthers(was, first)
      modifies this
      ensures others == if old(others) == [] then [] else old(others)[1..]
      ensures IsRest(others, first)
      ensures failed ==> OnlyOthers(was, first) && value != expected
      ensures !failed ==> After(was, Passed(first, others)) == expected && value == desired
      ensures failed && old(others) == [] ==> value == old(value)
      ensures old(others) == [] ==> failed == (old(value) != expected)
    {
      Interfere(was, first);
      failed := value != expected;
      if !failed { value := desired; }
    }

    method NoBarrierCompareAndSwap(when: Word, put: Word) returns (prev: Word)
      modifies this
      ensures TookEffect(old(value), old(others), CompareAndSwap(when, put), prev)
      ensures prev == After(old(value), Passed(old(others), others)) && value == if prev == when then put else prev
    {
      ghost var was, first := value, others;
      Untouched(was, first);
      prev := Read(was, first);
      var again := true;
      while again
        invariant if again then OnlyOthers(was, first)
                  else TookEffect(was, first, CompareAndSwap(when, put), prev)
        decreases |others|, again
      {
        var failed := KernelCompareExchange(when, put, was, first);
        if !failed { return when; }
        prev := Read(was, first);
        again := prev == when;
      }
    }

    method NoBarrierAtomicExchange(put: Word) returns (oldValue: Word)
      modifies this
      ensures TookEffect(old(value), old(others), Exchange(put), oldValue)
      ensures oldValue == After(old(value), Passed(old(others), others)) && value == put
    {
      ghost var was, first := value, others;
      Untouched(was, first);
      var again := true;
      oldValue := 0;
      while again
        invariant if again then OnlyOthers(was, first) else TookEffect(was, first, Exchange(put), oldValue)
        decreases |others|, again
      {
        oldValue := Read(was, first);
        again := KernelCompareExchange(oldValue, put, was, first);
      }
    }

    method BarrierAtomicIncrement(delta: Word) returns (result: Word)
      modifies this
      ensures TookEffect(old(value), old(others), Increment(delta), result)
      ensures result == value == Wrap(After(old(value), Passed(old(others), others)) + delta)
    {
      hide Wrap, After, Passed, IsRest;
      ghost var was, first := value, others;
      Untouched(was, first);
      while true
        invariant OnlyOthers(was, first)
        decreases |others|
      {
        var oldValue := Read(was, first);
        var newValue := Sum(oldValue, delta);
        var failed := KernelCompareExchange(oldValue, newValue, was, first);
        if !failed { return newValue; }
      }
    }

    lemma Untouched(was: Word, first: seq<seq<Op>>)
      requires was == value && first == others
      ensures OnlyOthers(was, first)
    {
      assert first[..0] == [];
    }
  }
}
