/** The pausable clock of a game: started, paused, resumed, extended and stopped by commands, and
    watched by a periodic tick. Times are milliseconds kept in 32 bits. */
module GameClock {
  import opened Milliseconds

  datatype Clock = Clock(running: bool, paused: bool, over: bool, startTime: nat, endTime: nat, pauseTime: nat,
                         timeMode: bool, limitS: nat)

  // Commands and ticks, with the time at which they happen.
  datatype Event =
    | Start(at: nat) | Stop | Pause(at: nat) | Resume(at: nat) | Extend(minutes: int) | Tick(at: nat) | Reset

  // The runtime state is cleared; the configuration stays.
  function Cleared(c: Clock): Clock
  {
    Clock(false, false, false, 0, 0, 0, c.timeMode, c.limitS)
  }

  function Step(c: Clock, e: Event): Clock
  {
    match e
    case Start(at) =>
      Cleared(c).(running := true, startTime := Ms(at),
                  endTime := if c.timeMode && c.limitS > 0 then Ms(Ms(at) + c.limitS * 1000) else 0)
    case Stop => c.(running := false, paused := false, over := true)
    case Pause(at) => if c.running && !c.paused then c.(paused := true, pauseTime := Ms(at)) else c
    case Resume(at) =>
      if c.running && c.paused then
        c.(paused := false, pauseTime := 0,
           endTime := if c.timeMode && c.endTime > 0 then Ms(c.endTime + Ms(Ms(at) - c.pauseTime)) else c.endTime)
      else c
    case Extend(minutes) =>
      if c.running && c.timeMode then
        c.(endTime := Ms(c.endTime + Ms(minutes * 60000)), limitS := (c.limitS + minutes * 60) % 0x1_0000)
      else c
    case Tick(at) =>
      if c.running && !c.over && !c.paused && c.timeMode && c.endTime > 0 && Ms(at) >= c.endTime then
        c.(over := true, running := false)
      else c
    case Reset => Cleared(c)
  }

  // ---- As the source keeps it ----

  class Game {
    var running: bool
    var paused: bool
    var over: bool
    var startTime: nat
    var endTime: nat
    var pauseTime: nat
    var timeMode: bool
    var limitS: nat

    function State(): Clock
      reads this
    {
      Clock(running, paused, over, startTime, endTime, pauseTime, timeMode, limitS)
    }

    constructor (timeMode: bool, limitS: nat)
      ensures State() == Clock(false, false, false, 0, 0, 0, timeMode, limitS)
    {
      running, paused, over := false, false, false;
      startTime, endTime, pauseTime := 0, 0, 0;
      this.timeMode, this.limitS := timeMode, limitS;
    }

    method ResetRuntime()
      modifies this
      ensures State() == Step(old(State()), Reset)
    {
      running, paused, over := false, false, false;
      startTime, endTime, pauseTime := 0, 0, 0;
    }

    method StartGame(now: nat)
      modifies this
      ensures State() == Step(old(State()), Start(now)).(paused := old(paused), pauseTime := old(pauseTime))
    {
      var nowMs := Ms(now);
      running := true;
      over := false;
      startTime := nowMs;
      if timeMode && limitS > 0 {
        endTime := Ms(nowMs + limitS * 1000);
      } else {
        endTime := 0;
      }
    }

    // The start command.
    method StartCommand(now: nat)
      modifies this
      ensures State() == Step(old(State()), Start(now))
    {
      ResetRuntime();
      StartGame(now);
    }

    method StopGame()
      modifies this
      ensures State() == Step(old(State()), Stop)
    {
      running := false;
      paused := false;
      over := true;
    }

    method PauseGame(now: nat)
      modifies this
      ensures State() == Step(old(State()), Pause(now))
    {
      if running && !paused {
        paused := true;
        pauseTime := Ms(now);
      }
    }

    method ResumeGame(now: nat)
      modifies this
      ensures State() == Step(old(State()), Resume(now))
    {
      if running && paused {
        var pauseDuration := Ms(Ms(now) - pauseTime);
        if timeMode && endTime > 0 {
          endTime := Ms(endTime + pauseDuration);
        }
        paused := false;
        pauseTime := 0;
      }
    }

    method ExtendTime(minutes: int)
      modifies this
      ensures State() == Step(old(State()), Extend(minutes))
    {
      if running && timeMode {
        var additional := Ms(minutes * 60 * 1000);
        endTime := Ms(endTime + additional);
        limitS := (limitS + minutes * 60) % 0x1_0000;
      }
    }

    method GameTick(now: nat)
      modifies this
      ensures State() == Step(old(State()), Tick(now))
    {
      if !running || over || paused {
        return;
      }
      var nowMs := Ms(now);
      if timeMode {
        if endTime > 0 && nowMs >= endTime {
          over := true;
          running := false;
        }
      }
    }
  }

  // ---- Runs ----

  function Run(c: Clock, events: seq<Event>): Clock
    decreases |events|
  {
    if events == [] then c else Run(Step(c, events[0]), events[1..])
  }

  predicate Consistent(c: Clock)
  {
    (c.paused ==> c.running) && (c.over ==> !c.running)
  }

  /** Whatever the commands and times: a paused game is running, one that is over is not. */
  lemma {:induction false} AlwaysConsistent(c: Clock, events: seq<Event>)
    requires Consistent(c)
    ensures Consistent(Run(c, events))
    decreases |events|
  {
    if events != [] {
      AlwaysConsistent(Step(c, events[0]), events[1..]);
    }
  }

  /** A game that was stopped is over, whatever commands and ticks follow, until it is started again
      or reset: nothing of it changes any more. */
  lemma {:induction false} StoppedStaysOver(c: Clock, events: seq<Event>)
    requires forall i :: 0 <= i < |events| ==> !events[i].Start? && !events[i].Reset?
    ensures var end := Run(Step(c, Stop), events);
      && end.over && !end.running && !end.paused
      && end == c.(running := end.running, paused := end.paused, over := end.over)
    decreases |events|
  {
    if events != [] {
      var s := Step(c, Stop);
      assert Step(s, events[0]) == s == Step(s, Stop);
      StoppedStaysOver(s, events[1..]);
    }
  }

  predicate NoNewGame(events: seq<Event>)
  {
    forall i :: 0 <= i < |events| ==> !events[i].Start? && !events[i].Reset?
  }

  // Nothing but a start or a reset touches the moment the game began.
  lemma {:induction false} StartTimeKept(c: Clock, events: seq<Event>)
    requires NoNewGame(events)
    ensures Run(c, events).startTime == c.startTime && Run(c, events).timeMode == c.timeMode
    decreases |events|
  {
    if events != [] {
      StartTimeKept(Step(c, events[0]), events[1..]);
    }
  }

  // The minutes added while the game is on, by extensions of a game in time mode.
  function Extensions(c: Clock, events: seq<Event>): int
    decreases |events|
  {
    if events == [] then 0
    else (if events[0].Extend? && c.running && c.timeMode then events[0].minutes else 0)
         + Extensions(Step(c, events[0]), events[1..])
  }

  /** Extensions of a game stay for the next: its limit is what it was plus all minutes added since,
      in 16 bits. */
  lemma {:induction false} LimitGrows(c: Clock, events: seq<Event>)
    requires c.limitS < 0x1_0000
    ensures Run(c, events).limitS == (c.limitS + 60 * Extensions(c, events)) % 0x1_0000
    decreases |events|
  {
    if events != [] {
      var d := Step(c, events[0]);
      LimitGrows(d, events[1..]);
      if events[0].Extend? && c.running && c.timeMode {
        LimitWraps(c.limitS + events[0].minutes * 60, 60 * Extensions(d, events[1..]));
      }
    }
  }

  lemma LimitWraps(x: int, y: int)
    ensures (x % 0x1_0000 + y) % 0x1_0000 == (x + y) % 0x1_0000
  {
  }

  // A reset forgets the game: it is neither on nor over, until it is started or stopped.
  lemma {:induction false} ResetStaysIdle(c: Clock, events: seq<Event>)
    requires forall i :: 0 <= i < |events| ==> !events[i].Start? && !events[i].Stop?
    ensures Run(Step(c, Reset), events) == Clock(false, false, false, 0, 0, 0, c.timeMode, c.limitS)
    decreases |events|
  {
    if events != [] {
      var s := Step(c, Reset);
      assert Step(s, events[0]) == s == Step(s, Reset);
      ResetStaysIdle(s, events[1..]);
    }
  }

  // ---- Play time ----

  // Independent account of a game: time played so far, the moment up to which it is counted,
  // whether the game is going on, is paused, and how long it is to last.
  datatype Account = Account(played: nat, upTo: nat, going: bool, paused: bool, budget: nat)

  // The account at a later moment.
  function At(a: Account, t: nat): Account
    requires t >= a.upTo
  {
    Account(if a.going && !a.paused then a.played + (t - a.upTo) else a.played, t, a.going, a.paused, a.budget)
  }

  // Commands while a game goes on, by when they happen.
  predicate InGame(e: Event)
  {
    e.Pause? || e.Resume? || e.Tick? || (e.Extend? && e.minutes >= 0)
  }

  function Moment(e: Event, t: nat): nat
  {
    match e
    case Pause(at) => at
    case Resume(at) => at
    case Tick(at) => at
    case _ => t
  }

  // A tick ends the game when the time played has reached the budget.
  function Counted(a: Account, e: Event): Account
    requires InGame(e) && Moment(e, a.upTo) >= a.upTo
  {
    var b := At(a, Moment(e, a.upTo));
    match e
    case Pause(_) => if b.going then b.(paused := true) else b
    case Resume(_) => if b.going then b.(paused := false) else b
    case Extend(minutes) => if b.going then b.(budget := b.budget + minutes * 60000) else b
    case Tick(_) => if b.going && !b.paused && b.played >= b.budget then b.(going := false) else b
    case _ => b
  }

  predicate InOrder(t: nat, events: seq<Event>)
    decreases |events|
  {
    events == [] ||
    (InGame(events[0]) && Moment(events[0], t) >= t && InOrder(Moment(events[0], t), events[1..]))
  }

  function CountedAll(a: Account, events: seq<Event>): Account
    requires InOrder(a.upTo, events)
    decreases |events|
  {
    if events == [] then a else CountedAll(Counted(a, events[0]), events[1..])
  }

  // Commands and ticks all come before the 32-bit counter wraps.
  predicate BeforeWrap(t: nat, events: seq<Event>)
    requires InOrder(t, events)
    decreases |events|
  {
    t < WRAP && (events == [] || BeforeWrap(Moment(events[0], t), events[1..]))
  }

  // ---- The end the clock is heading for ----

  // That end if it were kept in full, and when the current pause began. Like the clock, it takes
  // an end of zero for none: a pause does not move it.
  datatype Heading = Heading(end: int, since: nat)

  function Heads(a: Account, h: Heading, e: Event): Heading
  {
    match e
    case Pause(at) => if a.going && !a.paused then h.(since := at) else h
    case Resume(at) => if a.going && a.paused && h.end % WRAP != 0 then h.(end := h.end + at - h.since) else h
    case Extend(minutes) => if a.going then h.(end := h.end + minutes * 60000) else h
    case _ => h
  }

  // A tick in the course of play that finds its time at or past the wrapped end, before the end.
  predicate TooEarly(a: Account, h: Heading, e: Event)
  {
    e.Tick? && a.going && !a.paused && h.end > WRAP && 0 < h.end % WRAP <= e.at
  }

  predicate NoneTooEarly(a: Account, h: Heading, events: seq<Event>)
    requires InOrder(a.upTo, events)
    decreases |events|
  {
    events == []
    || (!TooEarly(a, h, events[0]) && NoneTooEarly(Counted(a, events[0]), Heads(a, h, events[0]), events[1..]))
  }

  // When the budget is used up if there is no further pause.
  function TrueEnd(a: Account, h: Heading): int
  {
    (if a.paused then h.since else a.upTo) - a.played + a.budget
  }

  // The clock's fields say what the account says, with the end it heads for reduced to 32 bits.
  // Only from the wrap on can that end fall behind the true one.
  predicate Follows(c: Clock, a: Account, h: Heading)
  {
    && c.timeMode && Consistent(c) && (c.running <==> a.going) && (c.over <==> !a.going)
    && (a.going ==>
          && (c.paused <==> a.paused) && c.endTime == h.end % WRAP
          && 0 < h.end <= TrueEnd(a, h) && (h.end < WRAP ==> h.end == TrueEnd(a, h)))
    && (a.going && a.paused ==> c.pauseTime == h.since <= a.upTo)
  }

  predicate NextBeforeWrap(a: Account, e: Event)
  {
    InGame(e) && a.upTo <= Moment(e, a.upTo) < WRAP
  }

  lemma ResumeFollows(c: Clock, a: Account, h: Heading, at: nat)
    requires Follows(c, a, h) && NextBeforeWrap(a, Resume(at))
    ensures Follows(Step(c, Resume(at)), Counted(a, Resume(at)), Heads(a, h, Resume(at)))
  {
    if a.going && a.paused {
      WrapAdd(h.end, at - h.since);
      PauseMeasured(h.since, at);
    }
  }

  lemma PauseMeasured(since: nat, at: nat)
    requires since <= at < WRAP
    ensures Ms(Ms(at) - since) == at - since
  {
  }

  lemma ExtendFollows(c: Clock, a: Account, h: Heading, minutes: int)
    requires Follows(c, a, h) && NextBeforeWrap(a, Extend(minutes))
    ensures Follows(Step(c, Extend(minutes)), Counted(a, Extend(minutes)), Heads(a, h, Extend(minutes)))
  {
    WrapAdd(h.end, minutes * 60000);
  }

  lemma WrapAdd(x: int, y: int)
    ensures Ms(x % WRAP + Ms(y)) == (x + y) % WRAP
  {
  }

  lemma TickFollows(c: Clock, a: Account, h: Heading, at: nat)
    requires Follows(c, a, h) && NextBeforeWrap(a, Tick(at)) && !TooEarly(a, h, Tick(at))
    ensures Follows(Step(c, Tick(at)), Counted(a, Tick(at)), h)
  {
  }

  lemma StepFollows(c: Clock, a: Account, h: Heading, e: Event)
    requires Follows(c, a, h) && NextBeforeWrap(a, e) && !TooEarly(a, h, e)
    ensures Follows(Step(c, e), Counted(a, e), Heads(a, h, e))
  {
    match e {
      case Pause(_) =>
      case Resume(at) => ResumeFollows(c, a, h, at);
      case Extend(minutes) => ExtendFollows(c, a, h, minutes);
      case Tick(at) => TickFollows(c, a, h, at);
    }
  }

  // The clock has stopped a game that cannot be over before the counter wraps.
  predicate CutShort(c: Clock, a: Account)
  {
    c.over && !c.running && a.going && a.upTo - a.played + a.budget > WRAP
  }

  lemma TickCutsShort(c: Clock, a: Account, h: Heading, e: Event)
    requires Follows(c, a, h) && NextBeforeWrap(a, e) && TooEarly(a, h, e)
    ensures CutShort(Step(c, e), Counted(a, e))
  {
  }

  lemma {:induction false} StaysCutShort(c: Clock, a: Account, events: seq<Event>)
    requires CutShort(c, a) && InOrder(a.upTo, events) && BeforeWrap(a.upTo, events)
    ensures Run(c, events).over && CountedAll(a, events).going
    decreases |events|
  {
    if events != [] {
      StaysCutShort(Step(c, events[0]), Counted(a, events[0]), events[1..]);
    }
  }

  /** From a clock in step with the account, a run of commands and ticks before the counter wraps
      ends in step exactly when no tick came too early. */
  lemma {:induction false} RunFollowsIff(c: Clock, a: Account, h: Heading, events: seq<Event>)
    requires Follows(c, a, h) && InOrder(a.upTo, events) && BeforeWrap(a.upTo, events)
    ensures (Run(c, events).over <==> !CountedAll(a, events).going) <==> NoneTooEarly(a, h, events)
    decreases |events|
  {
    if events != [] {
      var e := events[0];
      if TooEarly(a, h, e) {
        TickCutsShort(c, a, h, e);
        StaysCutShort(Step(c, e), Counted(a, e), events[1..]);
      } else {
        StepFollows(c, a, h, e);
        RunFollowsIff(Step(c, e), Counted(a, e), Heads(a, h, e), events[1..]);
      }
    }
  }

  // A game just started: nothing played yet.
  function Begun(c: Clock, start: nat): Account
  {
    Account(0, start, true, false, c.limitS * 1000)
  }

  function FirstHeading(c: Clock, start: nat): Heading
  {
    Heading(start + c.limitS * 1000, start)
  }

  /** In time mode, after a start with a positive limit, over every run of pauses, resumptions,
      extensions and ticks before the 32-bit counter wraps: the game ends up over just when some
      tick found the unpaused play time at or above the starting limit plus all extensions,
      exactly if no tick in the course of play came too early for the end the clock headed for. */
  lemma RunRightIff(c: Clock, start: nat, events: seq<Event>)
    requires c.timeMode && c.limitS > 0 && InOrder(start, events) && BeforeWrap(start, events)
    ensures (Run(Step(c, Start(start)), events).over <==> !CountedAll(Begun(c, start), events).going)
       <==> NoneTooEarly(Begun(c, start), FirstHeading(c, start), events)
  {
    RunFollowsIff(Step(c, Start(start)), Begun(c, start), FirstHeading(c, start), events);
  }

  // ---- Budgets of at most 2^32 ms ----

  // No tick in the course of play met an end beyond the wrap.
  predicate NoneBeyond(a: Account, h: Heading, events: seq<Event>)
    requires InOrder(a.upTo, events)
    decreases |events|
  {
    events == []
    || ((events[0].Tick? && a.going && !a.paused ==> h.end <= WRAP)
        && NoneBeyond(Counted(a, events[0]), Heads(a, h, events[0]), events[1..]))
  }

  lemma {:induction false} BudgetGrows(a: Account, events: seq<Event>)
    requires InOrder(a.upTo, events)
    ensures a.budget <= CountedAll(a, events).budget
    decreases |events|
  {
    if events != [] {
      BudgetGrows(Counted(a, events[0]), events[1..]);
    }
  }

  lemma {:induction false} BeyondIsTooEarly(c: Clock, a: Account, h: Heading, events: seq<Event>)
    requires Follows(c, a, h) && InOrder(a.upTo, events) && BeforeWrap(a.upTo, events)
    requires CountedAll(a, events).budget <= WRAP
    ensures NoneTooEarly(a, h, events) <==> NoneBeyond(a, h, events)
    decreases |events|
  {
    if events != [] {
      var e := events[0];
      BudgetGrows(a, events);
      if e.Tick? && a.going && !a.paused && h.end > WRAP {
        assert h.end % WRAP == h.end - WRAP;
      } else {
        StepFollows(c, a, h, e);
        BeyondIsTooEarly(Step(c, e), Counted(a, e), Heads(a, h, e), events[1..]);
      }
    }
  }

  /** With a limit that is never extended beyond 2^32 ms the outcome is right exactly when no tick
      in the course of play met an end beyond the wrap. */
  lemma RightBelowWrapIff(c: Clock, start: nat, events: seq<Event>)
    requires c.timeMode && c.limitS > 0 && InOrder(start, events) && BeforeWrap(start, events)
    requires CountedAll(Begun(c, start), events).budget <= WRAP
    ensures (Run(Step(c, Start(start)), events).over <==> !CountedAll(Begun(c, start), events).going)
       <==> NoneBeyond(Begun(c, start), FirstHeading(c, start), events)
  {
    RunRightIff(c, start, events);
    BeyondIsTooEarly(Step(c, Start(start)), Begun(c, start), FirstHeading(c, start), events);
  }

  // Neither the counter nor, while a game goes on, its end passes the wrap.
  predicate Small(a: Account)
  {
    a.upTo < WRAP && (a.going ==> a.upTo + a.budget < WRAP + a.played)
  }

  predicate NoWrap(a: Account, events: seq<Event>)
    requires InOrder(a.upTo, events)
    decreases |events|
  {
    Small(a) && (events == [] || NoWrap(Counted(a, events[0]), events[1..]))
  }

  lemma {:induction false} NothingBeyond(c: Clock, a: Account, h: Heading, events: seq<Event>)
    requires Follows(c, a, h) && InOrder(a.upTo, events) && NoWrap(a, events)
    ensures BeforeWrap(a.upTo, events) && NoneTooEarly(a, h, events)
    decreases |events|
  {
    if events != [] {
      StepFollows(c, a, h, events[0]);
      NothingBeyond(Step(c, events[0]), Counted(a, events[0]), Heads(a, h, events[0]), events[1..]);
    }
  }

  /** In particular it is right in every run in which nothing passes the wrap. */
  lemma EndsOnTime(c: Clock, start: nat, events: seq<Event>)
    requires c.timeMode && c.limitS > 0 && InOrder(start, events) && NoWrap(Begun(c, start), events)
    ensures Run(Step(c, Start(start)), events).over <==> !CountedAll(Begun(c, start), events).going
  {
    NothingBeyond(Step(c, Start(start)), Begun(c, start), FirstHeading(c, start), events);
    RunRightIff(c, start, events);
  }
}
