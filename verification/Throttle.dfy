/** Rate limiting with sliding windows (pond-sec/app/throttle.py): events in a table, counted
    and pruned by their time. */
module Throttle {
  datatype Action = LoginIp | LoginUser | RegisterIp | FlagChallenge | ChangePassword

  function Name(action: Action): string {
    match action
    case LoginIp => "login_ip"
    case LoginUser => "login_user"
    case RegisterIp => "register_ip"
    case FlagChallenge => "flag_challenge"
    case ChangePassword => "change_password"
  }

  function Limit(action: Action): (n: nat)
    ensures n >= 1
  {
    match action
    case LoginIp => 15
    case LoginUser => 10
    case RegisterIp => 5
    case FlagChallenge => 20
    case ChangePassword => 10
  }

  /** Times are in microseconds. */
  const SECOND := 1_000_000

  const LONGEST_WINDOW := 3600_000_000

  function Window(action: Action): (w: nat)
    ensures 1 <= w <= LONGEST_WINDOW
  {
    match action
    case LoginIp => 900_000_000
    case LoginUser => 900_000_000
    case RegisterIp => 3600_000_000
    case FlagChallenge => 300_000_000
    case ChangePassword => 900_000_000
  }

  function Bucket(action: Action, key: string): string {
    Name(action) + [':'] + key
  }

  datatype Event = Event(bucket: string, at: int)

  // ----- queries ------------------------------------------------------------------------------

  /** The events of a bucket from a time on. */
  function Count(events: seq<Event>, bucket: string, since: int): nat {
    if events == [] then 0
    else
      var last := events[|events| - 1];
      Count(events[..|events| - 1], bucket, since) + if last.bucket == bucket && last.at >= since then 1 else 0
  }

  /** The events of a bucket in a closed span of time. */
  function Within(events: seq<Event>, bucket: string, from: int, to: int): nat {
    if events == [] then 0
    else
      var last := events[|events| - 1];
      Within(events[..|events| - 1], bucket, from, to) + if last.bucket == bucket && from <= last.at <= to then 1 else 0
  }

  function Allowed(events: seq<Event>, action: Action, key: string, now: int): bool {
    Count(events, Bucket(action, key), now - Window(action)) < Limit(action)
  }

  /** The earliest of the counted events. */
  function Oldest(events: seq<Event>, bucket: string, since: int): int
    requires Count(events, bucket, since) > 0
  {
    var last, front := events[|events| - 1], events[..|events| - 1];
    if last.bucket != bucket || last.at < since then Oldest(front, bucket, since)
    else if Count(front, bucket, since) == 0 || last.at < Oldest(front, bucket, since) then last.at
    else Oldest(front, bucket, since)
  }

  /** Whole seconds, towards zero. */
  function Seconds(time: int): int {
    if time >= 0 then time / SECOND else -(-time / SECOND)
  }

  /** The seconds that a check at `now` tells a denied request to wait, as seen at `later`. */
  function WaitTold(events: seq<Event>, action: Action, key: string, now: int, later: int): nat {
    if Allowed(events, action, key, now) then 0
    else
      var left := Oldest(events, Bucket(action, key), now - Window(action)) + Window(action) - later;
      if Seconds(left) > 1 then Seconds(left) else 1
  }

  /** Without the events of a bucket. */
  function Without(events: seq<Event>, bucket: string): seq<Event> {
    if events == [] then []
    else
      var last := events[|events| - 1];
      var front := Without(events[..|events| - 1], bucket);
      if last.bucket == bucket then front else front + [last]
  }

  /** Without the events before a time. */
  function Since(events: seq<Event>, time: int): seq<Event> {
    if events == [] then []
    else
      var last := events[|events| - 1];
      var front := Since(events[..|events| - 1], time);
      if last.at < time then front else front + [last]
  }

  /** A hit that checks at `now` and, when allowed, records at `then`. */
  function Recorded(events: seq<Event>, action: Action, key: string, now: int, then': int): seq<Event> {
    if Allowed(events, action, key, now) then events + [Event(Bucket(action, key), then')] else events
  }

  class Limiter {
    var events: seq<Event>

    constructor ()
      ensures events == []
    {
      events := [];
    }

    /** `check`, which reads the clock again for the time to wait. */
    method Check(action: Action, key: string, now: int, later: int) returns (allowed: bool, wait: nat)
      ensures allowed == Allowed(events, action, key, now)
      ensures wait == WaitTold(events, action, key, now, later)
    {
      var bucket, since := Bucket(action, key), now - Window(action);
      var hits := Count(events, bucket, since);
      if hits < Limit(action) {
        return true, 0;
      }
      var oldest := Oldest(events, bucket, since);
      var seconds := Seconds(oldest + Window(action) - later);
      return false, if seconds > 1 then seconds else 1;
    }

    method Record(action: Action, key: string, now: int)
      modifies this
      ensures events == old(events) + [Event(Bucket(action, key), now)]
    {
      events := events + [Event(Bucket(action, key), now)];
    }

    /** Denied attempts leave the table as it is, and are told how long to wait. */
    method Hit(action: Action, key: string, now: int, then': int) returns (allowed: bool, wait: nat)
      modifies this
      ensures allowed == Allowed(old(events), action, key, now)
      ensures wait == WaitTold(old(events), action, key, now, then')
      ensures events == Recorded(old(events), action, key, now, then')
      ensures !allowed ==> events == old(events)
    {
      allowed, wait := Check(action, key, now, then');
      if allowed {
        Record(action, key, then');
      }
    }

    method Clear(action: Action, key: string)
      modifies this
      ensures events == Without(old(events), Bucket(action, key))
    {
      events := Without(events, Bucket(action, key));
    }

    method Prune(age: nat, now: int)
      modifies this
      ensures events == Since(old(events), now - age)
    {
      events := Since(events, now - age);
    }
  }

  // ----- buckets ---------------------------------------------------------------------------------

  lemma NoColon(action: Action)
    ensures ':' !in Name(action)
  {
  }

  /** The first colon of a bucket stands behind the name. */
  lemma ColonAt(a: Action, k: string, i: nat)
    requires i < |Bucket(a, k)|
    ensures i == |Name(a)| ==> Bucket(a, k)[i] == ':'
    ensures i < |Name(a)| ==> Bucket(a, k)[i] != ':'
  {
    NoColon(a);
    if i < |Name(a)| {
      assert Bucket(a, k)[i] == Name(a)[i];
    }
  }

  /** Actions and keys never share a bucket. */
  lemma BucketsApart(a: Action, k: string, b: Action, l: string)
    requires Bucket(a, k) == Bucket(b, l)
    ensures a == b && k == l
  {
    var m, n := |Name(a)|, |Name(b)|;
    ColonAt(a, k, m);
    ColonAt(b, l, n);
    ColonAt(a, k, n);
    ColonAt(b, l, m);
    if m == n {
      assert Name(a) == Bucket(a, k)[..m] == Bucket(b, l)[..m] == Name(b);
      NamesApart(a, b);
      assert k == Bucket(a, k)[m + 1..] == Bucket(b, l)[m + 1..] == l;
    }
  }

  lemma NamesApart(a: Action, b: Action)
    requires Name(a) == Name(b)
    ensures a == b
  {
    assert Name(a)[0] == Name(b)[0] && |Name(a)| == |Name(b)|;
  }

  // ----- runs ----------------------------------------------------------------------------------------

  /** What happens to the table, with the times read from the clock.  A hit is a check and,
      when that allows it, a record; other requests may come in between. */
  datatype Step =
    | DoCheck(action: Action, key: string, now: int)
    | DoRecord(action: Action, key: string, now: int)
    | DoClear(action: Action, key: string)
    | DoPrune(age: nat, now: int)

  /** The table, everything recorded since its bucket was last cleared, the buckets of the
      allowed requests that have yet to record, and a time that the clock has reached. */
  datatype State = State(events: seq<Event>, history: seq<Event>, waiting: multiset<string>, clock: int)

  function Empty(clock: int): State {
    State([], [], multiset{}, clock)
  }

  /** The clock does not run backwards, what is recorded was allowed, and pruning leaves the
      longest window alone. */
  predicate Possible(s: State, step: Step) {
    match step
    case DoCheck(_, _, now) => s.clock <= now
    case DoRecord(action, key, now) => s.clock <= now && Bucket(action, key) in s.waiting
    case DoClear(_, _) => true
    case DoPrune(age, now) => s.clock <= now && age >= LONGEST_WINDOW
  }

  function Next(s: State, step: Step): State {
    match step
    case DoCheck(action, key, now) =>
      s.(waiting := if Allowed(s.events, action, key, now) then s.waiting + multiset{Bucket(action, key)}
         else s.waiting,
         clock := now)
    case DoRecord(action, key, now) =>
      var e := Event(Bucket(action, key), now);
      State(s.events + [e], s.history + [e], s.waiting - multiset{e.bucket}, now)
    case DoClear(action, key) =>
      s.(events := Without(s.events, Bucket(action, key)), history := Without(s.history, Bucket(action, key)))
    case DoPrune(age, now) => s.(events := Since(s.events, now - age), clock := now)
  }

  predicate PossibleRun(s: State, steps: seq<Step>)
    decreases |steps|
  {
    steps == [] || (Possible(s, steps[0]) && PossibleRun(Next(s, steps[0]), steps[1..]))
  }

  function After(s: State, steps: seq<Step>): State
    decreases |steps|
  {
    if steps == [] then s else After(Next(s, steps[0]), steps[1..])
  }

  /** Never more than `overlap` requests of a bucket are between check and record. */
  predicate Overlaps(s: State, steps: seq<Step>, bucket: string, overlap: nat)
    decreases |steps|
  {
    s.waiting[bucket] <= overlap && (steps == [] || Overlaps(Next(s, steps[0]), steps[1..], bucket, overlap))
  }

  /** The table knows all of the history that a check can ask for. */
  ghost predicate Current(s: State) {
    forall bucket, since | since >= s.clock - LONGEST_WINDOW ::
           Count(s.events, bucket, since) == Count(s.history, bucket, since)
  }

  /** What a window holds, and what can still get into it. */
  function Load(s: State, action: Action, key: string, from: int): nat {
    var bucket, to := Bucket(action, key), from + Window(action);
    Within(s.history, bucket, from, to) + if s.clock <= to then s.waiting[bucket] else 0
  }

  lemma CountPush(events: seq<Event>, e: Event, bucket: string, since: int)
    ensures Count(events + [e], bucket, since)
         == Count(events, bucket, since) + if e.bucket == bucket && e.at >= since then 1 else 0
  {
    assert (events + [e])[..|events|] == events;
  }

  lemma WithinPush(events: seq<Event>, e: Event, bucket: string, from: int, to: int)
    ensures Within(events + [e], bucket, from, to)
         == Within(events, bucket, from, to) + if e.bucket == bucket && from <= e.at <= to then 1 else 0
  {
    assert (events + [e])[..|events|] == events;
  }

  /** Everything in a span was counted from any earlier time on. */
  lemma {:induction false} SpanCounted(events: seq<Event>, bucket: string, from: int, to: int, since: int)
    requires since <= from
    ensures Within(events, bucket, from, to) <= Count(events, bucket, since)
    decreases |events|
  {
    if events != [] {
      SpanCounted(events[..|events| - 1], bucket, from, to, since);
    }
  }

  lemma {:induction false} CountWithout(events: seq<Event>, cleared: string, bucket: string, since: int)
    ensures Count(Without(events, cleared), bucket, since) == if bucket == cleared then 0
            else Count(events, bucket, since)
    decreases |events|
  {
    if events != [] {
      var front, last := events[..|events| - 1], events[|events| - 1];
      CountWithout(front, cleared, bucket, since);
      CountPush(Without(front, cleared), last, bucket, since);
    }
  }

  lemma {:induction false} WithinWithout(events: seq<Event>, cleared: string, bucket: string, from: int, to: int)
    ensures Within(Without(events, cleared), bucket, from, to) <= Within(events, bucket, from, to)
    decreases |events|
  {
    if events != [] {
      var front, last := events[..|events| - 1], events[|events| - 1];
      WithinWithout(front, cleared, bucket, from, to);
      WithinPush(Without(front, cleared), last, bucket, from, to);
    }
  }

  lemma {:induction false} CountSince(events: seq<Event>, time: int, bucket: string, since: int)
    requires since >= time
    ensures Count(Since(events, time), bucket, since) == Count(events, bucket, since)
    decreases |events|
  {
    if events != [] {
      var front, last := events[..|events| - 1], events[|events| - 1];
      CountSince(front, time, bucket, since);
      CountPush(Since(front, time), last, bucket, since);
    }
  }

  lemma StepCurrent(s: State, step: Step)
    requires Current(s) && Possible(s, step)
    ensures Current(Next(s, step))
  {
    var t := Next(s, step);
    forall bucket, since | since >= t.clock - LONGEST_WINDOW
      ensures Count(t.events, bucket, since) == Count(t.history, bucket, since)
    {
      assert Count(s.events, bucket, since) == Count(s.history, bucket, since);
      match step
      case DoCheck(_, _, _) =>
      case DoRecord(action, key, now) =>
        var e := Event(Bucket(action, key), now);
        CountPush(s.events, e, bucket, since);
        CountPush(s.history, e, bucket, since);
      case DoClear(action, key) =>
        CountWithout(s.events, Bucket(action, key), bucket, since);
        CountWithout(s.history, Bucket(action, key), bucket, since);
      case DoPrune(age, now) =>
        CountSince(s.events, now - age, bucket, since);
    }
  }

  /** A check that allows one more request has seen all of a window that is still open. */
  lemma CheckLoad(s: State, action: Action, key: string, now: int, overlap: nat, from: int)
    requires Current(s) && s.clock <= now && Allowed(s.events, action, key, now) && overlap >= 1
    requires Load(s, action, key, from) <= Limit(action) + overlap - 1
    requires Next(s, DoCheck(action, key, now)).waiting[Bucket(action, key)] <= overlap
    ensures Load(Next(s, DoCheck(action, key, now)), action, key, from) <= Limit(action) + overlap - 1
  {
    hide Within, Count, Bucket, Limit, Window;
    var bucket := Bucket(action, key);
    if now <= from + Window(action) {
      SpanCounted(s.history, bucket, from, from + Window(action), now - Window(action));
      assert Count(s.events, bucket, now - Window(action)) == Count(s.history, bucket, now - Window(action));
    }
  }

  lemma StepLoad(s: State, step: Step, action: Action, key: string, overlap: nat, from: int)
    requires Current(s) && Possible(s, step) && overlap >= 1
    requires Load(s, action, key, from) <= Limit(action) + overlap - 1
    requires Next(s, step).waiting[Bucket(action, key)] <= overlap
    ensures Load(Next(s, step), action, key, from) <= Limit(action) + overlap - 1
  {
    hide Current, Within, Count, Bucket, Limit, Window;
    var bucket, to := Bucket(action, key), from + Window(action);
    match step
    case DoCheck(a, k, now) =>
      if Allowed(s.events, a, k, now) && Bucket(a, k) == bucket {
        BucketsApart(a, k, action, key);
        CheckLoad(s, action, key, now, overlap, from);
      }
    case DoRecord(a, k, now) => WithinPush(s.history, Event(Bucket(a, k), now), bucket, from, to);
    case DoClear(a, k) => WithinWithout(s.history, Bucket(a, k), bucket, from, to);
    case DoPrune(_, _) =>
  }

  lemma {:induction false} RunLoad(s: State, steps: seq<Step>, action: Action, key: string, overlap: nat, from: int)
    requires Current(s) && PossibleRun(s, steps) && Overlaps(s, steps, Bucket(action, key), overlap) && overlap >= 1
    requires Load(s, action, key, from) <= Limit(action) + overlap - 1
    ensures Load(After(s, steps), action, key, from) <= Limit(action) + overlap - 1
    decreases |steps|
  {
    hide Current, Load, Possible, Next, Bucket, Limit;
    if steps != [] {
      var next := Next(s, steps[0]);
      assert Overlaps(next, steps[1..], Bucket(action, key), overlap);
      StepCurrent(s, steps[0]);
      StepLoad(s, steps[0], action, key, overlap, from);
      RunLoad(next, steps[1..], action, key, overlap, from);
    }
  }

  lemma EmptyLoad(clock: int, action: Action, key: string, from: int)
    ensures Current(Empty(clock)) && Load(Empty(clock), action, key, from) == 0
  {
    hide Bucket, Limit, Window;
  }

  /** Over every run from an empty table in which at most `overlap` requests of a bucket are
      between check and record, every closed window of an action's length holds at most
      `overlap - 1` more than its limit of the events recorded since the bucket was last
      cleared, pruned ones included.  One request at a time never exceeds the limit. */
  lemma WindowBound(clock: int, steps: seq<Step>, action: Action, key: string, overlap: nat, from: int)
    requires PossibleRun(Empty(clock), steps) && overlap >= 1
    requires Overlaps(Empty(clock), steps, Bucket(action, key), overlap)
    ensures Within(After(Empty(clock), steps).history, Bucket(action, key), from, from + Window(action))
         <= Limit(action) + overlap - 1
  {
    hide Within, Current, Bucket, Limit, Window, PossibleRun, Overlaps, After;
    EmptyLoad(clock, action, key, from);
    RunLoad(Empty(clock), steps, action, key, overlap, from);
  }

  /** In figures: served one request at a time, an address gets at most 15 logins and a user
      name 10 in any 15 minutes, an address 5 registrations an hour, and so on. */
  lemma LimitsKept(clock: int, steps: seq<Step>, key: string, from: int)
    requires PossibleRun(Empty(clock), steps)
    ensures var history := After(Empty(clock), steps).history;
            && (Overlaps(Empty(clock), steps, "login_ip:" + key, 1) ==>
                  Within(history, "login_ip:" + key, from, from + 900 * 1_000_000) <= 15)
            && (Overlaps(Empty(clock), steps, "login_user:" + key, 1) ==>
                  Within(history, "login_user:" + key, from, from + 900 * 1_000_000) <= 10)
            && (Overlaps(Empty(clock), steps, "register_ip:" + key, 1) ==>
                  Within(history, "register_ip:" + key, from, from + 3600 * 1_000_000) <= 5)
            && (Overlaps(Empty(clock), steps, "flag_challenge:" + key, 1) ==>
                  Within(history, "flag_challenge:" + key, from, from + 300 * 1_000_000) <= 20)
            && (Overlaps(Empty(clock), steps, "change_password:" + key, 1) ==>
                  Within(history, "change_password:" + key, from, from + 900 * 1_000_000) <= 10)
  {
    hide Within, PossibleRun, Overlaps, After;
    BucketNames(key);
    hide Bucket;
    LimitKept(clock, steps, LoginIp, key, from);
    LimitKept(clock, steps, LoginUser, key, from);
    LimitKept(clock, steps, RegisterIp, key, from);
    LimitKept(clock, steps, FlagChallenge, key, from);
    LimitKept(clock, steps, ChangePassword, key, from);
  }

  lemma LimitKept(clock: int, steps: seq<Step>, action: Action, key: string, from: int)
    requires PossibleRun(Empty(clock), steps)
    ensures Overlaps(Empty(clock), steps, Bucket(action, key), 1) ==>
              Within(After(Empty(clock), steps).history, Bucket(action, key), from, from + Window(action))
              <= Limit(action)
  {
    hide Within, PossibleRun, Overlaps, After, Bucket, Limit, Window;
    if Overlaps(Empty(clock), steps, Bucket(action, key), 1) {
      WindowBound(clock, steps, action, key, 1, from);
    }
  }

  lemma BucketNames(key: string)
    ensures Bucket(LoginIp, key) == "login_ip:" + key && Bucket(LoginUser, key) == "login_user:" + key
    ensures Bucket(RegisterIp, key) == "register_ip:" + key && Bucket(FlagChallenge, key) == "flag_challenge:" + key
    ensures Bucket(ChangePassword, key) == "change_password:" + key
  {
  }

  // ----- the time to wait ------------------------------------------------------------------------------

  lemma {:induction false} LaterCounts(events: seq<Event>, bucket: string, since: int, later: int)
    requires since <= later && Count(events, bucket, since) > 0
    ensures Count(events, bucket, later) <= Count(events, bucket, since)
    ensures Count(events, bucket, later) < Count(events, bucket, since) <==> later > Oldest(events, bucket, since)
    decreases |events|
  {
    var last, front := events[|events| - 1], events[..|events| - 1];
    if Count(front, bucket, since) > 0 {
      LaterCounts(front, bucket, since, later);
    } else {
      NoneLater(front, bucket, since, later);
    }
  }

  lemma {:induction false} NoneLater(events: seq<Event>, bucket: string, since: int, later: int)
    requires since <= later && Count(events, bucket, since) == 0
    ensures Count(events, bucket, later) == 0
    decreases |events|
  {
    if events != [] {
      NoneLater(events[..|events| - 1], bucket, since, later);
    }
  }

  /** With a window that is just full, a request is allowed again when the oldest event has
      left the window, and not before. */
  lemma AllowedAgain(events: seq<Event>, action: Action, key: string, now: int, later: int)
    requires now <= later && Count(events, Bucket(action, key), now - Window(action)) == Limit(action)
    ensures Allowed(events, action, key, later)
       <==> later - Window(action) > Oldest(events, Bucket(action, key), now - Window(action))
  {
    hide Count, Oldest, Bucket, Limit, Window;
    LaterCounts(events, Bucket(action, key), now - Window(action), later - Window(action));
  }

  lemma SecondsBelow(time: int)
    requires time >= SECOND
    ensures 1 <= Seconds(time) && Seconds(time) * SECOND <= time < (Seconds(time) + 1) * SECOND
  {
  }

  /** A request that comes back after the time it was told is denied again if and only if at
      least a second was left: the fraction was cut off.  One second more is enough. */
  lemma ToldTooShort(events: seq<Event>, action: Action, key: string, now: int, later: int)
    requires now <= later && Count(events, Bucket(action, key), now - Window(action)) == Limit(action)
    ensures var left := Oldest(events, Bucket(action, key), now - Window(action)) + Window(action) - later;
            var wait := WaitTold(events, action, key, now, later);
            && (!Allowed(events, action, key, later + wait * SECOND) <==> left >= SECOND)
            && Allowed(events, action, key, later + (wait + 1) * SECOND)
  {
    hide Count, Oldest, Bucket, Limit, Window, Allowed;
    FullDenies(events, action, key, now);
    var left := Oldest(events, Bucket(action, key), now - Window(action)) + Window(action) - later;
    var wait := WaitTold(events, action, key, now, later);
    if left >= SECOND {
      SecondsBelow(left);
    }
    AllowedAgain(events, action, key, now, later + wait * SECOND);
    AllowedAgain(events, action, key, now, later + (wait + 1) * SECOND);
  }

  lemma FullDenies(events: seq<Event>, action: Action, key: string, now: int)
    requires Count(events, Bucket(action, key), now - Window(action)) == Limit(action)
    ensures !Allowed(events, action, key, now)
  {
  }

  /** Nothing was recorded in the future. */
  ghost predicate Past(s: State) {
    forall e <- s.history :: e.at <= s.clock
  }

  lemma {:induction false} WithoutKeeps(events: seq<Event>, bucket: string, e: Event)
    requires e in Without(events, bucket)
    ensures e in events
    decreases |events|
  {
    if e != events[|events| - 1] {
      WithoutKeeps(events[..|events| - 1], bucket, e);
    }
  }

  lemma StepPast(s: State, step: Step)
    requires Past(s) && Possible(s, step)
    ensures Past(Next(s, step)) && s.clock <= Next(s, step).clock
  {
    if step.DoClear? {
      forall e <- Without(s.history, Bucket(step.action, step.key)) ensures e in s.history {
        WithoutKeeps(s.history, Bucket(step.action, step.key), e);
      }
    }
  }

  lemma {:induction false} RunPast(s: State, steps: seq<Step>)
    requires Past(s) && Current(s) && PossibleRun(s, steps)
    ensures Past(After(s, steps)) && Current(After(s, steps))
    decreases |steps|
  {
    hide Past, Current, Possible, Next;
    if steps != [] {
      StepPast(s, steps[0]);
      StepCurrent(s, steps[0]);
      RunPast(Next(s, steps[0]), steps[1..]);
    }
  }

  lemma {:induction false} AllWithin(events: seq<Event>, bucket: string, from: int, to: int)
    requires forall e <- events :: e.at <= to
    ensures Count(events, bucket, from) == Within(events, bucket, from, to)
    decreases |events|
  {
    if events != [] {
      AllWithin(events[..|events| - 1], bucket, from, to);
    }
  }

  /** In a run with one request at a time no more than the limit is ever counted. */
  lemma NeverOverfull(clock: int, steps: seq<Step>, action: Action, key: string, now: int)
    requires PossibleRun(Empty(clock), steps) && Overlaps(Empty(clock), steps, Bucket(action, key), 1)
    requires After(Empty(clock), steps).clock <= now
    ensures Count(After(Empty(clock), steps).events, Bucket(action, key), now - Window(action)) <= Limit(action)
  {
    hide Within, Count, Bucket, Limit, Window, PossibleRun, Overlaps, After;
    var s, from := After(Empty(clock), steps), now - Window(action);
    RunPast(Empty(clock), steps);
    WindowBound(clock, steps, action, key, 1, from);
    AllWithin(s.history, Bucket(action, key), from, now);
    assert Count(s.events, Bucket(action, key), from) == Count(s.history, Bucket(action, key), from);
  }

  /** Hence in every such run: a denied request that does as told is denied again, until less
      than a second of its window is left. */
  lemma ToldInRuns(clock: int, steps: seq<Step>, action: Action, key: string, now: int, later: int)
    requires PossibleRun(Empty(clock), steps) && Overlaps(Empty(clock), steps, Bucket(action, key), 1)
    requires After(Empty(clock), steps).clock <= now <= later
    requires !Allowed(After(Empty(clock), steps).events, action, key, now)
    ensures var events := After(Empty(clock), steps).events;
            var left := Oldest(events, Bucket(action, key), now - Window(action)) + Window(action) - later;
            var wait := WaitTold(events, action, key, now, later);
            && (!Allowed(events, action, key, later + wait * SECOND) <==> left >= SECOND)
            && Allowed(events, action, key, later + (wait + 1) * SECOND)
  {
    hide Within, Count, Bucket, Limit, Window, PossibleRun, Overlaps, After, Oldest, WaitTold;
    NeverOverfull(clock, steps, action, key, now);
    ToldTooShort(After(Empty(clock), steps).events, action, key, now, later);
  }

  // ----- the bound is reached ------------------------------------------------------------------------

  function Repeated(e: Event, n: nat): (events: seq<Event>)
    ensures |events| == n
  {
    if n == 0 then [] else Repeated(e, n - 1) + [e]
  }

  lemma {:induction false} RepeatedCounts(e: Event, n: nat, since: int, to: int)
    requires since <= e.at <= to
    ensures Count(Repeated(e, n), e.bucket, since) == n && Within(Repeated(e, n), e.bucket, since, to) == n
  {
    if n > 0 {
      RepeatedCounts(e, n - 1, since, to);
      assert Repeated(e, n)[..n - 1] == Repeated(e, n - 1);
    }
  }

  /** `n` events at one time, and `w` requests about to record. */
  function Crowd(e: Event, n: nat, w: nat): State {
    State(Repeated(e, n), Repeated(e, n), multiset{}[e.bucket := w], e.at)
  }

  /** Requests one by one, then some that all check before any of them records. */
  function Script(action: Action, key: string, now: int, alone: nat, checks: nat, records: nat): seq<Step>
    decreases alone, checks, records
  {
    var c, r := DoCheck(action, key, now), DoRecord(action, key, now);
    if alone > 0 then [c, r] + Script(action, key, now, alone - 1, checks, records)
    else if checks > 0 then [c] + Script(action, key, now, 0, checks - 1, records + 1)
    else if records > 0 then [r] + Script(action, key, now, 0, 0, records - 1)
    else []
  }

  predicate Leads(s: State, steps: seq<Step>, bucket: string, overlap: nat, t: State) {
    PossibleRun(s, steps) && Overlaps(s, steps, bucket, overlap) && After(s, steps) == t
  }

  lemma LeadsFirst(s: State, step: Step, rest: seq<Step>, bucket: string, overlap: nat, t: State)
    requires Possible(s, step) && s.waiting[bucket] <= overlap && Leads(Next(s, step), rest, bucket, overlap, t)
    ensures Leads(s, [step] + rest, bucket, overlap, t)
  {
    assert ([step] + rest)[1..] == rest;
  }

  lemma OneMoreWaits(bucket: string, w: nat)
    ensures multiset{}[bucket := w] + multiset{bucket} == multiset{}[bucket := w + 1]
  {
  }

  lemma CrowdChecks(action: Action, key: string, now: int, n: nat, w: nat)
    requires n < Limit(action)
    ensures var e, step := Event(Bucket(action, key), now), DoCheck(action, key, now);
            Possible(Crowd(e, n, w), step) && Next(Crowd(e, n, w), step) == Crowd(e, n, w + 1)
  {
    hide Bucket, Repeated, Limit, Window;
    RepeatedCounts(Event(Bucket(action, key), now), n, now - Window(action), now);
    OneMoreWaits(Bucket(action, key), w);
  }

  lemma CrowdRecords(action: Action, key: string, now: int, n: nat, w: nat)
    requires w > 0
    ensures var e, step := Event(Bucket(action, key), now), DoRecord(action, key, now);
            Possible(Crowd(e, n, w), step) && Next(Crowd(e, n, w), step) == Crowd(e, n + 1, w - 1)
  {
  }

  lemma {:induction false} ScriptLeads(action: Action, key: string, now: int, n: nat, alone: nat, checks: nat,
                                       records: nat,
                                       overlap: nat)
    requires overlap >= 1 && records + checks <= overlap
    requires alone > 0 ==> records == 0
    requires alone > 0 || checks > 0 ==> n + alone == Limit(action) - 1
    ensures var e := Event(Bucket(action, key), now);
            Leads(Crowd(e, n, records), Script(action, key, now, alone, checks, records), e.bucket, overlap,
                  Crowd(e, n + alone + checks + records, 0))
    decreases alone, checks, records
  {
    hide Leads, Crowd, Possible, Next, Bucket, Limit;
    var e := Event(Bucket(action, key), now);
    var c, r := DoCheck(action, key, now), DoRecord(action, key, now);
    var steps, t := Script(action, key, now, alone, checks, records), Crowd(e, n + alone + checks + records, 0);
    CrowdWaits(e, n, records);
    if alone > 0 {
      CrowdWaits(e, n, 1);
      CrowdChecks(action, key, now, n, 0);
      CrowdRecords(action, key, now, n, 1);
      ScriptLeads(action, key, now, n + 1, alone - 1, checks, records, overlap);
      var rest := Script(action, key, now, alone - 1, checks, records);
      LeadsFirst(Crowd(e, n, 1), r, rest, e.bucket, overlap, t);
      LeadsFirst(Crowd(e, n, 0), c, [r] + rest, e.bucket, overlap, t);
      assert steps == [c] + ([r] + rest);
    } else if checks > 0 {
      CrowdChecks(action, key, now, n, records);
      ScriptLeads(action, key, now, n, 0, checks - 1, records + 1, overlap);
      LeadsFirst(Crowd(e, n, records), c, Script(action, key, now, 0, checks - 1, records + 1), e.bucket, overlap, t);
    } else if records > 0 {
      CrowdRecords(action, key, now, n, records);
      ScriptLeads(action, key, now, n + 1, 0, 0, records - 1, overlap);
      LeadsFirst(Crowd(e, n, records), r, Script(action, key, now, 0, 0, records - 1), e.bucket, overlap, t);
    } else {
      StaysThere(t, e.bucket, overlap);
    }
  }

  lemma CrowdWaits(e: Event, n: nat, w: nat)
    ensures Crowd(e, n, w).waiting[e.bucket] == w
  {
  }

  lemma StaysThere(s: State, bucket: string, overlap: nat)
    requires s.waiting[bucket] <= overlap
    ensures Leads(s, [], bucket, overlap, s)
  {
  }

  lemma NobodyYet(e: Event)
    ensures Crowd(e, 0, 0) == Empty(e.at)
  {
  }

  lemma CrowdHeld(e: Event, n: nat, to: int)
    requires e.at <= to
    ensures Within(Crowd(e, n, 0).history, e.bucket, e.at, to) == n
  {
    RepeatedCounts(e, n, e.at, to);
  }

  /** The bound is exact: for every action, key and overlap some run reaches it, so that the
      limit itself holds for one request at a time only. */
  lemma BoundReached(clock: int, action: Action, key: string, overlap: nat) returns (steps: seq<Step>)
    requires overlap >= 1
    ensures PossibleRun(Empty(clock), steps) && Overlaps(Empty(clock), steps, Bucket(action, key), overlap)
    ensures Within(After(Empty(clock), steps).history, Bucket(action, key), clock, clock + Window(action))
         == Limit(action) + overlap - 1
  {
    hide Within, Possible, Next, Bucket, Limit, Window, PossibleRun, Overlaps, After, Script, Repeated, Crowd, Empty;
    var e := Event(Bucket(action, key), clock);
    steps := Script(action, key, clock, Limit(action) - 1, overlap, 0);
    ScriptLeads(action, key, clock, 0, Limit(action) - 1, overlap, 0, overlap);
    NobodyYet(e);
    CrowdHeld(e, Limit(action) + overlap - 1, clock + Window(action));
  }

  // ----- pruning ---------------------------------------------------------------------------------------

  /** Pruning by `age` at `now` leaves a check at `later` as it was. */
  predicate Unchanged(action: Action, age: nat, events: seq<Event>, key: string, now: int, later: int) {
    Allowed(Since(events, now - age), action, key, later) == Allowed(events, action, key, later)
  }

  /** Pruning by this age never changes a later check. */
  ghost predicate Harmless(action: Action, age: nat) {
    forall events, key, now, later | now <= later :: Unchanged(action, age, events, key, now, later)
  }

  lemma {:induction false} RepeatedPruned(e: Event, n: nat, time: int)
    requires e.at < time
    ensures Since(Repeated(e, n), time) == []
  {
    if n > 0 {
      RepeatedPruned(e, n - 1, time);
      assert Repeated(e, n)[..n - 1] == Repeated(e, n - 1);
    }
  }

  /** A younger prune forgets a full window that is still open. */
  lemma PruneReopens(action: Action, age: nat)
    requires age < Window(action)
    ensures !Unchanged(action, age, Repeated(Event(Bucket(action, ""), 0), Limit(action)), "", Window(action),
                       Window(action))
  {
    hide Window, Bucket, Limit;
    var e, n, now := Event(Bucket(action, ""), 0), Limit(action), Window(action);
    RepeatedPruned(e, n, now - age);
    RepeatedCounts(e, n, 0, 0);
  }

  /** Pruning is harmless to an action exactly when it leaves the window of the action alone. */
  lemma PruneHarmlessExactly(action: Action, age: nat)
    ensures Harmless(action, age) <==> age >= Window(action)
  {
    hide Window, Bucket, Limit, Repeated;
    if age >= Window(action) {
      forall events, key, now, later | now <= later ensures Unchanged(action, age, events, key, now, later) {
        CountSince(events, now - age, Bucket(action, key), later - Window(action));
      }
    } else {
      PruneReopens(action, age);
    }
  }
}
