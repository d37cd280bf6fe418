/** Resumable decoding of a byte stream.

    A decoder takes units (a line, a subrectangle, a tile, a segment) off the front of the
    unread bytes and is entered again whenever more bytes arrive.  If what one unit does
    never depends on bytes that have not arrived, then it does not matter how the stream
    was cut into messages. */
module Resume {
  import opened Bytes

  /** Calls to the display, with the bytes handed over. */
  datatype Call =
    | Fill(x: int, y: int, width: nat, height: nat, color: seq<Byte>)
    | Blit(x: int, y: int, width: nat, height: nat, pixels: seq<Byte>)
    | Picture(x: int, y: int, width: nat, height: nat, data: seq<Byte>)

  /** One attempt at a unit: wait for bytes, give up with an error, take `n` bytes, or
      notice that the rectangle is complete. */
  datatype Move<+S> = Wait | Fail | Take(n: nat, next: S, calls: seq<Call>) | Done(next: S, calls: seq<Call>)

  datatype Status = Waiting | Failed | Finished

  datatype Progress<+S> = Progress(status: Status, state: S, rest: seq<Byte>, calls: seq<Call>)

  /** A unit takes at least one byte that is there, and what it does does not depend on
      bytes behind those that made it move. */
  ghost predicate Steady<S(!new)>(step: (S, seq<Byte>) -> Move<S>) {
    forall s, a, b :: SteadyAt(step, s, a, b)
  }

  ghost predicate SteadyAt<S>(step: (S, seq<Byte>) -> Move<S>, s: S, a: seq<Byte>, b: seq<Byte>) {
    var move := step(s, a);
    && (move.Take? ==> 0 < move.n <= |a|)
    && (move.Wait? || step(s, a + b) == move)
  }

  /** Unit after unit, until bytes are missing or the rectangle is complete. */
  ghost function Run<S(!new)>(step: (S, seq<Byte>) -> Move<S>, s: S, input: seq<Byte>): Progress<S>
    requires Steady(step)
    decreases |input|
  {
    assert SteadyAt(step, s, input, []);
    match step(s, input)
    case Wait => Progress(Waiting, s, input, [])
    case Fail => Progress(Failed, s, input, [])
    case Take(n, next, calls) => After(calls, Run(step, next, input[n..]))
    case Done(next, calls) => Progress(Finished, next, input, calls)
  }

  function After<S>(calls: seq<Call>, p: Progress<S>): Progress<S> {
    p.(calls := calls + p.calls)
  }

  /** More bytes arrive after `p`. */
  ghost function Then<S(!new)>(step: (S, seq<Byte>) -> Move<S>, p: Progress<S>, more: seq<Byte>): Progress<S>
    requires Steady(step)
  {
    if p.status == Waiting then After(p.calls, Run(step, p.state, p.rest + more))
    else p.(rest := p.rest + more)
  }

  lemma AfterAfter<S>(a: seq<Call>, b: seq<Call>, p: Progress<S>)
    ensures After(a, After(b, p)) == After(a + b, p)
  {
    assert a + (b + p.calls) == (a + b) + p.calls;
  }

  lemma AfterNothing<S>(p: Progress<S>)
    ensures After([], p) == p
  {
    assert [] + p.calls == p.calls;
  }

  /** Running on a prefix and going on is running on everything. */
  lemma {:induction false} Resumes<S(!new)>(step: (S, seq<Byte>) -> Move<S>, s: S, a: seq<Byte>, b: seq<Byte>)
    requires Steady(step)
    ensures Run(step, s, a + b) == Then(step, Run(step, s, a), b)
    decreases |a|
  {
    assert SteadyAt(step, s, a, b);
    match step(s, a)
    case Wait => AfterNothing(Run(step, s, a + b));
    case Fail =>
    case Done(next, calls) =>
    case Take(n, next, calls) =>
      assert (a + b)[n..] == a[n..] + b;
      Resumes(step, next, a[n..], b);
      var p := Run(step, next, a[n..]);
      if p.status == Waiting {
        AfterAfter(calls, p.calls, Run(step, p.state, p.rest + b));
      }
  }

  function Concat(messages: seq<seq<Byte>>): seq<Byte> {
    if messages == [] then [] else messages[0] + Concat(messages[1..])
  }

  /** The decoder is entered with the bytes at hand, and again after each message. */
  ghost function Feed<S(!new)>(step: (S, seq<Byte>) -> Move<S>, s: S, first: seq<Byte>, messages: seq<seq<Byte>>)
    : Progress<S>
    requires Steady(step)
    decreases |messages|
  {
    var p := Run(step, s, first);
    if messages == [] then p
    else if p.status == Waiting then After(p.calls, Feed(step, p.state, p.rest + messages[0], messages[1..]))
    else p.(rest := p.rest + Concat(messages))
  }

  /** Splitting independence: however the bytes are cut into messages, the decoder makes
      the same display calls in the same order, consumes the same bytes and ends in the
      same state as when all bytes are there at once. */
  lemma {:induction false} SplittingDoesNotMatter<S(!new)>(step: (S, seq<Byte>) -> Move<S>, s: S, first: seq<Byte>,
                                                           messages: seq<seq<Byte>>)
    requires Steady(step)
    ensures Feed(step, s, first, messages) == Run(step, s, first + Concat(messages))
    decreases |messages|
  {
    if messages == [] {
      assert first + Concat(messages) == first;
    } else {
      var p := Run(step, s, first);
      Resumes(step, s, first, Concat(messages));
      if p.status == Waiting {
        SplittingDoesNotMatter(step, p.state, p.rest + messages[0], messages[1..]);
        assert p.rest + messages[0] + Concat(messages[1..]) == p.rest + Concat(messages);
      }
    }
  }

  /** Bytes are neither lost nor invented: what remains is a suffix of what came. */
  lemma {:induction false} RestIsSuffix<S(!new)>(step: (S, seq<Byte>) -> Move<S>, s: S, input: seq<Byte>)
    requires Steady(step)
    ensures var rest := Run(step, s, input).rest; |rest| <= |input| && rest == input[|input| - |rest|..]
    decreases |input|
  {
    assert SteadyAt(step, s, input, []);
    match step(s, input)
    case Wait =>
    case Fail =>
    case Done(next, calls) =>
    case Take(n, next, calls) =>
      RestIsSuffix(step, next, input[n..]);
      var rest := Run(step, next, input[n..]).rest;
      assert input[n..][|input| - n - |rest|..] == input[|input| - |rest|..];
  }

  // ----- for loops that take unit after unit ---------------------------------------------------

  lemma RunTakes<S(!new)>(step: (S, seq<Byte>) -> Move<S>, s: S, input: seq<Byte>)
    requires Steady(step) && step(s, input).Take?
    ensures var move := step(s, input);
            0 < move.n <= |input| && Run(step, s, input) == After(move.calls, Run(step, move.next, input[move.n..]))
  {
    assert SteadyAt(step, s, input, []);
  }

  /** A loop has made `calls`; one more unit is taken. */
  lemma Advances<S(!new)>(step: (S, seq<Byte>) -> Move<S>, goal: Progress<S>, calls: seq<Call>, s: S, input: seq<Byte>)
    requires Steady(step) && goal == After(calls, Run(step, s, input)) && step(s, input).Take?
    ensures var move := step(s, input);
            0 < move.n <= |input| && goal == After(calls + move.calls, Run(step, move.next, input[move.n..]))
  {
    assert SteadyAt(step, s, input, []);
    var move := step(s, input);
    AfterAfter(calls, move.calls, Run(step, move.next, input[move.n..]));
  }

  /** A loop has made `calls` and stops. */
  lemma Stops<S(!new)>(step: (S, seq<Byte>) -> Move<S>, goal: Progress<S>, calls: seq<Call>, s: S, input: seq<Byte>)
    requires Steady(step) && goal == After(calls, Run(step, s, input)) && !step(s, input).Take?
    ensures match step(s, input)
            case Wait => goal == Progress(Waiting, s, input, calls)
            case Fail => goal == Progress(Failed, s, input, calls)
            case Done(next, more) => goal == Progress(Finished, next, input, calls + more)
  {
  }

  lemma ConcatNext(all: seq<Byte>, messages: seq<seq<Byte>>, i: nat)
    requires i < |messages|
    ensures all + Concat(messages[i..]) == all + messages[i] + Concat(messages[i + 1..])
  {
    assert messages[i..][1..] == messages[i + 1..];
  }
}
