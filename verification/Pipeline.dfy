/** Bounded retry with doubling delays, and in-order delivery (crates/ingestion/src/pipeline.rs). */
module Pipeline {
  import opened Common

  datatype IngestionError = Source(message: string) | ChannelClosed

  datatype Poll = Ok(batch: seq<Transaction>) | Err(error: IngestionError)

  /** What a source answers to each poll, counted from its first. */
  type Answers = nat -> Poll

  function Answer(answers: Answers, poll: nat): Poll {
    answers(poll)
  }

  datatype RetryConfig = RetryConfig(maxAttempts: nat, baseDelay: nat, maxDelay: nat) {
    /** At least one attempt is made, whatever the configuration says. */
    function Attempts(): nat { if maxAttempts == 0 then 1 else maxAttempts }
  }

  function Min(a: nat, b: nat): nat { if a <= b then a else b }

  // ---------- Delays ----------

  function Doubled(base: nat, times: nat): nat {
    if times == 0 then base else 2 * Doubled(base, times - 1)
  }

  /** The `k`-th delay of a fetch, from 1, in closed form: only the first is not capped. */
  function Delay(retry: RetryConfig, k: nat): nat
    requires k >= 1
  {
    if k == 1 then retry.baseDelay else Min(Doubled(retry.baseDelay, k - 1), retry.maxDelay)
  }

  function Backoff(retry: RetryConfig, count: nat): (delays: seq<nat>)
    ensures |delays| == count
  {
    seq(count, i requires 0 <= i < count => Delay(retry, i + 1))
  }

  lemma DelayAfter(retry: RetryConfig, k: nat)
    requires k >= 1
    ensures Delay(retry, k + 1) == Min(2 * Delay(retry, k), retry.maxDelay)
  {
    assert Doubled(retry.baseDelay, k) == 2 * Doubled(retry.baseDelay, k - 1);
    assert k == 1 ==> Doubled(retry.baseDelay, 0) == retry.baseDelay;
  }

  /** Every delay is the capped power of two, and none exceeds the maximum, exactly when the base does
      not exceed it. Otherwise the first delay is longer than the maximum. */
  lemma DelaysCappedIff(retry: RetryConfig, count: nat)
    requires count >= 1
    ensures (forall i :: 0 <= i < count ==> Backoff(retry, count)[i] == Min(Doubled(retry.baseDelay, i), retry.maxDelay))
       <==> retry.baseDelay <= retry.maxDelay
    ensures (forall i :: 0 <= i < count ==> Backoff(retry, count)[i] <= retry.maxDelay) <==> retry.baseDelay <= retry.maxDelay
  {
    var delays := Backoff(retry, count);
    assert delays[0] == retry.baseDelay && Doubled(retry.baseDelay, 0) == retry.baseDelay;
    assert forall i :: 1 <= i < count ==> delays[i] == Delay(retry, i + 1);
  }

  // ---------- Polls ----------

  /** A fetch that starts at poll `start` makes `n` polls: all but the last fail, and the last one
      succeeds unless the attempts are used up. */
  predicate StopsAfter(answers: Answers, attempts: nat, start: nat, n: nat) {
    && 1 <= n <= attempts
    && (forall k :: start <= k < start + n - 1 ==> Answer(answers, k).Err?)
    && (Answer(answers, start + n - 1).Ok? || n == attempts)
  }

  /** With the first success `f` polls on, that is the smaller of `f + 1` and the attempts. */
  lemma StopsAtFirstSuccess(answers: Answers, attempts: nat, start: nat, f: nat, n: nat)
    requires attempts >= 1
    requires Answer(answers, start + f).Ok? && forall k :: start <= k < start + f ==> Answer(answers, k).Err?
    ensures StopsAfter(answers, attempts, start, n) <==> n == Min(f + 1, attempts)
  {
    if StopsAfter(answers, attempts, start, n) {
      var success, last := Answer(answers, start + f), Answer(answers, start + n - 1);
    }
  }

  lemma StopsOnce(answers: Answers, attempts: nat, start: nat, n: nat, m: nat)
    requires StopsAfter(answers, attempts, start, n) && StopsAfter(answers, attempts, start, m)
    ensures n == m
  {
    var one, other := Answer(answers, start + n - 1), Answer(answers, start + m - 1);
  }

  /** How many polls a fetch makes. */
  function Polls(answers: Answers, attempts: nat, start: nat): (n: nat)
    requires attempts >= 1
    ensures StopsAfter(answers, attempts, start, n)
    decreases attempts
  {
    if attempts == 1 || Answer(answers, start).Ok? then 1 else 1 + Polls(answers, attempts - 1, start + 1)
  }

  /** All that the source's polls `from..to` brought, the failed ones nothing. */
  function Brought(answers: Answers, from: nat, to: nat): seq<Transaction>
    requires from <= to
  {
    if from == to then []
    else Brought(answers, from, to - 1) + if Answer(answers, to - 1).Ok? then Answer(answers, to - 1).batch else []
  }

  lemma {:induction false} BroughtConcat(answers: Answers, a: nat, b: nat, c: nat)
    requires a <= b <= c
    ensures Brought(answers, a, c) == Brought(answers, a, b) + Brought(answers, b, c)
  {
    if b < c {
      BroughtConcat(answers, a, b, c - 1);
    }
  }

  lemma {:induction false} FailuresBringNothing(answers: Answers, from: nat, to: nat)
    requires from <= to && forall k :: from <= k < to ==> Answer(answers, k).Err?
    ensures Brought(answers, from, to) == []
  {
    if from < to {
      FailuresBringNothing(answers, from, to - 1);
    }
  }

  /** A fetch brings its last poll's batch and nothing before it. */
  lemma FetchBrings(answers: Answers, attempts: nat, start: nat, n: nat)
    requires StopsAfter(answers, attempts, start, n)
    ensures var last := Answer(answers, start + n - 1);
            Brought(answers, start, start + n) == if last.Ok? then last.batch else []
  {
    FailuresBringNothing(answers, start, start + n - 1);
  }

  // ---------- Turns of the loop ----------

  /** How far a pipeline and its channel have come: polls made, items received, sleeps taken. */
  datatype Standing = Standing(polls: nat, received: seq<Transaction>, sleeps: seq<nat>)

  /** One turn while the channel stays open: a fetch, its batch sent, one poll interval slept. */
  function AfterTurn(answers: Answers, retry: RetryConfig, interval: nat, s: Standing): Standing {
    var n := Polls(answers, retry.Attempts(), s.polls);
    var last := Answer(answers, s.polls + n - 1);
    Standing(s.polls + n, s.received + (if last.Ok? then last.batch else []), s.sleeps + Backoff(retry, n - 1) + [interval])
  }

  function Reached(answers: Answers, retry: RetryConfig, interval: nat, was: Standing, turns: nat): Standing {
    if turns == 0 then was else AfterTurn(answers, retry, interval, Reached(answers, retry, interval, was, turns - 1))
  }

  lemma OnTop<T>(a: seq<T>, b: seq<T>, c: seq<T>)
    ensures (a + b) + c == a + (b + c)
  {
  }

  lemma TurnBrings(answers: Answers, retry: RetryConfig, interval: nat, s: Standing)
    ensures var s' := AfterTurn(answers, retry, interval, s);
            && s.polls < s'.polls <= s.polls + retry.Attempts()
            && s'.received == s.received + Brought(answers, s.polls, s'.polls)
            && |s'.sleeps| - |s.sleeps| == s'.polls - s.polls
  {
    FetchBrings(answers, retry.Attempts(), s.polls, Polls(answers, retry.Attempts(), s.polls));
  }

  /** A turn makes from one poll to all the attempts allowed, and there is one sleep per poll. */
  lemma {:induction false} TurnsPoll(answers: Answers, retry: RetryConfig, interval: nat, was: Standing, turns: nat)
    ensures var s := Reached(answers, retry, interval, was, turns);
            && was.polls + turns <= s.polls <= was.polls + turns * retry.Attempts()
            && |s.sleeps| - |was.sleeps| == s.polls - was.polls
  {
    if turns > 0 {
      TurnsPoll(answers, retry, interval, was, turns - 1);
      TurnBrings(answers, retry, interval, Reached(answers, retry, interval, was, turns - 1));
      assert turns * retry.Attempts() == (turns - 1) * retry.Attempts() + retry.Attempts();
    }
  }

  /** What is received is what all the polls brought, in order, nothing lost and nothing repeated whatever
      the retries. */
  lemma {:induction false} TurnsBring(answers: Answers, retry: RetryConfig, interval: nat, was: Standing, turns: nat)
    ensures var s := Reached(answers, retry, interval, was, turns);
            was.polls <= s.polls && s.received == was.received + Brought(answers, was.polls, s.polls)
  {
    if turns > 0 {
      var mid := Reached(answers, retry, interval, was, turns - 1);
      var s := Reached(answers, retry, interval, was, turns);
      TurnsBring(answers, retry, interval, was, turns - 1);
      TurnBrings(answers, retry, interval, mid);
      BroughtConcat(answers, was.polls, mid.polls, s.polls);
      OnTop(was.received, Brought(answers, was.polls, mid.polls), Brought(answers, mid.polls, s.polls));
    }
  }

  /** The last turn found the channel closed: no room for the items from `room` on, and no last sleep. */
  function CutOff(s: Standing, room: nat): Standing
    requires room <= |s.received| && s.sleeps != []
  {
    Standing(s.polls, s.received[..room], s.sleeps[..|s.sleeps| - 1])
  }

  /** All of `s`, or, if there is no room for that, what is left when the channel closes. */
  predicate Outcome(s: Standing, room: Option<nat>, all: bool, now: Standing) {
    if all then now == s
    else room.Some? && room.value < |s.received| && s.sleeps != [] && now == CutOff(s, room.value)
  }

  /** The receiving end takes `room` items and then, if ever, closes. */
  class Channel {
    const room: Option<nat>
    var received: seq<Transaction>

    constructor (room: Option<nat>)
      ensures this.room == room && received == []
    {
      this.room := room;
      received := [];
    }

    predicate Valid()
      reads this
    {
      room.Some? ==> |received| <= room.value
    }

    method Send(tx: Transaction) returns (sent: bool)
      requires Valid()
      modifies this
      ensures Valid()
      ensures sent <==> (room.Some? ==> old(|received|) < room.value)
      ensures received == old(received) + if sent then [tx] else []
    {
      sent := room.None? || |received| < room.value;
      if sent {
        received := received + [tx];
      }
    }
  }

  /** The source is held as its answers and the number of polls made of it so far. */
  class IngestionPipeline {
    const answers: Answers
    const retry: RetryConfig
    var polls: nat
    var sleeps: seq<nat>

    constructor (answers: Answers, retry: RetryConfig)
      ensures this.answers == answers && this.retry == retry && polls == 0 && sleeps == []
    {
      this.answers := answers;
      this.retry := retry;
      polls, sleeps := 0, [];
    }

    method FetchWithRetry() returns (result: Poll)
      modifies this
      ensures polls > old(polls) && StopsAfter(answers, retry.Attempts(), old(polls), polls - old(polls))
      ensures result == Answer(answers, polls - 1)
      ensures sleeps == old(sleeps) + Backoff(retry, polls - old(polls) - 1)
    {
      var attempt := 0;
      var delay := retry.baseDelay;
      while true
        invariant 0 <= attempt < retry.Attempts()
        invariant polls == old(polls) + attempt
        invariant forall k :: old(polls) <= k < polls ==> Answer(answers, k).Err?
        invariant sleeps == old(sleeps) + Backoff(retry, attempt)
        invariant delay == Delay(retry, attempt + 1)
        decreases retry.Attempts() - attempt
      {
        attempt := attempt + 1;
        result := Answer(answers, polls);
        polls := polls + 1;
        if result.Ok? || attempt >= retry.maxAttempts {
          return;
        }
        assert Backoff(retry, attempt) == Backoff(retry, attempt - 1) + [delay];
        sleeps := sleeps + [delay];
        DelayAfter(retry, attempt);
        delay := Min(delay * 2, retry.maxDelay);
      }
    }

    /** The sending of one batch, up to the item at which the channel turns out to be closed. */
    method SendBatch(sender: Channel, batch: seq<Transaction>) returns (sent: bool)
      requires sender.Valid()
      modifies sender
      ensures sender.Valid()
      ensures var arrived := old(sender.received) + batch;
              if sent then sender.received == arrived
              else sender.room.Some? && sender.room.value < |arrived| && sender.received == arrived[..sender.room.value]
    {
      for i := 0 to |batch|
        invariant sender.Valid()
        invariant sender.received == old(sender.received) + batch[..i]
      {
        sent := sender.Send(batch[i]);
        if !sent {
          return;
        }
      }
      sent := true;
    }

    /** One turn of the loop, ended early when the channel is closed. */
    method Turn(sender: Channel, interval: nat) returns (sent: bool)
      requires sender.Valid()
      modifies this, sender
      ensures sender.Valid()
      ensures Outcome(AfterTurn(answers, retry, interval, old(Standing(polls, sender.received, sleeps))), sender.room, sent,
                Standing(polls, sender.received, sleeps))
    {
      var result := FetchWithRetry();
      StopsOnce(answers, retry.Attempts(), old(polls), polls - old(polls), Polls(answers, retry.Attempts(), old(polls)));
      sent := true;
      if result.Ok? {
        sent := SendBatch(sender, result.batch);
      }
      if sent {
        sleeps := sleeps + [interval];
      }
    }

    /** Runs until the channel closes, which is then the error returned, or the caller drops it, here
        after `turns` turns. */
    method Run(sender: Channel, interval: nat, turns: nat) returns (error: Option<IngestionError>, made: nat)
      requires sender.Valid()
      modifies this, sender
      ensures sender.Valid()
      ensures if error.Some? then 0 < made <= turns && error.value.ChannelClosed? else made == turns
      ensures Outcome(Reached(answers, retry, interval, old(Standing(polls, sender.received, sleeps)), made),
                sender.room, error.None?, Standing(polls, sender.received, sleeps))
    {
      error, made := None, 0;
      ghost var was := Standing(polls, sender.received, sleeps);
      while made < turns
        invariant sender.Valid() && made <= turns && error.None?
        invariant Standing(polls, sender.received, sleeps) == Reached(answers, retry, interval, was, made)
      {
        made := made + 1;
        var sent := Turn(sender, interval);
        if !sent {
          error := Some(ChannelClosed);
          return;
        }
      }
    }
  }
}
