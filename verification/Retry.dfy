/** retry.WithBackoff and the consume loop built on it (RabbitMQ.ConsumeMessages). */
module Retry {
  import opened Prelude

  /** Waits are in nanoseconds. */
  datatype Config = Config(maxRetries: int, initialWait: int, maxWait: int)

  const SECOND := 1_000_000_000
  const DEFAULT_CONFIG := Config(MAX_RETRIES, 1 * SECOND, 10 * SECOND)

  datatype Outcome = Success | Failure(err: string) | Cancelled

  /** The k-th wait, from 0. */
  function WaitAt(cfg: Config, k: nat): int {
    if k == 0 then cfg.initialWait
    else
      var doubled := WaitAt(cfg, k - 1) * 2;
      if doubled > cfg.maxWait then cfg.maxWait else doubled
  }

  /** `op(k)` is what the k-th call of the operation returns, None being nil; `cancel(k)` says whether the
      context ends before attempt k. `waits` are the pauses sat through, `calls` counts the operation's calls. */
  method WithBackoff(cfg: Config, op: nat -> Option<string>, cancel: nat -> bool)
    returns (result: Outcome, calls: nat, waits: seq<int>)
    ensures |waits| == if calls == 0 then 0 else calls - 1
    ensures forall k {:trigger waits[k]} :: 0 <= k < |waits| ==> waits[k] == WaitAt(cfg, k)
    ensures forall k :: 0 <= k < calls - 1 ==> op(k).Some?
    ensures forall k :: 1 <= k < calls ==> !cancel(k)
    ensures calls <= if cfg.maxRetries < 0 then 0 else cfg.maxRetries + 1
    ensures cfg.maxRetries < 0 <==> calls == 0
    ensures result.Success? && calls > 0 ==> op(calls - 1).None?
    ensures result.Failure? ==> calls == cfg.maxRetries + 1 && calls > 0 && op(calls - 1) == Some(result.err)
    ensures result.Cancelled? ==> 0 < calls <= cfg.maxRetries && cancel(calls) && op(calls - 1).Some?
  {
    var err: Option<string> := None;
    var wait := cfg.initialWait;
    calls, waits := 0, [];
    var attempt: nat := 0;
    while attempt <= cfg.maxRetries
      invariant attempt == calls
      invariant attempt > 0 ==> attempt <= cfg.maxRetries + 1
      invariant |waits| == if attempt == 0 then 0 else attempt - 1
      invariant wait == WaitAt(cfg, |waits|)
      invariant forall k {:trigger waits[k]} :: 0 <= k < |waits| ==> waits[k] == WaitAt(cfg, k)
      invariant forall k :: 0 <= k < attempt ==> op(k).Some?
      invariant forall k :: 1 <= k < attempt ==> !cancel(k)
      invariant if attempt == 0 then err == None else err == op(attempt - 1)
    {
      if attempt > 0 {
        if cancel(attempt) {
          return Cancelled, calls, waits;
        }
        waits := waits + [wait];
        wait := wait * 2;
        if wait > cfg.maxWait {
          wait := cfg.maxWait;
        }
      }
      err := op(attempt);
      calls := calls + 1;
      if err.None? {
        return Success, calls, waits;
      }
      attempt := attempt + 1;
    }
    result := if err.Some? then Failure(err.value) else Success;
  }

  function Pow2(k: nat): nat { if k == 0 then 1 else 2 * Pow2(k - 1) }

  function Min(a: int, b: int): int { if a <= b then a else b }

  /** The waits in closed form: the first is the initial wait, the k-th is its double taken k times and
      capped; with an initial wait within the cap this is one formula for all k. */
  lemma {:induction false} WaitInClosedForm(cfg: Config, k: nat)
    requires 0 <= cfg.initialWait && 0 <= cfg.maxWait
    ensures 0 <= WaitAt(cfg, k)
    ensures k > 0 || cfg.initialWait <= cfg.maxWait ==> WaitAt(cfg, k) == Min(cfg.initialWait * Pow2(k), cfg.maxWait)
  {
    if k > 0 {
      WaitInClosedForm(cfg, k - 1);
      assert cfg.initialWait * Pow2(k) == 2 * (cfg.initialWait * Pow2(k - 1));
    }
  }

  /** With the default configuration the waits are 1, 2 and 4 seconds. */
  lemma DefaultWaits()
    ensures WaitAt(DEFAULT_CONFIG, 0) == 1_000_000_000
    ensures WaitAt(DEFAULT_CONFIG, 1) == 2_000_000_000
    ensures WaitAt(DEFAULT_CONFIG, 2) == 4_000_000_000
  {
    assert WaitAt(DEFAULT_CONFIG, 1) == WaitAt(DEFAULT_CONFIG, 0) * 2;
    assert WaitAt(DEFAULT_CONFIG, 2) == WaitAt(DEFAULT_CONFIG, 1) * 2;
  }

  predicate SomeAttemptSucceeds(cfg: Config, op: nat -> Option<string>) {
    exists k :: 0 <= k <= cfg.maxRetries && op(k) == None
  }

  // --- The consume loop ----------------------------------------------------------

  /** A delivery, identified by its tag; `handler(k)` is what the handler returns on its k-th attempt. */
  datatype Delivery = Delivery(tag: nat, handler: nat -> Option<string>)

  /** Ack, or reject without requeue, which sends the message to the dead letter exchange. */
  datatype Settlement = Ack(tag: nat) | Reject(tag: nat)

  /** Each delivery is settled once, in order of arrival: acknowledged if and only if one of its four attempts
      succeeds, and rejected otherwise. The consumer's context is never cancelled. */
  method ConsumeMessages(msgs: seq<Delivery>) returns (settled: seq<Settlement>, attempts: seq<nat>)
    ensures |settled| == |attempts| == |msgs|
    ensures forall i :: 0 <= i < |msgs| ==>
              settled[i] == if SomeAttemptSucceeds(DEFAULT_CONFIG, msgs[i].handler) then Ack(msgs[i].tag) else Reject(msgs[i].tag)
    ensures forall i :: 0 <= i < |msgs| ==>
              && 1 <= attempts[i] <= 4
              && (forall k :: 0 <= k < attempts[i] - 1 ==> msgs[i].handler(k).Some?)
              && (attempts[i] < 4 ==> msgs[i].handler(attempts[i] - 1).None?)
              && (settled[i] == Ack(msgs[i].tag) <==> exists k :: 0 <= k < 4 && msgs[i].handler(k).None?)
              && (settled[i] == Reject(msgs[i].tag) <==> forall k :: 0 <= k < 4 ==> msgs[i].handler(k).Some?)
  {
    settled, attempts := [], [];
    for i := 0 to |msgs|
      invariant |settled| == |attempts| == i
      invariant forall j :: 0 <= j < i ==>
                  settled[j] == if SomeAttemptSucceeds(DEFAULT_CONFIG, msgs[j].handler) then Ack(msgs[j].tag) else Reject(msgs[j].tag)
      invariant forall j :: 0 <= j < i ==>
                  && 1 <= attempts[j] <= ATTEMPTS
                  && (forall k :: 0 <= k < attempts[j] - 1 ==> msgs[j].handler(k).Some?)
                  && (attempts[j] < ATTEMPTS ==> msgs[j].handler(attempts[j] - 1).None?)
    {
      var d := msgs[i];
      var result, calls, waits := WithBackoff(DEFAULT_CONFIG, d.handler, k => false);
      if result.Failure? {
        settled := settled + [Reject(d.tag)];
      } else {
        assert d.handler(calls - 1) == None;
        settled := settled + [Ack(d.tag)];
      }
      attempts := attempts + [calls];
    }
  }
}
