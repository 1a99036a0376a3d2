/**
 * The download loop of `extract_data`: open the URL, and on an IOError count
 * the failure, sleep `SLEEP_TIME` seconds unless `MAX_TRIES` failures have
 * been counted, and try again. The loop only ever leaves with a page: past
 * `MAX_TRIES` it keeps retrying without sleeping.
 *
 * The network is not modelled; what each successive `client.open` does is
 * given as a finite trace of attempts. A trace that ends before any attempt
 * succeeds stands for a loop still running when observation stops.
 */
module Retry {
  import opened Page

  const SLEEP_TIME: nat := 5
  const MAX_TRIES: nat := 10

  /** What one `client.open(url)` followed by parsing does. */
  datatype Attempt = IoFailure | Fetched(doc: Document)

  /** Where the loop is after a trace of attempts. */
  datatype Fetch =
    | Got(doc: Document, failures: nat, sleeps: nat)
    | StillRetrying(failures: nat, sleeps: nat)

  /** The number of failed attempts before the first successful one (or all of them). */
  function LeadingFailures(trace: seq<Attempt>): (k: nat)
    ensures k <= |trace|
    ensures forall i :: 0 <= i < k ==> trace[i] == IoFailure
    ensures k < |trace| ==> trace[k].Fetched?
  {
    if trace == [] || trace[0].Fetched? then 0
    else 1 + LeadingFailures(trace[1..])
  }

  /** Sleeps taken after `failures` failed attempts: one per failure below `MAX_TRIES`. */
  function SleepsAfter(failures: nat): (s: nat)
    ensures s <= failures && s < MAX_TRIES
    ensures failures < MAX_TRIES ==> s == failures
    ensures failures >= MAX_TRIES ==> s == MAX_TRIES - 1
  {
    if failures < MAX_TRIES then failures else MAX_TRIES - 1
  }

  /** The loop's outcome on a trace: the first fetched page, or still retrying. */
  function Outcome(trace: seq<Attempt>): Fetch {
    var k := LeadingFailures(trace);
    if k < |trace| then Got(trace[k].doc, k, SleepsAfter(k))
    else StillRetrying(k, SleepsAfter(k))
  }

  /**
   * `while True: try: ... break except IOError: ...`, run against the trace.
   * `failures` is `no_tries`; `sleeps` counts the calls to `time.sleep`.
   */
  method FetchWithRetries(trace: seq<Attempt>) returns (r: Fetch)
    ensures r == Outcome(trace)
  {
    var noTries: nat := 0;
    var sleeps: nat := 0;
    var i := 0;
    while i < |trace|
      invariant i == noTries <= |trace|
      invariant forall j :: 0 <= j < i ==> trace[j] == IoFailure
      invariant sleeps == SleepsAfter(noTries)
    {
      match trace[i]
      case Fetched(doc) =>
        return Got(doc, noTries, sleeps);
      case IoFailure =>
        noTries := noTries + 1;
        i := i + 1;
        if noTries >= MAX_TRIES {
          continue;
        }
        sleeps := sleeps + 1;
    }
    return StillRetrying(noTries, sleeps);
  }

  /** The total time spent sleeping for one URL never exceeds nine sleeps of `SLEEP_TIME`. */
  lemma SleepBounded(trace: seq<Attempt>)
    ensures Outcome(trace).sleeps * SLEEP_TIME <= (MAX_TRIES - 1) * SLEEP_TIME
  {
  }

  /** `n` failed attempts in a row. */
  function Failures(n: nat): (t: seq<Attempt>)
    ensures |t| == n && forall i :: 0 <= i < n ==> t[i] == IoFailure
  {
    if n == 0 then [] else [IoFailure] + Failures(n - 1)
  }

  /**
   * The loop never gives up: after any number of failures, a successful
   * attempt still delivers its page, however far past `MAX_TRIES`.
   */
  lemma {:induction false} NeverGivesUp(n: nat, doc: Document)
    ensures Outcome(Failures(n) + [Fetched(doc)]) == Got(doc, n, SleepsAfter(n))
  {
    FailuresThenSuccess(n, [Fetched(doc)]);
  }

  /** No run of failures, however long, ends the loop. */
  lemma {:induction false} FailuresNeverExit(n: nat)
    ensures Outcome(Failures(n)) == StillRetrying(n, SleepsAfter(n))
  {
    FailuresThenSuccess(n, []);
  }

  lemma {:induction false} FailuresThenSuccess(n: nat, rest: seq<Attempt>)
    requires rest == [] || rest[0].Fetched?
    ensures LeadingFailures(Failures(n) + rest) == n
  {
    if n > 0 {
      assert (Failures(n) + rest)[1..] == Failures(n - 1) + rest;
      FailuresThenSuccess(n - 1, rest);
    } else {
      assert Failures(n) + rest == rest;
    }
  }

  /**
   * Once the loop has a page, later attempts do not matter; while it is
   * still retrying, the next attempt decides.
   */
  lemma {:induction false} OutcomeExtend(trace: seq<Attempt>, a: Attempt)
    ensures Outcome(trace).Got? ==> Outcome(trace + [a]) == Outcome(trace)
    ensures Outcome(trace).StillRetrying? && a.Fetched? ==>
      Outcome(trace + [a]) == Got(a.doc, |trace|, SleepsAfter(|trace|))
    ensures Outcome(trace).StillRetrying? && a.IoFailure? ==>
      Outcome(trace + [a]) == StillRetrying(|trace| + 1, SleepsAfter(|trace| + 1))
  {
    LeadingFailuresExtend(trace, a);
  }

  lemma {:induction false} LeadingFailuresExtend(trace: seq<Attempt>, a: Attempt)
    ensures LeadingFailures(trace) < |trace| ==> LeadingFailures(trace + [a]) == LeadingFailures(trace)
    ensures LeadingFailures(trace) == |trace| ==>
      LeadingFailures(trace + [a]) == if a.Fetched? then |trace| else |trace| + 1
  {
    if trace != [] {
      assert (trace + [a])[1..] == trace[1..] + [a];
      if trace[0].IoFailure? {
        LeadingFailuresExtend(trace[1..], a);
      }
    }
  }
}
