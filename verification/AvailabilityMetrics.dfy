/**
 Availability counters (clusterloader2/pkg/measurement/common/api_availability_metrics.go).

 Four counters are updated probe by probe; they are proved to be functions of the whole probe history.
 */
module AvailabilityMetrics {
  import opened Common

  /** Probes i up to j all failed. */
  ghost predicate FailedRun(history: seq<bool>, i: nat, j: nat) {
    i <= j <= |history| && forall k :: i <= k < j ==> !history[k]
  }

  /** `n` is the length of the longest run of failed probes. */
  ghost predicate IsLongestFailure(history: seq<bool>, n: nat) {
    && (exists i: nat, j: nat :: FailedRun(history, i, j) && j - i == n)
    && (forall i: nat, j: nat :: FailedRun(history, i, j) ==> j - i <= n)
  }

  /** The last `n` probes failed, and the one before them did not. */
  ghost predicate IsTrailingFailure(history: seq<bool>, n: nat) {
    n <= |history| && FailedRun(history, |history| - n, |history|) && (n < |history| ==> history[|history| - n - 1])
  }

  ghost function Successes(history: seq<bool>): nat {
    if history == [] then 0
    else Successes(history[..|history| - 1]) + if history[|history| - 1] then 1 else 0
  }

  lemma {:induction false} SuccessesBound(history: seq<bool>)
    ensures Successes(history) <= |history|
    ensures Successes(history) == |history| <==> forall k :: 0 <= k < |history| ==> history[k]
  {
    if history != [] {
      SuccessesBound(history[..|history| - 1]);
    }
  }

  lemma {:induction false} SuccessesAreCounted(history: seq<bool>)
    ensures Successes(history) == multiset(history)[true]
  {
    if history != [] {
      SuccessesAreCounted(history[..|history| - 1]);
      assert history == history[..|history| - 1] + [history[|history| - 1]];
    }
  }

  lemma SuccessEndsRun(history: seq<bool>, longest: nat)
    requires IsLongestFailure(history, longest)
    ensures IsLongestFailure(history + [true], longest) && IsTrailingFailure(history + [true], 0)
  {
    var longer := history + [true];
    var i: nat, j: nat :| FailedRun(history, i, j) && j - i == longest;
    assert FailedRun(longer, i, j);
    assert longer[|history|];
    forall i: nat, j: nat | FailedRun(longer, i, j) ensures j - i <= longest {
      if j <= |history| {
        assert forall k :: i <= k < j ==> longer[k] == history[k];
        assert FailedRun(history, i, j);
      }
    }
  }

  lemma FailureExtendsRun(history: seq<bool>, longest: nat, trailing: nat)
    requires IsLongestFailure(history, longest) && IsTrailingFailure(history, trailing)
    ensures IsTrailingFailure(history + [false], trailing + 1)
    ensures IsLongestFailure(history + [false], if trailing + 1 > longest then trailing + 1 else longest)
  {
    var longer := history + [false];
    var longest' := if trailing + 1 > longest then trailing + 1 else longest;
    assert FailedRun(longer, |history| - trailing, |longer|);
    var i: nat, j: nat :| FailedRun(history, i, j) && j - i == longest;
    assert FailedRun(longer, i, j);
    assert trailing < |history| ==> longer[|history| - trailing - 1];
    forall i: nat, j: nat | FailedRun(longer, i, j) ensures j - i <= longest' {
      if j <= |history| {
        assert forall k :: i <= k < j ==> longer[k] == history[k];
        assert FailedRun(history, i, j);
      }
    }
  }

  function Ratio(part: int, total: int): real
    requires total > 0
  {
    part as real / total as real
  }

  function Lasting(n: int, duration: int): int {
    n * duration
  }

  lemma EmptyRatio()
    ensures Successes([]) == 0
  {
  }

  lemma RatioBounds(part: int, total: int)
    requires 0 <= part <= total && total > 0
    ensures 0.0 <= Ratio(part, total) <= 1.0
    ensures Ratio(part, total) == 1.0 <==> part == total
  {
    var ratio := Ratio(part, total);
    assert ratio * total as real == part as real;
    CancelScale(0.0, ratio, total as real);
    CancelScale(ratio, 1.0, total as real);
    CancelScale(1.0, ratio, total as real);
  }

  /**
   What is reported about a history: the percentage of successful probes, 100 when there was none, and a
   period that covers the longest outage.
   */
  ghost predicate Summarises(history: seq<bool>, pollFrequency: int, percentage: real, period: int) {
    && percentage == (if history == [] then 100.0 else Ratio(Successes(history), |history|) * 100.0)
    && exists n: nat :: IsLongestFailure(history, n) && period == Lasting(n, pollFrequency)
  }

  /** The percentage is a hundred times the successes for each probe, and the period as many poll intervals as the
      longest outage has probes. */
  lemma SummaryMeans(history: seq<bool>, pollFrequency: int, percentage: real, period: int)
    requires Summarises(history, pollFrequency, percentage, period)
    ensures percentage * |history| as real == 100.0 * multiset(history)[true] as real || history == []
    ensures history == [] ==> percentage == 100.0
    ensures exists n: nat :: IsLongestFailure(history, n) && period == n * pollFrequency
  {
    hide IsLongestFailure, Successes, Ratio, Lasting;
    SuccessesAreCounted(history);
    var n: nat :| IsLongestFailure(history, n) && period == Lasting(n, pollFrequency);
    LastingIs(n, pollFrequency);
    if history != [] {
      RatioIs(Successes(history), |history|);
    }
  }

  lemma LastingIs(n: int, duration: int)
    ensures Lasting(n, duration) == n * duration
  {
  }

  lemma RatioIs(part: int, total: int)
    requires total > 0
    ensures Ratio(part, total) * 100.0 * total as real == 100.0 * part as real
  {
    var ratio, t := Ratio(part, total), total as real;
    assert ratio * t == part as real;
    hide Ratio;
    assert ratio * 100.0 * t == 100.0 * (ratio * t);
  }

  /** The history determines the report. */
  lemma SummaryIsUnique(history: seq<bool>, pollFrequency: int, percentage: real, period: int, percentage': real,
                        period': int)
    requires Summarises(history, pollFrequency, percentage, period)
    requires Summarises(history, pollFrequency, percentage', period')
    ensures percentage == percentage' && period == period'
  {
    var n: nat :| IsLongestFailure(history, n) && period == Lasting(n, pollFrequency);
    var n': nat :| IsLongestFailure(history, n') && period' == Lasting(n', pollFrequency);
    LongestIsUnique(history, n, n');
  }

  class Metrics {
    var numSuccesses: int
    var numFailures: int
    var maxConsecutiveFailedProbes: int
    var consecutiveFailedProbes: int
    ghost var history: seq<bool>

    ghost predicate Valid()
      reads this
    {
      && numSuccesses == Successes(history)
      && numSuccesses + numFailures == |history|
      && maxConsecutiveFailedProbes >= 0 && IsLongestFailure(history, maxConsecutiveFailedProbes)
      && consecutiveFailedProbes >= 0 && IsTrailingFailure(history, consecutiveFailedProbes)
    }

    constructor ()
      ensures Valid() && history == []
    {
      numSuccesses, numFailures, maxConsecutiveFailedProbes, consecutiveFailedProbes := 0, 0, 0, 0;
      history := [];
      new;
      assert FailedRun(history, 0, 0);
    }

    method Update(availability: bool)
      requires Valid()
      modifies this
      ensures Valid() && history == old(history) + [availability]
    {
      ghost var before := history;
      history := history + [availability];
      assert history[..|history| - 1] == before;
      if availability {
        SuccessEndsRun(before, maxConsecutiveFailedProbes);
        numSuccesses := numSuccesses + 1;
        consecutiveFailedProbes := 0;
        return;
      }
      FailureExtendsRun(before, maxConsecutiveFailedProbes, consecutiveFailedProbes);
      numFailures := numFailures + 1;
      consecutiveFailedProbes := consecutiveFailedProbes + 1;
      if consecutiveFailedProbes > maxConsecutiveFailedProbes {
        maxConsecutiveFailedProbes := consecutiveFailedProbes;
      }
    }

    /** The reported percentage is that of successful probes, 100 for an empty history, and 100
        otherwise only when no probe failed.  The reported period covers the longest outage. */
    method BuildSummary(pollFrequency: int) returns (availabilityPercentage: real, longestUnavailablePeriod: int)
      requires Valid()
      ensures 0.0 <= availabilityPercentage <= 100.0
      ensures availabilityPercentage == 100.0 <==> forall k :: 0 <= k < |history| ==> history[k]
      ensures Summarises(history, pollFrequency, availabilityPercentage, longestUnavailablePeriod)
    {
      hide IsLongestFailure, IsTrailingFailure, Ratio, Lasting;
      SuccessesBound(history);
      availabilityPercentage := 100.0;
      EmptyRatio();
      if numSuccesses > 0 || numFailures > 0 {
        availabilityPercentage := Ratio(numSuccesses, numSuccesses + numFailures) * 100.0;
        RatioBounds(numSuccesses, numSuccesses + numFailures);
      }
      longestUnavailablePeriod := Lasting(maxConsecutiveFailedProbes, pollFrequency);
    }
  }

  lemma LongestIsUnique(history: seq<bool>, m: nat, n: nat)
    requires IsLongestFailure(history, m) && IsLongestFailure(history, n)
    ensures m == n
  {
  }
}
