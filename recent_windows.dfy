/** The recent-window reads with their interval as written and as evidently
    intended. As written, each read quotes its named parameter inside the
    interval literal, so the read fails whatever the argument; with the
    parameter bound outside the quotes, each read lists the window that
    ContextQueries.Recent, ContextQueries.RecentRows and KbQueries.Recent
    describe. */
module RecentWindows {
  import opened Wrappers
  import opened Store
  import Interval
  import ContextQueries
  import KbQueries

  /** findRecentContexts as written fails for every number of days. */
  lemma ContextsAsWrittenFail(t: Tables, now: Instant, days: int)
    ensures ContextQueries.RecentUnder(t, now, Interval.DaysAsWritten, days) == Failure(Interval.InvalidInterval)
  {
    Interval.AsWrittenFails(days);
  }

  /** With the interval evidently meant, findRecentContexts reads
      ContextQueries.Recent. */
  lemma ContextsAsIntended(t: Tables, now: Instant, days: int)
    ensures ContextQueries.RecentUnder(t, now, Interval.DaysIntended, days) == Success(ContextQueries.Recent(t, now, days))
  {
    Interval.IntendedSeconds(days);
  }

  /** findRecentSimilarWithScore as written fails for every number of days. */
  lemma CandidatesAsWrittenFail(t: Tables, now: Instant, days: int)
    ensures ContextQueries.RecentRowsUnder(t, now, Interval.DaysAsWritten, days) == Failure(Interval.InvalidInterval)
  {
    Interval.AsWrittenFails(days);
  }

  /** With the interval evidently meant, the candidates of
      findRecentSimilarWithScore are ContextQueries.RecentRows. */
  lemma CandidatesAsIntended(t: Tables, now: Instant, days: int)
    ensures ContextQueries.RecentRowsUnder(t, now, Interval.DaysIntended, days)
         == Success(ContextQueries.RecentRows(t, now, days))
  {
    Interval.IntendedSeconds(days);
  }

  /** findRecent on knowledge bases as written fails for every number of
      hours. */
  lemma KbsAsWrittenFail(t: Tables, now: Instant, hours: int)
    ensures KbQueries.RecentUnder(t, now, Interval.HoursAsWritten, hours) == Failure(Interval.InvalidInterval)
  {
    Interval.AsWrittenFails(hours);
  }

  /** With the interval evidently meant, findRecent reads KbQueries.Recent. */
  lemma KbsAsIntended(t: Tables, now: Instant, hours: int)
    ensures KbQueries.RecentUnder(t, now, Interval.HoursIntended, hours) == Success(KbQueries.Recent(t, now, hours))
  {
    Interval.IntendedSeconds(hours);
  }
}
