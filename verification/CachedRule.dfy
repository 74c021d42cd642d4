/** A rule with a cache: the generator of rrule._iter under rrulebase._iter_cached. */
module CachedRules {
  import opened Rules
  import opened Emission
  import opened Outcomes
  import Generator
  import Lookups
  import SharedCache

  /** The rule ends its generator with an error. */
  ghost predicate EndsInError(r: Rule)
    requires Ready(r)
  {
    MeetsBadLookup(r) || NeverAllowed(r) || Overshoots(r)
  }

  /** What the cache gets from the generator of a rule. */
  method RuleSource(r: Rule) returns (g: SharedCache.Source<int>)
    requires Ready(r)
    ensures g.raises <==> EndsInError(r)
    ensures if g.raises then IsInitialPart(r, g.values) else IsRecurrenceSet(r, g.values)
  {
    var out, outcome := Generator.Iter(r);
    g := SharedCache.Source(out, !outcome.Finished?);
  }

  /** Iterating a cached rule one iterator after another: all of them finish, each with the whole recurrence set,
      exactly when the rule does not end its generator with an error. */
  method IterateSerially(r: Rule) returns (g: SharedCache.Source<int>)
    requires Ready(r)
    ensures !EndsInError(r) ==> IsRecurrenceSet(r, g.values)
    ensures forall schedule :: SharedCache.Serial(g, schedule) && SharedCache.Run(g, schedule).iters != [] ==>
              ((exists n :: SharedCache.FinishedByTurns(g, schedule, n)) <==> !EndsInError(r))
  {
    g := RuleSource(r);
    forall schedule | SharedCache.Serial(g, schedule) && SharedCache.Run(g, schedule).iters != []
      ensures (exists n :: SharedCache.FinishedByTurns(g, schedule, n)) <==> !EndsInError(r)
    {
      SharedCache.SerialFinishes(g, schedule);
    }
  }

  /** The fifty-third Monday in December with a cache: the first iterator ends in the IndexError, and the second,
      started afterwards, waits for ever. */
  method CachedFiftyThirdMonday(r: Rule) returns (g: SharedCache.Source<int>)
    requires Ready(r) && r.freq == YEARLY && r.bymonth == [12] && r.bynweekday == [(0, 53)]
    ensures g == SharedCache.Source([], true) && exists schedule :: SharedCache.SecondLost(g, schedule)
  {
    var out, outcome := Lookups.FiftyThirdMondayInDecember(r);
    g := SharedCache.Source(out, !outcome.Finished?);
    SharedCache.SecondWaits(g);
  }
}
