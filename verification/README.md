# Verified models of the bundled libraries and the dashboard packer

This project models, in Dafny, the algorithms that the monitoring client bundles under `zabbig_client/src`, and
one layout algorithm of its provisioning scripts, and proves what they are for.

* **Recurrence rules** (`dateutil/rrule.py`): `Calendar`, `Sequences`, `Listings` and `Rules` say what a rule
  means on the proleptic Gregorian calendar alone. `Masks`, `IterInfo`, `Stepping`, `Products`, `Advance`,
  `Periods`, `Emission` and `Generator` follow the generator: year tables, day sets, filters, time sets,
  BYSETPOS, and the move to the next period for all seven frequencies. `Outcomes` says of a rule how its run
  ends. `Generator.Iter` is the main theorem. `Lookups` tells when the nth-weekday search indexes past its
  table, `Readings` where the generator departs from a plain reading of the parts. `RuleInit` is the constructor,
  and `RuleMeaning` says what its arguments mean, up to the occurrences (`RuleMeaning.Recurrences`). `RuleText` is
  the printer and the parser of rules, and `RuleLines` says what the lines mean, text by text. `RuleSet` is the
  heap-based merge with exclusions, `SharedCache` the cache that several iterators share, and `CachedRules` a rule
  with such a cache.
* **Calendar differences** (`dateutil/relativedelta.py`): `RelativeDelta`, with the inverse law.
* **PostgreSQL arrays** (`pg8000/converters.py`): `Text` and `Arrays`, printer against parser, and
  `ServerArrays`, printer against the reader of the server.
* **Query rewriting** (`pg8000/native.py`): `Statement`, the character machine against a
  construct-level reading, and `QueryGrammar`, that reading against the characters of the query.
* **Wire protocol** (`pg8000/core.py`): `Framing`.
* **Incremental IDNA codec** (`idna/codec.py`): `IdnaCodec`.
* **Smaller ones**: `IntRanges` (`idna/intranges.py`), `Easter` (`dateutil/easter.py`), `Dashboard`
  (`zabbix_update/create_dashboard.py`).

A naive datetime is a number: seconds in the recurrence modules (86400 times the ordinal plus the second of the
day), ordinal and microsecond of the day in `RelativeDelta`. Exceptions are `Option` or outcome values.
`dafny verify dfyconfig.toml` checks everything.

Where the code and its documentation disagree the model follows the code, and a lemma says so:

* plain and numbered BYDAY values together are both required of a day (`rrule.py` lines 835-836), although they
  read as alternatives (`Readings.BothKindsRequired`, `Readings.FirstMondayOrTuesday`);
* the first week of a WEEKLY rule starts on the day of DTSTART, which BYSETPOS positions count from
  (`Readings.FirstWeekIsCut`; exactly when this matters is `Readings.ReadingsAgreeIff`);
* a BYDAY number that is too large for its span can end the run with an IndexError, where an empty result is
  called for: it does when the run reaches a year or month whose lookup fails (`Generator.Iter`,
  `Lookups.FiftyThirdMondayInDecember`), and only such numbers ever do (`Lookups.SmallNumbersNeverStop`);
* `str(rule)` does not always parse back to the rule (`RuleText.RoundTripIff`, `RuleText.ZeroMonthDay`);
* `_iter_cached` keeps its lock when the generator ends or raises: iterators that are under way then can be lost
  (`SharedCache.CanFinishIff`), and after an error all others are (`SharedCache.AfterRaise`), even when iterators
  run one after another (`SharedCache.SerialFinishes`, `CachedRules.CachedFiftyThirdMonday`);
* `array_out` prints the strings `null`, `Null` and so on without quotes, which the server reads as nulls
  (`ServerArrays.ServerRoundTripIff`, `ServerArrays.FalseNull`);
* `$n` in a query is passed the argument that its position, not its number, selects
  (`Statements.DollarGetsItsArgument`, `Statements.SwappedNumbers`);
* the incremental IDNA encoder accepts domains that `encode` refuses for their length (`IdnaCodec.Encode`,
  `IdnaCodec.FourLongLabels`);
* equal members of a list end a run in `intranges_from_list`, so that encoded runs may overlap; lookups are
  right all the same (`IntRanges.Contain`).

## Model

| member | source | states |
|---|---|---|
| `Generator.Iter` | zabbig_client/src/dateutil/rrule.py:776-1030 | For a rule of any of the seven frequencies, BYSETPOS included, the generator run to its end yields exactly the recurrence set, strictly increasing and cut to COUNT, and the rule decides which error, if any, ends it instead: the IndexError exactly when the first selected year or month whose nth-weekday lookup leaves its table is reached before UNTIL or COUNT ends the run, with every occurrence before that period out; the empty-rule error exactly when no step from DTSTART on meets an allowed time, with nothing out; the overflow past 31 December 9999 exactly when a WEEKLY run gets to a day of its last week beyond it, with the whole recurrence set out, or, where BYSETPOS chooses, every occurrence before that week |
| `Rules.RecurrenceSetUnique` | zabbig_client/src/dateutil/rrule.py:776-898 | The declarative recurrence set (calendar filters, period number a multiple of INTERVAL, time set, BYSETPOS, DTSTART, UNTIL, COUNT; section 3.3.10 of RFC 5545) determines the list of occurrences |
| `Generator.Turn` | zabbig_client/src/dateutil/rrule.py:826-1030 | One round and the move to the next period: everything before the new period is out, nothing between the periods was skipped, nothing before it ended the run; otherwise the run has ended as the rule says |
| `Generator.SaturdayAfterTheEnd` | zabbig_client/src/dateutil/rrule.py:863-898 | Running FREQ=WEEKLY;BYDAY=SA from Friday 31 December 9999 raises the overflow with nothing yielded |
| `Generator.EmitPeriod` | zabbig_client/src/dateutil/rrule.py:849-898 | The results of one period extend the output to everything before the period's end exactly when none of them ends the run by COUNT or UNTIL and no late day is reached; otherwise the generator ends there |
| `Generator.MoveYearly` | zabbig_client/src/dateutil/rrule.py:902-907 | The next period is INTERVAL years on and no candidate lies between, or nothing is left in the calendar |
| `Generator.MoveMonthly` | zabbig_client/src/dateutil/rrule.py:908-920 | The same for months, with the divmod normalisation of December |
| `Generator.MoveWeekly` | zabbig_client/src/dateutil/rrule.py:921-927 | The same for weeks: the cursor lands on the week start INTERVAL weeks on |
| `Generator.MoveDaily` | zabbig_client/src/dateutil/rrule.py:928-930 | The same for days |
| `Generator.MoveClock` | zabbig_client/src/dateutil/rrule.py:931-1015 | The same for hours, minutes and seconds, over the searches with their jump; an empty-rule error means that no step, from DTSTART on, was ever allowed |
| `Advance.FixDay` | zabbig_client/src/dateutil/rrule.py:1017-1030 | Rolling a day past its month's end forward never changes the ordinal and ends, or leaves the last year behind |
| `Advance.AdvanceHourly` | zabbig_client/src/dateutil/rrule.py:931-947 | The search stops at the least step that meets an allowed hour and is off the rejected day, with the right carry of days |
| `Advance.AdvanceMinutely` | zabbig_client/src/dateutil/rrule.py:948-978 | The same for minutes; the empty-rule error is raised exactly when no step meets an allowed minute and hour |
| `Advance.AdvanceSecondly` | zabbig_client/src/dateutil/rrule.py:979-1015 | The same for seconds, minutes and hours |
| `Advance.NoneInCycle` | zabbig_client/src/dateutil/rrule.py:955-976 | If interval // gcd steps of a day's dial meet no allowed time, no number of steps ever does |
| `Advance.JumpAhead` | zabbig_client/src/dateutil/rrule.py:932-934 | The jump over a rejected day is a whole number of steps, all of them still on that day, and the next step leaves it |
| `Advance.AfterJump` | zabbig_client/src/dateutil/rrule.py:931-1002 | Jumping and then searching passes over only steps that are not allowed or lie on the rejected day |
| `Periods.GapIsEmpty` | zabbig_client/src/dateutil/rrule.py:900-930 | Between two consecutive selected years, months, weeks or days there is no candidate |
| `Periods.ClockGapIsEmpty` | zabbig_client/src/dateutil/rrule.py:931-1015 | Steps that the sub-daily search passes over hold no candidate, so the search refines stepping interval by interval |
| `Stepping.Reaches` | zabbig_client/src/dateutil/rrule.py:1032-1077 | Every dial position a multiple of gcd(interval, base) away is reached within base steps (Bezout) |
| `Stepping.ReachedKeepsResidue` | zabbig_client/src/dateutil/rrule.py:1032-1077 | Steps never leave the residue class modulo the gcd |
| `Stepping.ConstructByset` | zabbig_client/src/dateutil/rrule.py:1067-1077 | The kept members are those a multiple of the gcd away from the start; keeping none is the ValueError |
| `Stepping.KeptIsReachable` | zabbig_client/src/dateutil/rrule.py:1032-1077 | Kept is the same as reachable by steps, and the ValueError is raised exactly when no step ever reaches a member |
| `Stepping.ModDistance` | zabbig_client/src/dateutil/rrule.py:1079-1109 | The search over the dial returns divmod(value + n * interval, base) for the least n whose remainder is in the set, and fails exactly when no n has one |
| `RuleInit.ConstructBysetKeepsMeaning` | zabbig_client/src/dateutil/rrule.py:625-685 | Dropping unreachable members at the FREQ level leaves the candidates of the rule as they were; when all are dropped there were none |
| `Advance.FitsReaches` | zabbig_client/src/dateutil/rrule.py:1079-1109 | On a set that __construct_byset left non-empty the search always succeeds |
| `Advance.FitsMoves` | zabbig_client/src/dateutil/rrule.py:937-939 | The reachability of a set is kept by every step and turn of the dial |
| `Masks.TablesAreCalendar` | zabbig_client/src/dateutil/rrule.py:34-49 | Every entry of the month, month-day, negative month-day and weekday tables, the seven extra days included, is the calendar's own value |
| `IterInfos.IterInfo.Rebuild` | zabbig_client/src/dateutil/rrule.py:1123-1251 | Rebuilding succeeds exactly when every lookup of the nth-weekday search stays inside the table, and then gives the tables of the year and the marks of the month |
| `IterInfos.IterInfo.MarkNths` | zabbig_client/src/dateutil/rrule.py:1212-1242 | The search fails exactly when a lookup leaves the table; else a day is marked exactly when some span and some (weekday, n) make it the nth of its weekday, counted by sevens |
| `IterInfos.LandingIsNth` | zabbig_client/src/dateutil/rrule.py:1229-1240 | Searching from a lookup inside the table lands on the nth weekday of the span, negative indices that wrap around included |
| `IterInfos.NthAtIsNth` | zabbig_client/src/dateutil/rrule.py:1229-1240 | Counting by sevens is counting the weekdays of the real calendar from the start or the end of the span |
| `IterInfos.MarkedIsNthOk` | zabbig_client/src/dateutil/rrule.py:1212-1242 | A mark is exactly the BYDAY filter of the rule on the calendar |
| `Lookups.LookupFailsIff` | zabbig_client/src/dateutil/rrule.py:1231-1240 | Some year and month of the calendar has a lookup that leaves the table exactly when a BYDAY number is too large: past 55 or below -107 in whole years, past the month's own bound otherwise |
| `Lookups.SmallNumbersNeverStop` | zabbig_client/src/dateutil/rrule.py:1231-1240 | A rule whose BYDAY numbers are small enough never ends in the IndexError |
| `Lookups.AnyMonth` | zabbig_client/src/dateutil/rrule.py:1231-1240 | In a month the numbers from -59 to 7 are safe whatever the month, and no others |
| `Lookups.FiftyThirdMondayInDecember` | zabbig_client/src/dateutil/rrule.py:1231-1240 | Running FREQ=YEARLY;BYMONTH=12;BYDAY=+53MO, whatever its other parts, raises the IndexError with nothing yielded |
| `Readings.BothKindsRequired` | zabbig_client/src/dateutil/rrule.py:832-847 | Every day that passes the code's filters passes the alternatives; the converse fails exactly when plain and numbered BYDAY are both given, the day meets only one of them and it passes the other filters |
| `Readings.FirstMondayOrTuesday` | zabbig_client/src/dateutil/rrule.py:835-836 | FREQ=MONTHLY;BYDAY=TU,+1MO drops a first Monday |
| `Readings.DisjointKindsNeverRecur` | zabbig_client/src/dateutil/rrule.py:835-836 | When no weekday is given both ways such a rule has no occurrence at all |
| `Readings.WholeWeeksAgree` | zabbig_client/src/dateutil/rrule.py:1263-1275 | Taking the first week of a WEEKLY rule as a whole changes no result without BYSETPOS, when DTSTART falls on the week start, or after the first week; `Readings.ReadingsAgreeIff` is the exact condition |
| `Readings.FirstWeekLists` | zabbig_client/src/dateutil/rrule.py:1263-1275 | The candidates of the first week as the generator takes it are those of the whole week without the first few |
| `Readings.ReadingsAgreeIff` | zabbig_client/src/dateutil/rrule.py:1263-1275 | From DTSTART on the generator and the whole-week reading pick the same results exactly when the rule is not WEEKLY, has no BYSETPOS, or every candidate that the first week keeps is chosen from the end, or its position from the start is in BYSETPOS both with and without the candidates cut off, or neither way |
| `Readings.PickedInFirstWeek` | zabbig_client/src/dateutil/rrule.py:850-868 | Which of the candidates that the first week keeps each of the two readings picks, by their positions alone |
| `Readings.FirstWeekUnaffected` | zabbig_client/src/dateutil/rrule.py:1263-1275 | The two agree when no candidate is cut off and when all positions count from the end |
| `Readings.FirstWeekIsCut` | zabbig_client/src/dateutil/rrule.py:1263-1275 | From a Wednesday, FREQ=WEEKLY;BYDAY=MO,WE;BYSETPOS=1 takes that Wednesday, which is not the first of its whole week |
| `IterInfos.IterInfo.DroppedIsFiltered` | zabbig_client/src/dateutil/rrule.py:832-847 | The mask condition drops a table index exactly when the calendar filters reject its day, days of the next year included |
| `IterInfos.IterInfo.FilterDays` | zabbig_client/src/dateutil/rrule.py:831-847 | The filter loop keeps exactly the days that pass, in place, and reports whether it dropped any |
| `IterInfos.IterInfo.YDaySet` | zabbig_client/src/dateutil/rrule.py:1253-1254 | All days of the year, in place |
| `IterInfos.IterInfo.MDaySet` | zabbig_client/src/dateutil/rrule.py:1256-1261 | The days of the month, in place |
| `IterInfos.IterInfo.WDaySet` | zabbig_client/src/dateutil/rrule.py:1263-1276 | The days from the given one to the end of its week, across the year's end |
| `IterInfos.IterInfo.DDaySet` | zabbig_client/src/dateutil/rrule.py:1278-1282 | The one day |
| `Products.BuildTimes` | zabbig_client/src/dateutil/rrule.py:687-698 | The nested loops build, strictly increasing, exactly the times whose hour, minute and second are in the three lists |
| `Emission.GetTimeset` | zabbig_client/src/dateutil/rrule.py:808-822 | The time set of a round is the allowed times of the day, hour, minute or second at hand |
| `Emission.ProductIsPeriod` | zabbig_client/src/dateutil/rrule.py:882-886 | Kept days times time set, in order, are the candidates of the period |
| `Emission.PositionList` | zabbig_client/src/dateutil/rrule.py:850-868 | The BYSETPOS loop, sorted, is exactly the chosen positions of that product, without repetitions |
| `Emission.PickedIsChosen` | zabbig_client/src/dateutil/rrule.py:850-868 | Which is the BYSETPOS filter of the recurrence set |
| `Emission.EmitDays` | zabbig_client/src/dateutil/rrule.py:882-898 | The output loops stop at COUNT and UNTIL exactly where the list of matches does |
| `RuleInit.Construct` | zabbig_client/src/dateutil/rrule.py:428-698 | The constructor's checks, defaults from DTSTART and field normalisation, step by step; what its rule means is said of the arguments by the next rows |
| `RuleMeaning.Recurrences` | zabbig_client/src/dateutil/rrule.py:428-1030 | Building a rule from lawful arguments and iterating it: the arguments are refused exactly in the cases of `RuleMeaning.RefusedIff`, and a run that ends without an error yields exactly what the arguments mean, in order and cut to COUNT: days, times, periods and positions said of the arguments and DTSTART alone |
| `RuleMeaning.MatchesMean` | zabbig_client/src/dateutil/rrule.py:428-898 | The occurrences of the rule that the constructor builds are those that the arguments mean, BYSETPOS, UNTIL and the calendar's end included |
| `RuleMeaning.CandidateMeans` | zabbig_client/src/dateutil/rrule.py:428-698 | The same before BYSETPOS: INTERVAL counts years, months, weeks, days, hours, minutes or seconds from DTSTART, and the members that __construct_byset drops make no difference |
| `RuleMeaning.DaysMean` | zabbig_client/src/dateutil/rrule.py:504-623 | The date filters pass exactly the days whose month, weekday or nth seven days, month day and year day are in the lists given; where no argument names a day, those with the weekday, the month day, or the month day and month of DTSTART for a weekly, monthly or yearly rule, and all days otherwise |
| `RuleMeaning.TimesMean` | zabbig_client/src/dateutil/rrule.py:625-685 | Where INTERVAL selects, the time filters pass exactly the hours, minutes and seconds given; what is not given is DTSTART's below its own frequency and free from it on |
| `RuleMeaning.RefusedIff` | zabbig_client/src/dateutil/rrule.py:487-685 | Lawful arguments raise a ValueError exactly when a BYSETPOS value is zero or beyond 366, or no step of INTERVAL ever meets the list at the level of FREQ |
| `RuleMeaning.StartRecurs` | zabbig_client/src/dateutil/rrule.py:504-517 | A rule that gives no list recurs on DTSTART |
| `RuleMeaning.OriginalKept` | zabbig_client/src/dateutil/rrule.py:455-685 | What is kept for printing: each given list in order without repetitions, month days from the start before those from the end, plain weekdays before numbered ones, and no defaults |
| `RuleInit.InitIsReady` | zabbig_client/src/dateutil/rrule.py:428-698 | From lawful arguments the constructor leaves what the generator needs |
| `RuleInit.RereadIff` | zabbig_client/src/dateutil/rrule.py:476-678 | Constructing again from the original arguments gives the same rule, original lists and re-derived defaults included, exactly when no given list is empty in normal form |
| `RuleText.Str` | zabbig_client/src/dateutil/rrule.py:700-759 | The parts of the RRULE line, in order, each present exactly when it says something; the line in full is `RuleLines.StrInFull` |
| `RuleText.ParseLine` | zabbig_client/src/dateutil/rrule.py:1474-1561 | Reading a line: property name, name=value pairs, the handlers by name, later pairs replacing earlier ones, and every error; what the texts mean is said by the rows of `RuleLines` |
| `RuleLines.WeekdayLines` | zabbig_client/src/dateutil/rrule.py:1471-1532 | FREQ=WEEKLY;BYDAY=MO to SU recur exactly on the weekdays of 1 to 7 September 1997 from DTSTART on, at its time of day |
| `RuleLines.PlainLines` | zabbig_client/src/dateutil/rrule.py:1463-1469 | FREQ=YEARLY to FREQ=SECONDLY alone recur exactly every year, month, 604800, 86400, 3600, 60 or 1 seconds like DTSTART |
| `RuleLines.NumberLines` | zabbig_client/src/dateutil/rrule.py:1475-1493 | INTERVAL, BYMONTH, BYMONTHDAY, BYYEARDAY, BYHOUR, BYMINUTE and BYSECOND with any number, in a daily rule: exactly which moments recur; none for times off the clock |
| `RuleLines.NumberedDayLines` | zabbig_client/src/dateutil/rrule.py:1509-1533 | FREQ=MONTHLY;BYDAY=+1TU and so on recur exactly on that weekday in the n-th seven days of the month, from its end for a negative number |
| `RuleLines.DayForms` | zabbig_client/src/dateutil/rrule.py:1514-1532 | +1TU, 1TU, TU(+1) and TU(1) read alike, for every weekday and number |
| `RuleLines.OtherLines` | zabbig_client/src/dateutil/rrule.py:1475-1493 | COUNT, BYSETPOS, BYWEEKNO and BYEASTER set their arguments |
| `RuleLines.WeekStartLines` | zabbig_client/src/dateutil/rrule.py:1506-1507 | WKST=MO to SU is 0 to 6 |
| `RuleLines.ListLines` | zabbig_client/src/dateutil/rrule.py:1478-1535 | Members of a list are set apart by commas, and BYWEEKDAY is BYDAY |
| `RuleLines.Prefixed` | zabbig_client/src/dateutil/rrule.py:1543-1548 | The property name RRULE and its colon may stand in front |
| `RuleLines.AnyCase` | zabbig_client/src/dateutil/rrule.py:1550-1552 | Names and values may be written in small letters |
| `RuleLines.UpperLetters` | zabbig_client/src/dateutil/rrule.py:1550-1552 | Which letters upper() changes, and into which |
| `RuleLines.StrInFull` | zabbig_client/src/dateutil/rrule.py:700-759 | The printed line is RRULE:FREQ= and the frequency and then, each behind a semicolon and its name and in this order, INTERVAL, WKST, COUNT, BYSETPOS, BYMONTH, BYMONTHDAY, BYYEARDAY, BYWEEKNO, BYDAY, BYHOUR, BYMINUTE, BYSECOND and BYEASTER where they say something |
| `Text.DigitPlaces` | zabbig_client/src/dateutil/rrule.py:703-757 | Printed numbers are decimal: the k-th character from the end is the digit of 10^k, without leading zeros |
| `Text.SignsAre` | zabbig_client/src/dateutil/rrule.py:738-740 | Negative numbers carry a minus sign, weekday numbers a plus or minus sign, and all forms read back |
| `RuleText.LineReads` | zabbig_client/src/dateutil/rrule.py:1537-1561 | Reading a printed line gives back the entries it was printed from |
| `RuleText.DayReads` | zabbig_client/src/dateutil/rrule.py:1509-1535 | A printed BYDAY member, signed number or not, reads back as that weekday |
| `RuleText.RoundTripIff` | zabbig_client/src/dateutil/rrule.py:700-759 | Printing a rule and reading the line back rebuilds it field for field exactly when no list argument is empty and BYMONTHDAY is not all zeros |
| `RuleText.ZeroMonthDay` | zabbig_client/src/dateutil/rrule.py:554-570 | With BYMONTHDAY=0 the round trip does change a yearly rule: before it the date filters pass every day, after it only the month and day of DTSTART |
| `RuleSets.Iter` | zabbig_client/src/dateutil/rrule.py:1383-1413 | Over any number of non-decreasing sources the merge yields, strictly increasing, exactly the dates and rules without the exclusions, and records their number (sections 3.8.5.1 and 3.8.5.2 of RFC 5545) |
| `RuleSets.AdvanceRoot` | zabbig_client/src/dateutil/rrule.py:1325-1333 | Advancing the root and sifting it down, or popping it, removes one value and keeps the heap and all other values |
| `RuleSets.SkipExclusions` | zabbig_client/src/dateutil/rrule.py:1401-1406 | Exclusions below the value at hand are dropped; whether the value is excluded is then decided by the exclusion root |
| `RuleSets.RootIsLeast` | zabbig_client/src/dateutil/rrule.py:1396-1399 | In a heap the root holds the least value still to come |
| `SharedCache.Safety` | zabbig_client/src/dateutil/rrule.py:124-147 | Under every interleaving of any number of iterators, over a generator that returns or raises after its values: the cache and every iterator's output are initial parts of the values, all of them where an iterator has finished; an iterator fails only with the generator's own error, at most one does, and only after the last value; the critical section holds one iterator at most; a complete cache is everything |
| `SharedCache.WaitsForEver` | zabbig_client/src/dateutil/rrule.py:124-147 | Once the generator is used up or has raised, an iterator that waits for the lock waits for ever |
| `SharedCache.CanFinishIff` | zabbig_client/src/dateutil/rrule.py:124-147 | Once the generator is used up or has raised, an iterator can still finish exactly when it was not an error and the iterator no longer holds the generator |
| `SharedCache.SerialFinishes` | zabbig_client/src/dateutil/rrule.py:124-147 | When each iterator starts after the one before has ended, all of them can finish, the last one left to itself, exactly when the generator does not raise |
| `SharedCache.AfterRaise` | zabbig_client/src/dateutil/rrule.py:124-147 | After the generator has raised, an iterator that waits at the lock is stuck, and every other one except the one that got the error reads the whole cache and is then stuck |
| `SharedCache.SecondWaits` | zabbig_client/src/dateutil/rrule.py:124-147 | Whatever a generator yields before it raises, of two iterators one after another the first gets the error, having yielded only the full tens of the values, and the second yields all of them and waits for ever |
| `SharedCache.SomeIteratorCanWait` | zabbig_client/src/dateutil/rrule.py:131-141 | Two iterators over an empty rule are enough to get there |
| `CachedRules.IterateSerially` | zabbig_client/src/dateutil/rrule.py:109-147 | Iterators of a cached rule, one after another, all finish exactly when no error ends the rule's generator, and then over the recurrence set |
| `CachedRules.CachedFiftyThirdMonday` | zabbig_client/src/dateutil/rrule.py:109-147 | With a cache FREQ=YEARLY;BYMONTH=12;BYDAY=+53MO ends the first iterator in the IndexError and leaves the second waiting for ever |
| `RelativeDeltas.DifferenceThenAdd` | zabbig_client/src/dateutil/relativedelta.py:145-169 | dt2 + relativedelta(dt1, dt2) == dt1 for all datetimes |
| `RelativeDeltas.RelativeDelta.Difference` | zabbig_client/src/dateutil/relativedelta.py:145-169 | The months chosen are the extreme number that does not pass dt1, at most one off the plain distance, the rest is exactly the remaining time, and every field is bounded; years and months have the sign of the months chosen or are zero; microseconds are not negative, and days, hours, minutes and seconds have the sign of the remaining time rounded down to whole seconds, or are zero |
| `RelativeDeltas.RelativeDelta.FitForward` | zabbig_client/src/dateutil/relativedelta.py:153-164 | The correction loop for dt1 before dt2 runs at most once and stops at that extreme |
| `RelativeDeltas.RelativeDelta.FitBack` | zabbig_client/src/dateutil/relativedelta.py:153-164 | The same for dt1 at or after dt2 |
| `RelativeDeltas.RelativeDelta.SetMonths` | zabbig_client/src/dateutil/relativedelta.py:272-280 | Months keep what is left of the total, rounding towards zero, and years the carry, both with its sign or zero |
| `RelativeDeltas.RelativeDelta.Fix` | zabbig_client/src/dateutil/relativedelta.py:231-262 | Every field keeps what does not fill the next larger unit, rounding towards zero with the sign that it had when the carry reached it, and passes the rest on; neither total changes |
| `RelativeDeltas.RelativeDelta.Add` | zabbig_client/src/dateutil/relativedelta.py:366-392 | Addition moves by whole months with the day clipped, then by the fixed time, or fails outside the calendar |
| `RelativeDeltas.InMonthMonotone` | zabbig_client/src/dateutil/relativedelta.py:366-379 | Moving to a later month leads to a strictly later time, whatever the clipping |
| `Arrays.StringRoundTrip` | zabbig_client/src/pg8000/converters.py:373-414 | Reading what array_out printed gives the value back for every nested list of arbitrary strings and None (section 8.15.6 of the PostgreSQL documentation) |
| `Arrays.IntRoundTrip` | zabbig_client/src/pg8000/converters.py:473-480 | The same for integer leaves |
| `Arrays.BytesRoundTrip` | zabbig_client/src/pg8000/converters.py:127-132 | The same for bytes leaves, through their doubled backslash |
| `Arrays.RoundTrip` | zabbig_client/src/pg8000/converters.py:373-414 | For any leaf type whose text fits, the four-state parser with its stack undoes the printer |
| `Arrays.ParseArray` | zabbig_client/src/pg8000/converters.py:373-414 | The character loop is the run of the state machine, errors included |
| `Arrays.ArrayStringEscape` | zabbig_client/src/pg8000/converters.py:453-470 | Escapes every backslash and quote, and adds quotes exactly to the empty text, the word NULL and texts with white space, a brace, comma, quote or backslash; any other text is printed as it is |
| `Arrays.ListText` | zabbig_client/src/pg8000/converters.py:473-480 | A list prints as its items' texts, joined by commas in braces |
| `Arrays.BytesShown` | zabbig_client/src/pg8000/converters.py:127-132 | Bytes print in an array as a quote, two backslashes, an x, two hexadecimal digits a byte and a quote |
| `ServerArrays.ServerReads` | zabbig_client/src/pg8000/converters.py:453-480 | The server, which skips white space around unquoted elements and takes NULL in any case for a null (sections 8.15.2 and 8.15.6 of the PostgreSQL documentation), reads every nested list of strings and None as printed, except that the strings null, Null and so on become nulls |
| `ServerArrays.ServerRoundTripIff` | zabbig_client/src/pg8000/converters.py:453-480 | So it reads what was meant exactly when no string is the word NULL in another case |
| `ServerArrays.FalseNull` | zabbig_client/src/pg8000/converters.py:459-468 | A list of one such string prints as the list of one null |
| `Statements.ToStatement` | zabbig_client/src/pg8000/native.py:92-211 | The eight-state character machine computes the statement construct by construct: literals, identifiers, comments, dollar quotes, parameters |
| `QueryGrammar.ReadingIff` | zabbig_client/src/pg8000/native.py:92-186 | A query is taken apart into tokens exactly when its characters make these constructs one after another, each as the next row says |
| `QueryGrammar.ConstructIff` | zabbig_client/src/pg8000/native.py:103-186 | Where each construct ends, on the characters: a literal at a quote that is not doubled, an E literal at a quote that follows no backslash, an identifier at a double quote, a comment at a newline, a dollar quote at a dollar after a dollar, or else at the end of the query; after its first character a name goes on through alphanumerics and underscores and a dollar number through digits, and no further |
| `QueryGrammar.NamesStand` | zabbig_client/src/pg8000/native.py:124-161 | Every name stands outside all quotes and comments behind a colon that neither follows a colon nor precedes a colon or equals sign, and is as long as can be |
| `QueryGrammar.StartsIff` | zabbig_client/src/pg8000/native.py:92-186 | The positions where constructs start are those that pieces of that kind lead to from the beginning |
| `QueryGrammar.SharedNames` | zabbig_client/src/pg8000/native.py:92-211 | Running to_statement and make_vals on ":a_b,:c,:a_b" gives "$1,$2,$1" and the values of a_b and c |
| `Statements.LexIsLossless` | zabbig_client/src/pg8000/native.py:92-186 | Taking the query apart into constructs loses and changes nothing |
| `Statements.StatementMeaning` | zabbig_client/src/pg8000/native.py:92-211 | Without dollar numbers: the text is the query with each name replaced by its number and everything else unchanged, equal names share a number, numbers are contiguous in order of first occurrence, and make_vals passes each name its own argument |
| `Statements.AcceptedIff` | zabbig_client/src/pg8000/native.py:188-193 | A query is accepted exactly when it does not end, outside all quotes, in a colon or in a dollar that follows no dollar, when int reads every dollar number, and when no name is reserved |
| `Statements.OnlyOpenEndsFail` | zabbig_client/src/pg8000/native.py:92-186 | Taking a query apart fails exactly when its last character starts a construct and is such a colon or dollar |
| `Statements.MakeVals` | zabbig_client/src/pg8000/native.py:195-209 | The argument list: one value per placeholder, or the error of a missing one |
| `Statements.DollarGetsItsArgument` | zabbig_client/src/pg8000/native.py:163-209 | In every accepted query with dollar numbers only, which is passed on unchanged: every $n written receives argument n, for all argument lists that suffice, exactly when for every number n written the n-th dollar number exists and is n |
| `Statements.SwappedNumbers` | zabbig_client/src/pg8000/native.py:163-209 | Running to_statement and make_vals on "$2, $1" with two arguments leaves the query as it is and returns the values the wrong way round |
| `IdnaCodec.IncrementalCodec.FeedAll` | zabbig_client/src/idna/codec.py:30-97 | Feeding a text in any chunks, the last call final, converts it as a single final call does: the same output, and failure in the same cases |
| `IdnaCodec.IncrementalCodec.BufferConvert` | zabbig_client/src/idna/codec.py:31-61 | One call converts the completed labels and reports exactly the characters it consumed |
| `IdnaCodec.IncrementalCodec.Feed` | zabbig_client/src/idna/codec.py:30-61 | The buffer keeps exactly what was not consumed |
| `IdnaCodec.TranslateInTwo` | zabbig_client/src/idna/codec.py:31-61 | Translating a text is translating its completed labels and then what was left with the rest |
| `IdnaCodec.SplitAt` | zabbig_client/src/idna/codec.py:7-97 | Labels end exactly at the code points U+002E, U+3002, U+FF0E and U+FF61, each becomes a full stop, and what lies between is translated piece by piece |
| `IdnaCodec.Encode` | zabbig_client/src/idna/core.py:366-402 | The whole-domain encoder agrees with the incremental one except that it also refuses the empty domain and results that are too long |
| `IdnaCodec.LengthLimit` | zabbig_client/src/idna/core.py:64-67 | The limit is 253 characters, and 254 when the domain ends with a separator |
| `IdnaCodec.Decode` | zabbig_client/src/idna/core.py:405-437 | The whole-domain decoder agrees with the incremental one, for text and for bytes, except that it also refuses the empty domain |
| `IdnaCodec.FourLongLabels` | zabbig_client/src/idna/core.py:366-402 | Four labels of 63 characters make a domain that the incremental encoder converts and encode refuses |
| `Framing.DecodeWire` | zabbig_client/src/pg8000/core.py:111-112 | Messages up to the first ReadyForQuery decode to exactly the codes and payloads they were made from, and nothing after them is consumed (section 55.7 of the PostgreSQL 16 documentation) |
| `Framing.MessageBytes` | zabbig_client/src/pg8000/core.py:111-112 | A message is its code, a length that counts itself and the payload, most significant byte first, and the payload |
| `Framing.Connection.HandleMessages` | zabbig_client/src/pg8000/core.py:838-847 | For every pattern of short reads the loop dispatches what the whole stream decodes to and consumes no more |
| `Framing.ReadExactly` | zabbig_client/src/pg8000/core.py:152-163 | However short the reads are, the result is the next bytes asked for, or a network error when the stream ends before |
| `Framing.Connection.SendMessage` | zabbig_client/src/pg8000/core.py:767-779 | Code, length and payload are written, or nothing when the length does not fit its field |
| `Framing.Connection.SendBind` | zabbig_client/src/pg8000/core.py:781-798 | The Bind message with its count and values, NULLs as length -1, followed by Flush, or nothing on a struct error |
| `Framing.BindBytes` | zabbig_client/src/pg8000/core.py:781-798 | The Bind payload byte by byte: a zero byte, the name, two zero bytes, the count in two bytes, the values, two zero bytes |
| `Framing.OneValue` | zabbig_client/src/pg8000/core.py:788-794 | A value is its length in four bytes and its bytes; NULL is four bytes 255 |
| `Framing.FlushBytes` | zabbig_client/src/pg8000/core.py:99-115 | The Flush message is the bytes 72, 0, 0, 0, 4, and the code of Bind is 66 |
| `Framing.Context.HandleDataRow` | zabbig_client/src/pg8000/core.py:824-836 | The row read from a payload column by column, each value through its input function |
| `Framing.BindThenDataRow` | zabbig_client/src/pg8000/core.py:781-836 | The values of a Bind message read as a row are the original parameters, NULLs included |
| `Framing.IUnpackPack` | zabbig_client/src/pg8000/core.py:28-33 | The big-endian length field reads back every 32-bit integer, at any place in a buffer |
| `Framing.FourDigits` | zabbig_client/src/pg8000/core.py:28-33 | The four bytes weigh 2^24, 2^16, 2^8 and 1, and a negative number stands for 2^32 more |
| `IntRanges.FromList` | zabbig_client/src/idna/intranges.py:12-31 | The ranges represent exactly the members of the list, duplicates or not, and are sorted |
| `IntRanges.Packing` | zabbig_client/src/idna/intranges.py:34-39 | The start stands above the lower 32 bits, which hold the end |
| `IntRanges.Contain` | zabbig_client/src/idna/intranges.py:42-57 | Membership is decided exactly, for every integer, by the two neighbours of the bisection point |
| `IntRanges.BisectLeft` | zabbig_client/src/idna/intranges.py:44-45 | The insertion point splits the sorted list |
| `IntRanges.NeighboursDecide` | zabbig_client/src/idna/intranges.py:44-57 | Of ordered runs that may touch or overlap in one member only these two can hold the integer |
| `Easter.WesternEaster` | zabbig_client/src/dateutil/easter.py:77-89 | For every year from 1 the Western date is valid, a Sunday, between 22 March and 25 April, and the first Sunday after the Paschal full moon |
| `Easter.WesternMoonIs` | zabbig_client/src/dateutil/easter.py:77-82 | For every year from 1 that full moon is the one of the 19-year cycle: 15 days after 21 March in its first year, 11 days earlier modulo 30 every year after, corrected by one day for every century year that is no leap year and by eight days in 2500 years for the moon, with the thirtieth day, and in the last eight years of the cycle the twenty-ninth, moved to the day before |
| `Easter.JulianEaster` | zabbig_client/src/dateutil/easter.py:68-72 | The Julian date is, in the Julian calendar, the first Sunday after the full moon of the uncorrected cycle |
| `Easter.OrthodoxIsJulian` | zabbig_client/src/dateutil/easter.py:68-76 | From 1500 to 4999 the Orthodox date names, in the Gregorian calendar, the very day of the Julian method, and it is a Sunday |
| `Easter.OrthodoxIsRightIff` | zabbig_client/src/dateutil/easter.py:68-89 | Whenever the offset is one that the date formula counts, at most 63, the Orthodox date is the Julian method's day exactly from the year 1500 on |
| `Easter.FormulaCountsDays` | zabbig_client/src/dateutil/easter.py:84-89 | The month and day formula is 28 March plus p days for every p from -6 to 63 |
| `Easter.FormulaEnds` | zabbig_client/src/dateutil/easter.py:84-89 | It fails on the day after |
| `Dashboard.BuildPage` | zabbix_update/create_dashboard.py:181-220 | Every widget of a known type is placed once, in order, in rows inside the 24 columns; with no unknown type each one stands right of the one before if it fits and else starts the first free row |
| `Dashboard.DefaultPage` | zabbix_update/create_dashboard.py:181-220 | Five widgets without sizes, one of each type first, fill a row of four from column 0 to 24 and start the next row, with the types' Zabbix names |
| `Dashboard.RowsDoNotOverlap` | zabbix_update/create_dashboard.py:181-220 | Widgets placed in rows share no cell |
| `Calendar.DateRoundTrip` | zabbig_client/src/dateutil/rrule.py:863-865 | fromordinal undoes toordinal |
| `Calendar.OrdinalRoundTrip` | zabbig_client/src/dateutil/rrule.py:863-865 | toordinal undoes fromordinal |
| `Calendar.WeekdaysInIs` | zabbig_client/src/dateutil/rrule.py:1229-1240 | The number of days of a weekday in a stretch of days, in closed form |

## Left out

- BYWEEKNO and BYEASTER filters of the generator: the week mask counts the last week of the year before with the wrong year's length, and Easter offsets can wrap around the mask. The constructor and the printer carry both arguments.
- RuleMeaning.Recurrences: BYWEEKNO and BYEASTER keep DTSTART's day from being the default, as in the constructor, and filter nothing; arguments are lawful ones.
- Time zones, `tzinfo`, and UNTIL and DTSTART as text: UNTIL is a parameter of the generator; the reader of rules has no UNTIL part, and the printer model prints no UNTIL and no DTSTART line.
- Generator.Iter: arguments outside the values of the RFC (an interval below 1, BYMONTH outside 1 to 12, times outside the clock) are not covered.
- RuleText.ParseLine: `int()` accepts surrounding blanks and underscores, and `upper()` maps letters beyond ASCII; the model reads an optional sign and decimal digits and maps ASCII letters.
- RuleText.RoundTripIff: weekdays are MO to SU, as the documentation asks; integers outside 0 to 6 print as another day or not at all. The default week start is Monday.
- Generator objects are run to their end: `Generator.Iter` and `RuleSets.Iter` return the list that is yielded. The sources of a rule set are finite lists.
- `heapq` is a textbook binary heap (sift down); the branch of `_genitem.__next__` for an item that is not the root cannot be reached from `_iter` and is not modelled.
- SharedCache.Safety: the generator and the steps of the iterators are atomic as the interpreter makes them; `_invalidate_cache` during iteration is left out.
- The absolute fields, `leapdays` and `weekday` of `relativedelta.__add__`, its `__mul__`, `normalized` and non-integer arguments: the difference branch sets none of them.
- RelativeDeltas.RelativeDelta.Add: `assert 1 <= abs(self.months) <= 12` is a precondition, which `_fix` and `_set_months` establish.
- `array_out` on bool, float, datetime and composite leaves: bools print and parse differently, and composites drop empty fields.
- `_parse_array` appends inner lists to their parents at once and fills them later through aliases; the model keeps the open lists on the stack and appends each when it closes, which reads the same.
- Queries that mix `$n` with `:name`: what `Statements.StatementMeaning` and `Statements.DollarGetsItsArgument` say covers each kind alone; the machine itself and `Statements.AcceptedIff` are proved for all queries. Character classes are parameters.
- ServerArrays.ServerReads: backslashes in unquoted elements, which the server unescapes, and array dimensions are not read; `array_out` prints neither for strings.
- IdnaCodec.Encode: `strict=True` and UTS 46 are left out, also of `IdnaCodec.Decode`.
- `alabel` and `ulabel`, Punycode and the IDNA tables: they are a parameter that refuses the empty label.
- Framing.Connection.HandleMessages: handlers are a log of what was dispatched; the error that a handler leaves in the context is not raised at the end. Text encoding is part of the parameters and input functions.
- Framing.Context.HandleDataRow: a value length below -1 in a row, which no server sends, is an error in the model, where the code would slice backwards.
- IntRanges.FromList: members are from 0 to 2^32 - 2, as the packing into one integer asks.
- Easter.OrthodoxIsRightIff: from the year 5000 on the offset can pass 63, where the date formula no longer counts days; those years are not covered.
- Dashboard.BuildPage: sizes are positive; the payload fields of widgets and the lookups behind them are not modelled.
- HTTP, sockets, TLS, authentication, COPY, YAML, logging and argument parsing, and the data tables of idna and charset_normalizer, which hold no algorithm to prove.
