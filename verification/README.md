# WinKit, modelled and proved in Dafny

WinKit is a Windows diagnostics server: most of it asks the operating system for facts. Under that lie a
few components that decide things by themselves, and this project models them and proves what they
promise, for all inputs and all runs:

- calendar arithmetic and RFC 3339 timestamps, and the shutdown timeline that compares timestamps as text
  (`Calendar`, `Timestamps`, `EventStamps`, `Shutdowns`);
- the wildcard matcher, the two budgeted directory walks, and the bounded text reader
  (`Glob`, `Trees`, `Walks`, `TreeSizes`, `TextSlices`);
- the sampler that takes measurements against a deadline, and the verdict on what it collected
  (`Sampler`, `Trends`);
- the installer: merging into configuration documents, writing them with a backup, the run over all agents,
  and replacing a skill directory (`Documents`, `Paths`, `ConfigFiles`, `InstallRuns`, `DirCopies`, `SkillDirs`,
  `SkillRuns`);
- the scores, the ranked diagnosis and the health report that must agree with it
  (`Scores`, `Diagnosis`, `HealthReports`);
- local URLs and redirects (`LocalUrls`, `Redirects`).

`Wrappers`, `Bytes`, `Numbers`, `Text`, `Sorting` and `Lists` hold what they share.
`dafny verify dfyconfig.toml` checks everything.

Code that changes things step by step is modelled by methods with loops and by classes whose fields are
updated in place; each such method is proved equal to a specification function or to an outright
postcondition, and the lemmas are about those. Disks are classes whose every call may fail, look-ups such
as `exists`, `is_dir` and `symlink_metadata` included: a disk carries a predicate `fails`, any predicate on
calls and paths, with one call for each place in the code that asks the operating system something. So
"which calls fail" is an input, and conditions on it can be stated before a run. What a failed write
leaves behind, the order in which a directory is removed, and the answers at the prompt are free choices.
A ghost `trace` holds every state a disk passes through, emptied and torn files included, so that "at
every step" is a statement about all elements of the trace.

## How the model reads the source

- Machine integers: `civil_from_days` and `days_from_civil` are proved on all integers, with the 32-bit
  steps of the latter written out as remainders. The release profile turns overflow checks off
  (Cargo.toml:92), so 64-bit products wrap; `Timestamps.FiletimeRoundTrip` says exactly when that matters.
- `f64` is `real`; `sqrt` followed by a cut to an integer is an integer square root.
- The clock, the measurements, the answers at the prompt and the outcome of every file operation and
  look-up are inputs or free choices. `Path::exists` and `Path::is_dir` answer false also when the look-up
  fails, as in the source; a failed `symlink_metadata` is taken for a link, as in the source.
- A symbolic link has the place it finally leads to, if any, and shows what is read through it. Opening a
  file for writing follows every link on the way (`DirCopies.Land`), as `fs::copy` does; whether a directory
  can be made through a link is a free choice.
- That an original is lost is claimed only where the loss can be told: the file was not empty, and the
  backup's place did not hold the same bytes by chance (`ConfigFiles.Telling`, `SkillDirs.Telling`). That
  it survives is claimed for all.
- Strings are sequences of characters; the wildcard matcher works on bytes, as the source does.
- The set of IP literals that count as loopback, the hash of a directory and the lower-casing of file
  names are parameters.

Where the code and its comments disagree, the model follows the code:

- the timestamp parser says it accepts "that exact shape" only (src/utils/time.rs:68-70) but reads any digit
  counts, ranges and fractions (`Timestamps.FractionIsIgnored`, `Timestamps.FieldsAreUnchecked`);
- the wildcard matcher says an empty pattern matches nothing (src/utils/filesys.rs:114-116); it matches the
  empty name. Names that contain `*` are not decided by the pattern language at all
  (`Glob.DecidedNames`);
- a tail read is said to start just after a newline (src/utils/filesys.rs:335-337);
  `TextSlices.TailStartsALine` gives the exact condition under which it does, and a window
  that happens to start at a line loses that line;
- `host_header` is said to hold the port only when it is not the default (src/utils/url.rs:43-44); it holds
  the port whenever one was written;
- string order is time order only up to the end of the year 9999 (`Timestamps.OrderHorizon`). The times of
  events are not printed by the program but copied from the event (src/platform/windows/events.rs:339), with
  whatever fraction they carry there; compared as text they are in time order exactly when no two stamps of
  one second have one fraction that continues the other (`EventStamps.TextAgreesUnlessClash`). Exactly the sets
  of stamps without such a pair are answered rightly by the shutdown summary, whatever the log
  (`Shutdowns.StampsDecide`, `Shutdowns.ClashMisleads`);
- the sampler is said never to fall further behind its schedule than a measurement takes
  (src/tools/workflows.rs:2048-2051). Slow measurements add up: `Sampler.LatenessIsWorstExcess` says by how much,
  `Sampler.NoFurtherBehind` when the claim holds, and `Sampler.FallsFurtherBehind` is a run in which it does not;
- the test for the mapped loopback address at the end of the loopback check (src/utils/url.rs:236) is never
  reached with that address, which parses as an address and is not a loopback one (src/utils/url.rs:233-235);
- the merge of a relative redirect is called that of RFC 3986 (src/utils/url.rs:274-275). It is one exactly
  when no `/` stands in a fragment of the base and the location has a path, or the base ends so that it
  makes no difference (`Redirects.RelativeIsRfc`, `Redirects.FragmentMisleads`);
- the backup of a config file is called the guarantee that the original is never lost (src/cli.rs:2085-2086).
  It is made only if the file is seen: when that one look-up fails, the file is written over without a
  backup (`ConfigFiles.WriteWithRestore`, `ConfigFiles.OneFailedLookUp`). `init --write` and the whole
  installation inherit this (`ConfigFiles.InitWrite`, `InstallRuns.InstallRun`);
- a battery or a Wi-Fi signal exactly at its threshold is described as flagged
  (src/diagnostics/system.rs:873, 915) but scores 0 (`Scores.BatteryFlagged`, `Scores.WifiFlagged`);
- the backup of a skill directory is called a proof of completeness (src/cli.rs:1605-1607, 1723-1725). The
  original is recoverable at every step unless the destination is cleared while the backup passed over a
  file, or the look-up before the backup fails and the copy writes over a file, through a link perhaps. When
  nothing but such look-ups goes wrong, `SkillDirs.InstallSkillDir` tells from them before the run whether
  it is: the first kind of loss takes failed look-ups that leave both counts and both totals equal. Runs
  of each kind that report success are `SkillRuns.TwiceOverlooked`, `SkillRuns.BlindLoss` and
  `SkillRuns.LinkedLoss`; in the last the file written over may also lie beside the destination, which no
  run that sees the destination touches;
- what a copy passes over, the comparison before it reads (src/cli.rs:1578-1582, 1653-1659): a source that
  shows more than is copied is never found up to date and is replaced again by every run
  (`SkillDirs.MirroredIsUpToDate`, `SkillDirs.NextRunIsQuiet`);
- a redirect to a location such as `mailto:x` has a scheme of its own and leads elsewhere by section 5.2.2 of
  RFC 3986; the code takes it for a path (src/utils/url.rs:255-292, `Redirects.RedirectIsRfc`).

## Model

| member | source | states |
|---|---|---|
| Calendar.CivilStepsByCalendar | src/utils/time.rs:55-66 | the closed form steps from every day, before or after the epoch, to the next day of the Gregorian calendar: leap years and month lengths as in the calendar |
| Calendar.EpochDate | src/utils/time.rs:55-66 | day 0 is 1970-01-01 |
| Calendar.CivilIsTheCalendar | src/utils/time.rs:55-66 | for every n the closed form is the date reached by stepping n days from the epoch |
| Calendar.EraYearHolds | src/utils/time.rs:59 | the divisions by 1460, 36524 and 146096 find the year of the era that contains the day, for every day of an era |
| Calendar.MonthHolds | src/utils/time.rs:61-64 | the quotients of 153 find the month that contains the day of the year |
| Calendar.DaysInvertCivil | src/utils/time.rs:55-66 | every day number comes back from its date, and the date is valid |
| Calendar.CivilInvertsDays | src/utils/time.rs:89-97 | every valid date comes back from its day number |
| Calendar.DaysKeepOrder | src/utils/time.rs:89-97 | earlier dates are exactly those with smaller day numbers |
| Timestamps.ParseInvertsFormat | src/utils/time.rs:44-53 | parsing what was printed gives the whole seconds since the epoch, at string level, years of five digits and more included |
| Timestamps.FractionIsIgnored | src/utils/time.rs:71-85 | what stands after the first point of the clock text is ignored, whatever the date and the clock text are |
| Timestamps.FieldsAreUnchecked | src/utils/time.rs:71-97 | however wild the fields and whatever the fraction, the parser computes the same field arithmetic: no calendar check |
| Timestamps.FiletimeRoundTrip | src/utils/time.rs:21-36 | a FILETIME before 1970 has no text; otherwise its text parses to ticks/10^7 - 11644473600 if and only if the 64-bit nanoseconds did not wrap |
| Timestamps.FormatKeepsOrder | src/utils/time.rs:44-53 | up to the end of year 9999, lexicographic order of timestamps is time order at millisecond precision, and equal text is equal time |
| Timestamps.OrderHorizon | src/utils/time.rs:44-53 | string order agrees with time order on all instants below a horizon if and only if the horizon is not after year 10000 |
| Timestamps.YearTenThousandSortsFirst | src/utils/time.rs:52 | a concrete pair past the horizon on which the orders disagree |
| EventStamps.StampOrder | src/platform/windows/events.rs:339 | text order of two stamps up to year 9999, with any number of fraction digits: first by second, then by the text of the fractions |
| EventStamps.TextAgreesUnlessClash | src/platform/windows/events.rs:339 | text order is time order on two stamps if and only if they are not of one second with one fraction continuing the other |
| EventStamps.CommonWidth | src/platform/windows/events.rs:339 | stamps with equally many fraction digits never clash |
| EventStamps.LongerSortsFirst | src/platform/windows/events.rs:339 | of two clashing stamps the one with more digits sorts first, though it is never the earlier instant |
| Shutdowns.Retain | src/tools/stability.rs:464-465 | the in-place retain with its set of seen ids leaves the first entry of each record id and every entry without one |
| Shutdowns.KeptExactly | src/tools/stability.rs:229-230 | an entry is kept exactly when it has a place where its id was not seen before |
| Shutdowns.EveryIdKept | src/tools/stability.rs:229-230 | every entry has a kept representative: itself or one with the same record id |
| Shutdowns.OnePerId | src/tools/stability.rs:229-230 | no record id is kept twice |
| Shutdowns.LastShutdownIsNewest | src/tools/stability.rs:406-422 | the reported kind is that of a candidate no other candidate is newer than; it is absent exactly when there is no candidate |
| Shutdowns.FirstBootIsNewest | src/tools/stability.rs:468-471 | on a list sorted newest first, the first boot time found is the newest boot time |
| Shutdowns.ShutdownSummary | src/tools/stability.rs:464-489 | the list shown is exactly the entries that are first of their record id, newest first; the boot time is that of a shown boot no shown boot is newer than; the last shutdown is that of a shown shutdown, not after the boot, no other such is newer than, and absent exactly when there is none |
| Shutdowns.LastShutdownIsChronological | src/tools/stability.rs:464-489 | on events whose stamps do not clash, with or without times and with or without a boot event: the boot found is the chronologically newest, and the category found is that of a chronologically latest shutdown not after it, of all shutdowns when there is no boot, or none exactly when there is none |
| Shutdowns.ClashMisleads | src/tools/stability.rs:406-422 | for every two clashing stamps a wrong answer: a shutdown at the one with fewer digits and a boot at the other, where the shutdown is not after the boot and yet none is reported |
| Shutdowns.StampsDecide | src/tools/stability.rs:464-489 | every log over a set of stamps is answered chronologically if and only if no two stamps of the set clash |
| Shutdowns.OwnStampsAreChronological | src/utils/time.rs:44-53 | a log whose stamps the program itself had printed, up to the end of year 9999, is answered chronologically |
| Glob.WildcardMatch | src/utils/filesys.rs:117-145 | the loop returns the scan's verdict, never accepts what the pattern does not match, decides names without `*` exactly, and runs at most (name+1)*(pattern+1) times |
| Glob.ScanComplete | src/utils/filesys.rs:125-144 | retrying at the last star alone loses no match of a name without `*` |
| Glob.ScanSound | src/utils/filesys.rs:125-144 | from every reachable loop state, success means that the pattern from the last star on matches the name from its mark |
| Glob.WildcardSound | src/utils/filesys.rs:117-145 | acceptance implies the recursive definition, and the converse on names without `*` |
| Glob.DecidedNames | src/utils/filesys.rs:126 | the matcher agrees with the definition on every pattern if and only if the name contains no `*` |
| Glob.MissedPattern | src/utils/filesys.rs:126 | for every name with a `*`, a pattern that matches it and is rejected |
| Trees.StrictlySorted | src/utils/filesys.rs:220 | sorting a directory with distinct names gives strictly increasing names |
| Walks.WalkDir | src/utils/filesys.rs:185-244 | the recursive walk that pushes into the shared outcome equals running the directory's preorder of events against the file budget, early stop included |
| Walks.WalkChildren | src/utils/filesys.rs:221-243 | the loop over the sorted children does the same for the events of what is left of them |
| Walks.RunCollects | src/utils/filesys.rs:237-241 | running events against the budget collects the first max_files of the files in them and is truncated exactly when there are at least that many |
| Walks.WalkFiles | src/utils/filesys.rs:172-183 | the result is the first max_files of the listing; truncated exactly when at least max_files exist |
| Walks.ListingExact | src/utils/filesys.rs:198-237 | a file is listed exactly when it is within the depth, reached through readable directories, and accepted by the filter |
| Walks.ListingIsTheFiles | src/utils/filesys.rs:172-244 | the listing holds exactly the wanted files, each once, in the order of sorted preorder |
| Walks.PatternListing | src/utils/filesys.rs:228-237 | under a pattern only names that match it are listed, and every file within the depth whose folded name matches and holds no `*` is |
| TreeSizes.MeasureTree | src/utils/filesys.rs:266-314 | with the shared counter at any value, the recursive measure sums exactly the entries of the preorder that the remaining budget reaches, and leaves the budget that the preorder leaves |
| TreeSizes.MeasureWithin | src/utils/filesys.rs:260-264 | consumption is files plus dirs and never above the budget; on a readable tree it is min(budget, entries), truncated exactly when there are more entries than budget, and complete otherwise |
| TreeSizes.LeftIsUnspent | src/utils/filesys.rs:283-310 | what is left of a budget and what was reached add up to the budget |
| TreeSizes.ReachThen | src/utils/filesys.rs:300-306 | reaching into two parts one after the other is reaching into the first and then, with what is left, into the second |
| TreeSizes.DirCostsCount | src/utils/filesys.rs:266-314 | the preorder of a readable tree has one entry per file and directory, and all the bytes |
| TextSlices.FillBuffer | src/utils/filesys.rs:379-393 | whatever short reads happen, the buffer ends up holding exactly the window of the file, or the read failed |
| TextSlices.ReadTextSlice | src/utils/filesys.rs:338-412 | the content is the window, cut for a tail read past byte 0; truncated is the negation of whole_file; whole_file means that the content is the file |
| TextSlices.AlignedIsLongestLineSuffix | src/utils/filesys.rs:395-400 | the cut window is its longest suffix that follows a newline in it, or the whole window when there is none |
| TextSlices.TailStartsALine | src/utils/filesys.rs:335-337 | a cut tail starts a line of the file if and only if the window holds a newline or happens to follow one, for a window of any size |
| Sampler.ResolveTrendParams | src/tools/workflows.rs:2008-2044 | the resolved parameters are within bounds, each clamp has its note exactly when it changed something, and resolving them again adds no note |
| Sampler.ResolvingTwice | src/tools/workflows.rs:2008-2044 | resolving resolved parameters changes nothing |
| Sampler.CollectTrendSamples | src/tools/workflows.rs:2057-2134 | for any clock, sleeps and measurements: attempts, points and notes in order; points and value or error notes add up to the attempts; the deadline note appears once if attempts < samples and never otherwise, the overrun note at most once |
| Sampler.Record | src/tools/workflows.rs:2090-2099 | each attempt leaves exactly its point or its note |
| Sampler.AttemptsKeepSchedule | src/tools/workflows.rs:2073-2089 | under a nondecreasing clock whose sleeps never return early, sample i starts at or after i intervals, and before the deadline unless its slot is the deadline |
| Sampler.AttemptsEndWhereForced | src/tools/workflows.rs:2084-2130 | the loop goes on after every sample but the last, and stops before the last requested one only where the next may not start or the last turn had to stop |
| Sampler.PointsNondecreasing | src/tools/workflows.rs:2091-2093 | recorded times never go back |
| Sampler.ScheduleInProducts | src/tools/workflows.rs:2073-2089 | the schedule with slots as products: every attempt k starts at or after k intervals, its slot is within the window, and before the deadline unless the slot is the deadline |
| Sampler.AttemptsFitWindow | src/tools/workflows.rs:2073-2089 | for every clock and number of samples, an interval above zero allows at most window/interval + 1 attempts |
| Sampler.RunTrend | src/tools/workflows.rs:2057-2134 | for all parameters: attempts are at most the samples and, with an interval, window/interval + 1; attempts keep the schedule; points and notes account for them in order; on resolved parameters the branch that sleeps to the deadline is never taken, and a prompt run takes every sample without a scheduling note |
| Sampler.LatenessIsWorstExcess | src/tools/workflows.rs:2048-2051 | under exact sleeps the lateness of sample i is the largest excess of a run of measurements before it over their intervals, and none is larger |
| Sampler.NoFurtherBehind | src/tools/workflows.rs:2048-2051 | a measurement leaves the next sample no later than itself takes if and only if it did not start later than an interval |
| Sampler.FallsFurtherBehind | src/tools/workflows.rs:2048-2051 | a run of the loop that the claim fails on: interval 1, window 10, three measurements of three intervals each; before the third the lateness exceeds what a measurement takes |
| Sampler.PromptTakesAll | src/tools/workflows.rs:2105-2130 | with exact sleeps and measurements shorter than the interval every requested sample is attempted and none overruns |
| Trends.ClassifyTrend | src/tools/workflows.rs:1894-1918 | the verdict of the loop over adjacent pairs: sustained exactly for a series that never turns back and whose range is a twentieth of its mean, then flat below a tenth, else noisy |
| Trends.StepsDecide | src/tools/workflows.rs:1903-1910 | every step agrees with the direction from end to end exactly when the series is rising or falling throughout |
| Trends.MonotoneRange | src/tools/workflows.rs:1899-1911 | for such a series the distance of its ends is its range, so both thresholds measure the same thing |
| Trends.ReversedAlike | src/tools/workflows.rs:1894-1918 | a series and its reverse get the same verdict |
| Documents.Document.MergeJsonObject | src/cli.rs:1963-1985 | editing the document in place is the merge function, result included |
| Documents.Document.MergeJsonArray | src/cli.rs:1989-2013 | the same for Continue's array |
| Documents.Document.MergeTarget | src/cli.rs:1947-1958 | the same for each target's section and entry |
| Documents.MergeObjectConserves | src/cli.rs:1963-2039 | a merge adds exactly the entry, and every other path of the document leads where it led; otherwise the document is unchanged; and when each result occurs |
| Documents.MergeArrayConserves | src/cli.rs:1989-2013 | the array gains exactly the entry at its end, unless one named winkit is there; nothing outside it changes |
| Documents.MergeIsIdempotent | src/cli.rs:1947-2039 | merging again reports the entry present and changes nothing |
| Documents.MergedTextIsRegistered | src/cli.rs:2045-2082 | the text a merge produces parses to a document in which the entry is registered |
| Documents.MergedTextConserves | src/cli.rs:2045-2082 | read back, the text a merge produces is the document it was given and the entry: under every other path it leads where it led |
| ConfigFiles.BackUp | src/cli.rs:853-866 | the original stands at its place in every state while the backup is made; the backup is made exactly when the file is seen; which call fails decides the error |
| ConfigFiles.WriteOver | src/cli.rs:2102 | the write after the backup: it loses the original if and only if the file is there, the look-up before the backup failed, and opening it succeeds |
| ConfigFiles.WriteWithRestore | src/cli.rs:2087-2130 | whichever calls fail and whatever they leave: no other file is touched; the original is whole at the destination or at the backup at every step if and only if the look-up before the backup did not fail on a file that is there, or the write did not begin; success is decided by the calls, and leaves the new content and the backup; the error says where the original is |
| ConfigFiles.WriteInitFile | src/cli.rs:846-869 | the same without restore, on the condition that the file is forced or not seen; an existing file that is seen is refused unless forced |
| ConfigFiles.InitWrite | src/cli.rs:876-928 | the same through both look-ups and the merge: the original is lost if and only if the run comes to write and the look-up before the backup failed; without a failing call the outcome is decided by what is there and what was asked |
| ConfigFiles.OneFailedLookUp | src/cli.rs:2094-2102 | a run in which only the look-up before the backup fails: it succeeds without a backup, and at some step the original is nowhere |
| InstallRuns.TargetsDisjoint | src/cli.rs:1891-1923 | no two targets share a config file or a backup, whatever the time stamps |
| InstallRuns.CarryOut | src/cli.rs:2250-2327 | one target from the merge on: its status tells what happened to its file and which calls failed; the file survives every step if and only if it was not written over unseen |
| InstallRuns.InstallTarget | src/cli.rs:2213-2327 | one target: skipped without a location, only planned in a plan, otherwise looked up, read, merged and written |
| InstallRuns.InstallAll | src/cli.rs:2209-2328 | over any list of distinct targets: one honest outcome per detected one; at every step nothing but their config files and backups differs; each config file survives every step if and only if its target was not written over unseen |
| InstallRuns.InstallRun | src/cli.rs:2209-2328 | the run: one honest outcome per detected target in order; every other file is as it was at every step; each config file survives every step if and only if it was not written over unseen; nothing is written in a plan, nor when every detected target is seen to be registered, which is what a run leaves that installed everything |
| InstallRuns.DoneIsRegistered | src/cli.rs:2250-2327 | a target reported installed or registered is registered in the final files |
| InstallRuns.InstalledAddsOnly | src/cli.rs:2233-2327 | the document an installation leaves is the one that was there and the entry; if the file was there and could not be seen, it is the entry alone |
| InstallRuns.AllInstalled | src/cli.rs:2209-2328 | after a run that installed everything every detected target is registered |
| DirCopies.CopyDir | src/cli.rs:1568-1603 | when the copy succeeds, what was written are exactly the places to which the destination's links lead for the regular files on the way to which no look-up fails, and each holds the bytes of such a file; at every step only such places differ, links stay, and each is emptied at some step; it succeeds when no call but look-ups of links fails and every file finds its place, below the destination or through its links |
| DirCopies.CopyEntry | src/cli.rs:1573-1600 | the same for one entry: links in the source, and what cannot be looked up, are passed over; a directory that is not seen to be one fails the copy |
| DirCopies.CountDir | src/cli.rs:1608-1637 | the recursive count is the number and the bytes of the regular files on the way to which no look-up fails, and one for each directory taken for a file, of which there is one only where the look-up of a directory failed |
| DirCopies.TotalOfOneMore | src/cli.rs:1630-1631 | the byte total does not depend on the order of the walk |
| DirCopies.DirStats | src/cli.rs:1608-1638 | the same for a whole directory; there is a result when no listing and no reading of a length fails |
| DirCopies.TreeDisk.RemoveAll | src/cli.rs:1737-1738 | a removal touches nothing outside, only removes, and succeeds exactly when nothing below the directory refuses; then nothing is left |
| SkillDirs.EqualCounts | src/cli.rs:1723-1728 | when the counts of the original and of a backup in a free place agree, the files the backup passed over are at most those the count of the original passed over, but for directories counted as files |
| SkillDirs.AgreementMeansComplete | src/cli.rs:1723-1728 | counts in which no look-up fails agree only about a complete backup |
| SkillDirs.MatchMeansAgreement | src/cli.rs:1726-1728 | look-ups that hide the same files from the backup and from the count of the original leave counts and bytes equal, so the comparison does not see such a loss |
| SkillDirs.CountsOfSaved | src/cli.rs:1723-1728 | the counts taken of the disk and its backup agree if and only if those told from the failing look-ups alone do |
| SkillDirs.MakeBackup | src/cli.rs:1722-1736 | a backup that was accepted holds every original file but those passed over, all of them when the counts see everything; an error leaves the original as it was; when only look-ups of links fail, it is accepted if and only if the counts told from them are equal |
| SkillDirs.SetAside | src/cli.rs:1721-1742 | up to the backup only the backup changes, from then on only the destination; a clearing that stops before the first file has kept them all in place; when only look-ups of links fail, the counts decide whether the destination is cleared |
| SkillDirs.PhaseKeeps | src/cli.rs:1721-1763 | in both phases siblings are kept, and the original is whole at its place or, but for what the backup passed over, in the backup |
| SkillDirs.OverlookedIsLost | src/cli.rs:1737-1738 | once a file of the original is gone from its place, a file that the backup passed over makes the original unrecoverable |
| SkillDirs.UnguardedDecides | src/cli.rs:1741-1743 | when no backup was made, the original is recoverable at every step if and only if the copy did not begin to write over one of its files, at its place or through a link; beside the destination exactly the places written through a link change |
| SkillDirs.ClearingDecides | src/cli.rs:1737-1764 | when the destination was cleared, the original is recoverable at every step if and only if the backup passed nothing over, or the clearing stopped before any file was removed |
| SkillDirs.PutOrRestore | src/cli.rs:1743-1759 | the copy of the source, or what the restore brings back of the backup, with nothing else touched |
| SkillDirs.ReplaceOlder | src/cli.rs:1721-1765 | over an older directory that is seen: siblings never change; what each result leaves; the exact conditions under which the original is recoverable at every step, on the run and on its inputs |
| SkillDirs.InstallSkillDir | src/cli.rs:1701-1765 | the whole installation, whichever calls fail: siblings never change but where an unguarded copy writes through links; the original is recoverable at every step if and only if it was neither cleared with an incomplete backup nor written over without one, and what can be told of that from the inputs; what each result leaves; when it succeeds; a run that does not come to replace anything writes nothing and says why; a successful one leaves both directories the same if and only if it takes everything that is read in the source |
| SkillDirs.RunIsForetold | src/cli.rs:1721-1765 | the loss told before the run: when only look-ups of links, and the one before the backup, fail and nothing is in the way, the original is recoverable at every step if and only if no file is hidden from the backup, or the two counts differ, or, without a backup, no file of it stands where the copy will write; in every other run the same protects it, the backup's place being free and the counts being of files |
| SkillDirs.NextRunIsQuiet | src/cli.rs:1701-1765 | after a successful replacement the directories hold the same if and only if everything read in the source was taken, the skill among it |
| SkillDirs.MirroredIsUpToDate | src/cli.rs:1680-1688 | a destination that mirrors what was taken of a source holds the same relative files if and only if nothing else is read in the source, links read through |
| SkillDirs.UpToDateIsIdentical | src/cli.rs:1680-1688 | directories that hold the same files are found identical by every hash, unless a call of the comparison fails |
| SkillDirs.Identical | src/cli.rs:1680-1688 | the directories are found identical exactly when every look-up and reading succeeds and the hashes of what they hold agree, links read through |
| SkillRuns.BlindLoss | src/cli.rs:1721-1743 | a run in which only the look-up before the backup fails: it reports success and the older file is nowhere |
| SkillRuns.TwiceOverlooked | src/cli.rs:1577-1582 | a run in which the look-up of one file fails in the backup and in the count: the counts agree, it reports success, and the file is nowhere |
| SkillRuns.LinkedLoss | src/cli.rs:1592 | a run in which only the look-up before the backup fails and the older skill file is a link: the file it leads to, of the older directory or beside it, is written over |
| Scores.MemoryPressureMonotone | src/diagnostics/findings.rs:44-64 | more load and less available memory never score lower |
| Scores.MemoryPressureFull | src/diagnostics/findings.rs:44-64 | the score is 100 exactly from full load on |
| Scores.RootFrom | src/diagnostics/findings.rs:54 | the cut square root is the largest whole number whose square fits |
| Scores.AppMemoryFull | src/diagnostics/findings.rs:75-88 | an application scores 100 exactly when it holds a quarter of the memory and the threshold |
| Scores.MemoryGrowthAtThreshold | src/diagnostics/findings.rs:92-97 | a growth that is flagged scores at least medium |
| Scores.BatteryFlagged | src/diagnostics/findings.rs:142-149 | a battery scores above 0 exactly when a hundredth of the threshold is missing |
| Scores.WifiFlagged | src/diagnostics/findings.rs:152-158 | the same for a Wi-Fi signal |
| Diagnosis.SystemSignalsAndFindings | src/diagnostics/system.rs:391-923 | the loops that push signals and findings give the findings of the evidence in order, and for each the signal of its kind |
| Diagnosis.FlagApps | src/diagnostics/system.rs:501-635 | the application section: processor and memory flags from the shared classification |
| Diagnosis.CheckedClean | src/diagnostics/system.rs:927-967 | a dimension is listed, once, exactly when it has data and no signal |
| Diagnosis.FoundOrigin | src/diagnostics/system.rs:391-923 | every finding carries the bands of its score and rests on evidence that is present |
| Diagnosis.HeavyAppIsHeavyItself | src/diagnostics/system.rs:546-561 | a memory finding above low comes from an application, named in it, whose own processes reach the threshold |
| Diagnosis.TreeOnlyStaysLow | src/diagnostics/system.rs:546-561 | the memory finding of an application that is heavy only with its children is low, of low confidence, and scores at most 49 |
| Diagnosis.SignalsMatch | src/diagnostics/system.rs:971-994 | findings and signals match one to one by kind, and every possible cause cites a signal that is present |
| Diagnosis.AssignRanks | src/diagnostics/system.rs:97-99 | ranks 1 to n, everything else unchanged |
| Diagnosis.AnalyzeSystem | src/diagnostics/system.rs:84-146 | for all evidence: the findings are its flags, ranked 1..n with falling score and severity; one signal each; causes present; negative exactly without findings; each of the eight dimensions with data is clean or signalled and never both, one without data is neither; tree-only findings stay low |
| HealthReports.GroupsSection | src/tools/health.rs:38-114 | the loop over groups sets every status label and pushes the group's issues |
| HealthReports.DrivesSection | src/tools/health.rs:116-153 | the low-space issue and flag of every drive |
| HealthReports.BuildHealthReport | src/tools/health.rs:31-200 | the issues of groups, drives and load, sorted by score and subject; labels, drives and the pressure flag |
| HealthReports.AppsAgree | src/tools/health.rs:38-114 | both tools flag and score every list of applications alike |
| HealthReports.DrivesAgree | src/tools/health.rs:116-153 | on drives they agree but for low ones of unknown or zero capacity, each of which has a full score in the health report alone |
| HealthReports.TwinsAgree | src/tools/health.rs:31-200 | the (score, subject, category, severity) multisets of both tools are equal if and only if every low drive has a known capacity that is not zero |
| HealthReports.SameRanking | src/tools/health.rs:180-184 | then both sorted lists show the same scores and subjects in the same order |
| LocalUrls.ValidatedShape | src/utils/url.rs:81-180 | every accepted URL obeys the policy, has a lower-case host, a rooted path without control characters within its cap, and a header that prints its host and port |
| LocalUrls.HeaderParses | src/utils/url.rs:184-227 | the printed authority of a clean host parses to the host and the port |
| LocalUrls.LoopbackIsClean | src/utils/url.rs:238-246 | hosts accepted as loopback hold nothing that is special to the parser |
| LocalUrls.PartsAreFound | src/utils/url.rs:81-180 | validating scheme, header and path put together finds the parts again, or reports length or control characters |
| LocalUrls.PrintedIsValid | src/utils/url.rs:81-180 | any URL of the accepted shape with a clean host, printed and validated again, is the same URL, unless the printed form exceeds the length cap |
| LocalUrls.LoopbackRoundTrip | src/utils/url.rs:81-180 | on loopback URLs the round trip holds if and only if the printed form is within the cap |
| Redirects.ChainObeys | src/utils/url.rs:255-292 | every URL on any chain of redirects obeys the policy; without external access it is local |
| Redirects.MergeAt | src/utils/url.rs:275-280 | merging keeps the path up to its last slash |
| Redirects.RelativeRedirect | src/utils/url.rs:272-288 | for a location without scheme and leading slash, including failures: scheme and host are kept, and the path is the one before the query of the base up to its last slash, and then the location; dot segments are not removed |
| Redirects.RelativeIsRfc | src/utils/url.rs:273-288 | the path is the target of section 5.2.2 of RFC 3986, before dot segments are removed, if and only if no `/` stands in a fragment of the base path and the location has a path, or the base path ends with a slash and the location or the missing query makes up for it |
| Redirects.RedirectIsRfc | src/utils/url.rs:255-292 | a redirect that was accepted leads to the target of section 5.2.2 if and only if that holds of the location and it has no scheme of its own, with which the target is elsewhere |
| Redirects.FragmentMisleads | src/utils/url.rs:275-280 | a base with a slash in its fragment for which the merge is not that of the RFC |
| Redirects.AbsolutePathRedirect | src/utils/url.rs:260-266 | a location with a leading slash, even two, stays on the host and replaces the path |
| Redirects.PortSurvives | src/utils/url.rs:260-288 | both kinds lose the port: it survives if and only if it is the default of the scheme |
| Redirects.ChainStaysOnHost | src/utils/url.rs:255-292 | a chain of such locations never leaves the scheme and host it started on |

## Left out

- All Win32, WMI, registry and network calls, the MCP transport, argument parsing and printing: they supply inputs or show results.
- Text decoding (UTF-8, UTF-16, byte order marks), titles, details and other human-readable strings of reports.
- Unicode lower-casing of file names and parsing of IP literals: parameters of the model.
- The measurement log of the diagnosis and the evidence lists inside signals and findings.
- `directory_overview`, the crash history's per-category blocks, and event queries: no claim beyond what is modelled here.
- `src/utils/redact.rs`, `src/utils/http.rs` and the hash of a directory: nothing is claimed about equal hashes.
- Two-phase `install` with skills: the loop over skill destinations calls the modelled installation once per destination.
- TOML and JSON syntax: a file is a document of one of the two formats, blank, or unparseable; a text that is valid in both is not modelled.
- DirCopies.CopyDir: a directory exists where something lies below it, so empty directories are not represented; what a link leads to and shows is fixed over a run; a copy that writes through a link into its own source, which may not end, is not modelled.
- SkillDirs.InstallSkillDir: source, destination and backup do not contain one another, the destination has a name, as every install path has, and no link stands at or above source and destination; a destination that is itself a link to a directory, which `read_dir` follows (src/cli.rs:1571), is not modelled, nor a backup's place at which links are found. Byte totals do not wrap at 2^64.
- SkillDirs.RunIsForetold: whether a run loses files in which other calls than look-ups fail, and errors stop the copy or the clearing half-way, is told from its result (SkillDirs.UnguardedDecides, SkillDirs.ClearingDecides), since the order of a directory listing, which is free, decides.
- SkillDirs.Identical: hashing a directory fails or succeeds as a whole, what is read through a link is a value, and links that lead back to a directory above them, on which the source does not stop, are not modelled.
- SkillRuns.BlindLoss: for every hash that tells the two versions apart; a hash that does not makes the run stop before it writes.
- Redirects.RelativeRedirect: for clean hosts, which all loopback hosts are; a bracketed external host with brackets or spaces inside is not covered.
- Walks.ListingIsTheFiles: directories are given with distinct names, as a file system has them.
- TextSlices.ReadTextSlice: the file does not change while it is read.
