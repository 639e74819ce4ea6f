# DevOps scripts: failure triage, EBS backup and idle-instance stopping

This project models the decision logic of three operations scripts and proves what each one promises.

- **Jenkins failure analyzer** (`4_jenkin_log-anaylizer.py`). It looks at the ten most recent builds of a job. For each build whose result is not exactly `SUCCESS`, it fetches the console log and classifies it with `analyze_log`. That function is an ordered list of case-insensitive substring rules. It yields "Timeout Issue", "Network Issue", "Dependency Issue", "Docker Build Error" or "Other Failure". The script counts the categories in a dictionary and prints one line per category. Modules: `LogAnalyzer` and `Text`.
- **EBS backup Lambda** (`ebs_backup.py`). For every block-device mapping of every instance tagged for backup, it requests a snapshot described `Backup-<instance>-<today>`, then tags that snapshot. It then deletes every owned snapshot whose start date is more than seven days old. Module: `EbsBackup`.
- **Idle EC2 stopper** (`7_stop_idle_ec2_instances.py`). It averages each running instance's CPU samples, with 0 when there are none. An instance is idle when its usage is strictly below 5 %. All idle instances are stopped with one request, and only if there is at least one. Module: `StopIdle`.

`Ec2` holds the EC2 records that both AWS scripts read (reservations, instances, tags, block-device mappings). `Optional` is an option type.

Remote services are replaced by inputs and outputs:
- The build list, the instance listing and the snapshot listing are input sequences.
- Jenkins console text is a function from URL to text (`consoleText`).
- The id that `create_snapshot` returns for the n-th snapshot of a run is `snapshotIdOf(n)`.
- CloudWatch averages are a function from instance id to samples (`datapointsOf`).
- The requests the scripts would send are returned as sequences: `Action` values, stop requests, report lines.

The Python dictionary `failure_summary` is an insertion-ordered association list (`Summary`). `Get` models `dict.get(k, 0)`. `Put` models `d[k] = v`: an existing key keeps its place and a new key goes last.

The loop nests of `lambda_handler` and `main` are modelled as one method per loop level:
- `Backup` calls `SnapshotReservation`, which calls `SnapshotInstance`;
- `StopIdleInstances` calls `VisitReservation`.

Each of these methods is proved against a specification function over the instances visited so far.

## Model

| member | source | states |
|---|---|---|
| LogAnalyzer.Classify | 4_jenkin_log-anaylizer.py:17-27 | the category returned is one whose rule applies: one of its keywords occurs in the log in any letter case, or it is the fallback "Other Failure" |
| LogAnalyzer.AnalyzeLog | 4_jenkin_log-anaylizer.py:17-27 | the result is always one of the five category strings |
| LogAnalyzer.ClassifyIsFirstApplicable | 4_jenkin_log-anaylizer.py:17-27 | the if/elif chain returns the first rule, in priority order timeout, connection refused, failed to download/dependency, docker build, fallback, whose keyword occurs in any letter case |
| LogAnalyzer.FirstApplicableUnique | 4_jenkin_log-anaylizer.py:18-27 | any category that is the first applicable rule is the category returned, so a later category is returned only when every earlier test fails |
| LogAnalyzer.LabelInjective | 4_jenkin_log-anaylizer.py:19-27 | distinct categories are reported under distinct strings |
| LogAnalyzer.TimeoutInAnyCase | 4_jenkin_log-anaylizer.py:18-19 | a log with "timeout" in any letter case at any position is a Timeout Issue, whatever else it contains |
| LogAnalyzer.NoKeywordIsOther | 4_jenkin_log-anaylizer.py:26-27 | a log with none of the five trigger substrings in any case is "Other Failure" |
| Text.ContainsAnyCase | 4_jenkin_log-anaylizer.py:18-24 | a slice that lower-cases to the needle makes the lower-cased log contain the needle |
| LogAnalyzer.Examined | 4_jenkin_log-anaylizer.py:31 | `builds[:10]`: the whole list when it has ten builds or fewer, otherwise exactly its first ten |
| LogAnalyzer.Failures | 4_jenkin_log-anaylizer.py:32 | only builds whose result is not exactly "SUCCESS" are kept, and the list does not grow |
| LogAnalyzer.FailuresCount | 4_jenkin_log-anaylizer.py:31-32 | each build is counted exactly as often as it is listed when its result is not "SUCCESS", including a null result, and never otherwise |
| LogAnalyzer.ReasonsAt | 4_jenkin_log-anaylizer.py:33-35 | the k-th reason is `analyze_log` of the console log fetched from the k-th failed build's url + "consoleText" |
| LogAnalyzer.ReasonsLength | 4_jenkin_log-anaylizer.py:33-35 | one log URL is fetched and one reason computed per failed build |
| LogAnalyzer.AtMostWindowFailures | 4_jenkin_log-anaylizer.py:31-35 | at most ten logs are fetched and classified |
| LogAnalyzer.GetAbsent | 4_jenkin_log-anaylizer.py:36 | `d.get(k, 0)` of a key not in the dictionary is the default 0 |
| LogAnalyzer.PutGet | 4_jenkin_log-anaylizer.py:36 | after `d[k] = v`, `d.get(k)` is v and every other key's value is unchanged |
| LogAnalyzer.PutKeys | 4_jenkin_log-anaylizer.py:36 | `d[k] = v` keeps the existing keys in order and appends k only when it is new |
| LogAnalyzer.PutPositive | 4_jenkin_log-anaylizer.py:36 | storing a positive count keeps every count positive |
| LogAnalyzer.PutTotal | 4_jenkin_log-anaylizer.py:36 | `d[k] = v` changes the sum of counts by v minus the old value of k |
| LogAnalyzer.GetAt | 4_jenkin_log-anaylizer.py:36 | in a dictionary with distinct keys, `get` of an entry's key returns that entry's count |
| LogAnalyzer.TallySnoc | 4_jenkin_log-anaylizer.py:35-36 | counting one more reason is one `d[r] = d.get(r, 0) + 1` step on the dictionary so far |
| LogAnalyzer.TallyGet | 4_jenkin_log-anaylizer.py:29-36 | every category's count is its number of occurrences among the reasons, 0 when it never occurs |
| LogAnalyzer.TallyKeys | 4_jenkin_log-anaylizer.py:29-36 | the keys are distinct, are exactly the categories that occur, and no count is 0 |
| LogAnalyzer.TallyEntry | 4_jenkin_log-anaylizer.py:29-36 | each entry's count is the number of occurrences of its category |
| LogAnalyzer.TallyTotal | 4_jenkin_log-anaylizer.py:29-36 | the counts add up to the number of classified failures |
| LogAnalyzer.TallyOrder | 4_jenkin_log-anaylizer.py:29-36 | the keys appear in the order in which their categories first occur |
| LogAnalyzer.SummaryTotal | 4_jenkin_log-anaylizer.py:31-36 | the counts add up to the number of non-SUCCESS builds among the first ten, hence to at most ten |
| LogAnalyzer.SummarizeFailures | 4_jenkin_log-anaylizer.py:29-36 | the loop fetches exactly the failed examined builds' log URLs, in order, and builds the dictionary of counts of their categories |
| LogAnalyzer.Report | 4_jenkin_log-anaylizer.py:41-42 | one (category string, count) line per dictionary entry, in dictionary order |
| LogAnalyzer.ReportCoversReasons | 4_jenkin_log-anaylizer.py:41-42 | the report of the tally has a line for a category exactly when that category occurred |
| LogAnalyzer.ReportCounts | 4_jenkin_log-anaylizer.py:35-42 | every report line gives a category that occurred together with its number of occurrences |
| LogAnalyzer.ReportDistinct | 4_jenkin_log-anaylizer.py:41-42 | no category string is reported twice |
| LogAnalyzer.AnalyzeBuilds | 4_jenkin_log-anaylizer.py:29-42 | the whole script fetches the failed builds' logs among the first ten, at most ten of them, and reports the tally of their categories |
| Ec2.AllInstancesMembers | ebs_backup.py:17-18 | the nested reservation/instance loops visit every instance of every reservation and nothing else |
| EbsBackup.BackupActionsAt | ebs_backup.py:17-32 | exactly two requests per volume, in volume order: a snapshot described "Backup-" + instance id + "-" + today, then tags Name = that description and CreatedOn = today on the id just returned; no delete among them |
| EbsBackup.VolumesAppend | ebs_backup.py:17-23 | volumes are visited reservation by reservation, instance by instance, mapping by mapping |
| EbsBackup.VolumesCount | ebs_backup.py:17-26 | the number of snapshots requested is the number of block-device mappings |
| EbsBackup.SnapshotInstance | ebs_backup.py:23-32 | the mapping loop sends the two requests of each of the instance's volumes, numbering snapshots from those already created |
| EbsBackup.SnapshotReservation | ebs_backup.py:18-32 | the instance loop sends the requests of each instance's volumes and counts the snapshots created |
| EbsBackup.Backup | ebs_backup.py:17-32 | the backup loops send exactly the requests of all volumes of all instances, in visiting order |
| EbsBackup.IsExpired | ebs_backup.py:42 | a snapshot is expired only if it has a start date, and that date lies strictly before the run day |
| EbsBackup.ExpiredCount | ebs_backup.py:41-44 | a listed snapshot is deleted as often as it is listed if expired, never otherwise, so at most once when listed once |
| EbsBackup.RecentOrUndatedKept | ebs_backup.py:42 | a snapshot without StartTime, or started at most seven days before the run day (in particular on the run day), is never deleted |
| EbsBackup.RetentionBoundary | ebs_backup.py:38-42 | a snapshot exactly seven days old is kept and one eight days old is deleted |
| EbsBackup.DeletionIgnoresTags | ebs_backup.py:39-44 | the deletes depend only on the snapshots' ids and start dates, not on their tags |
| EbsBackup.DeleteOldSnapshots | ebs_backup.py:37-44 | one delete request per listed snapshot that is expired, in listed order |
| EbsBackup.LambdaHandler | ebs_backup.py:11-35 | all backup requests come first, then the deletes of the retention phase; no delete precedes a backup request |
| StopIdle.Mean | 7_stop_idle_ec2_instances.py:27-28 | the mean times the number of samples is their sum |
| StopIdle.MeanBetween | 7_stop_idle_ec2_instances.py:27-28 | the mean of the samples lies between the smallest and the largest sample |
| StopIdle.CpuUtilization | 7_stop_idle_ec2_instances.py:26-30 | no datapoints give usage exactly 0; otherwise the usage is `round` of the exact mean of the samples |
| StopIdle.IsIdle | 7_stop_idle_ec2_instances.py:48 | the idle test is `usage < 5`, so an instance without datapoints is idle |
| StopIdle.MeanAgainstThreshold | 7_stop_idle_ec2_instances.py:27-28 | before rounding, samples all below 5 average below 5, and samples all at or above 5 average at or above 5 |
| StopIdle.TenAndTwoNotIdle | 7_stop_idle_ec2_instances.py:26-30 | samples 10 and 2 give usage 6, which is not idle when rounding keeps 6 |
| StopIdle.NameTag | 7_stop_idle_ec2_instances.py:43 | the display name is the value of the first tag keyed "Name", or "NoName" when there is none |
| StopIdle.UsageReportAt | 7_stop_idle_ec2_instances.py:40-46 | one usage line per instance, in order, with its id, display name and usage |
| StopIdle.IdleIdsMembers | 7_stop_idle_ec2_instances.py:40-49 | an id is in the idle list exactly when some visited instance with that id has usage strictly below 5 |
| StopIdle.IdleIdsAppend | 7_stop_idle_ec2_instances.py:40-49 | idle ids are listed in visiting order: those of earlier instances before those of later ones |
| StopIdle.NoDataIsIdle | 7_stop_idle_ec2_instances.py:30 | an instance without datapoints has usage 0 and is always marked idle |
| StopIdle.IdleIgnoresTags | 7_stop_idle_ec2_instances.py:43-49 | the display name has no effect on the idle list |
| StopIdle.VisitReservation | 7_stop_idle_ec2_instances.py:41-49 | the instance loop appends each instance's usage line and, when it is idle, its id |
| StopIdle.StopIdleInstances | 7_stop_idle_ec2_instances.py:32-55 | one usage line per instance; the idle list is exactly the idle ids in visiting order; exactly one stop request, with the whole list, iff the list is non-empty |

## Left out

- HTTP and AWS calls are not modelled. This covers the Jenkins JSON and console-text requests, `describe_instances`, `describe_snapshots`, CloudWatch, and `create_snapshot`/`create_tags`/`delete_snapshot`/`stop_instances`. Their results are parameters. Their effects are returned as request sequences, and failures of these calls are not modelled.
- The remote tag and state filters (`tag:Backup = True`, `instance-state-name = running`) are not modelled. The instance lists are taken as already filtered.
- Credentials, the Jenkins endpoint and job URL, regions and all printed text are not modelled. The exceptions are the console-log URL of each failed build (`url + "consoleText"`), the report's (category, count) lines and the usage lines.
- Text.ContainsIgnoreCase: lower-cases ASCII letters only, not full Unicode `str.lower()`. The regular expression `Failed to download|dependency` with `re.I` is modelled as two case-insensitive substring tests.
- StopIdle.CpuUtilization: floating-point summation and division are exact `real` arithmetic. `round(x, 2)` is the uninterpreted parameter `round`, so nothing is claimed about a usage that rounding or float error could move across the threshold.
- Dates are day numbers and the snapshot date label `today` is an opaque string. Wall clock, time zones and `strftime` are not modelled. `today` is fixed when the module is loaded, while `old_date` is computed when the retention phase runs. The model therefore keeps `today` and `nowDay` as separate parameters and does not relate them.
- The build `number` field is carried but never read, as in the script.
