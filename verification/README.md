# Verified models of Latent-GRPO

A Dafny model of the parts of the repository whose correctness is hardest to see from one function: the crash-safe
metrics log and the runs above it, the batch protocol between driver and workers, the Megatron checkpoint merger,
the statistics that are merged across workers, and a handful of algorithms with loops that deserve an invariant.
`dafny verify dfyconfig.toml` checks everything.

## The metrics log

`PartLog` describes a table directory as a value: the listed parts, the quarantine, the manifest, the schema file.
Opening and appending are sequences of *images* of that directory, one per atomic disk action, so a crash is an index
into the sequence. `PartLogLaws` proves what the format promises: opening repairs, a second open does nothing, an append
is all or nothing with the rename as its commit point. `PartLogFaults` looks at exceptions that the process survives.
`PartWriter` is the writer class with its fields, its lock and its loops; its methods are proved to take the disk through
exactly these images, whenever the process is killed.

`RunModel` puts six tables, the sidecars and the trainer's latest-checkpoint tracker into one output root. A plan is
what an uninterrupted run would emit; a session is one process working on the plan. `RunLaws`, `RunSteps` and
`RunTheorems` are about one session, `RunHistories` about any number of processes that resume where they like,
`RunTraps` about rows that get lost on the way, `RunRecovery` about processes started as the trainer starts them by
default. `Observer` is the driver class, proved against the same images; `StartLaws` and `EmitLaws` say what starting and
emitting come to, table by table and row by row. `OutputValidator` with `TrainTableAudit` shows that the one-pass validator
means what it reports and accepts what the driver writes.

What holds, and what does not:

* Killing a run any number of times, anywhere, and always resuming from the latest checkpoint does not show in the
  tables of a run that is finished. It can be finished **if and only if** the latest tracker names a checkpoint, or there
  is none and nothing has been committed (`RunRecovery.CrashesDoNotShow`). The two ways to lose a run: dying before the
  first checkpoint with rows on disk, because starting over is refused as a duplicate; and dying between the emptying and
  the writing of the tracker file, which no later start can read
  (Latent-GRPO/verl-0.4.x/verl/trainer/ppo/ray_trainer.py:998-1000, `RunRecovery.TruncationHappens`).
* A resume at an arbitrary checkpoint, after any history of resumes and kills, equals no crash if and only if the tables
  still hold all that an uninterrupted run would have written through its step (`RunHistories.ResumeAfterAnyHistory`).
  The sidecar holds part counts (latent_grpo_runner/metrics/storage.py:400), but the resume does not compare them
  (latent_grpo_runner/checkpointing.py:62-84). Comparing them would be exact as long as it has been done at every resume
  (`RunHistories.ResumeAfterCheckedHistory`), and not otherwise: a session that resumed over a gap writes checkpoints that
  record the gap (`RunTraps.GapIsInherited`). Without the comparison a resume is accepted and loses rows silently
  (`RunTraps.SecondStepIsLost`).
* An exception between the rename and the key update that the process survives leaves the writer behind the directory;
  a retry then publishes duplicates. From then on the table opens **if and only if** a row of the batch lies behind the resume step,
  in which case both copies are quarantined; opening without a resume step is always refused
  (`PartLogFaults.RetryAfterLateFault`). A different batch is harmless, except that it reuses the part number when the
  exception came from syncing the directory (`PartLogFaults.NextBatchAfterLateFault`).

## Batches and weights

`TensorOps` states the array operations the batch protocol calls, separately for torch and numpy, and what each does to
row numbers. `DataProto`, `DataProtoLaws`, `DataProtoDispatch` and `DataProtoReshape` show that every operation moves whole
rows, that dispatch to workers is transparent, and that folding and unfolding are inverse. With padding enabled, `chunk`
fails for some sizes because torch rounds the piece size up; the exact condition is `DataProtoDispatch.PaddedChunkSucceedsIff`.
A batch passed by keyword with automatic padding loses rows (`DataProtoDispatch.KeywordDispatchLosesRows`): the padding size
is recorded (Latent-GRPO/verl-0.4.x/verl/single_controller/base/decorator.py:118-126), the padding never added;
`DataProtoDispatch.FourRowsOnTwoWorkers` is such a call.

`MegatronQkv` is the packing of query, key and value rows and its undoing across tensor-parallel shards; `MegatronLayers` is
the renumbering of decoder layers. Renumbering never collides, and it leaves no hole exactly when no chunk without layers
stands before a chunk with layers.

## Statistics and estimators

`SufficientStats`, `P1Packets` and `ComponentStats` follow values from a worker's list to the coordinator's record.
`PassAtK` shows that the running product is the binomial formula, `AverageRanks` and `Spearman` that tied ranks and the
correlation mean what they should. Floats are reals; NaN and the infinities are a value of their own, `NotFinite`. The square
roots of `Spearman.Correlate` are parameters of which only the square is known.

## Algorithms

`Workload` is the multi-turn load generator as a protocol of two threads, with an invariant of every interleaving and
exact accounting of the steps of a session. `WorkloadRuns` is about whole runs: under weak fairness every run ends, and
it completes all requests if and only if the handler's last empty wait met a full progress bar and no task between the
bar and the response queue. Otherwise a response is lost, and the request loop may go round for ever
(`WorkloadRuns.FairSenderEndsIff`). All three kinds of fair run exist: `WorkloadRuns.SomeRunCompletes`,
`SomeRunLosesAResponse` and `SomeRunHangs` exhibit one each. `RedirectChains` resolves redirected lines, `BoxedText`
matches braces, `SupportSelection` picks trajectories and emits their rows.

`EvalDispatch` spreads an evaluation over GPUs and sorts the files of the workers by a number read from their whole path,
with `PredictionPaths` for the names and that number. The predictions come back in order, whatever the engine, the data
and the order in which the workers finish, **if and only if** the output directory does not hold `_gpu_` and the GPUs that
get a chunk are listed in ascending order, or it does hold `_gpu_`, there is only one chunk, and the directory leaves its file
a number (`EvalDispatch.OrderIsKeptIff`). Descending GPUs swap predictions, and so does a directory such as
`/runs/exp_gpu_8_a` (`EvalDispatch.NumberedDirectorySwaps`).

## Model

| member | source | states |
|---|---|---|
| `PartLogLaws.CrashedOpenConverges` | latent_grpo_runner/metrics/storage.py:292-331 | a crash at any disk action of opening a table does no harm: the next open with the same resume step ends in the same directory as an open that was never interrupted, with the same outcome |
| `PartLogLaws.ReopenChangesNothing` | latent_grpo_runner/metrics/storage.py:300-331 | a second open, with the same resume step or with none, performs no disk action |
| `PartLogLaws.OpenRebuilds` | latent_grpo_runner/metrics/storage.py:300-353 | whatever was on disk, after an open that succeeds a part is listed if and only if it was listed before, reads back in the right schema, every row is complete, and no row is later than the resume step; every other part is in quarantine under its label; no key is repeated, and manifest and key set agree with the listing; nothing is lost if every part belonged |
| `PartLogLaws.OpenMeans` | latent_grpo_runner/metrics/storage.py:292-353 | an open is refused for the schema exactly when the schema file or the manifest names another one, and for a duplicate exactly when the parts that belong repeat a key; in every other case, and for a duplicate too, the directory is reconciled |
| `PartLogLaws.RefusalMeans` | latent_grpo_runner/metrics/storage.py:355-372 | a batch is accepted exactly when it is not empty, every row is complete and keyed, and no key repeats or is committed; the reason for a refusal is the first that applies, in the order of the checks |
| `PartLogLaws.AppendMeans` | latent_grpo_runner/metrics/storage.py:365-395 | a finished append lists the new part, numbered one above the highest entry or 0, last among parts numbered no higher; manifest, writer checkpoint and memory name it, and nothing else has changed |
| `PartLogLaws.MoveAsideKeepsEvidence` | latent_grpo_runner/metrics/storage.py:311-327 | moving a part to quarantine loses no part: the multiset of listed and quarantined parts is unchanged |
| `PartLogLaws.KeptIsSound` | latent_grpo_runner/metrics/storage.py:307-327 | dropping future and bad parts from a sound listing keeps part numbers increasing and keys unique |
| `PartLogLaws.SoundIsSettled` | latent_grpo_runner/metrics/storage.py:300-331 | a sound table is a fixed point of opening without a resume step |
| `PartLogLaws.AppendExtends` | latent_grpo_runner/metrics/storage.py:355-395 | an accepted batch is listed last, with a new highest number, and the table stays sound and in agreement with the writer's memory |
| `PartLogLaws.CrashedAppendImage` | latent_grpo_runner/metrics/storage.py:369-395 | every crash image of an append lists either the old parts or the old parts plus the complete new part; the rename is the commit point |
| `PartLogLaws.FinishedAppend` | latent_grpo_runner/metrics/storage.py:384-395 | an append that is not interrupted ends in the directory that holds the new part and its manifest |
| `PartLogLaws.CrashedAppendIsAtomic` | latent_grpo_runner/metrics/storage.py:300-395 | append is atomic under crashes: wherever the process dies, the next open without a resume step finds the old rows or the old rows plus the whole batch, keys unique, numbers increasing, the key set equal to the keys on disk |
| `PartLogFaults.SurvivorIsCoherentIff` | latent_grpo_runner/metrics/storage.py:384-394 | after an exception that the process survives, anywhere in append and on either side of a JSON file's own replace, the directory is sound and without the half-written file, and the writer's memory agrees with it if and only if the exception did not fall between the rename and the key update |
| `PartLogFaults.RetryAfterLateFault` | latent_grpo_runner/metrics/storage.py:311-395 | after an exception in that window the writer accepts the same batch again; once the retry is published, opening is refused as a duplicate for every resume step, and without one, unless a row of the batch lies behind the resume step: then both copies are quarantined and the table opens with what it held before the batch, cut at that step |
| `PartLogFaults.NextBatchAfterLateFault` | latent_grpo_runner/metrics/storage.py:365-395 | after such an exception a different batch is published beside the first one and the table opens for every resume step, without one with both; its part number is new if and only if the exception was not raised while syncing the directory, otherwise two parts share a number |
| `PartWriter.AppendOnlyPartWriter.Open` | latent_grpo_runner/metrics/storage.py:239-274 | taking the lock and reconciling the directory: refused for a foreign rank or a held lock without touching anything; otherwise exactly the readable, complete parts up to the resume step stay listed, the others are quarantined under their labels, and the open succeeds exactly when the schemas agree and no key is repeated, with a memory of these parts; killed anywhere it leaves an image of the specification; on failure the lock is given back |
| `PartWriter.AppendOnlyPartWriter.Close` | latent_grpo_runner/metrics/storage.py:276-281 | the lock is given back once; disk and memory are unchanged |
| `PartWriter.AppendOnlyPartWriter.VerifyOrWriteSchema` | latent_grpo_runner/metrics/storage.py:292-298 | an existing schema must agree, a missing one is written |
| `PartWriter.AppendOnlyPartWriter.LoadOrRebuildManifest` | latent_grpo_runner/metrics/storage.py:300-331 | refused exactly when the manifest on disk names another schema; otherwise the listing is reconciled, and the manifest, written only when it differs, describes it; every image left on the way is one of the specification's |
| `PartWriter.AppendOnlyPartWriter.ScanListing` | latent_grpo_runner/metrics/storage.py:306-327 | the loop over the listing keeps, in order, exactly the parts that read back in the right schema with complete rows none of which is later than the resume step; it moves the others to quarantine, labelled as future exactly when they read and hold a later row, and describes the kept ones |
| `PartWriter.AppendOnlyPartWriter.LoadKeys` | latent_grpo_runner/metrics/storage.py:344-353 | the keys of all committed rows are collected; a missing or repeated key is an error exactly when the rows have one |
| `PartWriter.AppendOnlyPartWriter.Append` | latent_grpo_runner/metrics/storage.py:355-395 | a batch is published exactly when it is not empty, complete, and neither repeats a key nor holds a committed one; the first reason against it, in the order of the checks, is the error and nothing is touched; a published part has the next number and is in listing, manifest, checkpoint and memory; killed anywhere it leaves an image of the specification |
| `RunLaws.OpenOfSound` | latent_grpo_runner/metrics/storage.py:300-331 | every crash image of opening a sound table is sound and keeps everything that the resume step keeps |
| `RunLaws.UpToWindow` | latent_grpo_runner/metrics/storage.py:311-319 | dropping the parts with rows after step s from an uninterrupted table is cutting it at the position after step s |
| `RunLaws.WindowKeys` | latent_grpo_runner/metrics/storage.py:359-364 | the rows of an op have keys that nothing committed before it on its table has |
| `RunSteps.StageAccepts` | latent_grpo_runner/metrics/storage.py:357-364 | a plan's own ops are never refused by the append checks |
| `RunSteps.OpFrame` | latent_grpo_runner/metrics/integration.py:297-404 | an op touches at most its own table; only a checkpoint touches the sidecars and the latest tracker |
| `RunSteps.StageStep` | latent_grpo_runner/metrics/integration.py:322-404 | one event takes the session from position n of the plan to position n + 1: the table of the event grows by the batch an uninterrupted run writes and the running optimizer step by the updates |
| `RunSteps.StageCrash` | latent_grpo_runner/metrics/storage.py:369-395 | a crash during event n leaves every table at position n or at n + 1 |
| `RunSteps.OpsCrash` | latent_grpo_runner/metrics/integration.py:297-404 | emitting the rest of the plan never fails; every crash image holds sound tables made of batches of the uninterrupted run; at the end every table holds the whole window |
| `RunSteps.OpenAllCrash` | latent_grpo_runner/checkpointing.py:74-84 | every crash image of reopening all tables keeps what the resume step keeps and is otherwise faithful |
| `RunSteps.OpenAllDone` | latent_grpo_runner/checkpointing.py:74-80 | reopening all tables succeeds, and each table then holds exactly the kept parts |
| `RunTheorems.CountsDecide` | latent_grpo_runner/metrics/storage.py:397-400 | for a sidecar that records the part counts of the uninterrupted run, comparing them with the parts that are kept decides whether a resume finds everything an uninterrupted run would have written through that step |
| `RunTheorems.ResumeStage` | latent_grpo_runner/metrics/integration.py:130-151 | a resume at s stands right after step s with the optimizer step of the uninterrupted run |
| `RunTheorems.ResumedSessionIsFaithful` | latent_grpo_runner/metrics/integration.py:112-152 | wherever a resumed session dies, every table is sound and holds batches of the uninterrupted run, in its order, with its optimizer steps; left alone, the session ends |
| `RunTheorems.ResumedSessionEnds` | latent_grpo_runner/metrics/integration.py:130-151 | a resumed session that ends leaves in each table what the resume kept followed by everything after step s |
| `RunTheorems.ResumeEqualsNoCrashIffCovered` | latent_grpo_runner/checkpointing.py:62-84 | with any sidecar a session wrote, resuming equals never crashing, up to the resume markers, if and only if the resume kept all that an uninterrupted run would have written through its step |
| `RunTheorems.ResumeEqualsNoCrashIff` | latent_grpo_runner/checkpointing.py:62-84 | with a sidecar that records the counts of the uninterrupted run, this is so if and only if no table has fewer parts through s than recorded; the program does not make this check |
| `RunTheorems.StaleCheckpointLosesRows` | latent_grpo_runner/checkpointing.py:62-84 | reopening at an older checkpoint and dying makes every newer sidecar a trap: the latest tracker is unchanged, a resume there is accepted and ends, and the rows in between are missing |
| `RunHistories.CheckpointPosition` | latent_grpo_runner/metrics/integration.py:237-256 | the position after a checkpoint's step is the one right after the checkpoint |
| `RunHistories.NewSidecar` | latent_grpo_runner/metrics/integration.py:245-252 | the sidecar written at a checkpoint of any session lists all tables and records the sum of updates through its step |
| `RunHistories.ExactSidecar` | latent_grpo_runner/metrics/integration.py:245-252 | without gaps it also records the part counts of the uninterrupted run |
| `RunHistories.FirstIsKept` | latent_grpo_runner/metrics/storage.py:311-319 | no resume at a checkpoint removes the first batch of the run |
| `RunHistories.RestartIsRefused` | latent_grpo_runner/metrics/storage.py:362-364 | starting over on tables that already hold rows is refused at the first event |
| `RunHistories.FreshFinishesIff` | latent_grpo_runner/metrics/integration.py:127-128 | a process that starts over and is left alone finishes the run if and only if nothing has been committed, and then every table is what an uninterrupted run leaves |
| `RunHistories.ResumedLife` | latent_grpo_runner/metrics/integration.py:130-151 | a process that resumes at any checkpoint, wherever it dies, leaves sound tables made of batches of the uninterrupted run, and sidecars that record true counts if it found nothing missing |
| `RunHistories.HistoriesAreTraced` | latent_grpo_runner/metrics/integration.py:112-152 | so does any number of processes, each starting over or resuming at any step and killed anywhere |
| `RunHistories.CheckedHistoriesAreHonest` | latent_grpo_runner/checkpointing.py:62-84 | if every resume of a history passes the count check when it is made, every sidecar ever written records the counts of the uninterrupted run |
| `RunHistories.ResumeAfterAnyHistory` | latent_grpo_runner/checkpointing.py:62-84 | after any history a resume at any checkpoint ends, and equals no crash if and only if what it kept is all that an uninterrupted run would have written through its step |
| `RunHistories.ResumeAfterCheckedHistory` | latent_grpo_runner/checkpointing.py:62-84 | after a history in which every resume passed the count check, the next resume equals no crash if and only if it passes too |
| `RunTraps.GappedCheckpointPassesCheck` | latent_grpo_runner/metrics/integration.py:245-252 | a checkpoint written by a session that resumed over a gap passes the count check although rows are missing |
| `RunTraps.GapIsInherited` | latent_grpo_runner/checkpointing.py:62-84 | after a resume that lacks rows, a process killed right behind its next checkpoint leaves a sidecar that passes the check, and a resume there ends with the rows still missing |
| `RunTraps.StaleHappens` | latent_grpo_runner/checkpointing.py:62-84 | the first gap comes about by a resume at an older checkpoint that is killed after reopening the tables |
| `RunTraps.SecondStepIsLost` | Latent-GRPO/verl-0.4.x/verl/trainer/ppo/ray_trainer.py:1002-1030 | from an empty output root: train, checkpoint, train, checkpoint; resume by hand at the first checkpoint and die; the trainer resumes by itself at the second, reports success, and the row of the second step is gone |
| `RunRecovery.ExactOpsCrash` | latent_grpo_runner/metrics/integration.py:237-404 | emitting without gaps keeps the latest checkpoint covered at every crash point |
| `RunRecovery.ResumeAttempt` | latent_grpo_runner/metrics/integration.py:130-151 | resuming at the trainer's latest checkpoint keeps it covered wherever the process dies |
| `RunModel.StartOfMeans` | Latent-GRPO/verl-0.4.x/verl/trainer/ppo/ray_trainer.py:1002-1030 | a process fails to start exactly on an emptied tracker that it reads, resumes exactly after the positive step of the given path or of the tracker, and otherwise begins from scratch |
| `RunRecovery.FreshAttempt` | latent_grpo_runner/metrics/integration.py:127-128 | so does starting without a checkpoint |
| `RunRecovery.AutoLives` | latent_grpo_runner/metrics/integration.py:112-152 | the recovery invariant survives any number of processes as the trainer starts them, each killed anywhere |
| `RunRecovery.CrashesDoNotShow` | Latent-GRPO/verl-0.4.x/verl/trainer/ppo/ray_trainer.py:998-1030 | from an empty output root, after any number of kills anywhere, one process left alone finishes the run if and only if the latest tracker names a checkpoint, or there is no tracker and nothing has been committed; when it finishes, every table is what an uninterrupted run leaves, up to the resume markers |
| `RunRecovery.TruncatedIsFinal` | Latent-GRPO/verl-0.4.x/verl/trainer/ppo/ray_trainer.py:1002-1013 | once the tracker has been emptied and not written, no process that reads it changes anything any more |
| `RunRecovery.TruncationHappens` | Latent-GRPO/verl-0.4.x/verl/trainer/ppo/ray_trainer.py:998-1000 | every run that writes a checkpoint can be killed so that this happens, and the next process ends with an error |
| `Observer.DurableMetricsObserver.OpenWriters` | latent_grpo_runner/metrics/integration.py:279-295 | writers are opened in table order, after reconciling each table; a table that is not asked for, whose lock is held, or that is refused ends the opening, and those already open give their locks back; the disk goes through the images of the specification |
| `Observer.DurableMetricsObserver.OpenEvery` | latent_grpo_runner/checkpointing.py:74-84 | all tables are opened, or none stays open |
| `Observer.DurableMetricsObserver.StartRun` | latent_grpo_runner/metrics/integration.py:112-152 | a fresh observer starts exactly when a fresh run is on rank 0, or a resume at s has s >= 1 and a sidecar of s with the configuration hash of this run, an optimizer step that is not negative and an entry for every table, and no lock is held elsewhere and every table can be opened; without such a sidecar it is refused and disk and memory are unchanged; after a start every table is reconciled, sidecars and tracker are untouched, and the running step is the sidecar's, or 0; a start that fails gives its locks back |
| `StartLaws.OpenAllMeans` | latent_grpo_runner/checkpointing.py:74-84 | opening a list of tables succeeds if and only if every table is asked for and can be opened, and then each of them is reconciled and remembered and nothing else has changed |
| `Observer.StartMeans` | latent_grpo_runner/metrics/integration.py:112-152 | the condition for a start and what it leaves, for the start that the images of a session are built from |
| `EmitLaws.TrainStepMeans` | latent_grpo_runner/metrics/integration.py:322-404 | a train step is refused exactly when its run and step are committed; otherwise its one row, with the running optimizer step after its updates, joins the train-step table and nothing else changes |
| `EmitLaws.BatchMeans` | latent_grpo_runner/metrics/integration.py:431-442 | support or probe rows are accepted exactly when they are complete and new, and then join their table and nothing else changes |
| `EmitLaws.CheckpointMeans` | latent_grpo_runner/metrics/integration.py:237-256 | the sidecar of a checkpoint holds the configuration hash, the running optimizer step and for every table the number of parts in its manifest; other sidecars and all tables are untouched; the tracker is emptied and then names the step |
| `Observer.StartAlone` | latent_grpo_runner/metrics/integration.py:112-152 | with no lock held elsewhere and rank 0 this is the start of a session |
| `Observer.DurableMetricsObserver.Commit` | latent_grpo_runner/metrics/integration.py:391-391 | one event's rows are appended to its own table, through the images of the specification |
| `Observer.DurableMetricsObserver.CommitTrainStep` | latent_grpo_runner/metrics/integration.py:297-404 | the checks of a train-step event in order; it is committed exactly when its run and step are new; its row, keyed by run and step, carries the running optimizer step after its updates, the other tables are untouched, and the running step moves exactly when the row has been appended |
| `Observer.DurableMetricsObserver.CommitMetricRows` | latent_grpo_runner/metrics/integration.py:431-442 | support or probe rows join the row table first, if there are any, and then the benchmark row joins the benchmark table, as two separate appends that touch nothing else |
| `Observer.DurableMetricsObserver.BuildSidecar` | latent_grpo_runner/metrics/integration.py:245-252 | the sidecar holds the running optimizer step and the part count of every writer |
| `Observer.DurableMetricsObserver.Checkpoint` | latent_grpo_runner/metrics/integration.py:237-256 | the sidecar of the step is published with the configuration hash, the running optimizer step and the number of parts each writer lists; tables, tracker and other sidecars are untouched |
| `Observer.DurableMetricsObserver.Close` | latent_grpo_runner/metrics/integration.py:258-270 | the locks of all its writers are given back; a second close does nothing |
| `Observer.SaveCheckpoint` | Latent-GRPO/verl-0.4.x/verl/trainer/ppo/ray_trainer.py:985-1000 | the trainer publishes the sidecar, then empties its latest-checkpoint tracker, then writes it: three disk actions |
| `OutputValidator.ValidateRecords` | latent_grpo_runner/validation/output_validator.py:27-114 | the one pass, which keeps only the seen keys and one number per run, reports for each row, in terms of the columns: a missing or null field that the schema requires; a missing primary key column, or an earlier row with the same key; a step below an earlier one of its run; a checkpoint_step in a training table; and a token gap exactly when the cumulative count is not that of the previous counted row of the run plus what this row generated |
| `OutputValidator.ReportMeans` | latent_grpo_runner/validation/output_validator.py:37-95 | the same for the declarative report |
| `OutputValidator.CleanKeysAreUnique` | latent_grpo_runner/validation/output_validator.py:69-77 | a clean report means that every row has a primary key and no two rows share one |
| `OutputValidator.CleanStepsStrictlyIncrease` | latent_grpo_runner/validation/output_validator.py:69-85 | in the train-step table a clean report means strictly increasing steps within each run, however the runs are interleaved |
| `OutputValidator.CleanTokensTelescope` | latent_grpo_runner/validation/output_validator.py:88-95 | a clean report means that in each run the cumulative_rollout_tokens column grows, from any counted row to any later one, by exactly the train/generated_token_count of the counted rows behind the first, whatever lies in between |
| `TrainTableAudit.TrainWindowAscends` | latent_grpo_runner/metrics/integration.py:297-404 | the train rows of a plan are single-row batches of strictly increasing steps |
| `TrainTableAudit.EveryTablePassesKeyCheck` | latent_grpo_runner/validation/output_validator.py:69-76 | each table of any run, after any crashes and resumes, passes the primary-key check |
| `TrainTableAudit.EveryTablePassesStepCheck` | latent_grpo_runner/validation/output_validator.py:77-86 | each table passes the step-order check that is made for the two training tables |
| `TrainTableAudit.FaithfulTablePassesValidation` | latent_grpo_runner/validation/output_validator.py:37-95 | the train-step table passes as a whole: fields, keys and steps; its rows carry no token counts here, so the token check does not apply to them |
| `Workload.StepKeepsInv` | Latent-GRPO/sglang_latent_reasoning_pkg/benchmark/hicache/bench_multiturn.py:259-331 | every atomic step of the request loop, of a request task or of the response handler keeps the invariant |
| `Workload.RunKeepsInv` | Latent-GRPO/sglang_latent_reasoning_pkg/benchmark/hicache/bench_multiturn.py:259-331 | so does every interleaving |
| `Workload.RunIsSafe` | Latent-GRPO/sglang_latent_reasoning_pkg/benchmark/hicache/bench_multiturn.py:259-331 | in every interleaving sent - completed stays within max_parallel, the progress bar never passes its total, and every client is in exactly one of ready, held, in flight, answered, response queue or handler until its last round is handled, then in none |
| `Workload.ProgressBound` | Latent-GRPO/sglang_latent_reasoning_pkg/benchmark/hicache/bench_multiturn.py:256-264 | the progress bar never runs past clients * rounds |
| `Workload.FullMeansNothingOpen` | Latent-GRPO/sglang_latent_reasoning_pkg/benchmark/hicache/bench_multiturn.py:281-282 | when the progress bar is full no client is ready, held or in flight |
| `Workload.CandidatesSuffice` | Latent-GRPO/sglang_latent_reasoning_pkg/benchmark/hicache/bench_multiturn.py:316-319 | candidate_inputs.pop() never meets an empty list |
| `Workload.RunWork` | Latent-GRPO/sglang_latent_reasoning_pkg/benchmark/hicache/bench_multiturn.py:259-331 | each client round takes exactly eight productive steps: in every run the steps taken and the work left add up to the work at the start |
| `Workload.NoWorkLeft` | Latent-GRPO/sglang_latent_reasoning_pkg/benchmark/hicache/bench_multiturn.py:259-331 | no work is left exactly when clients * rounds requests are completed and the handler has returned the last client |
| `Workload.NeverStuck` | Latent-GRPO/sglang_latent_reasoning_pkg/benchmark/hicache/bench_multiturn.py:259-331 | while work is left, max_parallel is at least one and the handler will not leave at its next check, a productive step can be reached within three steps |
| `Workload.LateResponseIsLost` | Latent-GRPO/sglang_latent_reasoning_pkg/benchmark/hicache/bench_multiturn.py:303-331 | the race is real: a response put between the empty wait and the check of the progress bar is never handled, and the request loop is left in front of its check with no room |
| `WorkloadRuns.ExitCompletesIff` | Latent-GRPO/sglang_latent_reasoning_pkg/benchmark/hicache/bench_multiturn.py:302-331 | in every run, when the handler leaves, all clients * rounds requests are completed if and only if, when its last wait ran empty, the progress bar was full and no task was between moving the bar and putting its response |
| `WorkloadRuns.FairRunsEnd` | Latent-GRPO/sglang_latent_reasoning_pkg/benchmark/hicache/bench_multiturn.py:259-331 | with max_parallel at least one, in every fair infinite run the response handler leaves |
| `WorkloadRuns.FairRunsCompleteIff` | Latent-GRPO/sglang_latent_reasoning_pkg/benchmark/hicache/bench_multiturn.py:259-331 | every fair run completes exactly clients * rounds requests if and only if that guard held at the last empty wait |
| `WorkloadRuns.FairSenderEndsIff` | Latent-GRPO/sglang_latent_reasoning_pkg/benchmark/hicache/bench_multiturn.py:268-282 | in a fair run the request loop ends too, if and only if it does not stand before its parallelism check with max_parallel responses unread when the handler leaves; it always ends when every request has been completed |
| `WorkloadRuns.SomeRunCompletes` | Latent-GRPO/sglang_latent_reasoning_pkg/benchmark/hicache/bench_multiturn.py:259-331 | a fair run of one client and one round with max_parallel 1: everything is completed and both threads end |
| `WorkloadRuns.SomeRunLosesAResponse` | Latent-GRPO/sglang_latent_reasoning_pkg/benchmark/hicache/bench_multiturn.py:302-331 | a fair run with max_parallel 2: both threads end, the response stays in the queue and nothing is completed |
| `WorkloadRuns.SomeRunHangs` | Latent-GRPO/sglang_latent_reasoning_pkg/benchmark/hicache/bench_multiturn.py:268-331 | a fair run with max_parallel 1: the handler leaves before the response and the request loop goes round for ever |
| `RedirectChains.ResolveRedirects` | Latent-GRPO/sglang_latent_reasoning_pkg/benchmark/line_retrieval/gen_data.py:56-76 | on every redirect map the scan ends; a line is in contains_ring exactly when following redirects reaches no unredirected line; every other line gets the exact path as its links and the original value of its root, although values are overwritten during the scan; a line that runs into a ring shows the original value of the line where it enters the ring |
| `RedirectChains.Walk` | Latent-GRPO/sglang_latent_reasoning_pkg/benchmark/line_retrieval/gen_data.py:63-74 | the inner loop terminates and stops at the root or at the first line met twice |
| `RedirectChains.RootIsUnique` | Latent-GRPO/sglang_latent_reasoning_pkg/benchmark/line_retrieval/gen_data.py:66-69 | the root and the links of a line are unique |
| `RedirectChains.LoopNeverReaches` | Latent-GRPO/sglang_latent_reasoning_pkg/benchmark/line_retrieval/gen_data.py:71-74 | a walk that meets a line twice never reaches an unredirected line, however it is continued |
| `RedirectChains.SourceIsSettled` | Latent-GRPO/sglang_latent_reasoning_pkg/benchmark/line_retrieval/gen_data.py:75-75 | the line whose value is copied has itself as its source, so overwriting in scan order is harmless |
| `DataProtoLaws.SelectMovesRows` | Latent-GRPO/verl-0.4.x/verl/protocol.py:434-468 | select_idxs succeeds exactly when every index lies in -n .. n - 1 and moves whole rows: row i of the result is row index[i] in every column, or row n + index[i] when it is negative |
| `DataProtoLaws.MaskMovesRows` | Latent-GRPO/verl-0.4.x/verl/protocol.py:434-468 | selecting by a mask moves whole rows |
| `DataProtoLaws.MaskKeepsMarked` | Latent-GRPO/verl-0.4.x/verl/protocol.py:434-468 | a mask keeps exactly the marked rows, each once and in order |
| `DataProtoLaws.RepeatMovesRows` | Latent-GRPO/verl-0.4.x/verl/protocol.py:720-757 | repeat, in both orders, moves whole rows: torch columns and numpy columns are repeated by one index map |
| `DataProtoLaws.InterleavedPlaces` | Latent-GRPO/verl-0.4.x/verl/protocol.py:730-733 | interleaved, row b * k + j of the result is row b |
| `DataProtoLaws.StackedPlaces` | Latent-GRPO/verl-0.4.x/verl/protocol.py:734-737 | stacked, row b * n + j of the result is row j |
| `DataProtoLaws.SampleRepeatMovesRows` | Latent-GRPO/verl-0.4.x/verl/protocol.py:796-838 | sample_level_repeat moves whole rows by one index map and needs one count per row |
| `TensorOps.RepeatEachCounts` | Latent-GRPO/verl-0.4.x/verl/protocol.py:796-838 | repetition by counts takes row b exactly counts[b] times |
| `TensorOps.RepeatEachAscends` | Latent-GRPO/verl-0.4.x/verl/protocol.py:796-838 | repetition by counts keeps the order of the rows |
| `DataProtoLaws.ReorderUndone` | Latent-GRPO/verl-0.4.x/verl/protocol.py:712-718 | reordering by a permutation and then by its inverse restores the batch |
| `DataProtoLaws.ConcatRows` | Latent-GRPO/verl-0.4.x/verl/protocol.py:690-710 | concat of parts with the same columns succeeds and joins their rows in order |
| `DataProto.BoundsAgree` | Latent-GRPO/verl-0.4.x/verl/protocol.py:665-683 | numpy.array_split at the running totals of the tensor pieces cuts the arrays at the same rows as the tensors |
| `DataProtoDispatch.ChunkCutsRows` | Latent-GRPO/verl-0.4.x/verl/protocol.py:652-688 | when chunk succeeds, its parts are aligned batches whose rows joined together are the rows of the batch |
| `DataProtoDispatch.PaddedChunkSucceedsIff` | Latent-GRPO/verl-0.4.x/verl/protocol.py:652-688 | with padding enabled, chunk into k succeeds if and only if k - 1 pieces of the rounded-up size leave a row for the last piece |
| `DataProtoDispatch.ChunkSucceedsIff` | Latent-GRPO/verl-0.4.x/verl/protocol.py:652-688 | chunk into k succeeds if and only if padding is enabled or k divides the rows, and, when there are tensors and rows, k - 1 rounded-up pieces leave a row for the last |
| `DataProtoDispatch.PartSizes` | Latent-GRPO/verl-0.4.x/verl/protocol.py:660-688 | with tensors every part but the last has the rounded-up share and the last the rest; with arrays alone the first n mod k parts have one row more than the others |
| `DataProtoDispatch.FiveRowsForFourWorkers` | Latent-GRPO/verl-0.4.x/verl/protocol.py:652-688 | five rows cannot be chunked for four workers |
| `DataProtoDispatch.EvenChunk` | Latent-GRPO/verl-0.4.x/verl/protocol.py:661-662 | when k divides the number of rows, chunk always succeeds |
| `DataProtoDispatch.PaddingProtos` | Latent-GRPO/verl-0.4.x/verl/protocol.py:82-87 | the padding loop ends, also when the padding exceeds the batch, and the parts it builds continue the batch cyclically |
| `DataProtoDispatch.PadToDivisor` | Latent-GRPO/verl-0.4.x/verl/protocol.py:70-95 | the padded length is the next multiple of the divisor, padded row i is row i mod n, and the original rows come first |
| `DataProtoDispatch.WorkersMapRows` | Latent-GRPO/verl-0.4.x/verl/protocol.py:652-710 | chunking, mapping rows on every worker and concatenating maps the rows of the batch, in order |
| `DataProtoDispatch.DispatchIsTransparent` | Latent-GRPO/verl-0.4.x/verl/protocol.py:70-101 | padding, chunking, any per-row function on each worker, concatenating and unpadding equals applying the function to the original rows |
| `DataProtoDispatch.PaddedBatchIsCut` | Latent-GRPO/verl-0.4.x/verl/protocol.py:70-95 | a batch padded to the number of workers can always be chunked |
| `DataProtoDispatch.KeywordDispatchLosesRows` | Latent-GRPO/verl-0.4.x/verl/single_controller/base/decorator.py:115-126 | a batch passed by keyword is not padded but the padding size is recorded as if it were, so the rows at the end are stripped from the result: never none, and a whole k of them when k divides the rows |
| `DataProtoDispatch.FourRowsOnTwoWorkers` | Latent-GRPO/verl-0.4.x/verl/single_controller/base/decorator.py:115-126 | four rows passed by keyword to two workers: the call runs and the last two rows do not come back |
| `DataProtoReshape.UnfoldUndoesFold` | Latent-GRPO/verl-0.4.x/verl/protocol.py:140-176 | unfold_batch_dim after fold_batch_dim returns the batch, for every number of groups that divides the rows |
| `DataProtoReshape.FoldUndoesUnfold` | Latent-GRPO/verl-0.4.x/verl/protocol.py:140-176 | fold_batch_dim after unfold_batch_dim returns the folded batch |
| `DataProtoReshape.SplitColumnKeepsRows` | Latent-GRPO/verl-0.4.x/verl/protocol.py:759-794 | unfold_column_chunks: row b * s + j of a split column is the j-th of the s equal parts of row b |
| `DataProtoReshape.ChunkedIsAligned` | Latent-GRPO/verl-0.4.x/verl/protocol.py:759-794 | unfold_column_chunks gives n * s rows in every column, and that batch size |
| `DataProtoReshape.KeptColumnKeepsRows` | Latent-GRPO/verl-0.4.x/verl/protocol.py:759-794 | unfold_column_chunks: row b * s + j of any other column is row b |
| `DataProtoReshape.ChunksSucceedIff` | Latent-GRPO/verl-0.4.x/verl/protocol.py:759-794 | unfold_column_chunks without split_keys fails exactly when the batch holds an array, which its documentation does not say; with them it succeeds exactly when s divides the rows of every column they name, and a batch without rows needs no division |
| `DataProtoReshape.BatchObject.Reorder` | Latent-GRPO/verl-0.4.x/verl/protocol.py:712-718 | reorder moves whole rows in place, and fails without a TensorDict or with an index out of bounds |
| `DataProtoReshape.BatchObject.Padding` | Latent-GRPO/verl-0.4.x/verl/protocol.py:637-650 | padding appends copies of the first or last row in place, and fails on an empty batch |
| `MegatronQkv.MergeQkv` | Latent-GRPO/verl-0.4.x/scripts/model_merger.py:377-405 | the nested loops over shards and chunks compute the joined query, key and value parts, or fail where a check or a split fails |
| `MegatronQkv.QkvRoundTrip` | Latent-GRPO/verl-0.4.x/scripts/converter_hf_to_mcore.py:112-116 | for all head counts, group counts, head sizes and tensor-parallel sizes dividing the key/value heads, packing, cutting into equal shards and merging returns exactly q, k and v |
| `MegatronQkv.ShardsChunkIntoBlocks` | Latent-GRPO/verl-0.4.x/scripts/model_merger.py:389-391 | the chunks of the shards are the packed groups, in order |
| `MegatronQkv.ShardSizes` | Latent-GRPO/verl-0.4.x/scripts/model_merger.py:384-398 | the split sizes that the merger derives from the first shard are those of one group |
| `MegatronQkv.GateUpRoundTrip` | Latent-GRPO/verl-0.4.x/scripts/model_merger.py:365-375 | halving the shards and joining the halves returns the gate and up projections of any number of ranks |
| `MegatronLayers.MergeStateDicts` | Latent-GRPO/verl-0.4.x/scripts/model_merger.py:431-472 | the loops over virtual stages, pipeline ranks and names give every layer parameter its global name; none overwrites another and nothing is invented |
| `MegatronLayers.NoClash` | Latent-GRPO/verl-0.4.x/scripts/model_merger.py:448-454 | renumbering never gives two layer parameters the same name |
| `MegatronLayers.LaterChunkHigherNumbers` | Latent-GRPO/verl-0.4.x/scripts/model_merger.py:436-470 | global numbers follow virtual-stage-major order |
| `MegatronLayers.GlobalLayers` | Latent-GRPO/verl-0.4.x/scripts/model_merger.py:448-470 | global layer x exists exactly when x lies in the range of some chunk |
| `MegatronLayers.NoHolesIff` | Latent-GRPO/verl-0.4.x/scripts/model_merger.py:470-470 | the ranges cover 0 .. total - 1 exactly if and only if no empty chunk stands before a chunk with layers |
| `MegatronLayers.MergedLayersAreContiguousIff` | Latent-GRPO/verl-0.4.x/scripts/model_merger.py:431-472 | the merged model holds exactly the layers 0 .. total - 1 if and only if no empty chunk stands before a chunk with layers; in particular when every chunk has a layer |
| `PassAtK.EstimatePassAtK` | Latent-GRPO/eval/eval_high_tasks_sglang.py:672-680 | the running product computes 1 - C(n-c,k)/C(n,k) for all n >= k and c <= n, and gives no estimate exactly when n < k |
| `PassAtK.RateIsProbability` | Latent-GRPO/eval/eval_high_tasks_sglang.py:672-680 | the estimate lies in [0,1], is 1 exactly when fewer than k samples are wrong, and 0 when none is correct |
| `PassAtK.RateGrowsWithCorrect` | Latent-GRPO/eval/eval_high_tasks_sglang.py:672-680 | the estimate is monotone in the number of correct samples |
| `PassAtK.RateGrowsWithDraws` | Latent-GRPO/eval/eval_high_tasks_sglang.py:672-680 | the estimate is monotone in k |
| `PassAtK.OneDrawIsAccuracy` | Latent-GRPO/eval/eval_high_tasks_sglang.py:672-680 | at k = 1 the estimate is c / n |
| `AverageRanks.AverageRanks` | latent_grpo_runner/metrics/probe.py:757-769 | every element gets half of (number less + number at most + 1) |
| `AverageRanks.RanksFollowOrder` | latent_grpo_runner/metrics/probe.py:757-769 | ranks are ordered as the values and tied as the values, both ways |
| `AverageRanks.RanksSum` | latent_grpo_runner/metrics/probe.py:757-769 | the ranks of n values sum to n (n + 1) / 2 |
| `AverageRanks.RanksDependOnOrder` | latent_grpo_runner/metrics/probe.py:757-769 | ranks depend on the order of the values only |
| `AverageRanks.ScaleDoesNotMatter` | latent_grpo_runner/metrics/probe.py:757-769 | a strictly increasing change of scale changes no rank |
| `Spearman.CauchySchwarz` | latent_grpo_runner/metrics/probe.py:747-754 | the sum of products is bounded by the sums of squares |
| `Spearman.DistinctMeansSpread` | latent_grpo_runner/metrics/probe.py:750-753 | two different values make the sum of squared deviations positive |
| `Spearman.Correlate` | latent_grpo_runner/metrics/probe.py:735-754 | a value is missing exactly for fewer than two finite pairs or a constant side; otherwise it lies in [-1,1], is the rank covariance over the product of the roots, and the zero-denominator exit is not reached |
| `Spearman.SameOrderIsPerfect` | latent_grpo_runner/metrics/probe.py:735-754 | values in the same order have correlation 1 |
| `Spearman.MiddleRank` | latent_grpo_runner/metrics/probe.py:747-750 | the mean that is subtracted from the ranks of n values is (n + 1) / 2 |
| `Spearman.PairsMean` | latent_grpo_runner/metrics/probe.py:738-738 | the pairs are, in order, those of exactly the places where both values are finite |
| `SufficientStats.FromValues` | latent_grpo_runner/metrics/aggregators.py:20-51 | one pass over values, mask and numerator mask gives the statistics of the finite unmasked values; a mask of another length is an error, without a mask every value is included and without a numerator mask none is a numerator; counted, not finite and masked values add up to all |
| `SufficientStats.MergeAll` | latent_grpo_runner/metrics/aggregators.py:65-69 | merge_all folds merge over the statistics |
| `SufficientStats.MergeIsConcat` | latent_grpo_runner/metrics/aggregators.py:53-62 | merging two statistics gives the statistics of all the values together |
| `SufficientStats.MergedIsGlobal` | latent_grpo_runner/metrics/aggregators.py:65-69 | for any split of the values, merging gives the statistics of the concatenation |
| `SufficientStats.MergedInAnyOrder` | latent_grpo_runner/metrics/aggregators.py:65-69 | the order of the statistics does not matter |
| `SufficientStats.MergeKeepsSound` | latent_grpo_runner/metrics/aggregators.py:53-62 | every merge keeps sum^2 <= count * sum_sq, min <= mean <= max and numerator <= count |
| `SufficientStats.OfIsSound` | latent_grpo_runner/metrics/aggregators.py:20-51 | the statistics of any values satisfy these |
| `SufficientStats.SoundMeasures` | latent_grpo_runner/metrics/aggregators.py:79-89 | the variance before the clamp is not negative, the mean lies between the extrema and the rate in [0,1] |
| `SufficientStats.MeasuresMean` | latent_grpo_runner/metrics/aggregators.py:79-89 | count times mean is the sum, and count^2 times the variance is count * sum_sq - sum^2 |
| `P1Packets.RecordRoundTrip` | latent_grpo_runner/metrics/p1.py:45-98 | a record reads back as the statistics it was made from |
| `P1Packets.ReadMeans` | latent_grpo_runner/metrics/p1.py:63-98 | a record reads exactly when it holds a nonempty version, four counts, two finite sums, extrema that are finite or absent, and no more numerators than values; each statistic is then that of its own field |
| `P1Packets.MergeSerialized` | latent_grpo_runner/metrics/p1.py:101-111 | records merge exactly when there is one, all hold one and the same nonempty version, and all read; the result holds that version; two versions are refused as disagreeing; otherwise the first record that does not read is the error, and the statistics are those of the records merged in order |
| `P1Packets.SerializedMergeIsGlobal` | latent_grpo_runner/metrics/p1.py:45-111 | for any split over workers and any order of arrival, serialising, validating, deserialising and merging gives the record of the statistics of all values |
| `P1Packets.MergeWorkerP1Packets` | latent_grpo_runner/metrics/p1.py:114-158 | unavailable without an error of its own exactly when the packets are not one for each rank; available exactly when, moreover, for every metric all packets hold a readable record under one version; each merged record then holds that version |
| `P1Packets.PacketsMergeGlobally` | latent_grpo_runner/metrics/p1.py:114-158 | whatever the order of the packets, each metric is the statistics of all workers' values together |
| `ComponentStats.ReducersAgree` | latent_grpo_runner/metrics/stage2.py:187-198 | the two component reducers agree on all inputs both accept; only the reference one refuses a negative threshold |
| `ComponentStats.CountsMean` | latent_grpo_runner/metrics/stage2.py:187-198 | near-zero margins are the valid finite ones between -t and t, negative ones those below zero |
| `ComponentStats.JoinedIsGlobal` | latent_grpo_runner/upstream_adapter.py:384-392 | merging the reductions of any split under one threshold equals reducing the concatenation |
| `ComponentStats.MergeComponents` | latent_grpo_runner/upstream_adapter.py:349-394 | components are available exactly when there is one packet for each rank and every worker sent rows, all of them reductions under one threshold and one definition, where an absent one counts as a value; they are then the joined rows under that threshold and definition |
| `ComponentStats.ComponentsAreGlobal` | latent_grpo_runner/upstream_adapter.py:228-394 | with one threshold and definition the coordinator gets the reduction of all workers' values |
| `EvalDispatch.BatchedList` | Latent-GRPO/eval/eval_high_tasks_sglang.py:461-463 | the batches are the consecutive slices of the list |
| `EvalDispatch.RunWorker` | Latent-GRPO/eval/eval_high_tasks_sglang.py:512-530 | the answers of a worker's batches joined together are the answers to its prompts, in order |
| `EvalDispatch.ChunksFitGpus` | Latent-GRPO/eval/eval_high_tasks_sglang.py:608-610 | ceil-chunking makes no more chunks than GPUs |
| `EvalDispatch.ArrivalOrderDoesNotMatter` | Latent-GRPO/eval/eval_high_tasks_sglang.py:620-630 | when every path gives the number of its own GPU and the GPUs that got a chunk are listed in ascending order, or there is only one chunk, sorting the files undoes every completion order |
| `EvalDispatch.RunOneEval` | Latent-GRPO/eval/eval_high_tasks_sglang.py:607-643 | the call fails exactly without data, without GPUs or when a path holds no readable number; otherwise no prediction is lost in any completion order, and prediction i answers record i, from the GPU that owns it, when the directory does not hold `_gpu_` and the active GPU ids ascend, or there is a single file |
| `EvalDispatch.OrderIsKeptIff` | Latent-GRPO/eval/eval_high_tasks_sglang.py:607-643 | for distinct active GPU ids and any output directory, prediction i answers record i for every engine, all data and every completion order, if and only if the directory does not hold `_gpu_` and the ids of the GPUs that get a chunk are listed in ascending order, or it does hold it, there is one chunk, and the directory leaves the file a number; the other ids do not matter |
| `EvalDispatch.DescendingGpusSwap` | Latent-GRPO/eval/eval_high_tasks_sglang.py:630-630 | with the GPU ids in descending order two predictions come back swapped |
| `EvalDispatch.NumberedDirectorySwaps` | Latent-GRPO/eval/eval_high_tasks_sglang.py:616-630 | in a directory named like exp_gpu_8_a two files arriving in the wrong order come back swapped, although the GPU ids ascend |
| `PredictionPaths.OwnKey` | Latent-GRPO/eval/eval_high_tasks_sglang.py:616-630 | in a directory without `_gpu_` the sort key of a file is the number of its GPU, for every directory, tag and integer |
| `PredictionPaths.ForeignKey` | Latent-GRPO/eval/eval_high_tasks_sglang.py:616-630 | in a directory with `_gpu_` the sort key is the same for all GPUs, or cannot be read for any |
| `PredictionPaths.MarkedDirectory` | Latent-GRPO/eval/eval_high_tasks_sglang.py:630-630 | the text between the first `_gpu_` of the directory and the next underscore is what is read as the number of every file |
| `BoxedText.LastBoxedOnlyString` | Latent-GRPO/eval/eval_high_tasks_sglang.py:157-178 | with a spaced box the text after the last one up to a dollar sign; otherwise the shortest text from the last box or frame that ends in a brace bringing the depth to zero, None when no brace does |
| `BoxedText.MatchBrace` | Latent-GRPO/eval/eval_high_tasks_sglang.py:166-177 | the counter finds the first closing brace that brings the depth to zero, if there is one |
| `BoxedText.BoxCloses` | Latent-GRPO/eval/eval_high_tasks_sglang.py:166-177 | for balanced content the brace after the content is the first that closes the box |
| `BoxedText.NestedIsBalanced` | Latent-GRPO/eval/eval_high_tasks_sglang.py:166-177 | what the round trip calls balanced is closed under joining and putting in braces, so every nested answer is covered |
| `BoxedText.BoxRoundTrip` | Latent-GRPO/eval/eval_high_tasks_sglang.py:146-178 | for balanced content, no spaced box anywhere and no later box, extracting the last box and stripping it gives the content back |
| `BoxedText.SpacedRoundTrip` | Latent-GRPO/eval/eval_high_tasks_sglang.py:146-160 | with a spaced box the text behind the last one, up to a dollar sign, comes back |
| `BoxedText.RemoveBoxedMeans` | Latent-GRPO/eval/eval_high_tasks_sglang.py:146-154 | stripping gives c exactly for a spaced box in front of c, and for a box around c without a spaced box anywhere |
| `SupportSelection.BestCandidate` | latent_grpo_runner/metrics/support.py:188-196 | none exactly when no trajectory of the group and class is finite and not overlong; otherwise one of these that none outranks: no higher score, no smaller id at the same score, no later place at the same id |
| `SupportSelection.SelectTrajectories` | latent_grpo_runner/metrics/support.py:178-197 | exactly the trajectories that none of their group and class outranks are selected, one for each group and class that has a candidate |
| `SupportSelection.CollectRows` | latent_grpo_runner/metrics/support.py:117-168 | one row for each selected trajectory with its rates, its effective positions and the number of candidates of its group, no two rows with the same primary key, and a benchmark row with the number of rows, of candidates and of effective positions |
| `SupportSelection.CountsConserved` | latent_grpo_runner/metrics/support.py:170-201 | the candidate counts of the groups sum to the benchmark's candidate count |
| `SupportSelection.Retention` | latent_grpo_runner/metrics/support.py:126-155 | a position counts when it is included and holds no padding; the retention is the number of different rollout tokens that are clean tokens of their position, over k times the counted positions, and the top-1 retention the share of counted positions whose first token is clean; with different tokens at each position it is 1 exactly when all are clean, 0 exactly when none is, and for one position the share of its k places; both are missing exactly when no position counts |
| `SupportSelection.CountsMean` | latent_grpo_runner/metrics/support.py:126-140 | the accumulators of the loop are the numbers of counted positions, of kept tokens and of kept first tokens |

## Left out

- Parquet and JSON formats and fsync: a part is its rows with a readable flag and a schema-match flag; a read-back of what was just written succeeds.
- The smallest and largest key of a part's metadata, and custom primary keys or backends: they never decide anything in the writer.
- The order of equal part numbers in a directory listing: the listing is kept in part-number order.
- Names with UUIDs: a nonce, fresh per event.
- The JSON side files for GPU memory and probe runtime, and the contents of train rows beyond key, step, optimizer step and resume marker.
- A checkpoint directory other than the default one, and checkpoints deleted by hand: a tracker to a missing one starts over in the program.
- Partial contents of the latest-checkpoint file other than none at all: its few digits are written at once.
- A joint commit of row table and benchmark table: the program appends to them one after the other and promises none.
- OutputValidator.ValidateRecords: covers required and null fields, keys, step order, token continuity and checkpoint_step; not physical types, unexpected names, versions, counts, rates, standard deviations and the top-k lists, which are checks of single rows.
- Failed requests and request latencies in the workload generator: every request is answered successfully; max_parallel of zero never sends.
- Waiting times in the workload generator: a wait that runs empty may do so at any time the response queue is empty.
- The draw of redirect targets and the text of the lines: any redirect map whose targets exist.
- Torch, Ray, SGLang and CUDA: tensors are sequences of rows, deeper dimensions nested vectors.
- A TensorDict of no rows: cut like a torch tensor of no rows; folding no rows is an error.
- A repetition count list of length one for a batch of several rows, which torch and numpy broadcast: treated as an error.
- DataProtoReshape.BatchObject.Reorder: the columns are replaced by new values; sharing of storage between batches is not modelled.
- Rewriting the argument's own dictionary in fold_batch_dim: the round trip speaks of the returned batch.
- meta_info, rename, union, pop, select, iterators and futures of the batch protocol: no row moves, or only to the caller's order.
- Positional automatic padding in the decorator: its padding is `DataProtoReshape.BatchObject.Padding`, and `DataProtoDispatch.DispatchIsTransparent` covers any padding after the rows.
- Weights other than QKV and fc1, key renaming to Hugging Face names, and loading of shards.
- MegatronLayers.MergeStateDicts: a QKV or fc1 entry stays one name; its split into q, k, v or gate, up happens under the layer's name.
- Floating-point rounding everywhere; exp and log quantities such as effective_k and Gumbel noise.
- The quantile helper and the restoration of packed probe tensors.
- Optimizer-step consensus and GPU memory rows of worker packets, and the texts of unavailability reasons.
- ComponentStats.MergeComponents: a row whose counts or numbers are of the wrong kind is one malformed row; which reason is reported is not modelled.
- EvalDispatch.OrderIsKeptIff: repeated GPU ids, which make two workers write one file.
- PredictionPaths.MarkedDirectory: digits and white space outside ASCII, which Python's int() also accepts.
- TrainTableAudit.FaithfulTablePassesValidation: token counts of train rows, which the writer takes as they come; OutputValidator.CleanTokensTelescope says what a clean token check means.
- EvalDispatch.RunOneEval: an engine that answers a prompt depending on other prompts of its batch, and worker errors.
- Input validation of the support collector: its selection and measures start from validated vectors.
- Profile arithmetic and its divisibility checks: each is one line of integer division.
- LaTeX normalisers, report builders, launchers and the other benchmark clients.
