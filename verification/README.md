# Evaluation service: models and proofs

This project models three parts of the evaluation service and proves what they keep.

* **The Starlark module loader** (`LoadGraph.dfy`, `Loader.dfy`). `LoadGraph.Naive` loads a module by plain
  recursion, with no cache and no cycle check; `LoadGraph.Verdict` is its outcome, or "cycle" where it never
  ends. `Loader.Loader` is the memoising loader with its placeholder, in the source's imperative form, proved to
  answer every request with the verdict, whatever the cache holds and whichever modules are in progress.
* **The deep size of an object graph** (`Graphs.dfy`, `FiniteSums.dfy`, `SizeOf.dfy`, `DeepSize.dfy`, `Promise.dfy`,
  `SizeLaws.dfy`, `Recursion.dfy`). `SizeOf` says what a value costs by itself, what it reaches, and what the total
  is, as sets and sums; `DeepSize.Sizer` is the traversal that threads one set of seen addresses, proved to compute
  that total. `SizeLaws` proves of the total the equations of the traversal, kind by kind, with every size written
  out. `Promise` defines the documented size separately and says by exactly how much the two differ. `Recursion` is
  about values that hold themselves, and says exactly when the traversal ends.
* **The build protocol** of engine, cache and builder. `Protocol` gives the state of cache, builder, cluster and
  registry and every atomic step as functions; a run is any sequence of steps by any number of clients and workers,
  and of whatever jobs do. `Invariants` and `Conservation` say what every run keeps, `Hits` which builds requests are
  served from, `Answers` what polls and hits are answered, `Endings` what it says of a job that its build is
  recorded as done; `Replies` spells out every case of requests, polls and workers' steps, field by field; `Samples`
  has the runs that examples start from. The services are the classes of `Builder`,
  `Cache` and `Engine`, whose methods are proved to take exactly those steps. `Evaluations` breaks the engine's
  handlers into their single calls, with any other steps and any other evaluations in between, and says what the
  replies mean; `Served` ties them to the requests that started the builds; `Prospects` says which evaluations can
  still be answered done. `Handlers` shows that these moves taken in one go give the contracts of the service's
  `Eval` and `GetOperation`, replies included.

Two supporting pieces, `MultiCache.dfy` and `Targets.dfy`, rest on the sorting and text lemmas of `Strings.dfy`.

Running `dafny verify dfyconfig.toml` in this directory checks the whole project.

## How the outside is represented

* A program is a finite map from file names to lists of load targets, with a function that runs a file up to its next
  load statement given the globals loaded so far; the function may fail at any point. A name without a file fails.
* A heap maps addresses to values, one value per address and no pointers into the middle of one; slices, maps,
  structs and arrays hold their parts, so every cycle passes through a pointer. Map entries are visited in an
  arbitrary order, chosen anew at every map. In `Recursion` every value has a place of its own instead, and slices
  and maps may hold themselves; sizes are left out there.
* The logarithm behind the bucket count is exact. Sizes are added exactly and reduced to 64 bits once at the end,
  which is what adding and multiplying modulo the range of `uintptr` amounts to.
* UUIDs come from a source that never repeats. A digest stands for what is hashed into it (no collisions). Each
  handler of the cache and of the builder is one atomic step; calls between services arrive; nothing restarts.
* The jobs of the namespace are those the builder created. A job is deleted only after it is over, as its time to live
  has it (`cmd/builder/main.go:251`). A job that succeeds pushes an image with some digest under its own tag, one that
  fails pushes none; later pushes under a tag that is there may change the digest, none removes it. Whether the
  registry answers is a parameter of every poll. Tasks leave the queue in order, and a worker creates its job and
  starts to watch in one step.
* A worker's watch covers all jobs (`cmd/builder/main.go:333-335`): it yields deletions of any of them, other changes,
  or the end of its 600 seconds, in any order; whether the pods can be listed is a parameter of every event.
* Where a Go handler dereferences nil or calls `log.Fatal`, the model's reply says `Crashed` or `EvalHalted`. A
  crashed cache is gone with its maps, while a run of `Protocol` may go on: what is said of further runs of the cache
  is about runs up to the first crash. None of the runs exhibited has one before its end, and the continuations of
  `Answers.CanBeDoneIff` and `Prospects.CanBeAnsweredIff` that lead to a done answer make no request but polls.

## Where the code differs from what is written about it

* `pkg/sizeof/sizeof.go:13-16` promises all substructures via maps, pointers and slices. A struct's traversal looks
  into its pointer and slice fields only (`Promise.StringFieldLeftOut`, `Promise.MapFieldLeftOut`), not into nested
  structs, and an array's not at all (`Promise.NestedPointerLeftOut`); a map's own word is overwritten by its buckets
  (`Promise.MapWordLeftOut`); a slice field's header is counted a second time (`Promise.SliceFieldTwice`); spare
  capacity is charged at the size of a slice header per slot (`Promise.SpareSlots`). `Promise.TotalBalance` is the
  exact difference and `Promise.PromiseKeptIff` says when there is none.
* The same lines promise that cycles are counted once. A cycle through slices and maps alone is never left
  (`Recursion.SelfHolding`); the traversal ends exactly if it reaches no such cycle (`Recursion.EndsIff`).
* The builder records a build as done when its watch sees the deletion of any job, or ends
  (`cmd/builder/main.go:360-390`). The record says that the build's job is over exactly if the deletion was that of
  its own job (`Endings.TellsJobOverIff`), and never that the job succeeded (`Endings.NoneTellsJobSucceeded`). Every
  "recorded as done" below means this record and no more. What does vouch for the job is a digest in the answer:
  `Endings.HitImageIff`. An answer without one is kept for good (`Endings.EmptyDigestForEver`).
* `cmd/cache/main.go:283-285` returns the builder's raw answer once it is stored, which the engine cannot unpack
  (`cmd/engine/main.go:300-304`). The engine halts on a row exactly if its answer is stored as done
  (`Evaluations.HaltsIffStored`), so on the first poll after one it answered done (`Evaluations.NextPollHalts`, with
  the run of `Evaluations.HaltingRun`).
* A miss builds the graph's `build` action but files it under the digest of the action asked for
  (`cmd/cache/main.go:247-273`). A hit's build is what was requested exactly if the request that once started it
  named one commit (`Hits.HitMeetsIff`, with the run of `Hits.TwoCommitsHitWrongBuild`); the cache as a whole holds
  no misfiled entry exactly if no such request ever started a build (`Hits.RunSoundIff`).
* A hit is always answered done, and carries an image exactly if someone polled the operation after its build
  was recorded as done (`Answers.HitImageIffPolled`); `Answers.HitWhileRunning` has one without, its job still active.
* A worker that cannot list its pods leaves an operation that is never done (`Answers.AbandonedRun`); all other
  operations can still be (`Answers.CanBeDoneIff`).
* The build command reads the joined targets as shell words (`dockerfile:11`), which are the recorded ones exactly if
  none is empty or holds white space (`Endings.JobBuildsTargetsIff`). An override that is empty, or has a space first,
  last or next to another, gives a run in which they differ (`Targets.OverrideNotBuilt`).
* The cache crashes on a request without a graph, and on one that would start a build for a graph without a build
  action (`Hits.GetCrashesIff`), such as the client's own "generate" graph (`Hits.GenerateCrashesIff`).
* An evaluation of two names that are served by one operation is never answered done to a poll: the second row meets
  the answer that the first has stored, and halts the engine. A new poll can be answered done exactly if all rows have
  operations of their own, none stored as done and none given up (`Prospects.CanBeAnsweredIff`, with the run of
  `Prospects.TwinsNeverAnswered`).

## Model

| member | source | states |
|---|---|---|
| `Loader.Loader.Load` | pkg/egraph/egraph.go:25-53 | At any depth, the answer equals the verdict of uncached evaluation; finished entries are never changed and every new one is of a module reachable from the one loaded; the modules in progress are the same after the call as before; each module is executed at most once; the successful ones finish dependencies first; it terminates on cyclic graphs too |
| `Loader.Loader.ExecFile` | pkg/egraph/egraph.go:36-40 | Loading the targets in order and stopping at the first error gives the file's verdict, and on success every target has finished before |
| `Loader.Loader.Begin` | pkg/egraph/egraph.go:33-34 | Adding the placeholder puts the module on the stack of modules in progress and keeps everything else |
| `Loader.Loader.Finish` | pkg/egraph/egraph.go:42-43 | Replacing the placeholder takes the module off the stack and keeps the finishing order topological |
| `Loader.LoadRoot` | pkg/egraph/egraph.go:22-58 | A run from an empty cache leaves no placeholder, only entries equal to their modules' verdicts; it executes each module at most once and only ones that the root reaches, and after a success has loaded all of these |
| `LoadGraph.ErrorIffReachesCause` | pkg/egraph/egraph.go:26-44 | A verdict is an error exactly when load statements lead from the module to a cycle or to a file whose own execution fails |
| `LoadGraph.ErrorHasCause` | pkg/egraph/egraph.go:26-44 | The cause named by an error is one the module reaches: a cycle for "cycle", the failing file otherwise |
| `LoadGraph.CycleIffDiverges` | pkg/egraph/egraph.go:28-31 | The verdict is "cycle" exactly when evaluation without cache and cycle check never ends |
| `LoadGraph.ReenteredVerdict` | pkg/egraph/egraph.go:28-31 | A module asked for while it is in progress, through modules each waiting for the next, has the verdict "cycle" |
| `LoadGraph.OkUnfolds` | pkg/egraph/egraph.go:38-40 | A module succeeds with given globals exactly if all its loads succeed and running it on their globals yields them |
| `LoadGraph.ErrorPropagates` | pkg/egraph/egraph.go:38-40 | The first failing load decides the verdict of the file |
| `DeepSize.DeepSize` | pkg/sizeof/sizeof.go:34-36 | The result is the value's own size plus that of every distinct reachable address once, as an int64; what this comes to for each kind of value is in the rows of `SizeLaws` |
| `DeepSize.Sizer.ValueSize` | pkg/sizeof/sizeof.go:38-105 | From any seen set: adds exactly the addresses reachable past it, and returns the value's own size plus theirs, each once, for every order of map entries; it terminates on every heap in which all cycles pass through pointers, as `SizeOf.Value` has it (for others, `Recursion.EndsIff`) |
| `DeepSize.Sizer.Chase` | pkg/sizeof/sizeof.go:41-46 | A pointer adds its pointee's total only if not nil and not seen |
| `DeepSize.Sizer.SliceSize` | pkg/sizeof/sizeof.go:48-59 | Header, elements and spare capacity, sharing the seen set across elements (in numbers: `SizeLaws.SliceTotal`, `SizeLaws.SpareTotal`) |
| `DeepSize.Sizer.MapSize` | pkg/sizeof/sizeof.go:61-82 | Bucket headers, entries in any order, and free slots |
| `DeepSize.Sizer.StructSize` | pkg/sizeof/sizeof.go:84-98 | The struct's size and what its pointer and slice fields add |
| `DeepSize.ToInt64` | pkg/sizeof/sizeof.go:35 | The one number of the int64 range congruent to the total modulo 2^64 |
| `SizeLaws.FlatTotal` | pkg/sizeof/sizeof.go:39-105 | Values without parts cost their type's size, strings 16 bytes and their length, arrays their own size, nil pointers 8, and see nothing |
| `SizeLaws.PointerTotal` | pkg/sizeof/sizeof.go:41-46 | A pointer costs 8 bytes if its address was seen, and otherwise also what its pointee costs with the address seen; what has been seen afterwards |
| `SizeLaws.EmptyTotal` | pkg/sizeof/sizeof.go:48-84 | An empty slice costs 24 bytes, a struct without fields its size |
| `SizeLaws.SliceTotal` | pkg/sizeof/sizeof.go:49-52 | One more element costs what it costs past what those before it have seen |
| `SizeLaws.SpareTotal` | pkg/sizeof/sizeof.go:57-59 | A capacity c above the length n costs 24 * (c - n) bytes on top, any other nothing |
| `SizeLaws.StructTotal` | pkg/sizeof/sizeof.go:86-98 | One more field costs what its pointee or slice costs past what those before it have seen, or nothing |
| `SizeLaws.MapTotal` | pkg/sizeof/sizeof.go:72-82 | A map costs 16 bytes per bucket, its free slots, and its keys and values as listed in a slice |
| `SizeLaws.FreeBytesAre` | pkg/sizeof/sizeof.go:80-82 | Free slots are eight per bucket less the entries, each the size of a key and a value |
| `SizeLaws.ScalarSlice` | pkg/sizeof/sizeof.go:48-59 | A slice of n scalars of size k and capacity c costs 24 + n * k, and 24 * (c - n) if c > n; promised are k bytes per slot |
| `SizeLaws.ScalarMapPromise` | pkg/sizeof/sizeof.go:23-25 | A map of scalars is promised to cost 8 bytes and its buckets, each 16 + 8 * (key size + value size) |
| `Recursion.EndsIff` | pkg/sizeof/sizeof.go:38-98 | The traversal of a value whose slices and maps may hold themselves ends exactly if it reaches none that holds itself without a pointer on the way |
| `Recursion.SelfHolding` | pkg/sizeof/sizeof.go:48-52 | A slice that is its own element, on which it never ends |
| `Promise.TotalBalance` | pkg/sizeof/sizeof.go:13-16 | The computed size is the promised one less exactly what is left out (own words of maps, spare slots larger than a slice header, what fields and array elements own, pointees not reached) and more by exactly what is counted too much (slice fields' headers, spare slots smaller than one) |
| `Promise.PromiseKeptIff` | pkg/sizeof/sizeof.go:13-16 | They are equal exactly if both amounts are; with nothing counted too much, the size is never more and right exactly if nothing reached has anything left out; with nothing left out, never less and right exactly if nothing is counted too much |
| `Promise.LeftOutZeroIff` | pkg/sizeof/sizeof.go:84-98 | Nothing is left out exactly if no map, no such spare slot, and no array element or struct field that owns anything, slice fields aside, is among the value and what it reaches, and all pointees with a size are reached |
| `Promise.TooManyZeroIff` | pkg/sizeof/sizeof.go:54-59 | Nothing is counted too much exactly if no struct among them has a slice field and no slice has spare slots smaller than a slice header |
| `Promise.StringFieldLeftOut` | pkg/sizeof/sizeof.go:86-98 | A struct whose string field costs its header only, however long the string |
| `Promise.StringElementLeftOut` | pkg/sizeof/sizeof.go:38-105 | An array whose string element costs its header only, however long the string |
| `Promise.MapFieldLeftOut` | pkg/sizeof/sizeof.go:86-98 | A struct whose map field costs its word only |
| `Promise.MapWordLeftOut` | pkg/sizeof/sizeof.go:72 | A map that costs its buckets but not its word |
| `Promise.NestedPointerLeftOut` | pkg/sizeof/sizeof.go:86-98 | A pointer in a nested struct or an array whose pointee is not reached |
| `Promise.SliceFieldTwice` | pkg/sizeof/sizeof.go:95-96 | A struct whose slice field costs its header twice |
| `Promise.SpareSlots` | pkg/sizeof/sizeof.go:57-59 | A hundred spare slots cost 2400 bytes, whatever the size of an element |
| `SizeOf.BucketCountIsLeast` | pkg/sizeof/sizeof.go:62-71 | The bucket count is the least power of two at least len/6.5; its slots hold the entries, so line 82 does not wrap; beyond one bucket, 13 times it is below 4 times len |
| `SizeOf.ScalarMapTotal` | pkg/sizeof/sizeof.go:62-82 | A map of scalars costs its bucket count times 16 + 8 * (key size + value size) |
| `SizeOf.TotalShrinks` | pkg/sizeof/sizeof.go:38-105 | A value never costs more when more has been seen |
| `SizeOf.SharedCountedOnce` | pkg/sizeof/sizeof.go:13-16 | Two values together cost the sum of each alone less what both reach, counted once |
| `SizeOf.SliceAtMostElements` | pkg/sizeof/sizeof.go:48-59 | A slice costs at most its header, spare capacity and elements taken alone |
| `SizeOf.MapAtMostEntries` | pkg/sizeof/sizeof.go:61-82 | A map costs at most its bucket headers, free slots, and keys and values taken alone |
| `SizeOf.StructAtMostFields` | pkg/sizeof/sizeof.go:84-98 | A struct costs at most its own size and what its pointer and slice fields cost alone |
| `Graphs.ReachThen` | pkg/sizeof/sizeof.go:41-46 | Traversing on with what was seen reaches together what both roots reach, nothing twice |
| `SizeOf.StructIgnoresOtherFields` | pkg/sizeof/sizeof.go:84-98 | Fields other than pointers and slices make no difference to a struct's total |
| `Actions.GetActionFinds` | cmd/cache/main.go:161-177 | A path finds the action of a key exactly if it is the dot-free graph name, a dot and the key, dots in the key included, or the bare name for the empty key |
| `Actions.SameDigestIff` | pkg/actions/actions.go:62-86 | Two actions share a digest exactly if they are of one kind and agree in the base image and all four fields of the commit point, or in the id |
| `Actions.DigestExists` | pkg/actions/actions.go:94-105 | An action has a digest exactly if its configuration is of the type of its kind, one of two |
| `Replies.MainActionIff` | cmd/cache/main.go:161-193 | A request asks for the action of its graph, if it has one, that its path names |
| `Cache.AreCompatible` | cmd/cache/main.go:116-123 | True exactly if every wanted target is among the cached ones |
| `Cache.CacheService.BackendGet` | cmd/cache/main.go:125-148 | Answers with the lookup that `Hits.FirstAcceptableIsFirst` characterises |
| `Cache.CacheService.Get` | cmd/cache/main.go:186-280 | Takes the protocol's Get step and gives its reply, error and crash cases included; if it changes anything, a build of the graph's "build" action was recorded, queued and filed as `Replies.Starts` spells out, and the reply is not done |
| `Cache.CacheService.GetOperation` | cmd/cache/main.go:282-343 | Takes the protocol's Poll step and gives its reply; unknown names count as done; while the build is not recorded as done, the reply is not done and its image has an empty name, tag and digest |
| `Builder.BuilderService.Build` | cmd/builder/main.go:60-111 | The build is new, on record under fresh ids as asked for, in the queue and in no other stage; every build stays in exactly one stage and jobs keep matching records |
| `Builder.BuilderService.GetOperation` | cmd/builder/main.go:129-173 | Done exactly if the build is recorded as done, then with the recorded image; its digest is not empty exactly if the registry answers and the build's own job succeeded |
| `Builder.BuilderService.HandleBuildTask` | cmd/builder/main.go:565-577 | Takes the head of the queue exactly if there is one and fewer than two builds run; the new active job carries what the build's record says; all other builds stay in their stage, each in exactly one |
| `Builder.BuilderService.OnJobEvent` | cmd/builder/main.go:359-390 | A build becomes recorded as done exactly if its own watch ends or sees any job deleted with the pods listed; no build loses its stage or its record |
| `Engine.EngineService.Eval` | cmd/engine/main.go:157-232 | Makes the requests in order and stops at the first failure, filing nothing; otherwise files one row per value with the cache's last answer for it, and is done, with all values, exactly if no build was started; without the cache every value starts a build of its own, with it every value that something served before gets that operation, and all served means done |
| `Engine.EngineService.NewEvaluation` | cmd/engine/main.go:139-148 | In whatever order rows are inserted, the evaluation has one row per value and no other evaluation's rows change |
| `Engine.EngineService.GetOperation` | cmd/engine/main.go:288-326 | Halts exactly if a row's answer is stored as done when it is polled; otherwise done exactly if every build behind the evaluation is recorded as done, with a value for exactly the rows whose build is, each the image of that build; after a done reply the next poll halts |
| `Evaluations.DoneAnswer` | cmd/engine/main.go:288-326 | Over all interleavings of creations and polls of evaluations, one call at a time, with steps of clients, workers, cluster and registry: when a poll of a created evaluation is answered done, the reply has a value for exactly the names requested, each the image of the build behind the cache's answer to the request for that name: recorded as done, found in the bucket of the action asked for, and with a digest only if its job succeeded |
| `Evaluations.CreationAnswer` | cmd/engine/main.go:205-230 | In all of them the reply to a creation has values only if it is done, then for exactly the names requested, each empty or the image of a build recorded as done, in an entry acceptable to the request |
| `Evaluations.AskWithoutCache` | cmd/engine/main.go:168-173 | In all interleavings a request that skips the cache starts a new build and is not done, or ends the creation |
| `Evaluations.AskWithCache` | cmd/engine/main.go:168-173 | In all of them a request that uses the cache and is served by an entry is answered done with its operation, and changes nothing |
| `Evaluations.HaltedForEver` | cmd/engine/main.go:302-304 | A halted engine does nothing any more |
| `Served.ValueMeetsIff` | cmd/engine/main.go:167-200 | In all of them the build behind a name has the commit, branch and targets of the action asked for exactly if the request that once started it named one commit and it has all targets wanted; an answer that was done always has these |
| `Served.TraceRuns` | cmd/engine/main.go:167-200 | What any interleaving does to the services is a run of their steps, so what holds of all runs holds of it |
| `Prospects.CanBeAnsweredIff` | cmd/engine/main.go:288-326 | A new poll of an evaluation is answered done in some continuation exactly if its rows' operations are all different, none stored as done and none with an abandoned build |
| `Prospects.SharedNeverAnswered` | cmd/engine/main.go:295-311 | No new poll of an evaluation with two names answered by one operation ever is |
| `Prospects.TwinsNeverAnswered` | cmd/engine/main.go:295-311 | A run with such an evaluation: two names of one action |
| `Evaluations.PlayKeeps` | cmd/engine/main.go:139-232 | In all of them the services keep their invariants; every creation, under way or filed, holds for exactly the values served an answer that still stands: its operation is in the bucket of the action asked for, in an acceptable entry if it was a hit and in one for the graph's build action otherwise, and its image, if any, is of a build recorded as done; the rows are those of the answers; and every poll has collected only values of builds recorded as done |
| `Evaluations.HaltsIffStored` | cmd/engine/main.go:300-304 | In all of them the engine halts on a row exactly if the cache has the operation stored as done |
| `Evaluations.NextPollHalts` | cmd/engine/main.go:295-311 | Once an evaluation was answered done, the first row of any other poll of it halts the engine |
| `Evaluations.HaltingRun` | cmd/engine/main.go:300-304 | A run of one client that does |
| `Evaluations.RowsStayLinked` | cmd/engine/main.go:139-148 | Whatever step the services take, the engine's rows keep naming operations of the cache |
| `Handlers.PollInOneGo` | cmd/engine/main.go:295-311 | With nothing in between, the polls of an evaluation halt exactly under the condition of the service's GetOperation, and otherwise collect what its contract says after the same run |
| `Handlers.AskInOneGo` | cmd/engine/main.go:167-200 | With nothing in between, the requests of a creation have the answers the service's Eval has, after the same run, up to the first refused |
| `Handlers.CreateInOneGo` | cmd/engine/main.go:139-230 | Filed with nothing in between, in any order, an evaluation has the rows and its client the reply that Eval's contract says: done exactly if no build was started, and only then values |
| `Engine.HandlersAreRuns` | cmd/engine/main.go:295-299 | What the engine's handlers do to cache and builder is a run of their steps, so what holds after all runs holds after them |
| `Engine.EngineService.PollRow` | cmd/engine/main.go:297-310 | One row's poll, added to the conjunction and the results |
| `Invariants.AlwaysInv` | cmd/cache/main.go:92-107 | After every run: operations and builds correspond one to one, every entry's build is on record with the entry's commit and targets, every operation is in exactly one place, every build in exactly one stage with a matching task and job, workers hear only of deletions of jobs that are over, a tag has an image exactly if its job succeeded, and an answer stored as done is of a build recorded as done, with a digest only if its job succeeded |
| `Invariants.MissInv` | cmd/cache/main.go:247-273 | A request that starts a build keeps all of it |
| `Invariants.StartStaged` | cmd/builder/main.go:565-577 | Taking a task keeps every build in exactly one stage |
| `Invariants.StartJobs` | cmd/builder/main.go:321-326 | The job created carries the data on the build's record |
| `Replies.NeverThree` | cmd/builder/main.go:588 | After every run at most two builds are running |
| `Replies.StartsFirst` | cmd/builder/main.go:565-577 | The first task is taken exactly if there is one and fewer than two builds run; its job is active |
| `Invariants.EventInv` | cmd/builder/main.go:360-390 | Whatever its watch yields, a worker keeps all of it |
| `Invariants.DeleteInv` | cmd/builder/main.go:251 | So does the deletion of a job, of which all workers watching will hear |
| `Hits.FirstAcceptableIsFirst` | cmd/cache/main.go:135-143 | A bucket answers with its first entry whose targets include all wanted ones, and with none exactly if there is none |
| `Hits.CoveredStartsNoBuild` | cmd/cache/main.go:200-244 | A request covered by an entry of its bucket is a hit and changes nothing |
| `Hits.HitStable` | cmd/cache/main.go:135-154 | Once a request hits an operation it hits the same one after every further run |
| `Hits.MissServesIff` | cmd/cache/main.go:125-155 | In any state, what a request starts to build serves another, which nothing served, exactly if both ask for actions of one digest and the build has all targets wanted |
| `Hits.MissSoundIff` | cmd/cache/main.go:247-273 | A miss keeps every bucket free of entries built from another commit exactly if the action asked for and the build action name the same commit |
| `Hits.RunSoundIff` | cmd/cache/main.go:247-273 | After any run every bucket is so exactly if no build was started for a request whose asked-for action and build action name different commits |
| `Hits.HitMeetsIff` | cmd/cache/main.go:200-273 | After any run, the builder's record behind a hit has the requested commit, branch and all requested targets exactly if the request that once started that build named one commit |
| `Hits.EntryMeetsIff` | cmd/cache/main.go:135-155 | Any entry's build meets an action looked up in its bucket exactly if the request that started it named one commit and the build has all the action's targets |
| `Hits.FiledOnce` | cmd/cache/main.go:258-273 | One request of a run started the build of an operation, and only one |
| `Hits.OrdinaryIsSound` | cmd/cache/main.go:43-48 | Runs whose requests use the cache and ask for the build action never misfile an entry |
| `Hits.TwoCommitsHitWrongBuild` | cmd/cache/main.go:247-273 | A concrete request that names two commits and then hits a build of the wrong one |
| `Hits.MissNoRedundancyIff` | cmd/cache/main.go:135-154 | A miss keeps buckets free of entries covered by earlier ones exactly if nothing in the bucket covers what it builds |
| `Hits.NoRedundancyIff` | cmd/cache/main.go:135-154 | After any run no entry's targets are covered by an earlier one of its bucket exactly if no request started a build that its bucket already covered |
| `Hits.NoRedundantBuilds` | cmd/cache/main.go:200-273 | Runs of requests that use the cache and ask for the build action never build targets an earlier entry of the bucket already covers |
| `Hits.GetCrashesIff` | cmd/cache/main.go:186-258 | A request crashes the cache exactly if it has no graph, or nothing serves it, its action has a digest, and the graph has no action "build", or one that is no image build or has no commit point |
| `Hits.GenerateCrashesIff` | pkg/agraph/agraph.go:37-44 | A request for the action of the "generate" graph crashes the cache exactly if it skips the cache or no build was started, with another graph, for an action of the same digest |
| `Replies.FirstImageRequest` | pkg/agraph/agraph.go:28-35 | The client's "image" graph, with any configuration that has a commit point: its first request starts the build, and files it |
| `Replies.HitIff` | cmd/cache/main.go:125-148 | A request hits an operation exactly if it uses the cache and that is the operation of the first entry under its action's digest whose targets include all wanted |
| `Replies.HitReplies` | cmd/cache/main.go:202-244 | A hit changes nothing and is done, with the stored image if the operation is stored as done and an empty value otherwise |
| `Replies.GetStarts` | cmd/cache/main.go:254-280 | A request that changes anything has started a build: record, task and entry carry branch, commit and targets of the graph's "build" action under three fresh ids; the reply is its operation, not done |
| `Replies.GetStartsIff` | cmd/cache/main.go:200-258 | It does so exactly if nothing serves it, its action has a digest, and the graph has a "build" action with a commit point |
| `Replies.GetFailsIff` | cmd/cache/main.go:193-250 | A request fails exactly if its path names no action, or one without a digest |
| `Replies.UnknownPoll` | cmd/cache/main.go:338-342 | A name without an operation counts as done, with nothing, and changes nothing |
| `Replies.StoredPoll` | cmd/cache/main.go:283-285 | A stored answer is returned in the builder's terms: the build's name, image "eval" and its tag |
| `Replies.PendingPoll` | cmd/cache/main.go:296-335 | While the build is not recorded as done: not done, with an empty name, tag and digest |
| `Replies.FirstDonePollReplies` | cmd/cache/main.go:296-335 | The first poll after that: done, with image "eval", the build's tag, and the digest the registry has for it, if it answers; that is what is stored |
| `Replies.PolledDigestVouches` | cmd/builder/main.go:148-160 | A digest in any reply to a poll, done or not, means that the build's job succeeded |
| `Hits.BucketFilledIff` | cmd/cache/main.go:150-155 | A bucket holds something exactly if some request of the run started a build for an action of its digest |
| `Answers.DoneStored` | cmd/cache/main.go:283-306 | An operation stored as done is never overwritten |
| `Answers.DoneImageForEver` | cmd/cache/main.go:203-228 | After the first done poll, every later poll and hit of the operation is done with the same image name, tag and digest |
| `Answers.StoredDoneIffPolled` | cmd/cache/main.go:283-306 | The cache knows an operation as done exactly if it was polled after its build was recorded as done |
| `Answers.HitImageIffPolled` | cmd/cache/main.go:200-244 | Every hit is answered done, with an image exactly in that case |
| `Answers.HitWhileRunning` | cmd/cache/main.go:231-244 | A hit answered done with an empty value while its job is active |
| `Answers.AbandonedNeverDone` | cmd/builder/main.go:361-366 | The operation of an abandoned build is never answered done |
| `Answers.CanBeDoneIff` | cmd/builder/main.go:359-390 | Some continuation of a run answers an operation as done exactly if its build is not abandoned |
| `Answers.AbandonedRun` | cmd/builder/main.go:361-366 | A run after which no continuation does |
| `Answers.PolledDoneIsBuilt` | cmd/cache/main.go:296-306 | An operation answered done to a poll has its build recorded as done, then and in every later state |
| `Endings.DoneIffRecorded` | cmd/builder/main.go:359-390 | After any run a build is recorded as done exactly if its worker heard of a deletion, with its pods listed, or its watch ended |
| `Endings.AbandonedIffGaveUp` | cmd/builder/main.go:361-366 | After any run a build is abandoned exactly if its worker heard of anything but the end of its watch and could not list its pods |
| `Replies.EventSettles` | cmd/builder/main.go:360-390 | What each event of a watch does to its build: recorded as done, given up, or passed over |
| `Endings.LaterPushShows` | cmd/builder/main.go:113-127 | The digest in an answer is the registry's at that time, also after another push |
| `Endings.TellsJobOverIff` | cmd/builder/main.go:377-390 | Of the three ways a build comes to be recorded as done, exactly the deletion of its own job says, in all runs, that its job is over |
| `Endings.NoneTellsJobSucceeded` | cmd/builder/main.go:377-390 | None of them says, in all runs, that its job succeeded |
| `Endings.TimeUpWhileRunning` | cmd/builder/main.go:332-335 | A run whose watch may end with the job active |
| `Endings.OtherDeletedWhileRunning` | cmd/builder/main.go:377-390 | A run with two workers where the deletion of one job marks the other's build, whose job is active |
| `Endings.OwnDeletedAfterFailure` | cmd/builder/main.go:377-390 | A run where the deletion of a failed job marks its build |
| `Endings.HitImageIff` | cmd/cache/main.go:203-228 | The image of a hit is that of the build behind it, whose job carries the build's record; its digest is not empty exactly if the registry answered and the job had succeeded when the operation was first polled as done |
| `Endings.EmptyDigestForEver` | cmd/builder/main.go:148-151 | A run after which every hit has an image without digest, whatever follows |
| `Endings.JobBuildsTargetsIff` | dockerfile:11 | In any run, the words a job's build command reads are the targets on the build's record exactly if none of these is empty or holds white space |
| `Conservation.Conserved` | cmd/cache/main.go:258-273 | The requests that started a build are as many as the operations, the entries, the recorded builds, and the tasks queued, running, recorded as done and abandoned |
| `Strings.JoinReadAsWordsIff` | cmd/builder/main.go:286 | Texts joined by spaces are read back as words exactly if each is a word; the empty list is |
| `Strings.EmptyPieceIff` | cmd/evalctl/cmd/eval.go:208 | A text splits into an empty piece exactly if it is empty or has a separator first, last or next to another |
| `Strings.JoinSplit` | cmd/cache/main.go:162-167 | Joining undoes splitting |
| `Strings.JoinAppend` | cmd/builder/main.go:286 | Joining puts one separator between any two parts and adds nothing else |
| `Strings.WordsConcat` | dockerfile:11 | Spaces, tabs and line ends separate words and do nothing else |
| `Strings.Sort` | pkg/cache/cache.go:54-58 | Sorts in place: the result is sorted, ascending in the sense of `Strings.LessIff` and `Strings.SortedIff`, and a permutation |
| `Strings.LessIff` | pkg/cache/cache.go:56 | A text is less than another exactly if, where they first part, it ends or has the smaller character |
| `Strings.SortedIff` | pkg/cache/cache.go:54-58 | Sorted means that of any two elements the earlier is equal or less in that sense |
| `Strings.SortedSetUnique` | cmd/evalctl/cmd/eval.go:209-214 | A sorted list without duplicates is fixed by its elements |
| `MultiCache.MultiCache.AddValue` | pkg/cache/cache.go:60-63 | Every key's values stay sorted and are all those ever set under it; other keys are untouched |
| `MultiCache.MultiCache.Set` | pkg/cache/cache.go:65-67 | The same, through the public operation |
| `MultiCache.MultiCache.Get` | pkg/cache/cache.go:69-71 | The value set under the key that is less than all others, in the sense of `Strings.LessIff`; a panic exactly if there is none |
| `Targets.Unique` | cmd/evalctl/cmd/eval.go:182-192 | The strings where they first occur |
| `Targets.FirstOccurrencesDistinct` | cmd/evalctl/cmd/eval.go:182-192 | They are distinct and as a set the same |
| `Targets.FirstOccurrencesInOrder` | cmd/evalctl/cmd/eval.go:182-192 | Each stands where it first occurs in the list |
| `Targets.CreateBuildImageConfig` | cmd/evalctl/cmd/eval.go:201-236 | Targets sorted, without duplicates, equal as a set to the wrapper and the override or default; with an override the second pass changes nothing; branch and commit by override or default |
| `Targets.ConfigIs` | cmd/evalctl/cmd/eval.go:201-236 | The three keys, the defaults "main", "golden" and "//actions/wrapper", the wrapper target and the fixed image fields, written out |
| `Targets.SameConfigIff` | cmd/evalctl/cmd/eval.go:201-236 | Two substitutions give the same configuration exactly if branch, commit and set of targets are the same, in whatever order and however often these are named |
| `Targets.ServedByIff` | cmd/cache/main.go:200-273 | In any state, a build started by a request for one configuration serves a request for another, which nothing served, exactly if branch and commit are the same and every target wanted was asked for by the first |
| `Targets.JobBuildsAskedIff` | dockerfile:11 | The job for a client's configuration reads the targets asked for exactly if each is a word |
| `Targets.OverrideNotBuilt` | dockerfile:11 | For every override that is empty, or has a space first, last or next to another, a run in which it does not |

## Left out

- The interpreter for Starlark code, the printing of globals and `loadEvalDefnition`: a file is a list of loads and a function.
- Globals that a failed file leaves behind (`pkg/egraph/egraph.go:40`): an error carries its root cause only, not the text that wraps it.
- Interior pointers and several values at one address: sizes could then depend on the order of traversal.
- What interfaces, channels and functions hold: neither the traversal nor the promise, which speaks of maps, pointers and slices, follows them.
- Rounding in the floating-point logarithm of `pkg/sizeof/sizeof.go:68`, which can double the bucket count of a map with billions of entries.
- The nil interface passed to `DeepSize`, which panics before any traversal.
- gRPC, TLS, Redis, gorm, Kubernetes and registry traffic, and the logging around it: steps, maps and parameters stand for them.
- Interleavings inside one handler of the cache or the builder: their maps are unlocked, so only whole handlers are steps; the engine's are broken up in `Evaluations`.
- The order of row insertions within `newEvaluation` is arbitrary but not interleaved: nobody knows the evaluation's name before they are all in.
- Jobs deleted by hand while they are active, and jobs of others in the namespace: both would add further runs where a record of done says nothing.
- The calls after the record of done is set (`cmd/builder/main.go:391`), the retries of the task queue, and errors on creating or watching a job, which end the process.
- Quotes, variables and file name patterns in targets: a shell would expand them, `Strings.Words` splits at white space only.
- The fixed text of the job specification (`cmd/builder/main.go:276-298`): a job is its label, branch, commit, targets and tag.
- The user and host name that `newEvaluation` records, and the runner job that `Get` starts.
- `valueGraphBuckets`, whose append at `cmd/evalctl/cmd/eval.go:335` is discarded; `EssentialActions` and `Execute`, which do nothing today; the dashboard, the client's poll loop and its tables.
- The client's use of `createBuildImageConfig`: its one call is commented out (`cmd/evalctl/cmd/eval.go:431`), so `Targets` is about the function alone.
- Value types other than strings in `MultiCache`; the order on strings is that of their characters.
