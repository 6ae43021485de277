# Verified model of the summer application framework

This project models, in Dafny, the parts of the summer framework (Rust) and of its documentation site (JavaScript)
whose behaviour is hard to see from the code, and proves what they guarantee. `dafny verify dfyconfig.toml`
checks everything.

## What is modelled

**Application lifecycle.** `Application.AppBuilder` is the builder object: a plugin registry, a component registry,
and lists of one-shot closures (scheduler tasks and shutdown hooks), updated in place. `BuildPlugins` is the
dependency scheduler: it takes the registry, visits the waiting plugins round after round in an order the hash map
decides, builds what is ready and panics when a round builds nothing. `PluginGraph` and `Fixpoint` give the theory:
the buildable plugins are the least set closed under "all dependencies built", and whoever is outside it has an
absent dependency or a cycle to show for it. `Lifecycle` is the running phase as a protocol in which spawned tasks
finish whenever they like; `Schedule` is the code, and each of its executions is proved to be a run of the protocol.
`Startup` and `Run` put the phases together, with the listeners of the build events acting on the builder in between,
up to the result that teardown reverses the dependency order.

**Injection.** `ServiceFields` and `ServiceGraph` follow a service from the declaration of its fields to its generated
`build`, and `Services` is the loop that retries installation to a fixed point. `ComponentMacro` is the `#[component]`
macro: how plugin names, dependency names and argument extraction are derived from a function signature. `Wiring` puts
the generated plugins under the plugin scheduler, among plugins written by hand: why their "component not found" and
"already added" panics cannot be reached when names lead to the right types, so that only a missing configuration or
the function itself can end such a build, and exactly when a dependency finds no creator.

**Concurrent protocols.** `Lazy` (double-checked locking), `Cache` (the body generated by `#[cache]`), `Nacos` (the
registration ledger, running beside the schedule) are step machines; a run is a sequence of actions, so a statement
about all runs is a statement about all interleavings. What the outside answers (events, tasks, hooks, the server) is
a parameter of the methods, and their contracts say how the outcome follows from it. The methods of the source are
written beside them in their own form and proved to be runs of the protocol, with the other threads acting in between.
`Metrics` is the shared record of the HTTP metrics middleware, whose calls and completions come in any order. `Events`
is the event bus, with listeners that listen and publish while they run.

**Algorithms.** `WeightedWords`, `Teaser` and `ByteLimit` (search page excerpts), `Interpolate` (configuration
placeholders), `Violations` and `Paths` (flattening of validation errors) and `Paging`.

## Results about the code that a reader may not expect

- A `#[component]` function that returns `Result<T, E>` and has no explicit name is registered under the name for
  `Result`, so a dependency on `T` by its inferred name does not find it and startup is stuck; so is a dependency on
  the value of a function with a name of its own, as in the example at summer/COMPONENT_MACRO.md:353-375, unless the
  parameter names it with `#[inject]` (`Wiring.PairStartsIff`, `Wiring.AbsentIffUnserved`).
- `#[inject(component)]` on a `LazyComponent<T>` field makes it an ordinary, required component; only a lazy field
  without the annotation is lazy, although summer/DI.md:79 calls the annotation optional there
  (`ServiceFields.LazyUnlessAnnotated`).
- Caching is invisible to callers exactly when every text that a call reads, stored under its key by a call of the same
  or of another cached function or left there by others, is right for it (`Cache.TransparentIff`); a key format that
  leaves an argument out, or that two functions share, is the usual way to lose this.
- `add_plugin` lets an immediate plugin pass whatever its name, `add_auto_plugins` panics on a name clash even for an
  immediate plugin (`Application.AppBuilder.AddPlugin`, `Application.AppBuilder.AddAutoPlugins`).
- The "bytes" of `substringByByte` are those of the code point's binary number, one below 256, two below 65536 and
  three above, not those of UTF-8 (`ByteLimit.CostBands`).
- Expanding a text in two parts gives the expansion of the whole when no placeholder straddles the split; the parse of
  the whole is that of the parts exactly then (`Interpolate.ParseSplits`).
- A field name that is empty, contains a dot, or ends in a bracketed index can make two fields of a validation report
  indistinguishable. Among clean names, `f` stands in a path that prints like a clean path exactly when it is empty,
  or has a dot or a final index and no empty part except after a final dot (`Paths.NameCollidesIff`); both paths can
  lead to fields of one error tree exactly when, moreover, no part of `f` ends in two indices
  (`Violations.NameMisleadsIff`, with a tree for each such name in `Violations.AmbiguousMisleads`). Beside other
  unclean names, every name with a dot after its first character or with a final index misleads
  (`Violations.UncleanNameMisleads`). Names that come from Rust identifiers by `#[derive(Validate)]`, as in the
  repository's own example, are clean; such names can only come from a hand-written implementation that adds an error
  under a name of its choice.
- The default page size is not cut to the maximum page size (`Paging.RequestedPageIsEchoed`).

## Model

| member | source | states |
|---|---|---|
| PluginGraph.FollowToCycle | summer/src/app.rs:306-324 | if every remaining plugin waits for a remaining one, following dependencies reaches a concrete cycle (names run out) |
| PluginGraph.StuckHasReason | summer/src/app.rs:306-324 | if some plugin can never be built, there is an absent dependency or a cycle in the registry |
| PluginGraph.ReasonMeansStuck | summer/src/app.rs:306-324 | conversely, an absent dependency or a cycle leaves a plugin outside the buildable set |
| PluginGraph.DependencyBuiltEarlier | summer/src/app.rs:311-316 | in a build order, whatever a plugin depends on, directly or along a path, was built before it |
| Application.AppBuilder.constructor | summer/src/app.rs:382-401 | a new builder holds the event bus and nothing else |
| Application.Scheduler.Run | summer/src/app.rs:48-56 | a closure can be taken exactly once; a second run panics |
| Application.AppBuilder.AddScheduler | summer/src/app.rs:228-234 | appends one armed task, keeps all other closures armed and distinct |
| Application.AppBuilder.AddShutdownHook | summer/src/app.rs:237-243 | appends one armed hook, keeps all other closures armed and distinct |
| Application.AppBuilder.AddComponent | summer/src/app.rs:458-471 | adds a type that is not there, panics without any change on one that is |
| Application.AppBuilder.AddPlugin | summer/src/app.rs:134-150 | an immediate plugin is built at once and never registered; another is registered unless its name is taken |
| Application.AppBuilder.AddAutoPlugins | summer/src/app.rs:156-175 | adds a prefix of the plugins, each name fresh when its turn came; the registry, components and jobs are those of that prefix; it is all of them, or the next one clashes or panics |
| BuildHistory.AllRegistered | summer/src/app.rs:156-175 | without a clash every non-immediate plugin is registered, none replaces another, nothing else is added |
| Application.AppBuilder.Snapshot | summer/src/app.rs:300-302 | the snapshot lists each registered plugin once, in any order |
| Application.AppBuilder.BuildPlugin | summer/src/app.rs:313 | one build fetches, adds and registers what the plugin declares, or panics: on a type at fault, or in its own code |
| Application.AppBuilder.PublishBuild | summer/src/event.rs:151-167 | listeners act on the builder in order until the first that answers an error or panics, and only until then; components and jobs are those of the listeners that acted |
| Application.AppBuilder.Visit | summer/src/app.rs:310-319 | a visit builds the plugin exactly if its dependencies are registered, and keeps the bookkeeping either way |
| Application.AppBuilder.BuildRound | summer/src/app.rs:307-326 | one round keeps the bookkeeping (built in dependency order, nothing lost or repeated, only buildable plugins); without progress everything left is blocked |
| Application.AppBuilder.BuildPlugins | summer/src/app.rs:299-328 | terminates in at most as many rounds as plugins; on success each plugin was built exactly once after its dependencies and the built set is the least fixed point, when stuck likewise with some plugin left; otherwise the panic is of a plugin whose dependencies were built; all jobs are accounted for |
| Startup.PanicsExactlyWhenImpossible | summer/src/app.rs:322-324 | for every iteration order, the scheduler panics exactly when a dependency is absent or cyclic |
| Startup.SamePluginsForEveryOrder | summer/src/app.rs:300-327 | two iteration orders of one registry end alike, with the same plugins built |
| Startup.HooksFollowDependencies | summer/src/app.rs:306-327 | in the hook list, hooks of a plugin precede those of every plugin that depends on it |
| Startup.DependentsShutDownFirst | summer/src/app.rs:351-359 | when a hook of a plugin runs, every hook of every plugin that depends on it (transitively) has already run, also with hooks registered before and after the builds |
| Lifecycle.ShutdownWaitsForTasks | summer/src/app.rs:336-354 | in every interleaving, BeforeHooks, every hook and AfterHooks come only after every spawned task finished normally |
| Lifecycle.PanicMeansNoShutdown | summer/src/app.rs:344-349 | if a task panics, no shutdown event is published and no hook runs |
| Lifecycle.HooksRunNewestFirst | summer/src/app.rs:356-365 | the hooks run are a prefix of the reverse registration order; after a failing hook AfterHooks is never published; a run that ends well ran all of them |
| Lifecycle.AnswersDecide | summer/src/app.rs:351-365 | a run has ended well exactly if AfterHooks was taken; a refused BeforeHooks ends it before any hook, and a failing hook or a refused AfterHooks ends it too |
| Lifecycle.NeverStuck | summer/src/app.rs:333-366 | until the schedule ends, some thread can step |
| Application.AppBuilder.SpawnTasks | summer/src/app.rs:336-342 | takes and runs every task closure once, none of them already executed; the result is a run of the protocol |
| Application.AppBuilder.JoinTasks | summer/src/app.rs:344-349 | joins the handles from the last to the first, whatever the tasks do meanwhile; it fails exactly if some task panics, and otherwise no handle is left |
| Application.AppBuilder.PopHook | summer/src/app.rs:357-358 | removes and runs the last hook, which was never run before |
| Application.AppBuilder.RunHooks | summer/src/app.rs:356-360 | pops hooks exactly up to the first that fails, or all; what remains in the builder is exactly what has not run |
| Application.AppBuilder.BuildApp | summer/src/app.rs:368-379 | the components move from the builder into the application, whether or not the event is then taken |
| Application.AppBuilder.Shutdown | summer/src/app.rs:351-365 | ends well exactly if both events are taken and every hook answers Ok; a refused first event runs no hook; the steps are a run of the protocol that has halted, and the hooks left are those that have not run |
| Application.AppBuilder.Schedule | summer/src/app.rs:333-366 | once the built event is taken every task is spawned and the protocol runs until it has halted; Ok comes back exactly if all three events are taken, no task panics and every hook answers Ok; which hooks run is decided by what is answered |
| Run.InnerRun | summer/src/app.rs:260-329 | the whole run from inventory plugins to shutdown: each way it can end, with what plugins, services and the listeners of each build event had added by then, what ran and what is left |
| Run.TeardownMirrorsStartup | summer/src/app.rs:260-273 | if a run reaches the hooks, every task had finished, and hooks of dependents ran before those of their dependencies, whatever hooks listeners added |
| Run.GeneratedPluginsInARun | summer/src/app.rs:260-273 | however a run ends, no generated build panicked in it on a missing or duplicate component, and every generated build got its arguments from the plugins it names; the same run, with hooks and tasks of other plugins, is the one torn down |
| ServiceGraph.BuildsIff | summer-macros/src/inject.rs:183-268 | a generated build succeeds exactly when its required components and configurations are present; optional and lazy fields and evaluation order do not matter |
| ServiceGraph.InjectedValues | summer-macros/src/inject.rs:183-268 | a finished build has put the registered component of its own type into every component field, nothing into an optional one that is absent, and its own configuration into every configuration field |
| ServiceFields.SortedByKind | summer-macros/src/inject.rs:307 | sorting the fields loses and repeats none, puts them in the order of the kinds, expressions last, and is stable within a kind |
| ServiceFields.OrderOfKinds | summer-macros/src/inject.rs:32-43 | which kinds may follow which after sorting, up to nothing but expressions after an expression |
| ServiceFields.UnderstoodIff | summer-macros/src/inject.rs:73-180 | exactly which field declarations the macro understands |
| ServiceFields.SatisfiedIff | summer-macros/src/inject.rs:73-129 | the statement generated for a field fails exactly when the registry lacks what its declaration asks for |
| ServiceFields.DeclaredServiceBuildsIff | summer-macros/src/inject.rs:285-315 | from declared fields to result: the generated build succeeds exactly when every declaration is satisfied |
| ServiceFields.EachFieldHoldsItsOwn | summer-macros/src/inject.rs:183-315 | wherever sorting puts it, each declared field of a built service holds what its own declaration asks for |
| ServiceFields.LazyUnlessAnnotated | summer-macros/src/inject.rs:81-100 | a lazy field can be filled from an empty registry exactly when it carries no annotation |
| Services.InstallService | summer-macros/src/inject.rs:445-468 | build comes before add: a failed attempt leaves the registry unchanged, a success adds exactly the service's type |
| Services.InjectRound | summer/src/plugin/service.rs:59-72 | one round tries each pending registrar once; without progress none of them can be installed |
| Services.AutoInject | summer/src/plugin/service.rs:48-82 | terminates after at most n(n+1)/2 + 1 attempts; each service is installed at most once; what is in the registry at the end is the least fixed point |
| ServiceGraph.OutcomeByFixpoint | summer/src/plugin/service.rs:48-82 | the fixed point alone decides the outcome, so every registrar order installs the same services; Ok exactly when all can be installed, a panic exactly when an installable type was already there |
| ComponentMacro.AnalyzeDependencies | summer-macros/src/component/dependency.rs:19-46 | the loop computes one dependency per typed `Component<T>` parameter, in order |
| ComponentMacro.CreatorNameInjective | summer-macros/src/component/dependency.rs:75-78 | inferred plugin names of differently named types differ |
| ComponentMacro.GenerateExtractions | summer-macros/src/component/codegen.rs:152-193 | the loop with its dependency index computes the recursive pairing of parameters and dependencies |
| ComponentMacro.BindsEveryParameterIff | summer-macros/src/component/codegen.rs:159-190 | every parameter is bound exactly when each has a type argument, and then each to a value of its own type: configurations in between do not shift the pairing |
| ComponentMacro.FetchesEveryDependency | summer-macros/src/component/codegen.rs:175-188 | the generated body fetches exactly the analysed dependencies, the k-th extraction the k-th dependency |
| ComponentMacro.ReadsEveryConfig | summer-macros/src/component/codegen.rs:164-174 | the generated body reads exactly the configurations that the `Config<T>` parameters name |
| ComponentMacro.CrashesIff | summer-macros/src/component/codegen.rs:56-71 | the function's own part of the build panics exactly if some such configuration is missing, the function panics, or it answers an error as a `Result` |
| ComponentMacro.GeneratedPlugin | summer-macros/src/component/codegen.rs:31-98 | the generated plugin in terms of the signature: not immediate, under the given or default name, its k-th dependency paired with its k-th fetch, one component, no jobs |
| ComponentMacro.RegistersValueType | summer-macros/src/component/codegen.rs:60-87 | the registered type is the first argument of a `Result`, else the declared return type itself |
| Wiring.WiredFetchesSucceed | summer-macros/src/component/codegen.rs:179-184 | a "component not found" panic can only come from a plugin whose dependency names do not lead to its component types |
| Wiring.SoleProviderAdds | summer/src/app.rs:465-467 | an "already added" panic can only come from a plugin that is not the sole provider of its types |
| Wiring.AddedOnce | summer/src/app.rs:465-470 | no two of the plugins built so far add the same type |
| Wiring.ArgumentsComeFromDependencies | summer-macros/src/component/codegen.rs:175-188 | in every run the k-th argument of a wired build is the component added by the plugin that its k-th dependency names, and no other plugin built before adds that type |
| Wiring.GeneratedBuildsFindComponents | summer-macros/src/component/codegen.rs:56-98 | among any plugins written by hand, in any iteration order: a generated build never panics on a missing or duplicate component, only on a missing configuration or its own function; each argument comes from the plugin named for it, and if no build panics startup fails exactly on an absent or cyclic dependency |
| Wiring.GeneratedAreWired | summer-macros/src/component/codegen.rs:37-47 | a generated plugin is wired when the dependency names that are registered lead to plugins, of either kind, that add the types asked for |
| Wiring.DistinctReturnsSuffice | summer-macros/src/component/codegen.rs:87 | distinct return types that no other plugin adds make the generated plugins sole providers |
| Wiring.DefaultNamesLead | summer-macros/src/component/codegen.rs:31-44 | default names lead to the right plugin when no function returns `Result`, types with one last identifier are one type, and no plugin written by hand carries such a name |
| Wiring.ResultHidesComponent | summer-macros/src/component/codegen.rs:31-34 | the default name of a `Result`-returning function is the inferred name of its value's type exactly when that type is itself called `Result` |
| Wiring.ServesIff | summer-macros/src/component/codegen.rs:31-44 | a creator's plugin carries the name a dependency asks for exactly when the last identifiers of the declared return type and of the type asked for agree, or the given names do |
| Wiring.AbsentIffUnserved | summer-macros/src/component/codegen.rs:31-44 | a generated plugin has an absent dependency exactly when some dependency of a registered function is served by no registered function and no plugin written by hand |
| Wiring.UnservedStopsStartup | summer/src/app.rs:306-324 | then startup never succeeds: it is stuck, unless a build panics first, which a generated one does only through its configuration or function |
| Wiring.PairStartsIff | summer-macros/src/component/codegen.rs:31-87 | one creator and one consumer of its type, in any order: a creator whose part panics ends startup, else it is stuck exactly if the creator does not serve the dependency, else the consumer's part decides |
| Wiring.ResultCreatorIsNotFound | summer-macros/src/component/codegen.rs:31-66 | a default-named creator of `Result<T, E>` and a plain consumer of `Component<T>` are stuck if the creator answers `Ok`, and panic otherwise |
| Wiring.NamedCreatorIsNotFound | summer-macros/src/component/codegen.rs:31-34 | a creator with a name of its own and a plain consumer of its type are stuck, unless the creator itself panics |
| Nacos.ProjectsToSchedule | summer-nacos/src/lib.rs:230-260 | seen from the application, the ledger's steps are a run of the schedule |
| Nacos.NothingLost | summer-nacos/src/lib.rs:60-91 | at every point, everything ever registered is still held at the server or has been removed, once |
| Nacos.HookEmptiesTheServer | summer-nacos/src/lib.rs:230-260 | after a hook that returned Ok nothing is held; after a failure at the k-th instance exactly the first k - 1 are removed |
| Nacos.CleanShutdown | summer-nacos/src/lib.rs:230-260 | if the application shuts down completely, everything any task registered has been deregistered exactly once |
| Nacos.NeverStuck | summer-nacos/src/lib.rs:60-91 | with the waiting for listeners and for the hook, some thread can still step until the application ends, other than by a further registration |
| Nacos.Registration.OnEvent | summer-nacos/src/lib.rs:60-91 | a registration the server refuses changes nothing; one it accepts is recorded, whatever others do in between |
| Nacos.Registration.ShutdownHook | summer-nacos/src/lib.rs:230-260 | drains the vector and removes its instances in order up to the first call the server refuses; Ok exactly if it accepts all of them |
| Cache.TransparentIff | summer-macros/src/cache.rs:148-236 | for any family of functions on one store, every interleaving, expiry, failure and foreign entry, each call returns what the plain function returns, exactly when stored and foreign texts are right for every call that reads them |
| Cache.FaithfulIsSound | summer-macros/src/cache.rs:148-236 | that holds if decoding undoes encoding, keys do not merge calls with different results, of one function or of two, and foreign texts do not decode |
| Cache.WritesAreDeliberate | summer-macros/src/cache.rs:129-191 | in any run of any cache, sound or not: calls change the store only by storing, under their own key, the encoded Ok value of a call with condition true and unless false |
| Cache.StepsOfACall | summer-macros/src/cache.rs:148-236 | in the run of one call the function runs exactly if the condition is false or the get found nothing that decodes, and a set is sent exactly if the function then answers an `Ok` value that `unless` lets pass and that can be encoded |
| Cache.CachedResult | summer-macros/src/cache.rs:148-191 | the generated body for `Result` functions is one call of a run of the protocol, whatever others do before the get, during the function and before the set: its steps and its answer are decided by what was under its key at the moment of the get, a set that reaches the store leaves the encoded value under the key, and in a sound cache the answer is the function's |
| Cache.CachedPlain | summer-macros/src/cache.rs:192-236 | likewise the body for other functions |
| Lazy.OneValueForAll | summer/src/plugin/lazy.rs:61-78 | for any threads, clones and replacements of the application: one write, one successful lookup, all successful gets return the same value |
| Lazy.FailureLeavesCellEmpty | summer/src/plugin/lazy.rs:75 | a failing get leaves the cell empty and fails only if the component is absent at that moment |
| Lazy.PeekSeesCell | summer/src/plugin/lazy.rs:81-83 | a look at the cell answers what it holds at that moment, full or empty |
| Lazy.NeverStuck | summer/src/plugin/lazy.rs:61-83 | while a call is unfinished, some call can step |
| Lazy.SixStepsAtMost | summer/src/plugin/lazy.rs:61-83 | each call takes at most six steps of its own |
| Lazy.LazyComponent.Get | summer/src/plugin/lazy.rs:61-78 | get is one call of a run of the lock protocol, whatever others do while it waits for the two locks and while it holds the second; it returns what the cell then holds, a full cell for two steps under the read lock, and left alone with an empty cell the registered component |
| Lazy.LazyComponent.GetIfInitialized | summer/src/plugin/lazy.rs:81-83 | likewise; it returns exactly what the cell holds, and once the cell is full that value |
| Events.EventBus.Listen | summer/src/event.rs:97-148 | appends to the list of the topic |
| Events.EventBus.Publish | summer/src/event.rs:151-186 | with listeners that listen and publish meanwhile: every publish runs exactly the listeners registered when it began, in order, up to and including the first error, and succeeds exactly if all of them answer Ok |
| Events.RunsOnlyListeners | summer/src/event.rs:162-164 | a publish runs only listeners of its topic, and all of them if it succeeds |
| Events.InvokedInRegistrationOrder | summer/src/event.rs:155-164 | of two listeners of its topic a successful publish invokes the one registered first before the other |
| Events.AddedListenerRunsFromNextPublish | summer/src/event.rs:155-164 | a listener added during dispatch is not run by it, but by every later successful publish of the topic |
| ByteLimit.CostBands | docs/static/js/search.js:305-317 | a code point costs one, two or three, by its size |
| ByteLimit.CostOfEach | docs/static/js/search.js:283-293 | the cost of a text is the sum of one, two or three for each of its code points |
| ByteLimit.JoinedIff | docs/static/js/search.js:259-264 | the joiner flag says whether the last astral character with text after it is followed by a joiner |
| ByteLimit.CutKeepsJoiners | docs/static/js/search.js:259-264 | a cut never separates an astral character from the joiner after it |
| ByteLimit.SubstringByByte | docs/static/js/search.js:251-302 | the result is a prefix that ends at a cut point (never inside a surrogate pair), fits the budget, and is the longest such prefix |
| ByteLimit.LongestWholePrefix | docs/static/js/search.js:251-302 | without joiners after astral characters it is the longest prefix of whole code points that fits |
| WeightedWords.WeighWords | docs/static/js/search.js:143-172 | the nested loops compute the weight and offset of every word of every sentence |
| WeightedWords.SentenceWeights | docs/static/js/search.js:149-167 | of one sentence every word is recorded in order: 40 exactly if its stem begins with the stem of a term, else 8 for the first word and 2 for another |
| WeightedWords.EveryWordIsRecorded | docs/static/js/search.js:145-172 | in the whole text no word of any sentence is missed, and each has its offset |
| WeightedWords.NoSpaceInside | docs/static/js/search.js:150 | words contain no white space |
| WeightedWords.SpaceAfter | docs/static/js/search.js:150 | and one white space character stands after each but the last of a sentence |
| WeightedWords.NoStopInside | docs/static/js/search.js:148 | sentences contain no full stop followed by a space |
| WeightedWords.StopAfter | docs/static/js/search.js:148 | and one such pair stands after each but the last |
| WeightedWords.WordsAreLocated | docs/static/js/search.js:145-172 | every recorded word occurs at its recorded offset in the lower-cased text; offsets strictly increase with gaps |
| Teaser.WordsAreInBody | docs/static/js/search.js:145-172 | when lower-casing works unit by unit, the body itself has the word at that offset, up to case |
| Teaser.Slide | docs/static/js/search.js:191-195 | sliding the window equals summing it from scratch |
| Teaser.WindowWeights | docs/static/js/search.js:182-195 | every window weight is the sum of its window |
| Teaser.PickWindow | docs/static/js/search.js:198-208 | the last of the heaviest windows if a term was found, else the first |
| Teaser.Assemble | docs/static/js/search.js:210-243 | the pieces pushed are those of the window's words, in order, each shown whole or as its best twelve-byte cut |
| Teaser.MakeTeaser | docs/static/js/search.js:134-244 | the whole function: full window inside the word list, last maximum, text rebuilt from it; short text or a prefix when there is no word |
| Teaser.TeaserIsContiguous | docs/static/js/search.js:210-243 | without its tags the rebuilt text is one contiguous stretch of the body if no word is cut |
| Teaser.TeaserQuotesBody | docs/static/js/search.js:134-244 | the same for the words that the weighing records, for any window |
| Teaser.TeaserIsPartOfBody | docs/static/js/search.js:134-244 | when lower-casing works unit by unit, that stretch lies inside the body and nothing is clamped |
| Teaser.ShownArePrefixes | docs/static/js/search.js:228-236 | cut or not, what is shown of a word is a prefix of its text |
| Teaser.LongWordsAreCut | docs/static/js/search.js:226-237 | exactly the words that are no terms, have twelve units or more and one beyond Latin-1 are cut, to the best cut of twelve bytes |
| Teaser.TagsAreBalanced | docs/static/js/search.js:221-240 | bold tags are balanced and not nested |
| Teaser.BoldAreTerms | docs/static/js/search.js:220-241 | what is in bold are the terms of the window, all of them and nothing else, in order |
| Interpolate.Interpolate | summer/src/config/env.rs:75-120 | the scanner computes the concatenation of what each segment of the parse gives |
| Interpolate.WithDefault | summer/src/config/env.rs:93-99 | `${NAME:default}` becomes the value of the variable if it is set, and only otherwise the default |
| Interpolate.WithoutDefault | summer/src/config/env.rs:100-107 | `${NAME}` becomes the value of the variable if it is set, and otherwise stays as it is |
| Interpolate.InsideText | summer/src/config/env.rs:75-120 | inside any text a placeholder becomes what it becomes alone, unless one that begins before it swallows it |
| Interpolate.NothingOpens | summer/src/config/env.rs:75-120 | text without a dollar sign before it cannot do that |
| Interpolate.UnparseParse | summer/src/config/env.rs:75-120 | writing the parsed segments out again gives the text back |
| Interpolate.DependsOnlyOnNames | summer/src/config/env.rs:75-120 | the result depends only on variables named in closed placeholders; values are not rescanned |
| Interpolate.UnsetIsIdentity | summer/src/config/env.rs:75-120 | with no such variable set and no default the text is unchanged |
| Interpolate.NoCloseIsVerbatim | summer/src/config/env.rs:75-120 | from an unclosed placeholder on the text is copied |
| Interpolate.ParseSplits | summer/src/config/env.rs:75-120 | parsing a concatenation is concatenating the parses exactly when no placeholder straddles the split |
| Interpolate.ExpansionSplits | summer/src/config/env.rs:75-120 | so expansion distributes over such a split |
| Violations.CollectViolations | examples/web/openapi-example/src/validation.rs:171-202 | the nested loops append the report of all leaves below the prefix, one violation per error |
| Paths.PrintedForm | examples/web/openapi-example/src/validation.rs:177-197 | dots between names, none before the first, and an index in brackets directly after what it belongs to |
| Paths.PrintDecodes | examples/web/openapi-example/src/validation.rs:177-197 | reading a printed path back gives the path |
| Paths.DecodePrints | examples/web/openapi-example/src/validation.rs:177-197 | whatever can be read prints as the text read |
| Paths.PrintInjective | examples/web/openapi-example/src/validation.rs:177-197 | clean paths that print alike are the same path, including decimal indices |
| Violations.ReportIsFaithful | examples/web/openapi-example/src/validation.rs:171-202 | under the printed name of any field the report lists exactly that field's errors, in order, for every iteration order |
| Paths.NameCollidesIff | examples/web/openapi-example/src/validation.rs:177-197 | for every name: some path with it among clean names prints like another, clean path exactly when it is empty, or has a dot or a final index and no empty part except after a final dot |
| Paths.FieldCollidesIff | examples/web/openapi-example/src/validation.rs:171-202 | the same with both paths leading to possible fields: exactly when, moreover, no part of the name ends in two indices |
| Paths.EndsInIndexIff | examples/web/openapi-example/src/validation.rs:194-197 | what the scan for a final index accepts: exactly a nonempty text followed by a printed index |
| Paths.DecodesIff | examples/web/openapi-example/src/validation.rs:177-197 | a text reads as a path exactly when its dots stand between other characters |
| Violations.BothGetBoth | examples/web/openapi-example/src/validation.rs:171-202 | two fields of a tree that print alike: the report lists under that text at least the problems of both |
| Violations.NameMisleadsIff | examples/web/openapi-example/src/validation.rs:171-202 | for every name: a well-formed error tree has a field at or below it, among clean names, that prints like a field with clean names only, exactly under the condition of `FieldCollidesIff` |
| Violations.AmbiguousMisleads | examples/web/openapi-example/src/validation.rs:171-202 | for every such name, the empty one included, a tree in which each of two fields gets both problems |
| Violations.UncleanNameMisleads | examples/web/openapi-example/src/validation.rs:171-202 | beside other unclean names, such a tree for every name with a final index or with a dot after its first character |
| Metrics.MetricState.constructor | summer-opentelemetry/src/metrics.rs:237-278 | the counted attributes are a prefix of the request's attributes |
| Metrics.MetricState.PushResponseAttributes | summer-opentelemetry/src/metrics.rs:280-296 | appending a response attribute keeps that prefix |
| Metrics.AttributesSay | summer-opentelemetry/src/metrics.rs:243-270 | each attribute of a request has its own value under its own key |
| Metrics.CountedTogetherIff | summer-opentelemetry/src/metrics.rs:245-257 | two requests are counted together exactly if they agree in method, host and port |
| Metrics.UnderAdd | summer-opentelemetry/src/metrics.rs:158-166 | one more unfinished request changes the count of its own attribute list only |
| Metrics.Http.Call | summer-opentelemetry/src/metrics.rs:158-172 | adds one under the request's list; every counter equals the number of unfinished requests with that list |
| Metrics.Http.Complete | summer-opentelemetry/src/metrics.rs:192-223 | subtracts one under the same list, in whatever order requests complete, and records the response attributes |
| Metrics.IdleCountersAreZero | summer-opentelemetry/src/metrics.rs:158-223 | when all requests have finished every counter is zero |
| Paging.PagesNeeded | summer-sea-orm/src/pagination.rs:175-180 | n pages hold all elements exactly when n is at least the number of pages |
| Paging.PageSays | summer-sea-orm/src/pagination.rs:163-190 | a page carries the rows, the size, the number and the total it was made from, and just enough pages |
| Paging.FirstAndLast | summer-sea-orm/src/pagination.rs:217-232 | below the largest page number both views agree on first and last, and a page is last exactly when no row lies beyond it |
| Paging.OverflowsOnlyAtMax | summer-sea-orm/src/pagination.rs:33-39 | the addition overflows, in either view, exactly at the largest page number |
| Paging.RequestedPageIsEchoed | summer-sea-orm/src/pagination.rs:86-118 | a requested page comes back under its own number; a requested size is cut to the maximum |
| Paging.Walk | summer-sea-orm/src/pagination.rs:163-232 | asking for page after page until the last one visits every row once, in order, in the number of pages announced |

## Left out

- Plugins added from inside another plugin's `build`: the registry is emptied before the loop and overwritten after it, so the plugin set is the snapshot.
- Application.AppBuilder.BuildPlugin: a build is a list of fetches, a list of additions and lists of jobs, in this order, where the source runs arbitrary code; that code is one flag saying whether it panics, which for a generated build is a missing configuration or what its function answers.
- Application.AppBuilder.BuildApp: the global application and the configuration are not modelled, and the listeners of its event only succeed or fail.
- Run.InnerRun: a listener of a build event does what a plugin's build may do, and then answers; listeners that register further plugins are not modelled.
- `LogPlugin`, the banner, tracing layers, and the configuration registry that moves into the application with the components.
- The state after a plugin panic, beyond the jobs registered so far.
- Prototype services, `add_service` of gRPC services, and failing `#[inject(func = ..)]` expressions.
- Values of optional injected fields depend on the installation order: `ServiceGraph.InjectedValues` gives them for the registry at the moment of the build, and confluence is claimed for the set of installed services.
- Token parsing in the macros, and type aliases: types are last-segment syntax, and a parameter maps them to the compiler's identities.
- Lock poisoning, dropped futures and panics inside user code other than a panicking task.
- The Nacos client: the server is a multiset of instances, a failed call changes nothing there, and registrations come only from running tasks. Building the instance value from the configuration is not modelled.
- Redis: one store, shared by any family of cached functions, whose entries may vanish, be unreadable or be overwritten by given texts; the cached functions are deterministic and keys are an abstract function of the arguments. Parsing of the cache attribute is not modelled.
- Events.EventBus.Publish: listeners may nest publishes to any finite depth, which is a parameter; a listener that publishes forever is not modelled.
- Lower-casing, stemming and regular expressions in the teaser: the lower-cased text and the stemmer are parameters and `split` is written out; offsets refer to the lower-cased text, which are offsets of the body when lower-casing keeps lengths.
- HTML escaping and the user interface of the search page.
- Messages of validation errors: an error is an abstract value.
- Durations in the metrics, and numeric attribute values, which are kept as text.
- Paging with size zero: such a request is not followed through the database; `Paging.Walk` takes a positive size.
- `fetch_page` of the database layer: the slice of rows whose index divided by the size is the page.
- The aggregators for jobs, routers and streams, the routing macros, configuration merging, mail, stream and gRPC plugins: easy members, or code generation into libraries.
