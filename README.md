# Oppia core services, modelled in Dafny

This project models nine small pieces of the Oppia backend and its development scripts, and
proves what each is meant to do:

- **Backend-library reconciliation** (`scripts/install_backend_python_libs.py`), module
  `BackendLibs`. It covers the parsing of `requirements.txt` lines and of installed
  distributions into library→version dictionaries, the mismatch diff, the rectification
  command plan, and the metadata-file selection.
- **Manifest validation and download planning** (`scripts/install_third_party.py`), module
  `Manifest`. It covers the mandatory keys and exclusive key pairs per download format, the
  URL suffix rule, `validate_manifest`, and the directory names `download_manifest_files`
  derives.
- **The namespaced cache facade** (`core/domain/caching_services.py`), module `Caching`. It
  covers `namespace:sub_namespace:id` keys over an abstract key→value store, with the
  count-returning delete of the Redis backend.
- **Cache-key type dispatch** (`core/domain/cache_services.py`), module `CacheTypes`.
- **The Cloud Tasks emulator in manual mode**
  (`core/platform/taskqueue/cloud_tasks_emulator.py`), module `TaskEmulator`. It is a
  class holding a dictionary of time-sorted task lists.
- **Email request shaping** (`core/domain/email_services.py`), module `EmailServices`. It
  covers address validation with the regular expressions hand-coded as predicates, the
  validation order of `send_mail` and `send_bulk_mail`, and the reply-to address.
- **The Mailgun platform layer** (`core/platform/email/mailgun_email_services.py`), module
  `Mailgun`. It covers the POST `data` dictionary, the Basic-auth header, the batches of at
  most 1000 recipients and the dev-mode summary.
- **Base 64** as defined in section 4 of RFC 4648, module `Base64`. The auth header uses it;
  encoding is proved invertible.
- **Improvement task entries** (`core/storage/improvements/gae_models.py`), module
  `Improvements`. It covers deterministic ids, the duplicate-refusing `create`, and the
  per-user queries and deletion over a map-based datastore.
- **The continuous-computation protocol** of `core/jobs.py`, module `Jobs`, as
  `core/jobs_test.py` observes it. It covers:
  - the two realtime layers keyed `"<layer>:<entity id>"`;
  - the batch map/reduce that counts start events;
  - the "already running" guard;
  - the status record.

`Wrappers` (Option/Result) and `Strings` (Python's `split`, `rpartition` and `'%d'` on strings,
and `lower` restricted to ASCII letters) are shared helpers.

Where the source has a loop that fills a dictionary or a list, the model has a method with a
loop, proved against a specification function. The cache, the task queues, the task
datastore and the computation record are classes with `map` or `seq` fields and `modifies`
clauses. Python dictionary iteration order matters in two places: the per-library
rectification and draining every queue. There the order is an explicit duplicate-free
enumeration of the keys (a parameter, or the emulator's `names` field).

## Model

| member | source | states |
|---|---|---|
| BackendLibs.ParseRequirementLine | scripts/install_backend_python_libs.py:45-50 | A `#` line is skipped. Otherwise the token before the first space must contain `==`, else the line is refused (the source's IndexError). The library is the lower-cased text before the first `==`, and the version is the text up to the next `==`. |
| BackendLibs.ParseDistribution | scripts/install_backend_python_libs.py:61-63 | A distribution string without a space is refused. Otherwise the library is the lower-cased text before the first space, and the version is the text after it, up to the next space. |
| BackendLibs.GetRequirementsFileContents | scripts/install_backend_python_libs.py:41-53 | The line-by-line loop builds exactly the dictionary the fold of ParseRequirementLine describes, or that fold's error. |
| BackendLibs.GetThirdPartyDirectoryContents | scripts/install_backend_python_libs.py:56-66 | The loop over installed distributions builds exactly the fold of ParseDistribution. |
| BackendLibs.CollectErrorSticks | scripts/install_backend_python_libs.py:45-51 | Once a prefix of the lines fails to parse, the whole file fails with that same error: an exception ends the loop. |
| BackendLibs.CollectKeys | scripts/install_backend_python_libs.py:45-51 | The keys of the parsed dictionary are exactly the libraries that some line names. |
| BackendLibs.LastBinding | scripts/install_backend_python_libs.py:51 | The binding returned is that of the last entry naming the library, if any entry does; None means no entry names it. |
| BackendLibs.CollectLastWins | scripts/install_backend_python_libs.py:51 | A later line for the same library overrides an earlier one. Every key is bound to the version of the LAST line naming it, and an absent key is named by no line. |
| BackendLibs.CollectFirstError | scripts/install_backend_python_libs.py:44-50 | The parse fails iff some line fails to parse. The error reported is that of the FIRST failing line, and every earlier line parsed. |
| BackendLibs.GetMismatches | scripts/install_backend_python_libs.py:69-93 | The keys are the libraries on either side, minus those listed on both with equal versions. The entries are (req, None) for a library only in requirements, (None, dir) for one only in the directory, and (req, dir) for one in both. No entry is (None, None). |
| BackendLibs.RequirementMismatches | scripts/install_backend_python_libs.py:74-86 | The first loop records every required library except those installed at the same version, with the versions from both sides. |
| BackendLibs.AddDirectoryMismatches | scripts/install_backend_python_libs.py:88-91 | The second loop adds exactly the directory-only libraries, as (None, dir), and keeps the first loop's entries. |
| BackendLibs.NoMismatchesIffSame | scripts/install_backend_python_libs.py:186-191 | There is nothing to rectify exactly when the two listings are equal dictionaries. |
| BackendLibs.RectifyThirdPartyDirectory | scripts/install_backend_python_libs.py:115-174 | With 5 or more mismatches there is one full `-r` reinstall, preceded by removing the directory if it exists, and no per-library command. With fewer, the commands are the per-mismatch decision table applied in dictionary order. Pins and metadata prefixes carry the normalised text `render(v)` of the parsed version (`str(parse_version(v))`), not the raw text. One pip argument list is returned per command (PipArgv), and every pinned list names `lib==render(required version)` for a mismatched library. |
| BackendLibs.RectifyEach | scripts/install_backend_python_libs.py:130-174 | The loop over fewer than five mismatches issues exactly the plan PlanInOrder describes, library by library in dictionary order. |
| BackendLibs.ActionsFor | scripts/install_backend_python_libs.py:131-174 | The decision table in full. No required version: remove the directory, then reinstall everything. A required version with none installed, or one higher than the installed one: only the pinned install at the rendered required version. A lower required version: that pinned install, then removal of the metadata of the rendered installed version. Equal versions: nothing. |
| BackendLibs.PlanInOrder | scripts/install_backend_python_libs.py:130-174 | At most two commands per library. Every pin names a mismatched library with a required version, at that version rendered. Every metadata removal names a mismatched library with an installed version, at that version rendered. |
| BackendLibs.PipArgv | scripts/install_backend_python_libs.py:122-127 | Only the two pip commands have an argument list. Both are `pip install --target <libs dir> --no-dependencies` followed by `-r <requirements file>` for the full reinstall, or `<lib>==<version> --upgrade` for a pin (lines 140-168). |
| BackendLibs.ApplyAllConcat | scripts/install_backend_python_libs.py:130-174 | Running two command lists one after another has the effect of running their concatenation. |
| BackendLibs.StepProgress | scripts/install_backend_python_libs.py:130-174 | Handling one more mismatch makes that library agree with the requirements and keeps the libraries handled before in agreement. This holds in each branch: reinstall, pinned upgrade, or pinned downgrade plus metadata removal. |
| BackendLibs.ApplyReinstall | scripts/install_backend_python_libs.py:139-145 | Removing the directory and reinstalling from requirements leaves exactly the required libraries installed. |
| BackendLibs.ApplyPinned | scripts/install_backend_python_libs.py:152-174 | A pinned install, with or without the metadata removal after it, installs exactly that version of that library. |
| BackendLibs.PlanProgress | scripts/install_backend_python_libs.py:130-174 | After the first i libraries of the order, every library visited so far, and every library that was never a mismatch, agrees with the requirements. |
| BackendLibs.RectifyReachesRequirements | scripts/install_backend_python_libs.py:115-174 | Whichever strategy is taken, carrying out the commands on the installed libraries makes every library installed exactly when required. Its version compares equal to the required one, given that a normalised version compares equal to its source text. |
| BackendLibs.PlanReachesRequirements | scripts/install_backend_python_libs.py:130-174 | The per-library plan for fewer than five mismatches brings every library into agreement with the requirements. |
| BackendLibs.ReinstallReachesRequirements | scripts/install_backend_python_libs.py:119-128 | The full reinstall brings every library into agreement with the requirements, whether or not the directory existed. |
| BackendLibs.MetadataInSelects | scripts/install_backend_python_libs.py:99-106 | The selection keeps exactly the listing entries that start with `lib-ver`, or with `lib-ver` after `-` in the library name is replaced by `_`. |
| BackendLibs.RemoveMetadataFiles | scripts/install_backend_python_libs.py:96-112 | The loop over the directory listing deletes exactly the metadata entries of the library and version, in listing order. |
| Manifest.FirstMissing | scripts/install_third_party.py:234-241 | None iff every mandatory key is present. Otherwise the result is the first key in list order that is missing, and all keys before it are present. |
| Manifest.ExactlyOneOfTwo | scripts/install_third_party.py:244-246 | For two different keys, "exactly one present" means one or the other is present, not both. |
| Manifest.FirstBadPair | scripts/install_third_party.py:242-254 | None iff every optional pair has exactly one member present. Otherwise the result is the first pair that does not. |
| Manifest.TestManifestSyntax | scripts/install_third_party.py:219-272 | A dependency is accepted iff its format is known, all its mandatory keys are present, each optional pair has exactly one member, and the URL suffix fits the format. The checks run in that order: an unknown format is reported iff the format is unknown. A missing mandatory key is always reported, as the first missing one in list order. With all of them present, a bad pair is always reported, as the first bad pair. A URL that is not a string, or whose fragment-stripped text has the wrong suffix, is reported only once every key and pair has passed, and the latter error carries the stripped URL. |
| Manifest.SuffixRules | scripts/install_third_party.py:260-265 | A zip URL must end in `.zip`, a tar URL in `.tar.gz`, and a files URL in neither. |
| Manifest.UrlMatchesFormat | scripts/install_third_party.py:260-265 | The suffix rule as written accepts a zip URL iff it ends in `.zip`, and a tar URL iff it ends in `.tar.gz`. Any other format is accepted iff the URL ends in neither. |
| Manifest.StripFragment | scripts/install_third_party.py:257-259 | A URL without `#` is kept. Otherwise the result is the URL up to its last `#`: a prefix followed by `#`, with no `#` after it. |
| Manifest.ZipKeyPairs | scripts/install_third_party.py:242-254 | An accepted zip entry has exactly one of rootDir and rootDirPrefix, and exactly one of targetDir and targetDirPrefix. Supplying both or neither is rejected. |
| Manifest.FragmentIgnored | scripts/install_third_party.py:258-259 | Whatever follows the last `#` of the URL is dropped before the suffix check. |
| Manifest.ValidateManifest | scripts/install_third_party.py:275-290 | The manifest validates iff every dependency names its download format and passes the syntax test. The error is that of the first dependency that fails, and every earlier one is valid. |
| Manifest.CheckDependency | scripts/install_third_party.py:285-290 | A dependency without `downloadFormat` raises "downloadFormat not specified", carrying the dependency's contents. A string format gives the syntax test for that format. A list in its place is refused as not a string. |
| Manifest.MissingFormatRejected | scripts/install_third_party.py:283-288 | A manifest missing a download format in any dependency does not validate. |
| Manifest.ZipNames | scripts/install_third_party.py:316-327 | The zip root is rootDir when present, else rootDirPrefix followed by the version. The target is targetDir when present, else targetDirPrefix followed by the version. |
| Manifest.FileNames | scripts/install_third_party.py:308 | The files of a `files` dependency are the list's entries, in order. |
| Manifest.PlanFor | scripts/install_third_party.py:302-339 | A dependency listed under an unknown category fails: TARGET_DOWNLOAD_DIRS has no entry for it. It relies only on what ValidIsPlannable derives from validation. |
| Manifest.ValidIsPlannable | scripts/install_third_party.py:286-290 | A dependency that passes validation has a string format that is one of the three, a string URL, and a file list when its format is `files`. |
| Manifest.PathJoin | scripts/install_third_party.py:311-312 | The joined path starts with the directory and ends with the name. A `/` is inserted iff the directory is non-empty and does not already end in one. |
| Manifest.PlanForShape | scripts/install_third_party.py:307-339 | The download each format produces, with its derived names. Files: targetDirPrefix+version joined under the category directory. Zip: ZipNames. Tar: tarRootDirPrefix+version and targetDirPrefix+version. A valid dependency of a known category whose fields are strings always yields one. |
| Manifest.DownloadManifestFiles | scripts/install_third_party.py:293-339 | Validation comes first, and its error is returned unchanged. A manifest that validates can have every dependency planned. Then there is one download per dependency in manifest order. The run stops at the first dependency that cannot be planned, and all earlier ones succeed. |
| Manifest.PlanAll | scripts/install_third_party.py:302-339 | The loop over a valid manifest returns the per-dependency plans, or the first failing one's error. |
| Caching.MemcacheKey | core/domain/caching_services.py:105-109 | The key is `ns + ":" + (sub or "") + ":" + id`. It is refused exactly when the sub-namespace contains `:`, naming that sub-namespace. |
| Caching.KeyOfInjective | core/domain/caching_services.py:109 | Within one namespace and sub-namespace, different ids have different keys. |
| Caching.KeyInjective | core/domain/caching_services.py:105-109 | For colon-free namespaces and sub-namespaces, the key determines the namespace, the sub-namespace and the id. |
| Caching.NamespacesColonFree | core/domain/caching_services.py:32-62 | None of the seven namespaces contains `:`. |
| Caching.GetMultiSpec | core/domain/caching_services.py:140-156 | No ids gives `{}` before the namespace is checked. A non-empty request with an unknown namespace is refused. Otherwise the result holds exactly the requested ids whose stored value is truthy, each with its stored value. |
| Caching.Found | core/domain/caching_services.py:152-154 | The ids kept are those requested whose key holds a non-empty value, mapped to that value. |
| Caching.SetMultiSpec | core/domain/caching_services.py:183-196 | An empty mapping changes nothing, before the namespace is checked. An unknown namespace is refused. Otherwise each id's key now holds its value, the key set grows by exactly the written keys, and every other key is untouched. |
| Caching.Written | core/domain/caching_services.py:190-195 | The mapping moved onto store keys has exactly the written keys, each holding its id's value. |
| Caching.KeysOf | core/domain/caching_services.py:226-228 | The keys are those of the ids, in request order. |
| Caching.DeleteMultiSpec | core/domain/caching_services.py:219-229 | No ids gives True and an unchanged store. An unknown namespace is refused. Otherwise exactly the requested keys are removed, the rest are unchanged, and the result reports whether the store's deletion count equals the number of ids. |
| Caching.SetThenGet | core/domain/caching_services_test.py:146-159 | A set_multi followed by a get_multi of the same ids, with non-empty values, returns the mapping that was set. |
| Caching.OtherKeyUntouched | core/domain/caching_services.py:109 | A key of another namespace or sub-namespace is never among the keys a set_multi writes. |
| Caching.NamespaceIsolation | core/domain/caching_services_test.py:225-274 | What is written under one namespace and sub-namespace leaves every read under a different one unchanged. |
| Caching.DistinctCount | core/platform/cache/redis_cache_services.py:91 | A sequence has at most as many distinct keys as entries, and exactly as many iff no key repeats. |
| Caching.DeleteReportsAllPresent | core/domain/caching_services.py:229 | delete_multi reports True exactly when no id is repeated and every id was present in the store. |
| Caching.DeleteThenGet | core/domain/caching_services_test.py:298-339 | After a successful delete, none of the ids can be read back. |
| Caching.FlushThenGet | core/domain/caching_services.py:112-114 | After a flush, every get_multi that does not fail returns `{}`. |
| Caching.MemoryCache.constructor | core/platform/cache/redis_cache_services.py:31-33 | The cache starts empty. |
| Caching.MemoryCache.GetMulti | core/domain/caching_services.py:117-156 | The lookup loop over the ids returns exactly GetMultiSpec of the current store. |
| Caching.MemoryCache.SetMulti | core/domain/caching_services.py:159-196 | The store becomes SetMultiSpec of the old store and the result is True. Errors leave the store unchanged. |
| Caching.MemoryCache.DeleteMulti | core/domain/caching_services.py:199-229 | The store and the result are those of DeleteMultiSpec. Errors leave the store unchanged. |
| Caching.MemoryCache.FlushMemoryCache | core/domain/caching_services.py:112-114 | The store is emptied. |
| CacheTypes.GetCorrectDictTypeOfKeyAsWritten | core/domain/cache_services.py:43-54 | As written, for every key: `collection` gives Collection, `exploration` Exploration, `skill` Skill and `story` Story. `topic` gives whatever `topic_domain.topic` evaluates to (an AttributeError if the module has no such name), never the Topic class. None is returned iff no prefix matches. |
| CacheTypes.GetCorrectDictTypeOfKey | core/domain/cache_services.py:43-54 | For every key, each prefix gives its class: `collection` Collection, `exploration` Exploration, `skill` Skill, `story` Story and `topic` Topic. The prefixes exclude each other. None is returned iff the key starts with none of them. |
| CacheTypes.FacadeKeysDispatch | core/domain/cache_services.py:43-54 | Every key the caching facade builds dispatches to the domain type of its namespace. The config and default namespaces give None. |
| CacheTypes.TopicKeyDiscrepancy | core/domain/cache_services.py:51-52 | On every key that starts with `topic`, the as-written function yields whatever `topic_domain.topic` evaluates to (or raises AttributeError) and the corrected one returns the Topic class. On every other key the two agree. |
| CacheTypes.TopicFacadeKeyDiscrepancy | core/domain/cache_services.py:51-52 | The key the caching facade builds for topic `abc` takes the as-written topic branch. |
| TaskEmulator.NewTask | core/platform/taskqueue/cloud_tasks_emulator.py:44-48 | Each field is stored as given, except that a missing or zero `scheduled_for` becomes the current time. |
| TaskEmulator.CallsFor | core/platform/taskqueue/cloud_tasks_emulator.py:139-143 | There is one handler call per task, in list order, with that task's url, payload, queue name and task name. |
| TaskEmulator.CallsForConcat | core/platform/taskqueue/cloud_tasks_emulator.py:213-215 | The calls for two lists one after another are the calls for their concatenation. |
| TaskEmulator.InsertByTime | core/platform/taskqueue/cloud_tasks_emulator.py:180-181 | Appending and stably sorting adds exactly one task. |
| TaskEmulator.InsertByTimeSplits | core/platform/taskqueue/cloud_tasks_emulator.py:180-181 | The insertion only places the new task; the old tasks keep their relative order. |
| TaskEmulator.InsertIndexSeparates | core/platform/taskqueue/cloud_tasks_emulator.py:180-181 | In a sorted queue, the new task goes after every task due no later than it, so ties keep insertion order as a stable sort does, and before every task due later. |
| TaskEmulator.InsertByTimeSorted | core/platform/taskqueue/cloud_tasks_emulator.py:180-181 | A sorted queue stays sorted by `scheduled_for` and becomes the old queue plus the one new task, as a multiset. |
| TaskEmulator.TotalUpdate | core/platform/taskqueue/cloud_tasks_emulator.py:152 | Replacing one queue changes the total by the difference in its length. |
| TaskEmulator.TotalOfEmpty | core/platform/taskqueue/cloud_tasks_emulator.py:212-215 | Queues that are all empty hold no task. |
| TaskEmulator.TotalAppend | core/platform/taskqueue/cloud_tasks_emulator.py:172-173 | Adding a queue to the order adds its length to the total. |
| TaskEmulator.AllTasks | core/platform/taskqueue/cloud_tasks_emulator.py:213-215 | The tasks of every queue, queue after queue, are as many as the total. |
| TaskEmulator.WellFormedUpdate | core/platform/taskqueue/cloud_tasks_emulator.py:180-181 | Replacing a known queue by a sorted one keeps the invariant: each queue named once, and sorted. |
| TaskEmulator.WellFormedAdd | core/platform/taskqueue/cloud_tasks_emulator.py:172-173 | Adding an unknown queue, empty, at the end of the order keeps the invariant. |
| TaskEmulator.WellFormedEmptied | core/platform/taskqueue/cloud_tasks_emulator.py:212-215 | Emptying every listed queue keeps the invariant and the keys, and leaves nothing enqueued. |
| TaskEmulator.AppendAndSort | core/platform/taskqueue/cloud_tasks_emulator.py:180-181 | The append and stable sort on a queue compute InsertByTime. |
| TaskEmulator.ExecuteTasks | core/platform/taskqueue/cloud_tasks_emulator.py:132-143 | The loop calls the handler once per task, in list order. |
| TaskEmulator.DrainQueues | core/platform/taskqueue/cloud_tasks_emulator.py:213-215 | Every queue in dictionary order is executed, then emptied. The calls are those for all tasks, queue after queue, and the keys are kept. |
| TaskEmulator.AllTasksStep | core/platform/taskqueue/cloud_tasks_emulator.py:213-214 | Draining the next queue appends its calls after those of the queues before it. |
| TaskEmulator.Emulator.constructor | core/platform/taskqueue/cloud_tasks_emulator.py:84 | The emulator starts with no queues. |
| TaskEmulator.Emulator.EnsureQueue | core/platform/taskqueue/cloud_tasks_emulator.py:172-173 | An unknown queue is added, empty, and its name joins the iteration order at an unspecified place (the order is a permutation of the old names plus the new one). A known queue changes nothing, order included. The total is unchanged. |
| TaskEmulator.Emulator.CreateTask | core/platform/taskqueue/cloud_tasks_emulator.py:154-181 | The task (stamped "now" when unscheduled) is inserted by time into its queue, which is created if absent. Other queues are unchanged, the iteration order changes only by taking in a new queue's name, the total grows by exactly one, and the invariant is kept. |
| TaskEmulator.Emulator.InsertTask | core/platform/taskqueue/cloud_tasks_emulator.py:176-181 | Only the task's own queue changes, to InsertByTime of it, and the total grows by one. |
| TaskEmulator.Emulator.TotalEnqueuedTasks | core/platform/taskqueue/cloud_tasks_emulator.py:145-152 | The loop returns the sum of the queue lengths. |
| TaskEmulator.Emulator.GetNumberOfTasks | core/platform/taskqueue/cloud_tasks_emulator.py:195-198 | A given, non-empty, known name returns that queue's length; any other argument returns the total. |
| TaskEmulator.Emulator.ProcessAndFlushTasks | core/platform/taskqueue/cloud_tasks_emulator.py:209-215 | A known queue's tasks are handed over in order and only that queue is emptied. A None or unknown name drains every queue, in the dictionary's current iteration order, and leaves the total at 0. |
| TaskEmulator.Emulator.FlushAll | core/platform/taskqueue/cloud_tasks_emulator.py:212-215 | Draining every queue hands over all tasks queue by queue, in the dictionary's current iteration order, keeps the queue names and their order, and leaves every queue empty. |
| TaskEmulator.Emulator.ProcessQueueStep | core/platform/taskqueue/cloud_tasks_emulator.py:103-109 | The head is removed and returned only when the queue is non-empty and the head is due (`scheduled_for <= now`). Otherwise nothing changes. Other queues never change. |
| TaskEmulator.NothingDueBehindHead | core/platform/taskqueue/cloud_tasks_emulator.py:104-109 | In a sorted queue whose head is not due, no task is due. |
| EmailServices.IncomingEmailAddress | core/domain/email_services.py:93 | The address is `reply+`, the reply id, `@`, and the incoming-email domain. |
| EmailServices.IncomingEmailAddressInjective | core/domain/email_services.py:83-93 | The address determines the reply id: distinct reply ids give distinct addresses. |
| EmailServices.NoAtNoAddress | core/domain/email_services.py:111-112 | Text without an `@` never matches the address pattern. |
| EmailServices.IsEmailValid | core/domain/email_services.py:96-112 | A valid address is a string containing `@`. Non-strings and text without `@` are refused (with NoAtNoAddress and EmailValidIffPattern). |
| EmailServices.IsSenderEmailValid | core/domain/email_services.py:115-132 | Every valid plain address is a valid sender. A valid sender, whether plain or in one of the two named forms, contains `@`. |
| EmailServices.NoAtNoName | core/domain/email_services.py:124-132 | Text without an `@` never has a named sender form. |
| EmailServices.EmailValidIffPattern | core/domain/email_services.py:105-112 | A string is valid iff the pattern matches. The type test and the strip test are implied by the pattern, which needs an `@`. |
| EmailServices.EmailExamples | core/domain/email_services_test.py:336-379 | None, `''` and `email.com` are invalid recipients and `a@a.com` is valid, as the tests assert. |
| EmailServices.NoSpaceNoName | core/domain/email_services.py:125-132 | A sender without a space can only be valid as a plain address. |
| EmailServices.XAtXAtXNoAddress | core/domain/email_services_test.py:356 | `x@x@x` does not match the address pattern. |
| EmailServices.SenderExamples | core/domain/email_services_test.py:355-373 | `x@x@x` and `email` are rejected as senders. |
| EmailServices.SendMail | core/domain/email_services.py:162-206 | Checks run in order: permission, recipient, sender. It succeeds iff all three pass. In production the single recipient goes to Mailgun with bcc the admin address iff bcc_admin (else `''`) and reply-to the incoming address iff reply_to_id is truthy (else `''`). In development it is a log line. |
| EmailServices.FirstMalformedRecipient | core/domain/email_services.py:236-239 | The loop returns the position of the FIRST malformed recipient, with all earlier ones valid, or None iff all are valid. |
| EmailServices.SendBulkMail | core/domain/email_services.py:233-290 | Permission is checked first, then the first malformed recipient in list order, then the sender. On success there is one delivery per batch of at most 1000 recipients: a request with empty recipient variables in production, the summary log line in development. |
| Mailgun.AuthHeader | core/platform/email/mailgun_email_services.py:91-93 | The header is `Basic ` followed by text that decodes (base 64) to `api:` + key. |
| Mailgun.BuildData | core/platform/email/mailgun_email_services.py:67-89 | from, subject, text and html are always present. `to` is the one address for a single recipient, else the list. `bcc` is present iff the list is non-empty: a scalar for one element, else the list. `h:Reply-To` and `recipient_variables` are present iff truthy. No other key. |
| Mailgun.SendEmailToRecipients | core/platform/email/mailgun_email_services.py:61-98 | A missing API key is reported before a missing domain name. The request succeeds iff both are set, and then goes to `https://api.mailgun.net/v3/<domain>/messages` with the Basic-auth header and the data of BuildData. |
| Mailgun.MessagesUrl | core/platform/email/mailgun_email_services.py:94-95 | The URL is `https://api.mailgun.net/v3/`, the domain, then `/messages`, and the domain can be read back from between them. |
| Mailgun.BulkDataOmitsRecipientVariables | core/platform/email/mailgun_email_services.py:88-89 | As written, the empty recipient-variables dictionary that bulk sending passes is falsy, so the field is left out of the request. |
| Mailgun.BuildDataCorrected | core/platform/email/mailgun_email_services.py:205-207 | Corrected, after the comment that the recipient variables are what makes Mailgun send each recipient an individual email: the field is sent whenever recipient variables are given, the empty dictionary included. Every other field is as in BuildData. |
| Mailgun.AuthHeaderForKey | core/platform/email/mailgun_email_services_test.py:57 | For the key `key` the header is `Basic YXBpOmtleQ==`. |
| Mailgun.Chunks | core/platform/email/mailgun_email_services.py:198-200 | The number of batches is ceil(n/1000). |
| Mailgun.ChunkSizes | core/platform/email/mailgun_email_services.py:198-200 | Every batch is non-empty and has at most 1000 recipients. |
| Mailgun.ChunksConcat | core/platform/email/mailgun_email_services.py:198-200 | The batches, concatenated, give back the recipient list in order. |
| Mailgun.RecipientSummary | core/platform/email/mailgun_email_services.py:215-222 | The summary is up to three addresses joined by spaces, followed by `... Total: N emails.` only when the batch has more than three. |
| Mailgun.SummaryCount | core/domain/email_services_test.py:117 | The count in a long summary reads back as the batch length. |
| Mailgun.DeliverBatches | core/platform/email/mailgun_email_services.py:204-239 | There is one delivery per batch, in order: a request carrying that batch in production, its summary log in development. |
| Mailgun.SendBulkMail | core/platform/email/mailgun_email_services.py:191-239 | Refused iff sending is switched off. Otherwise there is one delivery per batch of at most 1000 recipients, in order. In production it is the request from the sender to that batch with the subject and both bodies, no bcc, no reply-to and empty recipient variables. In development it is the batch's summary log line. |
| Base64.CharValue | core/platform/email/mailgun_email_services.py:91 | A character's value, when it has one, is below 64 and encodes back to the character. |
| Base64.CharValueOfEncodeChar | core/platform/email/mailgun_email_services.py:91 | Every value below 64 reads back from its alphabet character. |
| Base64.Encode | core/platform/email/mailgun_email_services.py:91 | The encoding has 4·ceil(n/3) characters. |
| Base64.GroupRoundTrip | core/platform/email/mailgun_email_services.py:91 | A full group's four characters decode to its three bytes. |
| Base64.OneRoundTrip | core/platform/email/mailgun_email_services.py:91 | A one-byte final group padded with `==` decodes to its byte. |
| Base64.TwoRoundTrip | core/platform/email/mailgun_email_services.py:91 | A two-byte final group padded with `=` decodes to its bytes. |
| Base64.DecodeEncode | core/platform/email/mailgun_email_services.py:91 | Decoding undoes encoding for every byte string. |
| Base64.EncodeAlphabet | core/platform/email/mailgun_email_services.py:91 | Encoded text uses only the alphabet and the pad character. |
| Improvements.TaskId | core/storage/improvements/gae_models.py:177-179 | The task id is the composite entity id `type.id.version`, then `.task_type.target_type.target_id`, with the version in decimal. |
| Improvements.CompositeEntityId | core/storage/improvements/gae_models.py:182-195 | The id ends in `.` plus the decimal version. A dot-free entity type is exactly the text before the first dot. |
| Improvements.CompositeEntityIdInjective | core/storage/improvements/gae_models.py:182-195 | With a dot-free entity type and id, the composite id determines the type, the id and the version. |
| Improvements.IntToStringDotFree | core/storage/improvements/gae_models.py:195 | A version written in decimal contains no dot. |
| Improvements.TaskIdFields | core/storage/improvements/gae_models.py:177-179 | The id is its six fields joined by dots. |
| Improvements.TaskIdInjective | core/storage/improvements/gae_models.py:159-179 | With dot-free fields, the task id determines every field it was made from. |
| Improvements.ResolvedBy | core/storage/improvements/gae_models.py:152-153 | Exactly the ids of the entries whose resolver is the user. |
| Improvements.WithoutUser | core/storage/improvements/gae_models.py:133 | Exactly the entries not resolved by the user remain, unchanged. |
| Improvements.DeletionRemovesReferences | core/storage/improvements/gae_models.py:126-133 | After deletion no entry refers to the user. Other users' entries are untouched, and exactly the user's entries are gone. |
| Improvements.TaskStore.constructor | core/storage/improvements/gae_models.py:238 | The datastore starts empty and keeps the given property choices. |
| Improvements.TaskStore.Create | core/storage/improvements/gae_models.py:235-256 | An existing id is refused ("Task id … already exists") and the datastore is unchanged. Next, an entity type, task type or target type outside its property's `choices` (lines 76-90) is refused as a BadValueError naming one of the rejected properties, again leaving the datastore unchanged. Otherwise exactly one entry is added, under the computed id, holding the composite id and the given fields, and the id is returned. |
| Improvements.TaskStore.CreateWithDefaults | core/storage/improvements/gae_models.py:206-209 | It succeeds iff the id is new and every typed property is among its choices; a refusal changes nothing, and a BadValueError names a rejected property. With the default arguments the new entry is obsolete, unresolved, with no resolution time and no description. |
| Improvements.TaskStore.HasReferenceToUserId | core/storage/improvements/gae_models.py:119 | True iff some entry has the user as resolver. |
| Improvements.TaskStore.ApplyDeletionPolicy | core/storage/improvements/gae_models.py:133 | Exactly the user's entries are deleted, and afterwards no entry refers to the user. |
| Improvements.TaskStore.ExportData | core/storage/improvements/gae_models.py:152-157 | Exactly the ids of the entries the user resolved. Empty iff no entry refers to the user. |
| Strings.BeforeLast | scripts/install_third_party.py:259 | `rpartition(c)[0]`: the text before the last `c`, which follows no other `c`. Empty when `c` does not occur. |
| Strings.Lower | scripts/install_backend_python_libs.py:49 | Each ASCII upper-case letter is lower-cased and nothing else changes. |
| Strings.IntToStringInjective | core/storage/improvements/gae_models.py:177-179 | Different integers have different decimal texts (`%d`). |
| Jobs.LayerOf | core/jobs_test.py:624-627 | An id names a layer iff it starts with `0:` or `1:`; `0:` names layer 0 and `1:` layer 1. |
| Jobs.RealtimeId | core/jobs_test.py:624-627 | For layers 0 and 1 the id `"<layer>:<entity id>"` names its layer, and the entity id follows the two-character prefix. |
| Jobs.RealtimeIdLayer | core/jobs_test.py:624-627 | A realtime id `"<layer>:<id>"` names its layer, and within a layer it determines the entity id. |
| Jobs.RealtimeErrorMessage | core/jobs_test.py:581-594 | The messages are `Invalid realtime id: <id>` and `Realtime layer <l> does not match realtime id <id>`. |
| Jobs.UnprefixedIdHasNoLayer | core/jobs_test.py:581-584 | An id without a layer prefix, such as `invalid_entity_id`, names no layer. |
| Jobs.HandledCountAsWritten | core/jobs_test.py:500-502 | As written: the handler's new count is 1, whatever the record held. |
| Jobs.RecordAsWritten | core/jobs_test.py:497-502 | As written: the put leaves the record for the layer and entity at 1, adds that id if absent, and leaves every other record as it was. |
| Jobs.Record | core/jobs_test.py:493-502 | Corrected: the put raises the layer's count for the entity by one (an absent record counts 0), adds that id if absent, and leaves every other record as it was. |
| Jobs.HandledCount | core/jobs_test.py:493-496 | Corrected: the handler increments the count, as its docstring says. |
| Jobs.HandlerDropsRepeatedEvents | core/jobs_test.py:501-503 | As written, two start events for one exploration leave its record in the layer at 1 while the log holds 2 starts, so the layer is out of step with the log. With the increment the record holds 2. |
| Jobs.ClearLayer | core/jobs_test.py:639-644 | Exactly the records of the cleared layer are deleted; the others are unchanged. |
| Jobs.RecordCount | core/jobs_test.py:498-503 | A put in a layer sets that entity's count in that layer and changes no other count. |
| Jobs.ClearCount | core/jobs_test.py:665-670 | After clearing, every count of the cleared layer reads 0 and the other layer's counts are unchanged. |
| Jobs.StartsAppend | core/jobs_test.py:509-525 | The start events of two stretches of the log add up. |
| Jobs.RecordMatches | core/jobs_test.py:615-627 | Handling a start event in both layers keeps each layer counting exactly the start events of its stretch of the log. |
| Jobs.ClearMatches | core/jobs_test.py:637-644 | Clearing one layer keeps the other in step and leaves the cleared one counting nothing. |
| Jobs.Reduce | core/jobs_test.py:452-459 | The loop counts exactly the values whose event type is the start type. |
| Jobs.CountStarts | core/jobs_test.py:452-459 | There are no more starts than values. |
| Jobs.ReduceCountsStarts | core/jobs_test.py:442-459 | Reducing an exploration's mapped values gives its number of start events in the log. |
| Jobs.NoEventsNoStarts | core/jobs_test.py:703-709 | An exploration without logged events is not a reduce key and has no starts. |
| Jobs.BatchOutput | core/jobs_test.py:442-459 | One run writes one annotation per exploration with events, holding its start count. |
| Jobs.MergeOutput | core/jobs_test.py:653-664 | A run over a longer prefix of the log replaces the earlier counts, so every annotation count equals the starts in that prefix. |
| Jobs.StatusName | core/jobs_test.py:726-744 | The status code is spelled `idle` iff idle, and `running` iff running. |
| Jobs.ErrorMessage | core/jobs_test.py:717-720 | The message is `Attempted to start computation <name>, which is already running`. |
| Jobs.ContinuousComputation.constructor | core/jobs_test.py:726-744 | A fresh record: layer 0, idle, no job, all timestamps None, and nothing counted. |
| Jobs.ContinuousComputation.GetCount | core/jobs_test.py:509-525 | The batch count plus the active layer's count, each 0 when absent, equals the number of start events logged for the exploration. |
| Jobs.ContinuousComputation.GetRealtime | core/jobs_test.py:581-584 | An id without a layer prefix is refused with InvalidRealtimeId. Otherwise the stored record, or None when absent. |
| Jobs.ContinuousComputation.HandleEvent | core/jobs_test.py:488-505 | The event is logged. A start event raises the entity's count by one in both layers. Other events change no record. Only the log and the realtime records may change, so status, layer, output, job and all three timestamps are kept. |
| Jobs.ContinuousComputation.KickoffBatchJob | core/jobs_test.py:681-682 | A batch job over the log as it stands is queued, not yet finished. |
| Jobs.ContinuousComputation.StartComputation | core/jobs_test.py:637-652 | A running computation is refused and nothing changes. Otherwise it becomes running at `now`, the inactive layer is cleared (the active one is kept), and an unfinished batch job over the current log is queued. Only status, lastStarted, the realtime records and the job may change, so the log, output, layer, lastFinished and lastStopped are kept in both branches. |
| Jobs.ContinuousComputation.ClearInactiveLayer | core/jobs_test.py:639-644 | The inactive layer is cleared and the active layer still counts the events after the batch output. |
| Jobs.ContinuousComputation.CompleteBatchJob | core/jobs_test.py:653-670 | A queued job finishes. Its output over the snapshot is stored, the layers swap, the previously active layer is cleared, and the job is marked finished at `now`. Without a queued job nothing changes. The log, status, lastStarted and lastStopped are never changed. |
| Jobs.ContinuousComputation.StopComputation | core/jobs_test.py:807-812 | The computation becomes idle, stopped at `now`. |
| Jobs.ContinuousComputation.PutRealtime | core/jobs_test.py:586-594 | A put whose layer differs from the id's layer is refused and stores nothing. Otherwise the record is stored. |
| Jobs.ContinuousComputation.JobIsActive | core/jobs_test.py:649-657 | The job is active iff one is queued and not finished, and an active job has not finished. StartComputation leaves it active; CompleteBatchJob leaves it inactive and finished. |
| Jobs.ContinuousComputation.JobHasFinished | core/jobs_test.py:651-657 | The job has finished iff one was queued and ran to completion. |
| Jobs.ContinuousComputation.Info | core/jobs_test.py:726-744 | Startable iff idle, stoppable iff running, the status spelled, the layer index, the name and the three timestamps. |
| Jobs.ContinuousComputation.FailureMessage | core/jobs_test.py:759-766 | Exactly `Job <name> failed.`, with the computation's name. |
| Jobs.ContinuousComputation.CanceledMessage | core/jobs_test.py:781-789 | Exactly `Job <name> canceled.`, with the computation's name. |
| Jobs.CreateErrorMessage | core/jobs_test.py:252-258 | `Tried to directly create a job using the abstract base manager class <name>, which is not allowed.` |
| Jobs.CreateNew | core/jobs_test.py:245-258 | create_new is refused exactly for a manager listed among the abstract base classes, naming it. |
| Jobs.CreateNewMessage | core/jobs_test.py:245-262 | Creating through a manager listed as abstract is refused with the full message `Tried to directly create a job using the abstract base manager class <name>, which is not allowed.`; any other manager creates its job. |
| Jobs.OneEventRecords | core/jobs_test.py:615-627 | One handled start event leaves exactly two records, `0:<id>` and `1:<id>`, each counting 1. |
| Jobs.RecordEvent | core/jobs_test.py:596-627 | A fresh counter reports the tests' info record and a count of 0. After one processed event the count is 1, and each realtime layer holds exactly one record, counting 1. |
| Jobs.RecordAndStart | core/jobs_test.py:637-652 | After the event, starting the computation clears layer 1, keeps layer 0's record counting 1, and leaves the batch job queued, active and unfinished. |
| Jobs.Workflow | core/jobs_test.py:637-670 | The job is active and unfinished after the start. When the batch completes the job is finished and no longer active, the annotation holds 1, the query still returns 1, and both realtime layers are empty. |
| Jobs.EventDuringBatch | core/jobs_test.py:672-709 | An event arriving after the batch kickoff is counted by the query, during and after the job, but is absent from the batch output. |
| Jobs.StartTwice | core/jobs_test.py:711-721 | A second start while the first is running fails with "already running" for StartExplorationEventCounter. |

## Left out

- HTTP and the network are not modelled: `url_open`, `url_request` and `url_encode` in the Mailgun layer. The model stops at the request (URL, data dictionary, headers) that would be sent.
- Filesystem and subprocess effects are not modelled: `pip`, `shutil.rmtree`, `os.listdir`, `os.remove`, downloads, unzip/untar, `install_redis_cli` and the `main` functions. The model returns the commands, file names and downloads instead. Whether the libraries directory exists is a parameter.
- `download_files` is not modelled, including its assertion that `files` is a list (scripts/install_third_party.py:94-95). The plan carries the `files` value as the loop would iterate it.
- Manifest JSON reading (`return_json`) is not modelled; the manifest is given as a sequence of dependencies in dictionary order.
- `pkg_resources.parse_version` is a three-way comparison parameter `cmp`; the proofs require only that a version compares equal to itself.
- BackendLibs.RectifyThirdPartyDirectory: the normalised text of a parsed version is a parameter `render`, so the model does not compute how `parse_version` normalises (`1.01` to `1.1`, say). The proofs require only that `render(v)` compares equal to `v`.
- Python dictionary iteration order is an explicit duplicate-free enumeration where it matters: the rectification loop and draining all queues. In the emulator it is the `names` field, which the model lets change arbitrarily, as a permutation, whenever a queue is added.
- TaskEmulator.ExecuteTasks, TaskEmulator.Emulator.ProcessAndFlushTasks, TaskEmulator.Emulator.FlushAll: the handler is assumed not to call back into the emulator and not to raise. In the source, a handler that creates a task during a flush appends to the list being iterated (cloud_tasks_emulator.py:139-143 and 176-181), and the reset at 209-215 then discards that task. A raising handler aborts the flush before the reset, so the queue keeps its tasks. Neither is modelled.
- Improvements.TaskStore.Create: the spellings in TASK_ENTITY_TYPES, TASK_TYPES and TASK_TARGET_TYPES come from the constants module, which is not part of this model, so the choice sets are a constructor parameter. Which rejected property the BadValueError names is left open, because ndb sets the properties in keyword-dictionary order. The `required=True` checks are not modelled: the model's fields cannot be None.
- Manifest.PathJoin: it matches `os.path.join` only when the second component is relative. An absolute second component, which `os.path.join` would return on its own, is not modelled; the manifest's names are relative.
- Domain-object (de)serialisation in the cache facade is the identity on strings. The source's round trip is taken as given.
- The Redis backend is an abstract map. `delete_multi` counts the distinct present keys, as Redis DEL does.
- `get_memory_stats` is not modelled, because it only reports backend statistics.
- The emulator's threads, lock, `sleep` and endless loop are not modelled; `__process_queue` is one dequeue step. Time is an integer parameter `now`, not a `time.time()` float. `get_tasks` is not modelled.
- Whitespace removal is limited: `is_email_valid` strips only ASCII whitespace, and non-ASCII characters are never letters of `[a-zA-Z]`.
- A non-string address is modelled as `None`. For senders, only strings are considered.
- Dev-mode logging is not modelled, apart from the bulk recipient summary. Subjects and bodies are passed through without UTF-8 encoding.
- `mailgun_email_services.send_mail` (core/platform/email/mailgun_email_services.py:101-164) is not modelled separately. It is `email_services.send_mail` without the address checks, which EmailServices.SendMail covers.
- The order of `export_data` is not modelled: the datastore query's order is unspecified, so the result is a set of ids. The datastore transaction and `ndb` are not modelled.
- `core/jobs.py` is not part of this model. The Jobs module states only what `core/jobs_test.py` asserts about it.
- Map/reduce sharding is not modelled, and neither are the task-queue delay of events before they are handled, transactions, or the clock. Each batch run is one step over the events logged before its kickoff.
- Jobs.ContinuousComputation.KickoffBatchJob: a job queued earlier is simply no longer tracked, because jobs.py, which decides what happens to it, is not shown.
- Jobs.ContinuousComputation.StopComputation: it does not cancel a queued batch job, since the tests only observe the status.
- `_kickoff_batch_job_after_previous_one_ends` is not modelled, because the test's counter overrides it to do nothing. The MockContinuousComputationManager run-count test is not modelled either.
- The shared job-manager tests of `core/jobs_test.py` are outside the continuous-computation core and are not modelled. These are the enqueue, cancellation, map/reduce-parameter and one-off-registry tests.
- The tests of scripts/install_backend_python_libs_test.py that expect pip commands without `--no-dependencies`, or `os.rmdir` instead of `rmtree`, disagree with the code. The model follows the code.
- Strings.Lower: lower-cases ASCII letters only. Python's Unicode case mapping of other letters is not modelled, because the pip package names it is applied to are ASCII by the packaging rules.

## Findings

| source | as written | input that shows it | evidently intended | confidence | as-written member | corrected member |
|---|---|---|---|---|---|---|
| core/domain/cache_services.py:51-52 | the `topic` branch returns whatever `topic_domain.topic` evaluates to (an AttributeError if the module has no such name), never the `Topic` class | the key `topic::abc`, which the caching facade builds for topic `abc` | return `topic_domain.Topic`, like the other branches return their classes | high, not executed | CacheTypes.GetCorrectDictTypeOfKeyAsWritten (shown by CacheTypes.TopicKeyDiscrepancy and CacheTypes.TopicFacadeKeyDiscrepancy) | CacheTypes.GetCorrectDictTypeOfKey (CacheTypes.FacadeKeysDispatch) |
| core/platform/email/mailgun_email_services.py:88-89 | `if recipient_variables:` is false for the `{}` that bulk sending passes, so no recipient-variables field is sent and Mailgun does not send individual emails | send_bulk_mail with any recipient list, in production | send the field whenever recipient variables are given, since the comment at core/platform/email/mailgun_email_services.py:205-207 says the recipient variables are what makes Mailgun send individual emails. The bulk-send test at core/domain/email_services_test.py:317-319 does not settle it: it expects a differently spelled key, `recipient-variables`, holding the JSON text `'{}'`, and its mock is never invoked because DEV_MODE stays on | medium, not executed | Mailgun.BuildData (shown by Mailgun.BulkDataOmitsRecipientVariables) | Mailgun.BuildDataCorrected |
| core/jobs_test.py:493-505 | the handler puts `count=1`, whatever the record held before | two start events for one exploration handled in the same layer | increment the count, as the handler's docstring says | high, not executed | Jobs.RecordAsWritten (shown by Jobs.HandlerDropsRepeatedEvents) | Jobs.HandledCount (used by Jobs.ContinuousComputation.HandleEvent) |
