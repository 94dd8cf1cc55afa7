# Batch delete in `tkn task delete` and `tkn triggertemplate delete`

This project models the two batch-delete engines of the Tekton CLI and proves what they do.

- `deleteTask` is in `pkg/cmd/task/delete.go`. It deletes the named Tasks one at a time. With `--all`, after each Task that was deleted it lists that Task's TaskRuns with the label selector `tekton.dev/task=<name>` and deletes them one at a time.
- `deleteTriggerTemplates` is in `pkg/cmd/triggertemplate/delete.go`. It is the one-level version of the same loop.

Both engines follow the same rules:
- A failed call never stops the batch.
- Every failure is kept in an error list and written to the error stream when it happens.
- At the end, the deleted names are listed on the output stream: TaskRuns first, then Tasks.
- The errors are combined into one result, which is nil when nothing failed.

Layout:

- `store.dfy` (module `Store`) holds the remote store. `Cluster` has an oracle that answers each delete and list call, and a `log` of every call with the answer it got. An answer may depend on all earlier calls, so deleting the same name twice may succeed once and then fail. The projections of the log are `Attempted`, `Succeeded`, `Failed` and `FailedLists`, with their algebra.
- `cli.dfy` (module `Cli`) holds what both commands share:
  - the parameters and the output streams;
  - the `Error` values and their messages;
  - `Combine`, the combined error, where `None` stands for nil;
  - `AddPrintErr`, the error closure;
  - `DeleteAndReport`, one step of a delete loop.
- `triggertemplate_delete.dfy` (module `TriggerTemplateDelete`) holds `DeleteTriggerTemplates` and its properties.
- `task_delete.dfy` (module `TaskDelete`) holds `DeleteTask` and the helpers it calls, one per part of the loop body. `TaskBlock` gives the shape of the calls made for one Task name, and its lemmas state the properties over the whole call log.
- `scenarios.dfy` (module `Scenarios`) holds three end-to-end runs of `DeleteTask` against concrete stores, with the exact lines and error they produce.

The engines are methods with loops. Their contracts state their effects:
- the new call log, as the old log followed by the calls made;
- the shape of those calls (`TemplateConversation`, `TaskConversation`);
- the lines appended to each stream;
- the returned error.

All of these are expressed as functions of the calls made. Go's local slices (`errs`, `success`, `successfulTasks`, `successfulTaskRuns`) are loop variables tied to those functions by invariants. The lemmas prove the promised properties about those functions.

## Model

| member | source | states |
|---|---|---|
| Store.Cluster.Delete | pkg/cmd/task/delete.go:94 | Sends exactly one delete, with no retry. The answer is the store's answer given the calls so far, and the call is appended to the log with that answer. |
| Store.Cluster.List | pkg/cmd/task/delete.go:108 | Sends exactly one list call with the given selector. The reply is the store's answer, and the call is appended to the log. |
| Store.AttemptsPartition | pkg/cmd/task/delete.go:94-98 | Every delete sent for a kind either succeeded or failed, and is counted exactly once. |
| Store.AllOkAllSucceeded | pkg/cmd/task/delete.go:94-98 | When no call failed, every delete sent succeeded, and there are no failed deletes and no failed lists. |
| Store.NoneOfKind | pkg/cmd/task/delete.go:114-120 | Calls that contain no delete of a kind attempt, delete and fail nothing of that kind. |
| Store.Succeeded | pkg/cmd/task/delete.go:98 | The names of one kind whose delete succeeded, in call order. This is what `successfulTasks` (here), `successfulTaskRuns` (line 119) and `success` (pkg/cmd/triggertemplate/delete.go:93) hold. |
| Store.Select | pkg/cmd/task/delete.go:93-98 | The subsequence of the names at the marked positions. It is no longer than the names; it is all of them when every position is marked, and none when no position is. |
| Store.OkFlags | pkg/cmd/triggertemplate/delete.go:86-93 | One flag per call, in call order: whether that call succeeded. |
| Cli.Message | pkg/cmd/task/delete.go:95 | Renders an error as its line on the error stream. A failed delete is `failed to delete <kind> "<name>": <cause>`, as here and at pkg/cmd/task/delete.go:116 and pkg/cmd/triggertemplate/delete.go:88. A failed list is the store's own text (pkg/cmd/task/delete.go:110). |
| Cli.MessageForm | pkg/cmd/task/delete.go:95 | A failed list's line is exactly the store's cause. A failed delete's line starts with `failed to delete <kind> ` and ends with the store's cause. |
| Cli.Combine | pkg/cmd/task/delete.go:130 | Combines the collected errors, with None standing for nil. The same combination ends pkg/cmd/triggertemplate/delete.go:99. |
| Cli.CombineKeepsAll | pkg/cmd/task/delete.go:130 | The combined error is nil exactly when there are no errors. Otherwise it holds all of them, in order. |
| Cli.QuotedList | pkg/cmd/task/delete.go:124-127 | Renders the names of a summary line, each in single quotes, separated by ", ". |
| Cli.QuotedListForm | pkg/cmd/task/delete.go:124-127 | A summary list is empty exactly when there are no names. Otherwise it starts and ends with a single quote. |
| Cli.ErrorOf | pkg/cmd/task/delete.go:94-118 | The error one call adds to `errs`: the delete error for a failed delete (lines 95, 116), the raw error for a failed list (line 110), and none for a success. |
| Cli.ErrorOfForm | pkg/cmd/task/delete.go:94-118 | A call adds at most one error, and none exactly when it succeeded. A failed delete adds the error for its kind and name. |
| Cli.Failures | pkg/cmd/task/delete.go:84-88 | The contents of `errs` after a run of calls: each call's error, in call order. |
| Cli.FailuresBound | pkg/cmd/task/delete.go:84-88 | There are never more errors than calls. |
| Cli.Stream.WriteOut | pkg/cmd/task/delete.go:124 | Appends one line to the output stream and leaves the error stream unchanged. |
| Cli.Stream.WriteErr | pkg/cmd/task/delete.go:87 | Appends one line to the error stream and leaves the output stream unchanged. |
| Cli.AddPrintErr | pkg/cmd/task/delete.go:85-88 | The error is appended to the error list, and its message is written to the error stream at once. |
| Cli.DeleteAndReport | pkg/cmd/triggertemplate/delete.go:87-93 | One delete for the name, and nothing else. The error list, the success list and the error stream afterwards are what the calls so far give rise to. `ok` holds exactly when the delete succeeded. The same step is used for Task deletes (pkg/cmd/task/delete.go:94-98) and TaskRun deletes (pkg/cmd/task/delete.go:115-119). |
| Cli.FailuresCount | pkg/cmd/task/delete.go:84-88 | There is one error per failed delete of each kind plus one per failed list call, and no other error. |
| Cli.NilIffNothingFailed | pkg/cmd/task/delete.go:130 | The combined error is nil exactly when every call succeeded. Both directions are proved. |
| Cli.MessagesAppend | pkg/cmd/task/delete.go:87 | Messages are written in error order: the lines for two runs of errors are the lines of the first run followed by those of the second. |
| Cli.FailuresAppend | pkg/cmd/task/delete.go:86 | Errors are recorded in call order: the errors of two runs of calls are those of the first run followed by those of the second. |
| TriggerTemplateDelete.TemplateConversation | pkg/cmd/triggertemplate/delete.go:86-94 | The calls of the loop: one TriggerTemplate delete per name, in the order given, and nothing else. |
| TriggerTemplateDelete.TemplateCallErrors | pkg/cmd/triggertemplate/delete.go:87-91 | The error of each call, if any, is the delete failure for the TriggerTemplate at its position. |
| TriggerTemplateDelete.DeleteTriggerTemplates | pkg/cmd/triggertemplate/delete.go:77-100 | Without clients: the client error, with no call made and no line written. With clients, it makes one delete per name in the order given. It writes one error line per failed delete, in order, and the summary line exactly when something was deleted. It returns the combined error of exactly those failures. |
| TriggerTemplateDelete.PrintSummary | pkg/cmd/triggertemplate/delete.go:95-97 | Writes the summary of the given names to the output stream only, and leaves the error stream unchanged. |
| TriggerTemplateDelete.TemplateSummary | pkg/cmd/triggertemplate/delete.go:95-97 | There is one line exactly when some TriggerTemplate was deleted. That line lists the deleted names. |
| TriggerTemplateDelete.TemplateAttemptsFollowNames | pkg/cmd/triggertemplate/delete.go:86-94 | Every name gets exactly one delete, in the order given, with duplicates kept, whatever earlier deletes did. |
| TriggerTemplateDelete.TemplateSuccessSelects | pkg/cmd/triggertemplate/delete.go:86-93 | The success list is exactly the subsequence of the names whose delete succeeded, in the original order. |
| TriggerTemplateDelete.TemplateOutcomesPartition | pkg/cmd/triggertemplate/delete.go:86-94 | The number of names deleted plus the number of errors is the number of names. |
| TriggerTemplateDelete.NoOtherCalls | pkg/cmd/triggertemplate/delete.go:86-94 | The engine sends no Task or TaskRun delete and no list call, so none of those can fail. |
| TriggerTemplateDelete.TemplateErrorsNameFailures | pkg/cmd/triggertemplate/delete.go:87-91 | Each error is a TriggerTemplate delete failure. The errors follow the order of the failed names, and each carries its name. |
| TriggerTemplateDelete.TemplateAllDeleted | pkg/cmd/triggertemplate/delete.go:86-99 | When the store deletes everything, every name is reported deleted, in order, and the result is nil. |
| TaskDelete.TaskSelector | pkg/cmd/task/delete.go:105 | The selector is `tekton.dev/task=` followed by the Task's name. |
| TaskDelete.TaskConversation | pkg/cmd/task/delete.go:93-121 | The calls of the whole Task loop: one TaskBlock per name, in the order given. |
| TaskDelete.RunDeletes | pkg/cmd/task/delete.go:114-120 | The calls of the inner loop: one TaskRun delete per listed name, in list order. |
| TaskDelete.TaskBlock | pkg/cmd/task/delete.go:93-121 | The calls of one loop iteration: the Task delete, then the list, then the TaskRun deletes, each only when the step before it succeeded. |
| TaskDelete.BlockAlone | pkg/cmd/task/delete.go:94-102 | A block is the Task delete alone exactly when `--all` is off or that delete failed. |
| TaskDelete.SelectorInjective | pkg/cmd/task/delete.go:104-106 | Different Task names give different selector strings. |
| TaskDelete.TaskSummary | pkg/cmd/task/delete.go:123-128 | The TaskRuns line is present exactly when some TaskRun was deleted, and the Tasks line exactly when some Task was. When both are present, the TaskRuns line comes first. |
| TaskDelete.DeleteTask | pkg/cmd/task/delete.go:78-131 | Without clients: the client error, with no call made and no line written. With clients, the calls form one block per name, in the order given; each block has the shape TaskBlock describes. It writes one error line per failed call, in order, and the summary of the deleted TaskRuns and Tasks. It returns the combined error of exactly those failures. |
| TaskDelete.PrintSummary | pkg/cmd/task/delete.go:123-128 | Writes the two summary lines to the output stream only (TaskRuns first, each only when non-empty) and leaves the error stream unchanged. |
| TaskDelete.DeleteTaskAndRuns | pkg/cmd/task/delete.go:93-121 | Runs one iteration for one name: the Task delete; then, only if that succeeded and `--all` is set, the list; then, only if the list succeeded, the TaskRun deletes. The error list, both success lists and the error stream grow by exactly what those calls give rise to. |
| TaskDelete.ListTaskRuns | pkg/cmd/task/delete.go:104-112 | One list call, with the selector `tekton.dev/task=<name>`. If it fails, exactly one error is added: the raw list error, not wrapped. |
| TaskDelete.DeleteTaskRuns | pkg/cmd/task/delete.go:114-120 | One TaskRun delete per listed name, in list order, with no abort. It records one error per failure and one name per success. |
| TaskDelete.RunSuccessSelects | pkg/cmd/task/delete.go:114-120 | The TaskRuns reported deleted after a list are exactly the listed names whose delete succeeded, in list order. |
| TaskDelete.RunDeletesAttempted | pkg/cmd/task/delete.go:114-120 | The TaskRun deletes after a list are sent for exactly the listed names, in order. |
| TaskDelete.RunDeletesOnlyRuns | pkg/cmd/task/delete.go:114-120 | The TaskRun deletes after a list delete no Task. |
| TaskDelete.BlockFacts | pkg/cmd/task/delete.go:93-121 | Within one name's calls, the only Task delete is the first call, for that name. A failed Task delete, or no `--all`, ends the block there. |
| TaskDelete.ListFailureKeepsTask | pkg/cmd/task/delete.go:108-112 | When the list fails, the Task still counts as deleted, and the block adds exactly one error: the raw list failure. |
| TaskDelete.TaskAttemptsFollowNames | pkg/cmd/task/delete.go:93-97 | Every name gets exactly one Task delete, in the order given, with duplicates kept, whatever earlier calls did. |
| TaskDelete.TaskSuccessSelects | pkg/cmd/task/delete.go:93-98 | The Tasks reported deleted are exactly the subsequence of the names whose Task delete succeeded, in the original order. |
| TaskDelete.NoCascadeWithoutDeleteAll | pkg/cmd/task/delete.go:100-102 | Without `--all`, the calls are exactly one Task delete per name: no list call is made and no TaskRun is reported deleted. |
| TaskDelete.ListGating | pkg/cmd/task/delete.go:94-108 | A list call comes only right after a Task delete that succeeded, only with `--all`, and with that Task's selector. Conversely, with `--all`, every Task delete that succeeded is followed at once by its list. |
| TaskDelete.ListedRunsDeletedInOrder | pkg/cmd/task/delete.go:114-120 | After a list that succeeded, the listed TaskRuns are deleted one by one, in list order. The next call after them is the next Task's delete, or there is none. |
| TaskDelete.TaskErrorCount | pkg/cmd/task/delete.go:84-88 | The number of errors is the number of failed Task deletes, plus failed list calls, plus failed TaskRun deletes. |
| TaskDelete.NoTemplateDeletes | pkg/cmd/task/delete.go:93-121 | The Task engine sends no TriggerTemplate delete, so none can fail. |
| TaskDelete.TaskAllDeleted | pkg/cmd/task/delete.go:93-131 | When the store answers every call with success, every name is reported deleted, in order. Every TaskRun delete sent is reported, and the result is nil. |
| Scenarios.OneOfTwoFails | pkg/cmd/task/delete.go:93-130 | Tasks "a" and "b" without `--all`, where deleting "a" fails with "not found": one error line for "a", the summary line for "b" only, and a result holding exactly that one failure. |
| Scenarios.BothDeleted | pkg/cmd/task/delete.go:93-130 | Tasks "a" and "b" without `--all`, where both deletes succeed: the single line `Tasks deleted: 'a', 'b'`, no error line, and a nil result. |
| Scenarios.CascadeDeleted | pkg/cmd/task/delete.go:93-130 | Task "a" with `--all`, whose two listed TaskRuns are both deleted: the TaskRuns line, then the Tasks line, and a nil result. |

## Left out

- The cobra command construction in both files (`deleteCommand`), together with flag registration and shell completion. It holds no logic of the engines.
- Namespace validation and the confirmation prompt (`validate.NamespaceExists`, `opts.CheckOptions`, `--force`). They run before the engines do. The model treats them as passed, so `DeleteOptions.forceDelete` is carried but unused, as in the engines.
- The Kubernetes and Tekton clientsets are network calls. They are an oracle of replies, with the call log as the observable state, so timeouts, concurrency and the cluster's own state are not modelled. `Params.clients` is `None` when creating the clients fails. The error message on that path is carried by `ClientFailed` and is not written to the error stream, as in the source.
- `names.QuotedList` is not part of this model. `Cli.QuotedList` renders each name in single quotes, separated by ", ", which is the format the summary lines show.
- Go's `%q` verb escapes special characters. `Cli.Quote` puts double quotes around a name and does not model that escaping.
- `multierr.Combine` is not part of this model. The combined error is the ordered sequence of the errors, with `None` for nil, and the model does not render its text.
- Writes to the streams are whole lines. Byte-level writes and write errors on the streams are not modelled.
- The output and error streams are two separate sequences of lines, so the model does not capture the order of writes across them. In the source, the error lines are written during the loop (pkg/cmd/task/delete.go:87, pkg/cmd/triggertemplate/delete.go:90) and the summary lines after it (pkg/cmd/task/delete.go:123-128, pkg/cmd/triggertemplate/delete.go:95-97). When both streams are the same writer (pkg/cmd/task/delete.go:56), the errors therefore come before the summary. No contract states that order.
- `metav1.DeleteOptions` and `metav1.ListOptions` are left out, apart from the label selector. They carry no other data in the source.
- The loop bodies are separate methods: `DeleteAndReport`, `DeleteTaskAndRuns`, `ListTaskRuns` and `DeleteTaskRuns`, plus `PrintSummary` for the summary writes. The control flow is unchanged, and Go's `continue` after a failure is an `if`/`else`.
- The TriggerTemplate loop writes its error inline rather than through a closure. The model uses the same `AddPrintErr` step for it, because the effect is identical: append the error and write its message.
- Three behaviours of the source are modelled as they are written:
  - A failed TaskRun list is reported with the store's own error text, with no context added (pkg/cmd/task/delete.go:108-111).
  - Every error is written to the error stream when it happens, and is also returned in the combined error (pkg/cmd/task/delete.go:85-88, pkg/cmd/triggertemplate/delete.go:89-90).
  - The engines accept an empty list of names, making no call and writing nothing. Only the command's argument check, `cobra.MinimumNArgs(1)` at pkg/cmd/task/delete.go:47, rules that input out, and that check is not part of this model.
