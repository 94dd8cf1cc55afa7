/**
  `tkn task delete`: deletes the named Tasks one by one and, with --all, the TaskRuns of
  each Task that was deleted. No failure stops the batch: each one is reported and the
  loop moves on. At the end the deleted TaskRuns and the deleted Tasks are listed on the
  output stream, in that order, and the errors are combined into one.
*/
module TaskDelete {
  import opened Wrappers
  import opened Store
  import opened Cli

  /** The label selector that finds the TaskRuns of the Task `name`. */
  function TaskSelector(name: string): (sel: string)
    ensures "tekton.dev/task=" <= sel && sel[|"tekton.dev/task="|..] == name
  {
    "tekton.dev/task=" + name
  }

  /** Different Task names give different selector strings. */
  lemma SelectorInjective(a: string, b: string)
    requires TaskSelector(a) == TaskSelector(b)
    ensures a == b
  {
    var prefix := "tekton.dev/task=";
    assert a == TaskSelector(a)[|prefix|..];
    assert b == TaskSelector(b)[|prefix|..];
  }

  /** One TaskRun delete per listed name, in list order. */
  ghost predicate RunDeletes(namespace: string, items: seq<string>, runs: seq<Event>)
  {
    && |runs| == |items|
    && forall j :: 0 <= j < |runs| ==>
         runs[j].Deleted? && runs[j].kind == TaskRun
         && runs[j].namespace == namespace && runs[j].name == items[j]
  }

  /**
    The calls made for one Task name: its delete; then, only if that succeeded and
    `deleteAll` is set, the list of its TaskRuns; then, only if the list succeeded, one
    delete per listed TaskRun.
  */
  ghost predicate TaskBlock(namespace: string, deleteAll: bool, name: string, b: seq<Event>)
  {
    && |b| >= 1
    && b[0].Deleted? && b[0].kind == Task && b[0].namespace == namespace && b[0].name == name
    && if b[0].failure.Some? || !deleteAll then |b| == 1
       else
         && |b| >= 2
         && b[1].Listed? && b[1].kind == TaskRun && b[1].namespace == namespace
         && b[1].selector == TaskSelector(name)
         && if b[1].reply.Failure? then |b| == 2
            else RunDeletes(namespace, b[1].reply.value, b[2..])
  }

  /** The calls made for `names`: one block per name, in the order given. */
  ghost predicate TaskConversation(namespace: string, deleteAll: bool, names: seq<string>, blocks: seq<seq<Event>>)
  {
    && |blocks| == |names|
    && forall j :: 0 <= j < |blocks| ==> TaskBlock(namespace, deleteAll, names[j], blocks[j])
  }

  ghost function Flatten(blocks: seq<seq<Event>>): seq<Event>
    decreases |blocks|
  {
    if blocks == [] then [] else Flatten(blocks[..|blocks| - 1]) + blocks[|blocks| - 1]
  }

  /** The output lines: deleted TaskRuns first, then deleted Tasks, each only if any. */
  function TaskSummary(runs: seq<string>, tasks: seq<string>): (lines: seq<string>)
    ensures |lines| == (if runs != [] then 1 else 0) + (if tasks != [] then 1 else 0)
    ensures runs != [] ==> lines[0] == "TaskRuns deleted: " + QuotedList(runs)
    ensures tasks != [] ==> lines[|lines| - 1] == "Tasks deleted: " + QuotedList(tasks)
  {
    (if runs != [] then ["TaskRuns deleted: " + QuotedList(runs)] else [])
    + (if tasks != [] then ["Tasks deleted: " + QuotedList(tasks)] else [])
  }

  /**
    Deletes every Task in `tNames` and, with `opts.deleteAll`, the TaskRuns of each Task
    that was deleted. `blocks` are the calls made to the store, one block per name. The
    TaskRuns and Tasks reported deleted are the ones whose delete succeeded, the errors
    are one per failed call, all in call order; the result is nil exactly when there is
    no error.
  */
  method DeleteTask(opts: DeleteOptions, s: Stream, p: Params, tNames: seq<string>)
      returns (err: Option<seq<Error>>, ghost blocks: seq<seq<Event>>)
    requires p.clients.Some? ==> p.clients.value.Valid()
    modifies s, p.Clients()
    ensures p.clients.None? ==>
      err == Some([ClientFailed]) && blocks == [] && s.out == old(s.out) && s.err == old(s.err)
    ensures p.clients.Some? ==>
      var cs := p.clients.value;
      var calls := Flatten(blocks);
      && cs.Valid()
      && cs.log == old(cs.log) + calls
      && TaskConversation(p.namespace, opts.deleteAll, tNames, blocks)
      && s.err == old(s.err) + Messages(Failures(calls))
      && s.out == old(s.out) + TaskSummary(Succeeded(calls, TaskRun), Succeeded(calls, Task))
      && err == Combine(Failures(calls))
  {
    blocks := [];
    if p.clients.None? {
      return Some([ClientFailed]), blocks;
    }
    var cs := p.clients.value;

    var errs: seq<Error> := [];
    var successfulTasks: seq<string> := [];
    var successfulTaskRuns: seq<string> := [];

    for i := 0 to |tNames|
      invariant cs.Valid()
      invariant cs.log == old(cs.log) + Flatten(blocks)
      invariant TaskConversation(p.namespace, opts.deleteAll, tNames[..i], blocks)
      invariant errs == Failures(Flatten(blocks))
      invariant successfulTasks == Succeeded(Flatten(blocks), Task)
      invariant successfulTaskRuns == Succeeded(Flatten(blocks), TaskRun)
      invariant s.err == old(s.err) + Messages(errs)
      invariant s.out == old(s.out)
    {
      ghost var block;
      errs, successfulTasks, successfulTaskRuns, block :=
        DeleteTaskAndRuns(opts.deleteAll, s, cs, p.namespace, tNames[i], Flatten(blocks),
                          errs, successfulTasks, successfulTaskRuns, old(s.err));
      FlattenSnoc(blocks, block);
      AppendAssoc(old(cs.log), Flatten(blocks), block);
      ConversationSnoc(p.namespace, opts.deleteAll, tNames, i, blocks, block);
      blocks := blocks + [block];
    }
    TakeAll(tNames);

    PrintSummary(s, successfulTaskRuns, successfulTasks);
    err := Combine(errs);
  }

  /** Writes the summary lines: the deleted TaskRuns first, then the deleted Tasks. */
  method PrintSummary(s: Stream, successfulTaskRuns: seq<string>, successfulTasks: seq<string>)
    modifies s
    ensures s.out == old(s.out) + TaskSummary(successfulTaskRuns, successfulTasks)
    ensures s.err == old(s.err)
  {
    if |successfulTaskRuns| > 0 {
      s.WriteOut("TaskRuns deleted: " + QuotedList(successfulTaskRuns));
    }
    if |successfulTasks| > 0 {
      s.WriteOut("Tasks deleted: " + QuotedList(successfulTasks));
    }
  }

  /**
    The body of the loop over the Task names: deletes the Task `tName`; when that
    succeeded and `deleteAll` is set, lists its TaskRuns and, when the list succeeded,
    deletes them. `block` is the calls made; the errors and the two success lists grow by
    what those calls gave rise to.
  */
  method DeleteTaskAndRuns(deleteAll: bool, s: Stream, cs: Cluster, namespace: string, tName: string,
                           ghost calls: seq<Event>, errs: seq<Error>,
                           successfulTasks: seq<string>, successfulTaskRuns: seq<string>,
                           ghost err0: seq<string>)
      returns (errs': seq<Error>, successfulTasks': seq<string>, successfulTaskRuns': seq<string>,
               ghost block: seq<Event>)
    requires cs.Valid()
    requires errs == Failures(calls)
    requires successfulTasks == Succeeded(calls, Task) && successfulTaskRuns == Succeeded(calls, TaskRun)
    requires s.err == err0 + Messages(errs)
    modifies s, cs
    ensures TaskBlock(namespace, deleteAll, tName, block)
    ensures cs.Valid() && cs.log == old(cs.log) + block
    ensures errs' == Failures(calls + block)
    ensures successfulTasks' == Succeeded(calls + block, Task)
    ensures successfulTaskRuns' == Succeeded(calls + block, TaskRun)
    ensures s.err == err0 + Messages(errs') && s.out == old(s.out)
  {
    ghost var log0 := cs.log;
    var deleted;
    ghost var e;
    deleted, errs', successfulTasks', e :=
      DeleteAndReport(s, cs, Task, namespace, tName, calls, errs, successfulTasks, err0);
    successfulTaskRuns' := successfulTaskRuns;
    SucceededOther(calls, e, TaskRun);
    block := [e];
    if deleted && deleteAll {
      var taskRuns;
      ghost var l;
      errs', taskRuns, l := ListTaskRuns(s, cs, namespace, tName, calls + block, errs', err0);
      SucceededOther(calls + block, l, Task);
      SucceededOther(calls + block, l, TaskRun);
      AppendAssoc(calls, block, [l]);
      AppendAssoc(log0, block, [l]);
      block := block + [l];
      if taskRuns.Success? {
        ghost var runs;
        errs', successfulTaskRuns', runs :=
          DeleteTaskRuns(s, cs, namespace, taskRuns.value, calls + block, errs', successfulTaskRuns', err0);
        RunDeletesOnlyRuns(namespace, taskRuns.value, runs);
        SucceededAppend(calls + block, runs, Task);
        AppendAssoc(calls, block, runs);
        AppendAssoc(log0, block, runs);
        BlockWithRuns(namespace, tName, block, runs);
        block := block + runs;
      }
    }
  }

  /**
    Lists the TaskRuns of the Task `tName` (by its label selector); a failed list is kept
    as an error, unwrapped, and written to the error stream.
  */
  method ListTaskRuns(s: Stream, cs: Cluster, namespace: string, tName: string,
                      ghost calls: seq<Event>, errs: seq<Error>, ghost err0: seq<string>)
      returns (errs': seq<Error>, taskRuns: Result<seq<string>, string>, ghost e: Event)
    requires cs.Valid()
    requires errs == Failures(calls)
    requires s.err == err0 + Messages(errs)
    modifies s, cs
    ensures e == Listed(TaskRun, namespace, TaskSelector(tName), taskRuns)
    ensures cs.Valid() && cs.log == old(cs.log) + [e]
    ensures errs' == Failures(calls + [e])
    ensures s.err == err0 + Messages(errs') && s.out == old(s.out)
  {
    taskRuns := cs.List(TaskRun, namespace, TaskSelector(tName));
    e := Listed(TaskRun, namespace, TaskSelector(tName), taskRuns);
    Snoc(calls, e);
    errs' := errs;
    if taskRuns.Failure? {
      MessagesSnoc(errs, ListFailed(taskRuns.error));
      errs' := AddPrintErr(s, errs, ListFailed(taskRuns.error));
    }
  }

  /**
    Deletes the listed TaskRuns one by one, in list order; a failed delete is reported and
    the loop moves on. `runs` are the calls made, one delete per listed name.
  */
  method DeleteTaskRuns(s: Stream, cs: Cluster, namespace: string, items: seq<string>,
                        ghost calls: seq<Event>, errs: seq<Error>, successfulTaskRuns: seq<string>,
                        ghost err0: seq<string>)
      returns (errs': seq<Error>, successfulTaskRuns': seq<string>, ghost runs: seq<Event>)
    requires cs.Valid()
    requires errs == Failures(calls) && successfulTaskRuns == Succeeded(calls, TaskRun)
    requires s.err == err0 + Messages(errs)
    modifies s, cs
    ensures cs.Valid() && cs.log == old(cs.log) + runs
    ensures RunDeletes(namespace, items, runs)
    ensures errs' == Failures(calls + runs)
    ensures successfulTaskRuns' == Succeeded(calls + runs, TaskRun)
    ensures s.err == err0 + Messages(errs') && s.out == old(s.out)
  {
    errs', successfulTaskRuns', runs := errs, successfulTaskRuns, [];
    ghost var history := calls;
    for j := 0 to |items|
      invariant history == calls + runs
      invariant cs.Valid() && cs.log == old(cs.log) + runs
      invariant RunDeletes(namespace, items[..j], runs)
      invariant errs' == Failures(history)
      invariant successfulTaskRuns' == Succeeded(history, TaskRun)
      invariant s.err == err0 + Messages(errs') && s.out == old(s.out)
    {
      var deleted;
      ghost var e;
      deleted, errs', successfulTaskRuns', e :=
        DeleteAndReport(s, cs, TaskRun, namespace, items[j], history, errs', successfulTaskRuns', err0);
      RunDeletesSnoc(namespace, items, j, runs, e);
      AppendAssoc(calls, runs, [e]);
      AppendAssoc(old(cs.log), runs, [e]);
      history, runs := history + [e], runs + [e];
    }
    TakeAll(items);
  }

  /** TaskRun deletes delete no Task. */
  lemma RunDeletesOnlyRuns(namespace: string, items: seq<string>, runs: seq<Event>)
    requires RunDeletes(namespace, items, runs)
    ensures Succeeded(runs, Task) == []
  {
    NoneOfKind(runs, Task);
  }

  /** The TaskRuns reported deleted after a list are the listed names whose delete succeeded. */
  lemma {:induction false} RunSuccessSelects(namespace: string, items: seq<string>, runs: seq<Event>)
    requires RunDeletes(namespace, items, runs)
    ensures Succeeded(runs, TaskRun) == Select(items, OkFlags(runs))
    decreases |runs|
  {
    if runs != [] {
      var n := |runs| - 1;
      assert RunDeletes(namespace, items[..n], Init(runs));
      RunSuccessSelects(namespace, items[..n], Init(runs));
      assert OkFlags(runs)[..n] == OkFlags(Init(runs));
      assert items[..n] == items[..|items| - 1];
    }
  }

  /** The TaskRun deletes after a list call are sent for exactly the listed names, in order. */
  lemma {:induction false} RunDeletesAttempted(namespace: string, items: seq<string>, runs: seq<Event>)
    requires RunDeletes(namespace, items, runs)
    ensures Attempted(runs, TaskRun) == items
    decreases |runs|
  {
    if runs != [] {
      var n := |runs| - 1;
      assert RunDeletes(namespace, items[..n], Init(runs));
      RunDeletesAttempted(namespace, items[..n], Init(runs));
      assert items == items[..n] + [items[n]];
    }
  }

  /** One more TaskRun delete extends the deletes by one listed name. */
  lemma RunDeletesSnoc(namespace: string, items: seq<string>, j: nat, runs: seq<Event>, e: Event)
    requires j < |items| && RunDeletes(namespace, items[..j], runs)
    requires e.Deleted? && e.kind == TaskRun && e.namespace == namespace && e.name == items[j]
    ensures RunDeletes(namespace, items[..j + 1], runs + [e])
  {
    assert items[..j + 1] == items[..j] + [items[j]];
  }

  /** A block that got as far as deleting the listed TaskRuns has the shape TaskBlock says. */
  lemma BlockWithRuns(namespace: string, tName: string, block: seq<Event>, runs: seq<Event>)
    requires |block| == 2
    requires block[0].Deleted? && block[0].kind == Task && block[0].namespace == namespace
    requires block[0].name == tName && block[0].failure.None?
    requires block[1].Listed? && block[1].kind == TaskRun && block[1].namespace == namespace
    requires block[1].selector == TaskSelector(tName) && block[1].reply.Success?
    requires RunDeletes(namespace, block[1].reply.value, runs)
    ensures TaskBlock(namespace, true, tName, block + runs)
  {
    assert (block + runs)[2..] == runs;
  }

  /** One more block extends the conversation by one name. */
  lemma ConversationSnoc(namespace: string, deleteAll: bool, names: seq<string>, i: nat,
                         blocks: seq<seq<Event>>, b: seq<Event>)
    requires i < |names| && TaskConversation(namespace, deleteAll, names[..i], blocks)
    requires TaskBlock(namespace, deleteAll, names[i], b)
    ensures TaskConversation(namespace, deleteAll, names[..i + 1], blocks + [b])
  {
    assert names[..i + 1] == names[..i] + [names[i]];
  }

  /** A conversation minus its last block is the conversation of all names but the last. */
  lemma ConversationInit(namespace: string, deleteAll: bool, names: seq<string>, blocks: seq<seq<Event>>)
    requires TaskConversation(namespace, deleteAll, names, blocks) && blocks != []
    ensures blocks == blocks[..|blocks| - 1] + [blocks[|blocks| - 1]]
    ensures names == names[..|blocks| - 1] + [names[|blocks| - 1]]
    ensures TaskConversation(namespace, deleteAll, names[..|blocks| - 1], blocks[..|blocks| - 1])
    ensures TaskBlock(namespace, deleteAll, names[|blocks| - 1], blocks[|blocks| - 1])
  {
  }

  lemma FlattenSnoc(blocks: seq<seq<Event>>, b: seq<Event>)
    ensures Flatten(blocks + [b]) == Flatten(blocks) + b
  {
    assert (blocks + [b])[..|blocks|] == blocks;
  }

  /** Whether the Task delete that opens each block succeeded. */
  ghost function TaskDeleted(blocks: seq<seq<Event>>): (flags: seq<bool>)
    ensures |flags| == |blocks|
  {
    seq(|blocks|, j requires 0 <= j < |blocks| => blocks[j] != [] && Ok(blocks[j][0]))
  }

  lemma TaskDeletedPrefix(blocks: seq<seq<Event>>, n: nat)
    requires n <= |blocks|
    ensures TaskDeleted(blocks)[..n] == TaskDeleted(blocks[..n])
  {
  }

  /**
    Within one block only the first call is a Task delete, and there is no TriggerTemplate
    delete; without --all, or when the Task delete failed, the block is that one call.
  */
  lemma BlockFacts(namespace: string, deleteAll: bool, name: string, b: seq<Event>)
    requires TaskBlock(namespace, deleteAll, name, b)
    ensures Attempted(b, Task) == [name]
    ensures Succeeded(b, Task) == (if Ok(b[0]) then [name] else [])
    ensures Attempted(b, TriggerTemplate) == [] && Failed(b, TriggerTemplate) == []
    ensures !deleteAll || !Ok(b[0]) ==> b == [b[0]]
  {
    var rest := b[1..];
    assert b == [b[0]] + rest;
    forall k | 0 <= k < |rest|
      ensures !(rest[k].Deleted? && rest[k].kind == Task)
      ensures !(rest[k].Deleted? && rest[k].kind == TriggerTemplate)
    {
      assert rest[k] == b[k + 1];
      if k > 0 {
        assert b[k + 1] == b[2..][k - 1];
      }
    }
    NoneOfKind(rest, Task);
    NoneOfKind(rest, TriggerTemplate);
    Snoc([], b[0]);
    AttemptedAppend([b[0]], rest, Task);
    SucceededAppend([b[0]], rest, Task);
    FailedAppend([b[0]], rest, TriggerTemplate);
    AttemptedAppend([b[0]], rest, TriggerTemplate);
  }

  /** A block is the Task delete alone exactly when --all is off or that delete failed. */
  lemma BlockAlone(namespace: string, deleteAll: bool, name: string, b: seq<Event>)
    requires TaskBlock(namespace, deleteAll, name, b)
    ensures |b| == 1 <==> !deleteAll || !Ok(b[0])
  {
  }

  /**
    A failed TaskRun list does not undo the Task delete before it: the Task still counts
    as deleted, and the block's only error is the list failure, passed on unwrapped.
  */
  lemma ListFailureKeepsTask(namespace: string, name: string, b: seq<Event>)
    requires TaskBlock(namespace, true, name, b)
    requires |b| >= 2 && b[1].Listed? && b[1].reply.Failure?
    ensures Succeeded(b, Task) == [name]
    ensures Failures(b) == [ListFailed(b[1].reply.error)]
  {
    BlockFacts(namespace, true, name, b);
    assert b == [b[0]] + [b[1]];
    Snoc([b[0]], b[1]);
    SingleCall(b[0]);
    assert Failures([b[0]]) == [] by {
      assert ErrorOf(b[0]) == [];
    }
    assert ErrorOf(b[1]) == [ListFailed(b[1].reply.error)];
  }

  /** Every name gets exactly one Task delete, in the order given, duplicates included. */
  lemma {:induction false} TaskAttemptsFollowNames(namespace: string, deleteAll: bool, names: seq<string>,
                                                   blocks: seq<seq<Event>>)
    requires TaskConversation(namespace, deleteAll, names, blocks)
    ensures Attempted(Flatten(blocks), Task) == names
    decreases |blocks|
  {
    if blocks != [] {
      var n := |blocks| - 1;
      var init, b := blocks[..n], blocks[n];
      ConversationInit(namespace, deleteAll, names, blocks);
      TaskAttemptsFollowNames(namespace, deleteAll, names[..n], init);
      FlattenSnoc(init, b);
      BlockFacts(namespace, deleteAll, names[n], b);
      AttemptedAppend(Flatten(init), b, Task);
      assert names == names[..n] + [names[n]];
    }
  }

  /**
    The Tasks reported deleted are the subsequence of the names whose Task delete
    succeeded, in the order given.
  */
  lemma {:induction false} TaskSuccessSelects(namespace: string, deleteAll: bool, names: seq<string>,
                                              blocks: seq<seq<Event>>)
    requires TaskConversation(namespace, deleteAll, names, blocks)
    ensures Succeeded(Flatten(blocks), Task) == Select(names, TaskDeleted(blocks))
    decreases |blocks|
  {
    if blocks != [] {
      var n := |blocks| - 1;
      var init, b := blocks[..n], blocks[n];
      ConversationInit(namespace, deleteAll, names, blocks);
      TaskSuccessSelects(namespace, deleteAll, names[..n], init);
      FlattenSnoc(init, b);
      BlockFacts(namespace, deleteAll, names[n], b);
      SucceededAppend(Flatten(init), b, Task);
      TaskDeletedPrefix(blocks, n);
      assert names[..n] == names[..|names| - 1];
    }
  }

  /**
    Without --all no list call is made and no TaskRun is deleted: the calls are exactly one
    Task delete per name, in the order given.
  */
  lemma {:induction false} NoCascadeWithoutDeleteAll(namespace: string, names: seq<string>,
                                                     blocks: seq<seq<Event>>)
    requires TaskConversation(namespace, false, names, blocks)
    ensures |Flatten(blocks)| == |names|
    ensures forall k :: 0 <= k < |Flatten(blocks)| ==>
      Flatten(blocks)[k].Deleted? && Flatten(blocks)[k].kind == Task && Flatten(blocks)[k].name == names[k]
    ensures Succeeded(Flatten(blocks), TaskRun) == [] && FailedLists(Flatten(blocks)) == 0
    decreases |blocks|
  {
    if blocks != [] {
      var n := |blocks| - 1;
      var init, b := blocks[..n], blocks[n];
      assert blocks == init + [b];
      assert TaskConversation(namespace, false, names[..n], init);
      NoCascadeWithoutDeleteAll(namespace, names[..n], init);
      FlattenSnoc(init, b);
      BlockFacts(namespace, false, names[n], b);
      var f0 := Flatten(init);
      Snoc(f0, b[0]);
      forall k | 0 <= k < |f0 + b|
        ensures (f0 + b)[k].Deleted? && (f0 + b)[k].kind == Task && (f0 + b)[k].name == names[k]
      {
        if k < |f0| {
          assert (f0 + b)[k] == f0[k];
        }
      }
    }
  }

  /**
    The cascade is gated, in both directions: a list call is made only right after a Task
    delete that succeeded, only with --all, and with that Task's selector; and with --all
    every Task delete that succeeded is followed at once by the list of its TaskRuns.
  */
  lemma {:induction false} ListGating(namespace: string, deleteAll: bool, names: seq<string>,
                                      blocks: seq<seq<Event>>)
    requires TaskConversation(namespace, deleteAll, names, blocks)
    ensures var f := Flatten(blocks);
      forall k :: 0 <= k < |f| && f[k].Listed? ==>
        && deleteAll && 0 < k
        && f[k - 1].Deleted? && f[k - 1].kind == Task && f[k - 1].failure.None?
        && f[k].kind == TaskRun && f[k].namespace == namespace && f[k].selector == TaskSelector(f[k - 1].name)
    ensures var f := Flatten(blocks);
      forall k :: 0 <= k < |f| && deleteAll && f[k].Deleted? && f[k].kind == Task && f[k].failure.None? ==>
        k + 1 < |f| && f[k + 1].Listed? && f[k + 1].selector == TaskSelector(f[k].name)
    decreases |blocks|
  {
    if blocks != [] {
      var n := |blocks| - 1;
      var init, b := blocks[..n], blocks[n];
      ConversationInit(namespace, deleteAll, names, blocks);
      ListGating(namespace, deleteAll, names[..n], init);
      FlattenSnoc(init, b);
      var f0 := Flatten(init);
      var f := f0 + b;
      assert TaskBlock(namespace, deleteAll, names[n], b);
      forall k | 0 <= k < |f| && f[k].Listed?
        ensures && deleteAll && 0 < k
                && f[k - 1].Deleted? && f[k - 1].kind == Task && f[k - 1].failure.None?
                && f[k].kind == TaskRun && f[k].namespace == namespace
                && f[k].selector == TaskSelector(f[k - 1].name)
      {
        if k < |f0| {
          assert f[k] == f0[k] && f[k - 1] == f0[k - 1];
        } else {
          var o := k - |f0|;
          assert f[k] == b[o];
          assert f[k - 1] == b[0];
        }
      }
      forall k | 0 <= k < |f| && deleteAll && f[k].Deleted? && f[k].kind == Task && f[k].failure.None?
        ensures k + 1 < |f| && f[k + 1].Listed? && f[k + 1].selector == TaskSelector(f[k].name)
      {
        if k < |f0| {
          assert f[k] == f0[k] && f[k + 1] == f0[k + 1];
        } else {
          var o := k - |f0|;
          assert f[k] == b[o];
          assert f[k + 1] == b[1];
        }
      }
    }
  }

  /**
    The list call at `k` is followed by one TaskRun delete per listed name, in list order,
    and then by a Task delete or by the end of the calls.
  */
  ghost predicate RunsFollowList(namespace: string, f: seq<Event>, k: nat)
    requires k < |f| && f[k].Listed? && f[k].reply.Success?
  {
    var m := k + 1 + |f[k].reply.value|;
    && m <= |f|
    && RunDeletes(namespace, f[k].reply.value, f[k + 1..m])
    && (m < |f| ==> f[m].Deleted? && f[m].kind == Task)
  }

  /**
    After a list call that succeeded, every listed TaskRun is deleted, in list order, and
    nothing else happens until the next Task delete (or the end).
  */
  lemma {:induction false} ListedRunsDeletedInOrder(namespace: string, deleteAll: bool, names: seq<string>,
                                                    blocks: seq<seq<Event>>)
    requires TaskConversation(namespace, deleteAll, names, blocks)
    ensures var f := Flatten(blocks);
      forall k :: 0 <= k < |f| && f[k].Listed? && f[k].reply.Success? ==> RunsFollowList(namespace, f, k)
    decreases |blocks|
  {
    if blocks != [] {
      var n := |blocks| - 1;
      var init, b := blocks[..n], blocks[n];
      ConversationInit(namespace, deleteAll, names, blocks);
      ListedRunsDeletedInOrder(namespace, deleteAll, names[..n], init);
      FlattenSnoc(init, b);
      var f0 := Flatten(init);
      var f := f0 + b;
      assert TaskBlock(namespace, deleteAll, names[n], b);
      forall k | 0 <= k < |f| && f[k].Listed? && f[k].reply.Success?
        ensures RunsFollowList(namespace, f, k)
      {
        if k < |f0| {
          RunsFollowListEarlier(namespace, f0, b, k);
        } else {
          RunsFollowListInBlock(namespace, deleteAll, names[n], f0, b, k);
        }
      }
    }
  }

  /** Appending a block that opens with a Task delete keeps what held for an earlier list. */
  lemma RunsFollowListEarlier(namespace: string, f0: seq<Event>, b: seq<Event>, k: nat)
    requires k < |f0| && f0[k].Listed? && f0[k].reply.Success? && RunsFollowList(namespace, f0, k)
    requires b != [] && b[0].Deleted? && b[0].kind == Task
    ensures RunsFollowList(namespace, f0 + b, k)
  {
    var f := f0 + b;
    var m := k + 1 + |f0[k].reply.value|;
    assert f[k] == f0[k];
    assert f[k + 1..m] == f0[k + 1..m];
    if m < |f0| {
      assert f[m] == f0[m];
    } else if m < |f| {
      assert f[m] == b[0];
    }
  }

  /** A list call inside the last block is followed by that block's TaskRun deletes. */
  lemma RunsFollowListInBlock(namespace: string, deleteAll: bool, name: string, f0: seq<Event>,
                              b: seq<Event>, k: nat)
    requires TaskBlock(namespace, deleteAll, name, b)
    requires |f0| <= k < |f0 + b| && (f0 + b)[k].Listed? && (f0 + b)[k].reply.Success?
    ensures RunsFollowList(namespace, f0 + b, k)
  {
    var f := f0 + b;
    var o := k - |f0|;
    assert f[k] == b[o];
    assert o == 1;
    assert f[k + 1..|f|] == b[2..];
  }

  /**
    There is one error per failed Task delete, one per failed list call and one per failed
    TaskRun delete, and no other.
  */
  lemma {:induction false} TaskErrorCount(namespace: string, deleteAll: bool, names: seq<string>,
                                          blocks: seq<seq<Event>>)
    requires TaskConversation(namespace, deleteAll, names, blocks)
    ensures |Failures(Flatten(blocks))| ==
      |Failed(Flatten(blocks), Task)| + |Failed(Flatten(blocks), TaskRun)| + FailedLists(Flatten(blocks))
  {
    NoTemplateDeletes(namespace, deleteAll, names, blocks);
    FailuresCount(Flatten(blocks));
  }

  /** A Task conversation sends no TriggerTemplate delete, so none can fail. */
  lemma {:induction false} NoTemplateDeletes(namespace: string, deleteAll: bool, names: seq<string>,
                                             blocks: seq<seq<Event>>)
    requires TaskConversation(namespace, deleteAll, names, blocks)
    ensures Attempted(Flatten(blocks), TriggerTemplate) == []
    ensures Failed(Flatten(blocks), TriggerTemplate) == []
    decreases |blocks|
  {
    if blocks != [] {
      var n := |blocks| - 1;
      var init, b := blocks[..n], blocks[n];
      ConversationInit(namespace, deleteAll, names, blocks);
      NoTemplateDeletes(namespace, deleteAll, names[..n], init);
      FlattenSnoc(init, b);
      BlockFacts(namespace, deleteAll, names[n], b);
      FailedAppend(Flatten(init), b, TriggerTemplate);
      AttemptedAppend(Flatten(init), b, TriggerTemplate);
    }
  }

  /**
    If the store answers every call with success, every Task is reported deleted, every
    TaskRun delete that was sent is reported, and the result is nil.
  */
  lemma TaskAllDeleted(namespace: string, deleteAll: bool, names: seq<string>, blocks: seq<seq<Event>>)
    requires TaskConversation(namespace, deleteAll, names, blocks)
    requires forall k :: 0 <= k < |Flatten(blocks)| ==> Ok(Flatten(blocks)[k])
    ensures Succeeded(Flatten(blocks), Task) == names
    ensures Succeeded(Flatten(blocks), TaskRun) == Attempted(Flatten(blocks), TaskRun)
    ensures Combine(Failures(Flatten(blocks))) == None
  {
    TaskAttemptsFollowNames(namespace, deleteAll, names, blocks);
    AllOkAllSucceeded(Flatten(blocks), Task);
    AllOkAllSucceeded(Flatten(blocks), TaskRun);
    NilIffNothingFailed(Flatten(blocks));
  }
}
