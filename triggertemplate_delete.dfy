/**
  `tkn triggertemplate delete`: deletes the named TriggerTemplates one by one. A failed
  delete is reported and the loop moves on to the next name; at the end the names that
  were deleted are listed on the output stream and the errors are combined into one.
*/
module TriggerTemplateDelete {
  import opened Wrappers
  import opened Store
  import opened Cli

  /**
    The calls made for `names`: one TriggerTemplate delete per name, in the order given,
    duplicates included, and nothing else.
  */
  ghost predicate TemplateConversation(namespace: string, names: seq<string>, calls: seq<Event>)
  {
    && |calls| == |names|
    && forall j :: 0 <= j < |calls| ==>
         calls[j].Deleted? && calls[j].kind == TriggerTemplate
         && calls[j].namespace == namespace && calls[j].name == names[j]
  }

  /** The error of each call, if any, names the TriggerTemplate at its position. */
  lemma TemplateCallErrors(namespace: string, names: seq<string>, calls: seq<Event>)
    requires TemplateConversation(namespace, names, calls)
    ensures forall j :: 0 <= j < |calls| ==>
      ErrorOf(calls[j]) == (if Ok(calls[j]) then [] else [DeleteFailed(TriggerTemplate, names[j], calls[j].failure.value)])
  {
  }

  /** The output lines: the deleted TriggerTemplates, when there are any. */
  function TemplateSummary(success: seq<string>): (lines: seq<string>)
    ensures |lines| == 1 <==> success != []
    ensures |lines| <= 1
    ensures lines != [] ==> lines[0] == "TriggerTemplates deleted: " + QuotedList(success)
  {
    if success != [] then ["TriggerTemplates deleted: " + QuotedList(success)] else []
  }

  /**
    Deletes every TriggerTemplate in `ttNames`. `calls` are the calls made to the store.
    The success list is the names whose delete succeeded, the errors are one per failed
    delete, both in call order; the result is nil exactly when there is no error.
  */
  method DeleteTriggerTemplates(s: Stream, p: Params, ttNames: seq<string>)
      returns (err: Option<seq<Error>>, ghost calls: seq<Event>)
    requires p.clients.Some? ==> p.clients.value.Valid()
    modifies s, p.Clients()
    ensures p.clients.None? ==>
      err == Some([ClientFailed]) && calls == [] && s.out == old(s.out) && s.err == old(s.err)
    ensures p.clients.Some? ==>
      var cs := p.clients.value;
      && cs.Valid()
      && cs.log == old(cs.log) + calls
      && TemplateConversation(p.namespace, ttNames, calls)
      && s.err == old(s.err) + Messages(Failures(calls))
      && s.out == old(s.out) + TemplateSummary(Succeeded(calls, TriggerTemplate))
      && err == Combine(Failures(calls))
  {
    calls := [];
    if p.clients.None? {
      return Some([ClientFailed]), calls;
    }
    var cs := p.clients.value;
    assert p.Clients() == {cs};

    var errs: seq<Error> := [];
    var success: seq<string> := [];

    for i := 0 to |ttNames|
      invariant cs.Valid()
      invariant cs.log == old(cs.log) + calls
      invariant TemplateConversation(p.namespace, ttNames[..i], calls)
      invariant errs == Failures(calls)
      invariant success == Succeeded(calls, TriggerTemplate)
      invariant s.err == old(s.err) + Messages(errs)
      invariant s.out == old(s.out)
    {
      var deleted;
      ghost var e;
      deleted, errs, success, e := DeleteAndReport(s, cs, TriggerTemplate, p.namespace, ttNames[i], calls, errs, success, old(s.err));
      ConversationSnoc(p.namespace, ttNames, i, calls, e);
      calls := calls + [e];
    }
    TakeAll(ttNames);
    PrintSummary(s, success);
    err := Combine(errs);
  }

  /** Writes the summary line, when any TriggerTemplate was deleted. */
  method PrintSummary(s: Stream, success: seq<string>)
    modifies s
    ensures s.out == old(s.out) + TemplateSummary(success)
    ensures s.err == old(s.err)
  {
    if |success| > 0 {
      s.WriteOut("TriggerTemplates deleted: " + QuotedList(success));
    }
  }

  /** One more delete extends the conversation by one name. */
  lemma ConversationSnoc(namespace: string, names: seq<string>, i: nat, calls: seq<Event>, e: Event)
    requires i < |names| && TemplateConversation(namespace, names[..i], calls)
    requires e.Deleted? && e.kind == TriggerTemplate && e.namespace == namespace && e.name == names[i]
    ensures TemplateConversation(namespace, names[..i + 1], calls + [e])
  {
    assert names[..i + 1] == names[..i] + [names[i]];
  }

  /** Each name gets exactly one delete, in the order given, whatever the earlier ones did. */
  lemma {:induction false} TemplateAttemptsFollowNames(namespace: string, names: seq<string>, calls: seq<Event>)
    requires TemplateConversation(namespace, names, calls)
    ensures Attempted(calls, TriggerTemplate) == names
    decreases |calls|
  {
    if calls != [] {
      var n := |calls| - 1;
      assert TemplateConversation(namespace, names[..n], Init(calls));
      TemplateAttemptsFollowNames(namespace, names[..n], Init(calls));
      assert names == names[..n] + [names[n]];
    }
  }

  /**
    The names reported deleted are exactly the names whose delete succeeded, in the order
    given: the subsequence of `names` at the positions of the calls that did not fail.
  */
  lemma {:induction false} TemplateSuccessSelects(namespace: string, names: seq<string>, calls: seq<Event>)
    requires TemplateConversation(namespace, names, calls)
    ensures Succeeded(calls, TriggerTemplate) == Select(names, OkFlags(calls))
    decreases |calls|
  {
    if calls != [] {
      var n := |calls| - 1;
      assert TemplateConversation(namespace, names[..n], Init(calls));
      TemplateSuccessSelects(namespace, names[..n], Init(calls));
      assert OkFlags(calls)[..n] == OkFlags(Init(calls));
      assert names[..n] == names[..|names| - 1];
    }
  }

  /** Every delete lands in exactly one of the two lists: |success| + |errs| == |names|. */
  lemma TemplateOutcomesPartition(namespace: string, names: seq<string>, calls: seq<Event>)
    requires TemplateConversation(namespace, names, calls)
    ensures |Succeeded(calls, TriggerTemplate)| + |Failures(calls)| == |names|
  {
    TemplateAttemptsFollowNames(namespace, names, calls);
    AttemptsPartition(calls, TriggerTemplate);
    FailuresCount(calls);
    NoOtherCalls(namespace, names, calls);
  }

  /** A TriggerTemplate conversation sends no call of another kind and no list call. */
  lemma {:induction false} NoOtherCalls(namespace: string, names: seq<string>, calls: seq<Event>)
    requires TemplateConversation(namespace, names, calls)
    ensures Attempted(calls, Task) == [] && Attempted(calls, TaskRun) == []
    ensures forall k :: 0 <= k < |calls| ==> !calls[k].Listed?
    ensures Failed(calls, Task) == [] && Failed(calls, TaskRun) == [] && FailedLists(calls) == 0
    decreases |calls|
  {
    if calls != [] {
      var n := |calls| - 1;
      assert TemplateConversation(namespace, names[..n], Init(calls));
      NoOtherCalls(namespace, names[..n], Init(calls));
    }
    NoneOfKind(calls, Task);
    NoneOfKind(calls, TaskRun);
  }

  /**
    Each error is the failure of one TriggerTemplate delete, in the order of the failed
    names, and it carries that name.
  */
  lemma {:induction false} TemplateErrorsNameFailures(namespace: string, names: seq<string>, calls: seq<Event>)
    requires TemplateConversation(namespace, names, calls)
    ensures |Failures(calls)| == |Failed(calls, TriggerTemplate)|
    ensures forall k :: 0 <= k < |Failures(calls)| ==>
      Failures(calls)[k].DeleteFailed? && Failures(calls)[k].kind == TriggerTemplate
      && Failures(calls)[k].name == Failed(calls, TriggerTemplate)[k]
    decreases |calls|
  {
    if calls != [] {
      var n := |calls| - 1;
      assert TemplateConversation(namespace, names[..n], Init(calls));
      TemplateErrorsNameFailures(namespace, names[..n], Init(calls));
    }
  }

  /** If the store deletes everything, every name is reported deleted and the result is nil. */
  lemma TemplateAllDeleted(namespace: string, names: seq<string>, calls: seq<Event>)
    requires TemplateConversation(namespace, names, calls)
    requires forall i :: 0 <= i < |calls| ==> Ok(calls[i])
    ensures Succeeded(calls, TriggerTemplate) == names
    ensures Combine(Failures(calls)) == None
  {
    TemplateAttemptsFollowNames(namespace, names, calls);
    AllOkAllSucceeded(calls, TriggerTemplate);
    NilIffNothingFailed(calls);
  }
}
