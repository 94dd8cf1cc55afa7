/**
  What the two delete commands share: the parameters they receive, the output streams
  they write to, the errors they report, and the helpers that render errors and name lists.
*/
module Cli {
  import opened Wrappers
  import opened Store

  /** The command's options; only `deleteAll` (the --all flag) reaches the delete engines. */
  datatype DeleteOptions = DeleteOptions(resource: string, forceDelete: bool, deleteAll: bool)

  /**
    The command's parameters: the namespace every call is scoped to, and the clients,
    which are None when creating them failed.
  */
  datatype Params = Params(namespace: string, clients: Option<Cluster>)
  {
    /** The objects a delete engine may change through these parameters. */
    function Clients(): set<Cluster>
    {
      if clients.Some? then {clients.value} else {}
    }
  }

  /** The command's output and error streams, as the lines written to each. */
  class Stream {
    var out: seq<string>
    var err: seq<string>

    constructor ()
      ensures out == [] && err == []
    {
      out, err := [], [];
    }

    method WriteOut(line: string)
      modifies this
      ensures out == old(out) + [line] && err == old(err)
    {
      out := out + [line];
    }

    method WriteErr(line: string)
      modifies this
      ensures err == old(err) + [line] && out == old(out)
    {
      err := err + [line];
    }
  }

  /** The errors the delete engines return. */
  datatype Error =
    | ClientFailed                                        // the clients could not be created
    | DeleteFailed(kind: Kind, name: string, cause: string) // one delete call failed
    | ListFailed(cause: string)                           // a list call failed; passed on unwrapped

  function KindName(kind: Kind): string
  {
    match kind
    case Task => "task"
    case TaskRun => "taskrun"
    case TriggerTemplate => "triggertemplate"
  }

  /** A name between double quotes, as the %q verb writes a plain name. */
  function Quote(name: string): string
  {
    "\"" + name + "\""
  }

  /** The text of an error, as written to the error stream. */
  function Message(e: Error): string
  {
    match e
    case ClientFailed => "failed to create tekton client"
    case DeleteFailed(kind, name, cause) =>
      "failed to delete " + KindName(kind) + " " + Quote(name) + ": " + cause
    case ListFailed(cause) => cause
  }

  function Messages(errs: seq<Error>): seq<string>
    decreases |errs|
  {
    if errs == [] then [] else Messages(errs[..|errs| - 1]) + [Message(errs[|errs| - 1])]
  }

  /** The combined error: nil (None) when there is nothing to combine. */
  function Combine(errs: seq<Error>): Option<seq<Error>>
  {
    if errs == [] then None else Some(errs)
  }

  /** Names, each between single quotes, separated by ", ". */
  function QuotedList(names: seq<string>): string
    decreases |names|
  {
    if names == [] then ""
    else if |names| == 1 then "'" + names[0] + "'"
    else "'" + names[0] + "', " + QuotedList(names[1..])
  }

  /** The error one call contributes: none when it succeeded. */
  function ErrorOf(e: Event): seq<Error>
  {
    match e
    case Deleted(kind, _, name, failure) =>
      if failure.Some? then [DeleteFailed(kind, name, failure.value)] else []
    case Listed(_, _, _, reply) =>
      if reply.Failure? then [ListFailed(reply.error)] else []
  }

  /** The errors a sequence of calls gives rise to, in the order the calls were made. */
  function Failures(ev: seq<Event>): seq<Error>
    decreases |ev|
  {
    if ev == [] then [] else Failures(Init(ev)) + ErrorOf(Last(ev))
  }

  /**
    A failed list is reported with the store's own text; a failed delete names what it
    tried to delete and ends with the store's cause.
  */
  lemma MessageForm(e: Error)
    ensures e.ListFailed? ==> Message(e) == e.cause
    ensures e.DeleteFailed? ==>
      && "failed to delete " + KindName(e.kind) + " " <= Message(e)
      && |e.cause| <= |Message(e)| && Message(e)[|Message(e)| - |e.cause|..] == e.cause
  {
  }

  /** The combined error is nil exactly when there is no error, and keeps every error. */
  lemma CombineKeepsAll(errs: seq<Error>)
    ensures Combine(errs).None? <==> errs == []
    ensures Combine(errs).Some? ==> Combine(errs).value == errs
  {
  }

  /** A name list is empty exactly when there are no names, and is quoted at both ends. */
  lemma {:induction false} QuotedListForm(names: seq<string>)
    ensures QuotedList(names) == [] <==> names == []
    ensures names != [] ==>
      QuotedList(names)[0] == '\'' && QuotedList(names)[|QuotedList(names)| - 1] == '\''
    decreases |names|
  {
    if |names| > 1 {
      QuotedListForm(names[1..]);
    }
  }

  /** A call gives at most one error, none exactly when it succeeded. */
  lemma ErrorOfForm(e: Event)
    ensures |ErrorOf(e)| <= 1
    ensures ErrorOf(e) == [] <==> Ok(e)
    ensures ErrorOf(e) != [] && e.Deleted? ==> ErrorOf(e)[0] == DeleteFailed(e.kind, e.name, e.failure.value)
  {
  }

  /** There are never more errors than calls. */
  lemma {:induction false} FailuresBound(ev: seq<Event>)
    ensures |Failures(ev)| <= |ev|
    decreases |ev|
  {
    if ev != [] {
      FailuresBound(Init(ev));
      ErrorOfForm(Last(ev));
    }
  }

  /**
    The error closure both delete commands use: keeps `e` with the errors collected so far
    and writes its message to the error stream at once.
  */
  method AddPrintErr(s: Stream, errs: seq<Error>, e: Error) returns (errs': seq<Error>)
    modifies s
    ensures errs' == errs + [e]
    ensures s.err == old(s.err) + [Message(e)] && s.out == old(s.out)
  {
    errs' := errs + [e];
    s.WriteErr(Message(e));
  }

  /**
    One step of a delete loop: sends the delete for `name`; on failure the error is kept
    and written, otherwise the name joins the names deleted so far. `calls` are the calls
    made before this one; `errs` and `success` must be what those calls gave rise to, and
    the error stream must hold the messages of `errs` after `err0`. `e` is the call made.
  */
  method DeleteAndReport(s: Stream, cs: Cluster, kind: Kind, namespace: string, name: string,
                         ghost calls: seq<Event>, errs: seq<Error>, success: seq<string>,
                         ghost err0: seq<string>)
      returns (ok: bool, errs': seq<Error>, success': seq<string>, ghost e: Event)
    requires cs.Valid()
    requires errs == Failures(calls) && success == Succeeded(calls, kind)
    requires s.err == err0 + Messages(errs)
    modifies s, cs
    ensures e.Deleted? && e.kind == kind && e.namespace == namespace && e.name == name
    ensures ok <==> e.failure.None?
    ensures cs.Valid() && cs.log == old(cs.log) + [e]
    ensures errs' == Failures(calls + [e]) && success' == Succeeded(calls + [e], kind)
    ensures s.err == err0 + Messages(errs') && s.out == old(s.out)
  {
    var failure := cs.Delete(kind, namespace, name);
    e := Deleted(kind, namespace, name, failure);
    Snoc(calls, e);
    ok, errs', success' := failure.None?, errs, success;
    if failure.Some? {
      MessagesSnoc(errs, DeleteFailed(kind, name, failure.value));
      errs' := AddPrintErr(s, errs, DeleteFailed(kind, name, failure.value));
    } else {
      success' := success + [name];
    }
  }

  /** Writing one more error writes one more line. */
  lemma MessagesSnoc(errs: seq<Error>, e: Error)
    ensures Messages(errs + [e]) == Messages(errs) + [Message(e)]
  {
    assert (errs + [e])[..|errs|] == errs;
  }

  /** One error is written as one line. */
  lemma SingleError(e: Error)
    ensures Messages([e]) == [Message(e)]
  {
    MessagesSnoc([], e);
    assert [] + [e] == [e];
  }

  /**
    Splitting the calls in two splits their errors the same way: errors are recorded in
    call order, whatever way the calls are grouped (by Task block, by loop). The engines
    themselves need only the one-call step this generalises.
  */
  lemma {:induction false} FailuresAppend(a: seq<Event>, b: seq<Event>)
    ensures Failures(a + b) == Failures(a) + Failures(b)
    decreases |b|
  {
    if b == [] {
      assert a + b == a;
    } else {
      assert a + b == (a + Init(b)) + [Last(b)];
      Snoc(a + Init(b), Last(b));
      FailuresAppend(a, Init(b));
    }
  }

  /**
    Splitting the errors in two splits the written lines the same way: the error stream
    shows the messages in the order the errors were recorded, for any grouping of them.
  */
  lemma {:induction false} MessagesAppend(a: seq<Error>, b: seq<Error>)
    ensures Messages(a + b) == Messages(a) + Messages(b)
    decreases |b|
  {
    if b == [] {
      assert a + b == a;
    } else {
      var n := |b| - 1;
      assert a + b == (a + b[..n]) + [b[n]];
      MessagesSnoc(a + b[..n], b[n]);
      MessagesAppend(a, b[..n]);
    }
  }

  /**
    There is one error per failed delete and one per failed list call, and nothing else.
  */
  lemma {:induction false} FailuresCount(ev: seq<Event>)
    ensures |Failures(ev)| ==
      |Failed(ev, Task)| + |Failed(ev, TaskRun)| + |Failed(ev, TriggerTemplate)| + FailedLists(ev)
    decreases |ev|
  {
    if ev != [] {
      FailuresCount(Init(ev));
    }
  }

  /** The combined error is nil exactly when every call succeeded. */
  lemma {:induction false} NilIffNothingFailed(ev: seq<Event>)
    ensures Combine(Failures(ev)) == None <==> forall i :: 0 <= i < |ev| ==> Ok(ev[i])
    decreases |ev|
  {
    if ev != [] {
      NilIffNothingFailed(Init(ev));
      AllOkSnoc(ev);
      assert Failures(ev) == Failures(Init(ev)) + ErrorOf(Last(ev));
    }
  }

  /** Every call succeeded exactly when every call but the last did and the last did too. */
  lemma AllOkSnoc(ev: seq<Event>)
    requires ev != []
    ensures (forall i :: 0 <= i < |ev| ==> Ok(ev[i])) <==>
            (forall i :: 0 <= i < |Init(ev)| ==> Ok(Init(ev)[i])) && Ok(Last(ev))
  {
    assert forall i :: 0 <= i < |Init(ev)| ==> Init(ev)[i] == ev[i];
  }

}
