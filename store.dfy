/**
  The remote store the delete commands talk to (the Tekton and Triggers clientsets).

  The store is not modelled as a cluster: it is an oracle that answers each delete and
  each list call, where an answer may depend on every call made before it (so deleting
  the same name twice may succeed once and then fail with "not found"). A `Cluster`
  records every call it receives, with its answer, in `log`.
*/
module Store {
  import opened Wrappers

  /** The resource kinds the two delete commands touch. */
  datatype Kind = Task | TaskRun | TriggerTemplate

  /** One call made to the store, together with the answer it received. */
  datatype Event =
    | Deleted(kind: Kind, namespace: string, name: string, failure: Option<string>)
    | Listed(kind: Kind, namespace: string, selector: string, reply: Result<seq<string>, string>)

  /**
    How the store answers. `deleteReply(h, k, ns, n)` is None when deleting `n` succeeds
    after the calls `h`, and Some(cause) when it fails; `listReply(h, k, ns, sel)` is the
    names of the resources that match the label selector `sel`, or the cause of failure.
  */
  datatype Oracle = Oracle(
    deleteReply: (seq<Event>, Kind, string, string) -> Option<string>,
    listReply: (seq<Event>, Kind, string, string) -> Result<seq<string>, string>)

  /** `e` carries the answer the oracle gives after the calls `history`. */
  predicate Answered(oracle: Oracle, history: seq<Event>, e: Event)
  {
    match e
    case Deleted(k, ns, n, f) => f == oracle.deleteReply(history, k, ns, n)
    case Listed(k, ns, sel, r) => r == oracle.listReply(history, k, ns, sel)
  }

  function Init(ev: seq<Event>): seq<Event>
    requires ev != []
  {
    ev[..|ev| - 1]
  }

  function Last(ev: seq<Event>): Event
    requires ev != []
  {
    ev[|ev| - 1]
  }

  /** A call that did not fail. */
  predicate Ok(e: Event)
  {
    match e
    case Deleted(_, _, _, f) => f.None?
    case Listed(_, _, _, r) => r.Success?
  }

  /** The names of the resources of `kind` that a delete was sent for, in call order. */
  function Attempted(ev: seq<Event>, kind: Kind): seq<string>
    decreases |ev|
  {
    if ev == [] then []
    else
      var e := Last(ev);
      Attempted(Init(ev), kind) + (if e.Deleted? && e.kind == kind then [e.name] else [])
  }

  /** The names of the resources of `kind` whose delete succeeded, in call order. */
  function Succeeded(ev: seq<Event>, kind: Kind): seq<string>
    decreases |ev|
  {
    if ev == [] then []
    else
      var e := Last(ev);
      Succeeded(Init(ev), kind) + (if e.Deleted? && e.kind == kind && e.failure.None? then [e.name] else [])
  }

  /** The names of the resources of `kind` whose delete failed, in call order. */
  function Failed(ev: seq<Event>, kind: Kind): seq<string>
    decreases |ev|
  {
    if ev == [] then []
    else
      var e := Last(ev);
      Failed(Init(ev), kind) + (if e.Deleted? && e.kind == kind && e.failure.Some? then [e.name] else [])
  }

  /** The number of list calls that failed. */
  function FailedLists(ev: seq<Event>): nat
    decreases |ev|
  {
    if ev == [] then 0
    else FailedLists(Init(ev)) + (if Last(ev).Listed? && Last(ev).reply.Failure? then 1 else 0)
  }

  /** Whether each call succeeded, position by position. */
  function OkFlags(ev: seq<Event>): (flags: seq<bool>)
    ensures |flags| == |ev|
    ensures forall j :: 0 <= j < |ev| ==> flags[j] == Ok(ev[j])
    decreases |ev|
  {
    if ev == [] then [] else OkFlags(Init(ev)) + [Ok(Last(ev))]
  }

  /** The names at the positions `keep` marks, in their original order. */
  function Select(names: seq<string>, keep: seq<bool>): (r: seq<string>)
    requires |keep| == |names|
    ensures |r| <= |names|
    ensures (forall j :: 0 <= j < |keep| ==> keep[j]) ==> r == names
    ensures (forall j :: 0 <= j < |keep| ==> !keep[j]) ==> r == []
    decreases |names|
  {
    if names == [] then []
    else
      var n := |names| - 1;
      Select(names[..n], keep[..n]) + (if keep[n] then [names[n]] else [])
  }

  /** A single call has no calls before it. */
  lemma SingleCall(e: Event)
    ensures Init([e]) == [] && Last([e]) == e
  {
  }

  /** The prefix of all of `names` is `names`. */
  lemma TakeAll(names: seq<string>)
    ensures names[..|names|] == names
  {
  }

  /** The last call of `ev + [e]` is `e`, and the calls before it are `ev`. */
  lemma Snoc(ev: seq<Event>, e: Event)
    ensures Init(ev + [e]) == ev && Last(ev + [e]) == e
  {
    assert (ev + [e])[..|ev|] == ev;
  }

  /** Calls appended in two steps are the calls appended at once. */
  lemma AppendAssoc(a: seq<Event>, b: seq<Event>, c: seq<Event>)
    ensures (a + b) + c == a + (b + c)
  {
  }

  /** A call for another kind, or a list call, adds no name to the deletes that succeeded. */
  lemma SucceededOther(ev: seq<Event>, e: Event, kind: Kind)
    requires !(e.Deleted? && e.kind == kind)
    ensures Succeeded(ev + [e], kind) == Succeeded(ev, kind)
  {
    Snoc(ev, e);
  }

  /** Splitting the calls in two splits the attempted names the same way. */
  lemma {:induction false} AttemptedAppend(a: seq<Event>, b: seq<Event>, kind: Kind)
    ensures Attempted(a + b, kind) == Attempted(a, kind) + Attempted(b, kind)
    decreases |b|
  {
    if b == [] {
      assert a + b == a;
    } else {
      assert a + b == (a + Init(b)) + [Last(b)];
      Snoc(a + Init(b), Last(b));
      AttemptedAppend(a, Init(b), kind);
    }
  }

  /** Splitting the calls in two splits the succeeded names the same way. */
  lemma {:induction false} SucceededAppend(a: seq<Event>, b: seq<Event>, kind: Kind)
    ensures Succeeded(a + b, kind) == Succeeded(a, kind) + Succeeded(b, kind)
    decreases |b|
  {
    if b == [] {
      assert a + b == a;
    } else {
      assert a + b == (a + Init(b)) + [Last(b)];
      Snoc(a + Init(b), Last(b));
      SucceededAppend(a, Init(b), kind);
    }
  }

  /** Splitting the calls in two splits the failed names the same way. */
  lemma {:induction false} FailedAppend(a: seq<Event>, b: seq<Event>, kind: Kind)
    ensures Failed(a + b, kind) == Failed(a, kind) + Failed(b, kind)
    decreases |b|
  {
    if b == [] {
      assert a + b == a;
    } else {
      assert a + b == (a + Init(b)) + [Last(b)];
      Snoc(a + Init(b), Last(b));
      FailedAppend(a, Init(b), kind);
    }
  }

  /** Calls that contain no delete of `kind` attempt, delete and fail nothing of that kind. */
  lemma {:induction false} NoneOfKind(ev: seq<Event>, kind: Kind)
    requires forall k :: 0 <= k < |ev| ==> !(ev[k].Deleted? && ev[k].kind == kind)
    ensures Attempted(ev, kind) == [] && Succeeded(ev, kind) == [] && Failed(ev, kind) == []
    decreases |ev|
  {
    if ev != [] {
      var init := Init(ev);
      forall k | 0 <= k < |init|
        ensures !(init[k].Deleted? && init[k].kind == kind)
      {
        assert init[k] == ev[k];
      }
      NoneOfKind(init, kind);
      assert Last(ev) == ev[|ev| - 1];
    }
  }

  /** Each delete sent for `kind` either succeeded or failed, and is counted once. */
  lemma {:induction false} AttemptsPartition(ev: seq<Event>, kind: Kind)
    ensures |Attempted(ev, kind)| == |Succeeded(ev, kind)| + |Failed(ev, kind)|
    decreases |ev|
  {
    if ev != [] {
      AttemptsPartition(Init(ev), kind);
    }
  }

  /** When no call failed, every delete that was sent succeeded. */
  lemma {:induction false} AllOkAllSucceeded(ev: seq<Event>, kind: Kind)
    requires forall i :: 0 <= i < |ev| ==> Ok(ev[i])
    ensures Succeeded(ev, kind) == Attempted(ev, kind)
    ensures Failed(ev, kind) == [] && FailedLists(ev) == 0
    decreases |ev|
  {
    if ev != [] {
      assert forall i :: 0 <= i < |Init(ev)| ==> Init(ev)[i] == ev[i];
      AllOkAllSucceeded(Init(ev), kind);
      assert Ok(ev[|ev| - 1]);
    }
  }

  /**
    The remote store (one namespace-scoped clientset). Its answers come from `oracle`;
    `log` keeps every call, with its answer, in the order the calls were made.
  */
  class Cluster {
    const oracle: Oracle
    var log: seq<Event>

    /** Every answer in `log` is the one the oracle gives for the calls before it. */
    ghost predicate Valid()
      reads this
    {
      forall i :: 0 <= i < |log| ==> Answered(oracle, log[..i], log[i])
    }

    constructor (oracle: Oracle)
      ensures this.oracle == oracle && log == [] && Valid()
    {
      this.oracle := oracle;
      log := [];
    }

    /** Sends one delete request and records it; no retry. */
    method Delete(kind: Kind, namespace: string, name: string) returns (failure: Option<string>)
      requires Valid()
      modifies this
      ensures Valid()
      ensures failure == oracle.deleteReply(old(log), kind, namespace, name)
      ensures log == old(log) + [Deleted(kind, namespace, name, failure)]
    {
      failure := oracle.deleteReply(log, kind, namespace, name);
      assert forall i :: 0 <= i < |log| ==> (log + [Deleted(kind, namespace, name, failure)])[..i] == log[..i];
      log := log + [Deleted(kind, namespace, name, failure)];
    }

    /** Lists the names of the resources of `kind` that match a label selector. */
    method List(kind: Kind, namespace: string, selector: string) returns (reply: Result<seq<string>, string>)
      requires Valid()
      modifies this
      ensures Valid()
      ensures reply == oracle.listReply(old(log), kind, namespace, selector)
      ensures log == old(log) + [Listed(kind, namespace, selector, reply)]
    {
      reply := oracle.listReply(log, kind, namespace, selector);
      assert forall i :: 0 <= i < |log| ==> (log + [Listed(kind, namespace, selector, reply)])[..i] == log[..i];
      log := log + [Listed(kind, namespace, selector, reply)];
    }
  }
}
