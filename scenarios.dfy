/**
  Worked examples of `tkn task delete`: concrete stores, the names given, and the exact
  lines written and error returned, derived from the contracts of the engine.
*/
module Scenarios {
  import opened Wrappers
  import opened Store
  import opened Cli
  import opened TaskDelete

  /** A store that fails to delete "a" with "not found" and deletes everything else. */
  function NotFoundForA(): Oracle
  {
    Oracle((h: seq<Event>, k: Kind, ns: string, n: string) => if n == "a" then Some("not found") else None,
           (h: seq<Event>, k: Kind, ns: string, sel: string) => Success([]))
  }

  /**
    A store that deletes everything and lists the TaskRuns "a-run-1" and "a-run-2" for the
    Task "a" (and none for any other Task).
  */
  function AllSucceed(): Oracle
  {
    Oracle((h: seq<Event>, k: Kind, ns: string, n: string) => None,
           (h: seq<Event>, k: Kind, ns: string, sel: string) =>
             if sel == TaskSelector("a") then Success(["a-run-1", "a-run-2"]) else Success([]))
  }

  /**
    Tasks "a" and "b" without --all, where deleting "a" fails: one error line for "a", the
    summary names only "b", and the result carries exactly that one failure.
  */
  method OneOfTwoFails() returns (out: seq<string>, errLines: seq<string>, err: Option<seq<Error>>)
    ensures out == ["Tasks deleted: 'b'"]
    ensures errLines == ["failed to delete task \"a\": not found"]
    ensures err == Some([DeleteFailed(Task, "a", "not found")])
  {
    var cs := new Cluster(NotFoundForA());
    var s := new Stream();
    ghost var blocks;
    err, blocks := DeleteTask(DeleteOptions("task", false, false), s, Params("default", Some(cs)), ["a", "b"]);
    OneOfTwoFailsCalls(cs, blocks);
    OneOfTwoFailsOutcome(Flatten(blocks));
    OneOfTwoFailsLines();
    out, errLines := s.out, s.err;
  }

  /** The calls OneOfTwoFails makes: the delete of "a", which fails, then the delete of "b". */
  lemma OneOfTwoFailsCalls(cs: Cluster, blocks: seq<seq<Event>>)
    requires cs.oracle == NotFoundForA() && cs.Valid() && cs.log == Flatten(blocks)
    requires TaskConversation("default", false, ["a", "b"], blocks)
    ensures Flatten(blocks) == [Deleted(Task, "default", "a", Some("not found"))] + [Deleted(Task, "default", "b", None)]
  {
    NoCascadeWithoutDeleteAll("default", ["a", "b"], blocks);
    var f := Flatten(blocks);
    assert Answered(cs.oracle, f[..0], f[0]) && Answered(cs.oracle, f[..1], f[1]);
  }

  /** The delete of "a" fails, so it gives the one error; "b" is the one Task deleted. */
  lemma OneOfTwoFailsOutcome(f: seq<Event>)
    requires f == [Deleted(Task, "default", "a", Some("not found"))] + [Deleted(Task, "default", "b", None)]
    ensures Failures(f) == [DeleteFailed(Task, "a", "not found")]
    ensures Succeeded(f, Task) == ["b"] && Succeeded(f, TaskRun) == []
  {
    var a := Deleted(Task, "default", "a", Some("not found"));
    var b := Deleted(Task, "default", "b", None);
    SingleCall(a);
    Snoc([a], b);
    assert Failures([a]) == [DeleteFailed(Task, "a", "not found")];
    assert Succeeded([a], Task) == [];
    assert Succeeded([a], TaskRun) == [];
    assert [] + ["b"] == ["b"];
  }

  lemma OneOfTwoFailsLines()
    ensures Messages([DeleteFailed(Task, "a", "not found")]) == ["failed to delete task \"a\": not found"]
    ensures TaskSummary([], ["b"]) == ["Tasks deleted: 'b'"]
  {
    SingleError(DeleteFailed(Task, "a", "not found"));
    assert Message(DeleteFailed(Task, "a", "not found")) == "failed to delete task \"a\": not found";
    assert QuotedList(["b"]) == "'b'";
    assert "Tasks deleted: " + "'b'" == "Tasks deleted: 'b'";
  }

  /** Tasks "a" and "b" without --all, all deleted: one summary line naming both, no error. */
  method BothDeleted() returns (out: seq<string>, errLines: seq<string>, err: Option<seq<Error>>)
    ensures out == ["Tasks deleted: 'a', 'b'"]
    ensures errLines == []
    ensures err == None
  {
    var cs := new Cluster(AllSucceed());
    var s := new Stream();
    ghost var blocks;
    err, blocks := DeleteTask(DeleteOptions("task", false, false), s, Params("default", Some(cs)), ["a", "b"]);
    BothDeletedOutcome(cs, blocks);
    BothDeletedSummary();
    out, errLines := s.out, s.err;
  }

  /** What the store answers in BothDeleted: both Tasks are deleted, nothing else is sent. */
  lemma BothDeletedOutcome(cs: Cluster, blocks: seq<seq<Event>>)
    requires cs.oracle == AllSucceed() && cs.Valid() && cs.log == Flatten(blocks)
    requires TaskConversation("default", false, ["a", "b"], blocks)
    ensures Failures(Flatten(blocks)) == []
    ensures Succeeded(Flatten(blocks), Task) == ["a", "b"] && Succeeded(Flatten(blocks), TaskRun) == []
  {
    NoCascadeWithoutDeleteAll("default", ["a", "b"], blocks);
    var f := Flatten(blocks);
    forall k | 0 <= k < |f|
      ensures Ok(f[k])
    {
      assert Answered(cs.oracle, f[..k], f[k]);
    }
    TaskAllDeleted("default", false, ["a", "b"], blocks);
  }

  lemma BothDeletedSummary()
    ensures TaskSummary([], ["a", "b"]) == ["Tasks deleted: 'a', 'b'"]
  {
    assert QuotedList(["a", "b"]) == "'a', 'b'";
    assert "Tasks deleted: " + "'a', 'b'" == "Tasks deleted: 'a', 'b'";
  }

  /**
    Task "a" with --all, where the store lists two TaskRuns and deletes everything: the
    TaskRuns line comes first, then the Tasks line, and there is no error.
  */
  method CascadeDeleted() returns (out: seq<string>, errLines: seq<string>, err: Option<seq<Error>>)
    ensures out == ["TaskRuns deleted: 'a-run-1', 'a-run-2'", "Tasks deleted: 'a'"]
    ensures errLines == []
    ensures err == None
  {
    var cs := new Cluster(AllSucceed());
    var s := new Stream();
    ghost var blocks;
    err, blocks := DeleteTask(DeleteOptions("task", false, true), s, Params("default", Some(cs)), ["a"]);
    CascadeOutcome(cs, blocks);
    CascadeSummary();
    out, errLines := s.out, s.err;
  }

  /** What the store answers in CascadeDeleted: every call succeeds and both TaskRuns are deleted. */
  lemma CascadeOutcome(cs: Cluster, blocks: seq<seq<Event>>)
    requires cs.oracle == AllSucceed() && cs.Valid() && cs.log == Flatten(blocks)
    requires TaskConversation("default", true, ["a"], blocks)
    ensures Failures(Flatten(blocks)) == []
    ensures Succeeded(Flatten(blocks), Task) == ["a"]
    ensures Succeeded(Flatten(blocks), TaskRun) == ["a-run-1", "a-run-2"]
  {
    var b := blocks[0];
    assert blocks == [] + [b];
    FlattenSnoc([], b);
    var f := Flatten(blocks);
    assert f == b;
    forall k | 0 <= k < |f|
      ensures Ok(f[k])
    {
      assert Answered(cs.oracle, f[..k], f[k]);
    }
    assert Answered(cs.oracle, f[..1], f[1]);
    CascadeRuns(b);
    TaskAllDeleted("default", true, ["a"], blocks);
  }

  /** The TaskRun deletes in the block of CascadeDeleted are for the two listed names. */
  lemma CascadeRuns(b: seq<Event>)
    requires TaskBlock("default", true, "a", b) && Ok(b[0])
    requires b[1].Listed? && b[1].reply == Success(["a-run-1", "a-run-2"])
    ensures Attempted(b, TaskRun) == ["a-run-1", "a-run-2"]
  {
    var runs := b[2..];
    assert b == [b[0], b[1]] + runs;
    RunDeletesAttempted("default", ["a-run-1", "a-run-2"], runs);
    AttemptedAppend([b[0], b[1]], runs, TaskRun);
    SingleCall(b[0]);
    Snoc([b[0]], b[1]);
    assert [b[0]] + [b[1]] == [b[0], b[1]];
  }

  lemma CascadeSummary()
    ensures TaskSummary(["a-run-1", "a-run-2"], ["a"])
         == ["TaskRuns deleted: 'a-run-1', 'a-run-2'", "Tasks deleted: 'a'"]
  {
    assert QuotedList(["a-run-1", "a-run-2"]) == "'a-run-1', 'a-run-2'";
    assert "TaskRuns deleted: " + "'a-run-1', 'a-run-2'" == "TaskRuns deleted: 'a-run-1', 'a-run-2'";
    assert QuotedList(["a"]) == "'a'";
    assert "Tasks deleted: " + "'a'" == "Tasks deleted: 'a'";
  }
}
