/** What depends on failing only rows that are in flight; `fail_task` does not look at the row's status. */
module FailureGuard {
  import opened Types
  import opened Lifecycle
  import opened LifecycleInvariants
  import opened LifecycleSafety
  import opened Scenarios

  /** Everything on the stream has every lower position of its job complete. */
  ghost predicate StreamInOrder(s: State)
    requires Shape(s)
  {
    forall e | 0 <= e < |s.stream| :: LowerComplete(s.rows, s.stream[e])
  }

  /** A row is answered, acknowledged and followed by the next one, and then failed. */
  lemma {:induction false} Reopened(m: Mode) returns (s: State)
    requires !m.guardedFail
    ensures Reachable(m, s) && Shape(s) && s.stream == [0, 1] && s.acked == {0}
    ensures |s.rows| == 3 && s.rows[0].status == Pending
    ensures s.rows[0].job == 0 && s.rows[1].job == 0 && s.rows[0].position < s.rows[1].position
  {
    hide Reachable;
    FullySeeded(m);
    var s0 := PartlySeeded(3);
    assert PLAN[..3] == PLAN;
    s := ReopenedFrom(m, s0);
  }

  lemma {:induction false} ReopenedFrom(m: Mode, s0: State) returns (s: State)
    requires !m.guardedFail && Reachable(m, s0) && s0 == PartlySeeded(3) && Shape(s0) && s0.rows == PLAN
    ensures Reachable(m, s) && Shape(s) && s.stream == [0, 1] && s.acked == {0}
    ensures |s.rows| == 3 && s.rows[0].status == Pending
    ensures s.rows[0].job == 0 && s.rows[1].job == 0 && s.rows[0].position < s.rows[1].position
  {
    hide Reachable, Apply, Enabled, CreditsFor, Remaining, ReceiptSum, JobDone;
    var s1 := RunTask(m, s0, 0, WORKER);
    var s2 := PayAndSettle(m, s1, 0);
    var s3 := AckReplied(m, s2, 0);
    var s4 := HandOut(m, s3, 1, WORKER);
    assert NoneNoted(s4);
    s := FailInFlight(m, s4, 0);
  }

  lemma {:induction false} AckReplied(m: Mode, s: State, a: nat) returns (n: State)
    requires Reachable(m, s) && Shape(s) && InPhase(s, a, Replied) && s.attempts[a].entry.Some?
    ensures Reachable(m, n) && Shape(n)
    ensures n == To(s, a, Acked).(acked := s.acked + {s.attempts[a].entry.value})
  {
    hide Reachable, CreditsFor, Remaining, ReceiptSum;
    ReachableStep(m, s, Ack(a));
    n := Apply(m, s, Ack(a));
  }

  /**
    Over all runs everything on the stream has every lower position complete if and only if only rows in
    flight are failed.
  */
  lemma {:induction false} StreamInOrderIffGuarded(m: Mode)
    ensures m.guardedFail <==> forall s: State | Reachable(m, s) :: Shape(s) && StreamInOrder(s)
  {
    hide Reachable;
    if m.guardedFail {
      forall s: State | Reachable(m, s)
        ensures Shape(s) && StreamInOrder(s)
      {
        ReachableInv(m, s);
        forall e | 0 <= e < |s.stream|
          ensures LowerComplete(s.rows, s.stream[e])
        {
          assert Started(s, s.stream[e]);
        }
      }
    } else {
      var s := Reopened(m);
      assert !LowerComplete(s.rows, s.stream[1]);
    }
  }

  /** Over all runs acknowledged entries belong to complete rows if and only if only rows in flight are failed. */
  lemma {:induction false} AckOnlyCompleteIffGuarded(m: Mode)
    ensures m.guardedFail <==> forall s: State | Reachable(m, s) :: Shape(s) && AckedComplete(s)
  {
    hide Reachable;
    if m.guardedFail {
      forall s: State | Reachable(m, s)
        ensures Shape(s) && AckedComplete(s)
      {
        ReachableInv(m, s);
      }
    } else {
      var s := Reopened(m);
      assert 0 in s.acked && s.rows[s.stream[0]].status != Complete;
    }
  }
}
