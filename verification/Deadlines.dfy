/** The deadline of R1, against the one its column comments promise. */
module Deadlines {
  import opened Rows
  import opened TaskView
  import opened Protocol
  import opened Runs
  import opened Races

  // ----- the deadline of R1 -----

  /** R1's window is as good as the documented one for a row exactly when the timeout of the
      row is within the grace period. */
  lemma DeadlineIff(p: ProcessingRow, grace: Time, skew: Time)
    ensures (forall now :: Due(p, grace + skew, now) ==> DueAsDocumented(p, grace, skew, now)) <==> p.timeoutMs <= grace
  {
    if p.timeoutMs > grace {
      var now := p.updatedAt + grace + skew + 1;
      assert Due(p, grace + skew, now) && !DueAsDocumented(p, grace, skew, now);
    }
  }

  ghost predicate ResetsAsDocumented(r: Run, grace: Time, skew: Time)
    requires IsRun(r)
  {
    forall to, id :: Enabled(Last(r), Tick(to)) && Enabled(Last(r).(now := to), Reset({id}, grace + skew)) ==>
      DueAsDocumented(Last(r).l.processings[id], grace, skew, to)
  }

  /** After any run, whenever R1 comes next it takes no task away within its timeout exactly
      when every row in flight has its timeout within the grace period, or was claimed so
      long ago that it is due either way. */
  lemma ResetsAsDocumentedIff(r: Run, grace: Time, skew: Time)
    requires IsRun(r)
    ensures ResetsAsDocumented(r, grace, skew)
            <==> forall id :: id in Last(r).l.processings ==>
                   var p := Last(r).l.processings[id];
                   p.timeoutMs <= grace || DueAsDocumented(p, grace, skew, Last(r).now)
  {
    var s := Last(r);
    if ResetsAsDocumented(r, grace, skew) {
      forall id | id in s.l.processings && s.l.processings[id].timeoutMs > grace
        ensures DueAsDocumented(s.l.processings[id], grace, skew, s.now)
      {
        var first := s.l.processings[id].updatedAt + grace + skew + 1;
        var to := if first < s.now then s.now else first;
        assert Enabled(s, Tick(to)) && Enabled(s.(now := to), Reset({id}, grace + skew));
      }
    }
  }

  /** A run in which R1 takes back a task that is still within its timeout. */
  lemma EarlyReset(grace: Time, skew: Time, timeoutMs: int) returns (r: Run)
    requires 0 <= grace < timeoutMs && skew >= 0
    ensures IsRun(r) && |r.steps| == 5 && r.steps[4] == Reset({1}, grace + skew)
    ensures 1 in r.states[4].l.processings && r.states[4].l.processings[1].timeoutMs == timeoutMs
    ensures !DueAsDocumented(r.states[4].l.processings[1], grace, skew, r.states[4].now)
    ensures Returns(View(r.states[4].l, 1), View(r.states[5].l, 1))
  {
    var r0 := FirstClaim(timeoutMs, 3, NoColumn);
    var r1 := Wait(r0, grace + skew + 1);
    r := LateReset(r1, grace + skew);
    assert r.states[4] == Last(r1) && r.states[5] == Last(r);
    InvAt(r, 4);
    assert IdOk(Last(r1).l, 1);
    ReturnStep(Last(r1).l, {1});
  }
}
