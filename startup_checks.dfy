/**
  Startup status aggregation. `mergeStartupStatuses` classifies a list of child
  statuses: OK when none failed, PARTIALLY_OPERATIONAL when some are OK and
  some are not, FAIL otherwise; any child status other than OK counts as a
  failure. `run` merges the results of all startup checks, or reports FAIL with
  the error's message when a check throws.
*/
module StartupChecks {
  import opened Types

  /** The values of the source's STARTUP_STATUS enumeration. */
  datatype Status = OK | PARTIALLY_OPERATIONAL | FAIL

  /**
    A startup status record. Leaf checks fill `name` and maybe `message`; a
    merge fills `name` and `childStartupStatuses`; a thrown check only `message`.
  */
  datatype StartupStatus = StartupStatus(
    name: Option<string>,
    status: Status,
    message: Option<string>,
    childStartupStatuses: Option<seq<StartupStatus>>)

  predicate HasOk(ss: seq<StartupStatus>)
  {
    exists i :: 0 <= i < |ss| && ss[i].status == OK
  }

  predicate HasFailure(ss: seq<StartupStatus>)
  {
    exists i :: 0 <= i < |ss| && ss[i].status != OK
  }

  function MergedStatus(ss: seq<StartupStatus>): Status
  {
    if !HasFailure(ss) then OK
    else if HasOk(ss) then PARTIALLY_OPERATIONAL
    else FAIL
  }

  /** The record `mergeStartupStatuses` returns. */
  function Merged(name: string, ss: seq<StartupStatus>): StartupStatus
  {
    StartupStatus(Some(name), MergedStatus(ss), None, Some(ss))
  }

  method MergeStartupStatuses(name: string, startupStatuses: seq<StartupStatus>) returns (r: StartupStatus)
    ensures r == Merged(name, startupStatuses)
  {
    var hasAtLeastOneOk := false;
    var hasAtLeastOneFailure := false;
    for i := 0 to |startupStatuses|
      invariant hasAtLeastOneOk <==> HasOk(startupStatuses[..i])
      invariant hasAtLeastOneFailure <==> HasFailure(startupStatuses[..i])
    {
      assert forall j :: 0 <= j < i ==> startupStatuses[..i + 1][j] == startupStatuses[..i][j];
      assert startupStatuses[..i + 1][i] == startupStatuses[i];
      if startupStatuses[i].status == OK {
        hasAtLeastOneOk := true;
      } else {
        hasAtLeastOneFailure := true;
      }
    }
    assert startupStatuses[..|startupStatuses|] == startupStatuses;
    if !hasAtLeastOneFailure {
      return StartupStatus(Some(name), OK, None, Some(startupStatuses));
    }
    if hasAtLeastOneOk {
      return StartupStatus(Some(name), PARTIALLY_OPERATIONAL, None, Some(startupStatuses));
    }
    return StartupStatus(Some(name), FAIL, None, Some(startupStatuses));
  }

  /** OK exactly when no child is anything but OK, which includes no children at all. */
  lemma MergedOkIff(name: string, ss: seq<StartupStatus>)
    ensures Merged(name, ss).status == OK <==> forall i :: 0 <= i < |ss| ==> ss[i].status == OK
    ensures Merged(name, ss).name == Some(name) && Merged(name, ss).childStartupStatuses == Some(ss)
  {
  }

  /** PARTIALLY_OPERATIONAL exactly when some child is OK and some child is not. */
  lemma MergedPartialIff(name: string, ss: seq<StartupStatus>)
    ensures Merged(name, ss).status == PARTIALLY_OPERATIONAL <==>
            (exists i :: 0 <= i < |ss| && ss[i].status == OK) && (exists j :: 0 <= j < |ss| && ss[j].status != OK)
  {
  }

  /** FAIL exactly when there are children and none of them is OK. */
  lemma MergedFailIff(name: string, ss: seq<StartupStatus>)
    ensures Merged(name, ss).status == FAIL <==> |ss| > 0 && forall i :: 0 <= i < |ss| ==> ss[i].status != OK
  {
    if |ss| > 0 && forall i :: 0 <= i < |ss| ==> ss[i].status != OK {
      assert ss[0].status != OK;
    }
  }

  /** The merged status does not depend on the order of the children. */
  lemma {:induction false} MergedStatusIgnoresOrder(s: seq<StartupStatus>, t: seq<StartupStatus>)
    requires multiset(s) == multiset(t)
    ensures MergedStatus(s) == MergedStatus(t)
  {
    SameElements(s, t);
    SameElements(t, s);
  }

  lemma SameElements(s: seq<StartupStatus>, t: seq<StartupStatus>)
    requires multiset(s) == multiset(t)
    ensures HasOk(s) ==> HasOk(t)
    ensures HasFailure(s) ==> HasFailure(t)
  {
    if HasOk(s) {
      var i :| 0 <= i < |s| && s[i].status == OK;
      assert s[i] in multiset(t);
      var j :| 0 <= j < |t| && t[j] == s[i];
    }
    if HasFailure(s) {
      var i :| 0 <= i < |s| && s[i].status != OK;
      assert s[i] in multiset(t);
      var j :| 0 <= j < |t| && t[j] == s[i];
    }
  }

  /** The settled promise of one startup check: its status, or the message of the error it threw. */
  datatype CheckOutcome = Resolved(status: StartupStatus) | Threw(message: string)

  /** The message of the first check that threw, in checker order. */
  function FirstError(outcomes: seq<CheckOutcome>): (r: Option<string>)
    ensures r.None? <==> forall i :: 0 <= i < |outcomes| ==> outcomes[i].Resolved?
    ensures r.Some? ==> exists i :: && 0 <= i < |outcomes|
                                    && outcomes[i] == Threw(r.value)
                                    && forall j :: 0 <= j < i ==> outcomes[j].Resolved?
    decreases |outcomes|
  {
    if outcomes == [] then None
    else if outcomes[0].Threw? then Some(outcomes[0].message)
    else
      var rest := FirstError(outcomes[1..]);
      assert forall i :: 1 <= i < |outcomes| ==> outcomes[i] == outcomes[1..][i - 1];
      assert rest.None? ==> forall i :: 0 <= i < |outcomes| ==> outcomes[i].Resolved?;
      assert rest.Some? ==> exists i :: && 0 <= i < |outcomes[1..]|
                                    && outcomes[1..][i] == Threw(rest.value)
                                    && forall j :: 0 <= j < i ==> outcomes[1..][j].Resolved?;
      rest
  }

  /**
    `run`: FAIL with the error's message when a check threw, otherwise the
    merge of all check results in checker order under the runner's name.
  */
  function Run(name: string, outcomes: seq<CheckOutcome>): (r: StartupStatus)
    ensures (exists i :: 0 <= i < |outcomes| && outcomes[i].Threw?) ==>
              && r.status == FAIL
              && r.name.None? && r.childStartupStatuses.None?
              && r.message.Some?
              && exists i :: && 0 <= i < |outcomes|
                             && outcomes[i] == Threw(r.message.value)
                             && forall j :: 0 <= j < i ==> outcomes[j].Resolved?
    ensures (forall i :: 0 <= i < |outcomes| ==> outcomes[i].Resolved?) ==>
              r == Merged(name, seq(|outcomes|, i requires 0 <= i < |outcomes| => outcomes[i].status))
  {
    match FirstError(outcomes)
    case Some(m) => StartupStatus(None, FAIL, Some(m), None)
    case None => Merged(name, seq(|outcomes|, i requires 0 <= i < |outcomes| => outcomes[i].status))
  }
}
