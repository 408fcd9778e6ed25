/** The condition list of an object as a record of the values set so far. */
module Conditions {
  import opened Kube

  /** Times count whole seconds. */
  datatype Condition = Condition(kind: string, status: string, heartbeat: Option<int>, transition: Option<int>)

  datatype Call = Call(kind: string, status: string, now: int)

  // ----- One call -----

  /** What a call does to one entry. */
  function Touched(c: Condition, call: Call): Condition {
    if c.kind != call.kind then c
    else if c.status != call.status then
      Condition(c.kind, call.status, Some(call.now), Some(call.now))
    else c.(heartbeat := Some(call.now))
  }

  predicate ChangesEntry(c: Condition, call: Call) {
    c.kind == call.kind && c.status != call.status
  }

  predicate Mentions(conditions: seq<Condition>, kind: string) {
    exists i | 0 <= i < |conditions| :: conditions[i].kind == kind
  }

  /** A call changes the list when its type is new or an entry of its type has another status. */
  predicate Changes(conditions: seq<Condition>, call: Call) {
    !Mentions(conditions, call.kind) || exists i | 0 <= i < |conditions| :: ChangesEntry(conditions[i], call)
  }

  function TouchAll(conditions: seq<Condition>, call: Call): seq<Condition> {
    seq(|conditions|, i requires 0 <= i < |conditions| => Touched(conditions[i], call))
  }

  /** The list after a call; without a change nothing is stored, heartbeats included. */
  function Next(conditions: seq<Condition>, call: Call): seq<Condition> {
    if !Changes(conditions, call) then conditions
    else
      TouchAll(conditions, call) +
      if Mentions(conditions, call.kind) then []
      else [Condition(call.kind, call.status, Some(call.now), Some(call.now))]
  }

  class Item {
    var conditions: seq<Condition>
    var updates: nat

    constructor ()
      ensures conditions == [] && updates == 0
    {
      conditions, updates := [], 0;
    }

    /** `accepted` is the server's answer, if it is asked; a refusal leaves the item edited. */
    method SetCondition(kind: string, status: string, now: int, accepted: bool) returns (ok: bool)
      modifies this
      ensures var call := Call(kind, status, now);
              && conditions == Next(old(conditions), call)
              && updates == old(updates) + (if Changes(old(conditions), call) then 1 else 0)
              && (ok <==> accepted || !Changes(old(conditions), call))
    {
      ghost var call := Call(kind, status, now);
      var list := conditions;
      var found, changed := false, false;
      for i := 0 to |list|
        invariant |list| == |conditions|
        invariant forall k | 0 <= k < i :: list[k] == Touched(conditions[k], call)
        invariant forall k | i <= k < |list| :: list[k] == conditions[k]
        invariant found <==> exists k | 0 <= k < i :: conditions[k].kind == kind
        invariant changed <==> exists k | 0 <= k < i :: ChangesEntry(conditions[k], call)
      {
        var entry := list[i];
        if entry.kind == kind {
          found := true;
          if entry.status != status {
            changed := true;
            entry := entry.(status := status, transition := Some(now));
          }
          entry := entry.(heartbeat := Some(now));
        }
        list := list[i := entry];
      }
      assert list == TouchAll(conditions, call);
      if !found {
        changed := true;
        list := list + [Condition(kind, status, Some(now), Some(now))];
      }
      if !changed {
        return true;
      }
      conditions := list;
      updates := updates + 1;
      return accepted;
    }
  }

  // ----- Histories -----

  ghost function After(calls: seq<Call>): seq<Condition> {
    if calls == [] then [] else Next(After(calls[..|calls| - 1]), calls[|calls| - 1])
  }

  /** The types in the order in which they were first set. */
  ghost function FirstSeen(calls: seq<Call>): seq<string> {
    if calls == [] then []
    else
      var before, kind := FirstSeen(calls[..|calls| - 1]), calls[|calls| - 1].kind;
      if kind in before then before else before + [kind]
  }

  /** Call `j` is the latest call before `i` for the same type as call `i`. */
  ghost predicate Precedes(calls: seq<Call>, j: nat, i: nat)
    requires i < |calls|
  {
    j < i && calls[j].kind == calls[i].kind && forall k | j < k < i :: calls[k].kind != calls[i].kind
  }

  /** Call `j` starts the unbroken run of a value that lasts to the end of the history. */
  ghost predicate StartsLastRun(calls: seq<Call>, j: nat) {
    && j < |calls|
    && (forall k | j <= k < |calls| && calls[k].kind == calls[j].kind :: calls[k].status == calls[j].status)
    && (forall p: nat | Precedes(calls, p, j) :: calls[p].status != calls[j].status)
  }

  /** The entry records the type, value and starting time of that run. */
  ghost predicate Records(calls: seq<Call>, c: Condition, j: nat) {
    && StartsLastRun(calls, j)
    && c == Condition(calls[j].kind, calls[j].status, Some(calls[j].now), Some(calls[j].now))
  }

  ghost predicate Recorded(calls: seq<Call>, c: Condition) {
    exists j: nat :: Records(calls, c, j)
  }

  ghost predicate Faithful(calls: seq<Call>, conditions: seq<Condition>) {
    && |conditions| == |FirstSeen(calls)|
    && (forall i | 0 <= i < |conditions| :: conditions[i].kind == FirstSeen(calls)[i])
    && (forall i | 0 <= i < |conditions| :: Recorded(calls, conditions[i]))
  }

  lemma {:induction false} FirstSeenFacts(calls: seq<Call>)
    ensures forall i, j | 0 <= i < j < |FirstSeen(calls)| :: FirstSeen(calls)[i] != FirstSeen(calls)[j]
    ensures forall k | 0 <= k < |calls| :: calls[k].kind in FirstSeen(calls)
    ensures forall kind | kind in FirstSeen(calls) :: exists k | 0 <= k < |calls| :: calls[k].kind == kind
  {
    if calls != [] {
      var n := |calls| - 1;
      FirstSeenFacts(calls[..n]);
      forall kind | kind in FirstSeen(calls)
        ensures exists k | 0 <= k < |calls| :: calls[k].kind == kind
      {
        if kind in FirstSeen(calls[..n]) {
          var k :| 0 <= k < n && calls[..n][k].kind == kind;
          assert calls[k].kind == kind;
        } else {
          assert calls[n].kind == kind;
        }
      }
      forall k | 0 <= k < |calls|
        ensures calls[k].kind in FirstSeen(calls)
      {
        if k < n {
          assert calls[..n][k] == calls[k];
        }
      }
    }
  }

  /** A run goes on when the next call is for another type or sets the same value. */
  lemma RunContinues(calls: seq<Call>, j: nat, call: Call)
    requires StartsLastRun(calls, j)
    requires call.kind != calls[j].kind || call.status == calls[j].status
    ensures StartsLastRun(calls + [call], j)
  {
    forall p: nat | Precedes(calls + [call], p, j)
      ensures (calls + [call])[p].status != calls[j].status
    {
      assert forall k | p < k < j :: (calls + [call])[k] == calls[k];
      assert Precedes(calls, p, j);
    }
  }

  /** A call for a new type starts a run. */
  lemma RunStartsFresh(calls: seq<Call>, call: Call)
    requires forall k | 0 <= k < |calls| :: calls[k].kind != call.kind
    ensures StartsLastRun(calls + [call], |calls|)
  {}

  /** A call that changes the value starts a run. */
  lemma RunStartsOver(calls: seq<Call>, j: nat, call: Call)
    requires StartsLastRun(calls, j) && call.kind == calls[j].kind && call.status != calls[j].status
    ensures StartsLastRun(calls + [call], |calls|)
  {
    var more := calls + [call];
    assert more[j].kind == call.kind;
    forall p: nat | Precedes(more, p, |calls|)
      ensures more[p].status != call.status
    {
      assert more[p] == calls[p];
    }
  }

  lemma EntryStaysFaithful(calls: seq<Call>, c: Condition, call: Call, j: nat, changes: bool)
    requires Records(calls, c, j)
    requires ChangesEntry(c, call) ==> changes
    requires c.kind == call.kind && changes ==> ChangesEntry(c, call)
    ensures Recorded(calls + [call], if changes then Touched(c, call) else c)
    ensures (if changes then Touched(c, call) else c).kind == c.kind
  {
    if ChangesEntry(c, call) {
      RunStartsOver(calls, j, call);
      assert Records(calls + [call], Touched(c, call), |calls|);
    } else {
      RunContinues(calls, j, call);
      assert Records(calls + [call], c, j);
    }
  }

  lemma EntriesStayFaithful(calls: seq<Call>, call: Call, conditions: seq<Condition>)
    requires forall i | 0 <= i < |conditions| :: Recorded(calls, conditions[i])
    ensures |conditions| <= |Next(conditions, call)|
    ensures forall i | 0 <= i < |conditions| ::
              var c := Next(conditions, call)[i]; c.kind == conditions[i].kind && Recorded(calls + [call], c)
  {
    forall i | 0 <= i < |conditions|
      ensures var c := Next(conditions, call)[i]; c.kind == conditions[i].kind && Recorded(calls + [call], c)
    {
      var j: nat :| Records(calls, conditions[i], j);
      EntryStaysFaithful(calls, conditions[i], call, j, Changes(conditions, call));
    }
  }

  lemma FirstSeenSnoc(calls: seq<Call>, call: Call)
    ensures FirstSeen(calls + [call])
         == FirstSeen(calls) + if call.kind in FirstSeen(calls) then [] else [call.kind]
  {
    assert (calls + [call])[..|calls|] == calls;
  }

  /** A first call for a type appends a faithful entry. */
  lemma NewEntryFaithful(calls: seq<Call>, call: Call)
    requires call.kind !in FirstSeen(calls)
    ensures Recorded(calls + [call], Condition(call.kind, call.status, Some(call.now), Some(call.now)))
  {
    FirstSeenFacts(calls);
    RunStartsFresh(calls, call);
    assert Records(calls + [call], Condition(call.kind, call.status, Some(call.now), Some(call.now)), |calls|);
  }

  lemma NextShape(conditions: seq<Condition>, call: Call)
    ensures |Next(conditions, call)| == |conditions| + if Mentions(conditions, call.kind) then 0 else 1
    ensures !Mentions(conditions, call.kind) ==>
              Next(conditions, call)[|conditions|] == Condition(call.kind, call.status, Some(call.now), Some(call.now))
  {}

  lemma MentionedIsSeen(calls: seq<Call>, call: Call, conditions: seq<Condition>)
    requires Faithful(calls, conditions)
    ensures Mentions(conditions, call.kind) <==> call.kind in FirstSeen(calls)
  {}

  lemma FaithfulNext(calls: seq<Call>, call: Call, conditions: seq<Condition>)
    requires Faithful(calls, conditions)
    ensures Faithful(calls + [call], Next(conditions, call))
  {
    FirstSeenSnoc(calls, call);
    MentionedIsSeen(calls, call, conditions);
    NextShape(conditions, call);
    EntriesStayFaithful(calls, call, conditions);
    if !Mentions(conditions, call.kind) {
      NewEntryFaithful(calls, call);
    }
    var next := Next(conditions, call);
    forall i | 0 <= i < |next|
      ensures next[i].kind == FirstSeen(calls + [call])[i] && Recorded(calls + [call], next[i])
    {
      assert i == |conditions| || next[i].kind == conditions[i].kind;
    }
  }

  /** The record after any history: each type once, in first-set order, with its last value, and the
      time of the first call in the latest unbroken run of that value as both stored times. */
  lemma {:induction false} RecordIsFaithful(calls: seq<Call>)
    ensures Faithful(calls, After(calls))
  {
    if calls != [] {
      var n := |calls| - 1;
      RecordIsFaithful(calls[..n]);
      FaithfulNext(calls[..n], calls[n], After(calls[..n]));
      assert calls == calls[..n] + [calls[n]];
    }
  }

  /** A call sets a value other than the one its type had, or the first one. */
  ghost predicate ChangesValue(calls: seq<Call>, i: nat)
    requires i < |calls|
  {
    forall p: nat | Precedes(calls, p, i) :: calls[p].status != calls[i].status
  }

  lemma OneLatest(calls: seq<Call>, p: nat, i: nat)
    requires i < |calls| && Precedes(calls, p, i)
    ensures ChangesValue(calls, i) <==> calls[p].status != calls[i].status
  {
    forall q: nat | Precedes(calls, q, i)
      ensures q == p
    {
      assert calls[p].kind == calls[i].kind && calls[q].kind == calls[i].kind;
    }
  }

  lemma OneEntry(list: seq<Condition>, e: nat, call: Call)
    requires e < |list| && list[e].kind == call.kind
    requires forall k | 0 <= k < |list| && list[k].kind == call.kind :: k == e
    ensures Changes(list, call) <==> list[e].status != call.status
  {
    assert ChangesEntry(list[e], call) <==> list[e].status != call.status;
  }

  lemma EntryIsUnique(calls: seq<Call>, e: nat, k: nat)
    requires e < |After(calls)| && k < |After(calls)| && After(calls)[e].kind == After(calls)[k].kind
    ensures e == k
  {
    RecordIsFaithful(calls);
    FirstSeenFacts(calls);
    assert FirstSeen(calls)[e] == FirstSeen(calls)[k];
  }

  /** The server is asked exactly for the calls that change the value of their type. */
  lemma UpdatesIffValueChanges(calls: seq<Call>, i: nat)
    requires i < |calls|
    ensures Changes(After(calls[..i]), calls[i]) <==> ChangesValue(calls, i)
  {
    var before, call := calls[..i], calls[i];
    var list := After(before);
    RecordIsFaithful(before);
    if Mentions(list, call.kind) {
      var e: nat :| e < |list| && list[e].kind == call.kind;
      var j: nat :| Records(before, list[e], j);
      var p := LatestBefore(calls, i, j);
      assert before[p].status == before[j].status;
      OneLatest(calls, p, i);
      forall k: nat | k < |list| && list[k].kind == call.kind
        ensures k == e
      {
        EntryIsUnique(before, e, k);
      }
      OneEntry(list, e, call);
    } else {
      FirstSeenFacts(before);
      forall q: nat | q < i
        ensures calls[q].kind != call.kind
      {
        assert before[q].kind in FirstSeen(before);
      }
    }
  }

  /** The latest call before `i` for its type, given one. */
  lemma LatestBefore(calls: seq<Call>, i: nat, j: nat) returns (p: nat)
    requires j < i < |calls| && calls[j].kind == calls[i].kind
    ensures j <= p && Precedes(calls, p, i)
    decreases i - j
  {
    if k: nat :| j < k < i && calls[k].kind == calls[i].kind {
      p := LatestBefore(calls, i, k);
    } else {
      p := j;
    }
  }

  /** The stored heartbeat is that of the latest call for the type exactly when that call changed the
      value: one that confirms it is not recorded. */
  lemma HeartbeatCurrentIff(calls: seq<Call>, i: nat, e: nat)
    requires i < |calls| && forall k | i < k < |calls| :: calls[k].kind != calls[i].kind
    requires e < |After(calls)| && After(calls)[e].kind == calls[i].kind
    requires forall j, k | 0 <= j < k < |calls| :: calls[j].now < calls[k].now
    ensures After(calls)[e].heartbeat == Some(calls[i].now) <==> ChangesValue(calls, i)
  {
    RecordIsFaithful(calls);
    var j: nat :| Records(calls, After(calls)[e], j);
    assert j <= i;
    if j < i {
      var p := LatestBefore(calls, i, j);
      OneLatest(calls, p, i);
    }
  }
}
