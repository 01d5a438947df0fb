/** At most one download per paper, over every interleaving of Fetch calls that share a catalogue. */
module ArxivFetchSafety {
  import opened Common
  import opened ArxivFetch

  /** A call the step did not move keeps its invariant as long as its rows keep their owner. */
  lemma OthersKeep(s: System, t: System, j: nat)
    requires j < |s.calls| && j < |t.calls| && t.calls[j] == s.calls[j] && CallInv(s, j)
    requires forall k :: k in s.owner ==> k in t.owner && t.owner[k] == s.owner[k]
    ensures CallInv(t, j)
  {
  }

  /** What the saving call has found new afterwards. */
  lemma SavedNew(s: System, i: nat)
    requires Enabled(s, Save(i, false))
    ensures var call, t := s.calls[i], Next(s, Save(i, false));
            var e := call.entries[|call.flags|];
            New(t.calls[i]) == New(call) + if KeyOf(e) !in s.catalogue then [e] else []
  {
    var call := s.calls[i];
    PickedSnoc(call.entries, call.flags, KeyOf(call.entries[|call.flags|]) !in s.catalogue);
  }

  lemma SaveCalls(start: Catalogue, s: System, i: nat)
    requires CallsInv(s) && RowsInv(start, s) && Enabled(s, Save(i, false))
    ensures CallsInv(Next(s, Save(i, false)))
  {
    var t, call := Next(s, Save(i, false)), s.calls[i];
    SavedNew(s, i);
    assert CallInv(s, i);
    forall j | 0 <= j < |t.calls| ensures CallInv(t, j) {
      if j != i { OthersKeep(s, t, j); }
    }
  }

  lemma SaveOwners(start: Catalogue, s: System, i: nat)
    requires OwnersInv(s) && RowsInv(start, s) && Enabled(s, Save(i, false))
    ensures OwnersInv(Next(s, Save(i, false)))
  {
    var t, call := Next(s, Save(i, false)), s.calls[i];
    var e := call.entries[|call.flags|];
    SavedNew(s, i);
    forall k | k in t.owner ensures t.owner[k] < |t.calls| && Mentions(New(t.calls[t.owner[k]]), k) {
      MentionsSnoc(New(call), e, k);
      assert New(call) + [] == New(call);
      assert t.owner[k] != i ==> t.calls[t.owner[k]] == s.calls[s.owner[k]];
    }
  }

  lemma SaveRows(start: Catalogue, s: System, i: nat)
    requires RowsInv(start, s) && Enabled(s, Save(i, false))
    ensures RowsInv(start, Next(s, Save(i, false)))
  {
  }

  lemma SaveCounts(start: Catalogue, s: System, i: nat)
    requires CountsInv(s) && RowsInv(start, s) && Enabled(s, Save(i, false))
    ensures CountsInv(Next(s, Save(i, false)))
  {
    var t := Next(s, Save(i, false));
    forall k ensures Count(t.log, k) == Due(t, k) {
      assert Count(s.log, k) == Due(s, k);
    }
  }

  predicate Quiet(a: Action) { a.Begin? || (a.Save? && a.fault) || (a.Schedule? && a.refused) }

  /** Steps that save and schedule nothing: every call keeps what it found new. */
  lemma QuietCalls(s: System, a: Action, j: nat)
    requires CallsInv(s) && Enabled(s, a) && Quiet(a) && j < |Next(s, a).calls|
    ensures CallInv(Next(s, a), j)
    ensures j < |s.calls| ==> New(Next(s, a).calls[j]) == New(s.calls[j])
  {
    var t := Next(s, a);
    if j == |s.calls| {
      assert New(t.calls[j]) == [];
    } else {
      assert CallInv(s, j);
    }
  }

  lemma QuietOwners(s: System, a: Action)
    requires CallsInv(s) && OwnersInv(s) && Enabled(s, a) && Quiet(a)
    ensures OwnersInv(Next(s, a))
  {
    var t := Next(s, a);
    forall k | k in t.owner ensures t.owner[k] < |t.calls| && Mentions(New(t.calls[t.owner[k]]), k) {
      QuietCalls(s, a, s.owner[k]);
    }
  }

  lemma QuietCounts(s: System, a: Action)
    requires CountsInv(s) && OwnersInv(s) && Enabled(s, a) && Quiet(a)
    ensures CountsInv(Next(s, a))
  {
    var t := Next(s, a);
    forall k ensures Count(t.log, k) == Due(t, k) {
      assert Count(s.log, k) == Due(s, k);
    }
  }

  lemma ScheduleCalls(s: System, i: nat)
    requires CallsInv(s) && OwnersInv(s) && Enabled(s, Schedule(i, false))
    ensures CallsInv(Next(s, Schedule(i, false))) && OwnersInv(Next(s, Schedule(i, false)))
  {
    var t := Next(s, Schedule(i, false));
    forall j | 0 <= j < |t.calls| ensures CallInv(t, j) && New(t.calls[j]) == New(s.calls[j]) {
      assert CallInv(s, j);
    }
  }

  lemma ScheduleCounts(s: System, i: nat)
    requires CallsInv(s) && OwnersInv(s) && CountsInv(s) && Enabled(s, Schedule(i, false))
    ensures CountsInv(Next(s, Schedule(i, false)))
  {
    var t, picked := Next(s, Schedule(i, false)), New(s.calls[i]);
    assert CallInv(s, i);
    forall k ensures Count(t.log, k) == Due(t, k) {
      assert Count(s.log, k) == Due(s, k);
      CountAppend(s.log, Requests(picked), k);
      CountDistinct(picked, k);
      MentionedIsOwned(s, i, k);
    }
  }

  /** A call has found a key new exactly when it owns the row. */
  lemma MentionedIsOwned(s: System, i: nat, k: Key)
    requires i < |s.calls| && CallInv(s, i) && OwnersInv(s)
    ensures Mentions(New(s.calls[i]), k) <==> k in s.owner && s.owner[k] == i
  {
  }

  lemma StepInv(start: Catalogue, s: System, a: Action)
    requires FetchInv(start, s) && Enabled(s, a)
    ensures FetchInv(start, Next(s, a))
  {
    if a.Schedule? && !a.refused {
      ScheduleCalls(s, a.call);
      ScheduleCounts(s, a.call);
    } else if a.Save? && !a.fault {
      SaveCalls(start, s, a.call);
      SaveOwners(start, s, a.call);
      SaveRows(start, s, a.call);
      SaveCounts(start, s, a.call);
    } else {
      forall j: nat | j < |Next(s, a).calls| ensures CallInv(Next(s, a), j) { QuietCalls(s, a, j); }
      QuietOwners(s, a);
      QuietCounts(s, a);
    }
  }

  lemma {:induction false} RunKeeps(start: Catalogue, s: System, actions: seq<Action>, t: System)
    requires FetchInv(start, s) && Run(s, actions) == Some(t)
    ensures FetchInv(start, t)
    decreases |actions|
  {
    if actions != [] {
      StepInv(start, s, actions[0]);
      RunKeeps(start, Next(s, actions[0]), actions[1..], t);
    }
  }

  ghost predicate Reaches(start: Catalogue, actions: seq<Action>, s: System) { Run(Start(start), actions) == Some(s) }

  lemma Reachable(start: Catalogue, actions: seq<Action>, s: System)
    requires Reaches(start, actions, s)
    ensures FetchInv(start, s)
  {
    RunKeeps(start, Start(start), actions, s);
  }

  // ------------------------------------------------------------ guarantees

  /**
   Each paper is scheduled at most once ever: exactly once when the call that inserted its row scheduled,
   never when that call failed, the scheduler refused it, or the row was there from the start.
   */
  lemma ScheduledAtMostOnce(start: Catalogue, actions: seq<Action>, s: System, k: Key)
    requires Reaches(start, actions, s)
    ensures Count(s.log, k) <= 1
    ensures k in s.owner <==> k in s.catalogue && k !in start
    ensures k in s.owner ==> s.owner[k] < |s.calls|
    ensures Count(s.log, k) == 1 <==> k in s.owner && s.calls[s.owner[k]].phase.Scheduled?
    ensures k in start ==> k in s.catalogue && s.catalogue[k] == start[k] && Count(s.log, k) == 0
  {
    Reachable(start, actions, s);
    assert Count(s.log, k) == Due(s, k);
  }

  /** No step takes a call out of its final phase. */
  lemma {:induction false} PhaseIsFinal(s: System, actions: seq<Action>, t: System, i: nat)
    requires i < |s.calls| && !s.calls[i].phase.Saving? && Run(s, actions) == Some(t)
    ensures i < |t.calls| && t.calls[i] == s.calls[i]
    decreases |actions|
  {
    if actions != [] {
      PhaseIsFinal(Next(s, actions[0]), actions[1..], t, i);
    }
  }

  lemma OwnerStays(start: Catalogue, s: System, a: Action, k: Key)
    requires RowsInv(start, s) && k in s.owner && Enabled(s, a)
    ensures k in Next(s, a).owner && Next(s, a).owner[k] == s.owner[k]
  {
    assert k in s.catalogue;
  }

  lemma {:induction false} OwnerIsFinal(s: System, actions: seq<Action>, t: System, start: Catalogue, k: Key)
    requires FetchInv(start, s) && k in s.owner && Run(s, actions) == Some(t)
    ensures k in t.owner && t.owner[k] == s.owner[k]
    decreases |actions|
  {
    if actions != [] {
      OwnerStays(start, s, actions[0], k);
      StepInv(start, s, actions[0]);
      OwnerIsFinal(Next(s, actions[0]), actions[1..], t, start, k);
    }
  }

  /** What a call had saved before a save failed or the scheduler refused it is known and never scheduled by anyone. */
  lemma FailedSaveStrands(start: Catalogue, before: seq<Action>, s: System, after: seq<Action>, t: System, i: nat,
                          k: Key)
    requires Reaches(start, before, s) && i < |s.calls| && (s.calls[i].phase.Aborted? || s.calls[i].phase.Refused?)
    requires Mentions(New(s.calls[i]), k) && Run(s, after) == Some(t)
    ensures k in t.catalogue && Count(t.log, k) == 0
  {
    Reachable(start, before, s);
    assert CallInv(s, i);
    var j :| 0 <= j < |New(s.calls[i])| && KeyOf(New(s.calls[i])[j]) == k;
    PhaseIsFinal(s, after, t, i);
    OwnerIsFinal(s, after, t, start, k);
    RunKeeps(start, s, after, t);
    assert Count(t.log, k) == Due(t, k);
  }

  /** The positions of the entries picked. */
  function Positions(flags: seq<bool>): seq<nat> {
    if flags == [] then []
    else
      var last := |flags| - 1;
      Positions(flags[..last]) + if flags[last] then [last] else []
  }

  lemma {:induction false} PickedInOrder(entries: seq<Entry>, flags: seq<bool>)
    requires |flags| <= |entries|
    ensures var picked, at := Picked(entries, flags), Positions(flags);
            && |at| == |picked|
            && (forall i :: 0 <= i < |at| ==> at[i] < |flags| && picked[i] == entries[at[i]])
            && (forall i, j :: 0 <= i < j < |at| ==> at[i] < at[j])
    decreases |flags|
  {
    if flags != [] {
      PickedInOrder(entries, flags[..|flags| - 1]);
    }
  }

  /** A call schedules a subsequence of what it fetched, in order and with distinct keys. */
  lemma SchedulesSubsequence(start: Catalogue, actions: seq<Action>, s: System, i: nat)
    requires Reaches(start, actions, s) && Enabled(s, Schedule(i, false))
    ensures var picked, at := New(s.calls[i]), Positions(s.calls[i].flags);
            && Next(s, Schedule(i, false)).log == s.log + Requests(picked)
            && Distinct(picked) && |at| == |picked| == |Requests(picked)|
            && (forall j :: 0 <= j < |picked| ==> Asks(Requests(picked)[j], picked[j]))
            && (forall j :: 0 <= j < |at| ==> at[j] < |s.calls[i].entries| && picked[j] == s.calls[i].entries[at[j]])
            && (forall j, k :: 0 <= j < k < |at| ==> at[j] < at[k])
  {
    Reachable(start, actions, s);
    assert CallInv(s, i);
    PickedInOrder(s.calls[i].entries, s.calls[i].flags);
  }
}
