/** Which of the selected files of a duplicate group may be deleted. */
module DeletePlan {
  import opened Common

  type FileId = int

  datatype Reject = NoneSelected | UnknownMember | DeleteAll | BestUnconfirmed
  datatype Plan = Rejected(reject: Reject) | Planned(ids: seq<FileId>)

  ghost function Elements(s: seq<FileId>): (r: set<FileId>)
    ensures forall x :: x in r <==> x in s
  {
    set x | x in s
  }

  ghost predicate Distinct(s: seq<FileId>) {
    forall i, j :: 0 <= i < j < |s| ==> s[i] != s[j]
  }

  /** Every element of `ids` appears in `selected`, and in the order of first appearance. */
  ghost predicate FirstSeenOrder(ids: seq<FileId>, selected: seq<FileId>) {
    forall i, j, q :: 0 <= i < j < |ids| && 0 <= q < |selected| && selected[q] == ids[j] ==>
      exists p :: 0 <= p < q && selected[p] == ids[i]
  }

  ghost predicate Foreign(members: set<FileId>, selected: seq<FileId>) {
    exists k :: 0 <= k < |selected| && selected[k] !in members
  }

  lemma {:induction false} DistinctSize(s: seq<FileId>)
    requires Distinct(s)
    ensures |Elements(s)| == |s|
  {
    if s != [] {
      var rest := s[..|s| - 1];
      DistinctSize(rest);
      assert s == rest + [s[|s| - 1]];
      assert Elements(s) == Elements(rest) + {s[|s| - 1]};
    }
  }

  /**
   * The plan is the selection without repetitions, and there is one exactly when the selection
   * is a non-empty, strict part of the members that spares the best copy or was confirmed.
   */
  method PlanDeletion(members: seq<FileId>, best: Option<FileId>, selected: seq<FileId>, confirmBest: bool)
    returns (plan: Plan)
    ensures plan == Rejected(NoneSelected) <==> selected == []
    ensures plan == Rejected(UnknownMember) <==> Foreign(Elements(members), selected)
    ensures plan == Rejected(DeleteAll)
       <==> selected != [] && !Foreign(Elements(members), selected) && Elements(selected) == Elements(members)
    ensures plan == Rejected(BestUnconfirmed)
       <==> selected != [] && Elements(selected) < Elements(members)
            && best.Some? && best.value in selected && !confirmBest
    ensures plan.Planned? ==>
      && Distinct(plan.ids)
      && plan.ids != []
      && Elements(plan.ids) == Elements(selected) < Elements(members)
      && FirstSeenOrder(plan.ids, selected)
  {
    if selected == [] {
      return Rejected(NoneSelected);
    }
    var memberSet := set m | m in members;
    var seen: set<FileId> := {};
    var toDelete: seq<FileId> := [];
    var k := 0;
    while k < |selected|
      invariant 0 <= k <= |selected|
      invariant forall i :: 0 <= i < k ==> selected[i] in memberSet
      invariant seen == Elements(toDelete)
      invariant Deduplicated(toDelete, selected[..k])
    {
      var id := selected[k];
      assert selected[..k + 1] == selected[..k] + [id];
      if id !in memberSet {
        assert Foreign(Elements(members), selected);
        return Rejected(UnknownMember);
      }
      if id !in seen {
        ExtendFirstSeen(toDelete, selected[..k], id);
        seen := seen + {id};
        toDelete := toDelete + [id];
      } else {
        RepeatFirstSeen(toDelete, selected[..k], id);
      }
      k := k + 1;
    }
    assert selected[..k] == selected;
    assert memberSet == Elements(members);
    AllOrStrict(toDelete, selected, memberSet);
    if |toDelete| >= |memberSet| {
      return Rejected(DeleteAll);
    }
    if best.Some? && best.value in toDelete && !confirmBest {
      return Rejected(BestUnconfirmed);
    }
    return Planned(toDelete);
  }

  /** The selection without repetitions. */
  ghost predicate Deduplicated(ids: seq<FileId>, selected: seq<FileId>) {
    Distinct(ids) && Elements(ids) == Elements(selected) && FirstSeenOrder(ids, selected)
  }

  lemma AllOrStrict(ids: seq<FileId>, selected: seq<FileId>, members: set<FileId>)
    requires Deduplicated(ids, selected) && selected != []
    requires forall i :: 0 <= i < |selected| ==> selected[i] in members
    ensures Elements(selected) <= members && ids != []
    ensures |ids| >= |members| <==> Elements(selected) == members
    ensures forall x :: x in ids <==> x in selected
    ensures !Foreign(members, selected)
  {
    DistinctSize(ids);
    SubsetSize(Elements(selected), members);
    assert selected[0] in Elements(selected);
    assert forall x :: x in ids <==> x in Elements(ids);
    assert forall x :: x in selected <==> x in Elements(selected);
  }

  lemma ExtendFirstSeen(ids: seq<FileId>, prefix: seq<FileId>, id: FileId)
    requires Deduplicated(ids, prefix) && id !in Elements(ids)
    ensures Deduplicated(ids + [id], prefix + [id])
    ensures Elements(ids + [id]) == Elements(ids) + {id}
  {
    assert Elements(prefix + [id]) == Elements(prefix) + {id};
    var ids', pre' := ids + [id], prefix + [id];
    forall i, j, q | 0 <= i < j < |ids'| && 0 <= q < |pre'| && pre'[q] == ids'[j]
      ensures exists p :: 0 <= p < q && pre'[p] == ids'[i]
    {
      if j < |ids| {
        assert ids[j] in Elements(ids);
        assert q < |prefix| && prefix[q] == ids[j];
        var p :| 0 <= p < q && prefix[p] == ids[i];
        assert pre'[p] == ids'[i];
      } else {
        assert q == |prefix|;
        assert ids[i] in Elements(ids) && ids[i] in Elements(prefix);
        var p :| 0 <= p < |prefix| && prefix[p] == ids[i];
        assert pre'[p] == ids'[i];
      }
    }
  }

  lemma RepeatFirstSeen(ids: seq<FileId>, prefix: seq<FileId>, id: FileId)
    requires Deduplicated(ids, prefix) && id in Elements(ids)
    ensures Deduplicated(ids, prefix + [id])
  {
    assert Elements(prefix + [id]) == Elements(prefix) + {id};
    var pre' := prefix + [id];
    forall i, j, q | 0 <= i < j < |ids| && 0 <= q < |pre'| && pre'[q] == ids[j]
      ensures exists p :: 0 <= p < q && pre'[p] == ids[i]
    {
      if q < |prefix| {
        assert prefix[q] == ids[j];
        var p :| 0 <= p < q && prefix[p] == ids[i];
        assert pre'[p] == ids[i];
      } else {
        assert ids[i] in Elements(ids) && ids[i] in Elements(prefix);
        var p :| 0 <= p < |prefix| && prefix[p] == ids[i];
        assert pre'[p] == ids[i];
      }
    }
  }

  /** A planned deletion always leaves a member of the group that is never touched. */
  lemma PlanSparesAMember(members: set<FileId>, ids: seq<FileId>)
    requires Elements(ids) < members
    ensures |members - Elements(ids)| > 0
    ensures exists m :: m in members && m !in ids
  {
    SubsetSize(Elements(ids), members);
    assert members == Elements(ids) + (members - Elements(ids));
    var m := AnElement(members - Elements(ids));
    assert m in members && m !in ids;
  }
}
