/** `TlcState`: the local and the remote pending TLC lists of a channel,
    the queue of removals to retry, and the `waiting_ack` flag; with
    `unify_tlcs`, which merges committed and staging views into the TLC set
    of one commitment transaction. */
module TlcStates {
  import opened TlcTypes
  import opened SeqUtil
  import opened TlcMap
  import opened Pending

  /** The staging loop of `unify_tlcs`: each staged addition is inserted
      unless its id is already in the map (a committed entry, or an earlier
      staged one, wins). */
  function StageAdds(m: seq<AddTlcInfo>, staging: seq<TlcKind>): (r: seq<AddTlcInfo>)
    requires Sorted(m)
    ensures Sorted(r)
  {
    if staging == [] then m
    else
      var prev := StageAdds(m, staging[..|staging| - 1]);
      var t := staging[|staging| - 1];
      if t.AddTlc? && !ContainsKey(prev, t.add.tlcId) then Insert(prev, t.add) else prev
  }

  function IsRemoval(): TlcKind -> bool
  {
    (t: TlcKind) => t.RemoveTlc?
  }

  /** The final loop of `unify_tlcs`: the id of every collected removal is
      taken out of the map. */
  function RemoveAll(m: seq<AddTlcInfo>, removals: seq<TlcKind>): (r: seq<AddTlcInfo>)
    requires Sorted(m)
    ensures Sorted(r)
  {
    if removals == [] then m
    else RemoveKey(RemoveAll(m, removals[..|removals| - 1]), removals[|removals| - 1].TlcId())
  }

  /** The map `unify_tlcs` builds, in id order. */
  function Unified(staging: seq<TlcKind>, committed: seq<TlcKind>): (r: seq<AddTlcInfo>)
    ensures Sorted(r)
  {
    RemoveAll(StageAdds(FilterAddTlcs(committed), staging), Retain(staging, IsRemoval()))
  }

  predicate RemovedInStaging(staging: seq<TlcKind>, k: TLCId)
  {
    exists i :: 0 <= i < |staging| && staging[i].RemoveTlc? && staging[i].TlcId() == k
  }

  function FirstStagedAdd(staging: seq<TlcKind>, k: TLCId): Option<AddTlcInfo>
  {
    match FirstAddIndex(staging, k)
    case None => None
    case Some(i) => Some(staging[i].add)
  }

  /** What a commitment transaction holds for id `k`, stated per id: nothing
      if a staged removal names `k`; otherwise the last live committed
      addition of `k` if there is one (committed entries carry the latest
      information); otherwise the first staged addition of `k`. */
  function Expected(staging: seq<TlcKind>, committed: seq<TlcKind>, k: TLCId): Option<AddTlcInfo>
  {
    if RemovedInStaging(staging, k) then None
    else if ContainsKey(FilterAddTlcs(committed), k) then Lookup(FilterAddTlcs(committed), k)
    else FirstStagedAdd(staging, k)
  }

  /** Extending the staging list by one entry changes the first staged
      addition of `k` only if there was none. */
  lemma FirstStagedAddSnoc(front: seq<TlcKind>, t: TlcKind, k: TLCId)
    ensures FirstStagedAdd(front + [t], k)
      == if FirstStagedAdd(front, k).Some? then FirstStagedAdd(front, k)
         else if t.AddTlc? && t.add.tlcId == k then Some(t.add) else None
  {
    var s := front + [t];
    assert forall j :: 0 <= j < |front| ==> s[j] == front[j];
    match FirstAddIndex(front, k)
    case Some(i) =>
      assert FirstAddIndex(s, k) == Some(i);
    case None =>
      if t.AddTlc? && t.add.tlcId == k {
        assert s[|front|] == t;
        assert FirstAddIndex(s, k) == Some(|front|);
      } else {
        assert FirstAddIndex(s, k) == None;
      }
  }

  lemma {:induction false} StageAddsLookup(m: seq<AddTlcInfo>, staging: seq<TlcKind>, k: TLCId)
    requires Sorted(m)
    ensures Lookup(StageAdds(m, staging), k)
      == if ContainsKey(m, k) then Lookup(m, k) else FirstStagedAdd(staging, k)
  {
    if staging != [] {
      var n := |staging| - 1;
      var front := staging[..n];
      var t := staging[n];
      assert staging == front + [t];
      StageAddsLookup(m, front, k);
      FirstStagedAddSnoc(front, t, k);
      var prev := StageAdds(m, front);
      assert StageAdds(m, staging)
        == if t.AddTlc? && !ContainsKey(prev, t.add.tlcId) then Insert(prev, t.add) else prev;
    }
  }

  /** Some entry of `removals` names `k`. */
  predicate NamesId(removals: seq<TlcKind>, k: TLCId)
  {
    exists i :: 0 <= i < |removals| && removals[i].TlcId() == k
  }

  lemma NamesIdSnoc(removals: seq<TlcKind>, k: TLCId)
    requires removals != []
    ensures NamesId(removals, k)
      <==> NamesId(removals[..|removals| - 1], k) || removals[|removals| - 1].TlcId() == k
  {
    var n := |removals| - 1;
    if NamesId(removals, k) {
      var i :| 0 <= i < |removals| && removals[i].TlcId() == k;
      if i < n {
        assert removals[..n][i] == removals[i];
      }
    }
    if NamesId(removals[..n], k) {
      var i :| 0 <= i < n && removals[..n][i].TlcId() == k;
      assert removals[i] == removals[..n][i];
    }
  }

  lemma {:induction false} RemoveAllLookup(m: seq<AddTlcInfo>, removals: seq<TlcKind>, k: TLCId)
    requires Sorted(m)
    ensures Lookup(RemoveAll(m, removals), k) == if NamesId(removals, k) then None else Lookup(m, k)
  {
    if removals != [] {
      var n := |removals| - 1;
      var prev := RemoveAll(m, removals[..n]);
      RemoveAllLookup(m, removals[..n], k);
      NamesIdSnoc(removals, k);
      assert RemoveAll(m, removals) == RemoveKey(prev, removals[n].TlcId());
    }
  }

  /** `unify_tlcs` yields, for every id, exactly the `Expected` entry, and
      yields the entries in ascending id order. */
  lemma UnifiedLookup(staging: seq<TlcKind>, committed: seq<TlcKind>, k: TLCId)
    ensures Sorted(Unified(staging, committed))
    ensures Lookup(Unified(staging, committed), k) == Expected(staging, committed, k)
  {
    var removals := Retain(staging, IsRemoval());
    StageAddsLookup(FilterAddTlcs(committed), staging, k);
    RemoveAllLookup(StageAdds(FilterAddTlcs(committed), staging), removals, k);
    if RemovedInStaging(staging, k) {
      var i :| 0 <= i < |staging| && staging[i].RemoveTlc? && staging[i].TlcId() == k;
      assert staging[i] in removals;
    }
    if NamesId(removals, k) {
      var i :| 0 <= i < |removals| && removals[i].TlcId() == k;
      assert removals[i] in staging;
    }
  }

  lemma UnifiedMatchesExpected(staging: seq<TlcKind>, committed: seq<TlcKind>)
    ensures forall k :: Lookup(Unified(staging, committed), k) == Expected(staging, committed, k)
  {
    forall k {
      UnifiedLookup(staging, committed, k);
    }
  }

  /** The properties `unify_tlcs` is relied on for: a staged removal hides
      its id; a committed addition marked removed never appears; a live
      committed addition wins over a staged addition of the same id. */
  lemma UnifiedProperties(staging: seq<TlcKind>, committed: seq<TlcKind>, k: TLCId)
    ensures RemovedInStaging(staging, k) ==> Lookup(Unified(staging, committed), k).None?
    ensures forall x :: x in Unified(staging, committed) && x.removedAt.Some? ==> AddTlc(x) !in committed || AddTlc(x) in staging
    ensures !RemovedInStaging(staging, k) && (exists i :: 0 <= i < |committed| && LiveAddOf(committed[i], k))
      ==> (Lookup(Unified(staging, committed), k).Some?
           && AddTlc(Lookup(Unified(staging, committed), k).value) in committed)
  {
    UnifiedLookup(staging, committed, k);
    FilterAddTlcsLookup(committed, k);
    forall x | x in Unified(staging, committed) && x.removedAt.Some?
      ensures AddTlc(x) !in committed || AddTlc(x) in staging
    {
      UnifiedLookup(staging, committed, x.tlcId);
      FilterAddTlcsLookup(committed, x.tlcId);
      var u := Unified(staging, committed);
      var j :| 0 <= j < |u| && u[j] == x;
      assert Lookup(u, x.tlcId) == Some(x) by {
        LookupSorted(u, j);
      }
    }
  }

  /** In a sorted map, looking up the key of an entry finds that entry. */
  lemma {:induction false} LookupSorted(m: seq<AddTlcInfo>, j: nat)
    requires Sorted(m) && j < |m|
    ensures Lookup(m, m[j].tlcId) == Some(m[j])
  {
    if j > 0 {
      assert IdLess(m[0].tlcId, m[j].tlcId);
      assert m[1..][j - 1] == m[j];
      LookupSorted(m[1..], j - 1);
    }
  }

  /** One more committed entry, one more step of `filter_add_tlcs`. */
  lemma FilterAddTlcsStep(s: seq<TlcKind>, i: nat)
    requires i < |s|
    ensures FilterAddTlcs(s[..i + 1])
      == if s[i].AddTlc? && s[i].add.removedAt.None? then Insert(FilterAddTlcs(s[..i]), s[i].add)
         else FilterAddTlcs(s[..i])
  {
    assert s[..i + 1][..i] == s[..i];
  }

  /** One more staged entry, one more step of the staging loop. */
  lemma StageAddsStep(m: seq<AddTlcInfo>, s: seq<TlcKind>, j: nat)
    requires Sorted(m) && j < |s|
    ensures StageAdds(m, s[..j + 1])
      == if s[j].AddTlc? && !ContainsKey(StageAdds(m, s[..j]), s[j].add.tlcId)
         then Insert(StageAdds(m, s[..j]), s[j].add)
         else StageAdds(m, s[..j])
    ensures s[j].RemoveTlc? ==> Retain(s[..j + 1], IsRemoval()) == Retain(s[..j], IsRemoval()) + [s[j]]
    ensures !s[j].RemoveTlc? ==> Retain(s[..j + 1], IsRemoval()) == Retain(s[..j], IsRemoval())
  {
    assert s[..j + 1][..j] == s[..j];
    assert s[..j + 1] == s[..j] + [s[j]];
    RetainAppend(s[..j], [s[j]], IsRemoval());
    if !s[j].RemoveTlc? {
      assert Retain([s[j]], IsRemoval()) == [];
    }
  }

  /** One more collected removal, one more key taken out. */
  lemma RemoveAllStep(m: seq<AddTlcInfo>, rs: seq<TlcKind>, l: nat)
    requires Sorted(m) && l < |rs|
    ensures RemoveAll(m, rs[..l + 1]) == RemoveKey(RemoveAll(m, rs[..l]), rs[l].TlcId())
  {
    assert rs[..l + 1][..l] == rs[..l];
  }

  /** `TlcState::unify_tlcs`, with the BTreeMap as a sorted sequence. The
      committed entries must all be additions. */
  method UnifyTlcs(staging: seq<TlcKind>, committed: seq<TlcKind>) returns (r: seq<TlcKind>)
    requires forall i :: 0 <= i < |committed| ==> committed[i].AddTlc?
    ensures var u := Unified(staging, committed);
      |r| == |u| && forall i :: 0 <= i < |r| ==> r[i] == AddTlc(u[i])
    ensures forall i, j :: 0 <= i < j < |r| ==> IdLess(r[i].TlcId(), r[j].TlcId())
  {
    var addTlcs: seq<AddTlcInfo> := [];
    var removeTlcs: seq<TlcKind> := [];
    for i := 0 to |committed|
      invariant addTlcs == FilterAddTlcs(committed[..i])
    {
      FilterAddTlcsStep(committed, i);
      match committed[i]
      case AddTlc(info) =>
        if info.removedAt.None? {
          addTlcs := Insert(addTlcs, info);
        }
      case RemoveTlc(_) =>
        assert false;
    }
    assert committed[..|committed|] == committed;
    var base := FilterAddTlcs(committed);
    for j := 0 to |staging|
      invariant addTlcs == StageAdds(base, staging[..j])
      invariant removeTlcs == Retain(staging[..j], IsRemoval())
    {
      StageAddsStep(base, staging, j);
      match staging[j]
      case AddTlc(info) =>
        if ContainsKey(addTlcs, info.tlcId) {
          continue;
        }
        addTlcs := Insert(addTlcs, info);
      case RemoveTlc(_) =>
        removeTlcs := removeTlcs + [staging[j]];
    }
    assert staging[..|staging|] == staging;
    var staged := addTlcs;
    for l := 0 to |removeTlcs|
      invariant addTlcs == RemoveAll(staged, removeTlcs[..l])
    {
      RemoveAllStep(staged, removeTlcs, l);
      addTlcs := RemoveKey(addTlcs, removeTlcs[l].TlcId());
    }
    assert removeTlcs[..|removeTlcs|] == removeTlcs;
    r := seq(|addTlcs|, i requires 0 <= i < |addTlcs| => AddTlc(addTlcs[i]));
  }

  /** What `mark_tlc_remove` does to one pending list: removals of `id` are
      dropped and the first addition of `id` gets its `removed_at` stamp. */
  function MarkRemoved(s: seq<TlcKind>, id: TLCId, rm: Removal): seq<TlcKind>
  {
    var d := Retain(s, KeepUnlessRemoveOf(id));
    match FirstAddIndex(d, id)
    case None => d
    case Some(i) => StampRemoved(d, i, rm)
  }

  /** The two pending lists before and after `apply_remove_tlc` of `id`:
      both are marked by `mark_tlc_remove`, then the list of the side that
      offered the TLC drops its additions that carry a `removed_at`. */
  predicate RemoveApplied(oldLocal: seq<TlcKind>, oldRemote: seq<TlcKind>,
                          newLocal: seq<TlcKind>, newRemote: seq<TlcKind>, id: TLCId, rm: Removal)
  {
    if id.IsOffered() then
      newLocal == Retain(MarkRemoved(oldLocal, id, rm), KeepUnlessRemovedAdd())
      && newRemote == MarkRemoved(oldRemote, id, rm)
    else
      newLocal == MarkRemoved(oldLocal, id, rm)
      && newRemote == Retain(MarkRemoved(oldRemote, id, rm), KeepUnlessRemovedAdd())
  }

  /** After `apply_remove_tlc`, the list of the side that offered the TLC
      holds no entry with its id at all: the removals were dropped, and the
      one addition (entries are unique) was stamped and then shrunk away. */
  lemma ApplyRemoveErasesId(s: seq<TlcKind>, id: TLCId, rm: Removal)
    requires Unique(s)
    ensures var r := Retain(MarkRemoved(s, id, rm), KeepUnlessRemovedAdd());
      forall i :: 0 <= i < |r| ==> r[i].TlcId() != id
  {
    var d := Retain(s, KeepUnlessRemoveOf(id));
    RetainUnique(s, KeepUnlessRemoveOf(id));
    var m := MarkRemoved(s, id, rm);
    var r := Retain(m, KeepUnlessRemovedAdd());
    assert forall j :: 0 <= j < |d| ==> !(d[j].RemoveTlc? && d[j].TlcId() == id);
    forall k | 0 <= k < |r| ensures r[k].TlcId() != id {
      var j :| 0 <= j < |m| && m[j] == r[k];
      match FirstAddIndex(d, id)
      case None =>
        assert m[j] == d[j];
      case Some(i) =>
        assert m[i].add.removedAt.Some?;
        assert j != i;
        assert m[j] == d[j];
        assert d[j].TlcId() != id;
    }
  }

  /** What `remove_pending_remove_tlc` keeps: every other queued removal. */
  function KeepUnlessEqual(x: RetryableRemoveTlc): RetryableRemoveTlc -> bool
  {
    (y: RetryableRemoveTlc) => y != x
  }

  class TlcState {
    const local: PendingTlcs
    const remote: PendingTlcs
    var retryableRemoveTlcs: seq<RetryableRemoveTlc>
    var waitingAck: bool

    ghost predicate Valid()
      reads this, local, remote
    {
      local != remote && local.Valid() && remote.Valid()
    }

    constructor ()
      ensures Valid() && fresh(local) && fresh(remote)
      ensures local.tlcs == [] && remote.tlcs == []
      ensures local.committedIndex == 0 && remote.committedIndex == 0
      ensures local.nextTlcId == 0 && remote.nextTlcId == 0
      ensures retryableRemoveTlcs == [] && !waitingAck
    {
      local := new PendingTlcs();
      remote := new PendingTlcs();
      retryableRemoveTlcs := [];
      waitingAck := false;
    }

    method SetWaitingAck(waiting: bool)
      modifies this`waitingAck
      ensures waitingAck == waiting
    {
      waitingAck := waiting;
    }

    method IncrementOffering()
      modifies local`nextTlcId
      ensures local.nextTlcId == old(local.nextTlcId) + 1
    {
      local.IncrementNextTlcId();
    }

    method IncrementReceived()
      modifies remote`nextTlcId
      ensures remote.nextTlcId == old(remote.nextTlcId) + 1
    {
      remote.IncrementNextTlcId();
    }

    /** `set_tlc_pending_remove`: queues a removal to retry. */
    method SetTlcPendingRemove(id: TLCId, reason: RemoveTlcReason)
      modifies this`retryableRemoveTlcs
      ensures retryableRemoveTlcs == old(retryableRemoveTlcs) + [RetryRemoveTlc(id, reason)]
    {
      retryableRemoveTlcs := retryableRemoveTlcs + [RetryRemoveTlc(id, reason)];
    }

    /** `insert_relay_tlc_remove`: queues a removal to relay upstream. */
    method InsertRelayTlcRemove(channelId: Hash256, tlcId: nat, reason: RemoveTlcReason)
      modifies this`retryableRemoveTlcs
      ensures retryableRemoveTlcs == old(retryableRemoveTlcs) + [RelayRemoveTlc(channelId, tlcId, reason)]
    {
      retryableRemoveTlcs := retryableRemoveTlcs + [RelayRemoveTlc(channelId, tlcId, reason)];
    }

    /** `remove_pending_remove_tlc`: every copy of `x` leaves the queue, the
        rest keep their order. */
    method RemovePendingRemoveTlc(x: RetryableRemoveTlc)
      modifies this`retryableRemoveTlcs
      ensures retryableRemoveTlcs == Retain(old(retryableRemoveTlcs), KeepUnlessEqual(x))
      ensures x !in retryableRemoveTlcs
      ensures forall y :: y in old(retryableRemoveTlcs) && y != x ==> y in retryableRemoveTlcs
    {
      retryableRemoveTlcs := Retain(retryableRemoveTlcs, KeepUnlessEqual(x));
    }

    /** `get`: the first addition with this id, looked up in the local list
        for an offered id and in the remote list for a received one. */
    function Get(id: TLCId): (r: Option<AddTlcInfo>)
      reads this, local, remote
      ensures var s := if id.IsOffered() then local.tlcs else remote.tlcs;
        (r.Some? ==> r.value.tlcId == id && AddTlc(r.value) in s)
        && (r.None? ==> forall i :: 0 <= i < |s| ==> !(s[i].AddTlc? && s[i].TlcId() == id))
    {
      var s := if id.IsOffered() then local.tlcs else remote.tlcs;
      match FirstAddIndex(s, id)
      case None => None
      case Some(i) => Some(s[i].add)
    }

    method AddLocalTlc(t: TlcKind)
      requires Valid()
      requires !Present(local.tlcs, t)
      modifies local`tlcs
      ensures Valid()
      ensures local.tlcs == old(local.tlcs) + [t]
    {
      local.Push(t);
    }

    method AddRemoteTlc(t: TlcKind)
      requires Valid()
      requires !Present(remote.tlcs, t)
      modifies remote`tlcs
      ensures Valid()
      ensures remote.tlcs == old(remote.tlcs) + [t]
    {
      remote.Push(t);
    }

    /** `get_tlcs_for_local`: the TLCs of our commitment transaction. */
    method GetTlcsForLocal() returns (r: seq<TlcKind>)
      requires Valid()
      requires forall i :: 0 <= i < |local.CommittedTlcs()| ==> local.CommittedTlcs()[i].AddTlc?
      requires forall i :: 0 <= i < |remote.CommittedTlcs()| ==> remote.CommittedTlcs()[i].AddTlc?
      ensures var u := Unified(local.StagingTlcs(), local.CommittedTlcs() + remote.CommittedTlcs());
        |r| == |u| && forall i :: 0 <= i < |r| ==> r[i] == AddTlc(u[i])
    {
      r := UnifyTlcs(local.StagingTlcs(), local.CommittedTlcs() + remote.CommittedTlcs());
    }

    /** `get_tlcs_for_remote`: the TLCs of the counterparty's commitment
        transaction. */
    method GetTlcsForRemote() returns (r: seq<TlcKind>)
      requires Valid()
      requires forall i :: 0 <= i < |local.CommittedTlcs()| ==> local.CommittedTlcs()[i].AddTlc?
      requires forall i :: 0 <= i < |remote.CommittedTlcs()| ==> remote.CommittedTlcs()[i].AddTlc?
      ensures var u := Unified(remote.StagingTlcs(), remote.CommittedTlcs() + local.CommittedTlcs());
        |r| == |u| && forall i :: 0 <= i < |r| ==> r[i] == AddTlc(u[i])
    {
      r := UnifyTlcs(remote.StagingTlcs(), remote.CommittedTlcs() + local.CommittedTlcs());
    }

    /** `commit_local_tlcs`: commits the local list, merging in what the
        remote list has committed. */
    method CommitLocalTlcs() returns (staging: seq<TlcKind>)
      requires Valid()
      modifies local`tlcs, local`committedIndex
      ensures Valid()
      ensures staging == old(local.StagingTlcs())
      ensures local.tlcs == AppendAbsent(old(local.tlcs), old(remote.CommittedTlcs()))
      ensures local.committedIndex == |local.tlcs|
    {
      staging := local.CommitTlcs(remote.CommittedTlcs());
    }

    /** `commit_remote_tlcs`: the mirror image of `CommitLocalTlcs`. */
    method CommitRemoteTlcs() returns (staging: seq<TlcKind>)
      requires Valid()
      modifies remote`tlcs, remote`committedIndex
      ensures Valid()
      ensures staging == old(remote.StagingTlcs())
      ensures remote.tlcs == AppendAbsent(old(remote.tlcs), old(local.CommittedTlcs()))
      ensures remote.committedIndex == |remote.tlcs|
    {
      staging := remote.CommitTlcs(local.CommittedTlcs());
    }

    /** `all_commited_tlcs`: the live additions of both committed prefixes. */
    function AllCommittedTlcs(): (r: seq<AddTlcInfo>)
      reads this, local, remote
      requires Valid()
      ensures Sorted(r)
      ensures forall x :: x in r ==>
        x.removedAt.None? && AddTlc(x) in local.CommittedTlcs() + remote.CommittedTlcs()
      ensures var s := local.CommittedTlcs() + remote.CommittedTlcs();
        forall k :: Lookup(r, k).None? <==> forall i :: 0 <= i < |s| ==> !LiveAddOf(s[i], k)
      ensures var s := local.CommittedTlcs() + remote.CommittedTlcs();
        forall k :: Lookup(r, k).Some? ==>
          exists i :: 0 <= i < |s| && LiveAddOf(s[i], k) && s[i].add == Lookup(r, k).value
            && forall j :: i < j < |s| ==> !LiveAddOf(s[j], k)
    {
      var s := local.CommittedTlcs() + remote.CommittedTlcs();
      forall k
        ensures Lookup(FilterAddTlcs(s), k).None? <==> forall i :: 0 <= i < |s| ==> !LiveAddOf(s[i], k)
        ensures Lookup(FilterAddTlcs(s), k).Some? ==>
          exists i :: 0 <= i < |s| && LiveAddOf(s[i], k) && s[i].add == Lookup(FilterAddTlcs(s), k).value
            && forall j :: i < j < |s| ==> !LiveAddOf(s[j], k)
      {
        FilterAddTlcsLookup(s, k);
      }
      assert forall x :: x in FilterAddTlcs(s) ==> x.removedAt.None? && AddTlc(x) in s by {
        forall x | x in FilterAddTlcs(s) ensures x.removedAt.None? && AddTlc(x) in s {
          FilterAddTlcsFrom(s, x);
        }
      }
      FilterAddTlcs(s)
    }

    /** `all_tlcs`: the live additions of both lists, committed or not. */
    function AllTlcs(): (r: seq<AddTlcInfo>)
      reads this, local, remote
      ensures Sorted(r)
      ensures forall x :: x in r ==> x.removedAt.None? && AddTlc(x) in local.tlcs + remote.tlcs
      ensures var s := local.tlcs + remote.tlcs;
        forall k :: Lookup(r, k).None? <==> forall i :: 0 <= i < |s| ==> !LiveAddOf(s[i], k)
      ensures var s := local.tlcs + remote.tlcs;
        forall k :: Lookup(r, k).Some? ==>
          exists i :: 0 <= i < |s| && LiveAddOf(s[i], k) && s[i].add == Lookup(r, k).value
            && forall j :: i < j < |s| ==> !LiveAddOf(s[j], k)
    {
      var s := local.tlcs + remote.tlcs;
      forall k
        ensures Lookup(FilterAddTlcs(s), k).None? <==> forall i :: 0 <= i < |s| ==> !LiveAddOf(s[i], k)
        ensures Lookup(FilterAddTlcs(s), k).Some? ==>
          exists i :: 0 <= i < |s| && LiveAddOf(s[i], k) && s[i].add == Lookup(FilterAddTlcs(s), k).value
            && forall j :: i < j < |s| ==> !LiveAddOf(s[j], k)
      {
        FilterAddTlcsLookup(s, k);
      }
      assert forall x :: x in FilterAddTlcs(s) ==> x.removedAt.None? && AddTlc(x) in s by {
        forall x | x in FilterAddTlcs(s) ensures x.removedAt.None? && AddTlc(x) in s {
          FilterAddTlcsFrom(s, x);
        }
      }
      FilterAddTlcs(s)
    }

    /** `mark_tlc_remove`: drops every removal of `id` from both lists
        (committing them) and stamps `removed_at` on the addition of `id` in
        each list that has one. */
    method MarkTlcRemove(id: TLCId, at: CommitmentNumbers, reason: RemoveTlcReason)
      requires Valid()
      modifies local`tlcs, local`committedIndex, remote`tlcs, remote`committedIndex
      ensures Valid()
      ensures local.tlcs == MarkRemoved(old(local.tlcs), id, Removal(at, reason))
      ensures remote.tlcs == MarkRemoved(old(remote.tlcs), id, Removal(at, reason))
      ensures local.committedIndex == |local.tlcs| && remote.committedIndex == |remote.tlcs|
    {
      local.DropRemoveTlc(id);
      remote.DropRemoveTlc(id);
      var li := FirstAddIndex(local.tlcs, id);
      if li.Some? {
        local.tlcs := StampRemoved(local.tlcs, li.value, Removal(at, reason));
      }
      var ri := FirstAddIndex(remote.tlcs, id);
      if ri.Some? {
        remote.tlcs := StampRemoved(remote.tlcs, ri.value, Removal(at, reason));
      }
    }

    /** `apply_remove_tlc`: marks the TLC removed in both lists, then shrinks
        the list of the side that offered it, which afterwards holds nothing
        with this id. */
    method ApplyRemoveTlc(id: TLCId, at: CommitmentNumbers, reason: RemoveTlcReason)
      requires Valid()
      modifies local`tlcs, local`committedIndex, remote`tlcs, remote`committedIndex
      ensures Valid()
      ensures RemoveApplied(old(local.tlcs), old(remote.tlcs), local.tlcs, remote.tlcs, id, Removal(at, reason))
      ensures local.committedIndex == |local.tlcs| && remote.committedIndex == |remote.tlcs|
      ensures var owner := if id.IsOffered() then local.tlcs else remote.tlcs;
        forall i :: 0 <= i < |owner| ==> owner[i].TlcId() != id
    {
      ApplyRemoveErasesId(if id.IsOffered() then local.tlcs else remote.tlcs, id, Removal(at, reason));
      MarkTlcRemove(id, at, reason);
      if id.IsOffered() {
        local.ShrinkRemovedTlc();
      } else {
        remote.ShrinkRemovedTlc();
      }
    }
  }
}
