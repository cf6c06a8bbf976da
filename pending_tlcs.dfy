/** `PendingTlcs`: one side's list of TLC operations, split by
    `committedIndex` into a committed prefix and a staging suffix. */
module Pending {
  import opened TlcTypes
  import opened SeqUtil

  /** What `drop_remove_tlc` keeps: everything but removals of `id`. */
  function KeepUnlessRemoveOf(id: TLCId): TlcKind -> bool
  {
    (t: TlcKind) => !(t.RemoveTlc? && t.TlcId() == id)
  }

  /** What `shrink_removed_tlc` keeps: everything but additions whose
      `removed_at` is set. */
  function KeepUnlessRemovedAdd(): TlcKind -> bool
  {
    (t: TlcKind) => !(t.AddTlc? && t.add.removedAt.Some?)
  }

  /** `get_mut`: the position of the first addition with id `id`. */
  function FirstAddIndex(s: seq<TlcKind>, id: TLCId): (r: Option<nat>)
    ensures r.Some? ==> r.value < |s| && s[r.value].AddTlc? && s[r.value].TlcId() == id
    ensures r.Some? ==> forall j :: 0 <= j < r.value ==> !(s[j].AddTlc? && s[j].TlcId() == id)
    ensures r.None? ==> forall j :: 0 <= j < |s| ==> !(s[j].AddTlc? && s[j].TlcId() == id)
  {
    if s == [] then None
    else if s[0].AddTlc? && s[0].TlcId() == id then Some(0)
    else match FirstAddIndex(s[1..], id)
      case None => None
      case Some(i) => Some(i + 1)
  }

  /** The additions `commit_tlcs` makes: each of `ts` in turn is appended
      unless an entry of the same kind and id is already there. */
  function AppendAbsent(s: seq<TlcKind>, ts: seq<TlcKind>): (r: seq<TlcKind>)
    ensures |s| <= |r| && r[..|s|] == s
    ensures forall i :: 0 <= i < |ts| ==> Present(r, ts[i])
    ensures forall i :: |s| <= i < |r| ==> r[i] in ts
    ensures Unique(s) ==> Unique(r)
    decreases |ts|
  {
    if ts == [] then s
    else
      var next := if Present(s, ts[0]) then s else s + [ts[0]];
      var r := AppendAbsent(next, ts[1..]);
      assert Present(next, ts[0]) by {
        if !Present(s, ts[0]) {
          assert SameEntry(next[|s|], ts[0]);
        }
      }
      assert Present(r, ts[0]) by {
        var k :| 0 <= k < |next| && SameEntry(next[k], ts[0]);
        assert r[k] == next[k];
      }
      assert forall i :: 1 <= i < |ts| ==> Present(r, ts[i]) by {
        forall i | 1 <= i < |ts| ensures Present(r, ts[i]) {
          assert ts[i] == ts[1..][i - 1];
        }
      }
      assert r[..|s|] == next[..|s|];
      r
  }

  /** When none of `ts` is already in `s` and `ts` holds no duplicates,
      `commit_tlcs` appends all of `ts`, in the counterparty's order. */
  lemma {:induction false} AppendAbsentFresh(s: seq<TlcKind>, ts: seq<TlcKind>)
    requires Unique(s + ts)
    ensures AppendAbsent(s, ts) == s + ts
    decreases |ts|
  {
    if ts != [] {
      var u := s + ts;
      assert !Present(s, ts[0]) by {
        forall k | 0 <= k < |s| ensures !SameEntry(s[k], ts[0]) {
          assert u[k] == s[k] && u[|s|] == ts[0];
        }
      }
      assert s + [ts[0]] + ts[1..] == u;
      AppendAbsentFresh(s + [ts[0]], ts[1..]);
    }
  }

  /** Appending an entry that is not yet present keeps the list free of
      duplicate entries. */
  lemma UniqueSnoc(s: seq<TlcKind>, t: TlcKind)
    requires Unique(s) && !Present(s, t)
    ensures Unique(s + [t])
  {
    var r := s + [t];
    forall i, j | 0 <= i < j < |r| ensures !SameEntry(r[i], r[j]) {
      assert r[i] == s[i];
    }
  }

  /** Retaining keeps the list free of duplicate entries. */
  lemma {:induction false} RetainUnique(s: seq<TlcKind>, keep: TlcKind -> bool)
    requires Unique(s)
    ensures Unique(Retain(s, keep))
  {
    if s != [] {
      var rest := Retain(s[1..], keep);
      RetainUnique(s[1..], keep);
      if keep(s[0]) {
        forall j | 0 <= j < |rest| ensures !SameEntry(s[0], rest[j]) {
          var k :| 0 <= k < |s[1..]| && s[1..][k] == rest[j];
          assert s[k + 1] == rest[j];
        }
        var r := [s[0]] + rest;
        forall i, j | 0 <= i < j < |r| ensures !SameEntry(r[i], r[j]) {
          if i > 0 {
            assert r[i] == rest[i - 1] && r[j] == rest[j - 1];
          } else {
            assert r[j] == rest[j - 1];
          }
        }
      }
    }
  }

  /** The list after `get_mut(id)` has stamped `removed_at` on the addition
      at position `i`. */
  function StampRemoved(s: seq<TlcKind>, i: nat, rm: Removal): (r: seq<TlcKind>)
    requires i < |s| && s[i].AddTlc?
    ensures |r| == |s| && forall j :: 0 <= j < |s| ==> SameEntry(r[j], s[j])
    ensures r[i].AddTlc? && r[i].add == s[i].add.(removedAt := Some(rm))
    ensures forall j :: 0 <= j < |s| && j != i ==> r[j] == s[j]
    ensures Unique(s) ==> Unique(r)
  {
    s[i := AddTlc(s[i].add.(removedAt := Some(rm)))]
  }

  class PendingTlcs {
    var tlcs: seq<TlcKind>
    var committedIndex: nat
    var nextTlcId: nat

    /** The committed prefix lies within the list, and `push` and
        `commit_tlcs` never let an entry of the same kind and id in twice. */
    ghost predicate Valid()
      reads this
    {
      committedIndex <= |tlcs| && Unique(tlcs)
    }

    constructor ()
      ensures Valid()
      ensures tlcs == [] && committedIndex == 0 && nextTlcId == 0
    {
      tlcs := [];
      committedIndex := 0;
      nextTlcId := 0;
    }

    method IncrementNextTlcId()
      modifies this`nextTlcId
      ensures nextTlcId == old(nextTlcId) + 1
    {
      nextTlcId := nextTlcId + 1;
    }

    /** The committed prefix. */
    function CommittedTlcs(): (r: seq<TlcKind>)
      reads this
      requires Valid()
      ensures |r| == committedIndex && r <= tlcs
    {
      tlcs[..committedIndex]
    }

    /** The staging suffix: what follows the committed prefix. */
    function StagingTlcs(): (r: seq<TlcKind>)
      reads this
      requires Valid()
      ensures CommittedTlcs() + r == tlcs
    {
      tlcs[committedIndex..]
    }

    /** `is_tlc_present`: is an entry of the same kind and id in the list? */
    method IsTlcPresent(t: TlcKind) returns (b: bool)
      ensures b <==> Present(tlcs, t)
    {
      var i := 0;
      while i < |tlcs|
        invariant 0 <= i <= |tlcs|
        invariant forall j :: 0 <= j < i ==> !SameEntry(tlcs[j], t)
      {
        if SameEntry(tlcs[i], t) {
          return true;
        }
        i := i + 1;
      }
      return false;
    }

    /** `push`: appends a new entry to the staging part; the caller must not
        push an entry whose kind and id are already there. */
    method Push(t: TlcKind)
      requires Valid()
      requires !Present(tlcs, t)
      modifies this`tlcs
      ensures Valid()
      ensures tlcs == old(tlcs) + [t]
    {
      tlcs := tlcs + [t];
    }

    /** `commit_tlcs`: returns the staging entries, merges in the
        counterparty's committed entries that are not yet here, and commits
        everything. */
    method CommitTlcs(committed: seq<TlcKind>) returns (staging: seq<TlcKind>)
      requires Valid()
      modifies this`tlcs, this`committedIndex
      ensures Valid()
      ensures staging == old(StagingTlcs())
      ensures tlcs == AppendAbsent(old(tlcs), committed)
      ensures committedIndex == |tlcs|
    {
      staging := tlcs[committedIndex..];
      var i := 0;
      while i < |committed|
        invariant 0 <= i <= |committed|
        invariant committedIndex <= |tlcs|
        invariant AppendAbsent(tlcs, committed[i..]) == AppendAbsent(old(tlcs), committed)
        invariant Unique(tlcs)
      {
        var present := IsTlcPresent(committed[i]);
        assert committed[i..][1..] == committed[i + 1..];
        if !present {
          UniqueSnoc(tlcs, committed[i]);
          tlcs := tlcs + [committed[i]];
        }
        i := i + 1;
      }
      committedIndex := |tlcs|;
    }

    /** `drop_remove_tlc`: deletes the removals of `id` and commits the rest. */
    method DropRemoveTlc(id: TLCId)
      requires Valid()
      modifies this`tlcs, this`committedIndex
      ensures Valid()
      ensures tlcs == Retain(old(tlcs), KeepUnlessRemoveOf(id))
      ensures committedIndex == |tlcs|
    {
      RetainUnique(tlcs, KeepUnlessRemoveOf(id));
      tlcs := Retain(tlcs, KeepUnlessRemoveOf(id));
      committedIndex := |tlcs|;
    }

    /** `shrink_removed_tlc`: with everything committed, deletes the
        additions marked removed; the committed index becomes the number of
        committed entries that survive. */
    method ShrinkRemovedTlc()
      requires Valid()
      requires committedIndex == |tlcs|
      modifies this`tlcs, this`committedIndex
      ensures Valid()
      ensures tlcs == Retain(old(tlcs), KeepUnlessRemovedAdd())
      ensures committedIndex == |tlcs|
    {
      var newCommittedIndex := |Retain(CommittedTlcs(), KeepUnlessRemovedAdd())|;
      assert CommittedTlcs() == tlcs;
      RetainUnique(tlcs, KeepUnlessRemovedAdd());
      tlcs := Retain(tlcs, KeepUnlessRemovedAdd());
      committedIndex := newCommittedIndex;
    }
  }

  /** `drop_remove_tlc` deletes exactly the removals of `id`: every other
      entry survives, and survivors keep their order across any split of the
      list. */
  lemma DropRemoveTlcExact(s: seq<TlcKind>, id: TLCId, a: seq<TlcKind>, b: seq<TlcKind>)
    requires s == a + b
    ensures forall i :: 0 <= i < |s| ==>
      (s[i] in Retain(s, KeepUnlessRemoveOf(id)) <==> !(s[i].RemoveTlc? && s[i].TlcId() == id))
    ensures Retain(s, KeepUnlessRemoveOf(id))
      == Retain(a, KeepUnlessRemoveOf(id)) + Retain(b, KeepUnlessRemoveOf(id))
  {
    RetainAppend(a, b, KeepUnlessRemoveOf(id));
  }

  /** `shrink_removed_tlc` deletes exactly the additions marked removed:
      every other entry survives, and survivors keep their order across any
      split of the list. */
  lemma ShrinkRemovedTlcExact(s: seq<TlcKind>, a: seq<TlcKind>, b: seq<TlcKind>)
    requires s == a + b
    ensures forall i :: 0 <= i < |s| ==>
      (s[i] in Retain(s, KeepUnlessRemovedAdd()) <==> !(s[i].AddTlc? && s[i].add.removedAt.Some?))
    ensures Retain(s, KeepUnlessRemovedAdd())
      == Retain(a, KeepUnlessRemovedAdd()) + Retain(b, KeepUnlessRemovedAdd())
  {
    RetainAppend(a, b, KeepUnlessRemovedAdd());
  }
}
