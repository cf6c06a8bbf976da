/** The ordered map `BTreeMap<TLCId, AddTlcInfo>` that the channel uses to
    collect TLCs in id order, as a sequence sorted strictly by id; and
    `filter_add_tlcs`, which collects the live additions of a list into it. */
module TlcMap {
  import opened TlcTypes

  /** Strictly ascending ids: the map's iteration order, one entry per key. */
  predicate Sorted(m: seq<AddTlcInfo>)
  {
    forall i, j :: 0 <= i < j < |m| ==> IdLess(m[i].tlcId, m[j].tlcId)
  }

  function Lookup(m: seq<AddTlcInfo>, k: TLCId): (r: Option<AddTlcInfo>)
    ensures r.Some? ==> r.value in m && r.value.tlcId == k
    ensures r.None? ==> forall i :: 0 <= i < |m| ==> m[i].tlcId != k
  {
    if m == [] then None
    else if m[0].tlcId == k then Some(m[0])
    else Lookup(m[1..], k)
  }

  predicate ContainsKey(m: seq<AddTlcInfo>, k: TLCId)
  {
    Lookup(m, k).Some?
  }

  /** `BTreeMap::insert`: the entry for `v`'s id becomes `v`, replacing any
      older one; every other key keeps its value. */
  function Insert(m: seq<AddTlcInfo>, v: AddTlcInfo): (r: seq<AddTlcInfo>)
    requires Sorted(m)
    ensures Sorted(r)
    ensures forall k :: Lookup(r, k) == if k == v.tlcId then Some(v) else Lookup(m, k)
    ensures forall x :: x in r ==> x == v || x in m
  {
    if m == [] then [v]
    else if IdLess(v.tlcId, m[0].tlcId) then
      assert forall j :: 0 < j < |m| ==> IdLess(m[0].tlcId, m[j].tlcId);
      [v] + m
    else if v.tlcId == m[0].tlcId then
      [v] + m[1..]
    else
      var rest := Insert(m[1..], v);
      assert forall x :: x in rest ==> IdLess(m[0].tlcId, x.tlcId) by {
        forall x | x in rest ensures IdLess(m[0].tlcId, x.tlcId) {
          if x != v {
            var j :| 0 <= j < |m[1..]| && m[1..][j] == x;
            assert m[j + 1] == x;
          }
        }
      }
      [m[0]] + rest
  }

  /** `BTreeMap::remove`: the key is gone, every other key keeps its value. */
  function RemoveKey(m: seq<AddTlcInfo>, k: TLCId): (r: seq<AddTlcInfo>)
    requires Sorted(m)
    ensures Sorted(r)
    ensures forall j :: Lookup(r, j) == if j == k then None else Lookup(m, j)
    ensures forall x :: x in r ==> x in m
  {
    if m == [] then []
    else if m[0].tlcId == k then
      assert forall i :: 1 <= i < |m| ==> IdLess(m[0].tlcId, m[i].tlcId);
      m[1..]
    else
      var rest := RemoveKey(m[1..], k);
      assert forall x :: x in rest ==> IdLess(m[0].tlcId, x.tlcId) by {
        forall x | x in rest ensures IdLess(m[0].tlcId, x.tlcId) {
          var j :| 0 <= j < |m[1..]| && m[1..][j] == x;
          assert m[j + 1] == x;
        }
      }
      [m[0]] + rest
  }

  /** An entry of a pending list that `filter_add_tlcs` keeps: an addition
      whose `removed_at` is unset, with the given id. */
  predicate LiveAddOf(t: TlcKind, k: TLCId)
  {
    t.AddTlc? && t.add.removedAt.None? && t.add.tlcId == k
  }

  /** `TlcState::filter_add_tlcs`: the additions of `tlcs` that are not
      marked removed, collected into the ordered map (a later entry with the
      same id replaces an earlier one). */
  function FilterAddTlcs(tlcs: seq<TlcKind>): (m: seq<AddTlcInfo>)
    ensures Sorted(m)
  {
    if tlcs == [] then []
    else
      var prev := FilterAddTlcs(tlcs[..|tlcs| - 1]);
      var t := tlcs[|tlcs| - 1];
      if t.AddTlc? && t.add.removedAt.None? then Insert(prev, t.add) else prev
  }

  /** What `filter_add_tlcs` yields for an id: the last live addition of
      that id, or nothing when the list holds none. */
  lemma {:induction false} FilterAddTlcsLookup(tlcs: seq<TlcKind>, k: TLCId)
    ensures Lookup(FilterAddTlcs(tlcs), k).None? <==>
      forall i :: 0 <= i < |tlcs| ==> !LiveAddOf(tlcs[i], k)
    ensures Lookup(FilterAddTlcs(tlcs), k).Some? ==>
      exists i :: 0 <= i < |tlcs| && LiveAddOf(tlcs[i], k)
        && tlcs[i].add == Lookup(FilterAddTlcs(tlcs), k).value
        && forall j :: i < j < |tlcs| ==> !LiveAddOf(tlcs[j], k)
  {
    if tlcs != [] {
      var n := |tlcs| - 1;
      var front := tlcs[..n];
      var prev := FilterAddTlcs(front);
      var t := tlcs[n];
      FilterAddTlcsLookup(front, k);
      assert forall i :: 0 <= i < n ==> front[i] == tlcs[i];
      if LiveAddOf(t, k) {
        assert FilterAddTlcs(tlcs) == Insert(prev, t.add);
        assert Lookup(FilterAddTlcs(tlcs), k) == Some(t.add);
        assert LiveAddOf(tlcs[n], k) && tlcs[n].add == t.add;
      } else {
        assert Lookup(FilterAddTlcs(tlcs), k) == Lookup(prev, k);
        if Lookup(prev, k).Some? {
          var i :| 0 <= i < n && LiveAddOf(front[i], k)
            && front[i].add == Lookup(prev, k).value
            && forall j :: i < j < n ==> !LiveAddOf(front[j], k);
          assert LiveAddOf(tlcs[i], k) && tlcs[i].add == Lookup(prev, k).value;
          NoLaterLiveAdd(tlcs, front, i, k);
        }
      }
    }
  }

  /** If no live addition of `k` follows position `i` in the list without
      its last entry, and the last entry is not one either, then none
      follows `i` in the whole list. */
  lemma NoLaterLiveAdd(tlcs: seq<TlcKind>, front: seq<TlcKind>, i: nat, k: TLCId)
    requires |tlcs| > 0 && front == tlcs[..|tlcs| - 1] && i < |front|
    requires !LiveAddOf(tlcs[|tlcs| - 1], k)
    requires forall j :: i < j < |front| ==> !LiveAddOf(front[j], k)
    ensures forall j :: i < j < |tlcs| ==> !LiveAddOf(tlcs[j], k)
  {
    forall j | i < j < |front| ensures !LiveAddOf(tlcs[j], k) {
      assert front[j] == tlcs[j];
    }
  }

  /** Every entry of `filter_add_tlcs`'s result is a live addition of the
      input. */
  lemma {:induction false} FilterAddTlcsFrom(tlcs: seq<TlcKind>, x: AddTlcInfo)
    requires x in FilterAddTlcs(tlcs)
    ensures AddTlc(x) in tlcs && x.removedAt.None?
  {
    var n := |tlcs| - 1;
    var front := tlcs[..n];
    var t := tlcs[n];
    if !(t.AddTlc? && t.add.removedAt.None? && x == t.add) {
      FilterAddTlcsFrom(front, x);
      assert AddTlc(x) in front;
    }
  }
}
