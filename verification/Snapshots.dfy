/**
 The list of live snapshots, and what it protects during a compaction.
 */
module Snapshots {
  import opened Keys
  import Merge

  class Snapshot {
    var prev: Snapshot
    var next: Snapshot
    const sequence: nat

    /** A fresh node starts as a ring of one. */
    constructor (s: nat)
      ensures sequence == s && prev == this && next == this
    {
      sequence := s;
      prev := this;
      next := this;
    }
  }

  class SnapshotList {
    const head: Snapshot
    ghost var ring: seq<Snapshot>       // the head, then the live snapshots from oldest to newest

    ghost predicate Valid()
      reads this, ring
    {
      |ring| > 0 && ring[0] == head && Ordered(ring) && Linked(ring)
    }

    /** Distinct nodes, the snapshots among them from oldest to newest. */
    static ghost predicate Ordered(r: seq<Snapshot>) {
      && (forall i, j :: 0 <= i < j < |r| ==> r[i] != r[j])
      && (forall i, j :: 0 < i < j < |r| ==> r[i].sequence <= r[j].sequence)
    }

    /** Each node of the ring points to its neighbours, and the ends to each other. */
    static ghost predicate Linked(r: seq<Snapshot>)
      reads r
      requires |r| > 0
    {
      && r[|r| - 1].next == r[0] && r[0].prev == r[|r| - 1]
      && forall i, j :: 0 <= i < |r| && 0 <= j < |r| && j == i + 1 ==> r[i].next == r[j] && r[j].prev == r[i]
    }

    /** The sequence numbers of the live snapshots, oldest first. */
    ghost function Live(): seq<nat>
      reads this, ring
      requires Valid()
    {
      Sequences(ring)
    }

    static function Sequences(r: seq<Snapshot>): seq<nat>
      requires |r| > 0
    {
      seq(|r| - 1, i requires 0 <= i < |r| - 1 => r[i + 1].sequence)
    }

    static lemma {:induction false} Without(r: seq<Snapshot>, at: nat)
      requires 0 < at < |r| && Ordered(r)
      ensures Ordered(r[..at] + r[at + 1..])
      ensures Sequences(r[..at] + r[at + 1..]) == Sequences(r)[..at - 1] + Sequences(r)[at..]
    {
    }

    constructor ()
      ensures Valid() && Live() == [] && fresh(head) && ring == [head]
    {
      var h := new Snapshot(0);
      head := h;
      ring := [h];
    }

    predicate Empty()
      reads this, ring, head
      requires Valid()
      ensures Empty() <==> Live() == []
    {
      assert |ring| > 1 ==> ring[0].next == ring[1];
      head.next == head
    }

    method Oldest() returns (s: Snapshot)
      requires Valid() && Live() != []
      ensures s in ring && s != head && s.sequence == Live()[0]
      ensures forall i :: 0 <= i < |Live()| ==> s.sequence <= Live()[i]
    {
      s := head.next;
      assert s == ring[1];
    }

    method New(sequence: nat) returns (s: Snapshot)
      requires Valid()
      requires Live() == [] || Live()[|Live()| - 1] <= sequence
      modifies this, ring
      ensures Valid() && fresh(s) && ring == old(ring) + [s]
      ensures Live() == old(Live()) + [sequence]
    {
      s := new Snapshot(sequence);
      ghost var r, m := ring, |ring|;
      assert head.prev == r[m - 1];
      s.next := head;
      s.prev := head.prev;
      s.prev.next := s;
      s.next.prev := s;
      ring := r + [s];
      assert Linked(ring) by {
        assert forall i :: 0 <= i < m - 1 ==> r[i] != r[m - 1];
        assert forall i :: 0 < i < m ==> r[i] != r[0];
      }
    }

    method Delete(s: Snapshot, ghost at: nat)
      requires Valid() && 0 < at < |ring| && ring[at] == s
      modifies this, ring
      ensures Valid() && ring == old(ring)[..at] + old(ring)[at + 1..]
      ensures Live() == old(Live())[..at - 1] + old(Live())[at..]
    {
      Without(ring, at);
      ghost var r, m := ring, |ring|;
      ghost var succ := if at + 1 < m then at + 1 else 0;
      assert s.prev == r[at - 1] by {
        assert r[at].prev == r[at - 1];
      }
      assert s.next == r[succ];
      s.prev.next := s.next;
      s.next.prev := s.prev;
      ring := r[..at] + r[at + 1..];
      assert Linked(ring) by {
        assert forall i :: 0 <= i < m && i != at - 1 ==> r[i] != r[at - 1];
        assert forall i :: 0 <= i < m && i != succ ==> r[i] != r[succ];
      }
    }
  
    /** The sequence below which a compaction may forget: that of the oldest live snapshot, or the
        last sequence when there is none. */
    method SmallestSnapshot(lastSequence: nat) returns (t: nat)
      requires Valid()
      ensures forall i :: 0 <= i < |Live()| ==> t <= Live()[i]
      ensures Live() == [] ==> t == lastSequence
      ensures Live() != [] ==> t in Live()
    {
      if Empty() {
        t := lastSequence;
      } else {
        var s := Oldest();
        t := s.sequence;
        assert Live()[0] == t;
      }
    }

    /** A compaction on the compute node leaves every read made through a live snapshot, and every
        read at the last sequence, exactly as it was. */
    method CompactUnderSnapshots(es: seq<Entry>, lastSequence: nat, size: seq<Entry> -> nat, cap: nat)
        returns (outs: seq<Merge.Table>)
      requires Valid() && Sorted(es)
      requires lastSequence < Merge.MAX_SEQUENCE && forall i :: 0 <= i < |Live()| ==> Live()[i] <= lastSequence
      ensures Merge.RunOf(outs) && Merge.CutBySize(outs, size, cap)
      ensures Merge.AllParse(es) && Merge.OwnNumbers(es) ==>
                forall e :: e in Merge.Concat(outs) ==>
                  exists s :: (s >= lastSequence || exists t :: t in Live() && t <= s)
                              && Reads(Entries(es), e.key.user, s, Some(e))
      ensures forall s, k, r :: s in Live() || s == lastSequence ==>
                (Reads(Entries(es), k, s, r) <==> Reads(Entries(Merge.Concat(outs)), k, s, r))
    {
      var t := SmallestSnapshot(lastSequence);
      outs := Merge.CompactOnCompute(es, t, size, cap);
      forall s, k, r | s in Live() || s == lastSequence
        ensures Reads(Entries(es), k, s, r) <==> Reads(Entries(Merge.Concat(outs)), k, s, r)
      {
        Merge.MergePreservesReads(es, Some(t), k, s, r);
      }
    }
  }
}
