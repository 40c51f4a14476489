/**
 Reads of sets of entries, and when parts of a set may be replaced.
 */
module ReadSets {
  import opened Keys

  /** Entries whose keys tell them apart, as when every write has its own sequence number. */
  ghost predicate Proper(es: set<Entry>) {
    && (forall e :: e in es ==> ValidKind(e.key.kind))
    && forall e, f :: e in es && f in es && e.key == f.key ==> e == f
  }

  /** Both sets answer every read at `s` alike. */
  ghost predicate SameReads(a: set<Entry>, b: set<Entry>, s: nat) {
    forall k, r :: Reads(a, k, s, r) <==> Reads(b, k, s, r)
  }

  /** Every read of a finite set has an answer. */
  lemma {:induction false} ReadExists(es: set<Entry>, k: UserKey, s: nat) returns (r: Option<Entry>)
    requires Proper(es)
    ensures Reads(es, k, s, r)
    decreases |es|
  {
    if es == {} {
      r := None;
    } else {
      var e :| e in es;
      var q := ReadExists(es - {e}, k, s);
      assert es == (es - {e}) + {e};
      if !VisibleAt(e, k, s) {
        r := q;
      } else if q.None? || Less(e.key, q.value.key) {
        r := Some(e);
      } else {
        r := q;
        CompareIsTotalOrder(e.key, q.value.key, e.key);
      }
    }
  }

  /** Replacing a part by one that reads alike changes no read of the whole. */
  lemma {:induction false} ReplacePart(a: set<Entry>, b: set<Entry>, rest: set<Entry>, s: nat)
    requires Proper(a) && SameReads(a, b, s)
    ensures SameReads(a + rest, b + rest, s)
  {
    forall k, r
      ensures Reads(a + rest, k, s, r) <==> Reads(b + rest, k, s, r)
    {
      var q := ReadExists(a, k, s);
      assert Reads(b, k, s, q);
      ReplaceOne(a, b, rest, k, s, q, r);
      ReplaceOne(b, a, rest, k, s, q, r);
    }
  }

  lemma {:induction false} ReplaceOne(a: set<Entry>, b: set<Entry>, rest: set<Entry>, k: UserKey, s: nat,
                                      q: Option<Entry>, r: Option<Entry>)
    requires Reads(a, k, s, q) && Reads(b, k, s, q)
    ensures Reads(a + rest, k, s, r) ==> Reads(b + rest, k, s, r)
  {
    if Reads(a + rest, k, s, r) && r.Some? {
      assert q.Some? ==> q.value in a + rest;
      assert r.value in a ==> q == r;
      forall e | e in b && VisibleAt(e, k, s)
        ensures e == r.value || Less(r.value.key, e.key)
      {
        assert e == q.value || Less(q.value.key, e.key);
      }
    }
  }

  /** Once all sequence numbers are below `s`, reads no longer depend on it. */
  lemma {:induction false} LatestReads(a: set<Entry>, s: nat, t: nat, k: UserKey, r: Option<Entry>)
    requires forall e :: e in a ==> e.key.seqno <= s && e.key.seqno <= t
    ensures Reads(a, k, s, r) <==> Reads(a, k, t, r)
  {
    assert forall e :: e in a ==> (VisibleAt(e, k, s) <==> VisibleAt(e, k, t));
  }
}
