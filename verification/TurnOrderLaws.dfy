/** What the derived turn order promises. */
module TurnOrderLaws {
  import opened Seqs
  import opened TurnOrder

  // ---------------------------------------------------------------- the sort is the stable one

  lemma {:induction false} NameLessTotal(s: string, t: string)
    ensures NameLess(s, t) ==> !NameLess(t, s)
    ensures s != t ==> NameLess(s, t) || NameLess(t, s)
    ensures s == t ==> !NameLess(s, t)
  {
    if s != [] && t != [] && s[0] == t[0] {
      NameLessTotal(s[1..], t[1..]);
      if s[1..] == t[1..] {
        assert s == [s[0]] + s[1..] == [t[0]] + t[1..] == t;
      }
    }
  }

  lemma {:induction false} NameLessTransitive(s: string, t: string, u: string)
    requires NameLess(s, t) && NameLess(t, u)
    ensures NameLess(s, u)
  {
    if s != [] && s[0] == t[0] && t[0] == u[0] {
      NameLessTransitive(s[1..], t[1..], u[1..]);
    }
  }

  /** Less is a strict weak order. */
  lemma LessWeakOrder(p: Participant, q: Participant, r: Participant)
    ensures Less(p, q) ==> !Less(q, p)
    ensures !Less(q, p) && !Less(r, q) ==> !Less(r, p)
  {
    NameLessTotal(p.name, q.name);
    NameLessTotal(q.name, r.name);
    NameLessTotal(r.name, p.name);
    if NameLess(r.name, p.name) && NameLess(p.name, q.name) {
      NameLessTransitive(r.name, p.name, q.name);
    }
    if NameLess(q.name, r.name) && NameLess(r.name, p.name) {
      NameLessTransitive(q.name, r.name, p.name);
    }
  }

  lemma {:induction false} InsertElems(s: seq<Participant>, x: Participant)
    ensures forall p :: p in Insert(s, x) <==> p in s || p == x
  {
    if s != [] {
      assert s == Init(s) + [Last(s)];
      if Less(x, Last(s)) {
        InsertElems(Init(s), x);
      }
    }
  }

  lemma {:induction false} InsertSorted(s: seq<Participant>, x: Participant)
    requires Sorted(s)
    ensures Sorted(Insert(s, x))
  {
    if s != [] {
      var t, l := Init(s), Last(s);
      if !Less(x, l) {
        forall i | 0 <= i < |s| ensures !Less(x, s[i]) {
          LessWeakOrder(s[i], l, x);
        }
      } else {
        InsertSorted(t, x);
        var r := Insert(t, x);
        forall i | 0 <= i < |r| ensures !Less(l, r[i]) {
          InsertElems(t, x);
          assert r[i] in r;
          LessWeakOrder(x, l, l);
        }
        assert Insert(s, x) == r + [l];
      }
    }
  }

  lemma {:induction false} InsertTies(s: seq<Participant>, x: Participant, y: Participant)
    ensures Ties(Insert(s, x), y) == Ties(s, y) + Ties([x], y)
  {
    if s == [] || !Less(x, Last(s)) {
      assert Init(s + [x]) == s;
      assert Init([x]) == [];
    } else {
      var t, l := Init(s), Last(s);
      InsertTies(t, x, y);
      assert Init(Insert(t, x) + [l]) == Insert(t, x);
      assert Init([x]) == [];
      LessWeakOrder(y, l, x);
      LessWeakOrder(x, y, l);
      LessWeakOrder(l, y, x);
    }
  }

  /** The sort returns a sorted list in which tied participants keep their original order. */
  lemma {:induction false} SortIsStable(s: seq<Participant>)
    ensures Sorted(StableSort(s))
    ensures forall x :: Ties(StableSort(s), x) == Ties(s, x)
  {
    if s != [] {
      SortIsStable(Init(s));
      InsertSorted(StableSort(Init(s)), Last(s));
      forall x ensures Ties(StableSort(s), x) == Ties(s, x) {
        InsertTies(StableSort(Init(s)), Last(s), x);
        assert Init([Last(s)]) == [];
      }
    }
  }

  lemma {:induction false} TiesIn(s: seq<Participant>, x: Participant)
    ensures forall p :: p in Ties(s, x) <==> p in s && !Less(p, x) && !Less(x, p)
  {
    if s != [] {
      assert s == Init(s) + [Last(s)];
      TiesIn(Init(s), x);
    }
  }

  lemma TiesEnd(s: seq<Participant>, x: Participant)
    requires s != [] && !Less(Last(s), x) && !Less(x, Last(s))
    ensures Ties(s, x) == Ties(Init(s), x) + [Last(s)]
  {
  }

  /** The last elements of two sorted lists with the same ties are the same. */
  lemma LastAgrees(s: seq<Participant>, t: seq<Participant>)
    requires s != [] && t != [] && Sorted(s) && Sorted(t)
    requires forall x :: Ties(s, x) == Ties(t, x)
    ensures Last(s) == Last(t)
  {
    var a, b := Last(s), Last(t);
    LessWeakOrder(a, a, a);
    LessWeakOrder(b, b, b);
    TiesIn(s, b);
    TiesIn(t, a);
    TiesEnd(s, a);
    TiesEnd(t, b);
    assert Last(Ties(t, a)) == a && a in Ties(t, a);
    assert Last(Ties(s, b)) == b && b in Ties(s, b);
    assert !Less(b, a) && !Less(a, b);
    TiesEnd(t, a);
  }

  /** ... and it is the only such list: stability and sortedness determine the result. */
  lemma {:induction false} StableSortUnique(s: seq<Participant>, t: seq<Participant>)
    requires Sorted(s) && Sorted(t)
    requires forall x :: Ties(s, x) == Ties(t, x)
    ensures s == t
  {
    if s != [] && t != [] {
      LastAgrees(s, t);
      forall x ensures Ties(Init(s), x) == Ties(Init(t), x) {
        var k := if Less(Last(s), x) || Less(x, Last(s)) then [] else [Last(s)];
        var u, v := Ties(Init(s), x), Ties(Init(t), x);
        assert Ties(s, x) == u + k && Ties(t, x) == v + k;
        assert |u| == |v| && u == (u + k)[..|u|] && v == (v + k)[..|v|];
      }
      StableSortUnique(Init(s), Init(t));
      assert s == Init(s) + [Last(s)] && t == Init(t) + [Last(t)];
    } else if s != [] {
      LessWeakOrder(Last(s), Last(s), Last(s));
      TiesEnd(s, Last(s));
    } else if t != [] {
      LessWeakOrder(Last(t), Last(t), Last(t));
      TiesEnd(t, Last(t));
    }
  }

  /** What ties with x, as a set. */
  function Tied(s: seq<Participant>, x: Participant): set<Participant> {
    set p | p in s && !Less(p, x) && !Less(x, p)
  }

  lemma {:induction false} TiesAreKept(s: seq<Participant>, x: Participant, keep: set<Participant>)
    requires forall p :: p in s ==> (p in keep <==> !Less(p, x) && !Less(x, p))
    ensures Ties(s, x) == Keep(s, keep)
  {
    if s != [] {
      assert s == Init(s) + [Last(s)];
      TiesAreKept(Init(s), x, keep);
    }
  }

  /** The sort puts some u before some v exactly if u beats v, or ties with it and came before it. */
  lemma SortPutsBefore(s: seq<Participant>, u: Participant, v: Participant)
    requires u != v
    ensures Before(StableSort(s), u, v) <==> u in s && v in s && (Less(u, v) || (!Less(v, u) && Before(s, u, v)))
  {
    var t := StableSort(s);
    SortIsStable(s);
    SortElems(s);
    LessWeakOrder(u, v, u);
    LessWeakOrder(u, u, u);
    if u in s && v in s {
      var a :| 0 <= a < |t| && t[a] == u;
      var b :| 0 <= b < |t| && t[b] == v;
      if Less(u, v) {
        assert a < b;
      } else if !Less(v, u) {
        var keep := Tied(s, u);
        TiesAreKept(s, u, keep);
        TiesAreKept(t, u, keep);
        if Before(t, u, v) {
          KeepBefore(t, keep, u, v);
          BeforeInKeep(s, keep, u, v);
        } else if Before(s, u, v) {
          KeepBefore(s, keep, u, v);
          BeforeInKeep(t, keep, u, v);
        }
      }
    }
  }

  /** Nobody without a roll stands before somebody with one. */
  predicate UnrolledLast(s: seq<Participant>) {
    forall i, j :: 0 <= i < j < |s| ==> !(s[i].initiative.None? && s[j].initiative.Some?)
  }

  /** The roll is above the sentinel, or equal to it with a smaller name, or tied and not listed later. */
  predicate BeatsSentinel(s: seq<Participant>, rolled: Participant, unrolled: Participant)
    requires rolled.initiative.Some?
  {
    || rolled.initiative.value > -999
    || (rolled.initiative.value == -999
        && (NameLess(rolled.name, unrolled.name) || (rolled.name == unrolled.name && !Before(s, unrolled, rolled))))
  }

  /** "Unrolled participants sort last" is what the source's comment says. It holds of a list exactly when
      every roll beats the sentinel against everybody who has not rolled. */
  lemma UnrolledSortsLast(s: seq<Participant>)
    ensures UnrolledLast(StableSort(s)) <==>
      forall p, q :: p in s && q in s && p.initiative.Some? && q.initiative.None? ==> BeatsSentinel(s, p, q)
  {
    var t := StableSort(s);
    forall p: Participant, q: Participant | p.initiative.Some? && q.initiative.None?
      ensures Before(t, q, p) <==> p in s && q in s && !BeatsSentinel(s, p, q)
    {
      SortPutsBefore(s, q, p);
      NameLessTotal(p.name, q.name);
    }
    if UnrolledLast(t) {
      forall p, q | p in s && q in s && p.initiative.Some? && q.initiative.None? ensures BeatsSentinel(s, p, q) {
        assert !Before(t, q, p);
      }
    } else {
      var i, j :| 0 <= i < j < |t| && t[i].initiative.None? && t[j].initiative.Some?;
      assert Before(t, t[i], t[j]);
    }
  }

  // ---------------------------------------------------------------- who is in the order

  /** Ids of the participants that take turns. */
  function CycleIds(ps: seq<Participant>): set<string> {
    set p | p in ps && InCycle(p) :: p.id
  }

  lemma {:induction false} SortElems(s: seq<Participant>)
    ensures forall p :: p in StableSort(s) <==> p in s
  {
    if s != [] {
      assert s == Init(s) + [Last(s)];
      SortElems(Init(s));
      InsertElems(StableSort(Init(s)), Last(s));
    }
  }

  lemma {:induction false} SubmittedElems(ps: seq<Participant>)
    ensures forall p :: p in Submitted(ps) <==> p in ps && InCycle(p)
  {
    if ps != [] {
      assert ps == Init(ps) + [Last(ps)];
      SubmittedElems(Init(ps));
    }
  }

  lemma InIds(ps: seq<Participant>, id: string)
    ensures id in Ids(ps) <==> exists p :: p in ps && p.id == id
  {
    if id in Ids(ps) {
      var i :| 0 <= i < |ps| && Ids(ps)[i] == id;
      assert ps[i] in ps;
    }
    if p :| p in ps && p.id == id {
      var i :| 0 <= i < |ps| && ps[i] == p;
      assert Ids(ps)[i] == id;
    }
  }

  lemma SortedIdsElems(ps: seq<Participant>)
    ensures Elems(SortedIds(ps)) == CycleIds(ps)
  {
    forall id ensures id in SortedIds(ps) <==> id in CycleIds(ps) {
      InIds(StableSort(Submitted(ps)), id);
      SortElems(Submitted(ps));
      SubmittedElems(ps);
    }
  }

  lemma {:induction false} InsertIds(s: seq<Participant>, x: Participant)
    requires NoDup(Ids(s)) && x.id !in Ids(s)
    ensures NoDup(Ids(Insert(s, x)))
  {
    if s == [] || !Less(x, Last(s)) {
      assert Ids(Insert(s, x)) == Ids(s) + [x.id];
      NoDupSnoc(Ids(s), x.id);
    } else {
      var t, l := Init(s), Last(s);
      assert Ids(s) == Ids(t) + [l.id];
      NoDupSnoc(Ids(t), l.id);
      InsertIds(t, x);
      InsertElems(t, x);
      InIds(Insert(t, x), l.id);
      InIds(t, l.id);
      assert Ids(Insert(s, x)) == Ids(Insert(t, x)) + [l.id];
      NoDupSnoc(Ids(Insert(t, x)), l.id);
    }
  }

  lemma {:induction false} SortIds(s: seq<Participant>)
    requires NoDup(Ids(s))
    ensures NoDup(Ids(StableSort(s)))
  {
    if s != [] {
      var t, l := Init(s), Last(s);
      assert Ids(s) == Ids(t) + [l.id];
      NoDupSnoc(Ids(t), l.id);
      SortIds(t);
      SortElems(t);
      InIds(t, l.id);
      InIds(StableSort(t), l.id);
      InsertIds(StableSort(t), l);
    }
  }

  lemma {:induction false} SubmittedIds(ps: seq<Participant>)
    requires NoDup(Ids(ps))
    ensures NoDup(Ids(Submitted(ps)))
  {
    if ps != [] {
      var t, l := Init(ps), Last(ps);
      assert Ids(ps) == Ids(t) + [l.id];
      NoDupSnoc(Ids(t), l.id);
      SubmittedIds(t);
      if InCycle(l) {
        SubmittedElems(t);
        InIds(t, l.id);
        InIds(Submitted(t), l.id);
        assert Ids(Submitted(ps)) == Ids(Submitted(t)) + [l.id];
        NoDupSnoc(Ids(Submitted(t)), l.id);
      } else {
        assert Submitted(ps) == Submitted(t);
      }
    }
  }

  lemma SortedIdsNoDup(ps: seq<Participant>)
    requires NoDup(Ids(ps))
    ensures NoDup(SortedIds(ps))
  {
    SubmittedIds(ps);
    SortIds(Submitted(ps));
  }

  // ---------------------------------------------------------------- the stored order

  predicate DistinctIds(ps: seq<Participant>) {
    NoDup(Ids(ps)) && "" !in Ids(ps)
  }

  /** What every stored open call satisfies. */
  predicate Valid(c: Call) {
    && c.status == Open
    && DistinctIds(c.participants)
    && NoDup(c.order)
    && Elems(c.order) == CycleIds(c.participants)
    && c.current == Head(c.order)
    && (!c.started ==> c.order == SortedIds(c.participants))
  }

  lemma MergeElems(frozen: seq<string>, sorted: seq<string>)
    ensures Elems(Merge(frozen, sorted)) == Elems(sorted)
    ensures NoDup(frozen) && NoDup(sorted) ==> NoDup(Merge(frozen, sorted))
  {
    if NoDup(frozen) && NoDup(sorted) {
      KeepNoDup(frozen, Elems(sorted));
      WithoutNoDup(sorted, Elems(frozen));
      NoDupConcat(Keep(frozen, Elems(sorted)), Without(sorted, Elems(frozen)));
    }
  }

  /** Merging an order with a list of the same elements gives the order back. */
  lemma MergeSame(frozen: seq<string>, sorted: seq<string>)
    requires Elems(frozen) == Elems(sorted)
    ensures Merge(frozen, sorted) == frozen
  {
    assert forall x :: x in frozen ==> x in Elems(frozen);
    assert forall x :: x in sorted ==> x in Elems(sorted);
    KeepAll(frozen, Elems(sorted));
    Exhausted(Without(sorted, Elems(frozen)));
  }

  lemma RotateElems(ids: seq<string>, active: string)
    ensures Elems(Rotate(ids, active)) == Elems(ids)
    ensures |Rotate(ids, active)| == |ids|
    ensures NoDup(ids) ==> NoDup(Rotate(ids, active))
    ensures active != "" && active in ids ==> Rotate(ids, active)[0] == active
  {
    if active != "" && active in ids {
      var k := IndexOf(ids, active);
      assert ids == ids[..k] + ids[k..];
      if NoDup(ids) {
        NoDupConcat(ids[k..], ids[..k]);
      }
    }
  }

  /** Whatever a mutation left behind, synchronising restores the invariant. */
  lemma SyncRestores(c: Call)
    requires c.status == Open && DistinctIds(c.participants) && NoDup(c.order)
    ensures Valid(Sync(c))
  {
    var sorted := SortedIds(c.participants);
    SortedIdsElems(c.participants);
    SortedIdsNoDup(c.participants);
    MergeElems(c.order, sorted);
    RotateElems(Merge(c.order, sorted), c.current);
  }

  /** Synchronising twice is synchronising once, for any call at all. */
  lemma SyncIdempotent(c: Call)
    ensures Sync(Sync(c)) == Sync(c)
  {
    if c.status == Open && c.started {
      var sorted := SortedIds(c.participants);
      var o := Order(c);
      MergeElems(c.order, sorted);
      RotateElems(Merge(c.order, sorted), c.current);
      MergeSame(o, sorted);
      HeadStays(o);
    }
  }

  /** The order of a valid call is what would be derived from it again. */
  lemma ValidIsSynced(c: Call)
    requires Valid(c)
    ensures Order(c) == c.order
  {
    if c.started {
      SortedIdsElems(c.participants);
      MergeSame(c.order, SortedIds(c.participants));
      HeadStays(c.order);
    }
  }

  lemma HeadStays(ids: seq<string>)
    ensures Rotate(ids, Head(ids)) == ids
  {
    if ids != [] {
      assert IndexOf(ids, ids[0]) == 0;
      assert ids[0..] + ids[..0] == ids;
    }
  }

  /** Once the cycle runs, a change of participants keeps the survivors in their order, drops those
      who left and appends those who joined. The current turn needs no rotation: it either heads
      the survivors or is gone. */
  lemma StartedSync(c: Call, d: Call)
    requires Valid(c) && c.started
    requires d.status == Open && d.started
    requires d.order == c.order || exists gone :: gone !in CycleIds(d.participants) && d.order == Without(c.order, {gone})
    requires d.current == c.current || (d.current == "" && c.current !in CycleIds(d.participants))
    ensures Order(d) == Keep(c.order, CycleIds(d.participants)) + Without(SortedIds(d.participants), Elems(c.order))
  {
    var sorted, cyc := SortedIds(d.participants), CycleIds(d.participants);
    SortedIdsElems(d.participants);
    if d.order != c.order {
      var gone :| gone !in cyc && d.order == Without(c.order, {gone});
      KeepWithout(c.order, {gone}, cyc);
      WithoutCong(sorted, Elems(d.order), Elems(c.order));
    }
    var kept, late := Keep(c.order, cyc), Without(sorted, Elems(c.order));
    assert Merge(d.order, sorted) == kept + late;
    if d.current != "" && d.current in kept + late {
      assert c.order[0] == c.current && c.current in c.order;
      assert c.current in kept;
      HeadKept(c.order, cyc);
      HeadStays(kept + late);
    }
  }

  lemma {:induction false} HeadKept(s: seq<string>, keep: set<string>)
    requires s != [] && s[0] in keep
    ensures Keep(s, keep) != [] && Keep(s, keep)[0] == s[0]
  {
    if |s| > 1 {
      HeadKept(Init(s), keep);
    }
  }
}
