/** The shape of the playing-source list, stated over a snapshot of the
    links: the list in order, the arena of live sources, the head pointer,
    and every live source's prev and next pointer as maps. The lemmas say
    what appending at the tail, unlinking one node, creating and deleting a
    source do to that shape; the mixer's methods perform exactly those
    pointer writes. */
module Registry {
  import opened Seqs
  import opened Voice

  /** The predecessor a list position must point to. */
  function Before(P: seq<Source>, i: int): Source?
    requires 0 <= i < |P|
  {
    if i == 0 then null else P[i - 1]
  }

  /** The successor a list position must point to. */
  function After(P: seq<Source>, i: int): Source?
    requires 0 <= i < |P|
  {
    if i + 1 == |P| then null else P[i + 1]
  }

  /** Each listed source's prev is its predecessor in P. The trigger is
      the map lookup, so that the neighbour term Before produces does not
      set off further instances; likewise for NextsMatch. */
  ghost predicate PrevsMatch(P: seq<Source>, prevs: map<Source, Source?>) {
    (forall i :: 0 <= i < |P| ==> P[i] in prevs) &&
    (forall i {:trigger prevs[P[i]]} :: 0 <= i < |P| ==> prevs[P[i]] == Before(P, i))
  }

  /** Each listed source's next is its successor in P. */
  ghost predicate NextsMatch(P: seq<Source>, nexts: map<Source, Source?>) {
    (forall i :: 0 <= i < |P| ==> P[i] in nexts) &&
    (forall i {:trigger nexts[P[i]]} :: 0 <= i < |P| ==> nexts[P[i]] == After(P, i))
  }

  /** Live sources that are not listed have no links. */
  ghost predicate Unlisted(P: seq<Source>, S: set<Source>, prevs: map<Source, Source?>, nexts: map<Source, Source?>) {
    (forall t :: t in S ==> t in prevs && t in nexts) &&
    (forall t {:trigger prevs[t]} :: t in S && t !in P ==> prevs[t] == null) &&
    (forall t {:trigger nexts[t]} :: t in S && t !in P ==> nexts[t] == null)
  }

  /** The links spell out P: each listed source is live,
      the head is the first, each listed source's prev and next are its
      neighbours, and live sources not listed have no links. */
  ghost predicate WellLinked(P: seq<Source>, S: set<Source>, head: Source?,
                             prevs: map<Source, Source?>, nexts: map<Source, Source?>)
  {
    prevs.Keys == S && nexts.Keys == S &&
    (forall i :: 0 <= i < |P| ==> P[i] in S) &&
    head == (if P == [] then null else P[0]) &&
    PrevsMatch(P, prevs) && NextsMatch(P, nexts) &&
    Unlisted(P, S, prevs, nexts)
  }

  /** A snapshot of the registry: the list in order, the live sources, the
      head pointer and the prev and next pointer of every live source. */
  datatype Shape = Shape(list: seq<Source>, live: set<Source>, head: Source?,
                         prevs: map<Source, Source?>, nexts: map<Source, Source?>)

  /** Snapshots whose links spell out their list. */
  type ListShape = x: Shape | WellLinked(x.list, x.live, x.head, x.prevs, x.nexts)
    witness Shape([], {}, null, map[], map[])

  /** Next pointers that match the list rule out repetition: a source
      listed twice would need two different successors, the last one null. */
  lemma {:induction false} NoRepeat(P: seq<Source>, nexts: map<Source, Source?>, i: int, j: int)
    requires NextsMatch(P, nexts) && 0 <= i < j < |P|
    ensures P[i] != P[j]
    decreases |P| - j
  {
    assert nexts[P[i]] == After(P, i) && nexts[P[j]] == After(P, j);
    if j + 1 < |P| {
      NoRepeat(P, nexts, i + 1, j + 1);
    }
  }

  /** A well-linked list holds each source once. */
  lemma LinkedDistinct(P: seq<Source>, nexts: map<Source, Source?>)
    requires NextsMatch(P, nexts)
    ensures Distinct(P)
  {
    forall i, j | 0 <= i < j < |P| ensures P[i] != P[j] {
      NoRepeat(P, nexts, i, j);
    }
  }

  /** The position of each source of a list without repeats. */
  ghost function Positions(P: seq<Source>): (m: map<Source, int>)
    requires Distinct(P)
    ensures forall i :: 0 <= i < |P| ==> P[i] in m && m[P[i]] == i
  {
    map i | 0 <= i < |P| :: P[i] := i
  }

  /** The successor pointer of a listed source is the source after it, or
      null at the tail. */
  lemma Successor(L: ListShape, D: seq<Source>, R: seq<Source>)
    requires L.list == D + R && R != []
    ensures R[0] in L.nexts && L.nexts[R[0]] == if |R| == 1 then null else R[1]
  {
    assert L.list[|D|] == R[0];
    assert L.nexts[L.list[|D|]] == After(L.list, |D|);
    if |R| > 1 {
      assert L.list[|D| + 1] == R[1];
    }
  }

  lemma {:induction false} Member(P: seq<Source>, S: set<Source>, head: Source?,
                                  prevs: map<Source, Source?>, nexts: map<Source, Source?>, t: Source)
    requires WellLinked(P, S, head, prevs, nexts) && t in S
    ensures t in P <==> t == head || prevs[t] != null
  {
    if t in P {
      var k :| 0 <= k < |P| && P[k] == t;
      if k > 0 {
        assert prevs[P[k]] == P[k - 1];
      }
    }
  }

  /** Following next pointers from the head reaches the tail, whose next is null. */
  lemma Tail(P: seq<Source>, S: set<Source>, head: Source?,
             prevs: map<Source, Source?>, nexts: map<Source, Source?>, i: int)
    requires WellLinked(P, S, head, prevs, nexts) && 0 <= i < |P|
    ensures nexts[P[i]] == null <==> i + 1 == |P|
    ensures nexts[P[i]] != null ==> nexts[P[i]] == P[i + 1]
  {
    assert nexts[P[i]] == After(P, i);
  }

  /** NMIX_Play's relinking: an unlisted live source appended at the tail
      (the old tail's next and the new node's prev set, or the head set
      when the list was empty) gives the list P + [s]. */
  lemma {:induction false} Append(P: seq<Source>, S: set<Source>, head: Source?,
                                  prevs: map<Source, Source?>, nexts: map<Source, Source?>, s: Source)
    requires WellLinked(P, S, head, prevs, nexts) && s in S && s !in P
    ensures P == [] ==> WellLinked(P + [s], S, s, prevs, nexts)
    ensures P != [] ==> WellLinked(P + [s], S, head, prevs[s := P[|P| - 1]], nexts[P[|P| - 1] := s])
  {
    var Q := P + [s];
    LinkedDistinct(P, nexts);
    assert forall i :: 0 <= i < |Q| ==> Q[i] in S;
    if P != [] {
      var last := P[|P| - 1];
      assert last in S && nexts[s] == null;
      AppendPrevs(P, prevs, s);
      AppendNexts(P, nexts, s);
      forall t | t in S && t !in Q ensures prevs[s := last][t] == null && nexts[last := s][t] == null {
        assert t != last && t !in P;
      }
      assert head == Q[0];
    } else {
      forall t | t in S && t !in Q ensures prevs[t] == null && nexts[t] == null {
        assert t !in P;
      }
    }
  }

  /** The prev half of Append: the new tail points back at the old one. */
  lemma AppendPrevs(P: seq<Source>, prevs: map<Source, Source?>, s: Source)
    requires PrevsMatch(P, prevs) && s !in P && P != []
    ensures PrevsMatch(P + [s], prevs[s := P[|P| - 1]])
  {
    var Q, prevs' := P + [s], prevs[s := P[|P| - 1]];
    forall i | 0 <= i < |Q| ensures Q[i] in prevs' && prevs'[Q[i]] == Before(Q, i) {
      if i < |P| {
        assert Q[i] == P[i] && P[i] != s && prevs[P[i]] == Before(P, i);
      }
    }
  }

  /** The next half of Append: the old tail points on to the new one. */
  lemma AppendNexts(P: seq<Source>, nexts: map<Source, Source?>, s: Source)
    requires NextsMatch(P, nexts) && Distinct(P) && s !in P && P != [] && s in nexts && nexts[s] == null
    ensures NextsMatch(P + [s], nexts[P[|P| - 1] := s])
  {
    var Q, last := P + [s], P[|P| - 1];
    var nexts' := nexts[last := s];
    forall i | 0 <= i < |Q| ensures Q[i] in nexts' && nexts'[Q[i]] == After(Q, i) {
      if i < |P| {
        assert Q[i] == P[i] && nexts[P[i]] == After(P, i);
        if i + 1 < |P| {
          assert P[i] != last;
        }
      } else {
        assert Q[i] == s && s != last;
      }
    }
  }

  /** NMIX_Pause's relinking: unlinking the node at position k (its next
      takes its prev, its prev takes its next or the head moves on, and its
      own links are cleared) gives the list without that node, the others
      in their order. */
  lemma {:induction false} Unlink(P: seq<Source>, S: set<Source>, head: Source?,
                                  prevs: map<Source, Source?>, nexts: map<Source, Source?>, k: int)
    requires WellLinked(P, S, head, prevs, nexts) && 0 <= k < |P|
    ensures
      var s, pv, nx := P[k], prevs[P[k]], nexts[P[k]];
      WellLinked(P[..k] + P[k + 1..], S,
                 if pv == null then nx else head,
                 (if nx == null then prevs else prevs[nx := pv])[s := null],
                 (if pv == null then nexts else nexts[pv := nx])[s := null])
  {
    var s, pv, nx := P[k], prevs[P[k]], nexts[P[k]];
    assert pv == Before(P, k) && nx == After(P, k);
    var Q := P[..k] + P[k + 1..];
    var prevs' := (if nx == null then prevs else prevs[nx := pv])[s := null];
    var nexts' := (if pv == null then nexts else nexts[pv := nx])[s := null];
    LinkedDistinct(P, nexts);
    CutAt(P, k);
    assert pv != null ==> pv in P && pv in S;
    assert nx != null ==> nx in P && nx in S;
    KeysKept(prevs, S, nx, pv, s);
    KeysKept(nexts, S, pv, nx, s);
    UnlinkPrevs(P, prevs, k);
    UnlinkNexts(P, nexts, k);
    UnlinkUnlisted(P, S, prevs, nexts, k);
    assert (if pv == null then nx else head) == (if Q == [] then null else Q[0]);
  }

  /** Overwriting live entries keeps the key set. */
  lemma KeysKept(m: map<Source, Source?>, S: set<Source>, x: Source?, v: Source?, s: Source)
    requires m.Keys == S && s in S && (x != null ==> x in S)
    ensures (if x == null then m else m[x := v])[s := null].Keys == S
  {
  }

  /** The unlisted half of Unlink: the cut node joins the unlinked sources
      and its neighbours stay listed. */
  lemma UnlinkUnlisted(P: seq<Source>, S: set<Source>, prevs: map<Source, Source?>, nexts: map<Source, Source?>, k: int)
    requires Distinct(P) && 0 <= k < |P| && Unlisted(P, S, prevs, nexts)
    ensures
      var pv, nx := Before(P, k), After(P, k);
      Unlisted(P[..k] + P[k + 1..], S,
               (if nx == null then prevs else prevs[nx := pv])[P[k] := null],
               (if pv == null then nexts else nexts[pv := nx])[P[k] := null])
  {
    var s, pv, nx := P[k], Before(P, k), After(P, k);
    var Q := P[..k] + P[k + 1..];
    CutAt(P, k);
    assert pv != null ==> pv in P;
    assert nx != null ==> nx in P;
    forall t | t in S && t !in Q && t != s
      ensures t !in P
    {
    }
  }

  /** The prev half of Unlink: the successor of the cut node takes over
      its predecessor. */
  lemma UnlinkPrevs(P: seq<Source>, prevs: map<Source, Source?>, k: int)
    requires Distinct(P) && PrevsMatch(P, prevs) && 0 <= k < |P|
    ensures
      var nx := After(P, k);
      PrevsMatch(P[..k] + P[k + 1..], (if nx == null then prevs else prevs[nx := Before(P, k)])[P[k] := null])
  {
    var s, pv, nx := P[k], Before(P, k), After(P, k);
    var Q := P[..k] + P[k + 1..];
    var prevs' := (if nx == null then prevs else prevs[nx := pv])[s := null];
    CutAt(P, k);
    forall i | 0 <= i < |Q|
      ensures Q[i] in prevs' && prevs'[Q[i]] == Before(Q, i)
    {
      if i < k {
        assert Q[i] == P[i] && P[i] != s && prevs[P[i]] == Before(P, i);
        assert P[i] != nx;
      } else {
        assert Q[i] == P[i + 1] && P[i + 1] != s && prevs[P[i + 1]] == Before(P, i + 1);
        if i > k {
          assert P[i + 1] != nx;
        }
      }
    }
  }

  /** The next half of Unlink: the predecessor of the cut node takes over
      its successor. */
  lemma UnlinkNexts(P: seq<Source>, nexts: map<Source, Source?>, k: int)
    requires Distinct(P) && NextsMatch(P, nexts) && 0 <= k < |P|
    ensures
      var pv := Before(P, k);
      NextsMatch(P[..k] + P[k + 1..], (if pv == null then nexts else nexts[pv := After(P, k)])[P[k] := null])
  {
    var s, pv, nx := P[k], Before(P, k), After(P, k);
    var Q := P[..k] + P[k + 1..];
    var nexts' := (if pv == null then nexts else nexts[pv := nx])[s := null];
    CutAt(P, k);
    forall i | 0 <= i < |Q|
      ensures Q[i] in nexts' && nexts'[Q[i]] == After(Q, i)
    {
      if i < k {
        assert Q[i] == P[i] && P[i] != s && nexts[P[i]] == After(P, i);
        if i + 1 < k {
          assert P[i] != pv;
        }
      } else {
        assert Q[i] == P[i + 1] && P[i + 1] != s && nexts[P[i + 1]] == After(P, i + 1);
        assert P[i + 1] != pv;
      }
    }
  }

  /** A new live source starts unlisted and unlinked. */
  lemma Add(P: seq<Source>, S: set<Source>, head: Source?,
            prevs: map<Source, Source?>, nexts: map<Source, Source?>, s: Source)
    requires WellLinked(P, S, head, prevs, nexts) && s !in S
    ensures WellLinked(P, S + {s}, head, prevs[s := null], nexts[s := null])
  {
    assert s !in P;
  }

  /** An unlisted source can leave the arena without disturbing the list. */
  lemma Delete(P: seq<Source>, S: set<Source>, head: Source?,
               prevs: map<Source, Source?>, nexts: map<Source, Source?>, s: Source)
    requires WellLinked(P, S, head, prevs, nexts) && s !in P
    ensures WellLinked(P, S - {s}, head, prevs - {s}, nexts - {s})
  {
    forall i | 0 <= i < |P| ensures P[i] != s {
    }
  }

  /** The shape after NMIX_Play appends an unlisted live source. */
  function Appended(L: ListShape, s: Source): (r: ListShape)
    requires s in L.live && s !in L.list
    ensures r.list == L.list + [s] && r.live == L.live
    ensures r.head == if L.list == [] then s else L.head
  {
    Append(L.list, L.live, L.head, L.prevs, L.nexts, s);
    var P := L.list + [s];
    if L.list == [] then
      assert WellLinked(P, L.live, s, L.prevs, L.nexts);
      Shape(P, L.live, s, L.prevs, L.nexts)
    else
      var last := L.list[|L.list| - 1];
      var prevs, nexts := L.prevs[s := last], L.nexts[last := s];
      assert WellLinked(P, L.live, L.head, prevs, nexts);
      Shape(P, L.live, L.head, prevs, nexts)
  }

  /** The pointer writes of NMIX_Play: the appended source's prev is the
      old tail, the old tail's next is the appended source, and every other
      pointer stays. */
  lemma AppendedLinks(L: ListShape, s: Source, t: Source)
    requires s in L.live && s !in L.list && t in L.live
    ensures Appended(L, s).prevs[t] == if t == s && L.list != [] then L.list[|L.list| - 1] else L.prevs[t]
    ensures Appended(L, s).nexts[t] == if L.list != [] && t == L.list[|L.list| - 1] then s else L.nexts[t]
  {
  }

  /** The shape after NMIX_Pause unlinks the source at position k: the list
      without it, the others in their order. */
  function Unlinked(L: ListShape, k: int): (r: ListShape)
    requires 0 <= k < |L.list|
    ensures r.list == L.list[..k] + L.list[k + 1..] && r.live == L.live
    ensures r.head == if L.prevs[L.list[k]] == null then L.nexts[L.list[k]] else L.head
  {
    var s, pv, nx := L.list[k], L.prevs[L.list[k]], L.nexts[L.list[k]];
    var prevs := (if nx == null then L.prevs else L.prevs[nx := pv])[s := null];
    var nexts := (if pv == null then L.nexts else L.nexts[pv := nx])[s := null];
    var P := L.list[..k] + L.list[k + 1..];
    Unlink(L.list, L.live, L.head, L.prevs, L.nexts, k);
    assert WellLinked(P, L.live, if pv == null then nx else L.head, prevs, nexts);
    Shape(P, L.live, if pv == null then nx else L.head, prevs, nexts)
  }

  /** The neighbours NMIX_Pause relinks: the source's predecessor and
      successor in the list (null at either end), live and distinct from it. */
  lemma Neighbours(L: ListShape, k: int)
    requires 0 <= k < |L.list|
    ensures L.prevs[L.list[k]] == if k == 0 then null else L.list[k - 1]
    ensures L.nexts[L.list[k]] == if k + 1 == |L.list| then null else L.list[k + 1]
    ensures L.prevs[L.list[k]] != L.list[k] && L.nexts[L.list[k]] != L.list[k]
    ensures L.prevs[L.list[k]] != null ==> L.prevs[L.list[k]] in L.live
    ensures L.nexts[L.list[k]] != null ==> L.nexts[L.list[k]] in L.live
  {
    LinkedDistinct(L.list, L.nexts);
    assert L.prevs[L.list[k]] == Before(L.list, k) && L.nexts[L.list[k]] == After(L.list, k);
  }

  /** Unlinking position k removes exactly that source from the list: the
      first occurrence of it is its only one. */
  lemma UnlinkedList(L: ListShape, k: int)
    requires 0 <= k < |L.list|
    ensures Unlinked(L, k).list == Without(L.list, L.list[k])
    ensures L.list[k] !in Unlinked(L, k).list
  {
    LinkedDistinct(L.list, L.nexts);
    WithoutAt(L.list, k);
  }

  /** The prev writes of NMIX_Pause: the unlinked source loses its prev,
      its successor takes its predecessor, and every other prev stays. */
  lemma UnlinkedPrevs(L: ListShape, k: int, t: Source)
    requires 0 <= k < |L.list| && t in L.live
    ensures Unlinked(L, k).prevs[t] ==
      if t == L.list[k] then null else if t == L.nexts[L.list[k]] then L.prevs[L.list[k]] else L.prevs[t]
  {
    var s, pv, nx := L.list[k], L.prevs[L.list[k]], L.nexts[L.list[k]];
    assert Unlinked(L, k).prevs == (if nx == null then L.prevs else L.prevs[nx := pv])[s := null];
  }

  /** The next writes of NMIX_Pause: the unlinked source loses its next,
      its predecessor takes its successor, and every other next stays. */
  lemma UnlinkedNexts(L: ListShape, k: int, t: Source)
    requires 0 <= k < |L.list| && t in L.live
    ensures Unlinked(L, k).nexts[t] ==
      if t == L.list[k] then null else if t == L.prevs[L.list[k]] then L.nexts[L.list[k]] else L.nexts[t]
  {
    var s, pv, nx := L.list[k], L.prevs[L.list[k]], L.nexts[L.list[k]];
    assert Unlinked(L, k).nexts == (if pv == null then L.nexts else L.nexts[pv := nx])[s := null];
  }

  /** The shape after NMIX_NewSource adds a fresh, unlinked source. */
  function Added(L: ListShape, s: Source): (r: ListShape)
    requires s !in L.live
    ensures r.list == L.list && r.head == L.head && r.live == L.live + {s}
    ensures forall t :: t in r.live ==> r.prevs[t] == (if t == s then null else L.prevs[t])
    ensures forall t :: t in r.live ==> r.nexts[t] == (if t == s then null else L.nexts[t])
  {
    var prevs, nexts := L.prevs[s := null], L.nexts[s := null];
    Add(L.list, L.live, L.head, L.prevs, L.nexts, s);
    Shape(L.list, L.live + {s}, L.head, prevs, nexts)
  }

  /** The shape after NMIX_FreeSource drops an unlisted source. */
  function Removed(L: ListShape, s: Source): (r: ListShape)
    requires s !in L.list
    ensures r.list == L.list && r.head == L.head && r.live == L.live - {s}
    ensures forall t :: t in r.live ==> r.prevs[t] == L.prevs[t] && r.nexts[t] == L.nexts[t]
  {
    Delete(L.list, L.live, L.head, L.prevs, L.nexts, s);
    Shape(L.list, L.live - {s}, L.head, L.prevs - {s}, L.nexts - {s})
  }
}
