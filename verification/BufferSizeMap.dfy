/** The pointer-to-size-class map of the buffer pool: an open-addressing table
    with linear probing, growth by rehashing, and deletion by circular backward
    shift. The class works in place on an array of entries and is proved to be
    a plain finite map.

    The proof straightens the circle. A slot `seam` is chosen so that no entry
    is displaced across it: counted from just after the seam, every entry lies
    at or after its natural slot. Any empty slot can be the seam, and a table
    filled to the last slot keeps the slot that was filled last as its seam, so
    the argument does not need an empty slot. */
module BufferSizeMap {
  import opened Circle

  const INITIAL_CAPACITY: nat := 1024
  const MAX_CAPACITY: nat := 0x10_0000
  const LOAD_FACTOR_NUM := 3
  const LOAD_FACTOR_DEN := 4

  /** A slot; key 0 marks it empty. */
  datatype Entry = Entry(key: nat, cls: nat)

  const EMPTY := Entry(0, 0)

  // ---------------------------------------------------------------- the circle

  /** Rank of slot `i` when counting starts just after the seam `s`. */
  function Rank(c: nat, s: nat, i: nat): (r: nat)
    requires s < c && i < c
    ensures r < c
  {
    if s < i then i - s - 1 else i - s - 1 + c
  }

  function Natural(hash: nat -> nat, c: nat, key: nat): (i: nat)
    requires 0 < c
    ensures i < c
  {
    hash(key) % c
  }

  // --------------------------------------------------------- meaning of a table

  ghost predicate Used(t: seq<Entry>, i: int)
  {
    0 <= i < |t| && t[i].key != 0
  }

  /** Rank of the natural slot of the entry at `i`. */
  ghost function Home(hash: nat -> nat, t: seq<Entry>, s: nat, i: nat): (r: nat)
    requires s < |t| && i < |t|
    ensures r < |t|
  {
    Rank(|t|, s, Natural(hash, |t|, t[i].key))
  }

  /** No entry has been pushed across the seam. */
  ghost predicate Seamed(hash: nat -> nat, t: seq<Entry>, s: nat)
    requires s < |t|
  {
    forall i {:trigger Used(t, i)} :: Used(t, i) ==> Home(hash, t, s, i) <= Rank(|t|, s, i)
  }

  /** The probe path of the entry at `i` runs over slot `j` before reaching `i`. */
  ghost predicate Crosses(hash: nat -> nat, t: seq<Entry>, s: nat, i: nat, j: nat)
    requires s < |t| && i < |t| && j < |t|
  {
    Home(hash, t, s, i) <= Rank(|t|, s, j) < Rank(|t|, s, i)
  }

  /** Probe paths run over used slots only. */
  ghost predicate Packed(hash: nat -> nat, t: seq<Entry>, s: nat)
    requires s < |t|
  {
    forall i, j {:trigger Crosses(hash, t, s, i, j)} ::
      Used(t, i) && 0 <= j < |t| && Crosses(hash, t, s, i, j) ==> Used(t, j)
  }

  ghost predicate Shaped(hash: nat -> nat, t: seq<Entry>, s: nat)
  {
    s < |t| && Seamed(hash, t, s) && Packed(hash, t, s)
  }

  /** `t`, with slot `hole` disregarded, holds exactly the map `m`, each key once.
      No slot is disregarded when `hole == |t|`. */
  ghost predicate Holds(t: seq<Entry>, hole: nat, m: map<nat, nat>)
  {
    && 0 !in m
    && (forall i {:trigger Used(t, i)} :: Used(t, i) && i != hole ==> t[i].key in m && m[t[i].key] == t[i].cls)
    && (forall k {:trigger k in m} :: k in m ==> At(t, hole, k))
    && (forall i, j {:trigger Used(t, i), Used(t, j)} ::
          Used(t, i) && Used(t, j) && i != hole && j != hole && i != j ==> t[i].key != t[j].key)
  }

  ghost predicate At(t: seq<Entry>, hole: nat, k: nat)
  {
    exists i {:trigger Used(t, i)} :: Used(t, i) && i != hole && t[i].key == k
  }

  /** A table that represents `m`. */
  ghost predicate Table(hash: nat -> nat, t: seq<Entry>, s: nat, m: map<nat, nat>)
  {
    Shaped(hash, t, s) && Holds(t, |t|, m)
  }

  // -------------------------------------------------------------- counting slots

  lemma {:induction false} KeysOf(t: seq<Entry>) returns (ks: set<nat>)
    requires forall i :: 0 <= i < |t| ==> t[i].key != 0
    requires forall i, j :: 0 <= i < j < |t| ==> t[i].key != t[j].key
    ensures |ks| == |t|
    ensures forall k :: k in ks <==> exists i :: 0 <= i < |t| && t[i].key == k
  {
    if t == [] {
      ks := {};
    } else {
      var n := |t| - 1;
      var rest := KeysOf(t[..n]);
      assert t[n].key !in rest;
      ks := rest + {t[n].key};
    }
  }

  /** The used slots of a prefix of the table are no more than the keys of its map;
      when every slot of the table is used there are as many. */
  lemma KeyCount(t: seq<Entry>, m: map<nat, nat>)
    requires Holds(t, |t|, m)
    ensures |m| <= |t|
    ensures (forall i :: 0 <= i < |t| ==> t[i].key != 0) ==> |m| == |t|
  {
    if forall i :: 0 <= i < |t| ==> t[i].key != 0 {
      forall i, j | 0 <= i < j < |t|
        ensures t[i].key != t[j].key
      {
        assert Used(t, i) && Used(t, j);
      }
      var ks := KeysOf(t);
      forall k
        ensures k in ks <==> k in m
      {
        if k in m {
          assert At(t, |t|, k);
        } else if k in ks {
          var i :| 0 <= i < |t| && t[i].key == k;
          assert Used(t, i);
        }
      }
      assert ks == m.Keys;
    } else {
      Where(t, m.Keys);
    }
  }

  /** Keys found in a table are no more than its slots. */
  lemma {:induction false} Where(t: seq<Entry>, ks: set<nat>)
    requires forall k :: k in ks ==> At(t, |t|, k)
    ensures |ks| <= |t|
  {
    if t == [] {
      assert forall k: nat :: !At(t, 0, k);
      assert ks == {};
    } else {
      var n := |t| - 1;
      var u, ls := t[..n], ks - {t[n].key};
      forall k | k in ls
        ensures At(u, |u|, k)
      {
        var i :| Used(t, i) && i != |t| && t[i].key == k;
        assert Used(u, i) && u[i].key == k;
      }
      Where(u, ls);
      assert ks <= ls + {t[n].key};
      SubsetSize(ks, ls + {t[n].key});
    }
  }

  lemma {:induction false} SubsetSize(a: set<nat>, b: set<nat>)
    requires a <= b
    ensures |a| <= |b|
  {
    if a != {} {
      var x :| x in a;
      SubsetSize(a - {x}, b - {x});
    }
  }

  // -------------------------------------------------------------------- probing

  lemma RankShift(c: nat, s: nat, f: nat, n: nat, i: nat, j: nat)
    requires s < c && f < c && n < c && i < c && j < c && i != f
    requires Rank(c, s, n) <= Rank(c, s, i)
    requires !(Rank(c, s, n) <= Rank(c, s, f) < Rank(c, s, i))
    ensures Rank(c, f, n) <= Rank(c, f, i)
    ensures Rank(c, f, n) <= Rank(c, f, j) < Rank(c, f, i) ==> Rank(c, s, n) <= Rank(c, s, j) < Rank(c, s, i)
  {
  }

  /** Any empty slot can serve as the seam. */
  lemma ReSeam(hash: nat -> nat, t: seq<Entry>, s: nat, f: nat)
    requires Shaped(hash, t, s)
    requires f < |t| && t[f].key == 0
    ensures Shaped(hash, t, f)
  {
    var c := |t|;
    forall i | Used(t, i)
      ensures Home(hash, t, f, i) <= Rank(c, f, i)
    {
      assert !Crosses(hash, t, s, i, f);
      RankShift(c, s, f, Natural(hash, c, t[i].key), i, i);
    }
    forall i, j | Used(t, i) && 0 <= j < c && Crosses(hash, t, f, i, j)
      ensures Used(t, j)
    {
      assert !Crosses(hash, t, s, i, f);
      RankShift(c, s, f, Natural(hash, c, t[i].key), i, j);
      assert Crosses(hash, t, s, i, j);
    }
  }

  /** Slots `[natural, natural + n)` of a key, on the circle, are used by other keys. */
  ghost predicate Probed(hash: nat -> nat, t: seq<Entry>, key: nat, n: nat)
    requires 0 < |t|
  {
    forall j {:trigger t[j]} :: 0 <= j < |t| && Dist(|t|, Natural(hash, |t|, key), j) < n
      ==> t[j].key != 0 && t[j].key != key
  }

  /** A probe for the key at `i` meets only used slots on its way. */
  lemma PathUsed(hash: nat -> nat, t: seq<Entry>, s: nat, i: nat, j: nat)
    requires Shaped(hash, t, s)
    requires Used(t, i) && j < |t|
    requires var n := Natural(hash, |t|, t[i].key); Dist(|t|, n, j) < Dist(|t|, n, i)
    ensures Used(t, j)
  {
    assert Home(hash, t, s, i) <= Rank(|t|, s, i);
    assert Crosses(hash, t, s, i, j);
  }

  lemma ProbeStart(hash: nat -> nat, t: seq<Entry>, key: nat)
    requires 0 < |t|
    ensures Probed(hash, t, key, 0)
  {
  }

  /** The probe goes on past a slot used by another key. */
  lemma ProbeOn(hash: nat -> nat, t: seq<Entry>, key: nat, idx: nat)
    requires idx < |t| && t[idx].key != 0 && t[idx].key != key
    requires Probed(hash, t, key, Dist(|t|, Natural(hash, |t|, key), idx))
    ensures Probed(hash, t, key, Dist(|t|, Natural(hash, |t|, key), idx) + 1)
  {
  }

  /** A table with fewer keys than slots has an empty slot. */
  lemma RoomLeft(hash: nat -> nat, t: seq<Entry>, s: nat, m: map<nat, nat>) returns (f: nat)
    requires Table(hash, t, s, m) && |m| < |t|
    ensures f < |t| && t[f].key == 0
  {
    KeyCount(t, m);
    f :| 0 <= f < |t| && t[f].key == 0;
  }

  /** A probe that goes all around meets a full table. */
  lemma ProbeFull(hash: nat -> nat, t: seq<Entry>, s: nat, m: map<nat, nat>, key: nat)
    requires Table(hash, t, s, m) && Probed(hash, t, key, |t|)
    ensures |m| == |t|
  {
    KeyCount(t, m);
  }

  /** What a used slot of a table says about its map. */
  lemma InMap(hash: nat -> nat, t: seq<Entry>, s: nat, m: map<nat, nat>, i: nat)
    requires Table(hash, t, s, m)
    requires i < |t| && t[i].key != 0
    ensures t[i].key in m && m[t[i].key] == t[i].cls
  {
    assert Used(t, i);
  }

  /** A key that the probe has not met before an empty slot, or all around, is not in the map. */
  lemma ProbeMisses(hash: nat -> nat, t: seq<Entry>, s: nat, m: map<nat, nat>, key: nat, idx: nat)
    requires Table(hash, t, s, m)
    requires idx < |t|
    requires
      || (t[idx].key == 0 && Probed(hash, t, key, Dist(|t|, Natural(hash, |t|, key), idx)))
      || Probed(hash, t, key, |t|)
    ensures key !in m
  {
    if key in m {
      assert At(t, |t|, key);
      var i :| Used(t, i) && i != |t| && t[i].key == key;
      var n := Natural(hash, |t|, key);
      if Dist(|t|, n, idx) < Dist(|t|, n, i) {
        PathUsed(hash, t, s, i, idx);
      }
      assert false;
    }
  }

  /** Writing a key at the first empty slot of its probe keeps the shape. */
  lemma PlaceShape(hash: nat -> nat, t: seq<Entry>, s: nat, f: nat, e: Entry)
    requires Shaped(hash, t, s)
    requires f < |t| && t[f].key == 0 && e.key != 0
    requires Probed(hash, t, e.key, Dist(|t|, Natural(hash, |t|, e.key), f))
    ensures Shaped(hash, t[f := e], f)
  {
    ReSeam(hash, t, s, f);
    var c, u := |t|, t[f := e];
    forall i | Used(u, i)
      ensures Home(hash, u, f, i) <= Rank(c, f, i)
    {
      if i != f {
        assert Used(t, i);
        assert Home(hash, t, f, i) <= Rank(c, f, i);
      }
    }
    forall i, j | Used(u, i) && 0 <= j < c && Crosses(hash, u, f, i, j)
      ensures Used(u, j)
    {
      if i != f {
        assert Used(t, i) && Crosses(hash, t, f, i, j);
        assert Used(t, j);
      } else {
        var n := Natural(hash, c, e.key);
        assert Dist(c, n, j) < Dist(c, n, f);
        assert t[j].key != 0;
      }
    }
  }

  /** Writing a new key at the first empty slot of its probe adds it to the map. */
  lemma Place(hash: nat -> nat, t: seq<Entry>, s: nat, m: map<nat, nat>, f: nat, e: Entry)
    requires Table(hash, t, s, m)
    requires f < |t| && t[f].key == 0
    requires e.key != 0 && e.key !in m
    requires Probed(hash, t, e.key, Dist(|t|, Natural(hash, |t|, e.key), f))
    ensures Table(hash, t[f := e], f, m[e.key := e.cls])
  {
    PlaceShape(hash, t, s, f, e);
    PutHolds(t, m, f, e);
  }

  /** Overwriting the class of a key that is present updates the map. */
  lemma Overwrite(hash: nat -> nat, t: seq<Entry>, s: nat, m: map<nat, nat>, i: nat, e: Entry)
    requires Table(hash, t, s, m)
    requires Used(t, i) && t[i].key == e.key
    ensures Table(hash, t[i := e], s, m[e.key := e.cls])
  {
    SameShape(hash, t, t[i := e], s);
    PutHolds(t, m, i, e);
  }

  lemma PutHolds(t: seq<Entry>, m: map<nat, nat>, f: nat, e: Entry)
    requires Holds(t, |t|, m)
    requires f < |t| && e.key != 0
    requires t[f].key == e.key || (t[f].key == 0 && e.key !in m)
    ensures Holds(t[f := e], |t|, m[e.key := e.cls])
  {
    var u, m' := t[f := e], m[e.key := e.cls];
    assert Used(u, f) && u[f].key == e.key;
    forall i | Used(u, i) && i != f
      ensures Used(t, i) && u[i] == t[i] && u[i].key != e.key
    {
      assert Used(t, i) && t[i].key in m;
      assert t[f].key == e.key ==> Used(t, f);
    }
    forall k | k in m'
      ensures At(u, |t|, k)
    {
      if k != e.key {
        assert At(t, |t|, k);
        var i :| Used(t, i) && i != |t| && t[i].key == k;
        assert Used(u, i) && u[i].key == k;
      }
    }
  }

  lemma SameShape(hash: nat -> nat, t: seq<Entry>, u: seq<Entry>, s: nat)
    requires Shaped(hash, t, s)
    requires |u| == |t| && forall i :: 0 <= i < |t| ==> u[i].key == t[i].key
    ensures Shaped(hash, u, s)
  {
    assert forall i {:trigger Used(u, i)} :: Used(u, i) <==> Used(t, i);
    forall i, j | Used(u, i) && 0 <= j < |u| && Crosses(hash, u, s, i, j)
      ensures Used(u, j)
    {
      assert Crosses(hash, t, s, i, j);
      assert Used(t, j);
    }
  }

  // ------------------------------------------------------------ backward shifting

  /** State of the shift loop: slot `hole` is to be vacated, and the ranks
      below `pos` have been looked at; ranks from `|t|` on are a second visit
      to the slots from the seam on. */
  ghost predicate Shifting(hash: nat -> nat, t: seq<Entry>, s: nat, m: map<nat, nat>, start: nat, hole: nat, pos: nat)
  {
    && s < |t| && hole < |t| && start < |t|
    && Shaped(hash, t, s) && Holds(t, hole, m) && Used(t, hole)
    && Rank(|t|, s, start) <= Rank(|t|, s, hole) < pos <= |t| + Rank(|t|, s, start) + 1
    && (forall i {:trigger Used(t, i)} :: Used(t, i) && i != hole && Rank(|t|, s, i) < pos ==> !Crosses(hash, t, s, i, hole))
  }

  /** The test of the source on circular distances says that the probe path of
      the entry at `next` runs over `hole`. */
  lemma ShiftTest(hash: nat -> nat, t: seq<Entry>, s: nat, m: map<nat, nat>, start: nat, hole: nat, pos: nat, next: nat)
    requires Shifting(hash, t, s, m, start, hole, pos)
    requires Used(t, next) && pos <= |t| + Rank(|t|, s, start)
    requires Rank(|t|, s, next) == if pos < |t| then pos else pos - |t|
    ensures var n := Natural(hash, |t|, t[next].key);
      Dist(|t|, n, hole) <= Dist(|t|, n, next) <==> next == hole || Crosses(hash, t, s, next, hole)
    ensures pos >= |t| ==> !Crosses(hash, t, s, next, hole)
  {
    assert Home(hash, t, s, next) <= Rank(|t|, s, next);
  }

  lemma ShiftMove(hash: nat -> nat, t: seq<Entry>, s: nat, m: map<nat, nat>, start: nat, hole: nat, pos: nat, next: nat)
    requires Shifting(hash, t, s, m, start, hole, pos)
    requires Used(t, next) && pos < |t| && Rank(|t|, s, next) == pos
    requires Crosses(hash, t, s, next, hole)
    ensures Shifting(hash, t[hole := t[next]], s, m, start, next, pos + 1)
  {
    MoveShape(hash, t, s, hole, next);
    MoveHolds(t, m, hole, next);
  }

  lemma MoveShape(hash: nat -> nat, t: seq<Entry>, s: nat, hole: nat, next: nat)
    requires Shaped(hash, t, s)
    requires Used(t, next) && Used(t, hole) && Crosses(hash, t, s, next, hole)
    ensures Shaped(hash, t[hole := t[next]], s)
  {
    var u := t[hole := t[next]];
    assert forall i {:trigger Used(u, i)} :: Used(u, i) <==> Used(t, i);
    forall i, j | Used(u, i) && 0 <= j < |t| && Crosses(hash, u, s, i, j)
      ensures Used(u, j)
    {
      if i == hole {
        assert Crosses(hash, t, s, next, j);
      } else {
        assert Crosses(hash, t, s, i, j);
      }
      assert Used(t, j);
    }
  }

  lemma MoveHolds(t: seq<Entry>, m: map<nat, nat>, hole: nat, next: nat)
    requires Holds(t, hole, m)
    requires Used(t, next) && Used(t, hole) && next != hole
    ensures Holds(t[hole := t[next]], next, m)
  {
    var u := t[hole := t[next]];
    assert forall i {:trigger Used(u, i)} :: Used(u, i) <==> Used(t, i);
    forall k | k in m
      ensures At(u, next, k)
    {
      assert At(t, hole, k);
      var i :| Used(t, i) && i != hole && t[i].key == k;
      var i' := if i == next then hole else i;
      assert Used(u, i') && u[i'].key == k;
    }
  }

  lemma NextRank(c: nat, s: nat, i: nat)
    requires s < c && i < c
    ensures Rank(c, s, Next(c, i)) == if Rank(c, s, i) + 1 < c then Rank(c, s, i) + 1 else 0
  {
  }

  lemma ShiftStart(hash: nat -> nat, t: seq<Entry>, s: nat, m: map<nat, nat>, start: nat)
    requires Table(hash, t, s, m)
    requires start < |t| && t[start].key != 0
    ensures s < |t| && Shifting(hash, t, s, m - {t[start].key}, start, start, Rank(|t|, s, start) + 1)
  {
    assert Used(t, start);
    Disregard(t, m, start);
  }

  /** One round of the shift loop. */
  lemma ShiftRound(hash: nat -> nat, t: seq<Entry>, s: nat, m: map<nat, nat>, start: nat, hole: nat, pos: nat, next: nat)
    requires Shifting(hash, t, s, m, start, hole, pos)
    requires pos <= |t| + Rank(|t|, s, start)
    requires next < |t| && t[next].key != 0 && Rank(|t|, s, next) == if pos < |t| then pos else pos - |t|
    ensures
      var n := Natural(hash, |t|, t[next].key);
      if Dist(|t|, n, hole) <= Dist(|t|, n, next)
        then Shifting(hash, t[hole := t[next]], s, m, start, next, pos + 1)
        else Shifting(hash, t, s, m, start, hole, pos + 1)
  {
    assert Used(t, next);
    ShiftTest(hash, t, s, m, start, hole, pos, next);
    if next == hole {
      assert t[hole := t[next]] == t;
    } else if Crosses(hash, t, s, next, hole) {
      ShiftMove(hash, t, s, m, start, hole, pos, next);
    }
  }

  /** When the shift loop stops, vacating `hole` leaves a table for `m`. */
  lemma ShiftDone(hash: nat -> nat, t: seq<Entry>, s: nat, m: map<nat, nat>, start: nat, hole: nat, pos: nat, next: nat)
    requires Shifting(hash, t, s, m, start, hole, pos)
    requires
      || pos == |t| + Rank(|t|, s, start) + 1
      || (next < |t| && t[next].key == 0 && Rank(|t|, s, next) == if pos < |t| then pos else pos - |t|)
    ensures hole < |t|
    ensures Table(hash, t[hole := t[hole].(key := 0)], s, m)
  {
    var u := t[hole := t[hole].(key := 0)];
    assert forall i {:trigger Used(u, i)} :: Used(u, i) ==> Used(t, i) && i != hole && u[i] == t[i];
    forall i, j | Used(u, i) && 0 <= j < |t| && Crosses(hash, u, s, i, j)
      ensures Used(u, j)
    {
      assert Crosses(hash, t, s, i, j);
      if j == hole && pos < |t| {
        assert Crosses(hash, t, s, i, next);
        assert false;
      }
      assert Used(t, j);
    }
    forall k | k in m
      ensures At(u, |u|, k)
    {
      assert At(t, hole, k);
      var i :| Used(t, i) && i != hole && t[i].key == k;
      assert Used(u, i) && u[i].key == k;
    }
  }

  // ---------------------------------------------------------------- whole tables

  lemma EmptyTable(hash: nat -> nat, t: seq<Entry>)
    requires 0 < |t| && forall i :: 0 <= i < |t| ==> t[i] == EMPTY
    ensures Table(hash, t, 0, map[]) && Holds(t[..0], 0, map[])
  {
  }

  /** A table determines its map. */
  lemma SameMap(t: seq<Entry>, m: map<nat, nat>, m': map<nat, nat>)
    requires Holds(t, |t|, m) && Holds(t, |t|, m')
    ensures m == m'
  {
    forall k | k in m
      ensures k in m' && m'[k] == m[k]
    {
      assert At(t, |t|, k);
    }
    forall k | k in m'
      ensures k in m
    {
      assert At(t, |t|, k);
    }
  }

  /** What the slots of a prefix, and of one slot more, have in common. */
  lemma PrefixUsed(t: seq<Entry>, i: nat)
    requires i < |t|
    ensures forall j {:trigger Used(t[..i + 1], j)} :: Used(t[..i + 1], j) ==> Used(t, j) && t[..i + 1][j] == t[j] && (j != i ==> Used(t[..i], j))
    ensures forall j {:trigger Used(t[..i], j)} :: Used(t[..i], j) ==> Used(t[..i + 1], j) && j < i && t[..i][j] == t[j]
    ensures Used(t[..i + 1], i) <==> t[i].key != 0
  {
  }

  lemma PrefixKey(t: seq<Entry>, m: map<nat, nat>, i: nat, done: map<nat, nat>)
    requires Holds(t, |t|, m) && i < |t| && Holds(t[..i], i, done) && t[i].key != 0
    ensures t[i].key !in done
  {
    PrefixUsed(t, i);
    assert Used(t, i);
    forall k {:trigger k in done} | k in done
      ensures k != t[i].key
    {
      assert At(t[..i], i, k);
      var j :| Used(t[..i], j) && j != i && t[..i][j].key == k;
      assert Used(t[..i + 1], j) && Used(t, j);
    }
  }

  lemma PrefixSkips(t: seq<Entry>, i: nat, done: map<nat, nat>)
    requires i < |t| && Holds(t[..i], i, done) && t[i].key == 0
    ensures Holds(t[..i + 1], i + 1, done)
  {
    PrefixUsed(t, i);
    forall k | k in done
      ensures At(t[..i + 1], i + 1, k)
    {
      assert At(t[..i], i, k);
    }
  }

  lemma PrefixAdds(t: seq<Entry>, i: nat, done: map<nat, nat>)
    requires i < |t| && Holds(t[..i], i, done) && t[i].key != 0 && t[i].key !in done
    ensures Holds(t[..i + 1], i + 1, done[t[i].key := t[i].cls])
  {
    PrefixUsed(t, i);
    var more := done[t[i].key := t[i].cls];
    forall k {:trigger k in more} | k in more
      ensures At(t[..i + 1], i + 1, k)
    {
      if k == t[i].key { assert Used(t[..i + 1], i); } else { assert At(t[..i], i, k); }
    }
  }

  /** The map of a prefix of a table, one slot further. */
  lemma PrefixHolds(t: seq<Entry>, m: map<nat, nat>, i: nat, done: map<nat, nat>)
    requires Holds(t, |t|, m) && i < |t| && Holds(t[..i], i, done)
    ensures t[i].key == 0 ==> Holds(t[..i + 1], i + 1, done)
    ensures t[i].key != 0 ==> t[i].key !in done && Holds(t[..i + 1], i + 1, done[t[i].key := t[i].cls])
  {
    hide Holds;
    if t[i].key == 0 {
      PrefixSkips(t, i, done);
    } else {
      PrefixKey(t, m, i, done);
      PrefixAdds(t, i, done);
    }
  }

  /** Disregarding a slot takes its key out of the map. */
  lemma Disregard(t: seq<Entry>, m: map<nat, nat>, i: nat)
    requires Holds(t, |t|, m) && Used(t, i)
    ensures t[i].key in m && m[t[i].key] == t[i].cls
    ensures Holds(t, i, m - {t[i].key})
  {
    forall k | k in m - {t[i].key}
      ensures At(t, i, k)
    {
      assert At(t, |t|, k);
    }
  }

  /** `c` is `b` doubled some number of times. */
  ghost predicate DoubledFrom(b: nat, c: nat)
    decreases c
  {
    c == b || (c % 2 == 0 && b < c && DoubledFrom(b, c / 2))
  }

  lemma {:induction false} DoubledPast(b: nat, c: nat, max: nat)
    requires 0 < b && DoubledFrom(b, c) && DoubledFrom(b, max) && c < max
    ensures 2 * c <= max && DoubledFrom(b, 2 * c)
    decreases max
  {
    if c != max / 2 {
      if max / 2 < c {
        DoubledPast(b, max / 2, c);
        assert false;
      }
      DoubledPast(b, c, max / 2);
    }
  }

  lemma CanDouble(c: nat)
    requires DoubledFrom(INITIAL_CAPACITY, c) && c < MAX_CAPACITY
    ensures 2 * c <= MAX_CAPACITY && DoubledFrom(INITIAL_CAPACITY, 2 * c)
  {
    assert DoubledFrom(INITIAL_CAPACITY, 0x1000);
    assert DoubledFrom(INITIAL_CAPACITY, 0x8000);
    assert DoubledFrom(INITIAL_CAPACITY, 0x4_0000);
    DoubledPast(INITIAL_CAPACITY, c, MAX_CAPACITY);
  }

  lemma {:induction false} CapacityDivides(b: nat, c: nat)
    requires DoubledFrom(b, c) && b % 4 == 0
    ensures c % 4 == 0
    decreases c
  {
    if c != b {
      CapacityDivides(b, c / 2);
    }
  }

  // -------------------------------------------------------------------- the class

  class BufferSizeMap {
    const hash: nat -> nat
    var entries: array<Entry>
    var capacity: nat
    var count: nat
    ghost var Contents: map<nat, nat>
    ghost var seam: nat

    ghost predicate Sized()
      reads this, entries
    {
      && capacity == entries.Length
      && DoubledFrom(INITIAL_CAPACITY, capacity) && capacity <= MAX_CAPACITY
      && seam < capacity && Table(hash, entries[..], seam, Contents)
      && count == |Contents|
    }

    ghost predicate Valid()
      reads this, entries
    {
      Sized() && (capacity < MAX_CAPACITY ==> count * LOAD_FACTOR_DEN <= capacity * LOAD_FACTOR_NUM)
    }

    /** Below 75 % full, or able to grow, or at maximum capacity and not full. */
    predicate Accepts(allocOk: bool)
      reads this
    {
      || count * LOAD_FACTOR_DEN < capacity * LOAD_FACTOR_NUM
      || if capacity < MAX_CAPACITY then allocOk else count < capacity
    }

    constructor (hash: nat -> nat)
      ensures Valid() && fresh(entries)
      ensures Contents == map[] && this.hash == hash
    {
      this.hash := hash;
      entries := new Entry[INITIAL_CAPACITY](_ => EMPTY);
      capacity := INITIAL_CAPACITY;
      count := 0;
      Contents := map[];
      seam := 0;
    }

    /** Doubles the table and rehashes every entry. `allocOk` says whether the
        allocation of the new table succeeds. */
    method Grow(allocOk: bool) returns (ok: bool)
      requires Valid() && capacity < MAX_CAPACITY
      modifies this
      ensures Valid() && Contents == old(Contents)
      ensures ok == allocOk
      ensures ok ==> capacity == 2 * old(capacity) && fresh(entries)
      ensures !ok ==> entries == old(entries) && capacity == old(capacity)
    {
      hide Table, DoubledFrom;
      var newCap := capacity * 2;
      CanDouble(capacity);
      if newCap > MAX_CAPACITY || !allocOk {
        return false;
      }
      var newEntries := new Entry[newCap](_ => EMPTY);
      ghost var s := RehashAll(newEntries);
      entries, capacity, seam := newEntries, newCap, s;
      return true;
    }

    /** The loop over the old table. */
    method RehashAll(newEntries: array<Entry>) returns (ghost s: nat)
      requires Valid() && newEntries != entries
      requires newEntries.Length > capacity && forall i :: 0 <= i < newEntries.Length ==> newEntries[i] == EMPTY
      modifies newEntries
      ensures s < newEntries.Length && Table(hash, newEntries[..], s, Contents)
    {
      hide Seamed, Packed, Holds, DoubledFrom, Natural;
      ghost var done: map<nat, nat>, t := map[], entries[..];
      s := 0;
      EmptyTable(hash, newEntries[..]);
      var i := 0;
      while i < capacity
        invariant 0 <= i <= capacity
        invariant entries[..] == t
        invariant Table(hash, newEntries[..], s, done)
        invariant Holds(t[..i], i, done)
      {
        PrefixHolds(t, Contents, i, done);
        if entries[i].key != 0 {
          KeyCount(t[..i], done);
          s := Rehash(newEntries, entries[i], s, done);
          done := done[t[i].key := t[i].cls];
        }
        i := i + 1;
      }
      assert t[..capacity] == t;
      SameMap(t, done, Contents);
    }

    /** Puts one entry of the old table into the new one. */
    method Rehash(t: array<Entry>, e: Entry, ghost s: nat, ghost m: map<nat, nat>) returns (ghost f: nat)
      requires Table(hash, t[..], s, m) && |m| < t.Length
      requires e.key != 0 && e.key !in m
      modifies t
      ensures Table(hash, t[..], f, m[e.key := e.cls])
    {
      hide Table, Probed, Natural, Next;
      ghost var u := t[..];
      assert |u| == t.Length;
      ghost var empty := RoomLeft(hash, u, s, m);
      var idx := Natural(hash, t.Length, e.key);
      ghost var n := idx;
      ProbeStart(hash, u, e.key);
      while t[idx].key != 0
        invariant 0 <= idx < t.Length && t[..] == u
        invariant Probed(hash, u, e.key, Dist(|u|, n, idx))
        invariant Dist(|u|, n, idx) <= Dist(|u|, n, empty)
        decreases Dist(|u|, n, empty) - Dist(|u|, n, idx)
      {
        InMap(hash, u, s, m, idx);
        ProbeOn(hash, u, e.key, idx);
        idx := Next(t.Length, idx);
      }
      f := idx;
      Place(hash, u, s, m, f, e);
      t[idx] := e;
      assert t[..] == u[f := e];
    }

    /** Adds `key` with class `classIdx`, or changes the class of a key that is
        there. Fails on the null key, on a full table of the largest capacity,
        and when the table has to grow and cannot be allocated. */
    method Insert(key: nat, classIdx: nat, allocOk: bool) returns (ok: bool)
      requires Valid()
      modifies this, entries
      ensures Valid() && (entries == old(entries) || fresh(entries))
      ensures Contents == if ok then old(Contents)[key := classIdx % 256] else old(Contents)
      ensures ok <==> key != 0 && old(Accepts(allocOk))
      ensures ok <==>
        key != 0 && (4 * old(count) < 3 * old(capacity) || if old(capacity) < 0x10_0000 then allocOk else old(count) < old(capacity))
    {
      hide Table, DoubledFrom;
      if key == 0 {
        return false;
      }
      if count * LOAD_FACTOR_DEN >= capacity * LOAD_FACTOR_NUM {
        if capacity >= MAX_CAPACITY {
          if count >= capacity {
            return false;
          }
        } else {
          var grown := Grow(allocOk);
          if !grown {
            return false;
          }
        }
      }
      CapacityDivides(INITIAL_CAPACITY, capacity);
      Put(key, classIdx % 256);
      return true;
    }

    /** Writes the entry of `key` where the probe stops. */
    method Put(key: nat, cls: nat)
      requires Sized() && count < capacity && key != 0
      modifies this`Contents, this`seam, this`count, entries
      ensures Sized() && Contents == old(Contents)[key := cls] && count <= old(count) + 1
    {
      hide Table, Probed, Natural, DoubledFrom;
      var e := Entry(key, cls);
      ghost var u := entries[..];
      assert |u| == capacity;
      var found, idx := Probe(key);
      if found {
        Overwrite(hash, u, seam, Contents, idx, e);
      } else {
        Place(hash, u, seam, Contents, idx, e);
        count := count + 1;
        seam := idx;
      }
      entries[idx] := e;
      assert entries[..] == u[idx := e];
      Contents := Contents[e.key := e.cls];
    }

    /** The bounded linear probe that insertion and removal share: stops at the
        slot of `key`, at the first empty slot, or back where it started. */
    method Probe(key: nat) returns (found: bool, idx: nat)
      requires Sized()
      ensures idx < capacity && found == (key in Contents)
      ensures found ==> key != 0 && entries[idx] == Entry(key, Contents[key])
      ensures !found && count < capacity ==>
        entries[idx].key == 0 && Probed(hash, entries[..], key, Dist(capacity, Natural(hash, capacity, key), idx))
    {
      hide Table, Probed, Natural, Next, DoubledFrom;
      ghost var u, n := entries[..], Natural(hash, capacity, key);
      idx := Natural(hash, capacity, key);
      ProbeStart(hash, u, key);
      var probe := 0;
      while probe < capacity && entries[idx].key != 0
        invariant 0 <= probe <= capacity && 0 <= idx < capacity
        invariant Probed(hash, u, key, probe)
        invariant probe < capacity ==> Dist(capacity, n, idx) == probe
      {
        if entries[idx].key == key {
          InMap(hash, u, seam, Contents, idx);
          return true, idx;
        }
        ProbeOn(hash, u, key, idx);
        idx := Next(capacity, idx);
        probe := probe + 1;
      }
      ProbeMisses(hash, u, seam, Contents, key, idx);
      if probe == capacity {
        ProbeFull(hash, u, seam, Contents, key);
      }
      return false, idx;
    }

    /** Removes `key` and returns its class, or -1 when it is not there. */
    method Remove(key: nat) returns (classIdx: int)
      requires Valid()
      modifies this, entries
      ensures Valid() && entries == old(entries) && capacity == old(capacity)
      ensures classIdx == if key in old(Contents) then old(Contents)[key] else -1
      ensures Contents == old(Contents) - {key}
      ensures count == old(count) - if key in old(Contents) then 1 else 0
    {
      hide Table, Probed, Natural;
      var found, idx := Probe(key);
      if !found {
        assert Contents - {key} == Contents;
        return -1;
      }
      classIdx := entries[idx].cls;
      Vacate(idx);
      count := count - 1;
    }

    /** The backward-shift loop: closes the gap left by the entry at `start`. */
    method Vacate(start: nat)
      requires Valid() && start < capacity && entries[start].key != 0
      modifies this`Contents, entries
      ensures Table(hash, entries[..], seam, Contents)
      ensures Contents == old(Contents) - {old(entries[start].key)}
    {
      hide Table, Shifting, Used, Natural, Next, Distance, Rank, Dist, DoubledFrom;
      ghost var key, c, u, s := entries[start].key, capacity, entries[..], seam;
      assert |u| == c;
      ghost var m := Contents - {key};
      ShiftStart(hash, u, s, Contents, start);
      var hole := start;
      var next := Next(capacity, hole);
      var shift := 0;
      ghost var first := Rank(c, s, start) + 1;
      NextRank(c, s, start);
      while shift < capacity && entries[next].key != 0
        invariant 0 <= shift <= c && 0 <= next < c && 0 <= hole < c
        invariant Shifting(hash, entries[..], s, m, start, hole, first + shift)
        invariant shift < c ==> Rank(c, s, next) == if first + shift < c then first + shift else first + shift - c
        modifies entries
      {
        ghost var t := entries[..];
        ShiftRound(hash, t, s, m, start, hole, first + shift, next);
        var natural := Natural(hash, capacity, entries[next].key);
        var distNaturalToNext := Distance(capacity, natural, next);
        var distNaturalToHole := Distance(capacity, natural, hole);
        if distNaturalToHole <= distNaturalToNext {
          entries[hole] := entries[next];
          assert entries[..] == t[hole := t[next]];
          hole := next;
        }
        NextRank(c, s, next);
        next := Next(capacity, next);
        shift := shift + 1;
      }
      ghost var t := entries[..];
      ShiftDone(hash, t, s, m, start, hole, first + shift, next);
      entries[hole] := entries[hole].(key := 0);
      assert entries[..] == t[hole := t[hole].(key := 0)];
      Contents := m;
    }
  }
}
