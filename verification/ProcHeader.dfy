/** The header of a /proc/net table: which field of a row carries which column. */
module ProcHeader {
  const TX := "tx_queue"
  const RX := "rx_queue"
  const TR := "tr"
  const WHEN := "tm->when"
  const LOCAL := "local_address"
  const UID := "uid"

  lemma NamesApart()
    ensures TX != RX && TX[1] == RX[1] == 'x' && TR[1] == 'r' && WHEN[1] == 'm' && LOCAL[1] == 'o' && UID[1] == 'i'
  {
  }

  ghost predicate Seen(columns: seq<string>, n: nat, name: string)
    requires n <= |columns|
  {
    exists i :: 0 <= i < n && columns[i] == name
  }

  /** Whether both columns of a pair stand before column n. */
  ghost predicate PairSeen(columns: seq<string>, n: nat, a: string, b: string)
    requires n <= |columns|
  {
    Seen(columns, n, a) && Seen(columns, n, b)
  }

  ghost function Shift(columns: seq<string>, n: nat): nat
    requires n <= |columns|
  {
    (if PairSeen(columns, n, TX, RX) then 1 else 0) + (if PairSeen(columns, n, TR, WHEN) then 1 else 0)
  }

  /** What the discovery records for a column: the last one of that name, moved left
      by one for each pair before it; -1 for a name that is not in the header. */
  ghost predicate Recorded(columns: seq<string>, n: nat, name: string, index: int)
    requires n <= |columns|
  {
    if Seen(columns, n, name)
    then exists i :: 0 <= i < n && columns[i] == name && !SeenFrom(columns, i + 1, n, name)
                     && index == i - Shift(columns, i)
    else index == -1
  }

  ghost predicate SeenFrom(columns: seq<string>, from: nat, n: nat, name: string)
    requires n <= |columns|
  {
    exists i :: from <= i < n && columns[i] == name
  }

  ghost predicate Flags(columns: seq<string>, n: nat, txQueue: bool, rxQueue: bool, tr: bool, tmWhen: bool)
    requires n <= |columns|
  {
    txQueue == Seen(columns, n, TX) && rxQueue == Seen(columns, n, RX)
    && tr == Seen(columns, n, TR) && tmWhen == Seen(columns, n, WHEN)
  }

  lemma FlagsNext(columns: seq<string>, n: nat, txQueue: bool, rxQueue: bool, tr: bool, tmWhen: bool)
    requires n < |columns| && Flags(columns, n, txQueue, rxQueue, tr, tmWhen)
    ensures var c := columns[n];
            Flags(columns, n + 1, txQueue || c == TX, rxQueue || c == RX, tr || c == TR, tmWhen || c == WHEN)
    ensures Shift(columns, n) == (if txQueue && rxQueue then 1 else 0) + if tr && tmWhen then 1 else 0
  {
    SeenNext(columns, n);
  }

  /** The loop over the header, with its four flags. */
  method Discover(columns: seq<string>) returns (local: int, uid: int)
    ensures Recorded(columns, |columns|, LOCAL, local)
    ensures Recorded(columns, |columns|, UID, uid)
  {
    local, uid := -1, -1;
    var txQueue, rxQueue, tr, tmWhen := false, false, false, false;
    for idx := 0 to |columns|
      invariant Flags(columns, idx, txQueue, rxQueue, tr, tmWhen)
      invariant Recorded(columns, idx, LOCAL, local) && Recorded(columns, idx, UID, uid)
    {
      var offset := 0;
      if txQueue && rxQueue {
        offset := offset - 1;
      }
      if tr && tmWhen {
        offset := offset - 1;
      }
      var col := columns[idx];
      FlagsNext(columns, idx, txQueue, rxQueue, tr, tmWhen);
      RecordedNext(columns, idx, LOCAL, local);
      RecordedNext(columns, idx, UID, uid);
      NamesApart();
      if col == TX {
        txQueue := true;
      } else if col == RX {
        rxQueue := true;
      } else if col == TR {
        tr := true;
      } else if col == WHEN {
        tmWhen := true;
      } else if col == LOCAL {
        local := idx + offset;
      } else if col == UID {
        uid := idx + offset;
      }
    }
  }

  lemma SeenNext(columns: seq<string>, n: nat)
    requires n < |columns|
    ensures forall name :: Seen(columns, n + 1, name) == (Seen(columns, n, name) || columns[n] == name)
  {
    forall name ensures Seen(columns, n + 1, name) <==> Seen(columns, n, name) || columns[n] == name {
      if columns[n] == name {
        assert Seen(columns, n + 1, name);
      }
    }
  }

  lemma RecordedNext(columns: seq<string>, n: nat, name: string, index: int)
    requires n < |columns| && Recorded(columns, n, name, index)
    ensures Recorded(columns, n + 1, name, if columns[n] == name then n - Shift(columns, n) else index)
  {
    SeenNext(columns, n);
    if columns[n] == name {
      assert !SeenFrom(columns, n + 1, n + 1, name);
    } else if Seen(columns, n, name) {
      var i :| 0 <= i < n && columns[i] == name && !SeenFrom(columns, i + 1, n, name) && index == i - Shift(columns, i);
      assert !SeenFrom(columns, i + 1, n + 1, name);
    }
  }

  // ----- The fields of a row

  predicate Paired(name: string) {
    name == TX || name == RX || name == TR || name == WHEN
  }

  predicate IsPair(a: string, b: string) {
    (a == TX && b == RX) || (a == RX && b == TX) || (a == TR && b == WHEN) || (a == WHEN && b == TR)
  }

  /** The columns each field of a row stands for: one each, but a pair that is adjacent
      in the header is written as one field. */
  ghost function Fields(columns: seq<string>, n: nat): (fields: seq<seq<string>>)
    requires n <= |columns|
    ensures n > 0 ==> |fields| > 0 && columns[n - 1] in fields[|fields| - 1]
  {
    if n == 0 then [] else
    var before := Fields(columns, n - 1);
    if n > 1 && IsPair(columns[n - 2], columns[n - 1])
    then before[|before| - 1 := before[|before| - 1] + [columns[n - 1]]]
    else before + [[columns[n - 1]]]
  }

  ghost predicate Distinct(columns: seq<string>) {
    forall i, j :: 0 <= i < j < |columns| ==> columns[i] != columns[j]
  }

  /** Columns i - 1 and i are the pair, in either order. */
  ghost predicate Touch(columns: seq<string>, i: nat, a: string, b: string)
    requires 0 < i < |columns|
  {
    (columns[i - 1] == a && columns[i] == b) || (columns[i - 1] == b && columns[i] == a)
  }

  ghost predicate AdjacentBefore(columns: seq<string>, n: nat, a: string, b: string)
    requires n <= |columns|
  {
    exists i :: 0 < i < n && Touch(columns, i, a, b)
  }

  ghost predicate Adjacent(columns: seq<string>, a: string, b: string) {
    AdjacentBefore(columns, |columns|, a, b)
  }

  ghost function Merged(columns: seq<string>, n: nat): nat
    requires n <= |columns|
  {
    (if AdjacentBefore(columns, n, TX, RX) then 1 else 0) + (if AdjacentBefore(columns, n, TR, WHEN) then 1 else 0)
  }

  lemma AdjacentNext(columns: seq<string>, n: nat, a: string, b: string)
    requires n < |columns| && Distinct(columns) && a != b
    ensures AdjacentBefore(columns, n + 1, a, b)
            <==> AdjacentBefore(columns, n, a, b)
                 || (n > 0 && Touch(columns, n, a, b))
    ensures AdjacentBefore(columns, n, a, b) ==> columns[n] != a && columns[n] != b
  {
  }

  lemma MergedNext(columns: seq<string>, n: nat)
    requires n < |columns| && Distinct(columns)
    ensures Merged(columns, n + 1) == Merged(columns, n) + if n > 0 && IsPair(columns[n - 1], columns[n]) then 1 else 0
  {
    NamesApart();
    AdjacentNext(columns, n, TX, RX);
    AdjacentNext(columns, n, TR, WHEN);
    if n > 0 {
      assert IsPair(columns[n - 1], columns[n]) <==> Touch(columns, n, TX, RX) || Touch(columns, n, TR, WHEN);
    }
  }

  /** A row has one field fewer for each adjacent pair. */
  lemma {:induction false} FieldCount(columns: seq<string>, n: nat)
    requires n <= |columns| && Distinct(columns)
    ensures |Fields(columns, n)| == n - Merged(columns, n)
  {
    if n > 0 {
      FieldCount(columns, n - 1);
      MergedNext(columns, n - 1);
    }
  }

  /** Later columns never move the field of an earlier one. */
  lemma {:induction false} FieldHolds(columns: seq<string>, i: nat, n: nat)
    requires i < n <= |columns|
    ensures 0 < |Fields(columns, i + 1)| <= |Fields(columns, n)|
    ensures columns[i] in Fields(columns, n)[|Fields(columns, i + 1)| - 1]
  {
    if i < n - 1 {
      FieldHolds(columns, i, n - 1);
    }
  }

  /** A name stands in no field but that of one of its columns. */
  lemma {:induction false} FieldOfSome(columns: seq<string>, n: nat, k: nat, name: string) returns (i: nat)
    requires n <= |columns| && k < |Fields(columns, n)| && name in Fields(columns, n)[k]
    ensures i < n && columns[i] == name && k == |Fields(columns, i + 1)| - 1
  {
    var before := Fields(columns, n - 1);
    if k < |before| && name in before[k] {
      i := FieldOfSome(columns, n - 1, k, name);
    } else {
      i := n - 1;
    }
  }

  ghost predicate IsField(columns: seq<string>, name: string, index: int) {
    0 <= index < |Fields(columns, |columns|)| && name in Fields(columns, |columns|)[index]
  }

  lemma PairBefore(columns: seq<string>, n: nat, a: string, b: string)
    requires n < |columns| && Distinct(columns) && a != b && columns[n] != a && columns[n] != b
    ensures AdjacentBefore(columns, n, a, b) <==> PairSeen(columns, n, a, b) && Adjacent(columns, a, b)
  {
    if AdjacentBefore(columns, n, a, b) {
      var i :| 0 < i < n && Touch(columns, i, a, b);
      assert columns[i - 1] == a || columns[i - 1] == b;
    }
    if PairSeen(columns, n, a, b) && Adjacent(columns, a, b) {
      var i :| 0 < i < |columns| && Touch(columns, i, a, b);
      var j :| 0 <= j < n && columns[j] == a;
      var l :| 0 <= l < n && columns[l] == b;
      assert i == j || i == l;
    }
  }

  lemma FieldAt(columns: seq<string>, n: nat)
    requires n < |columns| && Distinct(columns) && !Paired(columns[n])
    ensures |Fields(columns, n + 1)| - 1 == n - Merged(columns, n)
  {
    NamesApart();
    FieldCount(columns, n + 1);
    MergedNext(columns, n);
  }

  /** A column's field is the number of columns before it, less the pairs merged before it. */
  lemma FieldIs(columns: seq<string>, n: nat, index: int)
    requires n < |columns| && Distinct(columns) && !Paired(columns[n])
    ensures IsField(columns, columns[n], index) <==> index == n - Merged(columns, n)
  {
    FieldAt(columns, n);
    FieldHolds(columns, n, |columns|);
    if IsField(columns, columns[n], index) {
      var i := FieldOfSome(columns, |columns|, index, columns[n]);
      assert i == n;
    }
  }

  /** The pairs that stand wholly before column n are adjacent. */
  ghost predicate PairsMerged(columns: seq<string>, n: nat)
    requires n <= |columns|
  {
    && (PairSeen(columns, n, TX, RX) ==> Adjacent(columns, TX, RX))
    && (PairSeen(columns, n, TR, WHEN) ==> Adjacent(columns, TR, WHEN))
  }

  lemma ShiftIsMerged(columns: seq<string>, n: nat)
    requires n < |columns| && Distinct(columns) && !Paired(columns[n])
    ensures Shift(columns, n) == Merged(columns, n) <==> PairsMerged(columns, n)
  {
    PairBefore(columns, n, TX, RX);
    PairBefore(columns, n, TR, WHEN);
  }

  /** The recorded index is where rows carry the column exactly when every pair that
      stands wholly before the column is adjacent in the header. */
  lemma DiscoveredExactly(columns: seq<string>, name: string, index: int)
    requires Distinct(columns) && name in [LOCAL, UID]
    requires Recorded(columns, |columns|, name, index)
    ensures IsField(columns, name, index)
            <==> exists n :: 0 <= n < |columns| && columns[n] == name && PairsMerged(columns, n)
  {
    if Seen(columns, |columns|, name) {
      var n :| 0 <= n < |columns| && columns[n] == name && index == n - Shift(columns, n);
      NamesApart();
      FieldIs(columns, n, index);
      ShiftIsMerged(columns, n);
    }
  }

  /** A column stands in one field only. */
  lemma FieldIsUnique(columns: seq<string>, name: string, i: int, j: int)
    requires Distinct(columns) && !Paired(name) && IsField(columns, name, i) && IsField(columns, name, j)
    ensures i == j
  {
    var n := FieldOfSome(columns, |columns|, i, name);
    FieldIs(columns, n, i);
    FieldIs(columns, n, j);
  }

  /** A header whose queue columns stand apart: the loop takes UID for field 2, but it is field 3. */
  lemma SeparatedPairMisleads(columns: seq<string>, index: int)
    requires columns == [TX, "sl", RX, UID]
    requires Recorded(columns, 4, UID, index)
    ensures index == 2 && !IsField(columns, UID, index) && IsField(columns, UID, 3)
  {
    NamesApart();
    assert columns[3] == UID && columns[0] == TX && columns[2] == RX && columns[1][1] == 'l';
    assert Seen(columns, 4, UID) && PairSeen(columns, 3, TX, RX);
    assert |WHEN| == 8 && WHEN[1] == 'm';
    assert !Seen(columns, 3, WHEN);
    assert Shift(columns, 3) == 1;
    assert !AdjacentBefore(columns, 3, TX, RX) && !AdjacentBefore(columns, 3, TR, WHEN);
    FieldIs(columns, 3, index);
    FieldIs(columns, 3, 3);
  }
}
