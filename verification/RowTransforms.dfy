/**
 Transforms of a list of rows, for any kind of row: dropping marked rows, finding
 the first marked row, and inserting one row behind every anchor.
 */
module RowTransforms {
  import opened Wrappers

  function Drop<T>(rows: seq<T>, marked: T -> bool): seq<T>
  {
    if rows == [] then []
    else (if marked(rows[0]) then [] else [rows[0]]) + Drop(rows[1..], marked)
  }

  function First<T>(rows: seq<T>, marked: T -> bool): Option<T>
  {
    if rows == [] then None
    else if marked(rows[0]) then Some(rows[0])
    else First(rows[1..], marked)
  }

  function InsertBehind<T>(rows: seq<T>, anchor: T -> bool, extra: T): seq<T>
  {
    if rows == [] then []
    else (if anchor(rows[0]) then [rows[0], extra] else [rows[0]]) + InsertBehind(rows[1..], anchor, extra)
  }

  predicate Any<T>(rows: seq<T>, p: T -> bool)
  {
    rows != [] && (p(rows[0]) || Any(rows[1..], p))
  }

  lemma {:induction false} AnyIff<T(!new)>(rows: seq<T>, p: T -> bool)
    ensures Any(rows, p) <==> exists i :: 0 <= i < |rows| && p(rows[i])
  {
    if rows != [] {
      AnyIff(rows[1..], p);
      if i :| 0 <= i < |rows| && p(rows[i]) {
        if i > 0 { assert rows[1..][i - 1] == rows[i]; }
      }
    }
  }

  function Mapped<T>(rows: seq<T>, f: T -> T): (out: seq<T>)
    ensures |out| == |rows|
    ensures forall i :: 0 <= i < |rows| ==> out[i] == f(rows[i])
  {
    seq(|rows|, i requires 0 <= i < |rows| => f(rows[i]))
  }

  lemma {:induction false} DropSnoc<T>(rows: seq<T>, row: T, marked: T -> bool)
    ensures Drop(rows + [row], marked) == Drop(rows, marked) + if marked(row) then [] else [row]
  {
    if rows == [] {
      assert ([row])[1..] == [];
      assert rows + [row] == [row];
    } else {
      assert (rows + [row])[1..] == rows[1..] + [row];
      DropSnoc(rows[1..], row, marked);
    }
  }

  lemma {:induction false} InsertSnoc<T>(rows: seq<T>, row: T, anchor: T -> bool, extra: T)
    ensures InsertBehind(rows + [row], anchor, extra)
         == InsertBehind(rows, anchor, extra) + if anchor(row) then [row, extra] else [row]
  {
    if rows == [] {
      assert ([row])[1..] == [];
      assert rows + [row] == [row];
    } else {
      assert (rows + [row])[1..] == rows[1..] + [row];
      InsertSnoc(rows[1..], row, anchor, extra);
    }
  }

  lemma {:induction false} FirstSnoc<T>(rows: seq<T>, row: T, marked: T -> bool)
    ensures First(rows + [row], marked) ==
            if First(rows, marked).Some? then First(rows, marked) else if marked(row) then Some(row) else None
  {
    if rows == [] {
      assert ([row])[1..] == [];
      assert rows + [row] == [row];
    } else {
      assert (rows + [row])[1..] == rows[1..] + [row];
      FirstSnoc(rows[1..], row, marked);
    }
  }

  lemma {:induction false} FirstIsMarked<T>(rows: seq<T>, marked: T -> bool)
    ensures First(rows, marked).Some? ==> marked(First(rows, marked).value) && First(rows, marked).value in rows
    ensures First(rows, marked).Some? <==> Any(rows, marked)
  {
    if rows != [] {
      FirstIsMarked(rows[1..], marked);
    }
  }

  lemma {:induction false} DropIsUnmarked<T>(rows: seq<T>, marked: T -> bool)
    ensures !Any(Drop(rows, marked), marked)
    ensures forall r :: r in Drop(rows, marked) ==> r in rows
  {
    if rows != [] {
      DropIsUnmarked(rows[1..], marked);
      assert !marked(rows[0]) ==> Drop(rows, marked)[1..] == Drop(rows[1..], marked);
      assert marked(rows[0]) ==> Drop(rows, marked) == Drop(rows[1..], marked);
    }
  }

  lemma {:induction false} DropNothing<T>(rows: seq<T>, marked: T -> bool)
    requires !Any(rows, marked)
    ensures Drop(rows, marked) == rows && First(rows, marked) == None
  {
    if rows != [] {
      DropNothing(rows[1..], marked);
      assert [rows[0]] + rows[1..] == rows;
    }
  }

  /** Dropping marked rows undoes the insertion of a marked row. */
  lemma {:induction false} DropUndoesInsert<T>(rows: seq<T>, marked: T -> bool, anchor: T -> bool, extra: T)
    requires !Any(rows, marked) && marked(extra)
    ensures Drop(InsertBehind(rows, anchor, extra), marked) == rows
  {
    if rows != [] {
      var rest := InsertBehind(rows[1..], anchor, extra);
      DropUndoesInsert(rows[1..], marked, anchor, extra);
      if anchor(rows[0]) {
        assert ([rows[0], extra] + rest)[1..] == [extra] + rest;
        assert ([extra] + rest)[1..] == rest;
        assert Drop([extra] + rest, marked) == Drop(rest, marked);
      } else {
        assert ([rows[0]] + rest)[1..] == rest;
      }
      assert [rows[0]] + rows[1..] == rows;
    }
  }

  /** The first marked row after the insertion is the inserted one, if there was an anchor. */
  lemma {:induction false} FirstOfInsert<T>(rows: seq<T>, marked: T -> bool, anchor: T -> bool, extra: T)
    requires !Any(rows, marked) && marked(extra)
    ensures First(InsertBehind(rows, anchor, extra), marked) == if Any(rows, anchor) then Some(extra) else None
  {
    if rows != [] {
      var rest := InsertBehind(rows[1..], anchor, extra);
      FirstOfInsert(rows[1..], marked, anchor, extra);
      if anchor(rows[0]) {
        assert ([rows[0], extra] + rest)[1..] == [extra] + rest;
        assert First([extra] + rest, marked) == Some(extra);
      } else {
        assert ([rows[0]] + rest)[1..] == rest;
      }
    }
  }

  /** Dropping marked rows keeps an anchor when no anchor is marked. */
  lemma {:induction false} DropKeepsAnchors<T>(rows: seq<T>, marked: T -> bool, anchor: T -> bool)
    requires forall r :: r in rows && marked(r) ==> !anchor(r)
    ensures Any(Drop(rows, marked), anchor) == Any(rows, anchor)
  {
    if rows != [] {
      DropKeepsAnchors(rows[1..], marked, anchor);
      assert !marked(rows[0]) ==> Drop(rows, marked)[1..] == Drop(rows[1..], marked);
      assert marked(rows[0]) ==> Drop(rows, marked) == Drop(rows[1..], marked);
    }
  }

  lemma {:induction false} InsertElements<T>(rows: seq<T>, anchor: T -> bool, extra: T)
    ensures forall r :: r in InsertBehind(rows, anchor, extra) ==> r in rows || r == extra
    ensures |InsertBehind(rows, anchor, extra)| >= |rows|
  {
    if rows != [] {
      InsertElements(rows[1..], anchor, extra);
    }
  }

  // ----- where each row goes

  ghost predicate Increasing(idx: seq<nat>)
  {
    forall j, k :: 0 <= j < k < |idx| ==> idx[j] < idx[k]
  }

  /** Dropping keeps exactly the unmarked rows, in order: the k-th one kept stood at idx[k]. */
  ghost predicate KeepsAt<T(!new)>(rows: seq<T>, marked: T -> bool, out: seq<T>, idx: seq<nat>)
  {
    && |idx| == |out| && Increasing(idx)
    && (forall k :: 0 <= k < |idx| ==> idx[k] < |rows| && out[k] == rows[idx[k]])
    && (forall i :: 0 <= i < |rows| ==> (!marked(rows[i]) <==> i in idx))
  }

  lemma KeepsOneMore<T(!new)>(rows: seq<T>, marked: T -> bool, out: seq<T>, idx: seq<nat>)
    requires rows != [] && KeepsAt(rows[..|rows| - 1], marked, out, idx)
    ensures var n := |rows| - 1;
      if marked(rows[n]) then KeepsAt(rows, marked, out, idx) else KeepsAt(rows, marked, out + [rows[n]], idx + [n])
  {
    var n := |rows| - 1;
    var before := rows[..n];
    forall i | 0 <= i < |before| ensures rows[i] == before[i] && (!marked(rows[i]) <==> i in idx) {
    }
  }

  lemma {:induction false} DropIndices<T(!new)>(rows: seq<T>, marked: T -> bool) returns (idx: seq<nat>)
    ensures KeepsAt(rows, marked, Drop(rows, marked), idx)
  {
    idx := [];
    if rows != [] {
      var n := |rows| - 1;
      idx := DropIndices(rows[..n], marked);
      KeepsOneMore(rows, marked, Drop(rows[..n], marked), idx);
      DropSnoc(rows[..n], rows[n], marked);
      assert rows == rows[..n] + [rows[n]];
      if !marked(rows[n]) { idx := idx + [n]; }
    }
  }

  /** Where row k stands after the insertion: behind the rows before it and one extra row for each anchor among them. */
  function PlaceOf<T>(rows: seq<T>, anchor: T -> bool, k: nat): nat
    requires k <= |rows|
  {
    if k == 0 then 0 else PlaceOf(rows, anchor, k - 1) + if anchor(rows[k - 1]) then 2 else 1
  }

  lemma {:induction false} PlaceOfPrefix<T>(rows: seq<T>, anchor: T -> bool, k: nat)
    requires k < |rows|
    ensures PlaceOf(rows[..|rows| - 1], anchor, k) == PlaceOf(rows, anchor, k)
  {
    if k > 0 { PlaceOfPrefix(rows, anchor, k - 1); }
  }

  /** The insertion keeps all rows in order, and puts the extra row directly behind each anchor and nowhere else. */
  lemma {:induction false} InsertPlaces<T>(rows: seq<T>, anchor: T -> bool, extra: T)
    ensures |InsertBehind(rows, anchor, extra)| == PlaceOf(rows, anchor, |rows|)
    ensures forall k :: 0 <= k < |rows| ==> PlacedAt(rows, anchor, extra, k)
  {
    if rows != [] {
      var n := |rows| - 1;
      var before := rows[..n];
      InsertPlaces(before, anchor, extra);
      InsertSnoc(before, rows[n], anchor, extra);
      assert rows == before + [rows[n]];
      PlaceOfPrefix(rows, anchor, n);
      forall k | 0 <= k < |rows| ensures PlacedAt(rows, anchor, extra, k) {
        if k < n {
          assert PlacedAt(before, anchor, extra, k);
          PlaceOfPrefix(rows, anchor, k);
        }
      }
    }
  }

  ghost predicate PlacedAt<T>(rows: seq<T>, anchor: T -> bool, extra: T, k: nat)
    requires k < |rows|
  {
    var out, at := InsertBehind(rows, anchor, extra), PlaceOf(rows, anchor, k);
    at < |out| && out[at] == rows[k] && (anchor(rows[k]) ==> at + 1 < |out| && out[at + 1] == extra)
  }

  ghost predicate NoneBefore<T(!new)>(rows: seq<T>, marked: T -> bool, i: nat)
  {
    forall j :: 0 <= j < i && j < |rows| ==> !marked(rows[j])
  }

  ghost predicate FirstAt<T(!new)>(rows: seq<T>, marked: T -> bool, t: T, i: nat)
  {
    i < |rows| && rows[i] == t && marked(t) && NoneBefore(rows, marked, i)
  }

  lemma FirstAtShift<T(!new)>(rows: seq<T>, marked: T -> bool, t: T, i: nat)
    requires rows != [] && !marked(rows[0])
    ensures FirstAt(rows[1..], marked, t, i) <==> FirstAt(rows, marked, t, i + 1)
  {
    var rest := rows[1..];
    assert forall j :: 0 <= j < |rest| ==> rest[j] == rows[j + 1];
    if FirstAt(rest, marked, t, i) {
      forall j | 0 <= j < i + 1 && j < |rows| ensures !marked(rows[j]) {
        if j > 0 { assert rest[j - 1] == rows[j]; }
      }
    }
  }

  /** The first marked row: marked, with none before it. */
  lemma {:induction false} FirstIff<T(!new)>(rows: seq<T>, marked: T -> bool, t: T)
    ensures First(rows, marked) == Some(t) <==> exists i: nat :: FirstAt(rows, marked, t, i)
  {
    if rows != [] {
      if marked(rows[0]) {
        assert First(rows, marked) == Some(rows[0]);
        if t == rows[0] { assert FirstAt(rows, marked, t, 0); }
      } else {
        FirstIff(rows[1..], marked, t);
        if First(rows, marked) == Some(t) {
          var i: nat :| FirstAt(rows[1..], marked, t, i);
          FirstAtShift(rows, marked, t, i);
        }
        if i: nat :| FirstAt(rows, marked, t, i) {
          FirstAtShift(rows, marked, t, i - 1);
        }
      }
    }
  }

  // ----- one more row of a mapped list, as the loops see it

  lemma MappedPrefix<T>(rows: seq<T>, i: nat, f: T -> T)
    requires i < |rows|
    ensures Mapped(rows[..i + 1], f) == Mapped(rows[..i], f) + [f(rows[i])]
  {
  }

  lemma DropPrefix<T>(rows: seq<T>, i: nat, f: T -> T, marked: T -> bool)
    requires i < |rows|
    ensures Drop(Mapped(rows[..i + 1], f), marked)
         == Drop(Mapped(rows[..i], f), marked) + if marked(f(rows[i])) then [] else [f(rows[i])]
  {
    MappedPrefix(rows, i, f);
    DropSnoc(Mapped(rows[..i], f), f(rows[i]), marked);
  }

  lemma FirstPrefix<T>(rows: seq<T>, i: nat, f: T -> T, marked: T -> bool)
    requires i < |rows| && First(Mapped(rows[..i], f), marked) == None
    ensures marked(f(rows[i])) ==> First(Mapped(rows, f), marked) == Some(f(rows[i]))
    ensures !marked(f(rows[i])) ==> First(Mapped(rows[..i + 1], f), marked) == None
  {
    MappedPrefix(rows, i, f);
    FirstSnoc(Mapped(rows[..i], f), f(rows[i]), marked);
    if marked(f(rows[i])) {
      FirstGrows(rows, i + 1, f, marked);
    }
  }

  lemma {:induction false} FirstGrows<T>(rows: seq<T>, n: nat, f: T -> T, marked: T -> bool)
    requires n <= |rows| && First(Mapped(rows[..n], f), marked).Some?
    ensures First(Mapped(rows, f), marked) == First(Mapped(rows[..n], f), marked)
    decreases |rows| - n
  {
    if n == |rows| {
      assert rows[..n] == rows;
    } else {
      MappedPrefix(rows, n, f);
      FirstSnoc(Mapped(rows[..n], f), f(rows[n]), marked);
      FirstGrows(rows, n + 1, f, marked);
    }
  }

  lemma InsertPrefix<T>(rows: seq<T>, i: nat, anchor: T -> bool, extra: T)
    requires i < |rows|
    ensures InsertBehind(rows[..i + 1], anchor, extra)
         == InsertBehind(rows[..i], anchor, extra) + if anchor(rows[i]) then [rows[i], extra] else [rows[i]]
  {
    assert rows[..i + 1] == rows[..i] + [rows[i]];
    InsertSnoc(rows[..i], rows[i], anchor, extra);
  }

  lemma MappedFixed<T>(rows: seq<T>, f: T -> T)
    requires forall r :: r in rows ==> f(r) == r
    ensures Mapped(rows, f) == rows
  {
  }

  lemma TakeAll<T>(rows: seq<T>)
    ensures rows[..|rows|] == rows
  {
  }
}
