/** Sequence helpers with Python list semantics. */
module Lists {

  predicate NoDup<T(==)>(s: seq<T>)
  {
    forall i, j :: 0 <= i < j < |s| ==> s[i] != s[j]
  }

  /** `if x not in s: s.append(x)` -- the first-seen-order idiom of the original program. */
  function AppendIfAbsent<T(==)>(s: seq<T>, x: T): (r: seq<T>)
    ensures x in r && s <= r && |r| <= |s| + 1
    ensures x in s ==> r == s
    ensures NoDup(s) ==> NoDup(r)
  {
    if x in s then s else s + [x]
  }

  /** `s.insert(i, x)`: an index at or past the end appends. */
  function Insert<T>(s: seq<T>, i: nat, x: T): (r: seq<T>)
    ensures |r| == |s| + 1
  {
    if i >= |s| then s + [x] else s[..i] + [x] + s[i..]
  }

  function Reverse<T>(s: seq<T>): (r: seq<T>)
    ensures |r| == |s|
  {
    if s == [] then [] else Reverse(s[1..]) + [s[0]]
  }

  /** `for x in xs: s.insert(1, x)`. */
  function InsertEach<T>(s: seq<T>, xs: seq<T>): (r: seq<T>)
    ensures |r| == |s| + |xs|
    decreases |xs|
  {
    if xs == [] then s else Insert(InsertEach(s, xs[..|xs| - 1]), 1, xs[|xs| - 1])
  }

  /** Inserting one by one at position 1 of a non-empty list leaves the head
      in place and puts the inserted elements after it in reverse order. */
  lemma {:induction false} InsertEachAt1<T>(s: seq<T>, xs: seq<T>)
    requires |s| >= 1
    ensures InsertEach(s, xs) == [s[0]] + Reverse(xs) + s[1..]
    decreases |xs|
  {
    if xs != [] {
      var init, x := xs[..|xs| - 1], xs[|xs| - 1];
      InsertEachAt1(s, init);
      ReverseSnoc(init, x);
      var m := [s[0]] + Reverse(init) + s[1..];
      assert m[0] == s[0] && m[1..] == Reverse(init) + s[1..];
      InsertAt1(m, x);
      assert xs == init + [x];
      assert InsertEach(s, xs) == Insert(m, 1, x);
      assert Reverse(xs) == [x] + Reverse(init);
      assert [s[0]] + [x] + (Reverse(init) + s[1..]) == [s[0]] + ([x] + Reverse(init)) + s[1..];
    }
  }

  lemma {:induction false} InsertAt1<T>(m: seq<T>, x: T)
    requires |m| >= 1
    ensures Insert(m, 1, x) == [m[0]] + [x] + m[1..]
  {
  }

  lemma {:induction false} ReverseSnoc<T>(s: seq<T>, x: T)
    ensures Reverse(s + [x]) == [x] + Reverse(s)
    decreases |s|
  {
    if s != [] {
      ReverseSnoc(s[1..], x);
      assert (s + [x])[1..] == s[1..] + [x];
    }
  }

  /** `[x for x in s if x not in drop]`. */
  function Minus<T(==,!new)>(s: seq<T>, drop: seq<T>): (r: seq<T>)
    ensures forall x :: x in r <==> x in s && x !in drop
    decreases |s|
  {
    if s == [] then []
    else if s[0] in drop then Minus(s[1..], drop)
    else [s[0]] + Minus(s[1..], drop)
  }

  /** `AppendIfAbsent` of each element of `xs` in turn. */
  function AddNew<T(==)>(s: seq<T>, xs: seq<T>): (r: seq<T>)
    decreases |xs|
  {
    if xs == [] then s else AppendIfAbsent(AddNew(s, xs[..|xs| - 1]), xs[|xs| - 1])
  }

  /** The elements of `xs` without repetitions, each where it first occurs. */
  function Dedup<T(==)>(xs: seq<T>): seq<T>
  {
    AddNew([], xs)
  }

  /** Adding keeps what was there in front, adds exactly the new elements, and
      keeps a duplicate-free list duplicate-free. */
  lemma {:induction false} AddNewProperties<T>(s: seq<T>, xs: seq<T>)
    ensures s <= AddNew(s, xs)
    ensures forall x :: x in AddNew(s, xs) <==> x in s || x in xs
    ensures NoDup(s) ==> NoDup(AddNew(s, xs))
    decreases |xs|
  {
    if xs != [] {
      var init := xs[..|xs| - 1];
      AddNewProperties(s, init);
      assert forall x :: x in xs <==> x in init || x == xs[|xs| - 1] by {
        assert xs == init + [xs[|xs| - 1]];
      }
    }
  }

  /** Adding two lists in turn is adding their concatenation. */
  lemma {:induction false} AddNewAppend<T>(s: seq<T>, xs: seq<T>, ys: seq<T>)
    ensures AddNew(s, xs + ys) == AddNew(AddNew(s, xs), ys)
    decreases |ys|
  {
    if ys == [] {
      assert xs + ys == xs;
    } else {
      var init := ys[..|ys| - 1];
      AddNewAppend(s, xs, init);
      assert (xs + ys)[..|xs + ys| - 1] == xs + init;
      assert (xs + ys)[|xs + ys| - 1] == ys[|ys| - 1];
    }
  }

  /** Deduplication keeps exactly the elements, once each. */
  lemma {:induction false} DedupMembers<T>(xs: seq<T>)
    ensures NoDup(Dedup(xs))
    ensures forall x :: x in Dedup(xs) <==> x in xs
  {
    AddNewProperties([], xs);
  }

  /** Deduplication keeps exactly the elements, once each, and a longer input
      only extends the result (first-seen order). */
  lemma {:induction false} DedupProperties<T>(xs: seq<T>, ys: seq<T>)
    ensures NoDup(Dedup(xs))
    ensures forall x :: x in Dedup(xs) <==> x in xs
    ensures Dedup(xs) <= Dedup(xs + ys)
  {
    AddNewProperties([], xs);
    AddNewAppend([], xs, ys);
    AddNewProperties(Dedup(xs), ys);
  }

  /** What adding appends behind the original list is new: none of it was
      there before, and none of it is repeated. */
  lemma {:induction false} AddNewFresh<T>(s: seq<T>, xs: seq<T>)
    ensures s <= AddNew(s, xs)
    ensures NoDup(AddNew(s, xs)[|s|..])
    ensures forall x :: x in AddNew(s, xs)[|s|..] ==> x !in s
    decreases |xs|
  {
    if xs != [] {
      var init := xs[..|xs| - 1];
      AddNewFresh(s, init);
      var m := AddNew(s, init);
      var x := xs[|xs| - 1];
      if x !in m {
        assert AddNew(s, xs)[|s|..] == m[|s|..] + [x];
        assert m == s + m[|s|..];
        NoDupConcat(m[|s|..], [x]);
      }
    }
  }

  /** Adding one more element. */
  lemma {:induction false} AddNewSnoc<T>(s: seq<T>, xs: seq<T>, x: T)
    ensures AddNew(s, xs + [x]) == AppendIfAbsent(AddNew(s, xs), x)
  {
    assert (xs + [x])[..|xs|] == xs;
  }

  /** Concatenation regroups freely. */
  lemma {:induction false} SeqAssoc<T>(x: seq<T>, y: seq<T>, z: seq<T>)
    ensures x + y + z == x + (y + z)
  {
  }

  /** `s` with every occurrence of `x` removed (`list.remove` on a list without repeats). */
  function Without<T(==,!new)>(s: seq<T>, x: T): (r: seq<T>)
    ensures forall y :: y in r <==> y in s && y != x
    ensures NoDup(s) ==> NoDup(r)
    ensures |r| <= |s|
    decreases |s|
  {
    if s == [] then []
    else if s[0] == x then Without(s[1..], x)
    else
      assert NoDup(s) ==> NoDup(s[1..]) && s[0] !in s[1..] by {
        if NoDup(s) {
          assert forall i, j :: 0 <= i < j < |s[1..]| ==> s[1..][i] == s[i + 1] && s[1..][j] == s[j + 1];
        }
      }
      [s[0]] + Without(s[1..], x)
  }

  /** `[x for x in s if x in keep]`: the kept elements, in their order. */
  function Only<T(==,!new)>(s: seq<T>, keep: seq<T>): (r: seq<T>)
    ensures forall y :: y in r <==> y in s && y in keep
    ensures |r| <= |s|
    decreases |s|
  {
    if s == [] then []
    else if s[0] in keep then [s[0]] + Only(s[1..], keep)
    else Only(s[1..], keep)
  }

  /** Filtering one more element extends the filtered list by it exactly
      when it is kept. */
  lemma {:induction false} OnlySnoc<T(!new)>(s: seq<T>, x: T, keep: seq<T>)
    ensures Only(s + [x], keep) == Only(s, keep) + (if x in keep then [x] else [])
    decreases |s|
  {
    if s == [] {
      assert [] + [x] == [x];
      assert [x][1..] == [];
    } else {
      assert (s + [x])[0] == s[0];
      assert (s + [x])[1..] == s[1..] + [x];
      OnlySnoc(s[1..], x, keep);
    }
  }

  /** Two duplicate-free lists with nothing in common concatenate to a
      duplicate-free list. */
  lemma {:induction false} NoDupConcat<T>(a: seq<T>, b: seq<T>)
    requires NoDup(a) && NoDup(b) && forall x :: x in a ==> x !in b
    ensures NoDup(a + b)
  {
    forall i, j | 0 <= i < j < |a + b|
      ensures (a + b)[i] != (a + b)[j]
    {
      if j >= |a| && i < |a| {
        assert (a + b)[i] in a && (a + b)[j] in b;
      }
    }
  }

  /** A non-empty list holds its first element. */
  lemma {:induction false} FirstIn<T>(s: seq<T>)
    ensures s != [] ==> s[0] in s
  {
  }

  /** In a list without repeats, an element does not occur before its own
      position. */
  lemma {:induction false} NoDupNotBefore<T>(s: seq<T>, k: nat)
    requires NoDup(s) && k < |s|
    ensures s[k] !in s[..k]
  {
    assert forall j :: 0 <= j < k ==> s[..k][j] == s[j] != s[k];
  }

  /** The elements at the first `i + 1` positions are those at the first
      `i` and the next one. */
  lemma {:induction false} PrefixSetSnoc<T>(s: seq<T>, i: nat)
    requires i < |s|
    ensures (set j | 0 <= j < i + 1 :: s[j]) == (set j | 0 <= j < i :: s[j]) + {s[i]}
  {
  }

  /** The elements of a list, as a set. */
  function Elems<T(!new)>(s: seq<T>): (r: set<T>)
    ensures forall x :: x in r <==> x in s
  {
    set x | x in s
  }

  /** A list without repeats has as many elements as the set of them. */
  lemma {:induction false} NoDupCard<T(!new)>(s: seq<T>)
    requires NoDup(s)
    ensures |Elems(s)| == |s|
  {
    if s != [] {
      var init := s[..|s| - 1];
      assert forall i :: 0 <= i < |init| ==> init[i] == s[i];
      NoDupCard(init);
      NoDupNotBefore(s, |s| - 1);
      assert s == init + [s[|s| - 1]];
      assert Elems(s) == Elems(init) + {s[|s| - 1]};
    }
  }
}
