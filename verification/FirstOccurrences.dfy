/** Dropping repeats from a list by key, as a walk with a hash set of the keys seen so far does. */
module FirstOccurrences {
  function Seen<T, K(==)>(xs: seq<T>, key: T -> K): set<K> {
    set i | 0 <= i < |xs| :: key(xs[i])
  }

  /** The first of each key, in order. */
  function Firsts<T, K(==)>(xs: seq<T>, key: T -> K): seq<T> {
    if xs == [] then []
    else
      var before, last := xs[..|xs| - 1], xs[|xs| - 1];
      if key(last) in Seen(before, key) then Firsts(before, key) else Firsts(before, key) + [last]
  }

  ghost predicate IsFirst<T, K>(xs: seq<T>, key: T -> K, n: nat)
    requires n < |xs|
  {
    forall m | 0 <= m < n :: key(xs[m]) != key(xs[n])
  }

  /** `picked` is `xs` at the positions `at`: in order, and exactly those whose key did not occur before. */
  ghost predicate PicksFirsts<T, K>(picked: seq<T>, xs: seq<T>, key: T -> K, at: seq<nat>) {
    && |at| == |picked|
    && (forall i, j :: 0 <= i < j < |at| ==> at[i] < at[j])
    && (forall i | 0 <= i < |at| :: at[i] < |xs| && picked[i] == xs[at[i]])
    && (forall n: nat | n < |xs| :: n in at <==> IsFirst(xs, key, n))
  }

  lemma PickOneMore<T, K>(picked: seq<T>, xs: seq<T>, x: T, key: T -> K, at: seq<nat>)
    requires PicksFirsts(picked, xs, key, at)
    ensures if key(x) in Seen(xs, key) then PicksFirsts(picked, xs + [x], key, at)
            else PicksFirsts(picked + [x], xs + [x], key, at + [|xs|])
  {
    var all, n := xs + [x], |xs|;
    assert all[n] == x && forall m | 0 <= m < n :: all[m] == xs[m];
    assert IsFirst(all, key, n) <==> key(x) !in Seen(xs, key);
    assert forall m: nat | m < n :: IsFirst(all, key, m) <==> IsFirst(xs, key, m);
    assert forall m: nat :: m in at + [n] <==> m in at || m == n;
    assert forall i | 0 <= i < |at| :: at[i] in at;
  }

  lemma {:induction false} FirstsArePicked<T, K>(xs: seq<T>, key: T -> K) returns (at: seq<nat>)
    ensures PicksFirsts(Firsts(xs, key), xs, key, at)
  {
    at := [];
    if xs != [] {
      var before, last := xs[..|xs| - 1], xs[|xs| - 1];
      at := FirstsArePicked(before, key);
      PickOneMore(Firsts(before, key), before, last, key, at);
      assert xs == before + [last];
      if key(last) !in Seen(before, key) {
        at := at + [|before|];
      }
    }
  }

  lemma PickedKeysAreDistinct<T, K>(picked: seq<T>, xs: seq<T>, key: T -> K, at: seq<nat>)
    requires PicksFirsts(picked, xs, key, at)
    ensures forall i, j :: 0 <= i < j < |picked| ==> key(picked[i]) != key(picked[j])
  {
    forall i, j | 0 <= i < j < |picked| ensures key(picked[i]) != key(picked[j]) {
      assert at[j] in at && IsFirst(xs, key, at[j]);
    }
  }

  lemma FirstsSnoc<T, K>(xs: seq<T>, x: T, key: T -> K)
    ensures Firsts(xs + [x], key) == if key(x) in Seen(xs, key) then Firsts(xs, key) else Firsts(xs, key) + [x]
    ensures Seen(xs + [x], key) == Seen(xs, key) + {key(x)}
  {
    var all := xs + [x];
    assert all[..|xs|] == xs && all[|xs|] == x;
    SeenSnoc(xs, x, key);
  }

  lemma SeenSnoc<T, K>(xs: seq<T>, x: T, key: T -> K)
    ensures Seen(xs + [x], key) == Seen(xs, key) + {key(x)}
  {
    var all := xs + [x];
    assert all[|xs|] == x && forall i | 0 <= i < |xs| :: all[i] == xs[i];
  }

  lemma FirstOfOne<T, K>(x: T, key: T -> K)
    ensures Firsts([x], key) == [x] && Seen([x], key) == {key(x)}
  {
    FirstsSnoc([], x, key);
    assert [] + [x] == [x];
  }

  lemma StartsAtFirst<T, K>(picked: seq<T>, xs: seq<T>, key: T -> K, at: seq<nat>)
    requires PicksFirsts(picked, xs, key, at) && xs != []
    ensures picked != [] && picked[0] == xs[0]
  {
    assert IsFirst(xs, key, 0);
    var i :| 0 <= i < |at| && at[i] == 0;
    assert at[0] <= at[i];
  }

  lemma {:induction false} FirstsAreMembers<T, K>(xs: seq<T>, key: T -> K)
    ensures forall x | x in Firsts(xs, key) :: x in xs
  {
    if xs != [] {
      FirstsAreMembers(xs[..|xs| - 1], key);
    }
  }

  /** Whatever is dropped, its key stays. */
  lemma {:induction false} NoKeyIsLost<T, K>(xs: seq<T>, key: T -> K)
    ensures Seen(Firsts(xs, key), key) == Seen(xs, key)
  {
    if xs != [] {
      var before, last := xs[..|xs| - 1], xs[|xs| - 1];
      NoKeyIsLost(before, key);
      KeyStays(before, last, key);
      assert xs == before + [last];
    }
  }

  lemma KeyStays<T, K>(xs: seq<T>, x: T, key: T -> K)
    requires Seen(Firsts(xs, key), key) == Seen(xs, key)
    ensures Seen(Firsts(xs + [x], key), key) == Seen(xs + [x], key)
  {
    FirstsSnoc(xs, x, key);
    SeenSnoc(Firsts(xs, key), x, key);
  }

  /** Only the first stays exactly when every other one has its key. */
  lemma {:induction false} OnlyTheFirstStays<T, K>(first: T, rest: seq<T>, key: T -> K)
    ensures Firsts([first] + rest, key) == [first] <==> forall x | x in rest :: key(x) == key(first)
  {
    var all := [first] + rest;
    if rest == [] {
      FirstOfOne(first, key);
      assert all == [first];
    } else {
      var n := |rest| - 1;
      OnlyTheFirstStays(first, rest[..n], key);
      assert all == [first] + rest[..n] + [rest[n]];
      FirstsSnoc([first] + rest[..n], rest[n], key);
      StartsWithSomething([first] + rest[..n], key);
      assert forall x :: x in rest <==> x in rest[..n] || x == rest[n];
      assert ([first] + rest[..n])[0] == first;
      if Firsts(all, key) == [first] {
        KeyOfTheRest(all, key, first, rest[n]);
      }
    }
  }

  lemma StartsWithSomething<T, K>(xs: seq<T>, key: T -> K)
    requires xs != []
    ensures Firsts(xs, key) != []
  {
    var at := FirstsArePicked(xs, key);
    StartsAtFirst(Firsts(xs, key), xs, key, at);
  }

  lemma KeyOfTheRest<T, K>(xs: seq<T>, key: T -> K, first: T, x: T)
    requires Firsts(xs, key) == [first] && x in xs
    ensures key(x) == key(first)
  {
    NoKeyIsLost(xs, key);
    FirstOfOne(first, key);
    var i :| 0 <= i < |xs| && xs[i] == x;
    assert key(xs[i]) in Seen(xs, key);
    assert Seen([first], key) == {key(first)};
  }
}
