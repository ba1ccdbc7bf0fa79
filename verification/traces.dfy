/** Reading a trace: the values a function picks out of it, and how often a test holds in it. */
module Traces {
  import opened Packets

  lemma {:induction false} Assoc<T>(a: seq<T>, b: seq<T>, c: seq<T>)
    ensures (a + b) + c == a + (b + c)
  {
  }

  lemma {:induction false} NoMore<T>(xs: seq<T>)
    ensures xs + [] == xs
  {
  }

  function Listed<U>(o: Option<U>): seq<U> { if o.Some? then [o.value] else [] }

  /** The values f picks out of xs, in order. */
  function Collect<T, U>(f: T -> Option<U>, xs: seq<T>): seq<U>
  {
    if xs == [] then []
    else Collect(f, xs[..|xs| - 1]) + Listed(f(xs[|xs| - 1]))
  }

  lemma {:induction false} CollectAppend<T, U>(f: T -> Option<U>, xs: seq<T>, ys: seq<T>)
    ensures Collect(f, xs + ys) == Collect(f, xs) + Collect(f, ys)
  {
    if ys == [] {
      assert xs + [] == xs;
    } else {
      var init := ys[..|ys| - 1];
      assert (xs + ys)[..|xs + ys| - 1] == xs + init;
      CollectAppend(f, xs, init);
    }
  }

  lemma {:induction false} CollectSnoc<T, U>(f: T -> Option<U>, xs: seq<T>, x: T)
    ensures Collect(f, xs + [x]) == Collect(f, xs) + Listed(f(x))
  {
    assert (xs + [x])[..|xs + [x]| - 1] == xs;
  }

  lemma {:induction false} CollectNone<T, U>(f: T -> Option<U>, xs: seq<T>)
    requires forall x :: x in xs ==> f(x).None?
    ensures Collect(f, xs) == []
  {
    if xs != [] {
      var init := xs[..|xs| - 1];
      assert forall x :: x in init ==> x in xs;
      CollectNone(f, init);
    }
  }

  lemma {:induction false} CollectAll<T, U>(f: T -> Option<U>, xs: seq<T>)
    requires forall x :: x in xs ==> f(x).Some?
    ensures |Collect(f, xs)| == |xs|
    ensures forall i :: 0 <= i < |xs| ==> Some(Collect(f, xs)[i]) == f(xs[i])
  {
    if xs != [] {
      var init := xs[..|xs| - 1];
      assert forall x :: x in init ==> x in xs;
      CollectAll(f, init);
    }
  }

  /** How many elements satisfy p. */
  function Count<T>(p: T -> bool, xs: seq<T>): nat
  {
    if xs == [] then 0 else Count(p, xs[..|xs| - 1]) + if p(xs[|xs| - 1]) then 1 else 0
  }

  lemma {:induction false} CountSnoc<T>(p: T -> bool, xs: seq<T>, x: T)
    ensures Count(p, xs + [x]) == Count(p, xs) + if p(x) then 1 else 0
  {
    assert (xs + [x])[..|xs + [x]| - 1] == xs;
  }

  lemma {:induction false} CountAppend<T>(p: T -> bool, xs: seq<T>, ys: seq<T>)
    ensures Count(p, xs + ys) == Count(p, xs) + Count(p, ys)
  {
    if ys == [] {
      assert xs + [] == xs;
    } else {
      var init := ys[..|ys| - 1];
      assert xs + ys == (xs + init) + [ys[|ys| - 1]];
      CountSnoc(p, xs + init, ys[|ys| - 1]);
      CountAppend(p, xs, init);
    }
  }

  lemma {:induction false} CollectShort<T, U>(f: T -> Option<U>, a: T, b: T)
    ensures Collect(f, [a]) == Listed(f(a))
    ensures Collect(f, [a, b]) == Listed(f(a)) + Listed(f(b))
  {
    assert [a][..0] == [] && [a, b][..1] == [a];
    assert Collect(f, [a]) == Collect(f, []) + Listed(f(a));
  }

  lemma {:induction false} CountShort<T>(p: T -> bool, a: T, b: T)
    ensures Count(p, [a]) == if p(a) then 1 else 0
    ensures Count(p, [a, b]) == (if p(a) then 1 else 0) + (if p(b) then 1 else 0)
  {
    assert [a][..0] == [] && [a, b][..1] == [a];
    assert Count(p, [a]) == Count(p, []) + if p(a) then 1 else 0;
  }
}
