/**
 * The pull-based element source of the avramx engine (avramx/iterator.go)
 * and its Filter wrapper.
 */
module AvramxIterator {

  /**
   * An Iterator over the finite sequence of elements it will yield. Every
   * implementation of the Go interface (a channel, the lexer's token
   * stream, a slice) is represented by the elements it goes on to yield;
   * Next hands them out one at a time and then reports exhaustion forever.
   */
  class Iterator<T(0)> {
    const items: seq<T>
    var next: nat

    ghost predicate Valid()
      reads this
    {
      next <= |items|
    }

    /** The elements still to come, in order. */
    ghost function Yields(): seq<T>
      reads this
      requires Valid()
    {
      items[next..]
    }

    constructor (items: seq<T>)
      ensures Valid() && this.items == items && Yields() == items
    {
      this.items := items;
      next := 0;
    }

    method Next() returns (v: T, ok: bool)
      requires Valid()
      modifies this
      ensures Valid()
      ensures ok <==> old(Yields()) != []
      ensures ok ==> v == old(Yields())[0] && Yields() == old(Yields())[1..]
      ensures !ok ==> next == old(next) && Yields() == []
    {
      if next < |items| {
        v, ok := items[next], true;
        next := next + 1;
      } else {
        v, ok := *, false;
      }
    }
  }

  /** The elements of s that satisfy pred, in their original order. */
  function Filtered<T>(pred: T -> bool, s: seq<T>): seq<T>
  {
    if s == [] then [] else (if pred(s[0]) then [s[0]] else []) + Filtered(pred, s[1..])
  }

  /** The index of the first element of s satisfying pred, or |s| when there is none. */
  function FirstMatch<T>(pred: T -> bool, s: seq<T>): (k: nat)
    ensures k <= |s|
    ensures k < |s| ==> pred(s[k])
    ensures forall j :: 0 <= j < k ==> !pred(s[j])
  {
    if s == [] then 0 else if pred(s[0]) then 0 else 1 + FirstMatch(pred, s[1..])
  }

  /** The first match is the index before which nothing matches and at which something does (or the end). */
  lemma {:induction false} FirstMatchIs<T>(pred: T -> bool, s: seq<T>, i: nat)
    requires i <= |s| && forall j :: 0 <= j < i ==> !pred(s[j])
    requires i < |s| ==> pred(s[i])
    ensures FirstMatch(pred, s) == i
  {
    if i > 0 {
      FirstMatchIs(pred, s[1..], i - 1);
    }
  }

  /** A filtered sequence holds exactly the elements of the source that pass the predicate. */
  lemma {:induction false} FilteredMembers<T>(pred: T -> bool, s: seq<T>, x: T)
    ensures x in Filtered(pred, s) <==> x in s && pred(x)
  {
    if s != [] {
      FilteredMembers(pred, s[1..], x);
      assert s == [s[0]] + s[1..];
    }
  }

  /** Filtering with a predicate every element passes changes nothing. */
  lemma {:induction false} FilteredAllPass<T>(pred: T -> bool, s: seq<T>)
    requires forall i :: 0 <= i < |s| ==> pred(s[i])
    ensures Filtered(pred, s) == s
  {
    if s != [] {
      FilteredAllPass(pred, s[1..]);
    }
  }

  /** Filtering twice is filtering once by both predicates. */
  lemma {:induction false} FilteredTwice<T>(p: T -> bool, q: T -> bool, s: seq<T>)
    ensures Filtered(q, Filtered(p, s)) == Filtered(x => p(x) && q(x), s)
  {
    if s != [] {
      FilteredTwice(p, q, s[1..]);
      FilteredAppend(q, if p(s[0]) then [s[0]] else [], Filtered(p, s[1..]));
      if p(s[0]) {
        assert ([s[0]])[1..] == [];
      }
    }
  }

  /** Filtering distributes over concatenation: no element is reordered. */
  lemma {:induction false} FilteredAppend<T>(pred: T -> bool, a: seq<T>, b: seq<T>)
    ensures Filtered(pred, a + b) == Filtered(pred, a) + Filtered(pred, b)
  {
    if a != [] {
      assert (a + b)[0] == a[0];
      assert (a + b)[1..] == a[1..] + b;
      FilteredAppend(pred, a[1..], b);
    } else {
      assert a + b == b;
    }
  }

  /** The elements before the first match are all dropped by the filter. */
  lemma {:induction false} FilteredSkipsTo<T>(pred: T -> bool, s: seq<T>)
    ensures var k := FirstMatch(pred, s);
      Filtered(pred, s) == if k < |s| then [s[k]] + Filtered(pred, s[k + 1..]) else []
  {
    if s != [] {
      FilteredSkipsTo(pred, s[1..]);
      if !pred(s[0]) {
        var k := FirstMatch(pred, s[1..]);
        if k < |s[1..]| {
          assert s[1..][k + 1..] == s[k + 2..];
        }
      }
    }
  }

  /**
   * Filter(it, pred): an iterator yielding only the elements of it that
   * satisfy pred. It keeps no state of its own; pulling from it pulls
   * from it, and rejected elements are consumed and never pushed back.
   */
  class Filter<T(0)> {
    const it: Iterator<T>
    const pred: T -> bool

    constructor (it: Iterator<T>, pred: T -> bool)
      ensures this.it == it && this.pred == pred
    {
      this.it := it;
      this.pred := pred;
    }

    /** The elements this filter has yet to yield. */
    ghost function Yields(): seq<T>
      reads this, it
      requires it.Valid()
    {
      Filtered(pred, it.Yields())
    }

    method Next() returns (v: T, ok: bool)
      requires it.Valid()
      modifies it
      ensures it.Valid()
      ensures ok <==> old(Yields()) != []
      ensures ok ==> pred(v) && v == old(Yields())[0] && Yields() == old(Yields())[1..]
      ensures ok <==> FirstMatch(pred, old(it.Yields())) < |old(it.Yields())|
      ensures var k := FirstMatch(pred, old(it.Yields()));
        it.Yields() == old(it.Yields())[if ok then k + 1 else k..]
    {
      ghost var start := it.Yields();
      ghost var i := 0;
      while true
        invariant it.Valid()
        invariant i <= |start| && it.Yields() == start[i..]
        invariant forall j :: 0 <= j < i ==> !pred(start[j])
        decreases |it.Yields()|
      {
        var val, more := it.Next();
        if !more {
          FirstMatchIs(pred, start, i);
          FilteredSkipsTo(pred, start);
          return val, false;
        }
        if pred(val) {
          FirstMatchIs(pred, start, i);
          FilteredSkipsTo(pred, start);
          return val, true;
        }
        i := i + 1;
      }
    }
  }
}
