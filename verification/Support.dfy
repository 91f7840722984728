/** Result types shared by every component. */
module Wrappers {
  datatype Option<+T> = None | Some(value: T)

  datatype Result<+T, +E> = Success(value: T) | Failure(error: E)
}

/** Folding a sequence of chunks back into one sequence. */
module Seqs {
  function Flatten<T>(parts: seq<seq<T>>): seq<T>
  {
    if parts == [] then [] else parts[0] + Flatten(parts[1..])
  }

  lemma {:induction false} FlattenAppend<T>(a: seq<seq<T>>, b: seq<seq<T>>)
    ensures Flatten(a + b) == Flatten(a) + Flatten(b)
  {
    if a == [] {
      assert a + b == b;
    } else {
      FlattenAppend(a[1..], b);
      FlattenHead(a, b);
    }
  }

  lemma FlattenHead<T>(a: seq<seq<T>>, b: seq<seq<T>>)
    requires a != []
    ensures Flatten(a + b) == a[0] + Flatten(a[1..] + b)
  {
    assert (a + b)[1..] == a[1..] + b;
  }

  lemma Assoc<T>(a: seq<T>, b: seq<T>, c: seq<T>)
    ensures (a + b) + c == a + (b + c)
  {}

  function Filter<T>(s: seq<T>, p: T -> bool): seq<T>
  {
    if s == [] then [] else (if p(s[0]) then [s[0]] else []) + Filter(s[1..], p)
  }

  lemma {:induction false} FilterConcat<T>(a: seq<T>, b: seq<T>, p: T -> bool)
    ensures Filter(a + b, p) == Filter(a, p) + Filter(b, p)
    decreases |a|
  {
    if a == [] {
      assert a + b == b;
    } else {
      assert (a + b)[1..] == a[1..] + b && (a + b)[0] == a[0];
      FilterConcat(a[1..], b, p);
      Assoc(if p(a[0]) then [a[0]] else [], Filter(a[1..], p), Filter(b, p));
    }
  }

  lemma {:induction false} FilterAll<T>(s: seq<T>, p: T -> bool)
    requires forall i :: 0 <= i < |s| ==> p(s[i])
    ensures Filter(s, p) == s
  {
    if s != [] {
      FilterAll(s[1..], p);
    }
  }

  lemma {:induction false} FilterNone<T>(s: seq<T>, p: T -> bool)
    requires forall i :: 0 <= i < |s| ==> !p(s[i])
    ensures Filter(s, p) == []
  {
    if s != [] {
      FilterNone(s[1..], p);
    }
  }

  lemma ReplaceHead<T>(done: seq<T>, rest: seq<T>, x: T)
    requires rest != []
    ensures (done + rest)[|done|] == rest[0]
    ensures (done + rest)[|done| := x] == (done + [x]) + rest[1..]
    ensures done + rest == (done + [rest[0]]) + rest[1..]
  {}

  lemma Suffix<T>(s: seq<T>, i: nat)
    requires i < |s|
    ensures s[i..][0] == s[i] && s[i..][1..] == s[i + 1..]
    ensures s[..i + 1] == s[..i] + [s[i]]
  {}

  lemma SplitThree<T>(s: seq<T>, i: nat, j: nat)
    requires i <= j <= |s|
    ensures s == s[..i] + (s[i..j] + s[j..])
  {}

  lemma SliceAll<T>(s: seq<T>, i: nat, j: nat, p: T -> bool)
    requires i <= j <= |s| && forall k :: i <= k < j ==> p(s[k])
    ensures forall k :: 0 <= k < j - i ==> p(s[i..j][k])
  {}

  lemma SliceOfSuffix<T>(s: seq<T>, i: nat, j: nat, k: nat)
    requires i + j <= i + k <= |s|
    ensures s[i..][j..k] == s[i + j..i + k]
  {}

  lemma HeadMiddleTail<T>(s: seq<T>, n: nat)
    requires 1 + n <= |s|
    ensures s == ([s[0]] + s[1..1 + n]) + s[1 + n..]
    ensures s[1..] == s[1..1 + n] + s[1 + n..]
  {}
}

/** Replacing each element by a block of elements, in order, up to the first error. */
module Blocks {
  import opened Wrappers

  function Collect<T, U, E>(xs: seq<T>, f: T -> Result<seq<U>, E>): Result<seq<U>, E>
  {
    if xs == [] then Success([])
    else
      match Collect(xs[..|xs| - 1], f)
      case Failure(e) => Failure(e)
      case Success(before) =>
        match f(xs[|xs| - 1])
        case Failure(e) => Failure(e)
        case Success(block) => Success(before + block)
  }

  lemma CollectOne<T, U, E>(xs: seq<T>, x: T, f: T -> Result<seq<U>, E>)
    requires Collect(xs, f).Success?
    ensures f(x).Success? ==> Collect(xs + [x], f) == Success(Collect(xs, f).value + f(x).value)
    ensures f(x).Failure? ==> Collect(xs + [x], f) == Failure(f(x).error)
  {
    assert (xs + [x])[..|xs|] == xs;
  }

  /** The first error is the result, whatever follows. */
  lemma {:induction false} CollectStops<T, U, E>(xs: seq<T>, n: nat, f: T -> Result<seq<U>, E>)
    requires n <= |xs| && Collect(xs[..n], f).Failure?
    ensures Collect(xs, f) == Collect(xs[..n], f)
    decreases |xs| - n
  {
    if n == |xs| {
      assert xs[..n] == xs;
    } else {
      assert xs[..n + 1][..n] == xs[..n];
      CollectStops(xs, n + 1, f);
    }
  }

  lemma CollectPrefix<T, U, E>(xs: seq<T>, f: T -> Result<seq<U>, E>)
    requires xs != [] && Collect(xs, f).Success?
    ensures Collect(xs[..|xs| - 1], f).Success? && f(xs[|xs| - 1]).Success?
    ensures Collect(xs, f).value == Collect(xs[..|xs| - 1], f).value + f(xs[|xs| - 1]).value
  {}

  /** What every block promises, the whole promises. */
  lemma {:induction false} CollectAll<T, U, E>(xs: seq<T>, f: T -> Result<seq<U>, E>, p: U -> bool)
    requires Collect(xs, f).Success?
    requires forall x :: x in xs && f(x).Success? ==> forall i :: 0 <= i < |f(x).value| ==> p(f(x).value[i])
    ensures forall i :: 0 <= i < |Collect(xs, f).value| ==> p(Collect(xs, f).value[i])
  {
    if xs != [] {
      CollectAll(xs[..|xs| - 1], f, p);
    }
  }
}

/** Removing keyed elements from a sequence, one occurrence at a time or all at once. */
module Keyed {
  /** `xs` without the last element whose key is `id`. */
  function WithoutLast<T>(xs: seq<T>, key: T -> string, id: string): seq<T>
  {
    if xs == [] then []
    else if key(xs[|xs| - 1]) == id then xs[..|xs| - 1]
    else WithoutLast(xs[..|xs| - 1], key, id) + [xs[|xs| - 1]]
  }

  /** `xs` without every element whose key is in `ids`. */
  function DropAll<T>(xs: seq<T>, key: T -> string, ids: set<string>): seq<T>
  {
    if xs == [] then []
    else DropAll(xs[..|xs| - 1], key, ids) + (if key(xs[|xs| - 1]) in ids then [] else [xs[|xs| - 1]])
  }

  /** No two elements share a key, blank keys aside. */
  predicate UniqueKeys<T>(xs: seq<T>, key: T -> string)
  {
    forall i, j :: 0 <= i < j < |xs| && key(xs[i]) != "" ==> key(xs[i]) != key(xs[j])
  }

  lemma {:induction false} DropNothing<T>(xs: seq<T>, key: T -> string, ids: set<string>)
    requires forall i :: 0 <= i < |xs| ==> key(xs[i]) !in ids
    ensures DropAll(xs, key, ids) == xs
  {
    if xs != [] {
      DropNothing(xs[..|xs| - 1], key, ids);
    }
  }

  lemma {:induction false} DropMembers<T>(xs: seq<T>, key: T -> string, ids: set<string>)
    ensures forall x :: x in DropAll(xs, key, ids) ==> x in xs
  {
    if xs != [] {
      DropMembers(xs[..|xs| - 1], key, ids);
    }
  }

  lemma {:induction false} DropConcat<T>(a: seq<T>, b: seq<T>, key: T -> string, ids: set<string>)
    ensures DropAll(a + b, key, ids) == DropAll(a, key, ids) + DropAll(b, key, ids)
    decreases |b|
  {
    if b == [] {
      assert a + b == a;
    } else {
      assert (a + b)[..|a + b| - 1] == a + b[..|b| - 1];
      DropConcat(a, b[..|b| - 1], key, ids);
    }
  }

  lemma {:induction false} DropTwice<T>(xs: seq<T>, key: T -> string, a: set<string>, b: set<string>)
    ensures DropAll(DropAll(xs, key, a), key, b) == DropAll(xs, key, a + b)
  {
    if xs != [] {
      var init, last := xs[..|xs| - 1], xs[|xs| - 1];
      DropTwice(init, key, a, b);
      DropConcat(DropAll(init, key, a), if key(last) in a then [] else [last], key, b);
      DropOne(last, key, b);
    }
  }

  lemma DropOne<T>(x: T, key: T -> string, ids: set<string>)
    ensures DropAll([x], key, ids) == if key(x) in ids then [] else [x]
  {
    assert [x][..0] == [];
  }

  /** With unique keys, removing the last occurrence removes them all. */
  lemma {:induction false} WithoutLastIsDrop<T>(xs: seq<T>, key: T -> string, id: string)
    requires UniqueKeys(xs, key) && id != ""
    ensures WithoutLast(xs, key, id) == DropAll(xs, key, {id})
  {
    if xs != [] {
      var init, last := xs[..|xs| - 1], xs[|xs| - 1];
      if key(last) == id {
        forall i | 0 <= i < |init|
          ensures key(init[i]) !in {id}
        {
          assert init[i] == xs[i];
        }
        DropNothing(init, key, {id});
      } else {
        WithoutLastIsDrop(init, key, id);
      }
    }
  }

  lemma {:induction false} DropKeepsUnique<T>(xs: seq<T>, key: T -> string, ids: set<string>)
    requires UniqueKeys(xs, key)
    ensures UniqueKeys(DropAll(xs, key, ids), key)
  {
    if xs != [] {
      var init, last := xs[..|xs| - 1], xs[|xs| - 1];
      DropKeepsUnique(init, key, ids);
      DropMembers(init, key, ids);
      forall x | x in DropAll(init, key, ids)
        ensures key(x) != "" ==> key(x) != key(last)
      {
        var i :| 0 <= i < |init| && init[i] == x;
        assert xs[i] == x;
      }
    }
  }

  lemma AppendUnique<T>(xs: seq<T>, x: T, key: T -> string)
    requires UniqueKeys(xs, key) && forall i :: 0 <= i < |xs| ==> key(xs[i]) != key(x)
    ensures UniqueKeys(xs + [x], key)
  {}
}

/** Finite sets: members and sizes. */
module Sets {
  lemma NonEmpty<T>(s: set<T>)
    requires s != {}
    ensures exists x :: x in s
  {
    if forall x :: x !in s {
      assert false;
    }
  }

  /** Some member of a non-empty set. */
  ghost function Pick<T>(s: set<T>): (x: T)
    requires s != {}
    ensures x in s
  {
    NonEmpty(s);
    var x :| x in s;
    x
  }

  lemma {:induction false} SubsetSize<T>(a: set<T>, b: set<T>)
    requires a <= b
    ensures |a| <= |b|
    decreases |a|
  {
    if a != {} {
      var x := Pick(a);
      SizeWithout(a, x);
      SizeWithout(b, x);
      SubsetSize(a - {x}, b - {x});
    }
  }

  lemma SizeWithout<T>(s: set<T>, x: T)
    ensures |s - {x}| == if x in s then |s| - 1 else |s|
  {
    if x !in s {
      assert s - {x} == s;
    }
  }

  lemma SizeWith<T>(s: set<T>, x: T)
    ensures |s + {x}| == if x in s then |s| else |s| + 1
  {
    if x in s {
      assert s + {x} == s;
    }
  }
}
