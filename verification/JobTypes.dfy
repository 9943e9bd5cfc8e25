/** The values every part of the model shares: inputs, results and the sums that
    say where they are. */
module JobTypes {

  newtype byte = x: int | 0 <= x < 256

  /** One element of the caller's input list: its position and its pickled value. */
  datatype Input = Input(index: nat, pkl: seq<byte>)

  /** What a worker puts on `results_queue`. */
  datatype Result = Result(index: nat, isError: bool, pkl: seq<byte>)

  datatype Option<+T> = None | Some(value: T)

  type TransferId = nat
  type BatchId = nat
  type TradeId = nat

  /** How many copies of `x` a list holds. */
  function Copies<T(==)>(s: seq<T>, x: T): nat {
    multiset(s)[x]
  }

  lemma CopiesConcat<T>(a: seq<T>, b: seq<T>, x: T)
    ensures Copies(a + b, x) == Copies(a, x) + Copies(b, x)
  {
  }

  /** A list in the opposite order: what popping it from the end gives. */
  function Reverse<T>(s: seq<T>): (r: seq<T>)
    ensures |r| == |s|
  {
    if s == [] then [] else Reverse(s[1..]) + [s[0]]
  }

  lemma {:induction false} ReverseAppend<T>(s: seq<T>, x: T)
    ensures Reverse(s + [x]) == [x] + Reverse(s)
  {
    if s != [] {
      assert (s + [x])[1..] == s[1..] + [x];
      ReverseAppend(s[1..], x);
    }
  }

  lemma ReverseFirst<T>(x: T, s: seq<T>)
    ensures Reverse([x] + s) == Reverse(s) + [x]
  {
  }

  lemma {:induction false} ReverseTwice<T>(s: seq<T>)
    ensures Reverse(Reverse(s)) == s
  {
    if s != [] {
      ReverseTwice(s[1..]);
      ReverseAppend(Reverse(s[1..]), s[0]);
    }
  }

  lemma {:induction false} ReverseCopies<T>(s: seq<T>, x: T)
    ensures Copies(Reverse(s), x) == Copies(s, x)
  {
    if s != [] {
      ReverseCopies(s[1..], x);
      CopiesConcat(Reverse(s[1..]), [s[0]], x);
      CopiesConcat([s[0]], s[1..], x);
      assert [s[0]] + s[1..] == s;
    }
  }

  function TotalBytes(items: seq<Input>): nat {
    if items == [] then 0 else |items[0].pkl| + TotalBytes(items[1..])
  }

  lemma {:induction false} TotalBytesAppend(items: seq<Input>, last: Input)
    ensures TotalBytes(items + [last]) == TotalBytes(items) + |last.pkl|
  {
    if items != [] {
      assert (items + [last])[1..] == items[1..] + [last];
      TotalBytesAppend(items[1..], last);
    }
  }

  /** A sum of counts, one per place that can hold something. */
  function Sum(parts: seq<nat>): nat {
    if parts == [] then 0 else parts[0] + Sum(parts[1..])
  }

  lemma {:induction false} SumUpdate(parts: seq<nat>, i: nat, part: nat)
    requires i < |parts|
    ensures Sum(parts[i := part]) + parts[i] == Sum(parts) + part
  {
    if i == 0 {
      assert parts[0 := part][1..] == parts[1..];
    } else {
      assert parts[i := part][1..] == parts[1..][i - 1 := part];
      SumUpdate(parts[1..], i - 1, part);
    }
  }

  lemma {:induction false} SumConcat(a: seq<nat>, b: seq<nat>)
    ensures Sum(a + b) == Sum(a) + Sum(b)
  {
    if a == [] {
      assert a + b == b;
    } else {
      assert (a + b)[1..] == a[1..] + b;
      SumConcat(a[1..], b);
    }
  }

  lemma SumAppend(parts: seq<nat>, part: nat)
    ensures Sum(parts + [part]) == Sum(parts) + part
  {
    SumConcat(parts, [part]);
    assert Sum([part]) == part + Sum([]);
  }

  lemma {:induction false} SumContains(parts: seq<nat>, i: nat)
    requires i < |parts|
    ensures parts[i] <= Sum(parts)
  {
    if i > 0 {
      SumContains(parts[1..], i - 1);
    }
  }

  /** Two different places are counted separately. */
  lemma {:induction false} SumContainsBoth(parts: seq<nat>, i: nat, j: nat)
    requires i < j < |parts|
    ensures parts[i] + parts[j] <= Sum(parts)
  {
    if i == 0 {
      SumContains(parts[1..], j - 1);
    } else {
      SumContainsBoth(parts[1..], i - 1, j - 1);
    }
  }

  /** Place by place no more, and less by what place `k` loses. */
  lemma {:induction false} SumDrops(parts: seq<nat>, less: seq<nat>, k: nat)
    requires |less| == |parts| && k < |parts|
    requires forall i :: 0 <= i < |parts| ==> less[i] <= parts[i]
    ensures Sum(less) + (parts[k] - less[k]) <= Sum(parts)
  {
    if k > 0 {
      SumDrops(parts[1..], less[1..], k - 1);
    } else {
      SumAtMost(parts[1..], less[1..]);
    }
  }

  lemma {:induction false} SumAtMost(parts: seq<nat>, less: seq<nat>)
    requires |less| == |parts|
    requires forall i :: 0 <= i < |parts| ==> less[i] <= parts[i]
    ensures Sum(less) <= Sum(parts)
  {
    if parts != [] {
      SumAtMost(parts[1..], less[1..]);
    }
  }

  lemma {:induction false} SumOfNothing(parts: seq<nat>)
    requires forall i :: 0 <= i < |parts| ==> parts[i] == 0
    ensures Sum(parts) == 0
  {
    if parts != [] {
      SumOfNothing(parts[1..]);
    }
  }

  function Flatten<T>(lists: seq<seq<T>>): seq<T> {
    if lists == [] then [] else lists[0] + Flatten(lists[1..])
  }

  function Lengths<T>(lists: seq<seq<T>>): (parts: seq<nat>)
    ensures |parts| == |lists|
    ensures forall i :: 0 <= i < |lists| ==> parts[i] == |lists[i]|
  {
    seq(|lists|, i requires 0 <= i < |lists| => |lists[i]|)
  }

  lemma {:induction false} FlattenLength<T>(lists: seq<seq<T>>)
    ensures |Flatten(lists)| == Sum(Lengths(lists))
  {
    if lists != [] {
      FlattenLength(lists[1..]);
      assert Lengths(lists)[1..] == Lengths(lists[1..]);
    }
  }

  lemma SameSizeSubsetIsAll<T>(a: multiset<T>, b: multiset<T>)
    requires a <= b && |a| == |b|
    ensures a == b
  {
    assert |b - a| == 0;
    assert b == a + (b - a);
  }
}
