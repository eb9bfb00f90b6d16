/** Vocabulary shared by the components: optional values, bounded tails and filters. */
module Common {
  datatype Option<+T> = None | Some(value: T)

  /** What a `deque(maxlen=n)` holds after the elements of `s` were appended to it. */
  function Tail<T>(s: seq<T>, n: nat): (r: seq<T>)
    ensures |r| == if |s| <= n then |s| else n
    ensures r == s[|s| - |r|..]
  {
    if |s| <= n then s else s[|s| - n..]
  }

  lemma {:induction false} DropOfAppend<T>(s: seq<T>, t: seq<T>, d: nat)
    requires d <= |s|
    ensures (s + t)[d..] == s[d..] + t
  {
  }

  lemma {:induction false} DropOfDrop<T>(s: seq<T>, a: nat, b: nat)
    requires a + b <= |s|
    ensures s[a..][b..] == s[a + b..]
  {
  }

  lemma {:induction false} TailIsDrop<T>(s: seq<T>, n: nat, d: nat)
    requires |s| == n + d
    ensures Tail(s, n) == s[d..]
  {
    if d == 0 {
      assert s[0..] == s;
    }
  }

  /** Appending to the bounded tail is the bounded tail of appending. */
  lemma {:induction false} TailOfAppend<T>(s: seq<T>, t: seq<T>, n: nat)
    ensures Tail(Tail(s, n) + t, n) == Tail(s + t, n)
  {
    if |s| > n {
      hide Tail;
      var d := |s| - n;
      TailIsDrop(s, n, d);
      TailIsDrop(s[d..] + t, n, |t|);
      TailIsDrop(s + t, n, d + |t|);
      DropOfAppend(s, t, d);
      DropOfDrop(s + t, d, |t|);
    }
  }

  /** Keep the elements that satisfy `p`, in order. */
  function Filter<T>(s: seq<T>, p: T -> bool): (r: seq<T>)
    ensures |r| <= |s|
  {
    if s == [] then [] else (if p(s[0]) then [s[0]] else []) + Filter(s[1..], p)
  }

  lemma {:induction false} FilterMember<T>(s: seq<T>, p: T -> bool, x: T)
    ensures x in Filter(s, p) <==> x in s && p(x)
  {
    if s != [] {
      FilterMember(s[1..], p, x);
    }
  }

  lemma {:induction false} FilterAppend<T>(s: seq<T>, t: seq<T>, p: T -> bool)
    ensures Filter(s + t, p) == Filter(s, p) + Filter(t, p)
  {
    if s == [] {
      assert s + t == t;
    } else {
      FilterAppend(s[1..], t, p);
      FilterStep(s[0], s[1..] + t, p);
      FilterStep(s[0], s[1..], p);
      assert s + t == [s[0]] + (s[1..] + t) && s == [s[0]] + s[1..];
      hide Filter;
      var head := if p(s[0]) then [s[0]] else [];
      assert head + (Filter(s[1..], p) + Filter(t, p)) == (head + Filter(s[1..], p)) + Filter(t, p);
    }
  }

  lemma {:induction false} FilterStep<T>(x: T, s: seq<T>, p: T -> bool)
    ensures Filter([x] + s, p) == (if p(x) then [x] else []) + Filter(s, p)
  {
  }

  lemma {:induction false} FilterNone<T>(s: seq<T>, p: T -> bool)
    requires forall x | x in s :: !p(x)
    ensures Filter(s, p) == []
  {
    if s != [] {
      FilterNone(s[1..], p);
    }
  }

  lemma {:induction false} FilterAll<T>(s: seq<T>, p: T -> bool)
    requires forall x | x in s :: p(x)
    ensures Filter(s, p) == s
  {
    if s != [] {
      FilterAll(s[1..], p);
    }
  }

  function Count<T>(s: seq<T>, p: T -> bool): (n: nat)
    ensures n == |Filter(s, p)|
  {
    if s == [] then 0 else (if p(s[0]) then 1 else 0) + Count(s[1..], p)
  }
}
