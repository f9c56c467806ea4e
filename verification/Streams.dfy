/** Byte streams in pieces, and the few facts about concatenation that are needed by name. */
module Streams {

  function Flatten(parts: seq<string>): string {
    if parts == [] then "" else parts[0] + Flatten(parts[1..])
  }

  lemma {:induction false} FlattenSnoc(parts: seq<string>, p: string)
    ensures Flatten(parts + [p]) == Flatten(parts) + p
  {
    if parts == [] {
      assert Flatten([p]) == p + Flatten([p][1..]);
    } else {
      assert (parts + [p])[1..] == parts[1..] + [p];
      FlattenSnoc(parts[1..], p);
    }
  }

  lemma Regroup<T>(a: seq<T>, b: seq<T>, c: seq<T>)
    ensures a + b + c == a + (b + c)
  {
  }

  lemma Nothing<T>(s: seq<T>)
    ensures [] + s == s && s + [] == s
  {
  }

  lemma CutBehind<T>(a: seq<T>, b: seq<T>)
    ensures (a + b)[..|a|] == a && (a + b)[|a|..] == b
  {
  }

  lemma {:induction false} FlattenConcat(a: seq<string>, b: seq<string>)
    ensures Flatten(a + b) == Flatten(a) + Flatten(b)
    decreases |a|
  {
    if a == [] {
      Nothing(b);
      Nothing(Flatten(b));
    } else {
      assert (a + b)[1..] == a[1..] + b;
      FlattenConcat(a[1..], b);
      Regroup(a[0], Flatten(a[1..]), Flatten(b));
    }
  }

  // ------------------------------------------------------------ merging

  /** `c` is `a` and `b` put into one sequence, each in its own order. */
  predicate Merged<T(==)>(a: seq<T>, b: seq<T>, c: seq<T>)
    decreases |c|
  {
    && |c| == |a| + |b|
    && (|| c == []
        || (a != [] && a[0] == c[0] && Merged(a[1..], b, c[1..]))
        || (b != [] && b[0] == c[0] && Merged(a, b[1..], c[1..])))
  }

  lemma {:induction false} MergedLeft<T>(front: seq<T>, a: seq<T>, b: seq<T>, c: seq<T>)
    requires Merged(a, b, c)
    ensures Merged(front + a, b, front + c)
    decreases |front|
  {
    if front == [] {
      Nothing(a);
      Nothing(c);
    } else {
      MergedLeft(front[1..], a, b, c);
      FirstOf(front, a);
      FirstOf(front, c);
    }
  }

  lemma {:induction false} MergedRight<T>(front: seq<T>, a: seq<T>, b: seq<T>, c: seq<T>)
    requires Merged(a, b, c)
    ensures Merged(a, front + b, front + c)
    decreases |front|
  {
    if front == [] {
      Nothing(b);
      Nothing(c);
    } else {
      MergedRight(front[1..], a, b, c);
      FirstOf(front, b);
      FirstOf(front, c);
    }
  }

  lemma FirstOf<T>(front: seq<T>, s: seq<T>)
    requires front != []
    ensures (front + s)[0] == front[0] && (front + s)[1..] == front[1..] + s
  {
  }

  /** A merge is its first part exactly if the second is empty. */
  lemma {:induction false} MergedAlone<T>(a: seq<T>, b: seq<T>, c: seq<T>)
    requires Merged(a, b, c)
    ensures c == a <==> b == []
    decreases |c|
  {
    if b == [] && c != [] {
      MergedAlone(a[1..], b, c[1..]);
      assert c == [c[0]] + c[1..] && a == [a[0]] + a[1..];
    }
  }
}
