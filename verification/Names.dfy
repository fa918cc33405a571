/**
 Grant names and their order.  Go compares strings byte by byte, which on valid
 UTF-8 is the lexicographic order of the characters.
 */
module Names {
  const MAX_NAME_LEN := 128

  predicate NameChar(c: char) {
    'a' <= c <= 'z' || 'A' <= c <= 'Z' || '0' <= c <= '9' || c == '.' || c == '_' || c == '-'
  }

  predicate ValidName(name: string) {
    && 0 < |name| <= MAX_NAME_LEN
    && forall i :: 0 <= i < |name| ==> NameChar(name[i])
  }

  predicate Less(a: string, b: string)
    decreases |a|
  {
    b != [] && (a == [] || a[0] < b[0] || (a[0] == b[0] && Less(a[1..], b[1..])))
  }

  lemma {:induction false} LessTransitive(a: string, b: string, c: string)
    requires Less(a, b) && Less(b, c)
    ensures Less(a, c)
    decreases |a|
  {
    if a != [] && a[0] == b[0] == c[0] {
      LessTransitive(a[1..], b[1..], c[1..]);
    }
  }

  lemma {:induction false} LessTotal(a: string, b: string)
    ensures Less(a, b) || a == b || Less(b, a)
    ensures !(Less(a, b) && Less(b, a))
    decreases |a|
  {
    if a != [] && b != [] && a[0] == b[0] {
      LessTotal(a[1..], b[1..]);
      if a[1..] == b[1..] {
        assert a == [a[0]] + a[1..] && b == [b[0]] + b[1..];
      }
    }
  }

  // Go's string order: the first difference decides, and a proper prefix comes first.
  lemma {:induction false} LessAtFirstDifference(a: string, b: string, k: nat)
    requires k <= |a| && k <= |b| && a[..k] == b[..k]
    ensures k == |a| < |b| ==> Less(a, b)
    ensures k < |a| && k < |b| && a[k] < b[k] ==> Less(a, b)
    ensures k == |b| ==> !Less(a, b)
    ensures k < |a| && k < |b| && a[k] > b[k] ==> !Less(a, b)
    decreases k
  {
    if k > 0 {
      assert a[0] == a[..k][0] == b[..k][0] == b[0];
      assert a[1..][..k - 1] == a[..k][1..] == b[..k][1..] == b[1..][..k - 1];
      LessAtFirstDifference(a[1..], b[1..], k - 1);
    }
  }

  // Strictly increasing by key, hence free of duplicate keys.
  ghost predicate SortedBy<T>(xs: seq<T>, key: T -> string) {
    forall i, j :: 0 <= i < j < |xs| ==> Less(key(xs[i]), key(xs[j]))
  }

  // Places x into a sorted run that does not hold its key.
  method InsertBy<T>(xs: seq<T>, x: T, key: T -> string) returns (out: seq<T>)
    requires SortedBy(xs, key)
    requires forall y :: y in xs ==> key(y) != key(x)
    ensures SortedBy(out, key)
    ensures forall y :: y in out <==> y in xs || y == x
  {
    var k := |xs|;
    while k > 0 && Less(key(x), key(xs[k - 1]))
      invariant 0 <= k <= |xs|
      invariant forall i :: k <= i < |xs| ==> Less(key(x), key(xs[i]))
    {
      k := k - 1;
    }
    out := xs[..k] + [x] + xs[k..];
    forall i | 0 <= i < k
      ensures Less(key(xs[i]), key(x))
    {
      LessTotal(key(xs[k - 1]), key(x));
      assert xs[k - 1] in xs;
      if i < k - 1 {
        LessTransitive(key(xs[i]), key(xs[k - 1]), key(x));
      }
    }
  }
}
