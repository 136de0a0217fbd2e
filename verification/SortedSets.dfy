/**
 Redis lists and sorted sets, as far as the scripts use them.  A sorted set is the map from
 members to scores; its order, by score and then by member, is the sequence `Ranked`.
 */
module SortedSets {

  type ZSet = map<string, int>

  /** The order of members with equal scores: Redis compares them as byte strings. */
  predicate Lex(a: string, b: string) {
    b != [] && (a == [] || a[0] < b[0] || (a[0] == b[0] && Lex(a[1..], b[1..])))
  }

  lemma {:induction false} LexTotal(a: string, b: string)
    ensures a == b || Lex(a, b) || Lex(b, a)
    ensures !(Lex(a, b) && Lex(b, a))
    ensures !Lex(a, a)
  {
    if a != [] {
      LexTotal(a[1..], a[1..]);
      if b != [] {
        LexTotal(a[1..], b[1..]);
        if a[0] == b[0] && a[1..] == b[1..] {
          assert a == [a[0]] + a[1..] == b;
        }
      }
    }
  }

  lemma {:induction false} LexTransitive(a: string, b: string, c: string)
    requires Lex(a, b) && Lex(b, c)
    ensures Lex(a, c)
  {
    if a != [] && a[0] == b[0] && b[0] == c[0] {
      LexTransitive(a[1..], b[1..], c[1..]);
    }
  }

  /** x comes before y in z: lower score first, equal scores by member. */
  predicate Before(z: ZSet, x: string, y: string)
    requires x in z && y in z
  {
    z[x] < z[y] || (z[x] == z[y] && Lex(x, y))
  }

  lemma BeforeTotal(z: ZSet, x: string, y: string)
    requires x in z && y in z
    ensures x == y || Before(z, x, y) || Before(z, y, x)
    ensures !(Before(z, x, y) && Before(z, y, x))
  {
    LexTotal(x, y);
  }

  lemma BeforeTransitive(z: ZSet, x: string, y: string, w: string)
    requires x in z && y in z && w in z && Before(z, x, y) && Before(z, y, w)
    ensures Before(z, x, w)
  {
    if z[x] == z[y] == z[w] {
      LexTransitive(x, y, w);
    }
  }

  predicate IsFirst(z: ZSet, x: string) {
    x in z && forall y | y in z && y != x :: Before(z, x, y)
  }

  lemma {:induction false} FirstExists(z: ZSet)
    requires z != map[]
    ensures exists x :: IsFirst(z, x)
    decreases |z|
  {
    var x :| x in z;
    var rest := z - {x};
    if rest == map[] {
      assert z.Keys == rest.Keys + {x};
      assert IsFirst(z, x);
    } else {
      assert rest.Keys == z.Keys - {x};
      FirstExists(rest);
      var f :| IsFirst(rest, f);
      BeforeTotal(z, x, f);
      if Before(z, x, f) {
        forall y | y in z && y != x ensures Before(z, x, y) {
          if y != f { assert y in rest; BeforeTransitive(z, x, f, y); }
        }
        assert IsFirst(z, x);
      } else {
        forall y | y in z && y != f ensures Before(z, f, y) {
          if y != x { assert y in rest; }
        }
        assert IsFirst(z, f);
      }
    }
  }

  lemma FirstUnique(z: ZSet, x: string, y: string)
    requires IsFirst(z, x) && IsFirst(z, y)
    ensures x == y
  {
    LexTotal(x, y);
  }

  /** The lowest member of a sorted set. */
  function First(z: ZSet): (x: string)
    requires z != map[]
    ensures IsFirst(z, x)
  {
    FirstExists(z);
    assert forall x, y | IsFirst(z, x) && IsFirst(z, y) :: x == y by {
      forall x, y | IsFirst(z, x) && IsFirst(z, y) ensures x == y { FirstUnique(z, x, y); }
    }
    var x :| x in z && IsFirst(z, x);
    x
  }

  /** All members in ascending order (`ZRANGE key 0 -1`). */
  function Ranked(z: ZSet): (r: seq<string>)
    ensures |r| == |z|
    ensures forall x :: x in r <==> x in z
    decreases |z|
  {
    if z == map[] then [] else
      var x := First(z);
      var rest := z - {x};
      assert rest.Keys == z.Keys - {x};
      var r := [x] + Ranked(rest);
      r
  }

  ghost predicate NoDup(s: seq<string>) {
    forall i, j | 0 <= i < j < |s| :: s[i] != s[j]
  }

  ghost predicate InOrder(z: ZSet, s: seq<string>) {
    && (forall x | x in s :: x in z)
    && (forall i, j | 0 <= i < j < |s| :: Before(z, s[i], s[j]))
  }

  lemma InOrderCons(z: ZSet, x: string, s: seq<string>)
    requires IsFirst(z, x) && InOrder(z - {x}, s)
    ensures InOrder(z, [x] + s)
  {
    var t := [x] + s;
    assert forall y | y in t :: y in z;
    forall i, j | 0 <= i < j < |t| ensures Before(z, t[i], t[j]) {
      assert t[j] == s[j - 1] && t[j] in z - {x};
      if i > 0 {
        assert t[i] == s[i - 1] && Before(z - {x}, s[i - 1], s[j - 1]);
      }
    }
  }

  /** `Ranked` lists every member exactly once, and in order. */
  lemma {:induction false} RankedInOrder(z: ZSet)
    ensures InOrder(z, Ranked(z)) && NoDup(Ranked(z))
    decreases |z|
  {
    if z != map[] {
      var x := First(z);
      var rest := z - {x};
      assert rest.Keys == z.Keys - {x};
      RankedInOrder(rest);
      InOrderCons(z, x, Ranked(rest));
    }
    InOrderNoDup(z, Ranked(z));
  }

  lemma InOrderNoDup(z: ZSet, s: seq<string>)
    requires InOrder(z, s)
    ensures NoDup(s)
  {
    forall i, j | 0 <= i < j < |s| ensures s[i] != s[j] {
      LexTotal(s[i], s[j]);
      assert Before(z, s[i], s[j]);
    }
  }

  function Elems(s: seq<string>): (r: set<string>)
    ensures forall x :: x in r <==> x in s
  {
    set x | x in s
  }

  lemma RankedStep(z: ZSet)
    ensures z != map[] ==> Ranked(z) == [First(z)] + Ranked(z - {First(z)})
  {
  }

  /** Removing the k lowest members leaves the rest, still in order. */
  lemma {:induction false} RankedDrop(z: ZSet, k: nat)
    requires k <= |z|
    ensures Ranked(z - Elems(Ranked(z)[..k])) == Ranked(z)[k..]
    decreases k
  {
    hide Ranked;
    var s := Ranked(z);
    if k == 0 {
      assert z - Elems(s[..0]) == z;
    } else {
      var x := First(z);
      var rest := z - {x};
      assert rest.Keys == z.Keys - {x};
      var r := Ranked(rest);
      RankedStep(z);
      assert s == [x] + r;
      RankedDrop(rest, k - 1);
      DropFirst(z, x, s, r, k);
    }
  }

  lemma DropFirst(z: ZSet, x: string, s: seq<string>, r: seq<string>, k: nat)
    requires s == [x] + r && 0 < k <= |s|
    ensures z - Elems(s[..k]) == z - {x} - Elems(r[..k - 1])
    ensures s[k..] == r[k - 1..]
  {
    assert s[..k] == [x] + r[..k - 1];
  }

  /** The entries with score at most max (`ZRANGEBYSCORE key -inf max`). */
  function Due(z: ZSet, max: int): (d: ZSet)
    ensures forall x :: x in d <==> x in z && z[x] <= max
    ensures forall x | x in d :: d[x] == z[x]
  {
    map x | x in z && z[x] <= max :: z[x]
  }

  /** `LIMIT 0 n` on a result: a negative n means no limit. */
  function Limit(s: seq<string>, n: int): (r: seq<string>)
    ensures r <= s
    ensures |r| == if 0 <= n < |s| then n else |s|
  {
    if 0 <= n < |s| then s[..n] else s
  }

  /** `ZRANGEBYSCORE key -inf max LIMIT 0 n`. */
  function RangeByScore(z: ZSet, max: int, n: int): (r: seq<string>)
    ensures forall x | x in r :: x in z && z[x] <= max
    ensures |r| <= |z|
  {
    var r := Limit(Ranked(Due(z, max)), n);
    assert |Due(z, max)| <= |z| by { SubmapSize(Due(z, max), z); }
    r
  }

  lemma SubmapSize(a: ZSet, b: ZSet)
    requires a.Keys <= b.Keys
    ensures |a| <= |b|
  {
    SubsetSize(a.Keys, b.Keys);
  }

  lemma {:induction false} SubsetSize<T>(a: set<T>, b: set<T>)
    requires a <= b
    ensures |a| <= |b|
    ensures a != b ==> |a| < |b|
  {
    if x :| x in a {
      SubsetSize(a - {x}, b - {x});
      if a != b { assert a - {x} != b - {x}; }
    } else if y :| y in b {
      assert |b| > 0;
    }
  }

  /** Without a limit, a range is all of the due members. */
  lemma FullRange(z: ZSet, max: int)
    ensures forall x :: x in RangeByScore(z, max, -1) <==> x in z && z[x] <= max
  {
    hide Ranked;
  }

  /** Once the first batch is gone, the next range is the rest of the old one. */
  lemma RangeAfterBatch(z: ZSet, max: int, n: nat)
    ensures var r := RangeByScore(z, max, -1);
            var b := RangeByScore(z, max, n);
            b == r[..|b|] && RangeByScore(z - Elems(b), max, -1) == r[|b|..]
  {
    hide Ranked;
    var d := Due(z, max);
    var r := Ranked(d);
    var b := Limit(r, n);
    RankedDrop(d, |b|);
    assert Due(z - Elems(b), max) == d - Elems(b);
  }

  /** `LREM list 0 id`: removes every occurrence. */
  function LRem(s: seq<string>, id: string): (r: seq<string>)
    ensures forall x :: x in r <==> x in s && x != id
    ensures |r| <= |s|
  {
    if s == [] then []
    else if s[0] == id then LRem(s[1..], id)
    else [s[0]] + LRem(s[1..], id)
  }

  lemma NoDupCons(x: string, s: seq<string>)
    requires NoDup(s) && x !in s
    ensures NoDup([x] + s) && NoDup(s + [x])
  {
  }

  lemma {:induction false} LRemNoDup(s: seq<string>, id: string)
    requires NoDup(s)
    ensures NoDup(LRem(s, id))
  {
    if s != [] {
      var t := s[1..];
      forall i, j | 0 <= i < j < |t| ensures t[i] != t[j] { assert s[i + 1] != s[j + 1]; }
      LRemNoDup(t, id);
      if s[0] != id {
        NoDupCons(s[0], LRem(t, id));
      }
    }
  }

  /** The others stay, in their order. */
  lemma {:induction false} LRemKeepsOrder(a: seq<string>, b: seq<string>, id: string)
    requires id !in a && id !in b
    ensures LRem(a + [id] + b, id) == a + b && LRem(b, id) == b
  {
    if a != [] {
      var s := a + [id] + b;
      assert s[0] == a[0] && s[1..] == a[1..] + [id] + b;
      LRemKeepsOrder(a[1..], b, id);
      assert [a[0]] + (a[1..] + b) == a + b;
    } else {
      assert (a + [id] + b)[1..] == b;
      LRemNone(b, id);
      assert a + b == b;
    }
  }

  lemma {:induction false} LRemNone(s: seq<string>, id: string)
    requires id !in s
    ensures LRem(s, id) == s
  {
    if s != [] { LRemNone(s[1..], id); }
  }

  function Reverse(s: seq<string>): (r: seq<string>)
    ensures |r| == |s|
    ensures forall x :: x in r <==> x in s
    ensures forall i | 0 <= i < |s| :: r[i] == s[|s| - 1 - i]
  {
    if s == [] then [] else Reverse(s[1..]) + [s[0]]
  }
}
