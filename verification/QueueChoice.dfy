/**
 The order in which a server asks its queues (processor.go and the queue filter of server.go).
 Loops over Go maps visit the keys in an arbitrary order, which `:|` leaves open here.
 */
module QueueChoice {
  import opened Base
  import opened SortedSets

  // ---------------------------------------------------------------- greatest common divisor

  /** d is a positive divisor of n. */
  ghost predicate Divides(d: int, n: int) {
    d > 0 && exists k :: n == d * k
  }

  ghost predicate DividesAll(d: int, xs: seq<int>) {
    forall i | 0 <= i < |xs| :: Divides(d, xs[i])
  }

  lemma Multiple(d: int, k: int)
    requires d > 0
    ensures Divides(d, d * k)
  {
  }

  lemma FactorBounds(d: int, k: int)
    requires d > 0 && d * k > 0
    ensures k >= 1 && d <= d * k
  {
  }

  lemma DivisorBound(d: int, n: int)
    requires n > 0 && Divides(d, n)
    ensures d <= n
  {
    var k :| n == d * k;
    FactorBounds(d, k);
  }

  lemma DivideSum(d: int, a: int, b: int, c: int)
    requires Divides(d, a) && Divides(d, b)
    ensures Divides(d, a + c * b) && Divides(d, a - c * b)
  {
    var k :| a == d * k;
    var l :| b == d * l;
    assert c * (d * l) == d * (c * l);
    assert a + c * b == d * (k + c * l);
    assert a - c * b == d * (k - c * l);
  }

  /** One step of Euclid's algorithm keeps the common divisors. */
  lemma EuclidStep(d: int, x: int, y: int)
    requires y > 0
    ensures Divides(d, x) && Divides(d, y) <==> Divides(d, y) && Divides(d, x % y)
  {
    hide Divides;
    var c := x / y;
    assert x == x % y + c * y && x % y == x - c * y;
    if Divides(d, x) && Divides(d, y) { DivideSum(d, x, y, c); }
    if Divides(d, y) && Divides(d, x % y) { DivideSum(d, x % y, y, c); }
  }

  lemma DividesZero(d: int)
    requires d > 0
    ensures Divides(d, 0)
  {
    assert 0 == d * 0;
  }

  method Euclid(a: int, b: int) returns (x: int)
    requires a > 0 && b > 0
    ensures x > 0
    ensures forall d :: Divides(d, x) <==> Divides(d, a) && Divides(d, b)
  {
    var y := b;
    x := a;
    while y > 0
      invariant x > 0 && y >= 0
      invariant forall d :: Divides(d, x) && Divides(d, y) <==> Divides(d, a) && Divides(d, b)
      decreases y
    {
      hide Divides;
      forall d ensures Divides(d, x) && Divides(d, y) <==> Divides(d, y) && Divides(d, x % y) { EuclidStep(d, x, y); }
      x, y := y, x % y;
    }
    forall d | d > 0 ensures Divides(d, 0) { DividesZero(d); }
  }

  lemma OnlyOneDividesOne(d: int, n: int)
    requires Divides(d, 1)
    ensures Divides(d, n)
  {
    DivisorBound(d, 1);
    assert n == d * n;
  }

  /** The divisors of the result are exactly the common divisors of the numbers, in whatever order they come. */
  method Gcd(xs: seq<int>) returns (res: int)
    requires xs != [] && forall i | 0 <= i < |xs| :: xs[i] > 0
    ensures res > 0
    ensures forall d :: Divides(d, res) <==> DividesAll(d, xs)
  {
    hide Divides;
    res := xs[0];
    for i := 0 to |xs|
      invariant res > 0
      invariant forall d :: Divides(d, res) <==> Divides(d, xs[0]) && forall j | 0 <= j < i :: Divides(d, xs[j])
    {
      res := Euclid(xs[i], res);
      if res == 1 {
        forall d | Divides(d, 1) ensures DividesAll(d, xs) {
          forall j | 0 <= j < |xs| { OnlyOneDividesOne(d, xs[j]); }
        }
        return;
      }
    }
  }

  /** The gcd is the greatest of the common divisors. */
  lemma GcdIsGreatest(g: int, xs: seq<int>, d: int)
    requires g > 0 && (forall e :: Divides(e, g) <==> DividesAll(e, xs))
    ensures DividesAll(g, xs) && (DividesAll(d, xs) ==> d <= g)
  {
    Multiple(g, 1);
    assert Divides(g, g);
    if DividesAll(d, xs) { DivisorBound(d, g); }
  }

  // ---------------------------------------------------------------- normalising

  ghost predicate DividesEach(e: int, m: map<string, int>) {
    forall q | q in m :: Divides(e, m[q])
  }

  /** Weights become as small as they can without changing any ratio. */
  method NormalizeQueues(queues: map<string, int>) returns (res: map<string, int>, ghost d: int)
    requires queues != map[] && forall q | q in queues :: queues[q] > 0
    ensures res.Keys == queues.Keys && d > 0
    ensures forall q | q in queues :: res[q] >= 1 && queues[q] == res[q] * d
    ensures forall e | DividesEach(e, res) :: e == 1
  {
    hide Divides;
    var xs: seq<int> := [];
    var todo := queues.Keys;
    while todo != {}
      invariant todo <= queues.Keys
      invariant forall i | 0 <= i < |xs| :: xs[i] in queues.Values && xs[i] > 0
      invariant forall q | q in queues && q !in todo :: queues[q] in xs
      invariant todo != queues.Keys ==> xs != []
      decreases todo
    {
      var q :| q in todo;
      todo := todo - {q};
      xs := xs + [queues[q]];
    }
    var g := Gcd(xs);
    d := g;
    DividesItself(g);
    assert forall q | q in queues :: Divides(g, queues[q]);
    res := map[];
    todo := queues.Keys;
    while todo != {}
      invariant todo <= queues.Keys && res.Keys == queues.Keys - todo
      invariant forall q | q in res :: res[q] >= 1 && queues[q] == res[q] * g
      decreases todo
    {
      var q :| q in todo;
      todo := todo - {q};
      ExactDivision(g, queues[q]);
      res := res[q := queues[q] / g];
    }
    forall e | DividesEach(e, res) ensures e == 1 {
      forall i | 0 <= i < |xs| ensures Divides(e * g, xs[i]) {
        var q :| q in queues && queues[q] == xs[i];
        DivideScaled(e, res[q], g);
      }
      assert DividesAll(e * g, xs);
      var q :| q in queues;
      assert Divides(e, res[q]);
      NoLarger(e, g, res[q]);
    }
  }

  lemma DividesItself(g: int)
    requires g > 0
    ensures Divides(g, g)
  {
    Multiple(g, 1);
  }

  lemma ExactDivision(g: int, n: int)
    requires n > 0 && Divides(g, n)
    ensures n / g >= 1 && n == n / g * g
  {
    var k :| n == g * k;
    FactorBounds(g, k);
    DivMul(g, k);
  }

  lemma DivMul(g: int, k: int)
    requires g > 0
    ensures g * k / g == k
  {
    var n := g * k;
    var q := n / g;
    assert n == g * q + n % g;
    assert g * (k - q) == n - g * q;
    SmallMultiple(g, k - q);
  }

  lemma SmallMultiple(g: int, j: int)
    requires g > 0 && 0 <= g * j < g
    ensures j == 0
  {
  }

  lemma DivideScaled(e: int, n: int, g: int)
    requires g > 0 && Divides(e, n)
    ensures Divides(e * g, n * g)
  {
    var k :| n == e * k;
    assert n * g == e * g * k;
    assert e * g > 0;
  }

  lemma NoLarger(e: int, g: int, n: int)
    requires g > 0 && Divides(e * g, g) && Divides(e, n)
    ensures e == 1
  {
    DivisorBound(e * g, g);
    assert e * g <= g;
  }

  /** Equal ratios before and after normalising. */
  lemma RatiosKept(a: int, b: int, x: int, y: int, d: int)
    requires a == x * d && b == y * d
    ensures a * y == b * x
  {
    assert a * y == x * d * y == y * d * x;
  }

  // ---------------------------------------------------------------- the order of the queues

  /** The names without repetitions, each where it first occurs. */
  function Firsts(names: seq<string>): (r: seq<string>)
    ensures Elems(r) == Elems(names)
  {
    if names == [] then [] else
      var front := names[..|names| - 1];
      var x := names[|names| - 1];
      assert names == front + [x];
      var f := Firsts(front);
      if x in f then f else f + [x]
  }

  /** x occurs before any y does. */
  ghost predicate Precedes(names: seq<string>, x: string, y: string) {
    exists k :: 0 <= k < |names| && names[k] == x && y !in names[..k + 1]
  }

  lemma PrecedesMore(front: seq<string>, last: string, x: string, y: string)
    requires Precedes(front, x, y) || (x in front && y !in front && y == last)
    ensures Precedes(front + [last], x, y)
  {
    var names := front + [last];
    var k :| 0 <= k < |front| && front[k] == x && y !in front[..k + 1];
    assert names[..k + 1] == front[..k + 1] && names[k] == x;
  }

  /** In `Firsts` there are no repetitions, and every name occurs in the input before any later one does. */
  lemma {:induction false} FirstsInOrder(names: seq<string>)
    ensures var f := Firsts(names);
            NoDup(f) && forall i, j | 0 <= i < j < |f| :: Precedes(names, f[i], f[j])
  {
    if names != [] {
      hide Precedes;
      var front, x := names[..|names| - 1], names[|names| - 1];
      assert names == front + [x];
      FirstsInOrder(front);
      var g, f := Firsts(front), Firsts(names);
      if x !in g { NoDupCons(x, g); }
      forall i, j | 0 <= i < j < |f| ensures Precedes(names, f[i], f[j]) {
        assert f[i] == g[i] && g[i] in Elems(g);
        if j == |g| { assert x !in Elems(front); }
        PrecedesMore(front, x, f[i], f[j]);
      }
    }
  }

  /** The first l different names, or all of them if there are fewer or l is zero. */
  method Uniq(names: seq<string>, l: nat) returns (res: seq<string>)
    ensures res == if 0 < l < |Firsts(names)| then Firsts(names)[..l] else Firsts(names)
    ensures NoDup(res) && Elems(res) <= Elems(names)
    ensures l >= |Elems(names)| ==> Elems(res) == Elems(names)
  {
    hide Firsts, NoDup;
    res := [];
    var seen: set<string> := {};
    assert names[..0] == [] && Firsts([]) == [] by { FirstsNone(); }
    for i := 0 to |names|
      invariant seen == Elems(res) && res == Firsts(names[..i])
      invariant 0 < l && 0 < |res| ==> |res| < l
    {
      FirstsNext(names, i);
      FirstsGrow(names, i + 1);
      if names[i] !in seen {
        seen := seen + {names[i]};
        res := res + [names[i]];
      }
      if |res| == l {
        FirstsFacts(names, res, l);
        return;
      }
    }
    assert names[..|names|] == names;
    FirstsFacts(names, res, l);
  }

  lemma FirstsNone()
    ensures Firsts([]) == []
  {
  }

  lemma FirstsNext(names: seq<string>, i: nat)
    requires i < |names|
    ensures var f := Firsts(names[..i]);
            Firsts(names[..i + 1]) == if names[i] in f then f else f + [names[i]]
  {
    assert names[..i + 1][..i] == names[..i];
  }

  lemma {:induction false} FirstsGrow(names: seq<string>, i: nat)
    requires i <= |names|
    ensures Firsts(names[..i]) <= Firsts(names)
    decreases |names|
  {
    if i < |names| {
      assert names[..|names| - 1][..i] == names[..i];
      FirstsGrow(names[..|names| - 1], i);
    } else {
      assert names[..i] == names;
    }
  }

  lemma FirstsFacts(names: seq<string>, res: seq<string>, l: nat)
    requires res <= Firsts(names) && (|res| == l || res == Firsts(names))
    ensures NoDup(res) && Elems(res) <= Elems(names)
    ensures l >= |Elems(names)| ==> Elems(res) == Elems(names)
  {
    var f := Firsts(names);
    FirstsInOrder(names);
    forall i, j | 0 <= i < j < |res| ensures res[i] != res[j] { assert f[i] != f[j]; }
    forall x | x in res ensures x in f { var i :| 0 <= i < |res| && res[i] == x; assert f[i] == x; }
    NoDupSize(res);
    SubsetSize(Elems(res), Elems(names));
  }

  lemma {:induction false} NoDupSize(s: seq<string>)
    requires NoDup(s)
    ensures |Elems(s)| == |s|
  {
    if s != [] {
      var t := s[1..];
      forall i, j | 0 <= i < j < |t| ensures t[i] != t[j] { assert s[i + 1] != s[j + 1]; }
      NoDupSize(t);
      assert s[0] !in t by {
        forall k | 0 <= k < |t| ensures t[k] != s[0] { assert t[k] == s[k + 1]; }
      }
      assert Elems(s) == {s[0]} + Elems(t);
    }
  }

  /** rand.Shuffle: swaps with arbitrary earlier positions. */
  method Shuffle(names: seq<string>) returns (res: seq<string>)
    ensures multiset(res) == multiset(names)
  {
    res := names;
    var i := |names| - 1;
    while i > 0
      invariant |res| == |names| && multiset(res) == multiset(names) && i < |names|
      decreases i
    {
      var j :| 0 <= j <= i;
      res := res[i := res[j]][j := res[i]];
      i := i - 1;
    }
  }

  ghost predicate Permutes(qnames: seq<string>, config: map<string, int>) {
    NoDup(qnames) && Elems(qnames) == config.Keys
  }

  lemma PermutesNames(qnames: seq<string>, config: map<string, int>)
    requires Permutes(qnames, config)
    ensures forall i | 0 <= i < |qnames| :: qnames[i] in config
    ensures forall n | n in config :: exists i :: 0 <= i < |qnames| && qnames[i] == n
  {
    forall i | 0 <= i < |qnames| ensures qnames[i] in config { assert qnames[i] in Elems(qnames); }
    forall n | n in config ensures exists i :: 0 <= i < |qnames| && qnames[i] == n { assert n in Elems(qnames); }
  }

  ghost predicate Descending(qnames: seq<string>, config: map<string, int>) {
    && (forall i | 0 <= i < |qnames| :: qnames[i] in config)
    && (forall i, j | 0 <= i < j < |qnames| :: config[qnames[i]] >= config[qnames[j]])
  }

  /** Names by priority, highest first; equal priorities come in any order. */
  method SortByPriority(config: map<string, int>) returns (res: seq<string>)
    ensures Permutes(res, config) && Descending(res, config)
  {
    res := [];
    var todo := config.Keys;
    while todo != {}
      invariant todo <= config.Keys && Elems(res) == config.Keys - todo
      invariant NoDup(res) && Descending(res, config)
      invariant forall q, i | q in todo && 0 <= i < |res| :: config[res[i]] >= config[q]
      decreases todo
    {
      HighestExists(todo, config);
      var q :| q in todo && forall p | p in todo :: config[p] <= config[q];
      NoDupCons(q, res);
      assert Elems(res + [q]) == Elems(res) + {q};
      res := res + [q];
      todo := todo - {q};
    }
  }

  lemma {:induction false} HighestExists(s: set<string>, config: map<string, int>)
    requires s != {} && s <= config.Keys
    ensures exists q | q in s :: forall p | p in s :: config[p] <= config[q]
  {
    var x :| x in s;
    if s != {x} {
      HighestExists(s - {x}, config);
      var q :| q in s - {x} && forall p | p in s - {x} :: config[p] <= config[q];
      if config[x] <= config[q] {
        assert forall p | p in s :: config[p] <= config[q];
      } else {
        assert forall p | p in s :: config[p] <= config[x];
      }
    }
  }

  class QueuePicker {
    const queueConfig: map<string, int>
    const strict: bool
    const orderedQueues: seq<string>
    /** The weights as configured, and what they were divided by. */
    ghost const weights: map<string, int>
    ghost const factor: int

    ghost predicate Valid() {
      && queueConfig.Keys == weights.Keys && factor > 0
      && (forall q | q in weights :: weights[q] == queueConfig[q] * factor)
      && queueConfig != map[] && (forall q | q in queueConfig :: queueConfig[q] >= 1)
      && (strict ==> Permutes(orderedQueues, queueConfig) && Descending(orderedQueues, queueConfig))
    }

    constructor (queues: map<string, int>, strictPriority: bool)
      requires queues != map[] && forall q | q in queues :: queues[q] > 0
      ensures Valid() && weights == queues && strict == strictPriority
      ensures forall p, q | p in queues && q in queues :: queues[p] * queueConfig[q] == queues[q] * queueConfig[p]
    {
      var config, d := NormalizeQueues(queues);
      var ordered: seq<string> := [];
      if strictPriority { ordered := SortByPriority(config); }
      queueConfig, strict, orderedQueues := config, strictPriority, ordered;
      weights, factor := queues, d;
      forall p, q | p in queues && q in queues ensures queues[p] * config[q] == queues[q] * config[p] {
        RatiosKept(queues[p], queues[q], config[p], config[q], d);
      }
    }

    /** The queues to ask: always every configured queue, each once; by priority in strict mode. */
    method Queues() returns (qnames: seq<string>)
      requires Valid()
      ensures Permutes(qnames, queueConfig)
      ensures strict ==> Descending(qnames, queueConfig)
    {
      if |queueConfig| == 1 {
        var q :| q in queueConfig;
        OneQueue(queueConfig, q);
        return [q];
      }
      if strict { return orderedQueues; }
      var names := Weighted();
      NamesOf(names, queueConfig);
      var shuffled := Shuffle(names);
      SameElems(names, shuffled);
      qnames := Uniq(shuffled, |queueConfig|);
    }

    /** The list that is shuffled has each name as often as its weight says. */
    method Weighted() returns (names: seq<string>)
      requires Valid()
      ensures forall q :: multiset(names)[q] == if q in queueConfig then queueConfig[q] else 0
    {
      names := [];
      var todo := queueConfig.Keys;
      while todo != {}
        invariant todo <= queueConfig.Keys
        invariant forall q :: multiset(names)[q] == if q in queueConfig && q !in todo then queueConfig[q] else 0
        decreases todo
      {
        var q :| q in todo;
        ghost var before := multiset(names);
        for i := 0 to queueConfig[q]
          invariant multiset(names) == before[q := i]
        {
          names := names + [q];
        }
        todo := todo - {q};
      }
    }
  }

  lemma NamesOf(names: seq<string>, config: map<string, int>)
    requires forall q | q in config :: config[q] >= 1
    requires forall q :: multiset(names)[q] == if q in config then config[q] else 0
    ensures Elems(names) == config.Keys
  {
    forall q ensures q in names <==> q in config { assert q in names <==> multiset(names)[q] > 0; }
  }

  /** Dividing by a common factor keeps the order of the weights. */
  lemma SameOrder(picker: QueuePicker, p: string, q: string)
    requires picker.Valid() && p in picker.weights && q in picker.weights
    ensures picker.weights[p] <= picker.weights[q] <==> picker.queueConfig[p] <= picker.queueConfig[q]
  {
    ScaledOrder(picker.queueConfig[p], picker.queueConfig[q], picker.factor);
  }

  lemma ScaledOrder(x: int, y: int, d: int)
    requires d > 0
    ensures x * d <= y * d <==> x <= y
  {
  }

  lemma OneQueue(config: map<string, int>, q: string)
    requires |config| == 1 && q in config
    ensures Permutes([q], config) && Descending([q], config)
  {
    SubsetSize({q}, config.Keys);
  }

  lemma SameElems(a: seq<string>, b: seq<string>)
    requires multiset(a) == multiset(b)
    ensures Elems(a) == Elems(b)
  {
    assert forall x :: x in a <==> x in multiset(a);
    assert forall x :: x in b <==> x in multiset(b);
  }

  /**
   In strict mode, when the queues before position k are blocked and the one at k is not, no
   unblocked queue has a higher priority than that one.
   */
  lemma StrictTakesHighest(qnames: seq<string>, config: map<string, int>, blocked: set<string>, k: nat, q: string)
    requires Permutes(qnames, config) && Descending(qnames, config) && k < |qnames|
    requires forall i | 0 <= i < k :: qnames[i] in blocked
    requires q in config && q !in blocked
    ensures config[q] <= config[qnames[k]]
  {
    assert q in Elems(qnames);
    var j :| 0 <= j < |qnames| && qnames[j] == q;
    if j == k { } else { assert k < j; }
  }

  // ---------------------------------------------------------------- the configured queues

  /** What a server takes from its configuration: the named queues with a positive weight, or the default. */
  method ConfiguredQueues(cfg: map<string, int>) returns (queues: map<string, int>)
    ensures queues != map[] && forall q | q in queues :: queues[q] > 0
    ensures (forall q | q in cfg :: Blank(q) || cfg[q] <= 0) ==> queues == map[DEFAULT_QUEUE := 1]
    ensures (exists q | q in cfg :: !Blank(q) && cfg[q] > 0) ==>
      queues == map q | q in cfg && !Blank(q) && cfg[q] > 0 :: cfg[q]
  {
    queues := map[];
    var todo := cfg.Keys;
    while todo != {}
      invariant todo <= cfg.Keys
      invariant queues == map q | q in cfg.Keys - todo && !Blank(q) && cfg[q] > 0 :: cfg[q]
      decreases todo
    {
      var q :| q in todo;
      todo := todo - {q};
      if !Blank(q) && cfg[q] > 0 { queues := queues[q := cfg[q]]; }
    }
    assert queues == map q | q in cfg && !Blank(q) && cfg[q] > 0 :: cfg[q];
    assert |queues| == 0 ==> queues == map[];
    if q :| q in cfg && !Blank(q) && cfg[q] > 0 { assert q in queues; }
    if |queues| == 0 { queues := map[DEFAULT_QUEUE := 1]; }
  }
}
