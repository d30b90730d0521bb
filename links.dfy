/** The link pass of a frame: every unordered pair of particles is checked
    once, in the order of the two nested loops, and a line is drawn between two
    particles closer than 100 pixels. Distances are compared squared. */
module ParticleLinks {
  import opened Particles

  datatype Point = Point(x: real, y: real)

  /** The largest distance, exclusive, at which two particles are linked. */
  const LinkDistance: real := 100.0

  predicate WithinReach(a: Point, b: Point) {
    var dx := a.x - b.x;
    var dy := a.y - b.y;
    dx * dx + dy * dy < LinkDistance * LinkDistance
  }

  /** Comparing squares is comparing distances: for the non-negative `d` with
      `d * d` the squared distance, `d < 100` exactly when the square is below
      10000. */
  lemma SquaredComparison(d: real, squared: real)
    requires 0.0 <= d && d * d == squared
    ensures d < LinkDistance <==> squared < LinkDistance * LinkDistance
  {
    if d >= LinkDistance {
      MulMonotone(LinkDistance, d, d);
      MulMonotone(LinkDistance, d, LinkDistance);
    } else {
      MulMonotone(d, LinkDistance, d);
      assert d * LinkDistance < LinkDistance * LinkDistance;
    }
  }

  lemma MulMonotone(a: real, b: real, c: real)
    requires a <= b && 0.0 <= c
    ensures a * c <= b * c
  {
    assert b * c - a * c == (b - a) * c;
  }

  /** The boundary is on the far side: 99 pixels apart is linked, exactly 100
      or 101 pixels apart is not. */
  lemma LinkBoundary()
    ensures WithinReach(Point(0.0, 0.0), Point(99.0, 0.0))
    ensures !WithinReach(Point(0.0, 0.0), Point(100.0, 0.0))
    ensures !WithinReach(Point(30.0, 0.0), Point(90.0, 80.0))
    ensures !WithinReach(Point(0.0, 0.0), Point(0.0, 101.0))
  {
  }

  /** The pairs `(i, k)` with `i < k < j`, in increasing `k`: the inner loop of
      row `i` stopped before `j`. */
  function Row(i: nat, j: nat): seq<(nat, nat)>
    decreases j
  {
    if j <= i + 1 then [] else Row(i, j - 1) + [(i, j - 1)]
  }

  /** All pairs of the first `i` rows over `n` particles, in visiting order. */
  function Rows(i: nat, n: nat): seq<(nat, nat)> {
    if i == 0 then [] else Rows(i - 1, n) + Row(i - 1, n)
  }

  /** Every pair the nested loops of `animate` visit over `n` particles. */
  function AllPairs(n: nat): seq<(nat, nat)> {
    Rows(n, n)
  }

  /** The pairs of `pairs` whose two points `near` accepts, in the same order. */
  function Filter(near: (Point, Point) -> bool, pos: seq<Point>, pairs: seq<(nat, nat)>): seq<(nat, nat)> {
    if pairs == [] then []
    else
      var rest := Filter(near, pos, pairs[..|pairs| - 1]);
      var p := pairs[|pairs| - 1];
      if p.0 < |pos| && p.1 < |pos| && near(pos[p.0], pos[p.1]) then rest + [p] else rest
  }

  /** The pairs of `pairs` that are linked, in the same order. */
  function Linked(pos: seq<Point>, pairs: seq<(nat, nat)>): seq<(nat, nat)> {
    Filter(WithinReach, pos, pairs)
  }

  /** The lexicographic order of the loops: row first, then column. */
  predicate Before(a: (nat, nat), b: (nat, nat)) {
    a.0 < b.0 || (a.0 == b.0 && a.1 < b.1)
  }

  predicate Increasing(s: seq<(nat, nat)>) {
    forall a, b :: 0 <= a < b < |s| ==> Before(s[a], s[b])
  }

  lemma {:induction false} RowShape(i: nat, j: nat)
    ensures |Row(i, j)| == if j <= i + 1 then 0 else j - i - 1
    ensures forall k :: 0 <= k < |Row(i, j)| ==> Row(i, j)[k] == (i, i + 1 + k)
    decreases j
  {
    if j > i + 1 {
      RowShape(i, j - 1);
    }
  }

  /** Row `i` cut at `j` holds exactly the pairs `(i, b)` with `i < b < j`. */
  lemma {:induction false} RowMembers(i: nat, j: nat)
    ensures forall p :: p in Row(i, j) <==> p.0 == i && i < p.1 < j
    decreases j
  {
    if j > i + 1 {
      RowMembers(i, j - 1);
    }
  }

  /** The first `i` rows hold exactly the pairs `(a, b)` with `a < i` and
      `a < b < n`. */
  lemma {:induction false} RowsMembers(i: nat, n: nat)
    ensures forall p :: p in Rows(i, n) <==> p.0 < i && p.0 < p.1 < n
  {
    if i > 0 {
      RowsMembers(i - 1, n);
      RowMembers(i - 1, n);
    }
  }

  lemma {:induction false} RowsIncreasing(i: nat, n: nat)
    ensures Increasing(Rows(i, n))
  {
    if i > 0 {
      RowsIncreasing(i - 1, n);
      RowsMembers(i - 1, n);
      RowShape(i - 1, n);
      var a, b := Rows(i - 1, n), Row(i - 1, n);
      forall x, y | 0 <= x < y < |a + b| ensures Before((a + b)[x], (a + b)[y]) {
        if y < |a| {
        } else if x < |a| {
          assert a[x] in a;
        }
      }
    }
  }

  /** Twice the number of pairs in the first `i` rows. */
  lemma {:induction false} RowsCount(i: nat, n: nat)
    requires i <= n
    ensures 2 * |Rows(i, n)| == i * (2 * n - i - 1)
  {
    if i > 0 {
      RowsCount(i - 1, n);
      RowShape(i - 1, n);
      assert (i - 1) * (2 * n - i) + 2 * (n - i) == i * (2 * n - i - 1);
    }
  }

  /** Coverage: the link pass checks every unordered pair `i < j < n` exactly
      once (the visits are strictly increasing, so none repeats), and checks
      nothing else: `n * (n - 1) / 2` checks in all. */
  lemma AllPairsVisitedOnce(n: nat)
    ensures forall p :: p in AllPairs(n) <==> p.0 < p.1 < n
    ensures Increasing(AllPairs(n))
    ensures |AllPairs(n)| == n * (n - 1) / 2
  {
    RowsMembers(n, n);
    RowsIncreasing(n, n);
    RowsCount(n, n);
  }

  /** With the 50 particles of the effect, a frame makes 1225 distance checks. */
  lemma FiftyParticleChecks()
    ensures |AllPairs(50)| == 1225
  {
    AllPairsVisitedOnce(50);
  }

  lemma {:induction false} FilterMembers(near: (Point, Point) -> bool, pos: seq<Point>, pairs: seq<(nat, nat)>)
    ensures forall p :: p in Filter(near, pos, pairs) <==>
      p in pairs && p.0 < |pos| && p.1 < |pos| && near(pos[p.0], pos[p.1])
    decreases |pairs|
  {
    if pairs != [] {
      FilterMembers(near, pos, pairs[..|pairs| - 1]);
      assert pairs == pairs[..|pairs| - 1] + [pairs[|pairs| - 1]];
    }
  }

  /** Threshold: a pair `i < j` of the frame is linked exactly when its
      squared distance is below 10000, and only such pairs are linked. */
  lemma LinkRule(pos: seq<Point>)
    ensures forall p :: p in Linked(pos, AllPairs(|pos|)) <==>
      p.0 < p.1 < |pos| && WithinReach(pos[p.0], pos[p.1])
  {
    AllPairsVisitedOnce(|pos|);
    FilterMembers(WithinReach, pos, AllPairs(|pos|));
  }

  /** The positions of the particles, in list order. */
  function Positions(ps: seq<Particle>): (r: seq<Point>)
    reads ps
    ensures |r| == |ps|
    ensures forall k :: 0 <= k < |ps| ==> r[k] == Point(ps[k].x, ps[k].y)
  {
    if ps == [] then [] else Positions(ps[..|ps| - 1]) + [Point(ps[|ps| - 1].x, ps[|ps| - 1].y)]
  }

  lemma FilterSnoc(near: (Point, Point) -> bool, pos: seq<Point>, pairs: seq<(nat, nat)>, p: (nat, nat))
    ensures Filter(near, pos, pairs + [p]) ==
      if p.0 < |pos| && p.1 < |pos| && near(pos[p.0], pos[p.1])
      then Filter(near, pos, pairs) + [p] else Filter(near, pos, pairs)
  {
    assert (pairs + [p])[..|pairs|] == pairs;
  }

  /** One turn of the inner loop: pair `(i, j)` is checked next and kept when
      `near` accepts it. */
  lemma VisitPair(near: (Point, Point) -> bool, pos: seq<Point>, prefix: seq<(nat, nat)>, i: nat, j: nat)
    requires i < j < |pos|
    ensures prefix + Row(i, j + 1) == prefix + Row(i, j) + [(i, j)]
    ensures Filter(near, pos, prefix + Row(i, j + 1)) ==
      if near(pos[i], pos[j]) then Filter(near, pos, prefix + Row(i, j)) + [(i, j)]
      else Filter(near, pos, prefix + Row(i, j))
  {
    FilterSnoc(near, pos, prefix + Row(i, j), (i, j));
  }

  /** The inner loop of `animate` for particle `i`: the pairs `(i, j)`,
      `i < j`, checked in increasing `j`, each kept when `near` accepts it. */
  method LinkRow(near: (Point, Point) -> bool, ps: seq<Particle>, i: nat,
                 checked0: seq<(nat, nat)>, links0: seq<(nat, nat)>)
    returns (checked: seq<(nat, nat)>, links: seq<(nat, nat)>)
    requires i < |ps| && links0 == Filter(near, Positions(ps), checked0)
    ensures checked == checked0 + Row(i, |ps|)
    ensures links == Filter(near, Positions(ps), checked)
  {
    ghost var pos := Positions(ps);
    checked, links := checked0, links0;
    var j := i + 1;
    while j < |ps|
      invariant i + 1 <= j <= |ps|
      invariant checked == checked0 + Row(i, j)
      invariant links == Filter(near, pos, checked)
    {
      var a, b := Point(ps[i].x, ps[i].y), Point(ps[j].x, ps[j].y);
      assert pos[i] == a && pos[j] == b;
      VisitPair(near, pos, checked0, i, j);
      checked := checked + [(i, j)];
      if near(a, b) {
        links := links + [(i, j)];
      }
      j := j + 1;
    }
  }

  /** The two nested loops, for any distance test. */
  method PairPass(near: (Point, Point) -> bool, ps: seq<Particle>)
    returns (checked: seq<(nat, nat)>, links: seq<(nat, nat)>)
    ensures checked == AllPairs(|ps|)
    ensures links == Filter(near, Positions(ps), checked)
  {
    checked, links := [], [];
    var i := 0;
    while i < |ps|
      invariant 0 <= i <= |ps|
      invariant checked == Rows(i, |ps|)
      invariant links == Filter(near, Positions(ps), checked)
    {
      checked, links := LinkRow(near, ps, i, checked, links);
      assert checked == Rows(i + 1, |ps|);
      i := i + 1;
    }
  }

  /** The nested loops of `animate` over the particle list (script.js's
      `for (i …) for (j = i + 1 …)`). `checked` is every pair whose distance
      is computed, in order; `links` the pairs a line is drawn for. */
  method LinkPass(ps: seq<Particle>) returns (checked: seq<(nat, nat)>, links: seq<(nat, nat)>)
    ensures checked == AllPairs(|ps|)
    ensures links == Linked(Positions(ps), checked)
  {
    checked, links := PairPass(WithinReach, ps);
  }
}
