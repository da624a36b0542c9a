/** The spherical keyword layout of the 3D word cloud: every keyword of an
    ordered list gets a point on a sphere of radius 3, derived from its index
    alone, and a font size derived from its weight.

    JavaScript numbers are modelled as `real`. `Math.acos`, `Math.sin`,
    `Math.cos`, `Math.sqrt` and `Math.PI` are not computed: they are the
    fields of a `Trig` value that every layout function takes, and the facts
    the geometry needs of them (sin² + cos² = 1) are hypotheses of lemmas. */
module WordCloud3D {

  import opened Keywords

  /** A point of the layout. */
  datatype Point = Point(x: real, y: real, z: real)

  /** One rendered label: keyed by its index, showing its word at its point
      with its font size. */
  datatype Label = Label(key: nat, word: string, position: Point, size: real)

  /** The numeric primitives the layout calls, left abstract. */
  datatype Trig = Trig(acos: real -> real, sin: real -> real, cos: real -> real,
                       sqrt: real -> real, pi: real)

  const Radius: real := 3.0
  const BaseSize: real := 0.5
  const SizeScale: real := 0.5
  const MaxBonus: real := 2.0
  const MaxSize: real := BaseSize + MaxBonus

  function Min(a: real, b: real): real
  {
    if a <= b then a else b
  }

  function Norm2(p: Point): real
  {
    p.x * p.x + p.y * p.y + p.z * p.z
  }

  /** The argument handed to `Math.acos` for item `i` of `n`: `-1 + 2i/n`.
      It is only ever computed for an existing index, so `n` is positive. */
  function AcosArg(i: nat, n: nat): (r: real)
    requires i < n
    ensures -1.0 <= r < 1.0
    ensures r == -1.0 <==> i == 0
  {
    assert (2 * i) as real / n as real < 2.0 by {
      assert (2 * i) as real < 2.0 * n as real;
    }
    -1.0 + (2 * i) as real / n as real
  }

  /** Polar angle of item `i` of `n`. */
  function Phi(m: Trig, i: nat, n: nat): real
    requires i < n
  {
    m.acos(AcosArg(i, n))
  }

  /** Azimuth of item `i` of `n`: `sqrt(n·π)·phi`. */
  function Theta(m: Trig, i: nat, n: nat): real
    requires i < n
  {
    m.sqrt(n as real * m.pi) * Phi(m, i, n)
  }

  /** The point of item `i` of `n`. */
  function PositionAt(m: Trig, i: nat, n: nat): Point
    requires i < n
  {
    var phi := Phi(m, i, n);
    var theta := Theta(m, i, n);
    Point(Radius * m.cos(theta) * m.sin(phi),
          Radius * m.sin(theta) * m.sin(phi),
          Radius * m.cos(phi))
  }

  /** The `positions` array: one point per keyword, in order. */
  function Layout(m: Trig, words: seq<Keyword>): (ps: seq<Point>)
    ensures |ps| == |words|
    ensures words == [] ==> ps == []
  {
    seq(|words|, i requires 0 <= i < |words| => PositionAt(m, i, |words|))
  }

  /** The font size of a label with weight `w`: `0.5 + min(2, 0.5·w)`. */
  function Size(w: real): (s: real)
    ensures s <= MaxSize
    ensures w <= 4.0 ==> s == BaseSize + SizeScale * w
    ensures w >= 4.0 ==> s == MaxSize
  {
    BaseSize + Min(MaxBonus, w * SizeScale)
  }

  /** The `Word` elements the cloud renders: one per keyword, keyed by index. */
  function Labels(m: Trig, words: seq<Keyword>): (ls: seq<Label>)
    ensures |ls| == |words|
    ensures forall i :: 0 <= i < |words| ==> ls[i].key == i && ls[i].word == words[i].word
  {
    seq(|words|, i requires 0 <= i < |words| =>
      Label(i, words[i].word, Layout(m, words)[i], Size(words[i].weight)))
  }

  // ---------------------------------------------------------------------
  // Layout properties

  /** A label sits at the layout point of its own index and has the size of
      its own weight. */
  lemma LabelsUseLayout(m: Trig, words: seq<Keyword>, i: nat)
    requires i < |words|
    ensures Labels(m, words)[i].position == PositionAt(m, i, |words|)
    ensures Labels(m, words)[i].size == Size(words[i].weight)
  {
  }

  /** Positions depend only on the number of keywords, never on their words
      or weights. */
  lemma LayoutIgnoresContent(m: Trig, a: seq<Keyword>, b: seq<Keyword>)
    requires |a| == |b|
    ensures Layout(m, a) == Layout(m, b)
  {
  }

  /** Consecutive acos arguments are exactly `2/n` apart. */
  lemma AcosArgStep(i: nat, n: nat)
    requires i + 1 < n
    ensures AcosArg(i + 1, n) - AcosArg(i, n) == 2.0 / n as real
  {
  }

  /** The acos argument strictly increases with the index. */
  lemma AcosArgIncreasing(i: nat, j: nat, n: nat)
    requires i < j < n
    ensures AcosArg(i, n) < AcosArg(j, n)
  {
    var a, b, d := (2 * i) as real, (2 * j) as real, n as real;
    assert b / d - a / d == (b - a) / d;
    assert (b - a) / d > 0.0;
  }

  /** Given sin² + cos² = 1 at both angles, point `i` lies on the sphere. */
  lemma PositionOnSphere(m: Trig, i: nat, n: nat)
    requires i < n
    requires m.sin(Theta(m, i, n)) * m.sin(Theta(m, i, n)) + m.cos(Theta(m, i, n)) * m.cos(Theta(m, i, n)) == 1.0
    requires m.sin(Phi(m, i, n)) * m.sin(Phi(m, i, n)) + m.cos(Phi(m, i, n)) * m.cos(Phi(m, i, n)) == 1.0
    ensures Norm2(PositionAt(m, i, n)) == Radius * Radius
  {
    var ct, st := m.cos(Theta(m, i, n)), m.sin(Theta(m, i, n));
    var cp, sp := m.cos(Phi(m, i, n)), m.sin(Phi(m, i, n));
    var p := PositionAt(m, i, n);
    assert p == Point(Radius * ct * sp, Radius * st * sp, Radius * cp);
    calc {
      Norm2(p);
      (Radius * ct * sp) * (Radius * ct * sp) + (Radius * st * sp) * (Radius * st * sp) + (Radius * cp) * (Radius * cp);
      9.0 * (sp * sp * (ct * ct + st * st) + cp * cp);
      { assert ct * ct + st * st == 1.0; }
      9.0 * (sp * sp + cp * cp);
    }
  }

  /** Where sin² + cos² = 1 holds for every angle, every point of the layout
      lies at distance `Radius` from the origin. */
  lemma LayoutOnSphere(m: Trig, words: seq<Keyword>)
    requires forall t :: m.sin(t) * m.sin(t) + m.cos(t) * m.cos(t) == 1.0
    ensures forall k :: 0 <= k < |words| ==> Norm2(Layout(m, words)[k]) == Radius * Radius
  {
    forall k | 0 <= k < |words|
      ensures Norm2(Layout(m, words)[k]) == Radius * Radius
    {
      PositionOnSphere(m, k, |words|);
    }
  }

  // ---------------------------------------------------------------------
  // Size properties

  lemma SizeAtZero()
    ensures Size(0.0) == BaseSize
  {
  }

  lemma SizeMonotone(w1: real, w2: real)
    requires w1 <= w2
    ensures Size(w1) <= Size(w2)
  {
  }

  /** There is no lower clamp: a negative weight shrinks the label below the
      base size. */
  lemma SizeNoLowerClamp(w: real)
    requires w < 0.0
    ensures Size(w) == BaseSize + SizeScale * w
    ensures Size(w) < BaseSize
  {
  }

  // ---------------------------------------------------------------------
  // The offline demo list of the application, as concrete input

  const OfflineDemo: seq<Keyword> := [
    Keyword("fastapi", 0.95), Keyword("react", 0.9), Keyword("threejs", 0.86),
    Keyword("fiber", 0.82), Keyword("drei", 0.78), Keyword("wordcloud", 0.74),
    Keyword("typescript", 0.7), Keyword("uvicorn", 0.66), Keyword("nlp", 0.62),
    Keyword("tokens", 0.6)]

  function Weights(words: seq<Keyword>): (ws: seq<real>)
  {
    seq(|words|, i requires 0 <= i < |words| => words[i].weight)
  }

  function Sizes(labels: seq<Label>): (ss: seq<real>)
  {
    seq(|labels|, i requires 0 <= i < |labels| => labels[i].size)
  }

  predicate StrictlyDecreasing(s: seq<real>)
  {
    forall i, j | 0 <= i < j < |s| :: s[i] > s[j]
  }

  lemma {:induction false} DecreasingFromAdjacent(s: seq<real>)
    requires forall i | 0 < i < |s| :: s[i - 1] > s[i]
    ensures StrictlyDecreasing(s)
  {
    if |s| > 1 {
      DecreasingFromAdjacent(s[1..]);
      forall j | 1 < j < |s| ensures s[1] > s[j] {
        assert s[1..][0] > s[1..][j - 1];
      }
    }
  }

  /** The demo list has ten strictly decreasing weights; it yields ten points
      and ten labels whose sizes fall strictly from 0.975 to 0.8. */
  lemma OfflineDemoLayout(m: Trig)
    ensures |Layout(m, OfflineDemo)| == 10
    ensures StrictlyDecreasing(Weights(OfflineDemo))
    ensures Sizes(Labels(m, OfflineDemo)) == [0.975, 0.95, 0.93, 0.91, 0.89, 0.87, 0.85, 0.83, 0.81, 0.8]
    ensures StrictlyDecreasing(Sizes(Labels(m, OfflineDemo)))
  {
    var ws := [0.95, 0.9, 0.86, 0.82, 0.78, 0.74, 0.7, 0.66, 0.62, 0.6];
    assert Weights(OfflineDemo) == ws;
    DecreasingFromAdjacent(ws);
    var ls := Labels(m, OfflineDemo);
    var ss := [0.975, 0.95, 0.93, 0.91, 0.89, 0.87, 0.85, 0.83, 0.81, 0.8];
    forall i | 0 <= i < 10
      ensures Sizes(ls)[i] == ss[i]
    {
      LabelsUseLayout(m, OfflineDemo, i);
      assert OfflineDemo[i].weight == ws[i];
    }
    assert Sizes(ls) == ss;
    DecreasingFromAdjacent(ss);
  }
}
