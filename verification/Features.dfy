/** solution/features.py: fitted vocabularies, their layout in one index space, and the encoding
    the factorization machine relies on. */
module Features {
  import opened Reals
  import opened Results
  import opened Sums
  import opened Sorting
  import opened Ranks
  import opened Vectors
  import opened FactorizationMachine
  import opened Gradients

  /** What the encoder reads of a training or a scoring row. */
  datatype FeatureRow = FeatureRow(user: string, video: string, author: string, tab: string, duration: real)

  const FIELDS: nat := 5

  // ----- Duration buckets -----

  /** `np.quantile` with linear interpolation, at `i/b` of the way through sorted values. */
  function Quantile(sorted: seq<real>, position: real): real
    requires sorted != [] && 0.0 <= position <= (|sorted| - 1) as real
  {
    var lo := position.Floor;
    var hi := if lo + 1 < |sorted| then lo + 1 else lo;
    Blend(sorted[lo], sorted[hi], position - lo as real)
  }

  function Blend(a: real, b: real, t: real): real { a + t * (b - a) }

  lemma {:induction false} BlendMonotone(a: real, b: real, s: real, t: real)
    requires a <= b && 0.0 <= s <= t <= 1.0
    ensures a <= Blend(a, b, s) <= Blend(a, b, t) <= b
  {
    MulMonotone(0.0, s, b - a);
    MulMonotone(s, t, b - a);
    MulMonotone(t, 1.0, b - a);
  }

  function Position(i: int, buckets: int, n: nat): (r: real)
    requires n > 0 && 0 < i < buckets
    ensures 0.0 <= r <= (n - 1) as real
  {
    var q := i as real / buckets as real;
    DivisionRange(i as real, buckets as real);
    MulMonotone(0.0, q, (n - 1) as real);
    MulMonotone(q, 1.0, (n - 1) as real);
    q * (n - 1) as real
  }

  function Edges(durations: seq<real>, buckets: int): (r: seq<real>)
    requires durations != [] && buckets >= 2
    ensures |r| == buckets - 1
  {
    var sorted := SortBy(durations, Ascending());
    seq(buckets - 1, i requires 0 <= i < buckets - 1 => Quantile(sorted, Position(i + 1, buckets, |durations|)))
  }

  lemma {:induction false} QuantileMonotone(sorted: seq<real>, p: real, q: real)
    requires sorted != [] && Sorted(sorted, Ascending())
    requires 0.0 <= p <= q <= (|sorted| - 1) as real
    ensures Quantile(sorted, p) <= Quantile(sorted, q)
  {
    hide Blend;
    var a, b := p.Floor, q.Floor;
    var hi := if a + 1 < |sorted| then a + 1 else a;
    var hi' := if b + 1 < |sorted| then b + 1 else b;
    assert a < hi ==> Ascending()(sorted[a], sorted[hi]);
    assert b < hi' ==> Ascending()(sorted[b], sorted[hi']);
    if a == b {
      BlendMonotone(sorted[a], sorted[hi], p - a as real, q - a as real);
    } else {
      assert hi < b ==> Ascending()(sorted[hi], sorted[b]);
      BlendMonotone(sorted[a], sorted[hi], p - a as real, p - a as real);
      BlendMonotone(sorted[b], sorted[hi'], q - b as real, q - b as real);
    }
  }

  /** The fitted edges never fall, which is what `searchsorted` asks of them. */
  lemma {:induction false} EdgesSorted(durations: seq<real>, buckets: int)
    requires durations != [] && buckets >= 2
    ensures Sorted(Edges(durations, buckets), Ascending())
  {
    hide Position;
    hide Quantile;
    var sorted, n := SortBy(durations, Ascending()), |durations|;
    var edges := Edges(durations, buckets);
    forall i, j | 0 <= i < j < |edges| ensures edges[i] <= edges[j] {
      EdgePair(durations, buckets, i + 1, j + 1);
      assert edges[i] == Quantile(sorted, Position(i + 1, buckets, n));
      assert edges[j] == Quantile(sorted, Position(j + 1, buckets, n));
    }
  }

  /** The place k / b of a sequence: the element of the whole part, and by the remainder over b of the way to
      the next one. */
  function Interpolated(s: seq<real>, k: nat, b: nat): real
    requires b > 0 && k / b < |s| && (k % b > 0 ==> k / b + 1 < |s|)
  {
    if k % b == 0 then s[k / b] else s[k / b] + (k % b) as real / b as real * (s[k / b + 1] - s[k / b])
  }

  ghost predicate EdgeIs(edge: real, ascending: seq<real>, k: int, b: int) {
    && k >= 0 && b > 0 && k / b < |ascending| && (k % b > 0 ==> k / b + 1 < |ascending|)
    && edge == Interpolated(ascending, k, b)
  }

  /** Edge i of b - 1 stands at the place i (n - 1) / b of the ascending durations. */
  lemma {:induction false} EdgeInterpolates(durations: seq<real>, buckets: int, i: int, ascending: seq<real>)
    requires durations != [] && 0 < i < buckets
    requires multiset(ascending) == multiset(durations) && Sorted(ascending, Ascending())
    ensures EdgeIs(Edges(durations, buckets)[i - 1], ascending, i * (|durations| - 1), buckets)
  {
    SortAscending(durations);
    AscendingUnique(ascending, SortBy(durations, Ascending()));
    EdgeAt(durations, buckets, i);
    hide *;
    PlaceOf(i, buckets, |durations|);
    QuantileAt(ascending, i * (|durations| - 1), buckets, Position(i, buckets, |durations|));
  }

  lemma {:induction false} EdgeAt(durations: seq<real>, buckets: int, i: int)
    requires durations != [] && 0 < i < buckets
    ensures Edges(durations, buckets)[i - 1] ==
      Quantile(SortBy(durations, Ascending()), Position(i, buckets, |durations|))
  {
    hide Quantile;
    hide Position;
  }

  lemma {:induction false} QuantileAt(s: seq<real>, k: int, b: int, position: real)
    requires s != [] && b > 0 && 0 <= k && k / b < |s| && (k % b > 0 ==> k / b + 1 < |s|)
    requires position == k as real / b as real && 0.0 <= position <= (|s| - 1) as real
    ensures EdgeIs(Quantile(s, position), s, k, b)
  {
    FloorOfQuotient(k, b);
    if k % b == 0 { NoBlend(s, position); }
  }

  lemma {:induction false} NoBlend(sorted: seq<real>, position: real)
    requires sorted != [] && 0.0 <= position <= (|sorted| - 1) as real && position == position.Floor as real
    ensures Quantile(sorted, position) == sorted[position.Floor]
  {
  }

  lemma {:induction false} AscendingUnique(a: seq<real>, b: seq<real>)
    requires multiset(a) == multiset(b) && Sorted(a, Ascending()) && Sorted(b, Ascending())
    ensures a == b
  {
    SameElements(a, b);
    if a != [] {
      var x, y := a[0], b[0];
      assert x == y by {
        assert x in b && y in a;
        var i :| 0 <= i < |b| && b[i] == x;
        var j :| 0 <= j < |a| && a[j] == y;
        assert b[0] <= b[i] && a[0] <= a[j];
      }
      RemoveAt(a, 0);
      RemoveAt(b, 0);
      assert Without(a, 0) == a[1..] && Without(b, 0) == b[1..];
      AscendingUnique(a[1..], b[1..]);
    }
  }

  lemma {:induction false} PlaceOf(i: int, buckets: int, n: nat)
    requires n > 0 && 0 < i < buckets
    ensures Position(i, buckets, n) == (i * (n - 1)) as real / buckets as real
    ensures 0 <= i * (n - 1) && i * (n - 1) / buckets < n
    ensures i * (n - 1) % buckets > 0 ==> i * (n - 1) / buckets + 1 < n
  {
    var m, b, q := n - 1, buckets as real, i as real / buckets as real;
    RealProduct(i, m);
    DivisionScale(i as real, b);
    assert q * m as real * b == i as real * m as real;
    SameQuotient(q * m as real, (i * m) as real, b);
    PlaceBound(i, buckets, m);
  }

  lemma {:induction false} PlaceBound(i: int, buckets: int, m: nat)
    requires 0 < i < buckets
    ensures 0 <= i * m && i * m / buckets <= m
    ensures i * m % buckets > 0 ==> i * m / buckets < m
  {
    IntMonotone(m, i, buckets);
    QuotientBound(i * m, buckets, m, buckets * m);
  }

  lemma {:induction false} QuotientBound(k: nat, b: nat, m: nat, most: int)
    requires b > 0 && most == b * m && k <= most
    ensures k / b <= m && (k % b > 0 ==> k / b < m)
  {
    var lo := k / b;
    assert k == b * lo + k % b;
    if lo > m {
      IntMonotone(b, m + 1, lo);
    } else if lo == m {
      assert b * lo == most;
    }
  }

  lemma {:induction false} FloorOfQuotient(k: int, b: int)
    requires k >= 0 && b > 0
    ensures (k as real / b as real).Floor == k / b
    ensures k as real / b as real - (k / b) as real == (k % b) as real / b as real
    ensures k % b == 0 ==> k as real / b as real == (k / b) as real
  {
    var q, r, d := k / b, k % b, b as real;
    RealProduct(q, b);
    assert k as real == q as real * d + r as real;
    DivisionScale(k as real, d);
    DivisionScale(r as real, d);
    DivisionRange(r as real, d);
    Distribute(q as real, r as real / d, d);
    SameQuotient(q as real + r as real / d, k as real, d);
    DivisionOrder(r as real, d, d);
    DivisionBySelf(d);
  }

  lemma {:induction false} EdgePair(durations: seq<real>, buckets: int, i: int, j: int)
    requires durations != [] && 0 < i < j < buckets
    ensures var sorted, n := SortBy(durations, Ascending()), |durations|;
      Quantile(sorted, Position(i, buckets, n)) <= Quantile(sorted, Position(j, buckets, n))
  {
    hide Quantile;
    hide SortBy;
    hide Position;
    SortAscending(durations);
    PositionMonotone(i, j, buckets, |durations|);
    var n := |durations|;
    QuantileMonotone(SortBy(durations, Ascending()), Position(i, buckets, n), Position(j, buckets, n));
  }

  lemma {:induction false} PositionMonotone(i: int, j: int, buckets: int, n: nat)
    requires n > 0 && 0 < i < j < buckets
    ensures Position(i, buckets, n) <= Position(j, buckets, n)
  {
    DivisionOrder(i as real, j as real, buckets as real);
    MulMonotone(i as real / buckets as real, j as real / buckets as real, (n - 1) as real);
  }

  /** `np.searchsorted`, side left: how many leading edges lie below the value. */
  function SearchSorted(edges: seq<real>, v: real): (r: nat)
    ensures r <= |edges|
  {
    if edges == [] || v <= edges[0] then 0 else 1 + SearchSorted(edges[1..], v)
  }

  lemma {:induction false} BucketMonotone(edges: seq<real>, v: real, w: real)
    requires v <= w
    ensures SearchSorted(edges, v) <= SearchSorted(edges, w)
  {
    if edges != [] { BucketMonotone(edges[1..], v, w); }
  }

  /** On sorted edges the bucket is where the value belongs: after every edge below it, before
      every edge that is not. */
  lemma {:induction false} BucketPlace(edges: seq<real>, v: real)
    requires Sorted(edges, Ascending())
    ensures forall i | 0 <= i < |edges| :: i < SearchSorted(edges, v) <==> edges[i] < v
  {
    if edges != [] {
      forall i | 0 <= i < |edges| ensures edges[0] <= edges[i] {
        assert i > 0 ==> Ascending()(edges[0], edges[i]);
      }
      if edges[0] < v {
        var rest := edges[1..];
        forall i, j | 0 <= i < j < |rest| ensures Ascending()(rest[i], rest[j]) {
          assert Ascending()(edges[i + 1], edges[j + 1]);
        }
        BucketPlace(rest, v);
        forall i | 0 <= i < |edges| ensures i < SearchSorted(edges, v) <==> edges[i] < v {
          if i > 0 { assert edges[i] == rest[i - 1]; }
        }
      }
    }
  }

  // ----- Decimal text -----

  /** `str` of a natural number. */
  function Decimal(n: nat): (s: string)
    ensures s != [] && forall i | 0 <= i < |s| :: '0' <= s[i] <= '9'
  {
    var digit := ('0' as int + n % 10) as char;
    if n < 10 then [digit] else Decimal(n / 10) + [digit]
  }

  function Parsed(s: string): int {
    if s == [] then 0 else 10 * Parsed(s[..|s| - 1]) + (s[|s| - 1] as int - '0' as int)
  }

  lemma {:induction false} DecimalRoundTrip(n: nat)
    ensures Parsed(Decimal(n)) == n
  {
    if n >= 10 {
      DecimalRoundTrip(n / 10);
      var s := Decimal(n);
      assert s[..|s| - 1] == Decimal(n / 10);
    }
  }

  // ----- Fields and vocabularies -----

  /** `_raw_fields`. */
  function RawFields(row: FeatureRow, edges: seq<real>): (r: seq<string>)
    ensures |r| == FIELDS
  {
    [row.user, row.video, row.author, row.tab, Decimal(SearchSorted(edges, row.duration))]
  }

  function FieldOf(edges: seq<real>, field: int): FeatureRow -> string {
    (row: FeatureRow) => if 0 <= field < FIELDS then RawFields(row, edges)[field] else ""
  }

  function ColumnOf(rows: seq<FeatureRow>, edges: seq<real>, field: int): seq<string> {
    Map(rows, FieldOf(edges, field))
  }

  type Vocabulary = map<string, nat>

  /** The vocabulary numbers the names in their order. */
  ghost predicate NumbersNames(v: Vocabulary, names: seq<string>) {
    && |v| == |names|
    && (forall name :: name in v <==> name in names)
    && (forall i | 0 <= i < |names| :: names[i] in v && v[names[i]] == i)
  }

  /** The vocabulary numbers the values of a column in order of first appearance. */
  ghost predicate Numbers(v: Vocabulary, column: seq<string>) { NumbersNames(v, FirstSeen(column)) }

  function Grown(v: Vocabulary, value: string): Vocabulary { if value in v then v else v[value := |v|] }

  lemma {:induction false} NumbersStep(v: Vocabulary, column: seq<string>, value: string)
    requires Numbers(v, column)
    ensures Numbers(Grown(v, value), column + [value])
  {
    FirstSeenAppend(column, value);
    SameMembers(column, value);
    hide FirstSeen;
    if value !in v { NewName(v, FirstSeen(column), value); }
  }

  lemma {:induction false} NewName(v: Vocabulary, names: seq<string>, value: string)
    requires NumbersNames(v, names) && value !in v
    ensures NumbersNames(v[value := |v|], names + [value])
  {
    var w, more := v[value := |v|], names + [value];
    forall i | 0 <= i < |more| ensures more[i] in w && w[more[i]] == i {
      if i < |names| { assert names[i] in v; }
    }
  }

  ghost predicate Hit(v: Vocabulary, i: nat) { exists name :: name in v && v[name] == i }

  /** First-seen numbering is one-to-one onto 0 .. len - 1. */
  lemma {:induction false} VocabularyIsBijection(v: Vocabulary, column: seq<string>)
    requires Numbers(v, column)
    ensures forall name | name in v :: v[name] < |v| && name in column
    ensures forall name | name in column :: name in v
    ensures forall a, b | a in v && b in v && v[a] == v[b] :: a == b
    ensures forall i: nat | i < |v| :: Hit(v, i)
  {
    hide FirstSeen;
    var names := FirstSeen(column);
    forall name | name in v ensures v[name] < |v| && names[v[name]] == name {
      var i :| 0 <= i < |names| && names[i] == name;
    }
    forall i: nat | i < |v| ensures Hit(v, i) {
      assert names[i] in v && v[names[i]] == i;
    }
  }

  // ----- Fitting -----

  datatype Encoder = Encoder(edges: seq<real>, vocabularies: seq<Vocabulary>, unknownIds: seq<nat>,
                             offsets: seq<nat>, dimension: nat)

  function PrefixSum(dims: seq<nat>, f: nat): nat
    requires f <= |dims|
  {
    if f == 0 then 0 else PrefixSum(dims, f - 1) + dims[f - 1]
  }

  /** `field_dimensions`: each vocabulary and its UNK. */
  function Dims(vocabularies: seq<Vocabulary>): (r: seq<nat>)
    ensures |r| == |vocabularies| && forall f | 0 <= f < |r| :: r[f] == |vocabularies[f]| + 1
  {
    seq(|vocabularies|, f requires 0 <= f < |vocabularies| => |vocabularies[f]| + 1)
  }

  ghost predicate Fitted(e: Encoder, rows: seq<FeatureRow>) {
    && |e.vocabularies| == |e.unknownIds| == |e.offsets| == FIELDS
    && (forall f | 0 <= f < FIELDS :: Numbers(e.vocabularies[f], ColumnOf(rows, e.edges, f)))
    && (forall f | 0 <= f < FIELDS :: e.unknownIds[f] == |e.vocabularies[f]|)
    && (forall f | 0 <= f < FIELDS :: e.offsets[f] == PrefixSum(Dims(e.vocabularies), f))
    && e.dimension == PrefixSum(Dims(e.vocabularies), FIELDS)
  }

  function Durations(rows: seq<FeatureRow>): seq<real> { Map(rows, (row: FeatureRow) => row.duration) }

  /** `FeatureEncoder.fit`. */
  method Fit(rows: seq<FeatureRow>, durationBuckets: int) returns (r: Result<Encoder>)
    ensures rows == [] ==> r == Err(Empty)
    ensures rows != [] && durationBuckets < 2 ==> r == Err(BadBuckets)
    ensures rows != [] && durationBuckets >= 2 ==>
      r.Ok? && Fitted(r.value, rows) && r.value.edges == Edges(Durations(rows), durationBuckets)
  {
    if |rows| == 0 { return Err(Empty); }
    if durationBuckets < 2 { return Err(BadBuckets); }
    hide Edges;
    hide Numbers;
    hide ColumnOf;
    var edges := Edges(Durations(rows), durationBuckets);
    var vocabularies := GrowVocabularies(rows, edges);
    var e := Layout(edges, vocabularies);
    r := Ok(e);
  }

  /** The layout of the fields in one index space, as `np.cumsum` lays it out. */
  method Layout(edges: seq<real>, vocabularies: seq<Vocabulary>) returns (e: Encoder)
    requires |vocabularies| == FIELDS
    ensures e.edges == edges && e.vocabularies == vocabularies
    ensures |e.unknownIds| == |e.offsets| == FIELDS
    ensures forall f | 0 <= f < FIELDS :: e.unknownIds[f] == |vocabularies[f]|
    ensures forall f | 0 <= f < FIELDS :: e.offsets[f] == PrefixSum(Dims(vocabularies), f)
    ensures e.dimension == PrefixSum(Dims(vocabularies), FIELDS)
  {
    var unknownIds := seq(FIELDS, f requires 0 <= f < FIELDS => |vocabularies[f]|);
    var dims := Dims(vocabularies);
    var offsets: seq<nat>, total: nat := [], 0;
    for f := 0 to FIELDS
      invariant |offsets| == f && total == PrefixSum(dims, f)
      invariant forall j | 0 <= j < f :: offsets[j] == PrefixSum(dims, j)
    {
      offsets := offsets + [total];
      total := total + dims[f];
    }
    e := Encoder(edges, vocabularies, unknownIds, offsets, total);
  }

  /** The row and field loops of `fit`. */
  method GrowVocabularies(rows: seq<FeatureRow>, edges: seq<real>) returns (vocabularies: seq<Vocabulary>)
    ensures |vocabularies| == FIELDS
    ensures forall f | 0 <= f < FIELDS :: Numbers(vocabularies[f], ColumnOf(rows, edges, f))
  {
    hide Numbers;
    vocabularies := seq(FIELDS, _ => map[]);
    forall f | 0 <= f < FIELDS ensures Numbers(vocabularies[f], ColumnOf(rows[..0], edges, f)) {
      NothingNumbered(ColumnOf(rows[..0], edges, f));
    }
    for i := 0 to |rows|
      invariant |vocabularies| == FIELDS
      invariant forall f | 0 <= f < FIELDS :: Numbers(vocabularies[f], ColumnOf(rows[..i], edges, f))
    {
      vocabularies := GrowRow(rows, i, edges, vocabularies);
    }
    assert rows[..|rows|] == rows;
  }

  lemma {:induction false} NothingNumbered(column: seq<string>)
    requires column == []
    ensures Numbers(map[], column)
  {
  }

  lemma {:induction false} ColumnStep(rows: seq<FeatureRow>, i: nat, edges: seq<real>, f: nat)
    requires i < |rows| && f < FIELDS
    ensures ColumnOf(rows[..i + 1], edges, f) == ColumnOf(rows[..i], edges, f) + [RawFields(rows[i], edges)[f]]
  {
    assert rows[..i + 1] == rows[..i] + [rows[i]];
  }

  method GrowRow(rows: seq<FeatureRow>, i: nat, edges: seq<real>,
                 before: seq<Vocabulary>) returns (vocabularies: seq<Vocabulary>)
    requires i < |rows| && |before| == FIELDS
    requires forall f | 0 <= f < FIELDS :: Numbers(before[f], ColumnOf(rows[..i], edges, f))
    ensures |vocabularies| == FIELDS
    ensures forall f | 0 <= f < FIELDS :: Numbers(vocabularies[f], ColumnOf(rows[..i + 1], edges, f))
  {
    hide Numbers;
    hide ColumnOf;
    vocabularies := before;
    var values := RawFields(rows[i], edges);
    for field := 0 to FIELDS
      invariant |vocabularies| == FIELDS
      invariant forall f | 0 <= f < field :: Numbers(vocabularies[f], ColumnOf(rows[..i + 1], edges, f))
      invariant forall f | field <= f < FIELDS :: Numbers(vocabularies[f], ColumnOf(rows[..i], edges, f))
    {
      var vocabulary := vocabularies[field];
      NumbersStep(vocabulary, ColumnOf(rows[..i], edges, field), values[field]);
      ColumnStep(rows, i, edges, field);
      if values[field] !in vocabulary {
        vocabularies := vocabularies[field := vocabulary[values[field] := |vocabulary|]];
      }
    }
  }

  // ----- Encoding -----

  function Code(e: Encoder, row: FeatureRow, field: nat): nat
    requires |e.vocabularies| == |e.unknownIds| == |e.offsets| == FIELDS && field < FIELDS
  {
    var value := RawFields(row, e.edges)[field];
    (if value in e.vocabularies[field] then e.vocabularies[field][value] else e.unknownIds[field]) + e.offsets[field]
  }

  /** `transform`, into the preallocated table. */
  method Transform(e: Encoder, rows: seq<FeatureRow>) returns (encoded: array2<int>)
    requires |e.vocabularies| == |e.unknownIds| == |e.offsets| == FIELDS
    ensures fresh(encoded) && encoded.Length0 == |rows| && encoded.Length1 == FIELDS
    ensures forall i, f | 0 <= i < |rows| && 0 <= f < FIELDS :: encoded[i, f] == Code(e, rows[i], f)
  {
    encoded := new int[|rows|, FIELDS];
    for i := 0 to |rows|
      invariant forall k, f | 0 <= k < i && 0 <= f < FIELDS :: encoded[k, f] == Code(e, rows[k], f)
    {
      var values := RawFields(rows[i], e.edges);
      for field := 0 to FIELDS
        invariant forall k, f | 0 <= k < i && 0 <= f < FIELDS :: encoded[k, f] == Code(e, rows[k], f)
        invariant forall f | 0 <= f < field :: encoded[i, f] == Code(e, rows[i], f)
      {
        var vocabulary := e.vocabularies[field];
        var id := if values[field] in vocabulary then vocabulary[values[field]] else e.unknownIds[field];
        encoded[i, field] := id + e.offsets[field];
      }
    }
  }

  function Encoded(e: Encoder, row: FeatureRow): (r: seq<nat>)
    requires |e.vocabularies| == |e.unknownIds| == |e.offsets| == FIELDS
    ensures |r| == FIELDS && forall f | 0 <= f < FIELDS :: r[f] == Code(e, row, f)
  {
    seq(FIELDS, f requires 0 <= f < FIELDS => Code(e, row, f))
  }

  /** The end of field `f`'s stretch of indices: the next offset, or the dimension. */
  function RangeEnd(e: Encoder, f: nat): nat
    requires |e.offsets| == FIELDS && f < FIELDS
  {
    if f + 1 < FIELDS then e.offsets[f + 1] else e.dimension
  }

  /** Every code falls in its own field's stretch, and the stretches tile 0 .. dimension - 1. */
  lemma {:induction false} CodeInRange(e: Encoder, rows: seq<FeatureRow>, row: FeatureRow, f: nat)
    requires Fitted(e, rows) && f < FIELDS
    ensures e.offsets[0] == 0 && e.offsets[f] <= Code(e, row, f) < RangeEnd(e, f) <= e.dimension
  {
    hide Numbers;
    hide RawFields;
    VocabularyIsBijection(e.vocabularies[f], ColumnOf(rows, e.edges, f));
    PrefixMonotone(Dims(e.vocabularies), f + 1, FIELDS);
  }

  lemma {:induction false} PrefixMonotone(dims: seq<nat>, f: nat, g: nat)
    requires f <= g <= |dims|
    ensures PrefixSum(dims, f) <= PrefixSum(dims, g)
    decreases g
  {
    if f < g { PrefixMonotone(dims, f, g - 1); }
  }

  /** The codes of one row are pairwise distinct, whatever the row. */
  lemma {:induction false} CodesDistinct(e: Encoder, rows: seq<FeatureRow>, row: FeatureRow, f: nat, g: nat)
    requires Fitted(e, rows) && f < g < FIELDS
    ensures Code(e, row, f) < Code(e, row, g)
  {
    hide Code;
    CodeInRange(e, rows, row, f);
    CodeInRange(e, rows, row, g);
    PrefixMonotone(Dims(e.vocabularies), f + 1, g);
  }

  predicate Unknown(e: Encoder, row: FeatureRow, f: nat)
    requires |e.vocabularies| == FIELDS && f < FIELDS
  {
    RawFields(row, e.edges)[f] !in e.vocabularies[f]
  }

  /** Two rows share a field's code exactly when their raw values are equal or both unseen. */
  lemma {:induction false} SameCode(e: Encoder, rows: seq<FeatureRow>, a: FeatureRow, b: FeatureRow, f: nat)
    requires Fitted(e, rows) && f < FIELDS
    ensures Code(e, a, f) == Code(e, b, f) <==>
      RawFields(a, e.edges)[f] == RawFields(b, e.edges)[f] || (Unknown(e, a, f) && Unknown(e, b, f))
  {
    VocabularyIsBijection(e.vocabularies[f], ColumnOf(rows, e.edges, f));
  }

  /** For the duration field that means the same bucket. */
  lemma {:induction false} SameBucketText(a: FeatureRow, b: FeatureRow, edges: seq<real>)
    ensures RawFields(a, edges)[4] == RawFields(b, edges)[4] <==>
      SearchSorted(edges, a.duration) == SearchSorted(edges, b.duration)
  {
    DecimalRoundTrip(SearchSorted(edges, a.duration));
    DecimalRoundTrip(SearchSorted(edges, b.duration));
  }

  /** Training rows never encode to UNK; a row does exactly when no training row shares its value. */
  lemma {:induction false} UnknownIffUnseen(e: Encoder, rows: seq<FeatureRow>, row: FeatureRow, f: nat)
    requires Fitted(e, rows) && f < FIELDS
    ensures Unknown(e, row, f) <==> forall t | t in rows :: RawFields(t, e.edges)[f] != RawFields(row, e.edges)[f]
    ensures Code(e, row, f) == e.unknownIds[f] + e.offsets[f] <==> Unknown(e, row, f)
    ensures row in rows ==> !Unknown(e, row, f)
  {
    var column, value := ColumnOf(rows, e.edges, f), RawFields(row, e.edges)[f];
    VocabularyIsBijection(e.vocabularies[f], column);
    if value in column {
      var i :| 0 <= i < |column| && column[i] == value;
      assert rows[i] in rows && column[i] == FieldOf(e.edges, f)(rows[i]);
    }
    forall t | t in rows ensures RawFields(t, e.edges)[f] in column {
      var i :| 0 <= i < |rows| && rows[i] == t;
      assert column[i] == FieldOf(e.edges, f)(rows[i]);
    }
  }

  // ----- What a code says -----

  /** For training rows each field's code identifies its own column, and the last one the duration bucket. */
  lemma {:induction false} CodesIdentify(e: Encoder, rows: seq<FeatureRow>, a: FeatureRow, b: FeatureRow)
    requires Fitted(e, rows) && a in rows && b in rows
    ensures Code(e, a, 0) == Code(e, b, 0) <==> a.user == b.user
    ensures Code(e, a, 1) == Code(e, b, 1) <==> a.video == b.video
    ensures Code(e, a, 2) == Code(e, b, 2) <==> a.author == b.author
    ensures Code(e, a, 3) == Code(e, b, 3) <==> a.tab == b.tab
    ensures Code(e, a, 4) == Code(e, b, 4) <==> SearchSorted(e.edges, a.duration) == SearchSorted(e.edges, b.duration)
  {
    hide Code;
    hide Unknown;
    forall f: nat | f < FIELDS
      ensures Code(e, a, f) == Code(e, b, f) <==> RawFields(a, e.edges)[f] == RawFields(b, e.edges)[f]
    {
      SameCode(e, rows, a, b, f);
      UnknownIffUnseen(e, rows, a, f);
    }
    SameBucketText(a, b, e.edges);
  }

  /** The values of a column, without repetition. */
  ghost function ValuesOf(column: seq<string>): set<string> { set v | v in column }

  lemma {:induction false} FirstSeenSize(column: seq<string>)
    ensures |FirstSeen(column)| == |ValuesOf(column)|
  {
    if column != [] {
      var n := |column| - 1;
      var init, last := column[..n], column[n];
      assert column == init + [last];
      FirstSeenSize(init);
      FirstSeenAppend(init, last);
      assert ValuesOf(column) == ValuesOf(init) + {last};
    }
  }

  /** A field's stretch has a place for each value of its column and one for all others; the stretches follow
      one another from 0 to the dimension. */
  lemma {:induction false} StretchIs(e: Encoder, rows: seq<FeatureRow>, f: nat)
    requires Fitted(e, rows) && f < FIELDS
    ensures e.offsets[0] == 0 && RangeEnd(e, FIELDS - 1) == e.dimension
    ensures RangeEnd(e, f) - e.offsets[f] == |ValuesOf(ColumnOf(rows, e.edges, f))| + 1
    ensures e.unknownIds[f] + e.offsets[f] == RangeEnd(e, f) - 1
  {
    hide ColumnOf;
    FirstSeenSize(ColumnOf(rows, e.edges, f));
  }

  /** A row whose value is new to its field at its place gets the number of values seen before it. */
  lemma {:induction false} CodeOfNewValue(e: Encoder, rows: seq<FeatureRow>, i: nat, f: nat)
    requires Fitted(e, rows) && i < |rows| && f < FIELDS
    requires forall j | 0 <= j < i :: RawFields(rows[j], e.edges)[f] != RawFields(rows[i], e.edges)[f]
    ensures Code(e, rows[i], f) == e.offsets[f] + |ValuesOf(ColumnOf(rows[..i], e.edges, f))|
  {
    hide RawFields;
    var column, value := ColumnOf(rows, e.edges, f), RawFields(rows[i], e.edges)[f];
    var before := ColumnOf(rows[..i], e.edges, f);
    assert before == column[..i];
    assert column[i] == value;
    FirstSeenSize(before);
    FirstSeenPlace(column, i);
  }

  lemma {:induction false} FirstSeenPlace(column: seq<string>, i: nat)
    requires i < |column| && column[i] !in column[..i]
    ensures |FirstSeen(column[..i])| < |FirstSeen(column)|
    ensures FirstSeen(column)[|FirstSeen(column[..i])|] == column[i]
  {
    hide *;
    var n := |column| - 1;
    FirstSeenAppend(column[..n], column[n]);
    assert column == column[..n] + [column[n]];
    if i < n {
      assert column[..n][..i] == column[..i];
      FirstSeenPlace(column[..n], i);
    }
  }

  // ----- What the model needs of the encoder -----

  lemma {:induction false} OccursOnce(row: seq<nat>, j: nat)
    requires forall f, g | 0 <= f < g < |row| :: row[f] != row[g]
    ensures Occurrences(row, j) <= 1
    ensures Occurrences(row, j) == 1 <==> j in row
  {
    if row != [] { OccursOnce(row[1..], j); }
  }

  /** Encoded rows never repeat an index, so on them the hand-written gradient is exact. */
  lemma {:induction false} EncodedGradientIsExact(e: Encoder, training: seq<FeatureRow>, rows: seq<FeatureRow>,
                                                  p: Parameters, g: seq<real>, j: nat, h: seq<real>, rank: nat)
    requires Fitted(e, training) && Shaped(p, rank) && |p.factors| == e.dimension
    requires |g| == |rows| && j < e.dimension && |h| == rank
    ensures var features := seq(|rows|, i requires 0 <= i < |rows| => Encoded(e, rows[i]));
      && Batch(p, features, rank) && Batch(Moved(p, j, h), features, rank)
      && Dot(h, Collected(p, features, g, j, rank)) == WeightedChange(p, Moved(p, j, h), features, g, rank)
  {
    hide Code;
    hide Dot;
    var features := seq(|rows|, i requires 0 <= i < |rows| => Encoded(e, rows[i]));
    forall i | 0 <= i < |features| ensures Indexes(p, features[i]) && Occurrences(features[i], j) <= 1 {
      EncodedRow(e, training, rows[i], p, j);
    }
    FactorGradientIsExact(p, features, g, j, h, rank);
  }

  lemma {:induction false} EncodedRow(e: Encoder, training: seq<FeatureRow>, row: FeatureRow, p: Parameters, j: nat)
    requires Fitted(e, training) && |p.factors| == e.dimension
    ensures Indexes(p, Encoded(e, row)) && Occurrences(Encoded(e, row), j) <= 1
  {
    hide Code;
    var codes := Encoded(e, row);
    forall f | 0 <= f < |codes| ensures codes[f] < |p.factors| {
      CodeInRange(e, training, row, f);
    }
    forall f, g | 0 <= f < g < |codes| ensures codes[f] != codes[g] {
      CodesDistinct(e, training, row, f, g);
    }
    OccursOnce(codes, j);
  }
}
