/** adapter.py: the byte streams behind the row and prediction digests. Each record is preceded by
    its length in eight big-endian bytes, so a stream can be read back in only one way. */
module Digest {
  import opened Reals
  import opened Results
  import opened Sums

  type Byte = b: int | 0 <= b < 256

  type Record = seq<Byte>

  const WIDTH: nat := 8

  function Power256(w: nat): nat { if w == 0 then 1 else 256 * Power256(w - 1) }

  /** `int.to_bytes(w, "big")`, for a number that fits. */
  function BigEndian(n: nat, w: nat): (r: seq<Byte>)
    ensures |r| == w
  {
    if w == 0 then [] else BigEndian(n / 256, w - 1) + [n % 256]
  }

  /** The i-th byte is the digit of 256 to the power w - 1 - i: the most significant comes first. */
  lemma {:induction false} ByteAt(n: nat, w: nat, i: nat)
    requires i < w
    ensures Power256(w - 1 - i) > 0 && BigEndian(n, w)[i] == n / Power256(w - 1 - i) % 256
    decreases w
  {
    if i == w - 1 {
      assert Power256(0) == 1;
    } else {
      var p := Power256(w - 2 - i);
      ByteAt(n / 256, w - 1, i);
      assert Power256(w - 1 - i) == 256 * p;
      DivideTwice(n, 256, p);
    }
  }

  lemma {:induction false} DivideTwice(n: nat, a: nat, b: nat)
    requires a > 0 && b > 0
    ensures a * b > 0 && n / a / b == n / (a * b)
  {
    var q, r := n / a, n % a;
    var s, t := q / b, q % b;
    assert n == a * q + r && q == b * s + t;
    assert n == a * (b * s + t) + r == a * b * s + (a * t + r);
    assert a * t + a <= a * b by { IntMonotone(a, t + 1, b); }
    assert 0 <= a * t + r < a * b;
    Quotient(a * b, s, a * t + r);
  }

  lemma {:induction false} Quotient(d: nat, q: nat, r: nat)
    requires r < d
    ensures (d * q + r) / d == q
  {
    var q' := (d * q + r) / d;
    if q < q' {
      IntMonotone(d, q + 1, q');
    } else if q' < q {
      IntMonotone(d, q' + 1, q);
    }
  }

  function Value(bytes: seq<Byte>): nat {
    if bytes == [] then 0 else 256 * Value(bytes[..|bytes| - 1]) + bytes[|bytes| - 1]
  }

  lemma {:induction false} ValueOfBigEndian(n: nat, w: nat)
    requires n < Power256(w)
    ensures Value(BigEndian(n, w)) == n
  {
    if w != 0 {
      var r := BigEndian(n, w);
      ValueOfBigEndian(n / 256, w - 1);
      assert r[..w - 1] == BigEndian(n / 256, w - 1);
    }
  }

  lemma {:induction false} BigEndianOfValue(bytes: seq<Byte>)
    ensures Value(bytes) < Power256(|bytes|)
    ensures BigEndian(Value(bytes), |bytes|) == bytes
  {
    if bytes != [] {
      var init, last := bytes[..|bytes| - 1], bytes[|bytes| - 1];
      BigEndianOfValue(init);
      assert (256 * Value(init) + last) / 256 == Value(init);
      assert bytes == init + [last];
    }
  }

  predicate Fits(record: Record) { |record| < Power256(WIDTH) }

  /** The bytes fed to the digest for a list of records. */
  function Framed(records: seq<Record>): seq<Byte> {
    if records == [] then [] else BigEndian(|records[0]|, WIDTH) + records[0] + Framed(records[1..])
  }

  lemma {:induction false} FramedAppend(records: seq<Record>, last: Record)
    ensures Framed(records + [last]) == Framed(records) + BigEndian(|last|, WIDTH) + last
  {
    hide BigEndian;
    if records == [] {
      assert (records + [last])[1..] == [];
    } else {
      FramedAppend(records[1..], last);
      assert (records + [last])[1..] == records[1..] + [last];
    }
  }

  /** Reading a stream back. */
  function Parse(stream: seq<Byte>): Option<seq<Record>>
    decreases |stream|
  {
    if stream == [] then Some([])
    else if |stream| < WIDTH then None
    else
      var n := Value(stream[..WIDTH]);
      if |stream| < WIDTH + n then None
      else
        var rest := Parse(stream[WIDTH + n..]);
        if rest.None? then None else Some([stream[WIDTH..WIDTH + n]] + rest.value)
  }

  /** Parsing a framed list gives the list back, for any records whose length fits eight bytes. */
  lemma {:induction false} ParseFramed(records: seq<Record>)
    requires forall i | 0 <= i < |records| :: Fits(records[i])
    ensures Parse(Framed(records)) == Some(records)
  {
    if records != [] {
      var s, head, rest := Framed(records), records[0], Framed(records[1..]);
      ValueOfBigEndian(|head|, WIDTH);
      ParseFramed(records[1..]);
      assert s[..WIDTH] == BigEndian(|head|, WIDTH);
      assert s[WIDTH..WIDTH + |head|] == head;
      assert s[WIDTH + |head|..] == rest;
      assert records == [head] + records[1..];
    }
  }

  /** Conversely a stream that parses is the framing of what it parses to. */
  lemma {:induction false} FramedParse(stream: seq<Byte>)
    requires Parse(stream).Some?
    ensures Framed(Parse(stream).value) == stream
    decreases |stream|
  {
    if stream != [] {
      var n := Value(stream[..WIDTH]);
      FramedParse(stream[WIDTH + n..]);
      BigEndianOfValue(stream[..WIDTH]);
      var records := Parse(stream).value;
      assert records[1..] == Parse(stream[WIDTH + n..]).value;
      assert stream == stream[..WIDTH] + stream[WIDTH..WIDTH + n] + stream[WIDTH + n..];
    }
  }

  /** Equal streams come from equal lists of records. */
  lemma {:induction false} FramingIsInjective(a: seq<Record>, b: seq<Record>)
    requires forall i | 0 <= i < |a| :: Fits(a[i])
    requires forall i | 0 <= i < |b| :: Fits(b[i])
    requires Framed(a) == Framed(b)
    ensures a == b
  {
    ParseFramed(a);
    ParseFramed(b);
  }

  // ----- The ordered digests -----

  /** A row as it is hashed; the prediction digest adds the score, as its hexadecimal text. */
  datatype Entry = Entry(rowId: int, user: string, item: string, score: Option<string>)

  type Encoder = Entry -> Record

  /** The encoder tells the entries that are hashed apart. */
  ghost predicate Distinguishes(encode: Encoder, entries: seq<Entry>) {
    forall i, j | 0 <= i < |entries| && 0 <= j < |entries| && encode(entries[i]) == encode(entries[j]) ::
      entries[i] == entries[j]
  }

  predicate Contiguous(entries: seq<Entry>) { forall i | 0 <= i < |entries| :: entries[i].rowId == i }

  /** The loop of `ordered_row_identity_sha256` and `ordered_prediction_sha256`, up to the hash. */
  method OrderedStream(entries: seq<Entry>, encode: Encoder) returns (r: Result<seq<Byte>>)
    ensures entries == [] ==> r == Err(Misaligned)
    ensures entries != [] && !Contiguous(entries) ==> r == Err(BadOrder)
    ensures entries != [] && Contiguous(entries) ==>
      r == if forall i | 0 <= i < |entries| :: Fits(encode(entries[i])) then Ok(Framed(Map(entries, encode)))
           else Err(RecordTooLong)
  {
    if |entries| == 0 { return Err(Misaligned); }
    if !Contiguous(entries) { return Err(BadOrder); }
    var fed: seq<Byte> := [];
    ghost var records := Map(entries, encode);
    for i := 0 to |entries|
      invariant fed == Framed(records[..i])
      invariant forall j | 0 <= j < i :: Fits(encode(entries[j]))
    {
      hide Power256;
      var record := encode(entries[i]);
      if !Fits(record) { return Err(RecordTooLong); }
      FramedAppend(records[..i], record);
      assert records[..i + 1] == records[..i] + [record];
      fed := fed + BigEndian(|record|, WIDTH);
      fed := fed + record;
    }
    assert records[..|entries|] == records;
    r := Ok(fed);
  }

  ghost predicate AllFit(entries: seq<Entry>, encode: Encoder) {
    forall i | 0 <= i < |entries| :: Fits(encode(entries[i]))
  }

  /** Equal streams are equal record texts, entry by entry. */
  lemma {:induction false} StreamIdentifiesRecords(a: seq<Entry>, b: seq<Entry>, encode: Encoder)
    requires AllFit(a, encode) && AllFit(b, encode)
    ensures Framed(Map(a, encode)) == Framed(Map(b, encode)) <==>
      |a| == |b| && forall i | 0 <= i < |a| :: encode(a[i]) == encode(b[i])
  {
    hide Fits;
    var x, y := Map(a, encode), Map(b, encode);
    if Framed(x) == Framed(y) {
      FramingIsInjective(x, y);
      assert |a| == |b|;
      forall i | 0 <= i < |a| ensures encode(a[i]) == encode(b[i]) {
        assert x[i] == y[i];
      }
    }
    if |a| == |b| && forall i | 0 <= i < |a| :: encode(a[i]) == encode(b[i]) {
      assert x == y;
    }
  }

  /** Two row lists feed the digest the same bytes exactly when they are the same rows in the same
      order, as soon as the encoder tells their rows apart. */
  lemma {:induction false} StreamIdentifiesRows(a: seq<Entry>, b: seq<Entry>, encode: Encoder)
    requires AllFit(a, encode) && AllFit(b, encode)
    requires Distinguishes(encode, a + b)
    ensures Framed(Map(a, encode)) == Framed(Map(b, encode)) <==> a == b
  {
    hide Fits;
    StreamIdentifiesRecords(a, b, encode);
    if Framed(Map(a, encode)) == Framed(Map(b, encode)) {
      forall i | 0 <= i < |a| ensures a[i] == b[i] {
        var all := a + b;
        assert all[i] == a[i] && all[|a| + i] == b[i];
      }
    }
  }

  /** And the encoder must: if it confuses two rows, two lists of one row feed the same bytes. */
  lemma {:induction false} ConfusedRowsCollide(x: Entry, y: Entry, encode: Encoder)
    requires Fits(encode(x)) && Fits(encode(y)) && x != y
    ensures Framed(Map([x], encode)) == Framed(Map([y], encode)) <==> !Distinguishes(encode, [x] + [y])
  {
    hide Fits;
    StreamIdentifiesRecords([x], [y], encode);
    var all := [x] + [y];
    assert all[0] == x && all[1] == y;
  }
}
