/** How long canonical bytes can be: the arithmetic behind the greedy estimate of
    `create_batch` (hap/service.py:192-218). */
module PackageSize {
  import opened Bytes
  import opened Order
  import opened Hex
  import opened Json
  import opened JsonLaws
  import opened Batches
  import opened Packages
  import opened Sums
  import Bitcoin
  import Merkle
  import Utf8

  function Size(text: string): nat {
    |Utf8.Encode(text)|
  }

  lemma {:induction false} SizeAppend(a: string, b: string)
    ensures Size(a + b) == Size(a) + Size(b)
  {
    if a == "" {
      assert a + b == b;
    } else {
      SizeAppend(a[1..], b);
      assert (a + b)[1..] == a[1..] + b;
    }
  }

  lemma {:induction false} SizeAscii(text: string)
    requires forall i :: 0 <= i < |text| ==> text[i] as int < 0x80
    ensures Size(text) == |text|
  {
    if text != "" {
      SizeAscii(text[1..]);
    }
  }

  lemma EscapeCharSize(c: char)
    ensures Size(EscapeChar(c)) <= 6
  {
    var text := EscapeChar(c);
    if |text| == 1 {
      assert Utf8.Encode(text[1..]) == [];
    } else {
      SizeAscii(text);
    }
  }

  lemma {:induction false} EscapeSize(s: string)
    ensures Size(Escape(s)) <= 6 * |s|
  {
    if s != "" {
      EscapeSize(s[1..]);
      EscapeCharSize(s[0]);
      SizeAppend(EscapeChar(s[0]), Escape(s[1..]));
    }
  }

  lemma QuoteFrame(s: string)
    ensures Size(Quote(s)) == Size(Escape(s)) + 2
  {
    SizeAppend("\"" + Escape(s), "\"");
    SizeAppend("\"", Escape(s));
    SizeAscii("\"");
  }

  lemma QuoteSize(s: string)
    ensures Size(Quote(s)) <= 6 * |s| + 2
  {
    EscapeSize(s);
    QuoteFrame(s);
  }

  predicate AllHex(s: string) {
    forall i :: 0 <= i < |s| ==> IsHexDigit(s[i])
  }

  lemma {:induction false} EscapeHex(s: string)
    requires AllHex(s)
    ensures Escape(s) == s
  {
    if s != "" {
      EscapeHex(s[1..]);
      assert s == [s[0]] + s[1..];
    }
  }

  lemma QuoteHexSize(s: string)
    requires AllHex(s)
    ensures Size(Quote(s)) == |s| + 2
  {
    EscapeHex(s);
    QuoteFrame(s);
    forall i | 0 <= i < |s|
      ensures s[i] as int < 0x80
    {
      assert IsHexDigit(s[i]);
    }
    SizeAscii(s);
  }

  lemma SafeIntSize(n: nat)
    requires n <= MAX_SAFE
    ensures Size(Decimal(n)) <= 16
  {
    assert Pow10(16) == 1_0000_0000_0000_0000 by {
      assert Pow10(4) == 1_0000;
      assert Pow10(8) == 1_0000_0000;
      assert Pow10(12) == 1_0000_0000_0000;
    }
    DigitsFit(n, 16);
    DigitsParse(n);
    SizeAscii(Digits(n));
  }

  // ---- objects and arrays ---------------------------------------------------------

  function Weight(v: Json): nat {
    Size(CanonicalText(v))
  }

  /** A field with its colon and a comma. */
  function FieldWeight(f: Field): nat {
    Size(Quote(f.key)) + Weight(f.value) + 2
  }

  function FieldsWeight(fields: seq<Field>): nat {
    Sum(FieldWeight, fields)
  }

  /** A field as it is printed, with a comma. */
  function EmittedWeight(f: Field): nat {
    Size(EmitField(f)) + 1
  }

  lemma EmitFieldSize(f: Field)
    ensures Size(EmitField(f)) == Size(Quote(f.key)) + 1 + Size(Emit(f.value))
  {
    SizeAppend(Quote(f.key) + ":", Emit(f.value));
    SizeAppend(Quote(f.key), ":");
    SizeAscii(":");
  }

  lemma NormalFieldWeight(f: Field)
    ensures EmittedWeight(Field(f.key, Normal(f.value))) == FieldWeight(f)
  {
    EmitFieldSize(Field(f.key, Normal(f.value)));
  }

  lemma {:induction false} NormalFieldsWeight(fields: seq<Field>)
    ensures Sum(EmittedWeight, NormalFields(fields)) == FieldsWeight(fields)
  {
    if fields != [] {
      NormalFieldsWeight(fields[1..]);
      NormalFieldWeight(fields[0]);
      assert NormalFields(fields)[1..] == NormalFields(fields[1..]);
    }
  }

  lemma JoinSize(a: string, b: string)
    ensures Size(a + "," + b) == Size(a) + 1 + Size(b)
  {
    SizeAppend(a + ",", b);
    SizeAppend(a, ",");
    SizeAscii(",");
  }

  lemma {:induction false} EmitFieldsSize(fields: seq<Field>)
    ensures Size(EmitFields(fields)) <= Sum(EmittedWeight, fields)
  {
    if |fields| > 1 {
      EmitFieldsSize(fields[1..]);
      JoinSize(EmitField(fields[0]), EmitFields(fields[1..]));
    }
  }

  lemma BracketSize(open: string, text: string, close: string)
    requires |open| == 1 && |close| == 1 && open[0] as int < 0x80 && close[0] as int < 0x80
    ensures Size(open + text + close) == Size(text) + 2
  {
    SizeAppend(open + text, close);
    SizeAppend(open, text);
    SizeAscii(open);
    SizeAscii(close);
  }

  /** Sorting the keys does not change the length of an object. */
  lemma ObjectWeight(fields: seq<Field>)
    ensures Weight(Obj(fields)) <= 2 + FieldsWeight(fields)
  {
    var sorted := SortBy(KeyOf, NormalFields(fields));
    SumPermuted(EmittedWeight, sorted, NormalFields(fields));
    NormalFieldsWeight(fields);
    EmitFieldsSize(sorted);
    BracketSize("{", EmitFields(sorted), "}");
  }

  /** An item with a comma. */
  function ItemWeight(v: Json): nat {
    Weight(v) + 1
  }

  function ItemsWeight(items: seq<Json>): nat {
    Sum(ItemWeight, items)
  }

  function NormalItems(items: seq<Json>): seq<Json> {
    seq(|items|, i requires 0 <= i < |items| => Normal(items[i]))
  }

  lemma {:induction false} EmitItemsSize(items: seq<Json>)
    ensures Size(EmitItems(NormalItems(items))) <= ItemsWeight(items)
  {
    if items != [] {
      var normal := NormalItems(items);
      assert normal[1..] == NormalItems(items[1..]);
      EmitItemsSize(items[1..]);
      JoinSize(Emit(normal[0]), EmitItems(normal[1..]));
    }
  }

  lemma ArrayWeight(items: seq<Json>)
    ensures Weight(Arr(items)) <= 2 + ItemsWeight(items)
  {
    EmitItemsSize(items);
    assert Normal(Arr(items)) == Arr(NormalItems(items));
    BracketSize("[", EmitItems(NormalItems(items)), "]");
  }

  // ---- fields of bounded length ---------------------------------------------------

  function ValueBound(v: Json): nat {
    match v
    case Str(s) => (if AllHex(s) then |s| else 6 * |s|) + 2
    case _ => 16
  }

  function FieldBound(f: Field): nat {
    6 * |f.key| + 4 + ValueBound(f.value)
  }

  /** A string, or an integer in the safe range. */
  predicate IsPlain(f: Field) {
    f.value.Str? || (f.value.Int? && 0 <= f.value.n <= MAX_SAFE)
  }

  lemma PlainWeight(f: Field)
    requires IsPlain(f)
    ensures FieldWeight(f) <= FieldBound(f)
  {
    QuoteSize(f.key);
    match f.value {
      case Str(s) =>
        QuoteSize(s);
        if AllHex(s) {
          QuoteHexSize(s);
        }
      case Int(n) =>
        SafeIntSize(n);
    }
  }

  ghost predicate AllPlain(fields: seq<Field>, c: nat) {
    forall i :: 0 <= i < |fields| ==> IsPlain(fields[i]) && FieldBound(fields[i]) <= c
  }

  lemma PlainFieldsWeight(fields: seq<Field>, c: nat)
    requires AllPlain(fields, c)
    ensures FieldsWeight(fields) <= |fields| * c
  {
    forall i | 0 <= i < |fields|
      ensures FieldWeight(fields[i]) <= c
    {
      PlainWeight(fields[i]);
    }
    SumBound(FieldWeight, fields, c);
  }

  lemma LargeFieldWeight(f: Field, w: nat)
    requires Weight(f.value) <= w
    ensures FieldsWeight([f]) <= 6 * |f.key| + 4 + w
  {
    SumOne(FieldWeight, f);
    QuoteSize(f.key);
  }

  /** An object of plain fields around two larger ones. */
  lemma MixedObjectWeight(head: seq<Field>, f: Field, g: Field, tail: seq<Field>, c: nat, wf: nat, wg: nat)
    requires AllPlain(head, c) && AllPlain(tail, c)
    requires Weight(f.value) <= wf && Weight(g.value) <= wg
    ensures Weight(Obj(head + [f] + [g] + tail))
         <= 10 + 6 * |f.key| + 6 * |g.key| + |head| * c + |tail| * c + wf + wg
  {
    PlainFieldsWeight(head, c);
    PlainFieldsWeight(tail, c);
    LargeFieldWeight(f, wf);
    LargeFieldWeight(g, wg);
    SumAppend(FieldWeight, head, [f]);
    SumAppend(FieldWeight, head + [f], [g]);
    SumAppend(FieldWeight, head + [f] + [g], tail);
    ObjectWeight(head + [f] + [g] + tail);
  }

  lemma PlainObjectWeight(fields: seq<Field>, c: nat)
    requires AllPlain(fields, c)
    ensures Weight(Obj(fields)) <= 2 + |fields| * c
  {
    PlainFieldsWeight(fields, c);
    ObjectWeight(fields);
  }

  // ---- batches and packages -------------------------------------------------------

  lemma {:induction false} IdsWeight(ids: seq<string>)
    requires AllDigests(ids)
    ensures ItemsWeight(Texts(ids)) == 67 * |ids|
  {
    if ids != [] {
      assert IsDigestText(ids[0]);
      DigestIsHex(ids[0]);
      QuoteHexSize(ids[0]);
      assert AllDigests(ids[1..]);
      IdsWeight(ids[1..]);
      assert Texts(ids)[1..] == Texts(ids[1..]);
    }
  }

  lemma RootIsHex(sha: HashFunction, b: Batch)
    requires ValidBatch(sha, b)
    ensures |b.merkleRoot| == 64 && AllHex(b.merkleRoot)
  {
    var root := Merkle.Root(sha, Merkle.Leaves(b.recordIds).value);
    assert b.merkleRoot == ToHex(root);
    ToHexDigits(root);
    forall i | 0 <= i < |b.merkleRoot|
      ensures IsHexDigit(b.merkleRoot[i])
    {
      assert b.merkleRoot[i] in ToHex(root);
    }
  }

  lemma PayloadIsHex(id: string, payload: string)
    requires IsDigestText(id) && Bitcoin.EncodeAnchorPayload(id, 1) == Some(payload)
    ensures |payload| == 76 && AllHex(payload)
  {
    var raw := Bitcoin.MAGIC + [Bitcoin.VERSION, 1] + FromHex(id).value;
    assert payload == ToHex(raw);
    ToHexDigits(raw);
    forall i | 0 <= i < |payload|
      ensures IsHexDigit(payload[i])
    {
      assert payload[i] in ToHex(raw);
    }
  }

  lemma DigestIsHex(text: string)
    requires IsDigestText(text)
    ensures |text| == 64 && AllHex(text)
  {
    TightTextIsDigits(text);
    forall i | 0 <= i < |text|
      ensures IsHexDigit(text[i])
    {
      assert text[i] in text;
    }
  }

  lemma AlgorithmsWeight()
    ensures Weight(Algorithms()) <= 2 + 4 * 216
  {
    PlainObjectWeight(Algorithms().fields, 216);
  }

  lemma HeadIsPlain(b: Batch)
    requires 0 <= b.createdAt <= MAX_SAFE && 0 <= b.recordCount <= MAX_SAFE && |b.network| <= 7
    requires |b.merkleRoot| == 64 && AllHex(b.merkleRoot)
    ensures AllPlain(SmallManifestFields(b), 252)
  {
  }

  lemma TailIsPlain(b: Batch)
    requires IsDigestText(b.batchId)
    requires Bitcoin.EncodeAnchorPayload(b.batchId, 1) == Some(b.payloadHex)
    ensures AllPlain(IdentifierFields(b), 252)
  {
    DigestIsHex(b.batchId);
    PayloadIsHex(b.batchId, b.payloadHex);
  }

  lemma IdsFieldWeight(ids: seq<string>)
    requires AllDigests(ids)
    ensures Weight(Arr(Texts(ids))) <= 2 + 67 * |ids|
  {
    IdsWeight(ids);
    ArrayWeight(Texts(ids));
  }

  lemma PlainAppend(a: seq<Field>, b: seq<Field>, c: nat)
    requires AllPlain(a, c) && AllPlain(b, c)
    ensures AllPlain(a + b, c)
  {
  }

  lemma OrderingIsPlain()
    ensures AllPlain([OrderingField()], 252)
  {
  }

  lemma Regroup(a: seq<Field>, x: Field, y: Field, z: Field, b: seq<Field>)
    ensures a + ([x] + [y] + [z]) + b == a + [x] + [y] + [z] + b
  {
  }

  lemma BatchWeight(sha: HashFunction, b: Batch)
    requires ValidBatch(sha, b) && b.createdAt <= MAX_SAFE
    requires Bitcoin.EncodeAnchorPayload(b.batchId, 1) == Some(b.payloadHex)
    ensures Weight(BatchJson(b)) <= 3_300 + 67 * |b.recordIds|
  {
    var head, large := SmallManifestFields(b), LargeManifestFields(b);
    RootIsHex(sha, b);
    HeadIsPlain(b);
    OrderingIsPlain();
    PlainAppend(head, [OrderingField()], 252);
    TailIsPlain(b);
    IdsFieldWeight(b.recordIds);
    AlgorithmsWeight();
    MixedObjectWeight(head + [OrderingField()], IdsField(b), AlgorithmsField(), IdentifierFields(b),
      252, 2 + 67 * |b.recordIds|, 2 + 4 * 216);
    Regroup(head, OrderingField(), IdsField(b), AlgorithmsField(), IdentifierFields(b));
  }

  /** The length of a record as the greedy loop measures it. */
  function RecordBytes(r: Record): nat {
    Weight(RecordJson(r))
  }

  function RecordsBytes(records: seq<Record>): nat {
    Sum(RecordBytes, records)
  }

  lemma {:induction false} RecordItemsWeight(records: seq<Record>)
    ensures ItemsWeight(RecordJsons(records)) == RecordsBytes(records) + |records|
  {
    if records != [] {
      RecordItemsWeight(records[1..]);
      assert RecordJsons(records)[1..] == RecordJsons(records[1..]);
    }
  }

  const BASE_ESTIMATE := 4_096
  const RECORD_OVERHEAD := 96

  lemma EndsArePlain(id: string)
    requires |id| == 64 && AllHex(id)
    ensures AllPlain(PackageHead(), 130) && AllPlain(PackageTail(id), 130)
  {
  }

  /** The estimate of the greedy loop bounds the canonical length of the whole package. */
  lemma PackageWeight(sha: HashFunction, p: Package)
    requires ValidBatch(sha, p.batch) && p.batch.createdAt <= MAX_SAFE
    requires Bitcoin.EncodeAnchorPayload(p.batch.batchId, 1) == Some(p.batch.payloadHex)
    requires |p.records| == |p.batch.recordIds| && IsDigestText(p.packageId)
    ensures Weight(PackageJson(p)) <= BASE_ESTIMATE + RecordsBytes(p.records) + RECORD_OVERHEAD * |p.records|
  {
    BatchWeight(sha, p.batch);
    RecordItemsWeight(p.records);
    ArrayWeight(RecordJsons(p.records));
    DigestIsHex(p.packageId);
    EndsArePlain(p.packageId);
    MixedObjectWeight(PackageHead(), BatchField(p.batch), RecordsField(p.records), PackageTail(p.packageId), 130,
      3_300 + 67 * |p.records|, 2 + RecordsBytes(p.records) + |p.records|);
  }
}
