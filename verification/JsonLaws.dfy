/** The laws of the canonical encoding: insertion order is irrelevant, a parser undoes it,
    and so equal bytes mean equal values. */
module JsonLaws {
  import opened Bytes
  import opened Order
  import opened Json
  import Utf8

  // ---- what sorting keeps ---------------------------------------------------------

  lemma RestDistinct(fields: seq<Field>)
    requires fields != [] && DistinctKeys(KeyOf, fields)
    ensures DistinctKeys(KeyOf, fields[1..])
    ensures forall i :: 0 < i < |fields| ==> fields[i].key != fields[0].key
  {
    var rest := fields[1..];
    forall i, j | 0 <= i < j < |rest|
      ensures KeyOf(rest[i]) != KeyOf(rest[j])
    {
      assert rest[i] == fields[i + 1] && rest[j] == fields[j + 1];
    }
    forall i | 0 < i < |fields|
      ensures fields[i].key != fields[0].key
    {
      assert KeyOf(fields[0]) != KeyOf(fields[i]);
    }
  }

  lemma {:induction false} EntryAt(fields: seq<Field>, i: nat)
    requires DistinctKeys(KeyOf, fields) && i < |fields|
    ensures fields[i].key in DenoteFields(fields)
    ensures DenoteFields(fields)[fields[i].key] == Denote(fields[i].value)
  {
    if i > 0 {
      RestDistinct(fields);
      EntryAt(fields[1..], i - 1);
      assert fields[1..][i - 1] == fields[i];
    }
  }

  lemma {:induction false} EntryFrom(fields: seq<Field>, k: string) returns (i: nat)
    requires DistinctKeys(KeyOf, fields) && k in DenoteFields(fields)
    ensures i < |fields| && fields[i].key == k && DenoteFields(fields)[k] == Denote(fields[i].value)
  {
    if k == fields[0].key {
      i := 0;
    } else {
      RestDistinct(fields);
      var j := EntryFrom(fields[1..], k);
      i := j + 1;
      assert fields[1..][j] == fields[i];
    }
  }

  lemma SubsetOfFields(a: seq<Field>, b: seq<Field>, k: string)
    requires DistinctKeys(KeyOf, a) && DistinctKeys(KeyOf, b)
    requires forall f :: f in a ==> f in b
    requires k in DenoteFields(a)
    ensures k in DenoteFields(b) && DenoteFields(b)[k] == DenoteFields(a)[k]
  {
    var i := EntryFrom(a, k);
    assert a[i] in b;
    var j :| 0 <= j < |b| && b[j] == a[i];
    EntryAt(b, j);
  }

  /** The same fields in any order mean the same dictionary. */
  lemma DenotePermuted(a: seq<Field>, b: seq<Field>)
    requires DistinctKeys(KeyOf, a) && DistinctKeys(KeyOf, b)
    requires forall f :: f in a <==> f in b
    ensures DenoteFields(a) == DenoteFields(b)
  {
    forall k | k in DenoteFields(a)
      ensures k in DenoteFields(b) && DenoteFields(b)[k] == DenoteFields(a)[k]
    {
      SubsetOfFields(a, b, k);
    }
    forall k | k in DenoteFields(b)
      ensures k in DenoteFields(a)
    {
      SubsetOfFields(b, a, k);
    }
  }

  lemma {:induction false} DenotePointwise(a: seq<Field>, b: seq<Field>)
    requires |a| == |b|
    requires forall i :: 0 <= i < |a| ==> a[i].key == b[i].key && Denote(a[i].value) == Denote(b[i].value)
    ensures DenoteFields(a) == DenoteFields(b)
  {
    if a != [] {
      DenotePointwise(a[1..], b[1..]);
    }
  }

  lemma NormalFieldsDistinct(fields: seq<Field>)
    requires DistinctKeys(KeyOf, fields)
    ensures DistinctKeys(KeyOf, NormalFields(fields))
  {
    var r := NormalFields(fields);
    forall i, j | 0 <= i < j < |r|
      ensures KeyOf(r[i]) != KeyOf(r[j])
    {
      assert KeyOf(fields[i]) != KeyOf(fields[j]);
    }
  }

  lemma {:induction false} DenoteNormal(v: Json)
    requires IsDict(v)
    ensures Denote(Normal(v)) == Denote(v)
  {
    match v {
      case Arr(items) =>
        forall i | 0 <= i < |items|
          ensures Denote(Normal(items[i])) == Denote(items[i])
        {
          DenoteNormal(items[i]);
        }
      case Obj(fields) =>
        forall i | 0 <= i < |fields|
          ensures Denote(Normal(fields[i].value)) == Denote(fields[i].value)
        {
          DenoteNormal(fields[i].value);
        }
        var r := NormalFields(fields);
        DenotePointwise(fields, r);
        NormalFieldsDistinct(fields);
        DistinctKeysPermuted(KeyOf, SortBy(KeyOf, r), r);
        SameElements(SortBy(KeyOf, r), r);
        DenotePermuted(SortBy(KeyOf, r), r);
      case _ =>
    }
  }

  /** The normal form depends on the meaning alone, not on the order of insertion. */
  lemma {:induction false} NormalDetermined(v: Json, w: Json)
    requires IsDict(v) && IsDict(w) && Denote(v) == Denote(w)
    ensures Normal(v) == Normal(w)
  {
    match v {
      case Arr(items) =>
        assert |Denote(v).items| == |Denote(w).items|;
        forall i | 0 <= i < |items|
          ensures Normal(items[i]) == Normal(w.items[i])
        {
          assert Denote(v).items[i] == Denote(w).items[i];
          NormalDetermined(items[i], w.items[i]);
        }
      case Obj(fields) =>
        var others := w.fields;
        var a, b := NormalFields(fields), NormalFields(others);
        forall i | 0 <= i < |fields|
          ensures a[i] in b
        {
          EntryAt(fields, i);
          var j := EntryFrom(others, fields[i].key);
          NormalDetermined(fields[i].value, others[j].value);
          assert b[j] == a[i];
        }
        forall j | 0 <= j < |others|
          ensures b[j] in a
        {
          EntryAt(others, j);
          var i := EntryFrom(fields, others[j].key);
          NormalDetermined(fields[i].value, others[j].value);
          assert b[j] == a[i];
        }
        NormalFieldsDistinct(fields);
        NormalFieldsDistinct(others);
        SortStrict(KeyOf, a);
        SortStrict(KeyOf, b);
        SameElements(SortBy(KeyOf, a), a);
        SameElements(SortBy(KeyOf, b), b);
        StrictUnique(KeyOf, SortBy(KeyOf, a), SortBy(KeyOf, b));
      case _ =>
    }
  }

  // ---- what the parser undoes -----------------------------------------------------

  lemma {:induction false} DigitsParse(n: nat)
    ensures forall i :: 0 <= i < |Digits(n)| ==> IsDigit(Digits(n)[i])
    ensures ToNat(Digits(n)) == n
    ensures Digits(n)[0] == '0' <==> n == 0
  {
    if n >= 10 {
      DigitsParse(n / 10);
      var text := Digits(n);
      assert text[..|text|-1] == Digits(n / 10);
    }
  }

  /** The run of digits in front of something that is not one. */
  lemma {:induction false} DigitRunAppend(s: string, rest: string)
    requires forall i :: 0 <= i < |s| ==> IsDigit(s[i])
    requires rest == "" || !IsDigit(rest[0])
    ensures DigitRun(s + rest) == |s|
  {
    if s == "" {
      assert s + rest == rest;
    } else {
      DigitRunAppend(s[1..], rest);
      assert (s + rest)[1..] == s[1..] + rest;
    }
  }

  lemma {:induction false} ParseDigits(n: nat, rest: string)
    requires rest == "" || !IsDigit(rest[0])
    ensures ParseNat(Digits(n) + rest) == Got(n, rest)
  {
    DigitsParse(n);
    DigitRunAppend(Digits(n), rest);
    var s := Digits(n) + rest;
    assert s[..|Digits(n)|] == Digits(n) && s[|Digits(n)|..] == rest;
  }

  lemma ParseEscaped(c: char, rest: string)
    ensures ParseChars(EscapeChar(c) + rest) == Prepend(c, ParseChars(rest))
  {
    var s := EscapeChar(c) + rest;
    if c < ' ' && c !in {'\n', '\r', '\t', FORM_FEED, BACKSPACE} {
      var code := [s[2], s[3], s[4], s[5]];
      assert s[2..6] == code;
      assert CodeUnit(code) == Some(c);
      assert s[6..] == rest;
    } else {
      assert s[|EscapeChar(c)|..] == rest;
    }
  }

  /** `enc` is read as `text` when a closing quotation mark follows. */
  ghost predicate ReadsChars(enc: string, text: string) {
    forall rest :: ParseChars(enc + ("\"" + rest)) == Got(text, rest)
  }

  lemma NoCharsRead()
    ensures ReadsChars("", "")
  {
    forall rest
      ensures ParseChars("" + ("\"" + rest)) == Got("", rest)
    {
      assert "" + ("\"" + rest) == "\"" + rest;
      assert ("\"" + rest)[1..] == rest;
    }
  }

  lemma MoreCharsRead(c: char, enc: string, text: string)
    requires ReadsChars(enc, text)
    ensures ReadsChars(EscapeChar(c) + enc, [c] + text)
  {
    var head := EscapeChar(c);
    forall rest
      ensures ParseChars(head + enc + ("\"" + rest)) == Got([c] + text, rest)
    {
      var tail := enc + ("\"" + rest);
      assert head + enc + ("\"" + rest) == head + tail;
      ParseEscaped(c, tail);
    }
  }

  lemma {:induction false} EscapeReads(text: string)
    ensures ReadsChars(Escape(text), text)
  {
    if text == "" {
      NoCharsRead();
    } else {
      EscapeReads(text[1..]);
      MoreCharsRead(text[0], Escape(text[1..]), text[1..]);
      assert text == [text[0]] + text[1..];
    }
  }

  /** `q` is read as a complete string token. */
  ghost predicate ReadsToken(q: string, text: string) {
    q != "" && q[0] == '"' && forall rest :: ParseChars((q + rest)[1..]) == Got(text, rest)
  }

  lemma TokenReads(enc: string, text: string)
    requires ReadsChars(enc, text)
    ensures ReadsToken("\"" + enc + "\"", text)
  {
    forall rest
      ensures ParseChars(("\"" + enc + "\"" + rest)[1..]) == Got(text, rest)
    {
      assert ("\"" + enc + "\"" + rest)[1..] == enc + ("\"" + rest);
    }
  }

  lemma QuoteReads(text: string)
    ensures ReadsToken(Quote(text), text)
  {
    EscapeReads(text);
    TokenReads(Escape(text), text);
  }

  ghost predicate Delimited(rest: string) {
    rest == "" || !IsDigit(rest[0])
  }

  /** `text` is read as `v` in front of anything that cannot extend it. */
  ghost predicate Reads(text: string, v: Json) {
    forall rest :: Delimited(rest) ==> ParseValue(text + rest) == Got(v, rest)
  }

  ghost predicate ReadsItems(text: string, items: seq<Json>) {
    forall rest :: ParseItems(text + ("]" + rest)) == Got(items, rest)
  }

  ghost predicate ReadsField(text: string, f: Field) {
    forall rest :: Delimited(rest) ==> ParseField(text + rest) == Got(f, rest)
  }

  ghost predicate ReadsFields(text: string, fields: seq<Field>) {
    forall rest :: ParseFields(text + ("}" + rest)) == Got(fields, rest)
  }

  predicate IsWord(word: string, v: Json) {
    match v
    case Null => word == "null"
    case Bool(b) => word == if b then "true" else "false"
    case Arr(items) => items == [] && word == "[]"
    case Obj(fields) => fields == [] && word == "{}"
    case _ => false
  }

  lemma WordReads(word: string, v: Json)
    requires IsWord(word, v)
    ensures Reads(word, v)
  {
    forall rest | Delimited(rest)
      ensures ParseValue(word + rest) == Got(v, rest)
    {
      var s := word + rest;
      assert word <= s && s[|word|..] == rest;
      assert s[0] == word[0];
    }
  }

  lemma MinusParses(s: string, n: nat, rest: string)
    requires s != "" && s[0] == '-' && ParseNat(s[1..]) == Got(n, rest)
    ensures ParseValue(s) == Got(Int(0 - n), rest)
  {
  }

  lemma NegativeReads(digits: string, n: nat)
    requires forall rest :: Delimited(rest) ==> ParseNat(digits + rest) == Got(n, rest)
    ensures Reads("-" + digits, Int(0 - n))
  {
    forall rest | Delimited(rest)
      ensures ParseValue("-" + digits + rest) == Got(Int(0 - n), rest)
    {
      var s := "-" + digits + rest;
      assert s[1..] == digits + rest;
      MinusParses(s, n, rest);
    }
  }

  lemma DigitParses(s: string, n: nat, rest: string)
    requires s != "" && IsDigit(s[0]) && ParseNat(s) == Got(n, rest)
    ensures ParseValue(s) == Got(Int(n), rest)
  {
  }

  lemma NaturalReads(digits: string, n: nat)
    requires digits != "" && IsDigit(digits[0])
    requires forall rest :: Delimited(rest) ==> ParseNat(digits + rest) == Got(n, rest)
    ensures Reads(digits, Int(n))
  {
    forall rest | Delimited(rest)
      ensures ParseValue(digits + rest) == Got(Int(n), rest)
    {
      DigitParses(digits + rest, n, rest);
    }
  }

  lemma DecimalReads(n: int)
    ensures Reads(Decimal(n), Int(n))
  {
    var m := if n < 0 then -n else n;
    DigitsParse(m);
    forall rest | Delimited(rest)
      ensures ParseNat(Digits(m) + rest) == Got(m, rest)
    {
      ParseDigits(m, rest);
    }
    if n < 0 {
      NegativeReads(Digits(m), m);
    } else {
      NaturalReads(Digits(m), m);
    }
  }

  lemma StringReads(q: string, text: string)
    requires ReadsToken(q, text)
    ensures Reads(q, Str(text))
  {
    forall rest | Delimited(rest)
      ensures ParseValue(q + rest) == Got(Str(text), rest)
    {
      assert (q + rest)[0] == '"';
    }
  }

  lemma ArrayParses(s: string, items: seq<Json>, rest: string)
    requires |s| > 1 && s[0] == '[' && s[1] != ']' && ParseItems(s[1..]) == Got(items, rest)
    ensures ParseValue(s) == Got(Arr(items), rest)
  {
  }

  lemma ObjectParses(s: string, fields: seq<Field>, rest: string)
    requires |s| > 1 && s[0] == '{' && s[1] != '}' && ParseFields(s[1..]) == Got(fields, rest)
    ensures ParseValue(s) == Got(Obj(fields), rest)
  {
  }

  lemma ArrayReads(text: string, items: seq<Json>)
    requires text != "" && text[0] != ']' && ReadsItems(text, items)
    ensures Reads("[" + text + "]", Arr(items))
  {
    forall rest | Delimited(rest)
      ensures ParseValue("[" + text + "]" + rest) == Got(Arr(items), rest)
    {
      var s := "[" + text + "]" + rest;
      assert s[1..] == text + ("]" + rest);
      assert s[1] == text[0];
      ArrayParses(s, items, rest);
    }
  }

  lemma ObjectReads(text: string, fields: seq<Field>)
    requires text != "" && text[0] != '}' && ReadsFields(text, fields)
    ensures Reads("{" + text + "}", Obj(fields))
  {
    forall rest | Delimited(rest)
      ensures ParseValue("{" + text + "}" + rest) == Got(Obj(fields), rest)
    {
      var s := "{" + text + "}" + rest;
      assert s[1..] == text + ("}" + rest);
      assert s[1] == text[0];
      ObjectParses(s, fields, rest);
    }
  }

  lemma LastItemReads(text: string, v: Json)
    requires Reads(text, v)
    ensures ReadsItems(text, [v])
  {
    forall rest
      ensures ParseItems(text + ("]" + rest)) == Got([v], rest)
    {
      assert ParseValue(text + ("]" + rest)) == Got(v, "]" + rest);
      assert ("]" + rest)[1..] == rest;
    }
  }

  lemma MoreItems(s: string, v: Json, tail: string, vs: seq<Json>, rest: string)
    requires ParseValue(s) == Got(v, "," + tail) && ParseItems(tail) == Got(vs, rest)
    ensures ParseItems(s) == Got([v] + vs, rest)
  {
    assert ("," + tail)[1..] == tail;
  }

  lemma Regrouped(a: string, b: string, c: string, d: string)
    ensures a + b + c + d == a + (b + (c + d))
  {
  }

  lemma MoreItemsReadAt(text: string, v: Json, others: string, vs: seq<Json>, rest: string)
    requires Reads(text, v) && ReadsItems(others, vs)
    ensures ParseItems(text + "," + others + ("]" + rest)) == Got([v] + vs, rest)
  {
    var tail := others + ("]" + rest);
    Regrouped(text, ",", others, "]" + rest);
    MoreItems(text + ("," + tail), v, tail, vs, rest);
  }

  lemma MoreItemsRead(text: string, v: Json, others: string, vs: seq<Json>)
    requires Reads(text, v) && ReadsItems(others, vs)
    ensures ReadsItems(text + "," + others, [v] + vs)
  {
    forall rest
      ensures ParseItems(text + "," + others + ("]" + rest)) == Got([v] + vs, rest)
    {
      MoreItemsReadAt(text, v, others, vs, rest);
    }
  }

  lemma FieldParses(s: string, key: string, tail: string, v: Json, rest: string)
    requires s != "" && s[0] == '"' && ParseChars(s[1..]) == Got(key, ":" + tail)
    requires ParseValue(tail) == Got(v, rest)
    ensures ParseField(s) == Got(Field(key, v), rest)
  {
    assert (":" + tail)[1..] == tail;
  }

  lemma FieldReadsAt(q: string, key: string, text: string, v: Json, rest: string)
    requires ReadsToken(q, key) && Reads(text, v) && Delimited(rest)
    ensures ParseField(q + ":" + text + rest) == Got(Field(key, v), rest)
  {
    var tail := text + rest;
    Regrouped(q, ":", text, rest);
    assert ParseChars((q + (":" + tail))[1..]) == Got(key, ":" + tail);
    FieldParses(q + (":" + tail), key, tail, v, rest);
  }

  lemma FieldReads(q: string, key: string, text: string, v: Json)
    requires ReadsToken(q, key) && Reads(text, v)
    ensures ReadsField(q + ":" + text, Field(key, v))
  {
    forall rest | Delimited(rest)
      ensures ParseField(q + ":" + text + rest) == Got(Field(key, v), rest)
    {
      FieldReadsAt(q, key, text, v, rest);
    }
  }

  lemma LastFieldReads(text: string, f: Field)
    requires ReadsField(text, f)
    ensures ReadsFields(text, [f])
  {
    forall rest
      ensures ParseFields(text + ("}" + rest)) == Got([f], rest)
    {
      assert ParseField(text + ("}" + rest)) == Got(f, "}" + rest);
      assert ("}" + rest)[1..] == rest;
    }
  }

  lemma MoreFields(s: string, f: Field, tail: string, fs: seq<Field>, rest: string)
    requires ParseField(s) == Got(f, "," + tail) && ParseFields(tail) == Got(fs, rest)
    ensures ParseFields(s) == Got([f] + fs, rest)
  {
    assert ("," + tail)[1..] == tail;
  }

  lemma MoreFieldsReadAt(text: string, f: Field, others: string, fs: seq<Field>, rest: string)
    requires ReadsField(text, f) && ReadsFields(others, fs)
    ensures ParseFields(text + "," + others + ("}" + rest)) == Got([f] + fs, rest)
  {
    var tail := others + ("}" + rest);
    Regrouped(text, ",", others, "}" + rest);
    MoreFields(text + ("," + tail), f, tail, fs, rest);
  }

  lemma MoreFieldsRead(text: string, f: Field, others: string, fs: seq<Field>)
    requires ReadsField(text, f) && ReadsFields(others, fs)
    ensures ReadsFields(text + "," + others, [f] + fs)
  {
    forall rest
      ensures ParseFields(text + "," + others + ("}" + rest)) == Got([f] + fs, rest)
    {
      MoreFieldsReadAt(text, f, others, fs, rest);
    }
  }

  /** The first character of a printed value is never a closing bracket. */
  lemma EmitStarts(v: Json)
    ensures Emit(v) != "" && Emit(v)[0] != ']'
  {
    match v {
      case Int(n) =>
        if n >= 0 {
          DigitsParse(n);
          assert IsDigit(Digits(n)[0]);
        }
      case _ =>
    }
  }

  lemma FieldsStart(fields: seq<Field>)
    requires fields != []
    ensures EmitFields(fields) != "" && EmitFields(fields)[0] == '"'
  {
    assert EmitField(fields[0])[0] == '"';
  }

  /** The parser reads back any printed value, whatever follows it. */
  lemma {:induction false} EmitReads(v: Json)
    ensures Reads(Emit(v), v)
    decreases v, 1
  {
    match v {
      case Null =>
        WordReads("null", v);
      case Bool(b) =>
        WordReads(if b then "true" else "false", v);
      case Int(n) =>
        DecimalReads(n);
      case Str(text) =>
        QuoteReads(text);
        StringReads(Quote(text), text);
      case Arr(items) =>
        if items == [] {
          assert Emit(v) == "[]";
          WordReads("[]", v);
        } else {
          EmitItemsReads(v, items);
          EmitStarts(items[0]);
          ArrayReads(EmitItems(items), items);
        }
      case Obj(fields) =>
        if fields == [] {
          assert Emit(v) == "{}";
          WordReads("{}", v);
        } else {
          EmitFieldsReads(v, fields);
          FieldsStart(fields);
          ObjectReads(EmitFields(fields), fields);
        }
    }
  }

  lemma {:induction false} EmitItemsReads(v: Json, items: seq<Json>)
    requires items != [] && forall i :: 0 <= i < |items| ==> items[i] < v
    ensures ReadsItems(EmitItems(items), items)
    decreases v, 0, |items|
  {
    EmitReads(items[0]);
    if |items| == 1 {
      LastItemReads(Emit(items[0]), items[0]);
      assert items == [items[0]];
    } else {
      EmitItemsReads(v, items[1..]);
      MoreItemsRead(Emit(items[0]), items[0], EmitItems(items[1..]), items[1..]);
      assert items == [items[0]] + items[1..];
    }
  }

  lemma {:induction false} EmitFieldsReads(v: Json, fields: seq<Field>)
    requires fields != [] && forall i :: 0 <= i < |fields| ==> fields[i] < v
    ensures ReadsFields(EmitFields(fields), fields)
    decreases v, 0, |fields|
  {
    var f := fields[0];
    EmitReads(f.value);
    QuoteReads(f.key);
    FieldReads(Quote(f.key), f.key, Emit(f.value), f.value);
    if |fields| == 1 {
      LastFieldReads(EmitField(f), f);
      assert fields == [f];
    } else {
      EmitFieldsReads(v, fields[1..]);
      MoreFieldsRead(EmitField(f), f, EmitFields(fields[1..]), fields[1..]);
      assert fields == [f] + fields[1..];
    }
  }

  // ---- main results ---------------------------------------------------------------

  /** A JSON parser reads the canonical bytes back as a value of the same meaning. */
  lemma CanonicalRoundTrip(v: Json)
    requires Valid(v, 0) && IsDict(v)
    ensures CanonicalBytes(v).Some?
    ensures Parse(CanonicalBytes(v).value) == Some(Normal(v))
    ensures Denote(Normal(v)) == Denote(v)
  {
    var text := CanonicalText(v);
    Utf8.DecodeEncode(text);
    EmitReads(Normal(v));
    assert ParseValue(text + "") == Got(Normal(v), "");
    assert text + "" == text;
    DenoteNormal(v);
  }

  /** Two accepted values have the same canonical bytes exactly when they are the same value
      up to the order in which dictionaries were filled. */
  lemma CanonicalIdentifies(v: Json, w: Json)
    requires Valid(v, 0) && IsDict(v) && Valid(w, 0) && IsDict(w)
    ensures CanonicalBytes(v) == CanonicalBytes(w) <==> Denote(v) == Denote(w)
  {
    CanonicalRoundTrip(v);
    CanonicalRoundTrip(w);
    if Denote(v) == Denote(w) {
      NormalDetermined(v, w);
    }
  }
}
