/** Canonical JSON (hap/codec.py): the preimage of every identifier.

    `json.dumps` with sorted keys, no white space and `ensure_ascii=False`, as UTF-8.
    A dictionary is a list of fields in insertion order with distinct keys. The parser
    reads the RFC 8259 grammar without insignificant white space and fractions. */
module Json {
  import opened Bytes
  import opened Order
  import opened Hex
  import opened Utf8

  datatype Json =
    | Null
    | Bool(b: bool)
    | Int(n: int)
    | Str(s: string)
    | Arr(items: seq<Json>)
    | Obj(fields: seq<Field>)

  datatype Field = Field(key: string, value: Json)

  function KeyOf(f: Field): string {
    f.key
  }

  /** What a value means: the order in which a dictionary was filled is forgotten. */
  datatype Meaning =
    | MNull
    | MBool(b: bool)
    | MInt(n: int)
    | MStr(s: string)
    | MArr(items: seq<Meaning>)
    | MObj(entries: map<string, Meaning>)

  ghost function Denote(v: Json): Meaning {
    match v
    case Null => MNull
    case Bool(b) => MBool(b)
    case Int(n) => MInt(n)
    case Str(s) => MStr(s)
    case Arr(items) => MArr(seq(|items|, i requires 0 <= i < |items| => Denote(items[i])))
    case Obj(fields) => MObj(DenoteFields(fields))
  }

  ghost function DenoteFields(fields: seq<Field>): map<string, Meaning> {
    if fields == [] then map[]
    else DenoteFields(fields[1..])[fields[0].key := Denote(fields[0].value)]
  }

  /** Every object has distinct keys, as a Python dictionary does. */
  predicate IsDict(v: Json) {
    match v
    case Arr(items) => forall i :: 0 <= i < |items| ==> IsDict(items[i])
    case Obj(fields) =>
      && DistinctKeys(KeyOf, fields)
      && forall i :: 0 <= i < |fields| ==> IsDict(fields[i].value)
    case _ => true
  }

  const MAX_SAFE := 9_007_199_254_740_991
  const MAX_DEPTH := 32

  /** The validator: depth and integer range. */
  predicate Valid(v: Json, depth: nat) {
    && depth <= MAX_DEPTH
    && match v
       case Int(n) => -MAX_SAFE <= n <= MAX_SAFE
       case Arr(items) => forall i :: 0 <= i < |items| ==> Valid(items[i], depth + 1)
       case Obj(fields) => forall i :: 0 <= i < |fields| ==> Valid(fields[i].value, depth + 1)
       case _ => true
  }

  // ---- printing -------------------------------------------------------------------

  function Normal(v: Json): Json {
    match v
    case Arr(items) => Arr(seq(|items|, i requires 0 <= i < |items| => Normal(items[i])))
    case Obj(fields) => Obj(SortBy(KeyOf, NormalFields(fields)))
    case _ => v
  }

  function NormalFields(fields: seq<Field>): (r: seq<Field>)
    ensures |r| == |fields|
    ensures forall i :: 0 <= i < |fields| ==> r[i] == Field(fields[i].key, Normal(fields[i].value))
  {
    if fields == [] then []
    else [Field(fields[0].key, Normal(fields[0].value))] + NormalFields(fields[1..])
  }

  function Digits(n: nat): (text: string)
    ensures text != ""
  {
    var last := ['0' + (n % 10) as char];
    if n < 10 then last else Digits(n / 10) + last
  }

  function Pow10(n: nat): (p: nat)
    ensures p > 0
  {
    if n == 0 then 1 else 10 * Pow10(n - 1)
  }

  lemma {:induction false} DigitsFit(n: nat, k: nat)
    requires k > 0
    ensures |Digits(n)| <= k <==> n < Pow10(k)
    ensures forall i :: 0 <= i < |Digits(n)| ==> '0' <= Digits(n)[i] <= '9'
  {
    if n >= 10 {
      var last := ['0' + (n % 10) as char];
      assert Digits(n) == Digits(n / 10) + last;
      if k > 1 {
        DigitsFit(n / 10, k - 1);
      } else {
        DigitsFit(n / 10, 1);
      }
    }
  }

  function Decimal(n: int): string {
    if n < 0 then "-" + Digits(-n) else Digits(n)
  }

  const BACKSPACE := 8 as char
  const FORM_FEED := 12 as char

  function EscapeChar(c: char): (text: string)
    ensures 1 <= |text| <= 6
  {
    if c == '"' then "\\\""
    else if c == '\\' then "\\\\"
    else if c == '\n' then "\\n"
    else if c == '\r' then "\\r"
    else if c == '\t' then "\\t"
    else if c == FORM_FEED then "\\f"
    else if c == BACKSPACE then "\\b"
    else if c < ' ' then ['\\', 'u', '0', '0', HexDigit(c as int / 16), HexDigit(c as int % 16)]
    else [c]
  }

  function Escape(s: string): string {
    if s == "" then "" else EscapeChar(s[0]) + Escape(s[1..])
  }

  function Quote(s: string): string {
    "\"" + Escape(s) + "\""
  }

  function Emit(v: Json): (text: string) {
    match v
    case Null => "null"
    case Bool(b) => if b then "true" else "false"
    case Int(n) => Decimal(n)
    case Str(s) => Quote(s)
    case Arr(items) => "[" + EmitItems(items) + "]"
    case Obj(fields) => "{" + EmitFields(fields) + "}"
  }

  function EmitItems(items: seq<Json>): string {
    if items == [] then ""
    else if |items| == 1 then Emit(items[0])
    else Emit(items[0]) + "," + EmitItems(items[1..])
  }

  function EmitField(f: Field): string {
    Quote(f.key) + ":" + Emit(f.value)
  }

  function EmitFields(fields: seq<Field>): string {
    if fields == [] then ""
    else if |fields| == 1 then EmitField(fields[0])
    else EmitField(fields[0]) + "," + EmitFields(fields[1..])
  }

  function CanonicalText(v: Json): string {
    Emit(Normal(v))
  }

  /** `canonical_json_bytes`: nothing when the validator refuses the value. */
  function CanonicalBytes(v: Json): Option<seq<Byte>> {
    if Valid(v, 0) then Some(Encode(CanonicalText(v))) else None
  }

  // ---- parsing --------------------------------------------------------------------

  datatype Parsed<+T> = Fail | Got(value: T, rest: string)

  predicate IsDigit(c: char) {
    '0' <= c <= '9'
  }

  function DigitRun(s: string): (n: nat)
    ensures n <= |s|
    ensures forall i :: 0 <= i < n ==> IsDigit(s[i])
    ensures n < |s| ==> !IsDigit(s[n])
  {
    if s == "" || !IsDigit(s[0]) then 0 else 1 + DigitRun(s[1..])
  }

  function DigitOf(c: char): (d: nat)
    requires IsDigit(c)
    ensures d < 10
  {
    c as int - '0' as int
  }

  function ToNat(s: string): nat
    requires forall i :: 0 <= i < |s| ==> IsDigit(s[i])
  {
    if s == "" then 0 else 10 * ToNat(s[..|s|-1]) + DigitOf(s[|s|-1])
  }

  function ParseNat(s: string): (r: Parsed<nat>)
    ensures r.Got? ==> |r.rest| < |s|
  {
    var n := DigitRun(s);
    if n == 0 || (n > 1 && s[0] == '0') then Fail else Got(ToNat(s[..n]), s[n..])
  }

  function SimpleEscape(c: char): Option<char> {
    if c == '"' || c == '\\' || c == '/' then Some(c)
    else if c == 'n' then Some('\n')
    else if c == 'r' then Some('\r')
    else if c == 't' then Some('\t')
    else if c == 'f' then Some(FORM_FEED)
    else if c == 'b' then Some(BACKSPACE)
    else None
  }

  function CodeUnit(s: string): (r: Option<char>)
    requires |s| == 4
  {
    match (DigitValue(s[0]), DigitValue(s[1]), DigitValue(s[2]), DigitValue(s[3]))
    case (Some(a), Some(b), Some(c), Some(d)) =>
      var code := 4096 * a + 256 * b + 16 * c + d;
      if 0xD800 <= code < 0xE000 then None else Some(code as char)
    case _ => None
  }

  /** The characters of a string up to its closing quotation mark. */
  function ParseChars(s: string): (r: Parsed<string>)
    ensures r.Got? ==> |r.rest| < |s|
  {
    if s == "" || (s[0] < ' ' && s[0] != '"') then Fail
    else if s[0] == '"' then Got("", s[1..])
    else if s[0] != '\\' then Prepend(s[0], ParseChars(s[1..]))
    else if |s| < 2 then Fail
    else if s[1] == 'u' then
      if |s| < 6 then Fail
      else (
        match CodeUnit(s[2..6])
        case Some(c) => Prepend(c, ParseChars(s[6..]))
        case None => Fail)
    else
      match SimpleEscape(s[1])
      case Some(c) => Prepend(c, ParseChars(s[2..]))
      case None => Fail
  }

  function Prepend(c: char, r: Parsed<string>): Parsed<string> {
    match r
    case Fail => Fail
    case Got(text, rest) => Got([c] + text, rest)
  }

  function ParseValue(s: string): (r: Parsed<Json>)
    ensures r.Got? ==> |r.rest| < |s|
    decreases |s|, 0
  {
    if s == "" then Fail
    else if s[0] == 'n' then
      if "null" <= s then Got(Null, s[4..]) else Fail
    else if s[0] == 't' then
      if "true" <= s then Got(Bool(true), s[4..]) else Fail
    else if s[0] == 'f' then
      if "false" <= s then Got(Bool(false), s[5..]) else Fail
    else if s[0] == '"' then
      match ParseChars(s[1..]) {
        case Got(text, rest) => Got(Str(text), rest)
        case Fail => Fail
      }
    else if s[0] == '[' then
      if |s| > 1 && s[1] == ']' then Got(Arr([]), s[2..])
      else (
        match ParseItems(s[1..])
        case Got(items, rest) => Got(Arr(items), rest)
        case Fail => Fail)
    else if s[0] == '{' then
      if |s| > 1 && s[1] == '}' then Got(Obj([]), s[2..])
      else (
        match ParseFields(s[1..])
        case Got(fields, rest) => Got(Obj(fields), rest)
        case Fail => Fail)
    else if s[0] == '-' then
      match ParseNat(s[1..]) {
        case Got(n, rest) => Got(Int(0 - n), rest)
        case Fail => Fail
      }
    else
      match ParseNat(s)
      case Got(n, rest) => Got(Int(n), rest)
      case Fail => Fail
  }

  function ParseItems(s: string): (r: Parsed<seq<Json>>)
    ensures r.Got? ==> |r.rest| < |s|
    decreases |s|, 1
  {
    match ParseValue(s)
    case Fail => Fail
    case Got(v, rest) =>
      if rest == "" then Fail
      else if rest[0] == ']' then Got([v], rest[1..])
      else if rest[0] != ',' then Fail
      else
        match ParseItems(rest[1..])
        case Fail => Fail
        case Got(vs, rest') => Got([v] + vs, rest')
  }

  function ParseField(s: string): (r: Parsed<Field>)
    ensures r.Got? ==> |r.rest| < |s|
    decreases |s|, 1
  {
    if s == "" || s[0] != '"' then Fail
    else
      match ParseChars(s[1..])
      case Fail => Fail
      case Got(key, rest) =>
        if rest == "" || rest[0] != ':' then Fail
        else
          match ParseValue(rest[1..])
          case Fail => Fail
          case Got(v, rest') => Got(Field(key, v), rest')
  }

  function ParseFields(s: string): (r: Parsed<seq<Field>>)
    ensures r.Got? ==> |r.rest| < |s|
    decreases |s|, 2
  {
    match ParseField(s)
    case Fail => Fail
    case Got(f, rest) =>
      if rest == "" then Fail
      else if rest[0] == '}' then Got([f], rest[1..])
      else if rest[0] != ',' then Fail
      else
        match ParseFields(rest[1..])
        case Fail => Fail
        case Got(fs, rest') => Got([f] + fs, rest')
  }

  function Parse(bytes: seq<Byte>): Option<Json> {
    match Utf8.Decode(bytes)
    case None => None
    case Some(text) =>
      match ParseValue(text)
      case Got(v, "") => Some(v)
      case _ => None
  }
}
