/** Reading bencode, as the development harness does (backend/internal/devharness/server.go). */
module Bencode {
  import opened Wrappers

  // A recursive decoder with a depth limit and a budget of nodes, and the check of a torrent's piece table. `Decode`
  // is the specification function and `DecodeBencode` the loop that computes it. `Encode` writes a value as BEP 3 does,
  // except that numbers may be spelled in any way the decoder's number reader accepts; the decoder is proved to accept
  // exactly these spellings and to give their meaning back.

  const MAX_DEPTH := 32
  const MAX_INT64 := 0x7fff_ffff_ffff_ffff
  const MIN_INT64 := -0x8000_0000_0000_0000

  datatype Value =
    | Int(n: int)
    | Str(bytes: seq<byte>)
    | List(items: seq<Value>)
    | Dict(entries: map<seq<byte>, Value>)

  datatype Field = Field(key: seq<byte>, value: Value)

  /** Fields written to a map one after the other: a repeated key keeps its last value. */
  function ToMap(fields: seq<Field>): map<seq<byte>, Value> {
    if fields == [] then map[]
    else
      var last := fields[|fields| - 1];
      ToMap(fields[..|fields| - 1])[last.key := last.value]
  }

  datatype DecodeError =
    | InvalidValue | InvalidInteger | UnterminatedList | NodeLimit | UnterminatedDictionary
    | InvalidString | InvalidStringLength | TruncatedString

  datatype Parsed<T> = Parsed(value: T, pos: nat, budget: int)

  // ----- Bytes and decimal numbers

  const INT: byte := 'i' as byte
  const LIST: byte := 'l' as byte
  const DICT: byte := 'd' as byte
  const END: byte := 'e' as byte
  const COLON: byte := ':' as byte
  const MINUS: byte := '-' as byte
  const PLUS: byte := '+' as byte

  predicate IsDigit(c: byte) { '0' as byte <= c <= '9' as byte }

  predicate AllDigits(s: seq<byte>) { forall k :: 0 <= k < |s| ==> IsDigit(s[k]) }

  function DigitsValue(s: seq<byte>): nat
    requires AllDigits(s)
  {
    if s == [] then 0
    else
      var last := s[|s| - 1];
      assert IsDigit(last);
      10 * DigitsValue(s[..|s| - 1]) + (last as int - '0' as int)
  }

  /** A base-ten 64-bit integer with an optional sign, as strconv.ParseInt reads it. */
  function ParseInt(s: seq<byte>): Option<int> {
    var signed := s != [] && (s[0] == MINUS || s[0] == PLUS);
    var digits := if signed then s[1..] else s;
    if digits == [] || !AllDigits(digits) then None
    else
      var n := if signed && s[0] == MINUS then -(DigitsValue(digits) as int) else DigitsValue(digits);
      if MIN_INT64 <= n <= MAX_INT64 then Some(n) else None
  }

  /** Index of the first byte at or after pos that satisfies stop, or the length of data. */
  function ScanInteger(data: seq<byte>, pos: nat): (end: nat)
    requires pos <= |data|
    ensures pos <= end <= |data|
    ensures forall k :: pos <= k < end ==> data[k] != END
    ensures end < |data| ==> data[end] == END
    decreases |data| - pos
  {
    if pos < |data| && data[pos] != END then ScanInteger(data, pos + 1) else pos
  }

  function ScanDigits(data: seq<byte>, pos: nat): (end: nat)
    requires pos <= |data|
    ensures pos <= end <= |data|
    ensures forall k :: pos <= k < end ==> IsDigit(data[k])
    ensures end < |data| ==> !IsDigit(data[end])
    decreases |data| - pos
  {
    if pos < |data| && IsDigit(data[pos]) then ScanDigits(data, pos + 1) else pos
  }

  // ----- The decoder, as a function

  function DecodeBytes(data: seq<byte>, pos: nat): (r: Result<Parsed<seq<byte>>, DecodeError>)
    requires pos <= |data|
    ensures r.Ok? ==> pos < r.value.pos <= |data|
  {
    var end := ScanDigits(data, pos);
    if pos == end || end >= |data| || data[end] != COLON then Err(InvalidString)
    else
      var length := ParseInt(data[pos..end]);
      if length.None? || length.value < 0 then Err(InvalidStringLength)
      else if length.value > |data| - (end + 1) then Err(TruncatedString)
      else Ok(Parsed(data[end + 1..end + 1 + length.value], end + 1 + length.value, 0))
  }

  /** On success the reader stands strictly past its start, inside the data, and has spent budget it had. */
  function Decode(data: seq<byte>, pos: nat, depth: nat, budget: int): (r: Result<Parsed<Value>, DecodeError>)
    requires pos <= |data|
    ensures r.Ok? ==> pos < r.value.pos <= |data| && 0 <= r.value.budget < budget
    decreases |data| - pos, 0
  {
    if depth > MAX_DEPTH || pos >= |data| || budget <= 0 then Err(InvalidValue)
    else if data[pos] == INT then
      var end := ScanInteger(data, pos + 1);
      if end == pos + 1 || end >= |data| then Err(InvalidInteger)
      else
        var n := ParseInt(data[pos + 1..end]);
        if n.None? then Err(InvalidInteger) else Ok(Parsed(Int(n.value), end + 1, budget - 1))
    else if data[pos] == LIST then DecodeItems(data, pos + 1, depth, budget - 1, [])
    else if data[pos] == DICT then
      var entries := DecodeEntries(data, pos + 1, depth, budget - 1, []);
      if entries.Err? then Err(entries.error)
      else Ok(Parsed(Dict(ToMap(entries.value.value)), entries.value.pos, entries.value.budget))
    else
      var s := DecodeBytes(data, pos);
      if s.Err? then Err(s.error) else Ok(Parsed(Str(s.value.value), s.value.pos, budget - 1))
  }

  function DecodeItems(data: seq<byte>, pos: nat, depth: nat, budget: int, items: seq<Value>)
    : (r: Result<Parsed<Value>, DecodeError>)
    requires pos <= |data| && budget >= 0
    ensures r.Ok? ==> pos < r.value.pos <= |data| && 0 <= r.value.budget <= budget
    decreases |data| - pos, 1
  {
    if pos >= |data| then Err(UnterminatedList)
    else if data[pos] == END then Ok(Parsed(List(items), pos + 1, budget))
    else
      var item := Decode(data, pos, depth + 1, budget);
      if item.Err? then item
      else DecodeItems(data, item.value.pos, depth, item.value.budget, items + [item.value.value])
  }

  /** The entries of a dictionary in reading order. */
  function DecodeEntries(data: seq<byte>, pos: nat, depth: nat, budget: int, entries: seq<Field>)
    : (r: Result<Parsed<seq<Field>>, DecodeError>)
    requires pos <= |data| && budget >= 0
    ensures r.Ok? ==> pos < r.value.pos <= |data| && 0 <= r.value.budget <= budget
    decreases |data| - pos, 1
  {
    if pos >= |data| then Err(UnterminatedDictionary)
    else if data[pos] == END then Ok(Parsed(entries, pos + 1, budget))
    else if budget <= 0 then Err(NodeLimit)
    else
      var key := DecodeBytes(data, pos);
      if key.Err? then Err(key.error)
      else
        var value := Decode(data, key.value.pos, depth + 1, budget - 1);
        if value.Err? then Err(value.error)
        else DecodeEntries(data, value.value.pos, depth, value.value.budget,
                           entries + [Field(key.value.value, value.value.value)])
  }

  /** One turn of the dictionary loop. */
  lemma EntriesStep(data: seq<byte>, pos: nat, depth: nat, budget: int, entries: seq<Field>)
    requires pos < |data| && data[pos] != END && budget >= 0
    ensures DecodeEntries(data, pos, depth, budget, entries) ==
              if budget <= 0 then Err(NodeLimit)
              else
                var key := DecodeBytes(data, pos);
                if key.Err? then Err(key.error)
                else
                  var value := Decode(data, key.value.pos, depth + 1, budget - 1);
                  if value.Err? then Err(value.error)
                  else DecodeEntries(data, value.value.pos, depth, value.value.budget,
                                     entries + [Field(key.value.value, value.value.value)])
  {
  }

  lemma EntriesEnd(data: seq<byte>, pos: nat, depth: nat, budget: int, entries: seq<Field>)
    requires pos <= |data| && (pos == |data| || data[pos] == END) && budget >= 0
    ensures DecodeEntries(data, pos, depth, budget, entries) ==
              if pos == |data| then Err(UnterminatedDictionary) else Ok(Parsed(entries, pos + 1, budget))
  {
  }

  lemma NoFields()
    ensures ToMap([]) == map[]
  {
  }

  lemma ToMapAppended(fields: seq<Field>, field: Field)
    ensures ToMap(fields + [field]) == ToMap(fields)[field.key := field.value]
  {
    assert (fields + [field])[..|fields|] == fields;
  }

  /** One turn of the list loop. */
  lemma ItemsStep(data: seq<byte>, pos: nat, depth: nat, budget: int, items: seq<Value>)
    requires pos < |data| && data[pos] != END && budget >= 0
    ensures DecodeItems(data, pos, depth, budget, items) ==
              var item := Decode(data, pos, depth + 1, budget);
              if item.Err? then item
              else DecodeItems(data, item.value.pos, depth, item.value.budget, items + [item.value.value])
  {
  }

  // ----- The decoder, as the loops that run

  method DecodeBencodeBytes(data: seq<byte>, start: nat) returns (r: Result<Parsed<seq<byte>>, DecodeError>)
    requires start <= |data|
    ensures r == DecodeBytes(data, start)
  {
    var pos := start;
    while pos < |data| && IsDigit(data[pos])
      invariant start <= pos <= |data|
      invariant ScanDigits(data, pos) == ScanDigits(data, start)
    {
      pos := pos + 1;
    }
    if start == pos || pos >= |data| || data[pos] != COLON {
      return Err(InvalidString);
    }
    var length := ParseInt(data[start..pos]);
    if length.None? || length.value < 0 {
      return Err(InvalidStringLength);
    }
    pos := pos + 1;
    if length.value > |data| - pos {
      return Err(TruncatedString);
    }
    return Ok(Parsed(data[pos..pos + length.value], pos + length.value, 0));
  }

  method DecodeBencode(data: seq<byte>, start: nat, depth: nat, startBudget: int)
    returns (r: Result<Parsed<Value>, DecodeError>)
    requires start <= |data|
    ensures r == Decode(data, start, depth, startBudget)
    decreases |data| - start, 0
  {
    hide ParseInt, DecodeBytes, DecodeItems, DecodeEntries, ToMap;
    var pos, budget := start, startBudget;
    if depth > MAX_DEPTH || pos >= |data| || budget <= 0 {
      return Err(InvalidValue);
    }
    budget := budget - 1;
    if data[pos] == INT {
      pos := pos + 1;
      var first := pos;
      while pos < |data| && data[pos] != END
        invariant first <= pos <= |data|
        invariant ScanInteger(data, pos) == ScanInteger(data, first)
      {
        pos := pos + 1;
      }
      if first == pos || pos >= |data| {
        return Err(InvalidInteger);
      }
      var n := ParseInt(data[first..pos]);
      if n.None? {
        return Err(InvalidInteger);
      }
      return Ok(Parsed(Int(n.value), pos + 1, budget));
    } else if data[pos] == LIST {
      r := DecodeListBody(data, pos + 1, depth, budget);
    } else if data[pos] == DICT {
      r := DecodeDictionaryBody(data, pos + 1, depth, budget);
    } else {
      var s := DecodeBencodeBytes(data, pos);
      if s.Err? { return Err(s.error); }
      return Ok(Parsed(Str(s.value.value), s.value.pos, budget));
    }
  }

  method DecodeListBody(data: seq<byte>, start: nat, depth: nat, startBudget: int)
    returns (r: Result<Parsed<Value>, DecodeError>)
    requires start <= |data| && startBudget >= 0
    ensures r == DecodeItems(data, start, depth, startBudget, [])
    decreases |data| - start, 1
  {
    var pos, budget := start, startBudget;
    var values: seq<Value> := [];
    while pos < |data| && data[pos] != END
      invariant start <= pos <= |data| && budget >= 0
      invariant DecodeItems(data, pos, depth, budget, values) == DecodeItems(data, start, depth, startBudget, [])
      decreases |data| - pos
    {
      var value := DecodeBencode(data, pos, depth + 1, budget);
      if value.Err? { return value; }
      pos, budget := value.value.pos, value.value.budget;
      values := values + [value.value.value];
    }
    if pos >= |data| { return Err(UnterminatedList); }
    return Ok(Parsed(List(values), pos + 1, budget));
  }

  method DecodeDictionaryBody(data: seq<byte>, start: nat, depth: nat, startBudget: int)
    returns (r: Result<Parsed<Value>, DecodeError>)
    requires start <= |data| && startBudget >= 0
    ensures var entries := DecodeEntries(data, start, depth, startBudget, []);
            r == if entries.Err? then Err(entries.error)
                 else Ok(Parsed(Dict(ToMap(entries.value.value)), entries.value.pos, entries.value.budget))
    decreases |data| - start, 1
  {
    hide *;
    var pos, budget := start, startBudget;
    var values: map<seq<byte>, Value> := map[];
    ghost var fields: seq<Field> := [];
    NoFields();
    while pos < |data| && data[pos] != END
      invariant start <= pos <= |data| && budget >= 0
      invariant values == ToMap(fields)
      invariant DecodeEntries(data, pos, depth, budget, fields) == DecodeEntries(data, start, depth, startBudget, [])
      decreases |data| - pos
    {
      EntriesStep(data, pos, depth, budget, fields);
      if budget <= 0 { return Err(NodeLimit); }
      budget := budget - 1;
      var key := DecodeBencodeBytes(data, pos);
      if key.Err? { return Err(key.error); }
      var value := DecodeBencode(data, key.value.pos, depth + 1, budget);
      if value.Err? { return Err(value.error); }
      ghost var field := Field(key.value.value, value.value.value);
      ToMapAppended(fields, field);
      pos, budget, fields := value.value.pos, value.value.budget, fields + [field];
      values := values[key.value.value := value.value.value];
    }
    EntriesEnd(data, pos, depth, budget, fields);
    if pos >= |data| { return Err(UnterminatedDictionary); }
    return Ok(Parsed(Dict(values), pos + 1, budget));
  }

  // ----- Encoding (the bencoding section of BEP 3)

  /** What is written: numbers as they are spelled, dictionaries with their entries in writing order. */
  datatype Tree =
    | IntNode(text: seq<byte>)
    | StrNode(digits: seq<byte>, bytes: seq<byte>)
    | ListNode(items: Trees)
    | DictNode(entries: Entries)
  datatype Trees = NoTree | Item(head: Tree, tail: Trees)
  datatype Entries = NoEntry | Entry(digits: seq<byte>, key: seq<byte>, value: Tree, rest: Entries)

  function Decimal(n: nat): (s: seq<byte>)
    ensures s != [] && AllDigits(s)
  {
    var digit := ['0' as byte + (n % 10) as byte];
    if n < 10 then digit else Decimal(n / 10) + digit
  }

  function SignedText(n: int): seq<byte> {
    if n < 0 then [MINUS] + Decimal(-n) else Decimal(n)
  }

  function EncodeString(bytes: seq<byte>): seq<byte> {
    Decimal(|bytes|) + [COLON] + bytes
  }

  /** A byte string with its length spelled out. */
  function Spell(digits: seq<byte>, bytes: seq<byte>): seq<byte> {
    digits + [COLON] + bytes
  }

  /** Any number of leading zeros spells the same length. */
  predicate SpellsLength(digits: seq<byte>, bytes: seq<byte>) {
    digits != [] && AllDigits(digits) && DigitsValue(digits) == |bytes| <= MAX_INT64
  }

  /** The encoder of byte strings that the source carries. */
  method WriteBencodedString(buffer: seq<byte>, value: seq<byte>) returns (written: seq<byte>)
    ensures written == buffer + EncodeString(value)
  {
    written := buffer + Decimal(|value|) + [COLON];
    written := written + value;
  }

  function Encode(tree: Tree): seq<byte> {
    match tree
    case IntNode(text) => [INT] + text + [END]
    case StrNode(digits, bytes) => Spell(digits, bytes)
    case ListNode(items) => [LIST] + EncodeItems(items)
    case DictNode(entries) => [DICT] + EncodeEntries(entries)
  }

  function EncodeItems(items: Trees): seq<byte> {
    match items
    case NoTree => [END]
    case Item(head, tail) => Encode(head) + EncodeItems(tail)
  }

  function EncodeEntries(entries: Entries): seq<byte> {
    match entries
    case NoEntry => [END]
    case Entry(digits, key, value, rest) => Spell(digits, key) + Encode(value) + EncodeEntries(rest)
  }

  /** The value a tree stands for; a repeated key keeps its last value. */
  function Meaning(tree: Tree): Value {
    match tree
    case IntNode(text) => Int(if ParseInt(text).Some? then ParseInt(text).value else 0)
    case StrNode(_, bytes) => Str(bytes)
    case ListNode(items) => List(ItemMeanings(items))
    case DictNode(entries) => Dict(ToMap(Fields(entries)))
  }

  function ItemMeanings(items: Trees): seq<Value> {
    match items
    case NoTree => []
    case Item(head, tail) => [Meaning(head)] + ItemMeanings(tail)
  }

  function Fields(entries: Entries): seq<Field> {
    match entries
    case NoEntry => []
    case Entry(_, key, value, rest) => [Field(key, Meaning(value))] + Fields(rest)
  }

  /** Numbers and string lengths are spelled as the number reader takes them, within 64 bits. */
  predicate Representable(tree: Tree) {
    match tree
    case IntNode(text) => ParseInt(text).Some?
    case StrNode(digits, bytes) => SpellsLength(digits, bytes)
    case ListNode(items) => RepresentableItems(items)
    case DictNode(entries) => RepresentableEntries(entries)
  }

  predicate RepresentableItems(items: Trees) {
    items.Item? ==> Representable(items.head) && RepresentableItems(items.tail)
  }

  predicate RepresentableEntries(entries: Entries) {
    entries.Entry? ==>
      SpellsLength(entries.digits, entries.key) && Representable(entries.value) && RepresentableEntries(entries.rest)
  }

  /** Nodes plus dictionary keys. */
  function Cost(tree: Tree): nat {
    match tree
    case ListNode(items) => 1 + CostItems(items)
    case DictNode(entries) => 1 + CostEntries(entries)
    case _ => 1
  }

  function CostItems(items: Trees): nat {
    if items.NoTree? then 0 else Cost(items.head) + CostItems(items.tail)
  }

  function CostEntries(entries: Entries): nat {
    if entries.NoEntry? then 0 else 1 + Cost(entries.value) + CostEntries(entries.rest)
  }

  /** Levels of nesting below a node. */
  function Height(tree: Tree): nat {
    match tree
    case ListNode(items) => HeightItems(items)
    case DictNode(entries) => HeightEntries(entries)
    case _ => 0
  }

  function Max(x: nat, y: nat): nat { if x >= y then x else y }

  function HeightItems(items: Trees): nat {
    if items.NoTree? then 0 else Max(1 + Height(items.head), HeightItems(items.tail))
  }

  function HeightEntries(entries: Entries): nat {
    if entries.NoEntry? then 0 else Max(1 + Height(entries.value), HeightEntries(entries.rest))
  }

  // ----- Decoding undoes encoding

  lemma {:induction false} DecimalValue(n: nat)
    ensures DigitsValue(Decimal(n)) == n
  {
    var s := Decimal(n);
    if n < 10 {
      assert s[..|s| - 1] == [];
    } else {
      DecimalValue(n / 10);
      assert s[..|s| - 1] == Decimal(n / 10);
    }
  }

  ghost predicate At(data: seq<byte>, pos: nat, part: seq<byte>) {
    pos + |part| <= |data| && data[pos..pos + |part|] == part
  }

  lemma AtSplit(data: seq<byte>, pos: nat, first: seq<byte>, second: seq<byte>)
    requires At(data, pos, first + second)
    ensures At(data, pos, first) && At(data, pos + |first|, second)
    ensures first != [] ==> data[pos] == first[0]
  {
    var whole := data[pos..pos + |first + second|];
    assert data[pos..pos + |first|] == whole[..|first|] == first;
    assert data[pos + |first|..pos + |first| + |second|] == whole[|first|..] == second;
    if first != [] { assert whole[0] == data[pos]; }
  }

  lemma {:induction false} ScanDigitsStops(data: seq<byte>, pos: nat, end: nat)
    requires pos <= end <= |data| && (end < |data| ==> !IsDigit(data[end]))
    requires forall k :: pos <= k < end ==> IsDigit(data[k])
    ensures ScanDigits(data, pos) == end
    decreases end - pos
  {
    if pos < end { ScanDigitsStops(data, pos + 1, end); }
  }

  lemma {:induction false} ScanIntegerStops(data: seq<byte>, pos: nat, end: nat)
    requires pos <= end < |data| && data[end] == END
    requires forall k :: pos <= k < end ==> data[k] != END
    ensures ScanInteger(data, pos) == end
    decreases end - pos
  {
    if pos < end { ScanIntegerStops(data, pos + 1, end); }
  }

  lemma SpelledBytes(data: seq<byte>, pos: nat, digits: seq<byte>, bytes: seq<byte>)
    requires At(data, pos, Spell(digits, bytes)) && SpellsLength(digits, bytes)
    ensures DecodeBytes(data, pos) == Ok(Parsed(bytes, pos + |Spell(digits, bytes)|, 0))
    ensures pos < |data| && IsDigit(data[pos])
  {
    AtSplit(data, pos, digits + [COLON], bytes);
    AtSplit(data, pos, digits, [COLON]);
    var end := pos + |digits|;
    assert data[pos..end] == digits;
    forall k | pos <= k < end ensures IsDigit(data[k]) { assert data[k] == data[pos..end][k - pos]; }
    ScanDigitsStops(data, pos, end);
    DigitsParse(digits);
  }

  lemma DigitsParse(digits: seq<byte>)
    requires digits != [] && AllDigits(digits)
    ensures ParseInt(digits) == if DigitsValue(digits) <= MAX_INT64 then Some(DigitsValue(digits)) else None
  {
    assert IsDigit(digits[0]);
  }

  /** A written byte string reads back. */
  lemma BytesRoundTrip(data: seq<byte>, pos: nat, bytes: seq<byte>)
    requires At(data, pos, EncodeString(bytes)) && |bytes| <= MAX_INT64
    ensures DecodeBytes(data, pos) == Ok(Parsed(bytes, pos + |EncodeString(bytes)|, 0))
  {
    DecimalValue(|bytes|);
    SpelledBytes(data, pos, Decimal(|bytes|), bytes);
  }

  lemma SignedDecimal(n: int)
    requires MIN_INT64 <= n <= MAX_INT64
    ensures ParseInt(SignedText(n)) == Some(n)
  {
    DecimalValue(if n < 0 then -n else n);
    if n < 0 { assert SignedText(n)[1..] == Decimal(-n); }
  }

  /** What reads as a number does not contain the end mark. */
  lemma NumberText(text: seq<byte>)
    requires ParseInt(text).Some?
    ensures text != [] && forall k :: 0 <= k < |text| ==> text[k] != END
  {
    var signed := text != [] && (text[0] == MINUS || text[0] == PLUS);
    var digits := if signed then text[1..] else text;
    assert AllDigits(digits);
    assert signed ==> forall k :: 1 <= k < |text| ==> text[k] == digits[k - 1];
  }

  lemma SpelledInteger(data: seq<byte>, pos: nat, text: seq<byte>)
    requires At(data, pos, Encode(IntNode(text))) && ParseInt(text).Some?
    ensures data[pos] == INT
    ensures var end := ScanInteger(data, pos + 1);
            end == pos + |Encode(IntNode(text))| - 1 && pos + 1 < end < |data| && data[pos + 1..end] == text
  {
    NumberText(text);
    hide ParseInt, ScanInteger;
    assert Encode(IntNode(text)) == [INT] + (text + [END]);
    ContainerParts(data, pos, INT, text + [END]);
    IntegerText(data, pos + 1, text);
  }

  /** A written 64-bit integer reads back. */
  lemma IntegerRoundTrip(data: seq<byte>, pos: nat, n: int)
    requires At(data, pos, Encode(IntNode(SignedText(n)))) && MIN_INT64 <= n <= MAX_INT64
    ensures data[pos] == INT
    ensures var end := ScanInteger(data, pos + 1);
            end == pos + |Encode(IntNode(SignedText(n)))| - 1 && pos + 1 < end < |data| && ParseInt(data[pos + 1..end]) == Some(n)
  {
    SignedDecimal(n);
    SpelledInteger(data, pos, SignedText(n));
    hide *;
  }

  lemma IntegerText(data: seq<byte>, pos: nat, text: seq<byte>)
    requires At(data, pos, text + [END]) && forall k :: 0 <= k < |text| ==> text[k] != END
    ensures pos + |text| < |data| && ScanInteger(data, pos) == pos + |text| && data[pos..pos + |text|] == text
  {
    AtSplit(data, pos, text, [END]);
    var end := pos + |text|;
    forall k | pos <= k < end ensures data[k] != END { assert data[k] == data[pos..end][k - pos]; }
    ScanIntegerStops(data, pos, end);
  }

  lemma {:induction false} FirstByte(tree: Tree)
    requires Representable(tree)
    ensures Encode(tree) != [] && Encode(tree)[0] != END
  {
    match tree
    case StrNode(digits, bytes) => assert IsDigit(digits[0]) && Encode(tree)[0] == digits[0];
    case _ =>
  }

  /** The outcome r, which succeeds just when fits holds. */
  ghost predicate Yields<T>(r: Result<Parsed<T>, DecodeError>, fits: bool, value: T, pos: nat, budget: int) {
    if fits then r == Ok(Parsed(value, pos, budget)) else r.Err?
  }

  /** Decoding what was encoded succeeds exactly when depth and budget allow it, and then returns the
      encoded value, stops right behind it and has spent exactly its cost. */
  lemma {:induction false} RoundTrip(data: seq<byte>, pos: nat, tree: Tree, depth: nat, budget: int)
    requires At(data, pos, Encode(tree)) && Representable(tree)
    ensures Yields(Decode(data, pos, depth, budget), depth + Height(tree) <= MAX_DEPTH && Cost(tree) <= budget,
                   Meaning(tree), pos + |Encode(tree)|, budget - Cost(tree))
    decreases tree
  {
    hide At, Spell, Decode, DecodeItems, DecodeEntries, DecodeBytes, EncodeItems, EncodeEntries, HeightItems,
      HeightEntries, CostItems, CostEntries, ItemMeanings, Fields, ToMap, RepresentableItems, RepresentableEntries;
    match tree {
      case IntNode(text) => RoundTripInteger(data, pos, text, depth, budget);
      case StrNode(digits, bytes) => RoundTripString(data, pos, digits, bytes, depth, budget);
      case ListNode(items) =>
        ContainerParts(data, pos, LIST, EncodeItems(items));
        if depth <= MAX_DEPTH && budget > 0 {
          RoundTripItems(data, pos + 1, items, depth, budget - 1, []);
          assert [] + ItemMeanings(items) == ItemMeanings(items);
        }
        ContainerStep(data, pos, depth, budget);
      case DictNode(entries) =>
        ContainerParts(data, pos, DICT, EncodeEntries(entries));
        if depth <= MAX_DEPTH && budget > 0 {
          RoundTripEntries(data, pos + 1, entries, depth, budget - 1, []);
          assert [] + Fields(entries) == Fields(entries);
        }
        ContainerStep(data, pos, depth, budget);
    }
  }

  lemma ContainerParts(data: seq<byte>, pos: nat, mark: byte, body: seq<byte>)
    requires At(data, pos, [mark] + body)
    ensures pos < |data| && data[pos] == mark && At(data, pos + 1, body)
  {
    AtSplit(data, pos, [mark], body);
  }

  lemma RoundTripInteger(data: seq<byte>, pos: nat, text: seq<byte>, depth: nat, budget: int)
    requires At(data, pos, Encode(IntNode(text))) && ParseInt(text).Some?
    ensures Yields(Decode(data, pos, depth, budget), depth <= MAX_DEPTH && budget > 0,
                   Meaning(IntNode(text)), pos + |Encode(IntNode(text))|, budget - 1)
  {
    SpelledInteger(data, pos, text);
  }

  lemma RoundTripString(data: seq<byte>, pos: nat, digits: seq<byte>, bytes: seq<byte>, depth: nat, budget: int)
    requires At(data, pos, Spell(digits, bytes)) && SpellsLength(digits, bytes)
    ensures Yields(Decode(data, pos, depth, budget), depth <= MAX_DEPTH && budget > 0,
                   Str(bytes), pos + |Spell(digits, bytes)|, budget - 1)
  {
    SpelledBytes(data, pos, digits, bytes);
  }

  /** The first turn of Decode on a list or a dictionary. */
  lemma ContainerStep(data: seq<byte>, pos: nat, depth: nat, budget: int)
    requires pos < |data| && (data[pos] == LIST || data[pos] == DICT)
    ensures Decode(data, pos, depth, budget) ==
              if depth > MAX_DEPTH || budget <= 0 then Err(InvalidValue)
              else if data[pos] == LIST then DecodeItems(data, pos + 1, depth, budget - 1, [])
              else
                var entries := DecodeEntries(data, pos + 1, depth, budget - 1, []);
                if entries.Err? then Err(entries.error)
                else Ok(Parsed(Dict(ToMap(entries.value.value)), entries.value.pos, entries.value.budget))
  {
  }

  lemma NoMoreEntries(data: seq<byte>, pos: nat, depth: nat, budget: int, earlier: seq<Field>)
    requires At(data, pos, [END]) && budget >= 0
    ensures DecodeEntries(data, pos, depth, budget, earlier) == Ok(Parsed(earlier, pos + 1, budget))
  {
    AtSplit(data, pos, [END], []);
  }

  lemma {:induction false} RoundTripItems(
      data: seq<byte>, pos: nat, items: Trees, depth: nat, budget: int, earlier: seq<Value>)
    requires At(data, pos, EncodeItems(items)) && RepresentableItems(items)
    requires depth <= MAX_DEPTH && budget >= 0
    ensures Yields(DecodeItems(data, pos, depth, budget, earlier),
                   depth + HeightItems(items) <= MAX_DEPTH && CostItems(items) <= budget,
                   List(earlier + ItemMeanings(items)), pos + |EncodeItems(items)|, budget - CostItems(items))
    decreases items
  {
    hide At, Encode, Decode, DecodeItems, Height, Cost, Meaning, Representable;
    match items {
      case NoTree =>
        NoMoreItems(data, pos, depth, budget, earlier);
        assert earlier + ItemMeanings(items) == earlier;
      case Item(head, tail) =>
        ItemParts(data, pos, head, tail);
        ItemsStep(data, pos, depth, budget, earlier);
        RoundTrip(data, pos, head, depth + 1, budget);
        var r := Decode(data, pos, depth + 1, budget);
        if r.Ok? {
          assert earlier + [Meaning(head)] + ItemMeanings(tail) == earlier + ItemMeanings(items);
          RoundTripItems(data, r.value.pos, tail, depth, r.value.budget, earlier + [Meaning(head)]);
        }
    }
  }

  lemma NoMoreItems(data: seq<byte>, pos: nat, depth: nat, budget: int, earlier: seq<Value>)
    requires At(data, pos, [END]) && budget >= 0
    ensures DecodeItems(data, pos, depth, budget, earlier) == Ok(Parsed(List(earlier), pos + 1, budget))
  {
    AtSplit(data, pos, [END], []);
  }

  lemma ItemParts(data: seq<byte>, pos: nat, head: Tree, tail: Trees)
    requires Representable(head) && At(data, pos, EncodeItems(Item(head, tail)))
    ensures At(data, pos, Encode(head)) && At(data, pos + |Encode(head)|, EncodeItems(tail))
    ensures pos < |data| && data[pos] != END
  {
    AtSplit(data, pos, Encode(head), EncodeItems(tail));
    FirstByte(head);
  }

  lemma {:induction false} RoundTripEntries(
      data: seq<byte>, pos: nat, entries: Entries, depth: nat, budget: int, earlier: seq<Field>)
    requires At(data, pos, EncodeEntries(entries)) && RepresentableEntries(entries)
    requires depth <= MAX_DEPTH && budget >= 0
    ensures Yields(DecodeEntries(data, pos, depth, budget, earlier),
                   depth + HeightEntries(entries) <= MAX_DEPTH && CostEntries(entries) <= budget,
                   earlier + Fields(entries), pos + |EncodeEntries(entries)|, budget - CostEntries(entries))
    decreases entries
  {
    hide At, Spell, Encode, EncodeEntries, Decode, DecodeEntries, DecodeBytes, Height, HeightEntries, Cost,
      CostEntries, Meaning, Fields, Representable, RepresentableEntries, IsDigit;
    match entries {
      case NoEntry =>
        NoEntriesLeft(data, pos, depth, budget, earlier);
      case Entry(digits, key, value, rest) =>
        var start := pos + |Spell(digits, key)|;
        EntryMeasures(digits, key, value, rest);
        EntryParts(data, pos, digits, key, value, rest);
        if budget > 0 {
          RoundTrip(data, start, value, depth + 1, budget - 1);
        }
        EntryRead(data, pos, digits, key, value, rest, depth, budget, earlier);
        if depth + 1 + Height(value) <= MAX_DEPTH && 1 + Cost(value) <= budget {
          var field := Field(key, Meaning(value));
          assert earlier + [field] + Fields(rest) == earlier + ([field] + Fields(rest));
          RoundTripEntries(data, start + |Encode(value)|, rest, depth, budget - 1 - Cost(value), earlier + [field]);
        }
    }
  }

  lemma NoEntriesLeft(data: seq<byte>, pos: nat, depth: nat, budget: int, earlier: seq<Field>)
    requires At(data, pos, EncodeEntries(NoEntry)) && depth <= MAX_DEPTH && budget >= 0
    ensures Yields(DecodeEntries(data, pos, depth, budget, earlier),
                   depth + HeightEntries(NoEntry) <= MAX_DEPTH && CostEntries(NoEntry) <= budget,
                   earlier + Fields(NoEntry), pos + |EncodeEntries(NoEntry)|, budget - CostEntries(NoEntry))
  {
    NoMoreEntries(data, pos, depth, budget, earlier);
    assert earlier + Fields(NoEntry) == earlier;
  }

  /** What an entry adds to the measures of the entries behind it. */
  lemma EntryMeasures(digits: seq<byte>, key: seq<byte>, value: Tree, rest: Entries)
    ensures RepresentableEntries(Entry(digits, key, value, rest)) <==>
              SpellsLength(digits, key) && Representable(value) && RepresentableEntries(rest)
    ensures Fields(Entry(digits, key, value, rest)) == [Field(key, Meaning(value))] + Fields(rest)
    ensures var entries := Entry(digits, key, value, rest);
            EncodeEntries(entries) == Spell(digits, key) + Encode(value) + EncodeEntries(rest) &&
            CostEntries(entries) == 1 + Cost(value) + CostEntries(rest) &&
            HeightEntries(entries) == Max(1 + Height(value), HeightEntries(rest))
  {
    hide Spell, Encode, Cost, Height, Meaning, Representable, SpellsLength;
  }

  /** Reading one entry goes on behind it, or fails if its value does not fit. */
  lemma EntryRead(data: seq<byte>, pos: nat, digits: seq<byte>, key: seq<byte>, value: Tree, rest: Entries, depth: nat, budget: int,
      earlier: seq<Field>)
    requires At(data, pos, EncodeEntries(Entry(digits, key, value, rest))) && SpellsLength(digits, key) && budget >= 0
    requires pos + |Spell(digits, key)| <= |data|
    requires budget > 0 ==>
               Yields(Decode(data, pos + |Spell(digits, key)|, depth + 1, budget - 1),
                      depth + 1 + Height(value) <= MAX_DEPTH && Cost(value) <= budget - 1, Meaning(value),
                      pos + |Spell(digits, key)| + |Encode(value)|, budget - 1 - Cost(value))
    ensures if depth + 1 + Height(value) <= MAX_DEPTH && 1 + Cost(value) <= budget then
              pos + |Spell(digits, key)| + |Encode(value)| <= |data| &&
              DecodeEntries(data, pos, depth, budget, earlier) ==
                DecodeEntries(data, pos + |Spell(digits, key)| + |Encode(value)|, depth, budget - 1 - Cost(value),
                              earlier + [Field(key, Meaning(value))])
            else DecodeEntries(data, pos, depth, budget, earlier).Err?
  {
    hide At, Spell, Encode, Decode, DecodeEntries, DecodeBytes, EncodeEntries, Height, Cost, Meaning, SpellsLength;
    EntryParts(data, pos, digits, key, value, rest);
    EntriesStep(data, pos, depth, budget, earlier);
  }

  lemma EntryParts(data: seq<byte>, pos: nat, digits: seq<byte>, key: seq<byte>, value: Tree, rest: Entries)
    requires At(data, pos, EncodeEntries(Entry(digits, key, value, rest))) && SpellsLength(digits, key)
    ensures var start := pos + |Spell(digits, key)|;
            At(data, start, Encode(value)) && At(data, start + |Encode(value)|, EncodeEntries(rest)) &&
            DecodeBytes(data, pos) == Ok(Parsed(key, start, 0))
    ensures pos < |data| && data[pos] != END
  {
    hide Spell, Encode, DecodeBytes, SpellsLength;
    AtSplit(data, pos, Spell(digits, key) + Encode(value), EncodeEntries(rest));
    AtSplit(data, pos, Spell(digits, key), Encode(value));
    SpelledBytes(data, pos, digits, key);
  }

  /** The whole-input form: an encoding followed by any suffix. */
  lemma DecodeEncode(tree: Tree, suffix: seq<byte>, budget: int)
    requires Representable(tree)
    ensures Yields(Decode(Encode(tree) + suffix, 0, 0, budget), Height(tree) <= MAX_DEPTH && Cost(tree) <= budget,
                   Meaning(tree), |Encode(tree)|, budget - Cost(tree))
  {
    var data := Encode(tree) + suffix;
    assert data[0..0 + |Encode(tree)|] == Encode(tree);
    RoundTrip(data, 0, tree, 0, budget);
  }

  /** Two writings of different values never agree: the encoding determines the value. */
  lemma EncodingDeterminesValue(t: Tree, u: Tree)
    requires Representable(t) && Representable(u) && Height(t) <= MAX_DEPTH && Height(u) <= MAX_DEPTH
    requires Encode(t) == Encode(u)
    ensures Meaning(t) == Meaning(u)
  {
    var budget := Max(Cost(t), Cost(u));
    DecodeEncode(t, [], budget);
    DecodeEncode(u, [], budget);
  }

  // ----- Numbers

  /** Decimal notation is that of base ten. */
  lemma DecimalIsBaseTen(n: nat, d: nat)
    requires d < 10
    ensures Decimal(10 * n + d) == (if n == 0 then [] else Decimal(n)) + ['0' as byte + d as byte]
  {
  }

  function Zeros(k: nat): seq<byte> { seq(k, _ => '0' as byte) }

  lemma {:induction false} DigitsSpell(digits: seq<byte>) returns (k: nat)
    requires digits != [] && AllDigits(digits)
    ensures digits == Zeros(k) + Decimal(DigitsValue(digits))
  {
    var init, last := digits[..|digits| - 1], digits[|digits| - 1];
    assert IsDigit(last) && digits == init + [last];
    var d := last as int - '0' as int;
    if init == [] {
      k := 0;
    } else {
      var j := DigitsSpell(init);
      var n := DigitsValue(init);
      DecimalIsBaseTen(n, d);
      if n == 0 {
        k := j + 1;
        assert Zeros(k) == Zeros(j) + ['0' as byte];
      } else {
        k := j;
        assert Zeros(j) + Decimal(n) + [last] == Zeros(j) + (Decimal(n) + [last]);
      }
    }
  }

  lemma {:induction false} ZerosValue(k: nat, n: nat)
    ensures AllDigits(Zeros(k) + Decimal(n)) && DigitsValue(Zeros(k) + Decimal(n)) == n
    decreases n, k
  {
    var s := Zeros(k) + Decimal(n);
    assert AllDigits(Zeros(k)) && AllDigits(s);
    if n >= 10 {
      ZerosValue(k, n / 10);
      assert s[..|s| - 1] == Zeros(k) + Decimal(n / 10);
    } else {
      assert s[..|s| - 1] == Zeros(k);
      if k > 0 {
        ZerosValue(k - 1, 0);
        assert Zeros(k) == Zeros(k - 1) + Decimal(0);
      } else {
        assert Zeros(0) == [];
      }
    }
  }

  /** A text of number n: an optional sign, any number of leading zeros, and the decimal notation of its absolute value. */
  ghost predicate Spells(text: seq<byte>, n: int) {
    exists k: nat ::
      (n >= 0 && text in {Zeros(k) + Decimal(n), [PLUS] + (Zeros(k) + Decimal(n))}) ||
      (n <= 0 && text == [MINUS] + (Zeros(k) + Decimal(-n)))
  }

  /** The number reader takes exactly the texts of 64-bit numbers. */
  lemma ParseIntExactly(text: seq<byte>, n: int)
    ensures ParseInt(text) == Some(n) <==> Spells(text, n) && MIN_INT64 <= n <= MAX_INT64
  {
    if ParseInt(text) == Some(n) {
      ParsedSpells(text, n);
      ParsedFits(text);
    }
    hide ParseInt, Spells;
    if Spells(text, n) && MIN_INT64 <= n <= MAX_INT64 { SpelledParses(text, n); }
  }

  lemma SpelledParses(text: seq<byte>, n: int)
    requires Spells(text, n) && MIN_INT64 <= n <= MAX_INT64
    ensures ParseInt(text) == Some(n)
  {
    hide ParseInt, Zeros, Decimal;
    var k: nat :|
      (n >= 0 && text in {Zeros(k) + Decimal(n), [PLUS] + (Zeros(k) + Decimal(n))}) ||
      (n <= 0 && text == [MINUS] + (Zeros(k) + Decimal(-n)));
    TextParses(k, if n < 0 then -n else n);
  }

  lemma ParsedFits(text: seq<byte>)
    ensures ParseInt(text).Some? ==> MIN_INT64 <= ParseInt(text).value <= MAX_INT64
  {
  }

  /** The three ways to write the digits of m. */
  lemma TextParses(k: nat, m: nat)
    ensures var digits := Zeros(k) + Decimal(m);
            ParseInt(digits) == ParseInt([PLUS] + digits) == (if m <= MAX_INT64 then Some(m as int) else None) &&
            ParseInt([MINUS] + digits) == if m <= MAX_INT64 + 1 then Some(-(m as int)) else None
  {
    var digits := Zeros(k) + Decimal(m);
    ZerosValue(k, m);
    hide Zeros, Decimal;
    assert ([PLUS] + digits)[1..] == digits && ([MINUS] + digits)[1..] == digits;
    DigitsParse(digits);
  }

  lemma ParsedSpells(text: seq<byte>, n: int)
    requires ParseInt(text) == Some(n)
    ensures Spells(text, n)
  {
    var signed := text != [] && (text[0] == MINUS || text[0] == PLUS);
    var digits := if signed then text[1..] else text;
    assert AllDigits(digits) && digits != [];
    hide Zeros, Decimal, AllDigits;
    var k := DigitsSpell(digits);
    assert signed ==> text == [text[0]] + digits;
  }

  // ----- The decoder accepts nothing but encodings

  lemma AtJoin(data: seq<byte>, pos: nat, first: seq<byte>, second: seq<byte>)
    requires At(data, pos, first) && At(data, pos + |first|, second)
    ensures At(data, pos, first + second)
  {
    assert data[pos..pos + |first + second|] == data[pos..pos + |first|] + data[pos + |first|..pos + |first| + |second|];
  }

  /** What a byte string was read from. */
  lemma BytesWereSpelled(data: seq<byte>, pos: nat) returns (digits: seq<byte>)
    requires pos <= |data| && DecodeBytes(data, pos).Ok?
    ensures var r := DecodeBytes(data, pos).value;
            SpellsLength(digits, r.value) && At(data, pos, Spell(digits, r.value)) && r.pos == pos + |Spell(digits, r.value)| &&
            r.budget == 0
  {
    var end := ScanDigits(data, pos);
    var r := DecodeBytes(data, pos).value;
    digits := data[pos..end];
    forall k | 0 <= k < |digits| ensures IsDigit(digits[k]) { assert digits[k] == data[pos + k]; }
    DigitsParse(digits);
    assert data[pos..pos + |Spell(digits, r.value)|] == Spell(digits, r.value);
  }

  lemma IntegerStep(data: seq<byte>, pos: nat, depth: nat, budget: int) returns (end: nat)
    requires pos < |data| && data[pos] == INT && Decode(data, pos, depth, budget).Ok?
    ensures pos < end < |data| && data[end] == END && ParseInt(data[pos + 1..end]).Some?
    ensures Decode(data, pos, depth, budget) == Ok(Parsed(Int(ParseInt(data[pos + 1..end]).value), end + 1, budget - 1))
  {
    hide ParseInt;
    end := ScanInteger(data, pos + 1);
  }

  lemma IntegerWasSpelled(data: seq<byte>, pos: nat, depth: nat, budget: int) returns (tree: Tree)
    requires pos < |data| && data[pos] == INT && Decode(data, pos, depth, budget).Ok?
    ensures WasWritten(data, pos, depth, budget, tree, Decode(data, pos, depth, budget).value)
  {
    DecodeNeeds(data, pos, depth, budget);
    var end := IntegerStep(data, pos, depth, budget);
    var text := data[pos + 1..end];
    tree := IntNode(text);
    MarkAt(data, pos);
    MarkAt(data, end);
    assert At(data, pos + 1, text);
    hide Decode, ParseInt, At;
    AtJoin(data, pos, [INT], text);
    AtJoin(data, pos, [INT] + text, [END]);
  }

  lemma StringWasSpelled(data: seq<byte>, pos: nat, depth: nat, budget: int) returns (tree: Tree)
    requires pos < |data| && data[pos] != INT && data[pos] != LIST && data[pos] != DICT && Decode(data, pos, depth, budget).Ok?
    ensures WasWritten(data, pos, depth, budget, tree, Decode(data, pos, depth, budget).value)
  {
    DecodeNeeds(data, pos, depth, budget);
    StringStep(data, pos, depth, budget);
    hide Decode, DecodeBytes, SpellsLength, At;
    var digits := BytesWereSpelled(data, pos);
    tree := StrNode(digits, DecodeBytes(data, pos).value.value);
  }

  /** The input holds the tree, within depth and budget, and r is what it means. */
  ghost predicate WasWritten(data: seq<byte>, pos: nat, depth: nat, budget: int, tree: Tree, r: Parsed<Value>) {
    Representable(tree) && At(data, pos, Encode(tree)) && r.pos == pos + |Encode(tree)| &&
    Meaning(tree) == r.value && depth + Height(tree) <= MAX_DEPTH && r.budget == budget - Cost(tree)
  }

  /** Whatever is decoded was written: the input holds the encoding of a tree that means the result. */
  lemma {:induction false} DecodedWasWritten(data: seq<byte>, pos: nat, depth: nat, budget: int) returns (tree: Tree)
    requires pos <= |data| && Decode(data, pos, depth, budget).Ok?
    ensures WasWritten(data, pos, depth, budget, tree, Decode(data, pos, depth, budget).value)
    decreases |data| - pos, 1
  {
    DecodeNeeds(data, pos, depth, budget);
    hide Decode, DecodeItems, DecodeEntries, WasWritten, ItemsWritten, EntriesWritten, ToMap;
    if data[pos] == INT {
      tree := IntegerWasSpelled(data, pos, depth, budget);
    } else if data[pos] == LIST {
      tree := DecodedListWasWritten(data, pos, depth, budget);
    } else if data[pos] == DICT {
      tree := DecodedDictWasWritten(data, pos, depth, budget);
    } else {
      tree := StringWasSpelled(data, pos, depth, budget);
    }
  }

  lemma {:induction false} DecodedListWasWritten(data: seq<byte>, pos: nat, depth: nat, budget: int) returns (tree: Tree)
    requires pos < |data| && data[pos] == LIST && depth <= MAX_DEPTH && budget > 0 && Decode(data, pos, depth, budget).Ok?
    ensures WasWritten(data, pos, depth, budget, tree, Decode(data, pos, depth, budget).value)
    decreases |data| - pos, 0
  {
    hide Decode, DecodeItems, WasWritten, ItemsWritten;
    ContainerStep(data, pos, depth, budget);
    var items := ItemsWereWritten(data, pos + 1, depth, budget - 1, []);
    tree := ListNode(items);
    ListWasWritten(data, pos, depth, budget, items);
  }

  lemma {:induction false} DecodedDictWasWritten(data: seq<byte>, pos: nat, depth: nat, budget: int) returns (tree: Tree)
    requires pos < |data| && data[pos] == DICT && depth <= MAX_DEPTH && budget > 0 && Decode(data, pos, depth, budget).Ok?
    ensures WasWritten(data, pos, depth, budget, tree, Decode(data, pos, depth, budget).value)
    decreases |data| - pos, 0
  {
    hide Decode, DecodeEntries, WasWritten, EntriesWritten, ToMap;
    ContainerStep(data, pos, depth, budget);
    var entries := EntriesWereWritten(data, pos + 1, depth, budget - 1, []);
    tree := DictNode(entries);
    DictWasWritten(data, pos, depth, budget, entries);
  }

  lemma DecodeNeeds(data: seq<byte>, pos: nat, depth: nat, budget: int)
    requires pos <= |data| && Decode(data, pos, depth, budget).Ok?
    ensures pos < |data| && depth <= MAX_DEPTH && budget > 0
  {
  }

  lemma StringStep(data: seq<byte>, pos: nat, depth: nat, budget: int)
    requires pos < |data| && data[pos] != INT && data[pos] != LIST && data[pos] != DICT && Decode(data, pos, depth, budget).Ok?
    ensures DecodeBytes(data, pos).Ok?
    ensures var s := DecodeBytes(data, pos).value; Decode(data, pos, depth, budget) == Ok(Parsed(Str(s.value), s.pos, budget - 1))
  {
    hide DecodeBytes;
  }

  ghost predicate ItemsWritten(data: seq<byte>, pos: nat, depth: nat, budget: int, earlier: seq<Value>, items: Trees, r: Parsed<Value>) {
    RepresentableItems(items) && At(data, pos, EncodeItems(items)) && r.pos == pos + |EncodeItems(items)| &&
    r.value == List(earlier + ItemMeanings(items)) && depth + HeightItems(items) <= MAX_DEPTH && r.budget == budget - CostItems(items)
  }

  ghost predicate EntriesWritten(data: seq<byte>, pos: nat, depth: nat, budget: int, earlier: seq<Field>, entries: Entries,
      r: Parsed<seq<Field>>)
  {
    RepresentableEntries(entries) && At(data, pos, EncodeEntries(entries)) && r.pos == pos + |EncodeEntries(entries)| &&
    r.value == earlier + Fields(entries) && depth + HeightEntries(entries) <= MAX_DEPTH && r.budget == budget - CostEntries(entries)
  }

  lemma ListWasWritten(data: seq<byte>, pos: nat, depth: nat, budget: int, items: Trees)
    requires pos < |data| && data[pos] == LIST && budget > 0 && DecodeItems(data, pos + 1, depth, budget - 1, []).Ok?
    requires ItemsWritten(data, pos + 1, depth, budget - 1, [], items, DecodeItems(data, pos + 1, depth, budget - 1, []).value)
    ensures WasWritten(data, pos, depth, budget, ListNode(items), DecodeItems(data, pos + 1, depth, budget - 1, []).value)
  {
    hide DecodeItems, At, EncodeItems, RepresentableItems, HeightItems, CostItems, ItemMeanings;
    assert At(data, pos, [LIST]) by { MarkAt(data, pos); }
    AtJoin(data, pos, [LIST], EncodeItems(items));
    assert [] + ItemMeanings(items) == ItemMeanings(items);
  }

  lemma DictWasWritten(data: seq<byte>, pos: nat, depth: nat, budget: int, entries: Entries)
    requires pos < |data| && data[pos] == DICT && budget > 0 && DecodeEntries(data, pos + 1, depth, budget - 1, []).Ok?
    requires EntriesWritten(data, pos + 1, depth, budget - 1, [], entries, DecodeEntries(data, pos + 1, depth, budget - 1, []).value)
    ensures var r := DecodeEntries(data, pos + 1, depth, budget - 1, []).value;
            WasWritten(data, pos, depth, budget, DictNode(entries), Parsed(Dict(ToMap(r.value)), r.pos, r.budget))
  {
    hide DecodeEntries, At, EncodeEntries, RepresentableEntries, HeightEntries, CostEntries, Fields, ToMap;
    assert At(data, pos, [DICT]) by { MarkAt(data, pos); }
    AtJoin(data, pos, [DICT], EncodeEntries(entries));
    assert [] + Fields(entries) == Fields(entries);
  }

  lemma MarkAt(data: seq<byte>, pos: nat)
    requires pos < |data|
    ensures At(data, pos, [data[pos]])
  {
    assert data[pos..pos + 1] == [data[pos]];
  }

  lemma {:induction false} ItemsWereWritten(data: seq<byte>, pos: nat, depth: nat, budget: int, earlier: seq<Value>) returns (items: Trees)
    requires pos <= |data| && budget >= 0 && depth <= MAX_DEPTH && DecodeItems(data, pos, depth, budget, earlier).Ok?
    ensures ItemsWritten(data, pos, depth, budget, earlier, items, DecodeItems(data, pos, depth, budget, earlier).value)
    decreases |data| - pos, 2
  {
    hide Decode, DecodeItems, WasWritten, ItemsWritten;
    NoMoreToDecode(data, pos, depth, budget, earlier, []);
    if data[pos] == END {
      items := NoTree;
      NoItemsWritten(data, pos, depth, budget, earlier);
    } else {
      ItemsStep(data, pos, depth, budget, earlier);
      var item := Decode(data, pos, depth + 1, budget).value;
      var head := DecodedWasWritten(data, pos, depth + 1, budget);
      var tail := ItemsWereWritten(data, item.pos, depth, item.budget, earlier + [item.value]);
      items := Item(head, tail);
      ItemWasWritten(data, pos, depth, budget, earlier, head, tail, item,
                     DecodeItems(data, item.pos, depth, item.budget, earlier + [item.value]).value);
    }
  }

  lemma NoItemsWritten(data: seq<byte>, pos: nat, depth: nat, budget: int, earlier: seq<Value>)
    requires pos < |data| && data[pos] == END && depth <= MAX_DEPTH
    ensures ItemsWritten(data, pos, depth, budget, earlier, NoTree, Parsed(List(earlier), pos + 1, budget))
  {
    MarkAt(data, pos);
    assert earlier + ItemMeanings(NoTree) == earlier;
  }

  lemma ItemWasWritten(data: seq<byte>, pos: nat, depth: nat, budget: int, earlier: seq<Value>, head: Tree, tail: Trees,
      item: Parsed<Value>, r: Parsed<Value>)
    requires WasWritten(data, pos, depth + 1, budget, head, item)
    requires ItemsWritten(data, item.pos, depth, item.budget, earlier + [item.value], tail, r)
    ensures ItemsWritten(data, pos, depth, budget, earlier, Item(head, tail), r)
  {
    hide At, Encode, Height, Cost, Meaning, Representable;
    AtJoin(data, pos, Encode(head), EncodeItems(tail));
    assert earlier + [item.value] + ItemMeanings(tail) == earlier + ItemMeanings(Item(head, tail));
  }

  lemma {:induction false} EntriesWereWritten(data: seq<byte>, pos: nat, depth: nat, budget: int, earlier: seq<Field>)
    returns (entries: Entries)
    requires pos <= |data| && budget >= 0 && depth <= MAX_DEPTH && DecodeEntries(data, pos, depth, budget, earlier).Ok?
    ensures EntriesWritten(data, pos, depth, budget, earlier, entries, DecodeEntries(data, pos, depth, budget, earlier).value)
    decreases |data| - pos, 2
  {
    hide Decode, DecodeEntries, DecodeBytes, WasWritten, EntriesWritten, SpellsLength, Spell, At;
    NoMoreToDecode(data, pos, depth, budget, [], earlier);
    if data[pos] == END {
      entries := NoEntry;
      NoEntriesWritten(data, pos, depth, budget, earlier);
    } else {
      EntriesStep(data, pos, depth, budget, earlier);
      var key := DecodeBytes(data, pos).value;
      var digits := BytesWereSpelled(data, pos);
      var item := Decode(data, key.pos, depth + 1, budget - 1).value;
      var value := DecodedWasWritten(data, key.pos, depth + 1, budget - 1);
      var field := Field(key.value, item.value);
      var rest := EntriesWereWritten(data, item.pos, depth, item.budget, earlier + [field]);
      entries := Entry(digits, key.value, value, rest);
      EntryWasWritten(data, pos, depth, budget, earlier, digits, key.value, value, rest, item,
                      DecodeEntries(data, item.pos, depth, item.budget, earlier + [field]).value);
    }
  }

  lemma NoEntriesWritten(data: seq<byte>, pos: nat, depth: nat, budget: int, earlier: seq<Field>)
    requires pos < |data| && data[pos] == END && depth <= MAX_DEPTH
    ensures EntriesWritten(data, pos, depth, budget, earlier, NoEntry, Parsed(earlier, pos + 1, budget))
  {
    MarkAt(data, pos);
    assert earlier + Fields(NoEntry) == earlier;
  }

  lemma EntryWasWritten(data: seq<byte>, pos: nat, depth: nat, budget: int, earlier: seq<Field>, digits: seq<byte>, key: seq<byte>,
      value: Tree, rest: Entries, item: Parsed<Value>, r: Parsed<seq<Field>>)
    requires SpellsLength(digits, key) && At(data, pos, Spell(digits, key))
    requires WasWritten(data, pos + |Spell(digits, key)|, depth + 1, budget - 1, value, item)
    requires EntriesWritten(data, item.pos, depth, item.budget, earlier + [Field(key, item.value)], rest, r)
    ensures EntriesWritten(data, pos, depth, budget, earlier, Entry(digits, key, value, rest), r)
  {
    EntryMeasures(digits, key, value, rest);
    hide At, Encode, EncodeEntries, Height, HeightEntries, Cost, CostEntries, Meaning, Fields, Representable, RepresentableEntries,
      Spell, SpellsLength;
    AtJoin(data, pos, Spell(digits, key), Encode(value));
    AtJoin(data, pos, Spell(digits, key) + Encode(value), EncodeEntries(rest));
    var field := Field(key, item.value);
    assert earlier + [field] + Fields(rest) == earlier + ([field] + Fields(rest));
  }

  /** The decoder accepts exactly the encodings of trees that fit depth and budget; with RoundTrip, it returns their meaning. */
  lemma AcceptsExactly(data: seq<byte>, pos: nat, depth: nat, budget: int)
    requires pos <= |data|
    ensures Decode(data, pos, depth, budget).Ok? <==>
              exists tree :: Representable(tree) && At(data, pos, Encode(tree)) && depth + Height(tree) <= MAX_DEPTH && Cost(tree) <= budget
  {
    hide Decode, At, Encode, Representable, Height, Cost, Meaning;
    if Decode(data, pos, depth, budget).Ok? {
      var tree := DecodedWasWritten(data, pos, depth, budget);
    }
    if tree :| Representable(tree) && At(data, pos, Encode(tree)) && depth + Height(tree) <= MAX_DEPTH && Cost(tree) <= budget {
      RoundTrip(data, pos, tree, depth, budget);
    }
  }

  // ----- Why decoding fails

  /** A byte string, told from the first position that holds no digit. */
  lemma StringExactly(data: seq<byte>, pos: nat, end: nat)
    requires pos <= end <= |data| && AllDigits(data[pos..end]) && (end < |data| ==> !IsDigit(data[end]))
    ensures DecodeBytes(data, pos) ==
              if end == pos || end == |data| || data[end] != COLON then Err(InvalidString)
              else
                var length := DigitsValue(data[pos..end]);
                if length > MAX_INT64 then Err(InvalidStringLength)
                else if end + 1 + length > |data| then Err(TruncatedString)
                else Ok(Parsed(data[end + 1..end + 1 + length], end + 1 + length, 0))
  {
    forall k | pos <= k < end ensures IsDigit(data[k]) { assert data[k] == data[pos..end][k - pos]; }
    ScanDigitsStops(data, pos, end);
    if end > pos { DigitsParse(data[pos..end]); }
    hide ScanDigits, AllDigits, DigitsValue, ParseInt;
  }

  /** The other errors: no value to read, a malformed or unclosed integer, and what ends a list or dictionary too early. */
  lemma ErrorsExactly(data: seq<byte>, pos: nat, depth: nat, budget: int)
    requires pos <= |data|
    ensures depth > 32 || pos == |data| || budget <= 0 ==> Decode(data, pos, depth, budget) == Err(InvalidValue)
    ensures depth <= 32 && pos < |data| && budget > 0 && data[pos] == INT ==>
              (forall end :: pos < end < |data| && data[end] == END && (forall k :: pos < k < end ==> data[k] != END) ==>
                 Decode(data, pos, depth, budget) ==
                   if ParseInt(data[pos + 1..end]).None? then Err(InvalidInteger)
                   else Ok(Parsed(Int(ParseInt(data[pos + 1..end]).value), end + 1, budget - 1))) &&
              ((forall k :: pos < k < |data| ==> data[k] != END) ==> Decode(data, pos, depth, budget) == Err(InvalidInteger))
    ensures pos == |data| && budget >= 0 ==>
              DecodeItems(data, pos, depth, budget, []) == Err(UnterminatedList) &&
              DecodeEntries(data, pos, depth, budget, []) == Err(UnterminatedDictionary)
    ensures pos < |data| && data[pos] != END ==> DecodeEntries(data, pos, depth, 0, []) == Err(NodeLimit)
  {
    hide ParseInt, DigitsValue;
    if pos < |data| && data[pos] == INT {
      forall end | pos < end < |data| && data[end] == END && forall k :: pos < k < end ==> data[k] != END
        ensures ScanInteger(data, pos + 1) == end
        ensures end == pos + 1 ==> ParseInt(data[pos + 1..end]) == None
      {
        ScanIntegerStops(data, pos + 1, end);
        if end == pos + 1 {
          NoText();
          assert data[pos + 1..end] == [];
        }
      }
    }
  }

  lemma NoText()
    ensures ParseInt([]) == None
  {
  }

  function Nested(n: nat): Tree { if n == 0 then ListNode(NoTree) else ListNode(Item(Nested(n - 1), NoTree)) }

  function Times(n: nat, c: byte): seq<byte> { seq(n, _ => c) }

  lemma {:induction false} NestedText(n: nat)
    ensures Encode(Nested(n)) == Times(n + 1, LIST) + Times(n + 1, END)
    ensures Height(Nested(n)) == n && Cost(Nested(n)) == n + 1 && Representable(Nested(n))
  {
    if n == 0 {
      assert Encode(Nested(0)) == [LIST] + EncodeItems(NoTree);
    } else {
      NestedText(n - 1);
      var items := Item(Nested(n - 1), NoTree);
      assert Nested(n) == ListNode(items) && EncodeItems(items) == Encode(Nested(n - 1)) + EncodeItems(NoTree);
      assert CostItems(items) == Cost(Nested(n - 1)) && HeightItems(items) == 1 + Height(Nested(n - 1)) && RepresentableItems(items);
      assert Times(n + 1, LIST) == [LIST] + Times(n, LIST) && Times(n + 1, END) == Times(n, END) + [END];
    }
  }

  /** A list nested n levels deep is read exactly up to 32 levels, and for n + 1 nodes. */
  lemma DeepListsExactly(n: nat, budget: int)
    ensures Decode(Times(n + 1, LIST) + Times(n + 1, END), 0, 0, budget).Ok? <==> n <= 32 && n + 1 <= budget
  {
    NestedText(n);
    DecodeEncode(Nested(n), [], budget);
    assert Encode(Nested(n)) + [] == Encode(Nested(n));
  }

  // ----- What a successful decode is worth

  /** Levels of nesting of a decoded value are at most n. */
  ghost predicate Within(v: Value, n: int) {
    match v
    case List(items) => n >= 0 && forall i :: 0 <= i < |items| ==> Within(items[i], n - 1)
    case Dict(entries) => n >= 0 && forall k :: k in entries ==> Within(entries[k], n - 1)
    case _ => n >= 0
  }

  lemma LeafStep(data: seq<byte>, pos: nat, depth: nat, budget: int)
    requires pos <= |data|
    requires pos < |data| ==> data[pos] != LIST && data[pos] != DICT
    ensures var r := Decode(data, pos, depth, budget);
            r.Ok? ==> depth <= MAX_DEPTH && (r.value.value.Int? || r.value.value.Str?)
  {
  }

  lemma NoMoreToDecode(data: seq<byte>, pos: nat, depth: nat, budget: int, items: seq<Value>, entries: seq<Field>)
    requires pos <= |data| && budget >= 0
    ensures pos < |data| && data[pos] == END ==>
              DecodeItems(data, pos, depth, budget, items) == Ok(Parsed(List(items), pos + 1, budget)) &&
              DecodeEntries(data, pos, depth, budget, entries) == Ok(Parsed(entries, pos + 1, budget))
    ensures pos == |data| ==>
              DecodeItems(data, pos, depth, budget, items).Err? && DecodeEntries(data, pos, depth, budget, entries).Err?
  {
  }

  /** Whatever the input, a decoded value never nests deeper than the limit. */
  lemma {:induction false} DecodedDepth(data: seq<byte>, pos: nat, depth: nat, budget: int)
    requires pos <= |data|
    ensures var r := Decode(data, pos, depth, budget); r.Ok? ==> Within(r.value.value, MAX_DEPTH - depth)
    decreases |data| - pos, 0
  {
    hide Decode, DecodeItems, DecodeEntries;
    if pos == |data| || (data[pos] != LIST && data[pos] != DICT) {
      LeafStep(data, pos, depth, budget);
    } else {
      ContainerStep(data, pos, depth, budget);
    }
    if depth <= MAX_DEPTH && pos < |data| && budget > 0 {
      if data[pos] == LIST {
        DecodedItemsDepth(data, pos + 1, depth, budget - 1, []);
      } else if data[pos] == DICT {
        DecodedEntriesDepth(data, pos + 1, depth, budget - 1, []);
        var entries := DecodeEntries(data, pos + 1, depth, budget - 1, []);
        if entries.Ok? { MapDepth(entries.value.value, MAX_DEPTH - depth); }
      }
    }
  }

  lemma {:induction false} DecodedItemsDepth(data: seq<byte>, pos: nat, depth: nat, budget: int, items: seq<Value>)
    requires pos <= |data| && budget >= 0 && depth <= MAX_DEPTH
    requires Within(List(items), MAX_DEPTH - depth)
    ensures var r := DecodeItems(data, pos, depth, budget, items);
            r.Ok? ==> Within(r.value.value, MAX_DEPTH - depth)
    decreases |data| - pos, 1
  {
    hide Decode, DecodeItems;
    NoMoreToDecode(data, pos, depth, budget, items, []);
    if pos < |data| && data[pos] != END {
      ItemsStep(data, pos, depth, budget, items);
      DecodedDepth(data, pos, depth + 1, budget);
      var item := Decode(data, pos, depth + 1, budget);
      if item.Ok? {
        DecodedItemsDepth(data, item.value.pos, depth, item.value.budget, items + [item.value.value]);
      }
    }
  }

  lemma {:induction false} DecodedEntriesDepth(
      data: seq<byte>, pos: nat, depth: nat, budget: int, entries: seq<Field>)
    requires pos <= |data| && budget >= 0 && depth <= MAX_DEPTH
    requires WithinFields(entries, MAX_DEPTH - depth - 1)
    ensures var r := DecodeEntries(data, pos, depth, budget, entries);
            r.Ok? ==> WithinFields(r.value.value, MAX_DEPTH - depth - 1)
    decreases |data| - pos, 1
  {
    hide Decode, DecodeEntries, DecodeBytes;
    NoMoreToDecode(data, pos, depth, budget, [], entries);
    if pos < |data| && data[pos] != END {
      EntriesStep(data, pos, depth, budget, entries);
      var key := DecodeBytes(data, pos);
      if budget > 0 && key.Ok? {
        DecodedDepth(data, key.value.pos, depth + 1, budget - 1);
        var value := Decode(data, key.value.pos, depth + 1, budget - 1);
        if value.Ok? {
          DecodedEntriesDepth(data, value.value.pos, depth, value.value.budget,
                              entries + [Field(key.value.value, value.value.value)]);
        }
      }
    }
  }

  ghost predicate WithinFields(fields: seq<Field>, n: int) {
    forall i :: 0 <= i < |fields| ==> Within(fields[i].value, n)
  }

  lemma {:induction false} MapDepth(fields: seq<Field>, n: int)
    requires n >= 0 && WithinFields(fields, n - 1)
    ensures Within(Dict(ToMap(fields)), n)
  {
    if fields != [] { MapDepth(fields[..|fields| - 1], n); }
  }

  // ----- The piece table of a torrent

  const SHA1_SIZE := 20

  /** Two's complement wrap-around of 64-bit arithmetic. */
  function Wrap64(x: int): int {
    (x + 0x8000_0000_0000_0000) % 0x1_0000_0000_0000_0000 - 0x8000_0000_0000_0000
  }

  /** Division that truncates toward zero. */
  function Quotient(x: int, y: int): int
    requires y > 0
  {
    if x >= 0 then x / y else -(-x / y)
  }

  /** Whether the info dictionary's piece table fits the total size. */
  predicate ValidatePieces(info: map<seq<byte>, Value>, pieceLengthKey: seq<byte>, piecesKey: seq<byte>, total: int) {
    pieceLengthKey in info && info[pieceLengthKey].Int? && info[pieceLengthKey].n > 0 &&
    piecesKey in info && info[piecesKey].Str? &&
    var pieceLength, pieces := info[pieceLengthKey].n, info[piecesKey].bytes;
    |pieces| != 0 && |pieces| % SHA1_SIZE == 0 &&
    var want := Quotient(Wrap64(Wrap64(total + pieceLength) - 1), pieceLength);
    total > 0 && |pieces| / SHA1_SIZE == want
  }

  /** The last of n pieces is the one in which total ends. */
  predicate Covers(n: int, pieceLength: int, total: int) {
    (n - 1) * pieceLength < total <= n * pieceLength
  }

  /** The check accepts exactly the tables that cover the total, short of 64-bit overflow. */
  lemma PiecesExactly(info: map<seq<byte>, Value>, lengthKey: seq<byte>, piecesKey: seq<byte>, total: int)
    requires lengthKey in info && info[lengthKey].Int? && 0 < info[lengthKey].n <= MAX_INT64
    requires piecesKey in info && info[piecesKey].Str? && 0 < |info[piecesKey].bytes|
    requires MIN_INT64 <= total <= MAX_INT64
    ensures var n, len := |info[piecesKey].bytes| / 20, info[lengthKey].n;
            ValidatePieces(info, lengthKey, piecesKey, total) <==>
              |info[piecesKey].bytes| % 20 == 0 && total > 0 && Covers(n, len, total) &&
              total + len - 1 <= MAX_INT64
  {
    var n, len := |info[piecesKey].bytes| / SHA1_SIZE, info[lengthKey].n;
    if total > 0 {
      WrappedSum(total, len);
      if total + len - 1 <= MAX_INT64 {
        CeilingDivision(n, len, total);
      } else {
        NegativeQuotient(total + len - 1 - 0x1_0000_0000_0000_0000, len);
      }
    }
  }

  lemma WrappedSum(total: int, len: int)
    requires 0 < total <= MAX_INT64 && 0 < len <= MAX_INT64
    ensures var sum := Wrap64(Wrap64(total + len) - 1);
            if total + len - 1 <= MAX_INT64 then sum == total + len - 1
            else sum == total + len - 1 - 0x1_0000_0000_0000_0000 < 0
  {
  }

  lemma CeilingDivision(n: int, len: int, total: int)
    requires len > 0 && total > 0
    ensures (total + len - 1) / len == n <==> Covers(n, len, total)
  {
    var q := (total + len - 1) / len;
    assert q * len <= total + len - 1 < (q + 1) * len;
    assert (q - 1) * len == q * len - len && (q + 1) * len == q * len + len;
    if n != q {
      Separated(n, q, len);
    }
  }

  lemma Separated(n: int, q: int, len: int)
    requires len > 0
    ensures n < q ==> n * len <= (q - 1) * len
    ensures n > q ==> (n - 1) * len >= q * len
  {
  }

  lemma NegativeQuotient(x: int, y: int)
    requires x < 0 < y
    ensures Quotient(x, y) <= 0
  {
  }

  /** Overflow does reject a table that covers its total: one piece of the largest length. */
  lemma OverflowRejectsOnePiece(lengthKey: seq<byte>, piecesKey: seq<byte>, digest: seq<byte>)
    requires |digest| == 20 && lengthKey != piecesKey
    ensures Covers(1, MAX_INT64, MAX_INT64)
    ensures !ValidatePieces(map[lengthKey := Int(MAX_INT64), piecesKey := Str(digest)], lengthKey, piecesKey, MAX_INT64)
  {
    PiecesExactly(map[lengthKey := Int(MAX_INT64), piecesKey := Str(digest)], lengthKey, piecesKey, MAX_INT64);
  }
}
