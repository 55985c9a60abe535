/** The nil-tolerant wrapper around math/big.Int and its JSON text forms. */
module BigInts {
  import opened Wrappers

  // ---- Decimal text, as String and SetString in base 10 -------------------

  predicate IsDigit(c: char) {
    '0' <= c <= '9'
  }

  function Digit(d: nat): (c: char)
    requires d < 10
    ensures IsDigit(c)
  {
    '0' + d as char
  }

  function Digits(n: nat): string {
    if n < 10 then [Digit(n)] else Digits(n / 10) + [Digit(n % 10)]
  }

  function Decimal(n: int): string {
    if n < 0 then "-" + Digits(-n) else Digits(n)
  }

  function DigitsValue(s: string): Option<nat> {
    if s == "" then Some(0)
    else
      var last := s[|s| - 1];
      match DigitsValue(s[..|s| - 1])
      case Some(v) => if IsDigit(last) then Some(v * 10 + (last as int - '0' as int)) else None
      case None => None
  }

  /** SetString(s, 10): an optional sign, then at least one digit and nothing else. */
  function SetString(s: string): Option<int> {
    if s == "" then None
    else
      var unsigned := if s[0] == '-' || s[0] == '+' then s[1..] else s;
      if unsigned == "" then None
      else
        match DigitsValue(unsigned)
        case Some(v) => var n: int := v; Some(if s[0] == '-' then -n else n)
        case None => None
  }

  lemma DigitsValueSnoc(s: string, d: nat)
    requires d < 10 && DigitsValue(s).Some?
    ensures DigitsValue(s + [Digit(d)]) == Some(DigitsValue(s).value * 10 + d)
  {
    assert (s + [Digit(d)])[..|s|] == s;
  }

  predicate AllDigits(s: string) {
    forall i | 0 <= i < |s| :: IsDigit(s[i])
  }

  /** The digits of a JSON integer: no leading zero except in "0" itself. */
  predicate PlainDigits(s: string) {
    s != "" && AllDigits(s) && (s[0] == '0' ==> s == "0")
  }

  lemma {:induction false} DigitsValueOf(n: nat)
    ensures DigitsValue(Digits(n)) == Some(n)
    ensures PlainDigits(Digits(n)) && (Digits(n) == "0" ==> n == 0)
  {
    if n < 10 {
      assert DigitsValue("") == Some(0);
      DigitsValueSnoc("", n);
      assert Digits(n) == "" + [Digit(n)];
    } else {
      var q, d := n / 10, n % 10;
      assert n == q * 10 + d;
      DigitsValueOf(q);
      DigitsValueSnoc(Digits(q), d);
    }
  }

  lemma SetStringSigned(digits: string, v: nat)
    requires digits != "" && IsDigit(digits[0]) && DigitsValue(digits) == Some(v)
    ensures SetString(digits) == Some(v)
    ensures var n: int := v; SetString("-" + digits) == Some(-n)
  {
    assert ("-" + digits)[1..] == digits;
  }

  /** Reading back the decimal text of any integer gives that integer. */
  lemma SetStringDecimal(n: int)
    ensures SetString(Decimal(n)) == Some(n)
    ensures IsIntegerLiteral(Decimal(n))
  {
    if n < 0 {
      DigitsValueOf(-n);
      SetStringSigned(Digits(-n), -n);
    } else {
      DigitsValueOf(n);
      SetStringSigned(Digits(n), n);
    }
  }

  /** Text is accepted exactly if it is at least one digit, after at most one sign. */
  lemma SetStringAccepts(s: string)
    ensures SetString(s).Some? <==> IsDecimal(s) || (s != "" && (s[0] as int == 43 || s[0] as int == 45) && IsDecimal(s[1..]))
  {
    if s != "" {
      DigitsValueAccepts(s);
      DigitsValueAccepts(s[1..]);
      if s[0] == '-' || s[0] == '+' {
        assert !IsDecimal(s);
      }
    }
  }

  /** At least one digit and nothing else. */
  predicate IsDecimal(s: string) {
    s != "" && forall i | 0 <= i < |s| :: 48 <= s[i] as int <= 57
  }

  lemma {:induction false} DigitsValueAccepts(s: string)
    ensures DigitsValue(s).Some? <==> s == "" || IsDecimal(s)
  {
    if s != "" {
      var front := s[..|s| - 1];
      DigitsValueAccepts(front);
      assert forall i | 0 <= i < |front| :: front[i] == s[i];
      assert s == front + [s[|s| - 1]];
    }
  }

  lemma {:induction false} LeadingZero(s: string)
    ensures DigitsValue("0" + s) == DigitsValue(s)
  {
    if s == "" {
      assert DigitsValue("") == Some(0);
      assert "0" + s == "0" && "0"[..0] == "";
    } else {
      var front := s[..|s| - 1];
      LeadingZero(front);
      assert ("0" + s)[..|s|] == "0" + front;
    }
  }

  /** A plus sign and leading zeros do not change the value; a minus sign negates it. */
  lemma SetStringSigns(digits: string)
    requires IsDecimal(digits)
    ensures SetString("+" + digits) == SetString(digits) == SetString("0" + digits)
    ensures SetString(digits).Some? && SetString("-" + digits) == Some(-SetString(digits).value)
  {
    DigitsValueAccepts(digits);
    LeadingZero(digits);
    assert ("+" + digits)[1..] == digits && ("-" + digits)[1..] == digits;
    assert digits[0] != '-' && digits[0] != '+';
  }

  // ---- JSON -----------------------------------------------------------------

  /** The integers of the JSON grammar, section 6 of RFC 8259: "-", "00" and "-007" are none. */
  predicate IsIntegerLiteral(s: string) {
    if s != "" && s[0] == '-' then PlainDigits(s[1..]) else PlainDigits(s)
  }

  /** json.Unmarshal into a string and into a json.Number; None stands for an error. */
  datatype Json = Json(asString: string -> Option<string>, asNumber: string -> Option<string>)

  /** What is assumed of the library: integer literals decode as numbers and, in quotes, as strings. */
  ghost predicate Decodes(json: Json) {
    forall s | IsIntegerLiteral(s) ::
      json.asString("\"" + s + "\"") == Some(s) && json.asString(s) == None && json.asNumber(s) == Some(s)
  }

  function TrimQuotes(s: string): string
    decreases |s|
  {
    if s != "" && s[0] == '"' then TrimQuotes(s[1..])
    else if s != "" && s[|s| - 1] == '"' then TrimQuotes(s[..|s| - 1])
    else s
  }

  /** Quotes, and only these, go from both ends. */
  lemma {:induction false} TrimQuotesMeans(s: string) returns (i: nat, j: nat)
    ensures i <= j <= |s| && TrimQuotes(s) == s[i..j]
    ensures forall k | 0 <= k < i || j <= k < |s| :: s[k] as int == 34
    ensures i < j ==> s[i] as int != 34 && s[j - 1] as int != 34
    decreases |s|
  {
    i, j := 0, |s|;
    if s != "" && s[0] == '"' {
      var rest := s[1..];
      i, j := TrimQuotesMeans(rest);
      assert rest[i..j] == s[i + 1..j + 1];
      assert forall k | 0 <= k < |rest| :: rest[k] == s[k + 1];
      forall k | 0 <= k < i + 1 || j + 1 <= k < |s| ensures s[k] as int == 34 {
        assert k > 0 ==> s[k] == rest[k - 1];
      }
      i, j := i + 1, j + 1;
    } else if s != "" && s[|s| - 1] == '"' {
      var rest := s[..|s| - 1];
      i, j := TrimQuotesMeans(rest);
      assert rest[i..j] == s[i..j];
      assert forall k | 0 <= k < |rest| :: rest[k] == s[k];
    }
  }

  function MarshalText(value: Option<int>): string {
    if value.None? then "null" else "\"" + Decimal(value.value) + "\""
  }

  /** The value that UnmarshalJSON stores, or None for its error. */
  function UnmarshalText(json: Json, data: string): Option<int> {
    if data == "null" then Some(0)
    else
      match json.asString(data)
      case Some(s) => SetString(s)
      case None =>
        match json.asNumber(data)
        case Some(n) => SetString(n)
        case None => SetString(TrimQuotes(data))
  }

  /** The assumption can be met, for one by a decoder of nothing but integer literals. */
  lemma DecoderExists() returns (json: Json)
    ensures Decodes(json)
  {
    json := Json(
      s => if |s| >= 2 && s[0] == s[|s| - 1] == '"' then Some(s[1..|s| - 1]) else None,
      s => if IsIntegerLiteral(s) then Some(s) else None);
    forall s | IsIntegerLiteral(s)
      ensures json.asString("\"" + s + "\"") == Some(s) && json.asString(s) == None && json.asNumber(s) == Some(s)
    {
      var quoted := "\"" + s + "\"";
      assert quoted[1..|quoted| - 1] == s;
    }
  }

  /** Every value, and nil read as zero, survives JSON; the string and the number form agree. */
  lemma JsonRoundTrip(json: Json, n: int)
    requires Decodes(json)
    ensures UnmarshalText(json, MarshalText(Some(n))) == Some(n)
    ensures UnmarshalText(json, Decimal(n)) == Some(n)
    ensures UnmarshalText(json, MarshalText(None)) == Some(0)
  {
    SetStringDecimal(n);
    assert MarshalText(Some(n))[0] == '"';
    assert Decimal(n)[0] != 'n';
  }

  // ---- The wrapper ------------------------------------------------------------

  /** A big.Int: storage that operations may share or change. */
  class Int {
    var v: int

    constructor (v: int)
      ensures this.v == v
    {
      this.v := v;
    }
  }

  class BigInt {
    var num: Int?

    constructor (num: Int?)
      ensures this.num == num
    {
      this.num := num;
    }
  }

  ghost function Footprint(b: BigInt?): set<object>
    reads b
  {
    if b == null then {} else if b.num == null then {b} else {b, b.num}
  }

  /** A nil wrapper and a wrapper around nil read as zero. */
  ghost function Value(b: BigInt?): int
    reads Footprint(b), b
  {
    if b == null || b.num == null then 0 else b.num.v
  }

  predicate IsNil(b: BigInt?)
    reads b
  {
    b == null || b.num == null
  }

  /** Storage that no caller has seen before. */
  twostate predicate Fresh(new r: BigInt)
    reads r
  {
    fresh(r) && r.num != null && fresh(r.num)
  }

  method Zero() returns (r: BigInt)
    ensures Fresh(r) && Value(r) == 0
  {
    var num := new Int(0);
    r := new BigInt(num);
  }

  method Copy(b: BigInt?) returns (r: BigInt)
    ensures Fresh(r) && Value(r) == Value(b)
  {
    if IsNil(b) {
      r := Zero();
      return;
    }
    var num := new Int(b.num.v);
    r := new BigInt(num);
  }

  method Add(b: BigInt?, other: BigInt?) returns (r: BigInt)
    ensures Fresh(r) && Value(r) == Value(b) + Value(other)
  {
    if IsNil(b) {
      if IsNil(other) {
        r := Zero();
        return;
      }
      r := Copy(other);
      return;
    }
    if IsNil(other) {
      r := Copy(b);
      return;
    }
    var num := new Int(b.num.v + other.num.v);
    r := new BigInt(num);
  }

  method Sub(b: BigInt?, other: BigInt?) returns (r: BigInt)
    ensures Fresh(r) && Value(r) == Value(b) - Value(other)
  {
    if IsNil(b) {
      if IsNil(other) {
        r := Zero();
        return;
      }
      var neg := new Int(-other.num.v);
      r := new BigInt(neg);
      return;
    }
    if IsNil(other) {
      r := Copy(b);
      return;
    }
    var num := new Int(b.num.v - other.num.v);
    r := new BigInt(num);
  }

  method Mul(b: BigInt?, other: BigInt?) returns (r: BigInt)
    ensures Fresh(r) && Value(r) == Value(b) * Value(other)
  {
    if IsNil(b) || IsNil(other) {
      r := Zero();
      return;
    }
    var num := new Int(b.num.v * other.num.v);
    r := new BigInt(num);
  }

  function Sign(n: int): int {
    if n < 0 then -1 else if n > 0 then 1 else 0
  }

  method Cmp(b: BigInt?, other: BigInt?) returns (r: int)
    ensures r == -1 <==> Value(b) < Value(other)
    ensures r == 0 <==> Value(b) == Value(other)
    ensures r == 1 <==> Value(b) > Value(other)
  {
    if IsNil(b) {
      if IsNil(other) {
        return 0;
      }
      return -Sign(other.num.v);
    }
    if IsNil(other) {
      return Sign(b.num.v);
    }
    return if b.num.v < other.num.v then -1 else if b.num.v > other.num.v then 1 else 0;
  }

  /** The value if it fits the given range (int64 or uint64), else 0 and false. */
  method InRange(b: BigInt?, low: int, high: int) returns (v: int, ok: bool)
    requires low <= 0 < high
    ensures ok <==> low <= Value(b) < high
    ensures v == if ok then Value(b) else 0
  {
    if IsNil(b) {
      return 0, true;
    }
    if !(low <= b.num.v < high) {
      return 0, false;
    }
    return b.num.v, true;
  }

  method Int64(b: BigInt?) returns (v: int, ok: bool)
    ensures ok <==> -0x8000_0000_0000_0000 <= Value(b) < 0x8000_0000_0000_0000
    ensures v == if ok then Value(b) else 0
  {
    v, ok := InRange(b, -0x8000_0000_0000_0000, 0x8000_0000_0000_0000);
  }

  method Uint64(b: BigInt?) returns (v: int, ok: bool)
    ensures ok <==> 0 <= Value(b) < 0x1_0000_0000_0000_0000
    ensures v == if ok then Value(b) else 0
  {
    v, ok := InRange(b, 0, 0x1_0000_0000_0000_0000);
  }

  method MarshalJson(b: BigInt?) returns (data: string)
    ensures data == MarshalText(if IsNil(b) then None else Some(Value(b)))
    ensures IsNil(b) ==> data == "null"
    ensures !IsNil(b) ==> |data| > 2 && data[0] as int == 34 == data[|data| - 1] as int
    ensures !IsNil(b) ==> SetString(data[1..|data| - 1]) == Some(Value(b)) && IsIntegerLiteral(data[1..|data| - 1])
  {
    if IsNil(b) {
      return "null";
    }
    SetStringDecimal(b.num.v);
    data := "\"" + Decimal(b.num.v) + "\"";
    assert data[1..|data| - 1] == Decimal(b.num.v);
  }

  /** After a failed SetString the stored value is unspecified; other data is written in place. */
  method UnmarshalJson(b: BigInt, json: Json, data: string, unspecified: int) returns (ok: bool)
    modifies Footprint(b)
    ensures ok <==> UnmarshalText(json, data).Some?
    ensures b.num != null && (ok ==> Value(b) == UnmarshalText(json, data).value)
    ensures if data != "null" && old(b.num) != null then b.num == old(b.num) else fresh(b.num)
  {
    if data == "null" {
      b.num := new Int(0);
      return true;
    }
    if b.num == null {
      b.num := new Int(0);
    }
    var text := json.asString(data);
    if text.None? {
      text := json.asNumber(data);
      if text.None? {
        text := Some(TrimQuotes(data));
      }
    }
    var n := SetString(text.value);
    if n.None? {
      b.num.v := unspecified;
      return false;
    }
    b.num.v := n.value;
    return true;
  }
}
