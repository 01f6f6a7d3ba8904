/** What crosses the process boundary between the Python recogniser and the
    Node helper: JSON documents (together with JavaScript's `undefined`, which
    a property read can yield on the Node side), the two-field record that
    `MMConfig.to_node` writes as one line of JSON, and the decimal rendering
    of counts inside log messages. */
module Channel {

  datatype Option<T> = None | Some(value: T)

  /** A JSON value as Python's `json` and JavaScript's `JSON.parse` see it,
      plus `undefined`. Numbers are exact reals: float rounding is not modelled. */
  datatype Value =
    | JUndefined
    | JNull
    | JBool(b: bool)
    | JNum(n: real)
    | JStr(s: string)
    | JArr(items: seq<Value>)
    | JObj(fields: map<string, Value>)

  /** One message to the host: `{"messageType": ..., "message": ...}`. */
  datatype Record = Record(messageType: string, message: Value)

  /** The JSON object that `to_node` prints for a record: exactly the two
      fields `messageType` and `message`. */
  function ToJson(r: Record): (v: Value)
    ensures v.JObj? && v.fields.Keys == {"messageType", "message"}
    ensures v.fields["messageType"] == JStr(r.messageType)
    ensures v.fields["message"] == r.message
  {
    JObj(map["messageType" := JStr(r.messageType), "message" := r.message])
  }

  /** Reads a record back from a JSON value, if it has the record's shape. */
  function FromJson(v: Value): Option<Record>
  {
    if v.JObj? && "messageType" in v.fields && "message" in v.fields && v.fields["messageType"].JStr?
    then Some(Record(v.fields["messageType"].s, v.fields["message"]))
    else None
  }

  lemma ToJsonRoundTrip(r: Record)
    ensures FromJson(ToJson(r)) == Some(r)
  {
  }

  predicate IsDigit(c: char)
  {
    '0' <= c <= '9'
  }

  predicate AllDigits(s: string)
  {
    forall i :: 0 <= i < |s| ==> IsDigit(s[i])
  }

  function DigitChar(d: nat): (c: char)
    requires d < 10
    ensures IsDigit(c) && c as int - '0' as int == d
  {
    ('0' as int + d) as char
  }

  /** Python's `"{}".format(n)` for a non-negative integer. */
  function Decimal(n: nat): (s: string)
    ensures 1 <= |s| && AllDigits(s)
    ensures |s| > 1 ==> s[0] != '0'
  {
    if n < 10 then [DigitChar(n)] else Decimal(n / 10) + [DigitChar(n % 10)]
  }

  /** The number a string of decimal digits denotes. */
  function ParseDecimal(s: string): nat
    requires AllDigits(s)
  {
    if s == [] then 0 else ParseDecimal(s[..|s| - 1]) * 10 + (s[|s| - 1] as int - '0' as int)
  }

  lemma {:induction false} ParseDecimalInvertsDecimal(n: nat)
    ensures ParseDecimal(Decimal(n)) == n
  {
    if n >= 10 {
      var s := Decimal(n);
      assert s[..|s| - 1] == Decimal(n / 10);
      ParseDecimalInvertsDecimal(n / 10);
    }
  }
}
