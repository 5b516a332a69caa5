/** The JSON document a message row keeps about its attachment, and what survives
    reading it back. */
module Metadata {
  import opened Common

  datatype JsonValue = JsonString(text: string) | JsonNumber(number: int)
  type Json = map<string, JsonValue>

  /** The record that Upload saves and SendMessage consumes. */
  datatype UploadRecord = UploadRecord(uploader: UserId, objectKey: string, mime: string, filename: string, size: nat)

  function ObjectKey(attachment: string): (key: string)
    ensures key != ""
  {
    "attachments/" + attachment
  }

  lemma ObjectKeyInjective(a: string, b: string)
    ensures ObjectKey(a) == ObjectKey(b) <==> a == b
  {
    assert ObjectKey(a)[|"attachments/"|..] == a;
    assert ObjectKey(b)[|"attachments/"|..] == b;
  }

  function Describe(attachment: string, record: UploadRecord): Json {
    map["attachment_id" := JsonString(attachment),
        "object_key" := JsonString(record.objectKey),
        "filename" := JsonString(record.filename),
        "mime_type" := JsonString(record.mime),
        "size" := JsonNumber(record.size)]
  }

  // ---- Numbers: JSON decoding turns every number into a float64. ----

  const TWO_TO_53: nat := 0x20_0000_0000_0000

  /** The distance between neighbouring float64 values around n. */
  function Spacing(n: nat): (u: nat)
    ensures u > 0
  {
    if n < TWO_TO_53 then 1 else 2 * Spacing(n / 2)
  }

  /** Round to nearest, ties to even, with a 53 bit significand. */
  function RoundNat(n: nat): int {
    var u := Spacing(n);
    var q, r := n / u, n % u;
    if 2 * r < u || (2 * r == u && q % 2 == 0) then q * u else (q + 1) * u
  }

  function ToFloat64(n: int): int {
    if n < 0 then -RoundNat(-n) else RoundNat(n)
  }

  lemma QuotientBounds(n: nat, u: nat)
    requires u > 0
    ensures (n / u) * u == n - n % u
    ensures (n / u + 1) * u == n - n % u + u
  {
  }

  /** An integer comes back unchanged exactly when it is a multiple of the spacing at
      its magnitude. */
  lemma Float64Exact(n: int)
    ensures var m: nat := if n < 0 then -n else n;
            ToFloat64(n) == n <==> m % Spacing(m) == 0
  {
    var m: nat := if n < 0 then -n else n;
    QuotientBounds(m, Spacing(m));
  }

  /** So every integer up to 2^53 survives. */
  lemma SmallNumbersExact(n: nat)
    requires n <= TWO_TO_53
    ensures ToFloat64(n) == n
  {
    Float64Exact(n);
    if n == TWO_TO_53 {
      assert Spacing(n) == 2;
    }
  }

  /** The bound is the best one: the next integer does not survive. */
  lemma NextNumberRounds()
    ensures ToFloat64(TWO_TO_53 + 1) == TWO_TO_53
  {
    assert Spacing(TWO_TO_53 + 1) == 2;
  }

  /** The spacing is a power of two, and 53 bits reach from it to the number. */
  lemma {:induction false} SpacingFits(n: nat) returns (k: nat)
    ensures Spacing(n) == Power(k) && n < TWO_TO_53 * Power(k)
    ensures k > 0 ==> TWO_TO_53 * Power(k) <= 2 * n
  {
    if n < TWO_TO_53 {
      k := 0;
    } else {
      k := SpacingFits(n / 2);
      k := k + 1;
    }
  }

  /** 2 to this power. */
  function Power(k: nat): nat {
    if k == 0 then 1 else 2 * Power(k - 1)
  }

  lemma RoundedAt(n: nat, u: nat) returns (q: nat)
    requires u == Spacing(n)
    ensures RoundNat(n) == q * u
    ensures q == n / u || q == n / u + 1
    ensures q == n / u <==> 2 * (n % u) < u || (2 * (n % u) == u && (n / u) % 2 == 0)
  {
    q := if 2 * (n % u) < u || (2 * (n % u) == u && (n / u) % 2 == 0) then n / u else n / u + 1;
  }

  lemma Parity(n: nat)
    ensures n % 2 == 0 <==> (n + 1) % 2 != 0
  {
  }

  /** What a natural number comes back as is a multiple of the spacing, and none is
      nearer; of two as near it is the even one. A negative one comes back likewise. */
  lemma RoundsToNearest(n: nat) returns (q: nat)
    ensures var u := Spacing(n); var r := ToFloat64(n);
            && r == q * u
            && 2 * (r - n) <= u && 2 * (n - r) <= u
            && (2 * (r - n) == u || 2 * (n - r) == u ==> q % 2 == 0)
    ensures ToFloat64(0 - n) == 0 - ToFloat64(n)
  {
    var u := Spacing(n);
    q := RoundedAt(n, u);
    QuotientBounds(n, u);
    Parity(n / u);
  }

  function DecodeValue(v: JsonValue): JsonValue {
    match v
    case JsonString(s) => v
    case JsonNumber(n) => JsonNumber(ToFloat64(n))
  }

  /** Unmarshalling a document into a generic map. */
  function Decode(j: Json): Json {
    map k | k in j :: DecodeValue(j[k])
  }

  function GetString(m: Json, key: string): string {
    if key in m && m[key].JsonString? then m[key].text else ""
  }

  function GetInt64(m: Json, key: string): int {
    if key in m && m[key].JsonNumber? then m[key].number else 0
  }

  /** `metadata->>'attachment_id'`, or NULL. */
  function AttachmentOf(m: Option<Json>): Option<string> {
    if m.Some? && "attachment_id" in m.value && m.value["attachment_id"].JsonString?
    then Some(m.value["attachment_id"].text)
    else None
  }

  lemma DescribeLookup(attachment: string, record: UploadRecord)
    ensures var d := Describe(attachment, record);
            && "attachment_id" in d && d["attachment_id"] == JsonString(attachment)
            && "object_key" in d && d["object_key"] == JsonString(record.objectKey)
            && "filename" in d && d["filename"] == JsonString(record.filename)
            && "mime_type" in d && d["mime_type"] == JsonString(record.mime)
            && "size" in d && d["size"] == JsonNumber(record.size)
  {
  }

  lemma DecodeStrings(j: Json, key: string)
    ensures GetString(Decode(j), key) == GetString(j, key)
  {
  }

  lemma DecodeNumbers(j: Json, key: string)
    requires 0 <= GetInt64(j, key) <= TWO_TO_53
    ensures GetInt64(Decode(j), key) == GetInt64(j, key)
  {
    if key in j && j[key].JsonNumber? {
      SmallNumbersExact(j[key].number);
    }
  }

  /** Reading a description back gives the identifier and the record it was made
      from; for the size this takes the float64 bound. */
  lemma DescribeRoundTrip(attachment: string, record: UploadRecord)
    ensures var m := Decode(Describe(attachment, record));
            && GetString(m, "attachment_id") == attachment
            && GetString(m, "object_key") == record.objectKey
            && GetString(m, "filename") == record.filename
            && GetString(m, "mime_type") == record.mime
            && (record.size <= TWO_TO_53 ==> GetInt64(m, "size") == record.size)
    ensures AttachmentOf(Some(Describe(attachment, record))) == Some(attachment)
  {
    var d := Describe(attachment, record);
    DescribeLookup(attachment, record);
    DecodeStrings(d, "attachment_id");
    DecodeStrings(d, "object_key");
    DecodeStrings(d, "filename");
    DecodeStrings(d, "mime_type");
    if record.size <= TWO_TO_53 {
      DecodeNumbers(d, "size");
    }
  }
}
