/** The pure parts of the serial handler: parsing a `key=value` or
    `key:value` line, classifying a value as integer, float or string, and
    building the property-post document from the collected records. */
module KeyValue {
  import opened Wrappers
  import opened Strings
  import opened Documents

  /** A collected record; `isValid` is set for every record the handler adds. */
  datatype KeyValueData = KeyValueData(key: string, value: string, isValid: bool)

  /** What `validateKeyValueFormat` hands back through its out-parameters. */
  datatype Parsed = Parsed(key: string, value: string, separator: char)

  predicate IsKeyChar(c: char) { IsAlnum(c) || c == '_' || c == '-' || c == '.' }

  /** Every character of `key` is allowed in a key (stated over prefixes,
      the way the handler scans it). */
  predicate KeyChars(key: string)
    decreases |key|
  {
    key == [] || (KeyChars(key[..|key| - 1]) && IsKeyChar(key[|key| - 1]))
  }

  lemma {:induction false} KeyCharsEverywhere(key: string)
    ensures KeyChars(key) <==> forall i :: 0 <= i < |key| ==> IsKeyChar(key[i])
    decreases |key|
  {
    if key != [] {
      var init := key[..|key| - 1];
      KeyCharsEverywhere(init);
      assert forall i :: 0 <= i < |init| ==> init[i] == key[i];
    }
  }

  predicate ValidKey(key: string) {
    key != [] && KeyChars(key)
  }

  /** What `validateKeyValueFormat` accepts: the separator is '=' when its
      first index is positive, else ':' when its first index is positive; key
      and value are the trimmed text before and after it; the key must be
      non-empty and made of letters, digits, '_', '-' and '.'. */
  function ParseKeyValue(data: string): (r: Option<Parsed>)
    ensures r.Some? ==> ValidKey(r.value.key) && Unpadded(r.value.value)
    ensures r.Some? ==> r.value.separator == '=' || r.value.separator == ':'
  {
    var equalPos := IndexOf(data, '=');
    var colonPos := IndexOf(data, ':');
    var sepPos := if equalPos > 0 then equalPos else colonPos;
    if sepPos <= 0 then None
    else
      var key := Trim(data[..sepPos]);
      var value := Trim(data[sepPos + 1..]);
      if !ValidKey(key) then None
      else Some(Parsed(key, value, data[sepPos]))
  }

  /** `validateKeyValueFormat`, with its out-parameters as results: the
      separator search and trimming, then the scan of the key. */
  method ValidateKeyValueFormat(data: string) returns (valid: bool, key: string, value: string, separator: char)
    ensures valid <==> ParseKeyValue(data).Some?
    ensures valid ==> ParseKeyValue(data) == Some(Parsed(key, value, separator))
  {
    var equalPos := IndexOf(data, '=');
    var colonPos := IndexOf(data, ':');
    if equalPos > 0 {
      separator := '=';
      key := data[..equalPos];
      value := data[equalPos + 1..];
    } else if colonPos > 0 {
      separator := ':';
      key := data[..colonPos];
      value := data[colonPos + 1..];
    } else {
      return false, [], [], ' ';
    }
    key := Trim(key);
    value := Trim(value);
    if |key| == 0 {
      return false, key, value, separator;
    }
    var i := 0;
    while i < |key|
      invariant 0 <= i <= |key|
      invariant KeyChars(key[..i])
    {
      assert key[..i + 1][..i] == key[..i];
      if !IsKeyChar(key[i]) {
        assert !KeyChars(key) by {
          KeyCharsEverywhere(key);
        }
        return false, key, value, separator;
      }
      i := i + 1;
    }
    assert key[..i] == key;
    return true, key, value, separator;
  }

  /** An accepted line is split at its first '=' when that is not at the
      front, and otherwise at its first ':'; key and value are the trimmed
      text on either side. */
  lemma ValidateExtracts(data: string, p: Parsed)
    requires ParseKeyValue(data) == Some(p)
    ensures IndexOf(data, '=') > 0 ==> p.separator == '='
    ensures IndexOf(data, '=') > 0 ==> p.key == Trim(data[..IndexOf(data, '=')])
    ensures IndexOf(data, '=') > 0 ==> p.value == Trim(data[IndexOf(data, '=') + 1..])
    ensures IndexOf(data, '=') <= 0 ==> p.separator == ':' && IndexOf(data, ':') > 0
    ensures IndexOf(data, '=') <= 0 ==> p.key == Trim(data[..IndexOf(data, ':')])
    ensures IndexOf(data, '=') <= 0 ==> p.value == Trim(data[IndexOf(data, ':') + 1..])
  {
  }

  /** A line with no usable separator, or whose key is empty or holds a
      character outside the key alphabet, is rejected. */
  lemma ValidateRejects(data: string)
    ensures IndexOf(data, '=') <= 0 && IndexOf(data, ':') <= 0 ==> ParseKeyValue(data).None?
    ensures IndexOf(data, '=') > 0 && !ValidKey(Trim(data[..IndexOf(data, '=')])) ==>
      ParseKeyValue(data).None?
    ensures IndexOf(data, '=') <= 0 && IndexOf(data, ':') > 0 && !ValidKey(Trim(data[..IndexOf(data, ':')])) ==>
      ParseKeyValue(data).None?
  {
  }

  lemma FirstIndexAt(s: string, c: char, i: nat)
    requires i < |s| && s[i] == c && c !in s[..i]
    ensures IndexOf(s, c) == i
  {
    assert s[i] in s;
    IndexOfFirst(s, c);
    assert forall k :: 0 <= k < i ==> s[k] != c by {
      forall k | 0 <= k < i ensures s[k] != c { assert s[..i][k] == s[k]; }
    }
  }

  /** A well-formed key and an unpadded value written as `key=value` parse
      back to exactly that key and value; so does `key:value` when the value
      holds no '=' (which would otherwise take precedence). */
  lemma KeyValueRoundTrip(key: string, value: string, separator: char)
    requires ValidKey(key) && Unpadded(value)
    requires separator == '=' || (separator == ':' && '=' !in value)
    ensures ParseKeyValue(key + [separator] + value) == Some(Parsed(key, value, separator))
  {
    var data := key + [separator] + value;
    KeyCharsEverywhere(key);
    assert data[..|key|] == key && data[|key| + 1..] == value;
    assert forall i :: 0 <= i < |key| ==> key[i] != '=' && key[i] != ':' by {
      forall i | 0 <= i < |key| ensures key[i] != '=' && key[i] != ':' {
        assert IsKeyChar(key[i]);
      }
    }
    FirstIndexAt(data, separator, |key|);
    if separator == ':' {
      assert '=' !in data;
    }
    assert Unpadded(key) by {
      assert IsKeyChar(key[0]) && IsKeyChar(key[|key| - 1]);
    }
    TrimUnpadded(key);
    TrimUnpadded(value);
  }

  // ---------------------------------------------------------- value typing

  predicate IsDigitOrMinus(c: char) { IsDigit(c) || c == '-' }

  /** What `isInteger` accepts: a non-empty run of digits and '-'. */
  predicate IntegerText(value: string) {
    |value| > 0 && forall k :: 0 <= k < |value| ==> IsDigitOrMinus(value[k])
  }

  /** What `isFloat` accepts: exactly one '.', everything else digits and
      '-', and more than one character. */
  predicate FloatText(value: string) {
    |value| > 1 && CountOf(value, '.') == 1
    && forall k :: 0 <= k < |value| ==> value[k] == '.' || IsDigitOrMinus(value[k])
  }

  /** `isInteger`. */
  method IsInteger(value: string) returns (b: bool)
    ensures b == IntegerText(value)
  {
    var j := 0;
    while j < |value|
      invariant 0 <= j <= |value|
      invariant forall k :: 0 <= k < j ==> IsDigitOrMinus(value[k])
    {
      if !IsDigit(value[j]) && value[j] != '-' {
        return false;
      }
      j := j + 1;
    }
    return |value| > 0;
  }

  /** `isFloat`. */
  method IsFloat(value: string) returns (b: bool)
    ensures b == FloatText(value)
  {
    var dotCount := 0;
    var j := 0;
    while j < |value|
      invariant 0 <= j <= |value|
      invariant dotCount == CountOf(value[..j], '.')
      invariant forall k :: 0 <= k < j ==> value[k] == '.' || IsDigitOrMinus(value[k])
    {
      assert value[..j + 1][..j] == value[..j];
      var c := value[j];
      if c == '.' {
        dotCount := dotCount + 1;
      } else if !IsDigit(c) && c != '-' {
        return false;
      }
      j := j + 1;
    }
    assert value[..j] == value;
    return dotCount == 1 && |value| > 1;
  }

  /** No value is both an integer and a float. */
  lemma IntegerNotFloat(value: string)
    ensures !(IntegerText(value) && FloatText(value))
  {
    if IntegerText(value) {
      assert forall k :: 0 <= k < |value| ==> value[k] != '.' by {
        forall k | 0 <= k < |value| ensures value[k] != '.' {
          assert IsDigitOrMinus(value[k]);
        }
      }
    }
  }

  /** The JSON type an entry's value is given: Int, else Float, else String. */
  function TypeValue(value: string): (t: TypedValue)
    ensures t.IntValue? <==> IntegerText(value)
    ensures t.FloatValue? <==> FloatText(value) && !IntegerText(value)
  {
    if IntegerText(value) then IntValue(ToInt(value))
    else if FloatText(value) then FloatValue(value)
    else StringValue(value)
  }

  /** The decimal text of any integer is typed as that integer. */
  lemma TypeValueOfInteger(i: int)
    ensures TypeValue(IntToString(i)) == IntValue(i)
  {
    var s := IntToString(i);
    if i < 0 {
      assert forall k :: 1 <= k < |s| ==> s[k] == NatToString(-i)[k - 1];
    }
    assert IntegerText(s);
    ToIntRoundTrip(i);
  }

  // ---------------------------------------------------------------- payload

  /** Every record is marked valid (stated over prefixes, the way the
      buffer grows). */
  predicate AllValid(records: seq<KeyValueData>)
    decreases |records|
  {
    records == [] || (AllValid(records[..|records| - 1]) && records[|records| - 1].isValid)
  }

  lemma AppendValid(records: seq<KeyValueData>, r: KeyValueData)
    requires AllValid(records) && r.isValid
    ensures AllValid(records + [r])
  {
    assert (records + [r])[..|records|] == records;
  }

  /** The `params` of the post document: each valid record in buffer order,
      its value typed. Records with a repeated key all appear here; how the
      JSON library merges repeated keys is not modelled. */
  function PayloadParams(records: seq<KeyValueData>): seq<(string, TypedValue)>
    decreases |records|
  {
    if records == [] then []
    else
      var kv := records[|records| - 1];
      PayloadParams(records[..|records| - 1])
        + (if kv.isValid then [(kv.key, TypeValue(kv.value))] else [])
  }

  /** `generateJsonPayload`: the clock as id, version "1.0", and the params. */
  function GenerateJsonPayload(records: seq<KeyValueData>, now: nat): (t: Telemetry)
    ensures t.id != [] && t.version == "1.0"
  {
    Telemetry(NatToString(now), "1.0", PayloadParams(records))
  }

  /** With every record valid (as the handler keeps them), the payload has one
      entry per record, in order, with the record's key and its typed value. */
  lemma {:induction false} PayloadMatchesRecords(records: seq<KeyValueData>)
    requires AllValid(records)
    ensures |PayloadParams(records)| == |records|
    ensures forall k :: 0 <= k < |records| ==>
      PayloadParams(records)[k] == (records[k].key, TypeValue(records[k].value))
    decreases |records|
  {
    if records != [] {
      PayloadMatchesRecords(records[..|records| - 1]);
    }
  }

  /** "3" is typed as an integer, "1.5" as a float and "x" as a string. */
  lemma TypeValueExamples()
    ensures TypeValue("3") == IntValue(3)
    ensures TypeValue("1.5") == FloatValue("1.5")
    ensures TypeValue("x") == StringValue("x")
  {
    TypeValueOfInteger(3);
    assert IntToString(3) == "3";
    assert "1.5"[..2] == "1." && "1."[..1] == "1";
    assert CountOf("1.5", '.') == 1;
    assert !IsDigitOrMinus("1.5"[1]);
    assert !IsDigitOrMinus("x"[0]);
  }
}
