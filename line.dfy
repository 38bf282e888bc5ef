/**
 * One field of a journal export record, and the decoder that turns a
 * plain-text `key=value` line into such a field.
 */
module Lines {
  import opened Wrappers

  /** The character that separates the key from the value in a text line. */
  const Separator: char := '='

  /** A field: a key and its value, both kept as text. */
  datatype Line = Line(key: string, value: string) {

    /** The key, unchanged. */
    function GetKey(): string { key }

    /** The value, unchanged. */
    function GetValue(): string { value }
  }

  /** Builds a field that stores the given key and value verbatim. */
  function New(key: string, value: string): (l: Line)
    ensures l.GetKey() == key && l.GetValue() == value
  {
    Line(key, value)
  }

  /** Why a text line could not be decoded; carries the offending input. */
  datatype LineError = InvalidLine(input: string)

  /** The position of the first separator in `s`, if there is one. */
  function FindSeparator(s: string): (r: Option<nat>)
    ensures r.None? <==> Separator !in s
    ensures r.Some? ==> r.value < |s| && s[r.value] == Separator && Separator !in s[..r.value]
  {
    if |s| == 0 then None
    else if s[0] == Separator then Some(0)
    else
      match FindSeparator(s[1..])
      case None => None
      case Some(i) =>
        assert s[..i + 1] == [s[0]] + s[1..][..i];
        Some(i + 1)
  }

  /**
   * Decodes one text line: the key is everything before the first
   * separator, the value everything after it. A line without a separator
   * is malformed.
   */
  function FromString(s: string): (r: Result<Line, LineError>)
    ensures r.Success? <==> Separator in s
    ensures r.Failure? ==> r.error == InvalidLine(s)
    ensures r.Success? ==> Separator !in r.value.key
    ensures r.Success? ==> r.value.key + [Separator] + r.value.value == s
  {
    match FindSeparator(s)
    case None => Failure(InvalidLine(s))
    case Some(i) =>
      assert s == s[..i] + [Separator] + s[i + 1..];
      Success(Line(s[..i], s[i + 1..]))
  }

  /**
   * Decodes a borrowed line: it is copied into an owned string and handed to
   * FromString, so it decodes (or fails) exactly as the owned string would.
   */
  function FromStr(s: string): (r: Result<Line, LineError>)
    ensures r.Success? <==> Separator in s
    ensures r.Failure? ==> r.error == InvalidLine(s)
    ensures r.Success? ==> Separator !in r.value.key
    ensures r.Success? ==> r.value.key + [Separator] + r.value.value == s
  {
    var owned := s;
    FromString(owned)
  }

  /** The text line a field is written as: key, separator, value. */
  function Encode(l: Line): (s: string)
    ensures |s| == |l.key| + 1 + |l.value|
  {
    l.key + [Separator] + l.value
  }

  /**
   * The split is unique: whenever `s` is some separator-free key, the
   * separator and a value, FromString returns exactly that key and value.
   * Any later separators therefore belong to the value.
   */
  lemma SplitAtFirstSeparator(s: string, key: string, value: string)
    requires Separator !in key
    requires s == key + [Separator] + value
    ensures FromString(s) == Success(Line(key, value))
  {
    var k := |key|;
    assert s[k] == Separator;
    assert s[..k] == key;
    assert s[k + 1..] == value;
  }

  /** Decoding undoes encoding exactly when the key holds no separator. */
  lemma DecodeEncode(l: Line)
    ensures FromString(Encode(l)) == Success(l) <==> Separator !in l.key
  {
    if Separator !in l.key {
      SplitAtFirstSeparator(Encode(l), l.key, l.value);
    }
  }

  /** Encoding undoes decoding: every decoded line re-encodes to its input. */
  lemma EncodeDecode(s: string)
    requires FromString(s).Success?
    ensures Encode(FromString(s).value) == s
  {
  }

  /** The owned and the borrowed conversion agree on every input. */
  lemma FromStrAgrees(s: string)
    ensures FromStr(s) == FromString(s)
  {
  }

  /** "key=value" decodes to the field ("key", "value"). */
  lemma ExampleKeyValue()
    ensures FromStr("key=value") == Success(New("key", "value"))
  {
    SplitAtFirstSeparator("key=value", "key", "value");
  }

  /** Only the first separator splits: later ones stay in the value. */
  lemma ExampleMoreSeparators()
    ensures FromStr("key=value=value1=value2") == Success(New("key", "value=value1=value2"))
  {
    SplitAtFirstSeparator("key=value=value1=value2", "key", "value=value1=value2");
  }

  /** A line without a separator is rejected. */
  lemma ExampleNoSeparator()
    ensures FromStr("key!value") == Failure(InvalidLine("key!value"))
  {
    var s := "key!value";
    assert forall i | 0 <= i < |s| :: s[i] != Separator;
  }
}
