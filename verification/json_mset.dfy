/** The argument encoder of RedisJSON's `JSON.MSET`: a list of
    (key, path, value) triples becomes one flat token list. The JSON
    serialisation of a value is the parameter `toJson`. */
module JsonMset {
  import opened Results

  /** The command name, always the first wire token. */
  const COMMAND_NAME: string := "JSON.MSET"

  /** The wire position of the routing key: the first triple's key. */
  const FIRST_KEY_INDEX: int := 1

  datatype KeyPathValue<J> = KeyPathValue(key: string, path: string, value: J)

  /** `transformArguments`: the command name, then for each triple in input
      order its key, its path and its serialised value. */
  function TransformArguments<J>(toJson: J -> string, keyPathValues: seq<KeyPathValue<J>>): (args: seq<string>)
    ensures |args| == 1 + 3 * |keyPathValues|
    ensures args[0] == COMMAND_NAME
    ensures forall i :: 0 <= i < |keyPathValues| ==>
      && args[1 + 3 * i] == keyPathValues[i].key
      && args[2 + 3 * i] == keyPathValues[i].path
      && args[3 + 3 * i] == toJson(keyPathValues[i].value)
  {
    if |keyPathValues| == 0 then [COMMAND_NAME]
    else
      var last := keyPathValues[|keyPathValues| - 1];
      TransformArguments(toJson, keyPathValues[..|keyPathValues| - 1]) + [last.key, last.path, toJson(last.value)]
  }

  /** Each triple with its value replaced by the value's wire text. */
  function SerialiseValues<J>(toJson: J -> string, keyPathValues: seq<KeyPathValue<J>>): (wire: seq<KeyPathValue<string>>)
    ensures |wire| == |keyPathValues|
    ensures forall i :: 0 <= i < |wire| ==>
      wire[i] == KeyPathValue(keyPathValues[i].key, keyPathValues[i].path, toJson(keyPathValues[i].value))
  {
    seq(|keyPathValues|, i requires 0 <= i < |keyPathValues| =>
      KeyPathValue(keyPathValues[i].key, keyPathValues[i].path, toJson(keyPathValues[i].value)))
  }

  /** The identity serialisation, for triples whose values are already text. */
  function Verbatim(text: string): string
  {
    text
  }

  /** Reads the triples back from a token list after the command name; the
      inverse of the loop in `TransformArguments`. */
  function ParseTriples(tokens: seq<string>): (r: Option<seq<KeyPathValue<string>>>)
    ensures r.Some? ==> 3 * |r.value| == |tokens|
    decreases |tokens|
  {
    if |tokens| == 0 then Some([])
    else if |tokens| < 3 then None
    else
      var n := |tokens|;
      match ParseTriples(tokens[..n - 3])
      case None => None
      case Some(front) => Some(front + [KeyPathValue(tokens[n - 3], tokens[n - 2], tokens[n - 1])])
  }

  /** The decoder accepts exactly the token lists made of whole triples. */
  lemma {:induction false} ParseTriplesAccepts(tokens: seq<string>)
    ensures ParseTriples(tokens).Some? <==> |tokens| % 3 == 0
    decreases |tokens|
  {
    if |tokens| >= 3 {
      ParseTriplesAccepts(tokens[..|tokens| - 3]);
    }
  }

  /** Decodes a whole `JSON.MSET` token list into its wire triples. */
  function ParseArguments(args: seq<string>): Option<seq<KeyPathValue<string>>>
  {
    if |args| >= 1 && args[0] == COMMAND_NAME then ParseTriples(args[1..]) else None
  }

  /** Round trip: decoding the encoder's output recovers every key and path
      unchanged and every value as its serialisation, in input order. */
  lemma {:induction false} ParseTransformArguments<J>(toJson: J -> string, keyPathValues: seq<KeyPathValue<J>>)
    ensures ParseArguments(TransformArguments(toJson, keyPathValues)) == Some(SerialiseValues(toJson, keyPathValues))
    decreases |keyPathValues|
  {
    var args := TransformArguments(toJson, keyPathValues);
    if |keyPathValues| == 0 {
      assert args[1..] == [];
    } else {
      var n := |keyPathValues|;
      var front := keyPathValues[..n - 1];
      var last := keyPathValues[n - 1];
      ParseTransformArguments(toJson, front);
      var frontArgs := TransformArguments(toJson, front);
      assert args == frontArgs + [last.key, last.path, toJson(last.value)];
      var tokens := args[1..];
      assert tokens[..|tokens| - 3] == frontArgs[1..];
      assert tokens[|tokens| - 3..] == [last.key, last.path, toJson(last.value)];
      assert SerialiseValues(toJson, keyPathValues)
          == SerialiseValues(toJson, front) + [KeyPathValue(last.key, last.path, toJson(last.value))];
    }
  }

  /** Converse round trip: every token list the decoder accepts is exactly
      what the encoder produces for the decoded triples. */
  lemma {:induction false} TransformParsedArguments(args: seq<string>)
    requires ParseArguments(args).Some?
    ensures TransformArguments(Verbatim, ParseArguments(args).value) == args
  {
    TransformParsedTriples(args[1..]);
    assert args == [COMMAND_NAME] + args[1..];
  }

  lemma {:induction false} TransformParsedTriples(tokens: seq<string>)
    requires ParseTriples(tokens).Some?
    ensures TransformArguments(Verbatim, ParseTriples(tokens).value) == [COMMAND_NAME] + tokens
    decreases |tokens|
  {
    if |tokens| > 0 {
      var n := |tokens|;
      assert n >= 3;
      var rest := tokens[..n - 3];
      var front := ParseTriples(rest).value;
      TransformParsedTriples(rest);
      var last := KeyPathValue(tokens[n - 3], tokens[n - 2], tokens[n - 1]);
      assert ParseTriples(tokens).value == front + [last];
      TransformSnoc(front, last);
      var tail := [last.key, last.path, last.value];
      assert ([COMMAND_NAME] + rest) + tail == [COMMAND_NAME] + (rest + tail);
      SplitLastThree(tokens);
    }
  }

  lemma SplitLastThree(tokens: seq<string>)
    requires |tokens| >= 3
    ensures tokens == tokens[..|tokens| - 3] + [tokens[|tokens| - 3], tokens[|tokens| - 2], tokens[|tokens| - 1]]
  {
  }

  /** One step of the encoder's loop: appending a triple appends its three tokens. */
  lemma TransformSnoc(front: seq<KeyPathValue<string>>, last: KeyPathValue<string>)
    ensures TransformArguments(Verbatim, front + [last])
         == TransformArguments(Verbatim, front) + [last.key, last.path, last.value]
  {
    assert (front + [last])[..|front|] == front;
  }

  /** Only values go through the serialiser: encoding with `toJson` is
      encoding the pre-serialised triples verbatim. */
  lemma {:induction false} KeysAndPathsPassThrough<J>(toJson: J -> string, keyPathValues: seq<KeyPathValue<J>>)
    ensures TransformArguments(toJson, keyPathValues) == TransformArguments(Verbatim, SerialiseValues(toJson, keyPathValues))
  {
    var a := TransformArguments(toJson, keyPathValues);
    var b := TransformArguments(Verbatim, SerialiseValues(toJson, keyPathValues));
    assert |a| == |b|;
    forall k | 0 <= k < |a|
      ensures a[k] == b[k]
    {
      if k > 0 {
        var i := (k - 1) / 3;
        assert 0 <= i < |keyPathValues|;
        var wire := SerialiseValues(toJson, keyPathValues);
        assert wire[i] == KeyPathValue(keyPathValues[i].key, keyPathValues[i].path, toJson(keyPathValues[i].value));
        assert k == 1 + 3 * i || k == 2 + 3 * i || k == 3 + 3 * i;
      }
    }
  }
}
