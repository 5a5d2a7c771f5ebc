/** First-key extraction: how a command or script descriptor names the key
    that routes it to a hash slot. */
module KeyLocator {
  import opened Results

  /** The `FIRST_KEY_INDEX` member of a command or script descriptor: absent,
      a number, or a function over the call-site arguments `Args`. */
  datatype FirstKeyIndex<!Args> =
    | NoIndex
    | Index(position: int)
    | Locator(locate: Args -> Option<string>)

  /** `#extractFirstKey`: no locator gives no key; a numeric locator reads the
      ENCODED wire arguments, where an index outside them reads `undefined`;
      a function locator is applied to the ORIGINAL arguments. */
  function ExtractFirstKey<Args>(firstKeyIndex: FirstKeyIndex<Args>, originalArgs: Args, redisArgs: seq<string>): (key: Option<string>)
    ensures firstKeyIndex.NoIndex? ==> key == None
    ensures firstKeyIndex.Index? ==>
      (key.Some? <==> 0 <= firstKeyIndex.position < |redisArgs|)
    ensures firstKeyIndex.Index? && key.Some? ==> key.value == redisArgs[firstKeyIndex.position]
    ensures firstKeyIndex.Locator? ==> key == firstKeyIndex.locate(originalArgs)
  {
    match firstKeyIndex
    case NoIndex => None
    case Index(i) => if 0 <= i < |redisArgs| then Some(redisArgs[i]) else None
    case Locator(f) => f(originalArgs)
  }

  /** A function locator never looks at the encoded arguments, and a numeric
      locator never looks at the original ones. */
  lemma ExtractFirstKeyReadsOneSide<Args>(firstKeyIndex: FirstKeyIndex<Args>, originalArgs: Args, otherOriginalArgs: Args, redisArgs: seq<string>, otherRedisArgs: seq<string>)
    ensures firstKeyIndex.Locator? ==>
      ExtractFirstKey(firstKeyIndex, originalArgs, redisArgs) == ExtractFirstKey(firstKeyIndex, originalArgs, otherRedisArgs)
    ensures !firstKeyIndex.Locator? ==>
      ExtractFirstKey(firstKeyIndex, originalArgs, redisArgs) == ExtractFirstKey(firstKeyIndex, otherOriginalArgs, redisArgs)
  {
  }
}
