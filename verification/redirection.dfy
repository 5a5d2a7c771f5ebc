/** Classification of a node's error reply into the two redirect signals of
    the cluster protocol, `ASK <slot> <host:port>` and `MOVED <slot> <host:port>`,
    or no redirect at all. */
module Redirection {
  import opened Text

  /** What the handler makes of an error message. Only the ASK branch reads
      the target address; the MOVED branch ignores it. */
  datatype Redirect = NotRedirect | Ask(url: string) | Moved

  /** The ASK target: the text after the last space, or the whole message
      when it has no space. It is the longest space-free suffix. */
  function AskTarget(message: string): (url: string)
    ensures ' ' !in url
    ensures |url| <= |message| && message[|message| - |url|..] == url
    ensures ' ' in message ==> |url| < |message| && message[|message| - |url| - 1] == ' '
    ensures ' ' !in message ==> url == message
  {
    var i := LastIndexOf(message, ' ');
    var suffix := message[i + 1..];
    assert ' ' !in suffix by {
      assert forall k :: 0 <= k < |suffix| ==> suffix[k] == message[i + 1 + k];
    }
    assert i == -1 ==> suffix == message;
    suffix
  }

  /** The prefix tests in the order the handler applies them: ASK first,
      then MOVED, anything else is not a redirect. */
  function Classify(message: string): (r: Redirect)
    ensures r.Ask? <==> StartsWith(message, "ASK")
    ensures r.Ask? ==> r.url == AskTarget(message)
    ensures r.Moved? <==> StartsWith(message, "MOVED")
    ensures r.NotRedirect? <==> !StartsWith(message, "ASK") && !StartsWith(message, "MOVED")
  {
    if StartsWith(message, "ASK") then
      assert message[0] == 'A';
      Ask(AskTarget(message))
    else if StartsWith(message, "MOVED") then Moved
    else NotRedirect
  }

  /** The text a node sends for a mid-migration key. */
  function AskMessage(slot: string, url: string): string
  {
    "ASK " + slot + " " + url
  }

  /** The text a node sends for a key whose slot has a new owner. */
  function MovedMessage(slot: string, url: string): string
  {
    "MOVED " + slot + " " + url
  }

  /** Parsing recovers a space-free address appended after a space,
      whatever precedes it. */
  lemma AskTargetAfterSpace(head: string, url: string)
    requires ' ' !in url
    ensures AskTarget(head + " " + url) == url
  {
    var m := head + " " + url;
    var i := LastIndexOf(m, ' ');
    assert m[|head|] == ' ';
    assert forall j :: |head| < j < |m| ==> m[j] == url[j - |head| - 1];
    assert i == |head|;
    assert m[i + 1..] == url;
  }

  /** A well-formed ASK reply is classified as ASK to exactly its address. */
  lemma ClassifyAskMessage(slot: string, url: string)
    requires ' ' !in url
    ensures Classify(AskMessage(slot, url)) == Ask(url)
  {
    StartsWithAppend("ASK", " " + slot + " " + url);
    assert AskMessage(slot, url) == "ASK" + (" " + slot + " " + url);
    assert AskMessage(slot, url) == ("ASK " + slot) + " " + url;
    AskTargetAfterSpace("ASK " + slot, url);
  }

  /** A well-formed MOVED reply is classified as MOVED. */
  lemma ClassifyMovedMessage(slot: string, url: string)
    ensures Classify(MovedMessage(slot, url)) == Moved
  {
    StartsWithAppend("MOVED", " " + slot + " " + url);
    assert MovedMessage(slot, url) == "MOVED" + (" " + slot + " " + url);
    assert !StartsWith(MovedMessage(slot, url), "ASK") by {
      assert MovedMessage(slot, url)[0] == 'M';
    }
  }
}
