/** The typing effect: the reply is revealed one character at a time. */
module Typing {

  /** The successive strings the placeholder shows while the reply is typed:
      after the k-th character, the first k characters. */
  method TypeOut(text: string) returns (frames: seq<string>)
    ensures |frames| == |text|
    ensures forall k :: 0 <= k < |frames| ==> |frames[k]| == k + 1 && frames[k] <= text
    ensures |text| > 0 ==> frames[|frames| - 1] == text
  {
    var typed := "";
    frames := [];
    for i := 0 to |text|
      invariant typed == text[..i]
      invariant |frames| == i
      invariant forall k :: 0 <= k < i ==> frames[k] == text[..k + 1]
    {
      typed := typed + [text[i]];
      frames := frames + [typed];
    }
  }
}
