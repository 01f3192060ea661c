/**
 * `smartTruncateText` (`helpers.ts`): cut a text at the last space within
 * `maxLength` characters and mark the cut with an ellipsis.
 */
module Helpers {
  /** `s.lastIndexOf(c)`: the last index holding `c`, or -1. */
  function LastIndexOf(s: string, c: char): (r: int)
    ensures -1 <= r < |s|
    ensures r >= 0 ==> s[r] == c
    ensures forall k :: r < k < |s| ==> s[k] != c
  {
    if |s| == 0 then -1
    else if s[|s| - 1] == c then |s| - 1
    else LastIndexOf(s[..|s| - 1], c)
  }

  /** The end index `text.slice(0, end)` uses: a negative `end` counts from the back, and it is clamped to the text. */
  function SliceEnd(len: nat, end: int): (r: nat)
    ensures r <= len
    ensures 0 <= end <= len ==> r == end
    ensures end > len ==> r == len
    ensures end < 0 ==> r == if len + end < 0 then 0 else len + end
  {
    if end < 0 then (if len + end < 0 then 0 else len + end) else if end > len then len else end
  }

  /** `text.slice(0, end)`. */
  function SlicePrefix(text: string, end: int): (r: string)
    ensures r == text[..SliceEnd(|text|, end)]
  {
    text[..SliceEnd(|text|, end)]
  }

  /** `s.endsWith(".")`. */
  predicate EndsWithDot(s: string)
  {
    |s| > 0 && s[|s| - 1] == '.'
  }

  /** The index of the cut: the last space within the first `maxLength` characters, or the end of those characters. */
  function CutIndex(text: string, maxLength: int): (k: nat)
    ensures k <= SliceEnd(|text|, maxLength)
    ensures k < SliceEnd(|text|, maxLength) ==> text[k] == ' '
    ensures forall j :: k < j < SliceEnd(|text|, maxLength) ==> text[j] != ' '
    ensures k == SliceEnd(|text|, maxLength) ==> forall j :: 0 <= j < k ==> text[j] != ' '
  {
    var truncated := SlicePrefix(text, maxLength);
    assert forall j :: 0 <= j < |truncated| ==> truncated[j] == text[j];
    var space := LastIndexOf(truncated, ' ');
    if space == -1 then |truncated| else space
  }

  /** `smartTruncateText(text, maxLength)`. */
  function SmartTruncateText(text: string, maxLength: int): (r: string)
    ensures |text| <= maxLength ==> r == text
    ensures |text| > maxLength ==>
              var kept := text[..CutIndex(text, maxLength)];
              r == if EndsWithDot(kept) then kept else kept + "..."
    ensures |text| > maxLength ==> EndsWithDot(r)
    ensures |text| > maxLength && maxLength >= 0 ==> |r| <= maxLength + 3
  {
    if |text| <= maxLength then text
    else
      var truncated := SlicePrefix(text, maxLength);
      var space := LastIndexOf(truncated, ' ');
      var kept := if space == -1 then SlicePrefix(text, maxLength) else SlicePrefix(text, space);
      if EndsWithDot(kept) then kept else kept + "..."
  }

  /**
   * With a space among the first `maxLength` characters, the text is cut just
   * before the last such space, and no space follows the cut within them.
   */
  lemma TruncateAtLastSpace(text: string, maxLength: int, k: nat)
    requires |text| > maxLength >= 0 && k < maxLength && text[k] == ' '
    ensures var cut := CutIndex(text, maxLength);
            && k <= cut < maxLength && text[cut] == ' '
            && (forall j :: cut < j < maxLength ==> text[j] != ' ')
  {
  }

  /** Without a space among the first `maxLength` characters, the text is cut after exactly `maxLength` characters. */
  lemma TruncateWithoutSpace(text: string, maxLength: int)
    requires |text| > maxLength >= 0
    requires forall j :: 0 <= j < maxLength ==> text[j] != ' '
    ensures CutIndex(text, maxLength) == maxLength
    ensures SmartTruncateText(text, maxLength)[..maxLength] == text[..maxLength]
  {
  }
}
