/**
  The pure helpers of one explore card (components/explore/card.tsx): the
  content preview and its fade, the collapsed tag row, and the guard of
  the search highlighting.
 */
module ExploreCard {
  import opened Wrappers
  import opened JsSemantics

  /** The default bound of `truncate`. */
  const DefaultMaxLength := 200
  /** The bound used for the content preview of a collapsed card. */
  const PreviewLength := 300
  /** The number of tags a collapsed card shows. */
  const CollapsedTagCount := 4

  /** `truncate(text, maxLength)`: the text itself when it fits, otherwise
      its first `maxLength` characters followed by an ellipsis. */
  function Truncate(text: string, maxLength: int := DefaultMaxLength): (r: string)
    ensures |text| <= maxLength ==> r == text
    ensures 0 <= maxLength < |text| ==>
              |r| == maxLength + 3 && r[..maxLength] == text[..maxLength] && r[maxLength..] == "..."
    ensures maxLength < 0 ==> r == text[..Max(|text| + maxLength, 0)] + "..."
  {
    if |text| <= maxLength then text else Slice(text, 0, maxLength) + "..."
  }

  /** The fade overlay: only on a collapsed card whose content is longer
      than the preview. */
  predicate ShowFade(content: string, isExpanded: bool)
  {
    !isExpanded && |content| > PreviewLength
  }

  /** The content shown in the preview box. */
  function ContentPreview(content: string, isExpanded: bool): (r: string)
    ensures !ShowFade(content, isExpanded) ==> r == content
    ensures ShowFade(content, isExpanded) ==>
              r == content[..PreviewLength] + "..."
  {
    if isExpanded then content else Truncate(content, PreviewLength)
  }

  /** The rendered tag row: the tags shown and, when collapsed, the `+N`
      badge for the ones hidden. */
  datatype TagRow = TagRow(shown: seq<string>, overflow: Option<int>)

  function Tags(tags: Option<seq<string>>, isExpanded: bool): (r: Option<TagRow>)
    ensures r.Some? <==> tags.Some? && |tags.value| > 0
    ensures r.Some? && isExpanded ==> r.value == TagRow(tags.value, None)
    ensures r.Some? && !isExpanded ==>
              r.value.shown <= tags.value && |r.value.shown| == Min(|tags.value|, CollapsedTagCount)
    ensures r.Some? && r.value.overflow.Some? ==> 0 < r.value.overflow.value
    ensures r.Some? && !isExpanded ==>
              |r.value.shown| + (if r.value.overflow.Some? then r.value.overflow.value else 0) == |tags.value|
  {
    if tags.Some? && |tags.value| > 0 then
      var all := tags.value;
      var shown := if isExpanded then all else Slice(all, 0, CollapsedTagCount);
      var overflow := if !isExpanded && |all| > CollapsedTagCount then Some(|all| - CollapsedTagCount) else None;
      Some(TagRow(shown, overflow))
    else
      None
  }

  /** What `highlightText` produces: the text as it is, or the text to be
      split around the case-insensitive occurrences of the query. */
  datatype Highlighted = Plain(text: string) | Marked(text: string, query: string)

  function HighlightText(text: string, query: string): (r: Highlighted)
    ensures r.text == text
    ensures r.Plain? <==> Trim(query) == []
  {
    // `!query.trim()`, written as in searchPrompts
    if IsBlank(query) then Plain(text) else Marked(text, query)
  }
}
