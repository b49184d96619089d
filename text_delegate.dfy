/**
 * Replacement text for the animation's text layers: a map from the text in
 * the animation to the text drawn, filled as texts are looked up while
 * caching is on. Every change asks the owning view or drawable to redraw.
 */
module TextDelegates {

  /** Who the delegate redraws: nobody, an animation view, or a drawable. */
  datatype Host = NoHost | View | Drawable

  /** A redraw request the delegate sent: `invalidate` on a view, `invalidateSelf` on a drawable. */
  datatype Redraw = ViewInvalidate | DrawableInvalidateSelf

  /** What `invalidate` sends for a host. */
  function RedrawsFor(host: Host): (r: seq<Redraw>)
    ensures host == NoHost <==> r == []
  {
    match host
    case NoHost => []
    case View => [ViewInvalidate]
    case Drawable => [DrawableInvalidateSelf]
  }

  /** `getText`: the text to draw for an input without a stored mapping, which is the input itself. */
  function GetText(input: string): string
  {
    input
  }

  /** What `getTextInternal` returns: the stored mapping when caching and there is one, else `getText`. */
  function TextFor(stored: map<string, string>, cacheText: bool, input: string): (r: string)
    ensures !cacheText ==> r == input
    ensures input !in stored ==> r == input
  {
    if cacheText && input in stored then stored[input] else GetText(input)
  }

  /** The map after `getTextInternal`: with caching on, the returned text is stored for the input; with it off, nothing changes. */
  function StoredAfter(stored: map<string, string>, cacheText: bool, input: string): (r: map<string, string>)
    ensures cacheText ==> input in r && r[input] == TextFor(stored, cacheText, input)
    ensures cacheText ==> forall k | k in stored && k != input :: k in r && r[k] == stored[k]
    ensures cacheText ==> r.Keys == stored.Keys + {input}
    ensures !cacheText ==> r == stored
  {
    if cacheText then stored[input := TextFor(stored, cacheText, input)] else stored
  }

  /** A lookup is memoised: looking up again gives the same text and stores nothing new. */
  lemma LookupIsStable(stored: map<string, string>, cacheText: bool, input: string)
    ensures var after := StoredAfter(stored, cacheText, input);
      TextFor(after, cacheText, input) == TextFor(stored, cacheText, input) &&
      StoredAfter(after, cacheText, input) == after
  {
  }

  /** After `setText(input, output)` the lookup of input gives output while caching is on. */
  lemma SetTextThenLookup(stored: map<string, string>, input: string, output: string)
    ensures TextFor(stored[input := output], true, input) == output
  {
  }

  /** After `invalidateText(input)` the lookup gives the input back, and stores it. */
  lemma InvalidateThenLookup(stored: map<string, string>, cacheText: bool, input: string)
    ensures TextFor(stored - {input}, cacheText, input) == input
    ensures cacheText ==> StoredAfter(stored - {input}, cacheText, input)[input] == input
  {
  }

  class TextDelegate {
    var stringMap: map<string, string>
    var cacheText: bool
    const host: Host
    /** The redraw requests sent so far. */
    var redraws: seq<Redraw>

    /** A delegate for a view, a drawable, or neither: empty, caching on. */
    constructor (host: Host)
      ensures stringMap == map[] && cacheText && this.host == host && redraws == []
    {
      stringMap := map[];
      cacheText := true;
      this.host := host;
      redraws := [];
    }

    /** `invalidate`. */
    method Invalidate()
      modifies this`redraws
      ensures redraws == old(redraws) + RedrawsFor(host)
    {
      if host == View {
        redraws := redraws + [ViewInvalidate];
      } else if host == Drawable {
        redraws := redraws + [DrawableInvalidateSelf];
      }
    }

    /** `setText`: stores the mapping and redraws. */
    method SetText(input: string, output: string)
      modifies this`stringMap, this`redraws
      ensures stringMap == old(stringMap)[input := output]
      ensures redraws == old(redraws) + RedrawsFor(host)
    {
      stringMap := stringMap[input := output];
      Invalidate();
    }

    /** `setCacheText`. */
    method SetCacheText(cacheText: bool)
      modifies this`cacheText
      ensures this.cacheText == cacheText
    {
      this.cacheText := cacheText;
    }

    /** `invalidateText`: forgets one input's mapping and redraws. */
    method InvalidateText(input: string)
      modifies this`stringMap, this`redraws
      ensures stringMap == old(stringMap) - {input}
      ensures redraws == old(redraws) + RedrawsFor(host)
    {
      stringMap := stringMap - {input};
      Invalidate();
    }

    /** `invalidateAllText`: forgets every mapping and redraws. */
    method InvalidateAllText()
      modifies this`stringMap, this`redraws
      ensures stringMap == map[]
      ensures redraws == old(redraws) + RedrawsFor(host)
    {
      stringMap := map[];
      Invalidate();
    }

    /** `getTextInternal`: the text to draw; while caching it is stored. No redraw is requested. */
    method GetTextInternal(input: string) returns (text: string)
      modifies this`stringMap
      ensures text == TextFor(old(stringMap), cacheText, input)
      ensures stringMap == StoredAfter(old(stringMap), cacheText, input)
    {
      if cacheText && input in stringMap {
        return stringMap[input];
      }
      text := GetText(input);
      if cacheText {
        stringMap := stringMap[input := text];
      }
    }
  }
}
