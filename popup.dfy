/** The HTML a POI's popup shows: its name, its floor, and its description
    or a fixed French placeholder when the description is falsy. */
module Popups {
  import opened Base
  import opened Catalog

  /** The placeholder shown for a missing or empty description. */
  const NoDescription := "Pas de description"

  /** The name heading and the floor line. */
  function Header(p: Poi): string
  {
    "<h3>" + p.name + "</h3><p><strong>Etage : " + p.level + "</strong></p>"
  }

  /** `getPopupContentFromFeature`: the header, then one paragraph holding
      the description when it is truthy, the placeholder otherwise. */
  function PopupContent(p: Poi): string
  {
    var content := Header(p);
    if Truthy(p.description) then content + "<p>" + p.description.value + "</p>"
    else content + "<p>Pas de description</p>"
  }

  /** The text of the description paragraph. */
  function ShownDescription(p: Poi): string
  {
    if Truthy(p.description) then p.description.value else NoDescription
  }

  /** The popup is the header followed by one paragraph; that paragraph is
      the placeholder exactly when the description is missing, empty, or is
      itself the placeholder text. */
  lemma PopupContentParts(p: Poi)
    ensures PopupContent(p) == Header(p) + "<p>" + ShownDescription(p) + "</p>"
    ensures ShownDescription(p) == NoDescription <==> !Truthy(p.description) || p.description.value == NoDescription
    ensures Truthy(p.description) ==> ShownDescription(p) == p.description.value
  {
    if !Truthy(p.description) {
      assert "<p>Pas de description</p>" == "<p>" + NoDescription + "</p>";
    }
  }

  lemma CancelAround(a: string, x: string, y: string, b: string)
    ensures a + x + b == a + y + b <==> x == y
  {
    if a + x + b == a + y + b {
      assert |x| == |y|;
      forall k | 0 <= k < |x| ensures x[k] == y[k] {
        assert (a + x + b)[|a| + k] == x[k];
        assert (a + y + b)[|a| + k] == y[k];
      }
    }
  }

  /** For two POIs with the same name and floor, the popups are equal exactly
      when they show the same description text: the popup loses nothing but
      the difference between a falsy description and the placeholder. */
  lemma PopupContentDetermines(p: Poi, q: Poi)
    requires p.name == q.name && p.level == q.level
    ensures PopupContent(p) == PopupContent(q) <==> ShownDescription(p) == ShownDescription(q)
  {
    PopupContentParts(p);
    PopupContentParts(q);
    CancelAround(Header(p) + "<p>", ShownDescription(p), ShownDescription(q), "</p>");
  }
}
