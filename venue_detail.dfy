/**
  The venue detail page of pages/VenueDetail.tsx: the venue is looked up by
  the slug of the route; its hero image can be zoomed into a fullscreen
  overlay, which locks the page's scrolling through `document.body`; the
  Inquire button opens a `mailto:` link to the concierge; the spec grid shows
  an icon per spec kind.
*/
module VenueDetail {
  import opened Common

  /** A catalog venue, with a few of its fields; the page's logic reads the
      slug and the name. */
  datatype Venue = Venue(id: string, slug: string, name: string, tagline: string)

  /** The catalog of venues, in catalog order. */
  const Catalog: seq<Venue> := [
    Venue("1", "avantage-hall", "Avantage Hall", "Industrial soul, minimalist heart"),
    Venue("2", "grace", "Grace", "Classic elegance redefined"),
    Venue("3", "secret", "Secret", "Hidden warmth and intimacy"),
    Venue("4", "luna", "Luna", "Views that touch the sky"),
    Venue("5", "soleil", "Soleil", "Nature and light"),
    Venue("6", "cristal", "Cristal", "Modern transparency")
  ]

  // ---------------------------------------------------------------------------
  // Lookup by slug

  /** Position i holds the first venue whose slug is `slug`. */
  ghost predicate FirstWithSlug(catalog: seq<Venue>, slug: string, i: int)
  {
    0 <= i < |catalog| && catalog[i].slug == slug &&
    forall j :: 0 <= j < i ==> catalog[j].slug != slug
  }

  /** `VENUES.find(v => v.slug === slug)`: the first venue with that slug, or
      nothing when no venue has it. */
  function FindBySlug(catalog: seq<Venue>, slug: string): (r: Option<Venue>)
    ensures r.None? <==> forall i :: 0 <= i < |catalog| ==> catalog[i].slug != slug
    ensures r.Some? ==> exists i :: FirstWithSlug(catalog, slug, i) && catalog[i] == r.value
    decreases |catalog|
  {
    if catalog == [] then None
    else if catalog[0].slug == slug then
      assert FirstWithSlug(catalog, slug, 0);
      Some(catalog[0])
    else
      var r := FindBySlug(catalog[1..], slug);
      assert forall i :: 1 <= i < |catalog| ==> catalog[i] == catalog[1..][i - 1];
      assert r.Some? ==> exists i :: FirstWithSlug(catalog, slug, i) && catalog[i] == r.value by {
        if r.Some? {
          var i :| FirstWithSlug(catalog[1..], slug, i) && catalog[1..][i] == r.value;
          assert FirstWithSlug(catalog, slug, i + 1);
        }
      }
      r
  }

  /** No two catalog venues share a slug. */
  lemma CatalogSlugsDistinct()
    ensures forall i, j :: 0 <= i < j < |Catalog| ==> Catalog[i].slug != Catalog[j].slug
  {
  }

  /** The page for a venue's own slug shows that venue; the page for a slug no
      venue has renders "Not found". */
  lemma PageForEachVenue(slug: string)
    ensures forall i :: 0 <= i < |Catalog| && Catalog[i].slug == slug ==>
      FindBySlug(Catalog, slug) == Some(Catalog[i])
    ensures (forall v :: v in Catalog ==> v.slug != slug) ==> FindBySlug(Catalog, slug) == None
  {
    CatalogSlugsDistinct();
    var r := FindBySlug(Catalog, slug);
    if r.Some? {
      var k :| FirstWithSlug(Catalog, slug, k) && Catalog[k] == r.value;
      forall i | 0 <= i < |Catalog| && Catalog[i].slug == slug
        ensures r == Some(Catalog[i])
      {
      }
    }
  }

  // ---------------------------------------------------------------------------
  // Zoom state and the body scroll lock

  /** The value the page's effect gives `document.body.style.overflow`. */
  function OverflowFor(zoomed: bool): (v: string)
    ensures v == "hidden" <==> zoomed
    ensures v == "" <==> !zoomed
  {
    if zoomed then "hidden" else ""
  }

  /** A click the zoom state listens to. The close button has no handler of
      its own: its click bubbles to the overlay, which closes the zoom. */
  datatype ZoomEvent = HeroClick | MobileZoomClick | OverlayClick | CloseButtonClick

  /** The zoom flag after one click. */
  function ZoomStep(zoomed: bool, e: ZoomEvent): (z: bool)
  {
    match e
    case HeroClick => true
    case MobileZoomClick => true
    case OverlayClick => false
    case CloseButtonClick => false
  }

  /** Whether the element receiving the click is on screen: the hero and its
      zoom button only while not zoomed, the overlay and its close button only
      while zoomed. */
  predicate Clickable(zoomed: bool, e: ZoomEvent)
  {
    match e
    case HeroClick => !zoomed
    case MobileZoomClick => !zoomed
    case OverlayClick => zoomed
    case CloseButtonClick => zoomed
  }

  /** Every click on a visible control switches the view. */
  lemma ClickableEventToggles(zoomed: bool, e: ZoomEvent)
    requires Clickable(zoomed, e)
    ensures ZoomStep(zoomed, e) == !zoomed
  {
  }

  /** The zoom flag after a sequence of clicks. */
  function ZoomAfter(zoomed: bool, events: seq<ZoomEvent>): (z: bool)
    decreases |events|
  {
    if events == [] then zoomed else ZoomAfter(ZoomStep(zoomed, events[0]), events[1..])
  }

  /** After any clicks, the view is zoomed exactly when the last click was on
      the hero or its zoom button. */
  lemma {:induction false} ZoomFollowsLastClick(zoomed: bool, events: seq<ZoomEvent>)
    requires events != []
    ensures ZoomAfter(zoomed, events) <==> events[|events| - 1] in {HeroClick, MobileZoomClick}
    decreases |events|
  {
    if |events| > 1 {
      ZoomFollowsLastClick(ZoomStep(zoomed, events[0]), events[1..]);
      assert events[1..][|events| - 2] == events[|events| - 1];
    }
  }

  /** What the left column and the overlay show. */
  datatype LeftSlot = HeroPanel | Placeholder
  datatype ZoomLayout = ZoomLayout(left: LeftSlot, overlayShown: bool, contentHidden: bool)

  /** The layout for a zoom flag: the hero panel and the fullscreen overlay are
      never on screen together, and the content column hides while zoomed. */
  function Layout(zoomed: bool): (l: ZoomLayout)
    ensures l.overlayShown <==> zoomed
    ensures l.left == HeroPanel <==> !l.overlayShown
    ensures l.contentHidden == l.overlayShown
  {
    if zoomed then ZoomLayout(Placeholder, true, true) else ZoomLayout(HeroPanel, false, false)
  }

  /** The style of the document body, shared by the whole page. */
  class BodyStyle {
    var overflow: string

    constructor (overflow: string)
      ensures this.overflow == overflow
    {
      this.overflow := overflow;
    }
  }

  /** The zoom state of a mounted detail page and its effect on the body. */
  class ZoomView {
    const body: BodyStyle
    var isZoomed: bool
    var mounted: bool

    /** While mounted the scroll lock matches the flag; once torn down the
        lock is released. */
    ghost predicate Valid()
      reads this, body
    {
      if mounted then body.overflow == OverflowFor(isZoomed) else body.overflow == ""
    }

    /** Mounting: the flag starts false and the first effect run clears the lock. */
    constructor (body: BodyStyle)
      modifies body
      ensures this.body == body
      ensures Valid() && mounted && !isZoomed
      ensures body.overflow == ""
    {
      this.body := body;
      isZoomed := false;
      mounted := true;
      new;
      body.overflow := OverflowFor(isZoomed);
    }

    /** `setIsZoomed(z)`: when the value changes, React runs the previous
        effect's cleanup and then the effect again. */
    method SetZoomed(z: bool)
      requires Valid() && mounted
      modifies this, body
      ensures Valid() && mounted && isZoomed == z
      ensures body.overflow == OverflowFor(z)
    {
      if z != isZoomed {
        isZoomed := z;
        body.overflow := "";
        if isZoomed {
          body.overflow := "hidden";
        } else {
          body.overflow := "";
        }
      }
    }

    /** A click routed to its handler. */
    method Handle(e: ZoomEvent)
      requires Valid() && mounted
      modifies this, body
      ensures Valid() && mounted
      ensures isZoomed == ZoomStep(old(isZoomed), e)
      ensures body.overflow == OverflowFor(isZoomed)
    {
      match e
      case HeroClick => SetZoomed(true);
      case MobileZoomClick => SetZoomed(true);
      case OverlayClick => SetZoomed(false);
      case CloseButtonClick => SetZoomed(false);
    }

    /** Teardown: the cleanup releases the lock whatever the flag was. */
    method Unmount()
      requires Valid() && mounted
      modifies this, body
      ensures Valid() && !mounted
      ensures body.overflow == ""
      ensures isZoomed == old(isZoomed)
    {
      body.overflow := "";
      mounted := false;
    }
  }

  // ---------------------------------------------------------------------------
  // The inquiry mailto link

  /** The concierge address the inquiry is sent to. */
  const Concierge: string := "concierge@zyvara.com"

  /** The e-mail subject for a venue. */
  function Subject(name: string): (s: string)
    ensures |s| == |name| + 18 && s[9..9 + |name|] == name
  {
    "Inquiry: " + name + " - ZYVARA"
  }

  /** The e-mail body for a venue. */
  function Body(name: string): (b: string)
    ensures |b| > 47 + |name| && b[47..47 + |name|] == name
  {
    "Hello ZYVARA Team,\n\nI am interested in booking " + name
      + " for an event.\n\nDetails:\nDate:\nGuests:\nType of Event:\n\nThank you."
  }

  /** The subject names its venue: different venues get different subjects. */
  lemma SubjectInjective(a: string, b: string)
    requires Subject(a) == Subject(b)
    ensures a == b
  {
    assert |a| == |b|;
    assert a == Subject(a)[9..9 + |a|];
    assert b == Subject(b)[9..9 + |b|];
  }

  /** The link `handleInquire` navigates to, with `enc` standing for
      `encodeURIComponent`. */
  function InquiryUri(name: string, enc: string -> string): (uri: string)
    ensures "mailto:" <= uri
  {
    "mailto:" + Concierge + "?subject=" + enc(Subject(name)) + "&body=" + enc(Body(name))
  }

  /** The position of the first `c` in `s`. */
  function Find(s: string, c: char): (r: Option<nat>)
    ensures r.None? <==> c !in s
    ensures r.Some? ==> r.value < |s| && s[r.value] == c && c !in s[..r.value]
    decreases |s|
  {
    if s == [] then None
    else if s[0] == c then Some(0)
    else
      match Find(s[1..], c)
      case None => None
      case Some(i) =>
        assert s[..i + 1] == [s[0]] + s[1..][..i];
        Some(i + 1)
  }

  /** The first `c` in `a + [c] + b` is the one after `a` when `a` has none. */
  lemma FindAfterPrefix(a: string, c: char, b: string)
    requires c !in a
    ensures Find(a + [c] + b, c) == Some(|a|)
  {
    var s := a + [c] + b;
    assert s[|a|] == c;
    var r := Find(s, c);
    assert r.Some?;
  }

  /** The header fields of a `mailto:` URI with a subject and a body, as
      section 2 of RFC 6068 lays them out. */
  datatype MailtoFields = MailtoFields(to: string, subject: string, body: string)

  /** Reads `mailto:<to>?subject=<s>&body=<b>` back into its fields. */
  function ParseInquiry(uri: string): (r: Option<MailtoFields>)
    ensures r.Some? ==> "mailto:" <= uri
  {
    if !("mailto:" <= uri) then None
    else
      var rest := uri[7..];
      match Find(rest, '?')
      case None => None
      case Some(q) =>
        match ParseHeaders(rest[q + 1..])
        case None => None
        case Some((subject, body)) => Some(MailtoFields(rest[..q], subject, body))
  }

  /** Reads the query `subject=<s>&body=<b>` back into its two values. */
  function ParseHeaders(query: string): (r: Option<(string, string)>)
    ensures r.Some? ==> "subject=" <= query
  {
    if !("subject=" <= query) then None
    else
      var fields := query[8..];
      match Find(fields, '&')
      case None => None
      case Some(a) =>
        var tail := fields[a + 1..];
        if "body=" <= tail then Some((fields[..a], tail[5..])) else None
  }

  /** The link addresses the concierge and carries the encoded subject and
      body as its two header fields, provided the encoded subject has no `&`
      (`encodeURIComponent` escapes it). */
  lemma InquiryUriRoundTrip(name: string, enc: string -> string)
    requires '&' !in enc(Subject(name))
    ensures ParseInquiry(InquiryUri(name, enc))
      == Some(MailtoFields(Concierge, enc(Subject(name)), enc(Body(name))))
  {
    var es, eb := enc(Subject(name)), enc(Body(name));
    assert InquiryUri(name, enc) == "mailto:" + Concierge + "?subject=" + es + "&body=" + eb;
    ParseMailto(Concierge, es, eb);
  }

  /** Any recipient without `?` and subject without `&` read back unchanged. */
  lemma ParseMailto(to: string, subject: string, body: string)
    requires '?' !in to && '&' !in subject
    ensures ParseInquiry("mailto:" + to + "?subject=" + subject + "&body=" + body)
      == Some(MailtoFields(to, subject, body))
  {
    var uri := "mailto:" + to + "?subject=" + subject + "&body=" + body;
    var query := "subject=" + subject + "&body=" + body;
    var rest := uri[7..];
    assert rest == to + ['?'] + query;
    FindAfterPrefix(to, '?', query);
    assert rest[|to| + 1..] == query;
    assert rest[..|to|] == to;
    ParseHeadersOf(subject, body);
  }

  /** A subject without `&` and any body read back from the query unchanged. */
  lemma ParseHeadersOf(subject: string, body: string)
    requires '&' !in subject
    ensures ParseHeaders("subject=" + subject + "&body=" + body) == Some((subject, body))
  {
    var query := "subject=" + subject + "&body=" + body;
    var fields := query[8..];
    var tail := "body=" + body;
    assert fields == subject + ['&'] + tail;
    FindAfterPrefix(subject, '&', tail);
    assert fields[|subject| + 1..] == tail;
    assert fields[..|subject|] == subject;
    assert tail[5..] == body;
  }

  // ---------------------------------------------------------------------------
  // Spec grid icons

  /** The icons of the spec grid. */
  datatype Icon = UsersIcon | SquareIcon | CheckCircleIcon | InfoIcon

  /** The spec kinds that have an icon. */
  const SpecKinds: set<string> := {"capacity", "area", "type", "price"}

  /** `SpecIcon`: an icon for each known spec kind, nothing for any other. */
  function SpecIcon(kind: string): (r: Option<Icon>)
    ensures r.Some? <==> kind in SpecKinds
  {
    match kind
    case "capacity" => Some(UsersIcon)
    case "area" => Some(SquareIcon)
    case "type" => Some(CheckCircleIcon)
    case "price" => Some(InfoIcon)
    case _ => None
  }

  /** Different spec kinds never share an icon. */
  lemma SpecIconInjective(a: string, b: string)
    requires SpecIcon(a).Some? && SpecIcon(a) == SpecIcon(b)
    ensures a == b
  {
  }
}
