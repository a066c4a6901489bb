# ZYVARA venue site: UI state logic

A Dafny model of the state logic behind four views of the ZYVARA venue-rental
site: the horizontally scrolling venue browser, the testimonial carousel and
count-up of the About page, the venue detail page, and the navigation bar. The
app routes only `/`, `/venues` and `/venues/:slug`; the About page component is
not routed, and its logic is modelled as written. Each view
is modelled without rendering. The model keeps the view's state: the active
card and progress, the testimonial index, the zoom flag with the body scroll
lock, and the menu flag. It also keeps the rules that update that state and the
values derived from it.

Modules, one per source file:

- `VenueBrowser` (`venues.dfy`) covers `pages/Venues.tsx`. The `Carousel` class holds
  `currentIndex` and `progress`. The browser's measurements arrive as a `Strip` value:
  the scroll offsets and widths, the computed left padding, and the children (the
  venue cards and then the trailing spacer). `Option.None` stands for a missing
  container. `Math.round(x)` is modelled as `Floor(x + 0.5)`.
- `Testimonials` (`testimonials.dfy`) covers `pages/About.tsx`. It has the cyclic
  next/prev index with JavaScript's truncating `%`, click sequences over it, and
  the count-up loop.
- `VenueDetail` (`venue_detail.dfy`) covers `pages/VenueDetail.tsx`. It has the slug
  lookup over the six-venue catalog and the `ZoomView` class with its shared
  `BodyStyle` (`document.body.style`). It builds the inquiry `mailto:` URI and has a
  parser that reads back its `subject`/`body` header fields (section 2 of RFC 6068).
  It also has the spec-icon mapping.
- `Navbar` (`navbar.dfy`) covers `components/Navbar.tsx`. It has the theme and class
  derivation, logo visibility, the forced underline, and the menu click machine:
  as a pure step over click sequences and as the `NavMenu` class.
- `Common` (`common.dfy`) holds the `Option` datatype.

`scrollToIndex` does not clamp its index. It does nothing when there is no child at
the index, and for index N it scrolls to the trailing spacer. The model does the same.

The browser keeps a requested scroll offset within the strip's scroll range. On the
desktop layout the requests for the last cards lie past that range, so the strip stops
short of them: at a 1280 px viewport the end of the range reads as card 4, the sixth
card never becomes active and the next button is never disabled. The model states
this as `Desktop1280LastCardUnreachable`.

## Model

| member | source | states |
|---|---|---|
| VenueBrowser.Round | pages/Venues.tsx:31 | `Math.round` gives the unique integer r with r − ½ ≤ x < r + ½ |
| VenueBrowser.ClampInt | pages/Venues.tsx:32 | `min(hi, max(lo, x))` lies in [lo, hi], is x inside that range, and is the nearer bound outside it |
| VenueBrowser.ClampReal | pages/Venues.tsx:22 | the same clamp on reals, as used for the progress value |
| VenueBrowser.MaxScroll | pages/Venues.tsx:20 | how far the strip can scroll: its scroll width less its client width |
| VenueBrowser.Progress | pages/Venues.tsx:20-22 | progress is always in [0, 100]. It is 0 at or before the start and 100 at or past `maxScroll`. Between them, progress × maxScroll = 100 × scrollLeft |
| VenueBrowser.FirstCardWidth | pages/Venues.tsx:26 | the first child's width, or 0 when there is no child |
| VenueBrowser.EstimatedIndex | pages/Venues.tsx:29-33 | the estimated index always lies in [0, N−1] |
| VenueBrowser.EstimatedIndexIsNearestCard | pages/Venues.tsx:31-32 | the active card is the one whose slot (its left edge ± half of width + 32) holds the offset; past the ends it is the end card |
| VenueBrowser.EstimatedIndexMonotone | pages/Venues.tsx:31-32 | scrolling further never makes an earlier card active |
| VenueBrowser.EstimatedIndexAtCard | pages/Venues.tsx:31-32 | an offset of exactly k slots reads back as card k |
| VenueBrowser.ScrollTarget | pages/Venues.tsx:45-57 | below a viewport width of 768 the target puts the card's centre at the viewport's centre; otherwise it puts the card's left edge at the container's left padding |
| VenueBrowser.ScrollToIndex | pages/Venues.tsx:37-60 | a scroll request is issued exactly when the container exists and has a child at `index`, with no clamping; it is that child's target |
| VenueBrowser.EstimatedIndexAtLaidOutCard | pages/Venues.tsx:27-32 | with cards laid out width + g apart for a gap g ≥ 32, an offset of exactly k such pitches reads back as card k while k·(g − 32) stays below half of width + 32 |
| VenueBrowser.Landing | pages/Venues.tsx:54-57 | the clamped `scrollTo` request: the request itself when it lies in [0, maxScroll], 0 below that range and maxScroll above it |
| VenueBrowser.AlignedScrollReadsBack | pages/Venues.tsx:53-57 | on desktop, with card k laid out k pitches of width + g after the padding (g ≥ 32, surplus under half a slot), the offset requested for card k reads back as k, and when that request is within maxScroll the clamped request is the request itself and reads back as k |
| VenueBrowser.DesktopScrollReadsBack | pages/Venues.tsx:111 | under the desktop 48 px gap (`md:gap-12`) with six venues and cards wider than 128 px, every card's requested offset reads back as that card, and so does the clamped request whenever the request is within maxScroll |
| VenueBrowser.LandingAtMostEndCard | pages/Venues.tsx:29-57 | whatever the clamped request, the active card is at most the one read off the end of the scroll range |
| VenueBrowser.Desktop1280LastCardUnreachable | pages/Venues.tsx:111-159 | at a 1280 px viewport (cards 307.2 px, scroll range 1235.2 px) the end of the range reads as card 4, so no clamped scroll request makes the sixth card active |
| VenueBrowser.Carousel.constructor | pages/Venues.tsx:9-10 | index and progress both start at 0 |
| VenueBrowser.Carousel.HandleScroll | pages/Venues.tsx:13-35 | with no container, nothing changes. Otherwise progress is recomputed. The index is re-estimated only when the first card's width is positive and is otherwise unchanged. The index and progress invariant is kept |
| VenueBrowser.Carousel.PrevDisabled | pages/Venues.tsx:197 | the prev button is disabled exactly on the first card |
| VenueBrowser.Carousel.NextDisabled | pages/Venues.tsx:204 | the next button is disabled exactly on the last card |
| VenueBrowser.Carousel.NextVenue | pages/Venues.tsx:62-66 | it requests card `currentIndex + 1` only below the last card and does nothing on the last. When the strip holds all N cards, it issues a request exactly when the next button is not disabled (`currentIndex ≠ N−1`, line 204) |
| VenueBrowser.Carousel.PrevVenue | pages/Venues.tsx:68-72 | it requests card `currentIndex − 1` only above the first card and does nothing on the first. When the strip holds all N cards, it issues a request exactly when the prev button is not disabled (`currentIndex ≠ 0`, line 197) |
| Testimonials.JsRem | pages/About.tsx:28 | JavaScript `%`: for a non-negative dividend it is the ordinary remainder in [0, n); for a negative one it lies in (−n, 0] |
| Testimonials.Next | pages/About.tsx:27-29 | next is in [0, n) for any valid index. It steps i to i+1 below the end and wraps n−1 to 0 |
| Testimonials.Prev | pages/About.tsx:31-33 | prev is in [0, n) for any valid index. It steps i to i−1 above the start and wraps 0 to n−1 |
| Testimonials.PrevAfterNext | pages/About.tsx:27-33 | prev(next(i)) = i for every i in [0, n) |
| Testimonials.NextAfterPrev | pages/About.tsx:27-33 | next(prev(i)) = i for every i in [0, n) |
| Testimonials.StepIsRotation | pages/About.tsx:27-33 | one click moves a valid index by ±1 modulo n |
| Testimonials.Step | pages/About.tsx:27-33 | one click runs the next or the prev handler, and keeps a valid index valid |
| Testimonials.Net | pages/About.tsx:27-33 | forward clicks minus backward clicks, bounded by the number of clicks either way |
| Testimonials.RunInRange | pages/About.tsx:8 | from a valid start index, any sequence of clicks keeps the index in [0, n) |
| Testimonials.RunIsNetRotation | pages/About.tsx:27-33 | after any clicks the index is (start + forward clicks − backward clicks) mod n |
| Testimonials.Shown | pages/About.tsx:191-211 | after any clicks from index 0 the shown testimonial is a list entry, namely entry (net clicks mod 3), so every read of the list is defined |
| Testimonials.CountUp | pages/About.tsx:16-25 | the counter shows 10, 20, …, 500: 50 values, strictly increasing, the last exactly 500 |
| VenueDetail.FindBySlug | pages/VenueDetail.tsx:9 | the result is nothing exactly when no venue has the slug; otherwise it is the first venue with that slug |
| VenueDetail.CatalogSlugsDistinct | constants.ts:10-226 | the six catalog slugs are pairwise distinct |
| VenueDetail.PageForEachVenue | pages/VenueDetail.tsx:9-22 | each venue's own slug shows that venue; a slug no venue has gives "Not found" |
| VenueDetail.OverflowFor | pages/VenueDetail.tsx:13-18 | the effect sets overflow to `hidden` exactly when zoomed and to `''` exactly when not |
| VenueDetail.ZoomStep | pages/VenueDetail.tsx:61-117 | the hero (line 61) and the mobile zoom button (line 90) set zoomed; the overlay (line 117) and the close button inside it clear it |
| VenueDetail.ClickableEventToggles | pages/VenueDetail.tsx:57-117 | each on-screen control (hero or zoom button when not zoomed, overlay or close button when zoomed) switches the zoom flag |
| VenueDetail.ZoomFollowsLastClick | pages/VenueDetail.tsx:61-117 | after any clicks, zoomed holds exactly when the last click was on the hero or the mobile zoom button; repeated zoom clicks keep it zoomed |
| VenueDetail.Layout | pages/VenueDetail.tsx:57-113 | the hero panel shows exactly when the overlay does not (a placeholder takes its slot); the overlay shows exactly when zoomed |
| VenueDetail.ZoomView.constructor | pages/VenueDetail.tsx:10-20 | on mount the flag is false and the first effect run leaves overflow `''` |
| VenueDetail.ZoomView.SetZoomed | pages/VenueDetail.tsx:13-20 | after `setIsZoomed(z)` (cleanup then effect when the value changes) the flag is z and overflow matches it |
| VenueDetail.ZoomView.Handle | pages/VenueDetail.tsx:57-118 | each click sets the flag as the pure step does, with the lock consistent |
| VenueDetail.ZoomView.Unmount | pages/VenueDetail.tsx:19 | teardown resets overflow to `''` whatever the flag was |
| VenueDetail.Subject | pages/VenueDetail.tsx:25 | the subject is the venue name framed by `Inquiry: ` and ` - ZYVARA`, so it carries the name at position 9 |
| VenueDetail.Body | pages/VenueDetail.tsx:26 | the body text names the venue right after its 47-character greeting and lead-in |
| VenueDetail.SubjectInjective | pages/VenueDetail.tsx:25 | different venue names give different subjects |
| VenueDetail.InquiryUri | pages/VenueDetail.tsx:24-28 | the inquiry link is a `mailto:` URI |
| VenueDetail.InquiryUriRoundTrip | pages/VenueDetail.tsx:25-27 | the link parses back to recipient `concierge@zyvara.com`, subject enc("Inquiry: " + name + " - ZYVARA") and body enc(body text), given the encoded subject has no `&` |
| VenueDetail.ParseMailto | pages/VenueDetail.tsx:27 | any recipient without `?` and subject without `&` read back unchanged from `mailto:<to>?subject=<s>&body=<b>` |
| VenueDetail.ParseHeadersOf | pages/VenueDetail.tsx:27 | the `subject=…&body=…` query reads back to its two values |
| VenueDetail.SpecIcon | pages/VenueDetail.tsx:31-39 | an icon is returned exactly for `capacity`, `area`, `type` and `price`; any other kind gives nothing |
| VenueDetail.SpecIconInjective | pages/VenueDetail.tsx:31-39 | different known kinds get different icons |
| Navbar.IsLightTheme | components/Navbar.tsx:19 | the bar is light exactly on the home page with the menu closed |
| Navbar.Classes | components/Navbar.tsx:19-23 | the light classes are chosen exactly when the path is `/` and the menu is closed, the dark ones otherwise |
| Navbar.ClassesFollowTheme | components/Navbar.tsx:21-23 | text, border and hover classes depend only on whether the theme is light |
| Navbar.LogoVisibility | components/Navbar.tsx:42-52 | exactly one logo is visible: the white one when light, the dark one otherwise |
| Navbar.UnderlineForced | components/Navbar.tsx:72 | a desktop link's underline is forced exactly when the current path is the link's path |
| Navbar.AtMostOneUnderline | components/Navbar.tsx:65-74 | the underline is forced exactly when the path equals the link's path, so at most one desktop link has it |
| Navbar.MenuStep | components/Navbar.tsx:87-168 | the hamburger opens the menu. The backdrop, the close button and every menu link close it. A card click changes nothing. Of the menu's clicks, only a menu link changes the route |
| Navbar.ClickableToggles | components/Navbar.tsx:87-123 | every on-screen control except the card toggles the menu |
| Navbar.MenuFollowsLastClick | components/Navbar.tsx:87-168 | after any clicks, the menu is open exactly when the last non-card click was the hamburger |
| Navbar.CardClicksChangeNothing | components/Navbar.tsx:115 | any run of clicks on the card itself leaves the state unchanged |
| Navbar.MenuLinkLandsOnPage | components/Navbar.tsx:143-146 | after a menu link the menu is closed, the route is the link's path, and the theme is light exactly when that path is `/` |
| Navbar.BookVenueLandsOnVenues | components/Navbar.tsx:162-166 | the menu card's Book Venue link closes the menu and lands on `/venues` under the dark theme, with only the Venues link underlined |
| Navbar.NavMenu.constructor | components/Navbar.tsx:7 | the menu starts closed |
| Navbar.NavMenu.HamburgerShown | components/Navbar.tsx:86-87 | the hamburger is rendered exactly while the menu is closed |
| Navbar.NavMenu.ClickHamburger | components/Navbar.tsx:87-89 | the hamburger (shown only while closed) opens the menu and hides itself |
| Navbar.NavMenu.ClickBackdrop | components/Navbar.tsx:106 | a backdrop click closes the menu and brings the hamburger back |
| Navbar.NavMenu.ClickCloseButton | components/Navbar.tsx:119 | the close button closes the menu and brings the hamburger back |
| Navbar.NavMenu.ClickMenuLink | components/Navbar.tsx:143-166 | a menu link, including Book Venue, closes the menu and brings the hamburger back |
| Navbar.NavMenu.ClickCard | components/Navbar.tsx:115 | a click on the card leaves the menu as it was |
| Navbar.NavMenu.Handle | components/Navbar.tsx:87-168 | each click changes the menu flag as the pure step does, on whatever page the bar is shown |

## Left out

- Progress when `scrollWidth − clientWidth ≤ 0`: the source divides without a guard, and in JavaScript that gives NaN or ±Infinity. The model requires a positive `maxScroll` and does not model NaN.
- The `|| 0` fallback in the card-width read also turns NaN into 0. Widths are modelled as plain reals, so that case does not arise.
- DOM measurement is not modelled: `getBoundingClientRect`, `getComputedStyle`/`parseFloat` of the padding and `window.innerWidth` are numbers the caller supplies.
- Effects outside the view's state are not modelled: for smooth `scrollTo` the model keeps the request and its clamp to [0, maxScroll], and leaves out the animation and the snapping; the scroll-listener registration is left out. So is the `window.location` assignment; the model keeps the URI it would receive.
- `encodeURIComponent` is a library call. It is a function parameter `enc`; the round trip assumes only that it leaves no `&` in the subject.
- Index estimation uses the constant gap 32 as the source does, while the CSS lays cards out 24 px apart on mobile and 48 px apart on desktop. The read-back lemmas take the real pitch as a parameter `g ≥ 32` and hold while the accumulated surplus stays under half a slot; the 24 px mobile pitch is not covered.
- Floating-point rounding of the index and progress arithmetic is not modelled (reals are exact). Neither are the float-valued visuals: the parallax transforms, the scroll-linked opacity and the mini progress bar width.
- `setInterval` timing and clearing: only the sequence of counter values is modelled, one loop iteration per tick.
- VenueBrowser.Landing: scroll snapping (`snap-x snap-mandatory` at pages/Venues.tsx:111, `md:snap-start` at line 119) is not modelled. The strip rests on a snap position, which for a start-aligned card is `paddingLeft` past the request; `Landing` is only the clamped request.
- VenueBrowser.AlignedScrollReadsBack: "reads back" is about the requested and the clamped offset, not the snap position the strip comes to rest on (see the line above). At 1280 px, card 3's snap position reads as card 4.
- VenueBrowser.DesktopScrollReadsBack: the same as its parent lemma, since scroll snapping is not modelled.
- `Testimonials.JsRem`: for negative dividends the contract gives only the sign and range of the result, not its value. Next and prev never see a negative dividend from a valid index.
- Rendering, Tailwind classes, framer-motion animations and routing: `App.tsx`, `pages/Home.tsx`, `components/Footer.tsx` and `components/VenueCard.tsx` are not part of this model. The catalog and testimonial fixtures keep a few fields of each record (a venue's id, slug, name and tagline; a review's id, text, author and kind) and drop the rest. The logic reads only a venue's slug and name; the other fields just identify the fixture entries.
