/** Scroll-position rules of the page (js/main.js): which navigation link
    is active, when the navbar is shaded or hidden, and when the back-to-top
    button shows. Scroll offsets are whole pixels. */
module Navigation {
  /** A `section[id]` of the page: its id and its `offsetTop`. */
  datatype Section = Section(id: string, offsetTop: int)

  /** A section counts as reached once the page has scrolled to within 200
      pixels above its top. */
  predicate Reached(s: Section, pageYOffset: int) {
    pageYOffset >= s.offsetTop - 200
  }

  /** The id of the last reached section in document order, or `""` when
      none is reached. */
  function ActiveSection(sections: seq<Section>, pageYOffset: int): string {
    if sections == [] then ""
    else if Reached(sections[|sections| - 1], pageYOffset) then sections[|sections| - 1].id
    else ActiveSection(sections[..|sections| - 1], pageYOffset)
  }

  /** The active section is the id of a reached section after which no
      section is reached; when no section is reached it is `""`. */
  lemma {:induction false} ActiveSectionIsLastReached(sections: seq<Section>, pageYOffset: int)
    ensures var r := ActiveSection(sections, pageYOffset);
      || (exists k | 0 <= k < |sections| ::
            Reached(sections[k], pageYOffset) && r == sections[k].id &&
            forall j | k < j < |sections| :: !Reached(sections[j], pageYOffset))
      || (r == "" && forall k | 0 <= k < |sections| :: !Reached(sections[k], pageYOffset))
  {
    if sections != [] {
      var last := |sections| - 1;
      if !Reached(sections[last], pageYOffset) {
        var front := sections[..last];
        ActiveSectionIsLastReached(front, pageYOffset);
        assert forall k | 0 <= k < last :: sections[k] == front[k];
      }
    }
  }

  /** `updateActiveLink`: the loop over the sections keeps the id of the
      last one reached; then exactly the links whose `href` is `#` followed
      by that id are made active. */
  method UpdateActiveLink(sections: seq<Section>, hrefs: seq<string>, pageYOffset: int)
    returns (current: string, active: seq<bool>)
    ensures current == ActiveSection(sections, pageYOffset)
    ensures |active| == |hrefs|
    ensures forall j | 0 <= j < |hrefs| :: active[j] <==> hrefs[j] == "#" + current
  {
    current := "";
    for i := 0 to |sections|
      invariant current == ActiveSection(sections[..i], pageYOffset)
    {
      if pageYOffset >= sections[i].offsetTop - 200 {
        current := sections[i].id;
      }
      assert sections[..i + 1][..i] == sections[..i];
    }
    assert sections[..|sections|] == sections;
    active := [];
    for j := 0 to |hrefs|
      invariant |active| == j
      invariant forall k | 0 <= k < j :: active[k] <==> hrefs[k] == "#" + current
    {
      active := active + [hrefs[j] == "#" + current];
    }
  }

  /** The shading and hiding classes of the navbar and the closure variable
      `lastScrollTop` of its scroll handler. */
  class Navbar {
    var lastScrollTop: int
    var scrolled: bool
    var hidden: bool

    /** The navbar is only ever hidden while it is shaded. */
    predicate Valid()
      reads this
    {
      hidden ==> scrolled
    }

    constructor ()
      ensures Valid()
      ensures lastScrollTop == 0 && !scrolled && !hidden
    {
      lastScrollTop, scrolled, hidden := 0, false, false;
    }

    /** The scroll handler. The offset is `pageYOffset`, or the document's
        `scrollTop` when `pageYOffset` is 0. The bar is shaded past 100
        pixels, hidden while moving down past 200 pixels, and the offset is
        remembered for the next event. */
    method OnScroll(pageYOffset: int, documentScrollTop: int)
      requires Valid()
      modifies this
      ensures Valid()
      ensures var top := if pageYOffset != 0 then pageYOffset else documentScrollTop;
        && (scrolled <==> top > 100)
        && (hidden <==> top > old(lastScrollTop) && top > 200)
        && lastScrollTop == top
    {
      var scrollTop := if pageYOffset != 0 then pageYOffset else documentScrollTop;
      if scrollTop > 100 {
        scrolled := true;
      } else {
        scrolled := false;
      }
      if scrollTop > lastScrollTop && scrollTop > 200 {
        hidden := true;
      } else {
        hidden := false;
      }
      lastScrollTop := scrollTop;
    }
  }

  /** The back-to-top button's `visible` class. */
  class BackToTop {
    var visible: bool

    constructor ()
      ensures !visible
    {
      visible := false;
    }

    /** The scroll handler: visible exactly when scrolled past 300 pixels. */
    method OnScroll(pageYOffset: int)
      modifies this
      ensures visible <==> pageYOffset > 300
    {
      if pageYOffset > 300 {
        visible := true;
      } else {
        visible := false;
      }
    }
  }
}
