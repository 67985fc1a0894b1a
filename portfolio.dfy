/** The portfolio grid (js/portfolio.js, `PortfolioManager`): the filter
    state machine with its two timer steps, the active filter button, the
    project table behind the modal, the modal's thumbnail gallery and the
    number-key shortcuts. */
module Portfolio {
  import opened Wrappers
  import opened Text

  /** An item's inline `style.display`: never set, `block` or `none`. */
  datatype Display = Unset | Block | Hidden

  /** A `.portfolio-item`: its `data-category` attribute, its display, and
      whether it carries the `filtering` and `filter-show` classes. */
  datatype Item = Item(category: string, display: Display, filtering: bool, filterShow: bool)

  /** A `.filter-btn`: its `data-filter` attribute and its `active` class. */
  datatype FilterButton = FilterButton(filter: string, active: bool)

  /** The timer a filter transition is waiting on: none, the 150 ms timer
      that applies `filter`, or the 300 ms timer that ends the transition. */
  datatype Pending = Idle | ApplyDue(filter: string) | SettleDue

  /** The visibility rule: everything under `all`, otherwise the items one
      of whose space-separated category tokens is exactly the filter. */
  predicate ShouldShow(filter: string, category: string) {
    filter == "all" || filter in Split(category, ' ')
  }

  /** An item is shown under `filter` exactly when the filter is `all` or
      occurs in its category as a whole token, delimited by spaces or the
      ends of the attribute. */
  lemma ShouldShowIsTokenMatch(filter: string, category: string)
    ensures ShouldShow(filter, category) <==> filter == "all" || IsToken(category, ' ', filter)
  {
    SplitTokens(category, ' ', filter);
  }

  /** Matching is by whole token, not by substring: a filter other than
      `all` does not select an item whose one-token category merely differs
      from it, so `web` does not select `webdesign`. */
  lemma NoSubstringMatch(filter: string, category: string)
    requires filter != "all" && filter != category && ' ' !in category
    ensures !ShouldShow(filter, category)
  {
    SplitWhole(category, ' ');
  }

  /** A filter selects an item that lists it after other tokens, as in
      `data-category="uiux web"` under the `web` filter. */
  lemma SecondTokenMatches(filter: string, first: string)
    requires ' ' !in filter
    ensures ShouldShow(filter, first + " " + filter)
  {
    var category := first + " " + filter;
    assert category[|first| + 1..] == filter;
    assert TokenAt(category, ' ', filter, |first| + 1, |category|);
    ShouldShowIsTokenMatch(filter, category);
  }

  /** The item as the apply step leaves it: shown with `filter-show`, or
      hidden; `filtering` is removed either way. */
  function Applied(item: Item, filter: string): (r: Item)
    ensures r.category == item.category && !r.filtering
    ensures r.display == Hidden <==> !ShouldShow(filter, item.category)
    ensures r.filterShow <==> ShouldShow(filter, item.category)
  {
    if ShouldShow(filter, item.category) then
      item.(display := Block, filtering := false, filterShow := true)
    else
      item.(display := Hidden, filtering := false, filterShow := false)
  }

  /** `getVisibleItems`: the items whose display is not `none`, in order. */
  function VisibleItems(items: seq<Item>): (r: seq<Item>)
    ensures |r| <= |items|
    ensures forall x :: x in r <==> x in items && x.display != Hidden
  {
    if items == [] then []
    else if items[0].display != Hidden then [items[0]] + VisibleItems(items[1..])
    else VisibleItems(items[1..])
  }

  /** Keeping the visible items commutes with concatenation, so they come
      out in their original order. */
  lemma {:induction false} VisibleItemsAppend(a: seq<Item>, b: seq<Item>)
    ensures VisibleItems(a + b) == VisibleItems(a) + VisibleItems(b)
    decreases |a|
  {
    if a == [] {
      assert a + b == b;
    } else {
      assert (a + b)[0] == a[0];
      assert (a + b)[1..] == a[1..] + b;
      VisibleItemsAppend(a[1..], b);
    }
  }

  /** After the apply step the visible items are exactly those the
      visibility rule selects. */
  lemma VisibleAfterApply(items: seq<Item>, filter: string, x: Item)
    ensures var applied := seq(|items|, i requires 0 <= i < |items| => Applied(items[i], filter));
      x in VisibleItems(applied) <==> x in applied && ShouldShow(filter, x.category)
  {
  }

  /** The project records behind `openProjectModal`, without their three
      prose paragraphs. */
  datatype Project = Project(
    title: string, category: string,
    results: seq<string>, technologies: seq<string>, images: seq<string>,
    liveUrl: Option<string>, githubUrl: Option<string>,
    duration: string, client: string)

  const ProjectIds: set<string> := {"ecommerce", "banking", "dashboard", "branding", "lms", "fooddelivery"}

  const ShopEase: Project := Project(
    "ShopEase - E-Commerce Platform",
    "UI/UX Design • Web Development",
    ["Peningkatan conversion rate sebesar 40%", "Waktu loading halaman < 2 detik",
     "User satisfaction score 4.8/5", "Mobile traffic meningkat 60%"],
    ["React", "Node.js", "MongoDB", "Stripe", "AWS", "Figma"],
    ["images/portfolio/ecommerce-1.jpg", "images/portfolio/ecommerce-2.jpg", "images/portfolio/ecommerce-3.jpg"],
    Some("https://shopease-demo.com"), Some("https://github.com/wahyu/shopease"),
    "3 bulan", "StartupCommerce Inc.")

  const FinanceFlow: Project := Project(
    "FinanceFlow - Mobile Banking",
    "Mobile App • UI/UX Design",
    ["Download rate 50K+ dalam 3 bulan", "Security rating 5/5 dari audit eksternal",
     "Average session time 8 menit", "Customer support tickets turun 30%"],
    ["React Native", "Firebase", "Biometric API", "Figma", "Principle"],
    ["images/portfolio/banking-1.jpg", "images/portfolio/banking-2.jpg", "images/portfolio/banking-3.jpg"],
    None, None,
    "4 bulan", "FinTech Solutions")

  const DataVizPro: Project := Project(
    "DataViz Pro - Analytics Dashboard",
    "Web Development • UI/UX Design",
    ["Data processing speed 10x lebih cepat", "User adoption rate 85%",
     "Decision making time berkurang 50%", "ROI tracking accuracy 95%"],
    ["Vue.js", "D3.js", "Python", "PostgreSQL", "WebSocket", "Docker"],
    ["images/portfolio/dashboard-1.jpg", "images/portfolio/dashboard-2.jpg", "images/portfolio/dashboard-3.jpg"],
    Some("https://dataviz-pro-demo.com"), None,
    "5 bulan", "Analytics Corp")

  const GreenTech: Project := Project(
    "GreenTech - Brand Identity",
    "Branding • Visual Identity",
    ["Brand recognition meningkat 200%", "Social media engagement +150%",
     "Investor interest meningkat signifikan", "Brand consistency score 98%"],
    ["Illustrator", "Photoshop", "InDesign", "After Effects"],
    ["images/portfolio/branding-1.jpg", "images/portfolio/branding-2.jpg", "images/portfolio/branding-3.jpg"],
    None, None,
    "2 bulan", "GreenTech Innovations")

  const EduPlatform: Project := Project(
    "EduPlatform - Learning Management System",
    "Web Development • UI/UX Design",
    ["Student engagement rate 90%", "Course completion rate +40%",
     "Teacher productivity meningkat 60%", "Platform uptime 99.9%"],
    ["Next.js", "Prisma", "Stripe", "AWS", "WebRTC", "TensorFlow"],
    ["images/portfolio/lms-1.jpg", "images/portfolio/lms-2.jpg", "images/portfolio/lms-3.jpg"],
    Some("https://eduplatform-demo.com"), None,
    "6 bulan", "EduTech Institute")

  const FoodieGo: Project := Project(
    "FoodieGo - Food Delivery App",
    "Mobile App • UI/UX Design",
    ["Order completion rate 95%", "Average delivery time 25 menit",
     "User retention rate 70%", "Restaurant partner satisfaction 4.7/5"],
    ["Flutter", "Firebase", "Google Maps API", "Stripe", "Figma"],
    ["images/portfolio/fooddelivery-1.jpg", "images/portfolio/fooddelivery-2.jpg", "images/portfolio/fooddelivery-3.jpg"],
    None, None,
    "4 bulan", "FoodTech Startup")

  /** `getProjectData`: the record for one of the six project ids, and
      nothing for any other id. Every record has three gallery images. */
  function GetProjectData(projectId: string): (r: Option<Project>)
    ensures r.Some? <==> projectId in ProjectIds
    ensures r.Some? ==> |r.value.images| == 3
  {
    match projectId
    case "ecommerce" => Some(ShopEase)
    case "banking" => Some(FinanceFlow)
    case "dashboard" => Some(DataVizPro)
    case "branding" => Some(GreenTech)
    case "lms" => Some(EduPlatform)
    case "fooddelivery" => Some(FoodieGo)
    case _ => None
  }

  /** The number-key shortcuts of `addKeyboardNavigation`. */
  const KeyFilters: map<string, string> := map["1" := "all", "2" := "uiux", "3" := "web", "4" := "mobile", "5" := "branding"]

  /** The filter a key selects, if any. */
  function FilterForKey(key: string): (r: Option<string>)
    ensures r.Some? <==> key in {"1", "2", "3", "4", "5"}
    ensures key == "1" ==> r == Some("all")
    ensures key == "2" ==> r == Some("uiux")
    ensures key == "3" ==> r == Some("web")
    ensures key == "4" ==> r == Some("mobile")
    ensures key == "5" ==> r == Some("branding")
  {
    if key in KeyFilters then Some(KeyFilters[key]) else None
  }

  /** The five keys select five different filters. */
  lemma FilterKeysDistinct(a: string, b: string)
    requires FilterForKey(a).Some? && FilterForKey(b).Some?
    ensures FilterForKey(a) == FilterForKey(b) ==> a == b
  {
  }

  /** The modal's thumbnail gallery: the image list, the main image's
      `src`, and the `active` class of each thumbnail. */
  class Gallery {
    const images: seq<string>
    var mainSrc: string
    var active: seq<bool>

    /** One thumbnail per image; the main image is the active one's. */
    predicate Valid()
      reads this
    {
      |active| == |images| &&
      exists k | 0 <= k < |images| :: mainSrc == images[k] && forall j | 0 <= j < |active| :: active[j] <==> j == k
    }

    /** The gallery as `createProjectModal` builds it: the first image is
        shown and thumbnail 0 is active. */
    constructor (images: seq<string>)
      requires |images| > 0
      ensures Valid()
      ensures this.images == images && mainSrc == images[0]
      ensures |active| == |images| && forall j | 0 <= j < |active| :: active[j] <==> j == 0
    {
      this.images := images;
      mainSrc := images[0];
      active := seq(|images|, j => j == 0);
      new;
      assert mainSrc == images[0] && forall j | 0 <= j < |active| :: active[j] <==> j == 0;
    }

    /** The click handler of thumbnail `k`: show its image, clear every
        thumbnail's `active` class, then set it on `k`. */
    method ClickThumbnail(k: nat)
      requires Valid() && k < |images|
      modifies this
      ensures Valid()
      ensures mainSrc == images[k]
      ensures |active| == |images| && forall j | 0 <= j < |active| :: active[j] <==> j == k
    {
      mainSrc := images[k];
      var thumbs := active;
      for j := 0 to |thumbs|
        invariant |thumbs| == |images|
        invariant forall i | 0 <= i < j :: !thumbs[i]
      {
        thumbs := thumbs[j := false];
      }
      active := thumbs[k := true];
    }
  }

  class PortfolioManager {
    var buttons: seq<FilterButton>
    var items: seq<Item>
    var currentFilter: string
    var isAnimating: bool
    var pending: Pending

    /** A transition is in flight exactly while a timer is pending, and the
        apply timer carries the filter that was accepted. */
    predicate Valid()
      reads this
    {
      (isAnimating <==> !pending.Idle?) &&
      (pending.ApplyDue? ==> pending.filter == currentFilter)
    }

    /** Every highlighted button names the filter in effect. */
    predicate Consistent()
      reads this
    {
      forall j | 0 <= j < |buttons| :: buttons[j].active ==> buttons[j].filter == currentFilter
    }

    constructor (buttons: seq<FilterButton>, items: seq<Item>)
      ensures Valid()
      ensures this.buttons == buttons && this.items == items
      ensures currentFilter == "all" && !isAnimating && pending == Idle
    {
      this.buttons := buttons;
      this.items := items;
      currentFilter := "all";
      isAnimating := false;
      pending := Idle;
    }

    /** The first step of `filterPortfolio`. A request while a transition is
        in flight, or for the filter already in effect, changes nothing.
        Otherwise the filter is taken, the transition begins, every item
        gets `filtering`, and the apply timer is set. */
    method FilterPortfolio(filter: string)
      requires Valid()
      modifies this
      ensures Valid()
      ensures buttons == old(buttons)
      ensures old(isAnimating) || filter == old(currentFilter) ==>
        items == old(items) && currentFilter == old(currentFilter) &&
        isAnimating == old(isAnimating) && pending == old(pending)
      ensures !old(isAnimating) && filter != old(currentFilter) ==>
        currentFilter == filter && isAnimating && pending == ApplyDue(filter) &&
        |items| == |old(items)| &&
        forall i | 0 <= i < |items| :: items[i] == old(items)[i].(filtering := true)
    {
      if isAnimating || filter == currentFilter {
        return;
      }
      isAnimating := true;
      currentFilter := filter;
      var marked := items;
      for i := 0 to |marked|
        invariant |marked| == |items|
        invariant forall j | 0 <= j < i :: marked[j] == items[j].(filtering := true)
        invariant forall j | i <= j < |marked| :: marked[j] == items[j]
      {
        marked := marked[i := marked[i].(filtering := true)];
      }
      items := marked;
      pending := ApplyDue(filter);
    }

    /** The 150 ms timer: each item is shown or hidden by the visibility
        rule, and the settle timer is set. Nothing but the items' display
        and classes changes. */
    method ApplyStep()
      requires Valid() && pending.ApplyDue?
      modifies this
      ensures Valid()
      ensures buttons == old(buttons) && currentFilter == old(currentFilter) && isAnimating
      ensures pending == SettleDue
      ensures |items| == |old(items)|
      ensures forall i | 0 <= i < |items| :: items[i] == Applied(old(items)[i], currentFilter)
    {
      var filter := pending.filter;
      var shown := items;
      for i := 0 to |shown|
        invariant |shown| == |items|
        invariant forall j | 0 <= j < i :: shown[j] == Applied(items[j], filter)
        invariant forall j | i <= j < |shown| :: shown[j] == items[j]
      {
        shown := shown[i := Applied(shown[i], filter)];
      }
      items := shown;
      pending := SettleDue;
    }

    /** The 300 ms timer: the transition ends and `filter-show` is removed
        from every item. */
    method SettleStep()
      requires Valid() && pending.SettleDue?
      modifies this
      ensures Valid()
      ensures buttons == old(buttons) && currentFilter == old(currentFilter)
      ensures !isAnimating && pending == Idle
      ensures |items| == |old(items)|
      ensures forall i | 0 <= i < |items| :: items[i] == old(items)[i].(filterShow := false)
    {
      isAnimating := false;
      var settled := items;
      for i := 0 to |settled|
        invariant |settled| == |items|
        invariant forall j | 0 <= j < i :: settled[j] == items[j].(filterShow := false)
        invariant forall j | i <= j < |settled| :: settled[j] == items[j]
      {
        settled := settled[i := settled[i].(filterShow := false)];
      }
      items := settled;
      pending := Idle;
    }

    /** `updateActiveFilter`: clear `active` on every button, then set it on
        button `b`, which is then the only active one. */
    method UpdateActiveFilter(b: nat)
      requires b < |buttons|
      modifies this
      ensures items == old(items) && currentFilter == old(currentFilter)
      ensures isAnimating == old(isAnimating) && pending == old(pending)
      ensures |buttons| == |old(buttons)|
      ensures forall j | 0 <= j < |buttons| ::
        buttons[j].filter == old(buttons)[j].filter && (buttons[j].active <==> j == b)
    {
      var cleared := buttons;
      for j := 0 to |cleared|
        invariant |cleared| == |buttons|
        invariant forall i | 0 <= i < |cleared| :: cleared[i].filter == buttons[i].filter
        invariant forall i | 0 <= i < j :: !cleared[i].active
      {
        cleared := cleared[j := cleared[j].(active := false)];
      }
      buttons := cleared[b := cleared[b].(active := true)];
    }

    /** The first button whose `data-filter` is `filter`, as
        `querySelector` finds it. */
    function FindButton(filter: string): (r: Option<nat>)
      reads this
      ensures r.Some? ==> r.value < |buttons| && buttons[r.value].filter == filter
      ensures r.Some? ==> forall j | 0 <= j < r.value :: buttons[j].filter != filter
      ensures r.None? ==> forall j | 0 <= j < |buttons| :: buttons[j].filter != filter
    {
      FirstWithFilter(buttons, filter)
    }

    /** What a filter request does to the items and the transition: turned
        away during a transition or for the filter in effect, otherwise taken
        with every item marked `filtering` and the apply timer armed. */
    twostate predicate Requested(filter: string)
      reads this
    {
      if old(isAnimating) || filter == old(currentFilter) then
        items == old(items) && currentFilter == old(currentFilter) &&
        isAnimating == old(isAnimating) && pending == old(pending)
      else
        currentFilter == filter && isAnimating && pending == ApplyDue(filter) &&
        |items| == |old(items)| &&
        forall i | 0 <= i < |items| :: items[i] == old(items)[i].(filtering := true)
    }

    /** Button `b` is the only highlighted button, and no button's filter
        changed. */
    twostate predicate OnlyActive(b: nat)
      reads this
    {
      |buttons| == |old(buttons)| &&
      forall j | 0 <= j < |buttons| ::
        buttons[j].filter == old(buttons)[j].filter && (buttons[j].active <==> j == b)
    }

    /** What the click handler, the number keys and `filterByCategory` all
        do once they have a button: request its filter, then highlight it
        whether or not the request was taken. */
    method SelectFilterAsWritten(b: nat)
      requires Valid() && b < |buttons|
      modifies this
      ensures Valid()
      ensures Requested(old(buttons)[b].filter)
      ensures OnlyActive(b)
    {
      FilterPortfolio(buttons[b].filter);
      UpdateActiveFilter(b);
    }

    /** The same with the highlight moved only when the button's filter is
        the one in effect afterwards: a request turned away mid-transition
        leaves the buttons alone, so the highlight always names the
        filter in effect. */
    method SelectFilter(b: nat)
      requires Valid() && b < |buttons|
      modifies this
      ensures Valid()
      ensures old(Consistent()) ==> Consistent()
      ensures Requested(old(buttons)[b].filter)
      ensures currentFilter == old(buttons)[b].filter ==> OnlyActive(b)
      ensures currentFilter != old(buttons)[b].filter ==> buttons == old(buttons)
    {
      var filter := buttons[b].filter;
      FilterPortfolio(filter);
      if currentFilter == filter {
        UpdateActiveFilter(b);
      }
    }

    /** The click handler of filter button `b`. */
    method ClickFilterButton(b: nat)
      requires Valid() && b < |buttons|
      modifies this
      ensures Valid()
      ensures Requested(old(buttons)[b].filter)
      ensures OnlyActive(b)
    {
      SelectFilterAsWritten(b);
    }

    /** `filterByCategory`: with a button for `category` on the page,
        request the category and highlight the first such button; without
        one, nothing changes. */
    method FilterByCategory(category: string)
      requires Valid()
      modifies this
      ensures Valid()
      ensures old(FindButton(category)).None? ==>
        buttons == old(buttons) && items == old(items) && currentFilter == old(currentFilter) &&
        isAnimating == old(isAnimating) && pending == old(pending)
      ensures old(FindButton(category)).Some? ==>
        Requested(category) && OnlyActive(old(FindButton(category)).value)
    {
      var button := FindButton(category);
      if button.Some? {
        SelectFilterAsWritten(button.value);
      }
    }

    /** The number-key handler, listening on the whole document: keys `1`
        to `5` have their default action prevented, wherever the focus is
        and whether or not a button has their filter, and then act like
        `filterByCategory` on their filter; every other key changes nothing. */
    method OnKeyDown(key: string) returns (prevented: bool)
      requires Valid()
      modifies this
      ensures Valid()
      ensures prevented <==> FilterForKey(key).Some?
      ensures FilterForKey(key).None? || old(FindButton(FilterForKey(key).value)).None? ==>
        buttons == old(buttons) && items == old(items) && currentFilter == old(currentFilter) &&
        isAnimating == old(isAnimating) && pending == old(pending)
      ensures FilterForKey(key).Some? && old(FindButton(FilterForKey(key).value)).Some? ==>
        Requested(FilterForKey(key).value) && OnlyActive(old(FindButton(FilterForKey(key).value)).value)
    {
      var filter := FilterForKey(key);
      prevented := filter.Some?;
      if filter.Some? {
        FilterByCategory(filter.value);
      }
    }

    /** The number-key handler as evidently intended: a key typed while the
        focus is in a form field (`inField`) is left to the field, and the
        filter is untouched; elsewhere it acts as `OnKeyDown`. */
    method OnKeyDownOutsideFields(key: string, inField: bool) returns (prevented: bool)
      requires Valid()
      modifies this
      ensures Valid()
      ensures prevented <==> !inField && FilterForKey(key).Some?
      ensures inField || FilterForKey(key).None? || old(FindButton(FilterForKey(key).value)).None? ==>
        buttons == old(buttons) && items == old(items) && currentFilter == old(currentFilter) &&
        isAnimating == old(isAnimating) && pending == old(pending)
      ensures !inField && FilterForKey(key).Some? && old(FindButton(FilterForKey(key).value)).Some? ==>
        Requested(FilterForKey(key).value) && OnlyActive(old(FindButton(FilterForKey(key).value)).value)
    {
      if inField {
        return false;
      }
      prevented := OnKeyDown(key);
    }

    /** `openProjectModal`: an unknown id opens nothing; a known one opens a
        gallery of its images showing the first. */
    method OpenProjectModal(projectId: string) returns (gallery: Option<Gallery>)
      ensures gallery.Some? <==> projectId in ProjectIds
      ensures gallery.Some? ==> fresh(gallery.value) && gallery.value.Valid()
      ensures gallery.Some? ==> gallery.value.images == GetProjectData(projectId).value.images
      ensures gallery.Some? ==> gallery.value.mainSrc == gallery.value.images[0]
    {
      var project := GetProjectData(projectId);
      if project.None? {
        return None;
      }
      var g := new Gallery(project.value.images);
      gallery := Some(g);
    }
  }

  /** The first index in `buttons` whose filter is `filter`. */
  function FirstWithFilter(buttons: seq<FilterButton>, filter: string): (r: Option<nat>)
    ensures r.Some? ==> r.value < |buttons| && buttons[r.value].filter == filter
    ensures r.Some? ==> forall j | 0 <= j < r.value :: buttons[j].filter != filter
    ensures r.None? ==> forall j | 0 <= j < |buttons| :: buttons[j].filter != filter
  {
    if buttons == [] then None
    else if buttons[0].filter == filter then Some(0)
    else match FirstWithFilter(buttons[1..], filter)
      case None => None
      case Some(i) => Some(i + 1)
  }

  /** With the handlers as written, a second click during a transition
      highlights a button whose filter is not in effect: click `web`, then
      `mobile` before the timers run. */
  method RejectedClickMovesHighlight() returns (m: PortfolioManager)
    ensures m.currentFilter == "web" && |m.buttons| == 3
    ensures m.buttons[2].filter == "mobile" && m.buttons[2].active
    ensures !m.Consistent()
  {
    m := new PortfolioManager(
      [FilterButton("all", true), FilterButton("web", false), FilterButton("mobile", false)],
      [Item("web", Unset, false, false), Item("mobile", Unset, false, false)]);
    m.SelectFilterAsWritten(1);
    m.SelectFilterAsWritten(2);
  }

  /** With the key handler as written, typing `3` into a form field while
      the portfolio shows everything is swallowed: the field does not get
      the digit, and the portfolio switches to `web` instead. */
  method DigitInFieldSwallowed() returns (prevented: bool, m: PortfolioManager)
    ensures prevented && m.currentFilter == "web" && m.isAnimating
  {
    m := new PortfolioManager(
      [FilterButton("all", true), FilterButton("web", false)],
      [Item("web", Unset, false, false)]);
    prevented := m.OnKeyDown("3");
  }

  /** With the corrected key handler the same keystroke reaches the field
      and the portfolio is untouched. */
  method DigitInFieldTyped() returns (prevented: bool, m: PortfolioManager)
    ensures !prevented && m.currentFilter == "all" && !m.isAnimating
  {
    m := new PortfolioManager(
      [FilterButton("all", true), FilterButton("web", false)],
      [Item("web", Unset, false, false)]);
    prevented := m.OnKeyDownOutsideFields("3", true);
  }

  /** With the corrected handler the same clicks keep the highlight on
      `web`, the filter in effect. */
  method RejectedClickKeepsHighlight() returns (m: PortfolioManager)
    ensures m.currentFilter == "web" && |m.buttons| == 3
    ensures m.buttons[1].active && !m.buttons[2].active
    ensures m.Consistent()
  {
    m := new PortfolioManager(
      [FilterButton("all", true), FilterButton("web", false), FilterButton("mobile", false)],
      [Item("web", Unset, false, false), Item("mobile", Unset, false, false)]);
    m.SelectFilter(1);
    m.SelectFilter(2);
  }
}
