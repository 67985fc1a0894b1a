/** The light/dark theme preference (js/themes.js): `ThemeManager` over an
    abstract key/value store, the cross-tab `ThemeSync`, the components that
    follow `themechange` events, and the chart palette. The system colour
    scheme preference and the events are inputs of the methods. */
module Themes {
  import opened Wrappers

  const StorageKey := "portfolio-theme"
  const Light := "light"
  const Dark := "dark"

  /** A stored value counts as set only when it is present and not empty. */
  predicate Truthy(v: Option<string>) {
    v.Some? && v.value != ""
  }

  /** `getSystemTheme`: dark exactly when the colour-scheme query matches
      (a browser without `matchMedia` reports no match). */
  function SystemTheme(prefersDark: bool): (t: string)
    ensures t == Dark <==> prefersDark
    ensures t == Light <==> !prefersDark
  {
    if prefersDark then Dark else Light
  }

  /** The theme `toggleTheme` switches to: dark from light, light from
      anything else. */
  function Toggled(t: string): (r: string)
    ensures r == Light || r == Dark
    ensures r != t
  {
    if t == Light then Dark else Light
  }

  /** Toggling twice returns to the start exactly for the two real themes. */
  lemma ToggleTwice(t: string)
    ensures Toggled(Toggled(t)) == t <==> t == Light || t == Dark
  {
  }

  /** The body class of theme `t`. */
  function ThemeClass(t: string): string {
    t + "-theme"
  }

  /** The body classes after `applyTheme(t)`: both theme classes removed,
      then the class of `t` added. */
  function WithThemeClass(classes: set<string>, t: string): (r: set<string>)
    ensures ThemeClass(t) in r
    ensures forall c | c in {ThemeClass(Light), ThemeClass(Dark)} && c in r :: c == ThemeClass(t)
    ensures forall c | c !in {ThemeClass(Light), ThemeClass(Dark), ThemeClass(t)} :: c in r <==> c in classes
  {
    classes - {ThemeClass(Light), ThemeClass(Dark)} + {ThemeClass(t)}
  }

  /** The `theme-color` meta content: white for light, dark slate for dark;
      any other theme finds no entry and the content becomes the text
      `undefined`. */
  function MetaColor(t: string): (c: string)
    ensures t == Light ==> c == "#ffffff"
    ensures t == Dark ==> c == "#1a202c"
    ensures t != Light && t != Dark ==> c == "undefined"
  {
    if t == Light then "#ffffff" else if t == Dark then "#1a202c" else "undefined"
  }

  /** The toggle's icon class: the moon while light, the sun otherwise. */
  function ToggleIcon(t: string): string {
    if t == Light then "fa-moon" else "fa-sun"
  }

  /** The toggle's `aria-label` and `title`. */
  function ToggleLabel(t: string): string {
    if t == Light then "Switch to dark mode" else "Switch to light mode"
  }

  /** The label names the theme a toggle would switch to, and the moon
      shows exactly when that theme is dark. */
  lemma ToggleLabelNamesNextTheme(t: string)
    ensures ToggleLabel(t) == "Switch to " + Toggled(t) + " mode"
    ensures ToggleIcon(t) == "fa-moon" <==> Toggled(t) == Dark
  {
  }

  /** The colours `ChartThemeAdapter` gives charts. */
  datatype ChartColors = ChartColors(text: string, grid: string, background: string)

  /** `getChartColors`: a light-on-dark palette for dark, the reverse for
      anything else; in both, text and grid lines differ from the
      background. */
  function GetChartColors(t: string): (r: ChartColors)
    ensures r.text != r.background && r.grid != r.background
    ensures t == Dark <==> r.background == "#2d3748"
  {
    if t == Dark then ChartColors("#f7fafc", "#4a5568", "#2d3748")
    else ChartColors("#2d3748", "#e2e8f0", "#ffffff")
  }

  /** The two palettes mirror each other: a theme's text colour is the dark
      palette's background exactly when the theme is not dark, and every
      theme other than dark gets the light palette. */
  lemma ChartPalettesMirror(t: string)
    ensures GetChartColors(t).text == GetChartColors(Dark).background <==> t != Dark
    ensures t != Dark ==> GetChartColors(t) == GetChartColors(Light)
  {
  }

  /** The browser's `localStorage`, shared by every tab of the site. */
  class KeyValueStore {
    var entries: map<string, string>

    constructor (entries: map<string, string>)
      ensures this.entries == entries
    {
      this.entries := entries;
    }

    /** `getItem`: the stored value, or nothing. */
    function GetItem(key: string): (v: Option<string>)
      reads this
      ensures v.Some? <==> key in entries
      ensures v.Some? ==> v.value == entries[key]
    {
      if key in entries then Some(entries[key]) else None
    }

    method SetItem(key: string, value: string)
      modifies this
      ensures entries == old(entries)[key := value]
    {
      entries := entries[key := value];
    }

    method RemoveItem(key: string)
      modifies this
      ensures entries == old(entries) - {key}
    {
      entries := entries - {key};
    }
  }

  /** A `ThemeAwareComponent`: it follows every `themechange` event. */
  class ThemeAwareComponent {
    var currentTheme: string

    constructor ()
      ensures currentTheme == Light
    {
      currentTheme := Light;
    }
  }

  class ThemeManager {
    var currentTheme: string
    const store: KeyValueStore
    /** The components listening for `themechange` on the document. */
    const components: set<ThemeAwareComponent>
    /** Whether the page has the `#theme-toggle` button, and an icon in it. */
    const hasToggle: bool
    const hasIcon: bool
    var bodyClasses: set<string>
    var dataTheme: Option<string>
    var metaColor: Option<string>
    var iconClasses: set<string>
    var ariaLabel: string
    var title: string
    var ariaPressed: bool
    /** The `detail.theme` of every `themechange` event dispatched so far. */
    var events: seq<string>

    /** The toggle's icon, labels and pressed state describe `currentTheme`. */
    predicate ToggleInSync()
      reads this
    {
      && (hasToggle ==> (ariaPressed <==> currentTheme == Dark))
      && (hasToggle && hasIcon ==>
            ToggleIcon(currentTheme) in iconClasses &&
            ToggleIcon(Toggled(currentTheme)) !in iconClasses &&
            ariaLabel == ToggleLabel(currentTheme) && title == ToggleLabel(currentTheme))
    }

    /** `updateThemeToggleIcon`'s effect since the start of the call, for the
        current theme: nothing without a toggle; otherwise `aria-pressed`
        follows the theme, and when the toggle has an icon the sun/moon
        class is swapped (its other classes kept) and the label and title
        name the next theme; without an icon those three are kept. */
    twostate predicate ToggleUpdated()
      reads this
    {
      if !hasToggle then ToggleUntouched()
      else
        && (ariaPressed <==> currentTheme == Dark)
        && if hasIcon then
             && iconClasses == old(iconClasses) - {"fa-sun", "fa-moon"} + {ToggleIcon(currentTheme)}
             && ariaLabel == ToggleLabel(currentTheme) && title == ToggleLabel(currentTheme)
           else
             iconClasses == old(iconClasses) && ariaLabel == old(ariaLabel) && title == old(title)
    }

    /** The toggle's icon, labels and pressed state are as at the start of
        the call. */
    twostate predicate ToggleUntouched()
      reads this
    {
      && iconClasses == old(iconClasses) && ariaLabel == old(ariaLabel)
      && title == old(title) && ariaPressed == old(ariaPressed)
    }

    /** The page shows `currentTheme`, and no other light/dark theme class. */
    predicate Applied()
      reads this
    {
      && ThemeClass(currentTheme) in bodyClasses
      && (forall c | c in {ThemeClass(Light), ThemeClass(Dark)} && c in bodyClasses :: c == ThemeClass(currentTheme))
      && dataTheme == Some(currentTheme)
      && metaColor == Some(MetaColor(currentTheme))
    }

    /** `new ThemeManager()` and `init`: load the theme, sync the toggle
        and add the transition class. The store is only read. */
    constructor (store: KeyValueStore, components: set<ThemeAwareComponent>,
                 hasToggle: bool, hasIcon: bool, prefersDark: bool,
                 bodyClasses: set<string>, iconClasses: set<string>)
      ensures this.store == store && this.components == components
      ensures this.hasToggle == hasToggle && this.hasIcon == hasIcon
      ensures currentTheme == (if Truthy(store.GetItem(StorageKey)) then store.entries[StorageKey]
                               else SystemTheme(prefersDark))
      ensures Applied() && ToggleInSync()
      ensures this.bodyClasses == WithThemeClass(bodyClasses, currentTheme) + {"theme-transition"}
      ensures this.iconClasses == if hasToggle && hasIcon
                                  then iconClasses - {"fa-sun", "fa-moon"} + {ToggleIcon(currentTheme)}
                                  else iconClasses
      ensures events == []
    {
      this.store := store;
      this.components := components;
      this.hasToggle := hasToggle;
      this.hasIcon := hasIcon;
      currentTheme := Light;
      this.bodyClasses := bodyClasses;
      dataTheme := None;
      metaColor := None;
      this.iconClasses := iconClasses;
      ariaLabel := "";
      title := "";
      ariaPressed := false;
      events := [];
      new;
      LoadTheme(prefersDark);
      UpdateThemeToggleIcon();
      this.bodyClasses := this.bodyClasses + {"theme-transition"};
    }

    /** `loadTheme`: a set stored value is taken as it is, otherwise the
        system preference; the theme is then applied. */
    method LoadTheme(prefersDark: bool)
      modifies this
      ensures currentTheme == (if Truthy(store.GetItem(StorageKey)) then store.entries[StorageKey]
                               else SystemTheme(prefersDark))
      ensures Applied()
      ensures bodyClasses == WithThemeClass(old(bodyClasses), currentTheme)
      ensures iconClasses == old(iconClasses) && ariaLabel == old(ariaLabel)
      ensures title == old(title) && ariaPressed == old(ariaPressed) && events == old(events)
    {
      var savedTheme := store.GetItem(StorageKey);
      if Truthy(savedTheme) {
        currentTheme := savedTheme.value;
      } else {
        currentTheme := SystemTheme(prefersDark);
      }
      ApplyTheme(currentTheme);
    }

    /** `applyTheme`: the body class, the `data-theme` attribute and the
        meta colour follow `theme`; `currentTheme` is not touched. */
    method ApplyTheme(theme: string)
      modifies this
      ensures bodyClasses == WithThemeClass(old(bodyClasses), theme)
      ensures dataTheme == Some(theme) && metaColor == Some(MetaColor(theme))
      ensures currentTheme == old(currentTheme) && iconClasses == old(iconClasses)
      ensures ariaLabel == old(ariaLabel) && title == old(title)
      ensures ariaPressed == old(ariaPressed) && events == old(events)
    {
      bodyClasses := bodyClasses - {ThemeClass(Light), ThemeClass(Dark)};
      bodyClasses := bodyClasses + {ThemeClass(theme)};
      dataTheme := Some(theme);
      metaColor := Some(MetaColor(theme));
    }

    /** `saveTheme`. */
    method SaveTheme(theme: string)
      modifies store
      ensures store.entries == old(store.entries)[StorageKey := theme]
    {
      store.SetItem(StorageKey, theme);
    }

    /** `updateThemeToggleIcon`: nothing without a toggle; with one, the icon
        and labels (when it has an icon) and `aria-pressed` follow
        `currentTheme`. */
    method UpdateThemeToggleIcon()
      modifies this
      ensures ToggleUpdated() && ToggleInSync()
      ensures currentTheme == old(currentTheme) && bodyClasses == old(bodyClasses)
      ensures dataTheme == old(dataTheme) && metaColor == old(metaColor) && events == old(events)
    {
      if !hasToggle {
        return;
      }
      if hasIcon {
        iconClasses := iconClasses - {"fa-sun", "fa-moon"};
        iconClasses := iconClasses + {ToggleIcon(currentTheme)};
        ariaLabel := ToggleLabel(currentTheme);
        title := ToggleLabel(currentTheme);
      }
      ariaPressed := currentTheme == Dark;
    }

    /** `dispatchThemeChangeEvent`: every listening component takes the
        theme, and the event is recorded. */
    method DispatchThemeChangeEvent(theme: string)
      modifies this, components
      ensures events == old(events) + [theme]
      ensures forall c | c in components :: c.currentTheme == theme
      ensures currentTheme == old(currentTheme) && bodyClasses == old(bodyClasses)
      ensures dataTheme == old(dataTheme) && metaColor == old(metaColor)
      ensures iconClasses == old(iconClasses) && ariaLabel == old(ariaLabel)
      ensures title == old(title) && ariaPressed == old(ariaPressed)
    {
      forall c | c in components {
        c.currentTheme := theme;
      }
      events := events + [theme];
    }

    /** `setTheme`: the theme is taken, applied, stored, shown on the
        toggle and announced; afterwards the current theme, the stored
        value and the last event all name it. */
    method SetTheme(theme: string)
      modifies this, store, components
      ensures currentTheme == theme
      ensures store.entries == old(store.entries)[StorageKey := theme]
      ensures events == old(events) + [theme]
      ensures forall c | c in components :: c.currentTheme == theme
      ensures Applied() && ToggleUpdated() && ToggleInSync()
      ensures bodyClasses == WithThemeClass(old(bodyClasses), theme)
    {
      currentTheme := theme;
      ApplyTheme(theme);
      SaveTheme(theme);
      UpdateThemeToggleIcon();
      DispatchThemeChangeEvent(theme);
    }

    /** `toggleTheme`: set the other theme. The pulse animation and the
        notification are not modelled. */
    method ToggleTheme()
      modifies this, store, components
      ensures currentTheme == Toggled(old(currentTheme))
      ensures store.entries == old(store.entries)[StorageKey := currentTheme]
      ensures events == old(events) + [currentTheme]
      ensures forall c | c in components :: c.currentTheme == currentTheme
      ensures Applied() && ToggleUpdated() && ToggleInSync()
      ensures bodyClasses == WithThemeClass(old(bodyClasses), currentTheme)
    {
      SetTheme(Toggled(currentTheme));
    }

    /** The toggle's key handler: Enter and Space toggle, other keys do
        nothing. */
    method OnToggleKeyDown(key: string)
      modifies this, store, components
      ensures key == "Enter" || key == " " ==>
        && currentTheme == Toggled(old(currentTheme))
        && store.entries == old(store.entries)[StorageKey := currentTheme]
        && events == old(events) + [currentTheme]
        && (forall c | c in components :: c.currentTheme == currentTheme)
        && Applied() && ToggleUpdated() && ToggleInSync()
        && bodyClasses == WithThemeClass(old(bodyClasses), currentTheme)
      ensures key != "Enter" && key != " " ==>
        && currentTheme == old(currentTheme) && store.entries == old(store.entries)
        && events == old(events) && bodyClasses == old(bodyClasses)
        && dataTheme == old(dataTheme) && metaColor == old(metaColor)
        && ToggleUntouched()
        && (forall c | c in components :: c.currentTheme == old(c.currentTheme))
    {
      if key == "Enter" || key == " " {
        ToggleTheme();
      }
    }

    /** `previewTheme`: show `theme` on the page and resync the toggle, but
        keep `currentTheme` and the store. */
    method PreviewTheme(theme: string)
      modifies this
      ensures currentTheme == old(currentTheme) && events == old(events)
      ensures bodyClasses == WithThemeClass(old(bodyClasses), theme)
      ensures dataTheme == Some(theme) && metaColor == Some(MetaColor(theme))
      ensures ToggleUpdated() && ToggleInSync()
    {
      ApplyTheme(theme);
      UpdateThemeToggleIcon();
    }

    /** `resetToSystemTheme`: the key is removed and the system theme set,
        so the store ends up holding the system theme, not nothing. */
    method ResetToSystemTheme(prefersDark: bool)
      modifies this, store, components
      ensures currentTheme == SystemTheme(prefersDark)
      ensures store.entries == old(store.entries)[StorageKey := SystemTheme(prefersDark)]
      ensures store.GetItem(StorageKey) == Some(SystemTheme(prefersDark))
      ensures events == old(events) + [currentTheme]
      ensures forall c | c in components :: c.currentTheme == currentTheme
      ensures Applied() && ToggleUpdated() && ToggleInSync()
      ensures bodyClasses == WithThemeClass(old(bodyClasses), currentTheme)
    {
      store.RemoveItem(StorageKey);
      var systemTheme := SystemTheme(prefersDark);
      SetTheme(systemTheme);
      assert old(store.entries)[StorageKey := systemTheme] == (old(store.entries) - {StorageKey})[StorageKey := systemTheme];
    }

    /** The listener for colour-scheme changes: it follows the system only
        while no theme is stored, and never writes the store. */
    method OnSystemThemeChange(matches: bool)
      modifies this
      ensures store.entries == old(store.entries) && events == old(events)
      ensures !Truthy(store.GetItem(StorageKey)) ==>
        currentTheme == SystemTheme(matches) && Applied() &&
        bodyClasses == WithThemeClass(old(bodyClasses), currentTheme) &&
        ToggleUpdated() && ToggleInSync()
      ensures Truthy(store.GetItem(StorageKey)) ==>
        currentTheme == old(currentTheme) && bodyClasses == old(bodyClasses) &&
        dataTheme == old(dataTheme) && metaColor == old(metaColor) && ToggleUntouched()
    {
      if !Truthy(store.GetItem(StorageKey)) {
        var newTheme := if matches then Dark else Light;
        ApplyTheme(newTheme);
        currentTheme := newTheme;
        UpdateThemeToggleIcon();
      }
    }
  }

  /** `ThemeSync`: adopts a theme stored by another tab. */
  class ThemeSync {
    const manager: ThemeManager

    constructor (manager: ThemeManager)
      ensures this.manager == manager
    {
      this.manager := manager;
    }

    /** The `storage` event handler. It acts only when the event is for the
        theme key and carries a set value different from the current theme;
        it then shows and adopts that theme, without writing the store. */
    method OnStorage(key: Option<string>, newValue: Option<string>)
      modifies manager
      ensures manager.store.entries == old(manager.store.entries)
      ensures manager.events == old(manager.events)
      ensures key == Some(StorageKey) && Truthy(newValue) && newValue.value != old(manager.currentTheme) ==>
        manager.currentTheme == newValue.value && manager.Applied() &&
        manager.bodyClasses == WithThemeClass(old(manager.bodyClasses), newValue.value) &&
        manager.ToggleUpdated() && manager.ToggleInSync()
      ensures !(key == Some(StorageKey) && Truthy(newValue) && newValue.value != old(manager.currentTheme)) ==>
        manager.currentTheme == old(manager.currentTheme) && manager.bodyClasses == old(manager.bodyClasses) &&
        manager.dataTheme == old(manager.dataTheme) && manager.metaColor == old(manager.metaColor) &&
        manager.ToggleUntouched()
    {
      if key == Some(StorageKey) {
        var newTheme := newValue;
        if Truthy(newTheme) && newTheme.value != manager.currentTheme {
          manager.PreviewTheme(newTheme.value);
          manager.currentTheme := newTheme.value;
          manager.UpdateThemeToggleIcon();
        }
      }
    }
  }
}
