/**
  The `Portfolio` page component's state and the handlers that change it: the
  mount effects (load the persisted theme, start the typing interval, write the
  theme back), one firing of the typing interval, the theme-menu and mobile-menu
  triggers, picking a theme and navigating to a section. The browser's storage is
  the injected `storage` map; everything else the page does is rendering.
*/
module Portfolio {
  import opened Themes
  import Reveal
  import Navigation

  class PortfolioState {
    var mounted: bool
    var theme: Theme
    /** The prefix of `Reveal.FullText` the hero banner shows. */
    var typedText: string
    /** The counter the typing interval's callback closes over. */
    var i: nat
    /** Whether the typing interval is live. */
    var timerRunning: bool
    var mobileMenuOpen: bool
    var themeMenuOpen: bool
    /** The browser's persistent key-value store. */
    var storage: map<string, string>

    /** The typing state as the value the reveal machine works on. */
    function Typing(): Reveal.Progress
      reads this
    {
      Reveal.Progress(i, typedText, timerRunning)
    }

    /**
      The page invariant: before mounting (when only a spinner is rendered) the state is
      the initial one: default theme, menus closed, nothing typed and no interval;
      once mounted the typing state satisfies the reveal invariant and the slot holds
      the current theme.
    */
    ghost predicate Valid()
      reads this
    {
      && (!mounted ==> theme == DefaultTheme && !mobileMenuOpen && !themeMenuOpen)
      && (!mounted ==> i == 0 && typedText == "" && !timerRunning)
      && (mounted ==> Reveal.Inv(Reveal.FullText, Typing()))
      && (mounted ==> StorageKey in storage && storage[StorageKey] == theme)
    }

    /** The first render: every `useState` initial value, over the given browser store. */
    constructor (storage: map<string, string>)
      ensures Valid()
      ensures !mounted && theme == DefaultTheme && typedText == "" && i == 0 && !timerRunning
      ensures !mobileMenuOpen && !themeMenuOpen
      ensures this.storage == storage
    {
      mounted := false;
      theme := DefaultTheme;
      typedText := "";
      i := 0;
      timerRunning := false;
      mobileMenuOpen := false;
      themeMenuOpen := false;
      this.storage := storage;
    }

    /**
      The load effect: mark mounted and adopt the stored theme if it is valid. Its
      dependency list is empty, so it runs once, on the first commit.
    */
    method LoadSavedTheme()
      requires !mounted
      modifies this
      ensures mounted
      ensures theme == AdoptSaved(GetItem(old(storage), StorageKey), old(theme))
      ensures storage == old(storage) && typedText == old(typedText) && i == old(i)
      ensures timerRunning == old(timerRunning)
      ensures mobileMenuOpen == old(mobileMenuOpen) && themeMenuOpen == old(themeMenuOpen)
    {
      mounted := true;
      var savedTheme := GetItem(storage, StorageKey);
      if savedTheme.Some? && savedTheme.value != "" && SomeHasValue(ThemeOptions, savedTheme.value) {
        OptionsAreThemes(savedTheme.value);
        theme := savedTheme.value;
      }
    }

    /** The save effect: write the theme to the slot, but only once mounted. */
    method SaveCurrentTheme()
      modifies this
      ensures old(Valid()) ==> Valid()
      ensures storage == if old(mounted) then SaveTheme(old(storage), old(theme)) else old(storage)
      ensures mounted == old(mounted) && theme == old(theme)
      ensures typedText == old(typedText) && i == old(i) && timerRunning == old(timerRunning)
      ensures mobileMenuOpen == old(mobileMenuOpen) && themeMenuOpen == old(themeMenuOpen)
    {
      if mounted {
        storage := SetItem(storage, StorageKey, theme);
      }
    }

    /**
      The typing effect: a fresh counter and a live interval. Its dependency list is
      empty, so it runs once, on the first commit, over the initial empty text.
    */
    method StartTyping()
      requires i == 0 && typedText == "" && !timerRunning
      modifies this
      ensures Typing() == Reveal.Start
      ensures mounted == old(mounted) && theme == old(theme) && storage == old(storage)
      ensures mobileMenuOpen == old(mobileMenuOpen) && themeMenuOpen == old(themeMenuOpen)
    {
      i := 0;
      timerRunning := true;
    }

    /**
      Mounting. The first commit runs its effects in order: load, save, typing. That save
      still sees the first render's `mounted == false` and writes nothing. The re-render
      the load caused then runs the save again, now mounted, so the slot ends up holding
      the adopted theme (an invalid stored value is overwritten with the default).
    */
    method Mount()
      requires Valid() && !mounted
      modifies this
      ensures Valid() && mounted
      ensures theme == LoadTheme(old(storage))
      ensures storage == SaveTheme(old(storage), theme)
      ensures Typing() == Reveal.Start
      ensures !mobileMenuOpen && !themeMenuOpen
    {
      LoadSavedTheme();
      StartTyping();
      SaveCurrentTheme();
    }

    /** One firing of the typing interval. */
    method Tick()
      requires Valid() && mounted && timerRunning
      modifies this
      ensures Valid()
      ensures Typing() == Reveal.Next(Reveal.FullText, old(Typing()))
      ensures mounted == old(mounted) && theme == old(theme) && storage == old(storage)
      ensures mobileMenuOpen == old(mobileMenuOpen) && themeMenuOpen == old(themeMenuOpen)
    {
      if i < |Reveal.FullText| {
        typedText := Reveal.FullText[..i + 1];
        i := i + 1;
      } else {
        timerRunning := false;
      }
      Reveal.NextInv(Reveal.FullText, old(Typing()));
    }

    /** The theme button: flips the theme menu and nothing else. */
    method ToggleThemeMenu()
      requires Valid() && mounted
      modifies this
      ensures Valid()
      ensures themeMenuOpen == !old(themeMenuOpen) && mobileMenuOpen == old(mobileMenuOpen)
      ensures mounted == old(mounted) && theme == old(theme) && storage == old(storage)
      ensures Typing() == old(Typing())
    {
      themeMenuOpen := !themeMenuOpen;
    }

    /** The mobile-menu button: flips the mobile menu and nothing else. */
    method ToggleMobileMenu()
      requires Valid() && mounted
      modifies this
      ensures Valid()
      ensures mobileMenuOpen == !old(mobileMenuOpen) && themeMenuOpen == old(themeMenuOpen)
      ensures mounted == old(mounted) && theme == old(theme) && storage == old(storage)
      ensures Typing() == old(Typing())
    {
      mobileMenuOpen := !mobileMenuOpen;
    }

    /**
      Picking an entry of the theme menu: the theme becomes the entry's value, the menu
      closes whatever its state, and the save effect that follows a theme change writes it.
    */
    method SelectTheme(option: ThemeOption)
      requires Valid() && mounted
      modifies this
      ensures Valid()
      ensures theme == option.value && !themeMenuOpen
      ensures mobileMenuOpen == old(mobileMenuOpen)
      ensures storage == SaveTheme(old(storage), option.value)
      ensures LoadTheme(storage) == option.value
      ensures mounted && Typing() == old(Typing())
    {
      theme := option.value;
      themeMenuOpen := false;
      SaveCurrentTheme();
      SaveThenLoad(old(storage), option.value);
    }

    /**
      `scrollToSection`: returns the id of the element to scroll to (the argument without
      its first `#`) and closes the mobile menu whatever its state.
    */
    method ScrollToSection(sectionId: string) returns (elementId: string)
      requires Valid() && mounted
      modifies this
      ensures Valid()
      ensures elementId == Navigation.ElementId(sectionId)
      ensures !mobileMenuOpen
      ensures themeMenuOpen == old(themeMenuOpen)
      ensures mounted && theme == old(theme) && storage == old(storage)
      ensures Typing() == old(Typing())
    {
      elementId := Navigation.ElementId(sectionId);
      mobileMenuOpen := false;
    }
  }
}
