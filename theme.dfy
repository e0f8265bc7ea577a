/**
 * The theme controller of the page (App.tsx): a tri-state preference that is
 * read once from browser storage when the app mounts, and written back to the
 * storage key `theme-mode` and to the `data-theme` attribute of the document
 * root whenever it changes.
 */
module Theme {
  import opened Wrappers

  /** `type ThemeMode = 'system' | 'light' | 'dark'` */
  datatype ThemeMode = System | Light | Dark

  /** The storage key the preference lives under. */
  const StorageKey: string := "theme-mode"

  /** The mode the app starts in before storage is consulted. */
  const InitialMode: ThemeMode := System

  /** The literal string that stands for a mode, in storage and in `data-theme`. */
  function Name(m: ThemeMode): string {
    match m
    case System => "system"
    case Light => "light"
    case Dark => "dark"
  }

  /** `localStorage.getItem(key)`: `null` when the key is absent. */
  function GetItem(storage: map<string, string>, key: string): (r: Option<string>)
    ensures r.Some? <==> key in storage
    ensures r.Some? ==> r.value == storage[key]
  {
    if key in storage then Some(storage[key]) else None
  }

  /**
   * The membership check applied to the stored value on load: a value is
   * accepted only when it is exactly one of the three literals.
   */
  function Parse(saved: Option<string>): (r: Option<ThemeMode>)
    ensures r.Some? <==> saved.Some? && (saved.value == "system" || saved.value == "light" || saved.value == "dark")
    ensures r.Some? ==> Name(r.value) == saved.value
  {
    if saved == Some("system") then Some(System)
    else if saved == Some("light") then Some(Light)
    else if saved == Some("dark") then Some(Dark)
    else None
  }

  /** The mode the app settles on after mounting over the given storage. */
  function ModeOnLoad(storage: map<string, string>): (m: ThemeMode)
  {
    Parse(GetItem(storage, StorageKey)).GetOr(InitialMode)
  }

  /** Every mode survives being written as its literal and read back. */
  lemma ParseName(m: ThemeMode)
    ensures Parse(Some(Name(m))) == Some(m)
  {
  }

  /** Distinct modes are written as distinct literals. */
  lemma NameInjective(m: ThemeMode, n: ThemeMode)
    ensures Name(m) == Name(n) ==> m == n
  {
  }

  /**
   * On load the stored value is adopted exactly when it is one of the three
   * literals; any other value, or none at all, leaves the initial "system".
   */
  lemma LoadAdoptsOnlyValidValues(storage: map<string, string>)
    ensures StorageKey in storage && Parse(Some(storage[StorageKey])).Some? ==>
              Name(ModeOnLoad(storage)) == storage[StorageKey]
    ensures !(StorageKey in storage && Parse(Some(storage[StorageKey])).Some?) ==>
              ModeOnLoad(storage) == System
  {
  }

  /**
   * The App component's theme state together with the two places it is
   * reflected: browser storage and the root element's `data-theme` attribute.
   */
  class ThemeController {
    var mode: ThemeMode
    /** `window.localStorage`, as key/value pairs. */
    var storage: map<string, string>
    /** `document.documentElement`'s `data-theme` attribute, if set. */
    var dataTheme: Option<string>

    /** Storage and the document attribute both hold the current mode. */
    ghost predicate Valid()
      reads this
    {
      StorageKey in storage && storage[StorageKey] == Name(mode) &&
      dataTheme == Some(Name(mode))
    }

    /**
     * Mounting the app: the state starts at "system"; the load effect reads
     * storage first, then the sync effect writes the current mode, and, when
     * the load effect found a valid value, the mode changes and the sync
     * effect runs again.
     */
    constructor (saved: map<string, string>, attribute: Option<string>)
      ensures Valid()
      ensures mode == ModeOnLoad(saved)
      ensures storage == saved[StorageKey := Name(mode)]
    {
      mode := InitialMode;
      storage := saved;
      dataTheme := attribute;
      new;
      var loaded := Parse(GetItem(storage, StorageKey));
      Sync();
      if loaded.Some? && loaded.value != mode {
        mode := loaded.value;
        Sync();
      }
    }

    /** The sync effect: set `data-theme`, then write the storage key. */
    method Sync()
      modifies this
      ensures Valid()
      ensures mode == old(mode)
      ensures storage == old(storage)[StorageKey := Name(mode)]
    {
      dataTheme := Some(Name(mode));
      storage := storage[StorageKey := Name(mode)];
    }

    /**
     * `setThemeMode(m)` from one of the header's buttons. Setting the mode it
     * already has re-renders nothing and runs no effect; the attribute and the
     * storage key already hold it.
     */
    method SetMode(m: ThemeMode)
      requires Valid()
      modifies this
      ensures Valid()
      ensures mode == m
      ensures storage == old(storage)[StorageKey := Name(m)]
      ensures dataTheme == Some(Name(m))
    {
      if m != mode {
        mode := m;
        Sync();
      }
    }
  }
}
