/** Loading persisted state: the theme hooks of the three variants and `useLocalState` of `App.jsx`. */
module Storage {
  import opened Options

  /** What `localStorage.getItem(key)` gives: it throws, returns `null`, or returns a string. */
  datatype Read = Unavailable | Missing | Stored(text: string)

  /** `window.matchMedia("(prefers-color-scheme: dark)").matches`, or `false` without `matchMedia`. */
  function Preference(prefersDark: Option<bool>): bool {
    match prefersDark
    case Some(b) => b
    case None => false
  }

  /** `useDarkMode` (`App.jsx`): a non-empty stored string decides, an empty or missing one defers
      to the host preference, and a storage failure means light. */
  function AppDark(read: Read, prefersDark: Option<bool>): bool {
    match read
    case Unavailable => false
    case Missing => Preference(prefersDark)
    case Stored(s) => if s != "" then s == "dark" else Preference(prefersDark)
  }

  /** `usePersistedDark` (`final.js`) and `usePersistedTheme` (`t.js`): `getItem(key) === "dark"`,
      and a storage failure means light. */
  function StoredDark(read: Read): bool {
    match read
    case Stored(s) => s == "dark"
    case _ => false
  }

  /** The string every variant writes back: `dark ? "dark" : "light"`. */
  function ThemeText(dark: bool): string {
    if dark then "dark" else "light"
  }

  /** `useLocalState`: `raw ? JSON.parse(raw) : initial`, and `initial` whenever anything throws;
      `parse` answers `None` where `JSON.parse` would throw. */
  function LoadLocal<T>(read: Read, parse: string -> Option<T>, initial: T): T {
    match read
    case Stored(s) =>
      if s == "" then initial
      else (match parse(s) case Some(v) => v case None => initial)
    case _ => initial
  }

  /** The dark flag of `App.jsx` is set exactly when "dark" is stored, or when nothing usable is
      stored and the host prefers dark. */
  lemma AppDarkIff(read: Read, prefersDark: Option<bool>)
    ensures AppDark(read, prefersDark) <==>
      read == Stored("dark") || ((read == Missing || read == Stored("")) && prefersDark == Some(true))
  {
  }

  /** A stored value other than "dark" means light even when the host prefers dark: an unreadable
      value does not fall back to the preference. */
  lemma AppDarkIgnoresPreference(s: string, prefersDark: Option<bool>)
    requires s != "" && s != "dark"
    ensures !AppDark(Stored(s), prefersDark)
  {
  }

  /** Whatever theme is written is read back by every variant; absence or failure reads as light
      in `final.js` and `t.js`. */
  lemma ThemeRoundTrip(dark: bool, prefersDark: Option<bool>)
    ensures AppDark(Stored(ThemeText(dark)), prefersDark) == dark
    ensures StoredDark(Stored(ThemeText(dark))) == dark
    ensures !StoredDark(Missing) && !StoredDark(Unavailable)
  {
  }

  /** A value whose serialisation parses back is loaded as written; anything unusable loads `initial`. */
  lemma LoadLocalRoundTrip<T>(v: T, serialized: string, parse: string -> Option<T>, initial: T)
    requires serialized != "" && parse(serialized) == Some(v)
    ensures LoadLocal(Stored(serialized), parse, initial) == v
    ensures LoadLocal(Missing, parse, initial) == initial && LoadLocal(Unavailable, parse, initial) == initial
  {
  }

  lemma LoadLocalFallback<T>(text: string, parse: string -> Option<T>, initial: T)
    requires text == "" || parse(text) == None
    ensures LoadLocal(Stored(text), parse, initial) == initial
  {
  }
}
