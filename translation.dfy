/**
 * The i18n lookup `t`: the entries of the current locale, and what `t` shows
 * for a key that has no entry and no default.
 */
module Translation {

  datatype Translations = Translations(entries: map<string, string>, missing: string -> string)
  {
    /** `t(key)`. */
    function T(key: string): string {
      if key in entries then entries[key] else missing(key)
    }

    /** `t(key, default: d)`: the default stands in for a missing entry. */
    function TOr(key: string, default: string): string {
      if key in entries then entries[key] else default
    }
  }
}
