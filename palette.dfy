/** The fixed colour palette of the calendar (core/calendar.py:30-39, 193-196). */
module Palette {
  /** Names of COLOR_PRESETS in order; the first is DEFAULT_COLOR_KEY. */
  const COLOR_KEYS: seq<string> := ["Niebieski", "Zielony", "Czerwony", "Fioletowy", "\U{017B}\U{00F3}\U{0142}ty"]

  /** Hex codes of COLOR_PRESETS, index for index with COLOR_KEYS. */
  const COLOR_HEX: seq<string> := ["#3A7AFE", "#34C759", "#FF3B30", "#AF52DE", "#FFCC00"]

  const DEFAULT_COLOR_KEY: string := COLOR_KEYS[0]

  predicate IsColorKey(k: string) {
    k in COLOR_KEYS
  }

  /** `_validate_color`: a palette key is kept, anything else falls back to the default. */
  function ValidateColor(k: string): (r: string)
    ensures IsColorKey(r)
    ensures IsColorKey(k) ==> r == k
    ensures !IsColorKey(k) ==> r == DEFAULT_COLOR_KEY
  {
    if k in COLOR_KEYS then k else DEFAULT_COLOR_KEY
  }

  /** Validating a validated key changes nothing. */
  lemma ValidateColorIdempotent(k: string)
    ensures ValidateColor(ValidateColor(k)) == ValidateColor(k)
  {
  }

  /** The hex code shown for a colour key; `COLOR_KEYS.get(key, "#3A7AFE")` on the dashboard. */
  function HexOf(key: string): (h: string)
    ensures forall i | 0 <= i < |COLOR_KEYS| :: COLOR_KEYS[i] == key ==> h == COLOR_HEX[i]
    ensures !IsColorKey(key) ==> h == COLOR_HEX[0]
    ensures h in COLOR_HEX
  {
    if key == COLOR_KEYS[0] then COLOR_HEX[0]
    else if key == COLOR_KEYS[1] then COLOR_HEX[1]
    else if key == COLOR_KEYS[2] then COLOR_HEX[2]
    else if key == COLOR_KEYS[3] then COLOR_HEX[3]
    else if key == COLOR_KEYS[4] then COLOR_HEX[4]
    else "#3A7AFE"
  }
}
