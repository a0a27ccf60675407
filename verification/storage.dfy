/** The browser's key-value store as the progress components use it: numeric
    entries (coin and experience totals) and text entries (the current title).
    A missing number reads as 0, a missing text as the caller's default. */
module Storage {

  datatype Store = Store(numbers: map<string, int>, texts: map<string, string>)

  const CoinsKey: string := "totalCoins"
  const ExperienceKey: string := "totalExperience"
  const TitleKey: string := "currentTitle"

  /** `parseInt(localStorage.getItem(key) || '0')`. */
  function ReadNumber(s: Store, key: string): int {
    if key in s.numbers then s.numbers[key] else 0
  }

  /** `localStorage.getItem(key) || fallback`; an empty stored text also gives
      the fallback, as `||` does in JavaScript. */
  function ReadText(s: Store, key: string, fallback: string): string {
    if key in s.texts && s.texts[key] != [] then s.texts[key] else fallback
  }

  /** `localStorage.setItem(key, n.toString())`: the key now reads `n`; every
      other entry reads as before. */
  function WriteNumber(s: Store, key: string, n: int): (r: Store)
    ensures ReadNumber(r, key) == n
    ensures forall k :: k != key ==> ReadNumber(r, k) == ReadNumber(s, k)
    ensures r.texts == s.texts
  {
    s.(numbers := s.numbers[key := n])
  }

  /** `localStorage.setItem(key, t)`: the key now holds `t`; every other entry
      is as before. */
  function WriteText(s: Store, key: string, t: string): (r: Store)
    ensures key in r.texts && r.texts[key] == t
    ensures t != [] ==> forall fallback :: ReadText(r, key, fallback) == t
    ensures forall k, fallback :: k != key ==> ReadText(r, k, fallback) == ReadText(s, k, fallback)
    ensures r.numbers == s.numbers
  {
    s.(texts := s.texts[key := t])
  }
}
