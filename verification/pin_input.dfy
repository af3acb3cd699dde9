/** The PIN fields of the profile form and of the sign-in screen: an input with
    `maxLength={4}` whose `onChange` keeps digits only. */
module PinInput {
  import opened Strings

  const PinLength: nat := 4

  /** What the field holds when one change event carries the value `raw`: the first four
      characters the input accepts, then `\D` removed. A character removed by an earlier event
      never reaches `raw`, so typing key by key is a sequence of calls, one per event. */
  function FilterPin(raw: string): (pin: string)
    ensures WellFormedPin(pin)
    ensures forall c :: c in pin ==> c in raw
    ensures AllDigits(Take(raw, PinLength)) ==> pin == Take(raw, PinLength)
    ensures forall c :: IsDigit(c) ==> multiset(pin)[c] == multiset(Take(raw, PinLength))[c]
  {
    KeepDigits(Take(raw, PinLength))
  }

  /** A value the field can hold: digits only, at most four of them. */
  predicate WellFormedPin(pin: string) {
    AllDigits(pin) && |pin| <= PinLength
  }

  /** Filtering an already filtered value changes nothing, and a well-formed PIN passes unchanged. */
  lemma FilterPinIdempotent(raw: string)
    ensures FilterPin(FilterPin(raw)) == FilterPin(raw)
    ensures forall pin :: WellFormedPin(pin) ==> FilterPin(pin) == pin
  {
  }

  /** A well-formed PIN of at least four characters has exactly four digits. */
  lemma LongEnoughPinIsFourDigits(pin: string)
    requires WellFormedPin(pin) && |pin| >= PinLength
    ensures |pin| == 4 && AllDigits(pin)
  {
  }
}
