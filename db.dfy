/** The stored character record and the string codec the store uses for sexes. */
module Db {
  import opened Data

  /** A character of a snapshot; `alive` is the only field the store ever changes. */
  datatype Character = Character(name: string, sex: Gender, alive: bool)

  /** Lenient decoder: "M" is male and every other string is read as female. */
  function StringToGender(s: string): (g: Gender)
    ensures g == M <==> s == "M"
  {
    if s == "M" then M else F
  }

  /** Strict encoder: each gender is written as its one-letter code. */
  function GenderToString(g: Gender): (s: string)
    ensures s == "M" || s == "F"
    ensures (s == "M") <==> g == M
  {
    match g
    case M => "M"
    case F => "F"
  }

  /** Decoding what was encoded gives the gender back. */
  lemma GenderRoundTrip(g: Gender)
    ensures StringToGender(GenderToString(g)) == g
  {
  }

  /** Anything but "M", the valid "F" as well as garbage, decodes to `F`. */
  lemma StringToGenderIsLenient(s: string)
    requires s != "M"
    ensures StringToGender(s) == F
  {
  }

  /** Encoding what was decoded gives the string back exactly for the two valid codes. */
  lemma StringRoundTrip(s: string)
    ensures GenderToString(StringToGender(s)) == s <==> s == "M" || s == "F"
  {
  }
}
