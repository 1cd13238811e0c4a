/** The relationship table as ingested: raw rows with one-character sex codes,
    validated into edges whose sexes are `Gender` values. */
module Data {
  import opened Wrappers

  /** The two sexes recorded for characters and relationship edges. */
  datatype Gender = M | F

  /** A row of the relationship table before validation: the sexes are raw characters. */
  datatype RelationshipRaw = RelationshipRaw(parentName: string, parentSex: char, childName: string, childSex: char)

  /** One parent-to-child edge; a child with two parents has two edges. */
  datatype Relationship = Relationship(parentName: string, parentSex: Gender, childName: string, childSex: Gender)

  const BadParentGender: string := "Bad parent gender."
  const BadChildGender: string := "Bad child gender."

  /** The only characters accepted as sex codes. */
  predicate IsGenderCode(c: char) {
    c == 'M' || c == 'F'
  }

  /** The code a gender is written with in the raw table. */
  function GenderToChar(g: Gender): (c: char)
    ensures IsGenderCode(c)
    ensures (c == 'M') <==> g == M
  {
    match g
    case M => 'M'
    case F => 'F'
  }

  /** Decodes one raw sex code, failing with `error` on anything but 'M' and 'F'. */
  function GenderOfChar(c: char, error: string): (r: Result<Gender, string>)
    ensures r.Success? <==> IsGenderCode(c)
    ensures r.Success? ==> GenderToChar(r.value) == c
    ensures r.Failure? ==> r.error == error
  {
    if c == 'M' then Success(M)
    else if c == 'F' then Success(F)
    else Failure(error)
  }

  /** Validates a raw row. Both codes are decoded first; the parent's result is
      consulted first, so when both are bad the parent error is reported. */
  function Convert(raw: RelationshipRaw): (r: Result<Relationship, string>)
    ensures r.Success? <==> IsGenderCode(raw.parentSex) && IsGenderCode(raw.childSex)
    ensures !IsGenderCode(raw.parentSex) ==> r == Failure(BadParentGender)
    ensures IsGenderCode(raw.parentSex) && !IsGenderCode(raw.childSex) ==> r == Failure(BadChildGender)
    ensures r.Success? ==>
              && r.value.parentName == raw.parentName
              && r.value.childName == raw.childName
              && GenderToChar(r.value.parentSex) == raw.parentSex
              && GenderToChar(r.value.childSex) == raw.childSex
  {
    var parentSex := GenderOfChar(raw.parentSex, BadParentGender);
    var childSex := GenderOfChar(raw.childSex, BadChildGender);
    if parentSex.Failure? then Failure(parentSex.error)
    else if childSex.Failure? then Failure(childSex.error)
    else Success(Relationship(raw.parentName, parentSex.value, raw.childName, childSex.value))
  }

  /** The raw row a validated edge is written as. */
  function ToRaw(rel: Relationship): RelationshipRaw {
    RelationshipRaw(rel.parentName, GenderToChar(rel.parentSex), rel.childName, GenderToChar(rel.childSex))
  }

  /** Validation accepts every written edge unchanged, and an accepted row is
      exactly the written form of the edge it yields. */
  lemma ConvertRoundTrip(rel: Relationship, raw: RelationshipRaw)
    ensures Convert(ToRaw(rel)) == Success(rel)
    ensures Convert(raw).Success? ==> ToRaw(Convert(raw).value) == raw
  {
  }

  /** A bad parent code is reported even when the child code is bad too: the
      both-bad case of `Convert`'s second postcondition, spelled out. */
  lemma ConvertReportsParentFirst(raw: RelationshipRaw)
    requires !IsGenderCode(raw.parentSex) && !IsGenderCode(raw.childSex)
    ensures Convert(raw) == Failure(BadParentGender)
  {
  }
}
