/** The relationship queries of the resolver: each scans the snapshot's
    characters and edges, keeping the matching characters in snapshot order.
    The queries are plain definitions; what each one returns is stated by the
    `...Members` lemmas below them. */
module Family {
  import opened Data
  import opened Db
  import opened Names
  import opened Seqs

  /** Some edge records `parent` as a parent of `child`. */
  predicate HasParentEdge(relationships: seq<Relationship>, parent: string, child: string) {
    exists e :: e in relationships && e.parentName == parent && e.childName == child
  }

  /** Some edge records `child` as a child of `parent` with the EDGE's child sex
      `gender`; the character's own `sex` plays no part. */
  predicate HasChildEdge(relationships: seq<Relationship>, parent: string, child: string, gender: Gender) {
    exists e :: e in relationships && e.parentName == parent && e.childName == child && e.childSex == gender
  }

  /** Whether a character is named as the parent of some edge of `subset`. */
  function IsParentIn(subset: seq<Relationship>): Character -> bool {
    (c: Character) => exists e :: e in subset && e.parentName == c.name
  }

  /** Whether a character is named as the child of some edge of `subset`. */
  function IsChildIn(subset: seq<Relationship>): Character -> bool {
    (c: Character) => exists e :: e in subset && e.childName == c.name
  }

  /** The characters named as the parent of some edge of `subset`. */
  function CharactersByParentName(subset: seq<Relationship>, characters: seq<Character>): seq<Character> {
    Filter(characters, IsParentIn(subset))
  }

  /** The characters named as the child of some edge of `subset`. */
  function CharactersByChildName(subset: seq<Relationship>, characters: seq<Character>): seq<Character> {
    Filter(characters, IsChildIn(subset))
  }

  function Parents(name: string, characters: seq<Character>, relationships: seq<Relationship>): seq<Character> {
    CharactersByParentName(Filter(relationships, (e: Relationship) => e.childName == name), characters)
  }

  function Children(name: string, characters: seq<Character>, relationships: seq<Relationship>, gender: Gender): seq<Character> {
    CharactersByChildName(Filter(relationships, (e: Relationship) => e.parentName == name && e.childSex == gender), characters)
  }

  function Sons(name: string, characters: seq<Character>, relationships: seq<Relationship>): seq<Character> {
    Children(name, characters, relationships, M)
  }

  function Daughters(name: string, characters: seq<Character>, relationships: seq<Relationship>): seq<Character> {
    Children(name, characters, relationships, F)
  }

  function Siblings(name: string, characters: seq<Character>, relationships: seq<Relationship>, gender: Gender): seq<Character> {
    var parents := Parents(name, characters, relationships);
    CharactersByChildName(
      Filter(relationships, (e: Relationship) =>
        (exists p :: p in parents && p.name == e.parentName) && e.childSex == gender && e.childName != name),
      characters)
  }

  function Brothers(name: string, characters: seq<Character>, relationships: seq<Relationship>): seq<Character> {
    Siblings(name, characters, relationships, M)
  }

  function Sisters(name: string, characters: seq<Character>, relationships: seq<Relationship>): seq<Character> {
    Siblings(name, characters, relationships, F)
  }

  /** The `gender` children of each of `siblings` in turn, concatenated. */
  function ChildrenOfEach(siblings: seq<Character>, characters: seq<Character>, relationships: seq<Relationship>, gender: Gender): seq<Character> {
    ConcatMap(siblings, (s: Character) => Children(s.name, characters, relationships, gender))
  }

  /** The sisters followed by the brothers of `name`. */
  function SistersThenBrothers(name: string, characters: seq<Character>, relationships: seq<Relationship>): seq<Character> {
    Sisters(name, characters, relationships) + Brothers(name, characters, relationships)
  }

  function NephewsOf(name: string, characters: seq<Character>, relationships: seq<Relationship>): seq<Character> {
    ChildrenOfEach(SistersThenBrothers(name, characters, relationships), characters, relationships, M)
  }

  function NiecesOf(name: string, characters: seq<Character>, relationships: seq<Relationship>): seq<Character> {
    ChildrenOfEach(SistersThenBrothers(name, characters, relationships), characters, relationships, F)
  }

  /** Whether a character is another living member of the house `surname` of `name`. */
  function IsSurvivorOf(name: string, surname: string): Character -> bool {
    (c: Character) => c.name != name && LastToken(c.name) == surname && c.alive
  }

  function SurvivorsWithinTheHouse(name: string, characters: seq<Character>): seq<Character> {
    var surname := LastToken(name);
    Filter(characters, IsSurvivorOf(name, surname))
  }

  /** The sisters are extended with the brothers, and each sibling's sons are
      appended in turn. */
  method Nephews(name: string, characters: seq<Character>, relationships: seq<Relationship>) returns (nephews: seq<Character>)
    ensures nephews == NephewsOf(name, characters, relationships)
  {
    var siblings := Sisters(name, characters, relationships);
    siblings := siblings + Brothers(name, characters, relationships);
    nephews := [];
    for i := 0 to |siblings|
      invariant nephews == ChildrenOfEach(siblings[..i], characters, relationships, M)
    {
      ghost var done := siblings[..i + 1];
      assert done[..|done| - 1] == siblings[..i] && done[|done| - 1] == siblings[i];
      nephews := nephews + Sons(siblings[i].name, characters, relationships);
    }
    assert siblings[..|siblings|] == siblings;
  }

  /** As `Nephews`, collecting each sibling's daughters. */
  method Nieces(name: string, characters: seq<Character>, relationships: seq<Relationship>) returns (nieces: seq<Character>)
    ensures nieces == NiecesOf(name, characters, relationships)
  {
    var siblings := Sisters(name, characters, relationships);
    siblings := siblings + Brothers(name, characters, relationships);
    nieces := [];
    for i := 0 to |siblings|
      invariant nieces == ChildrenOfEach(siblings[..i], characters, relationships, F)
    {
      ghost var done := siblings[..i + 1];
      assert done[..|done| - 1] == siblings[..i] && done[|done| - 1] == siblings[i];
      nieces := nieces + Daughters(siblings[i].name, characters, relationships);
    }
    assert siblings[..|siblings|] == siblings;
  }

  /** The parents of `name` are the characters some edge names as its parent;
      a parent that is not a character contributes nothing. */
  lemma ParentsMembers(name: string, characters: seq<Character>, relationships: seq<Relationship>)
    ensures forall c :: c in Parents(name, characters, relationships) <==>
              c in characters && HasParentEdge(relationships, c.name, name)
  {
  }

  /** The parents come in the order of `characters`. */
  lemma ParentsInCharacterOrder(name: string, characters: seq<Character>, relationships: seq<Relationship>)
    ensures SubsequenceOf(Parents(name, characters, relationships), characters)
  {
    FilterIsSubsequence(characters, IsParentIn(Filter(relationships, (e: Relationship) => e.childName == name)));
  }

  /** The `gender` children of `name` are the characters some edge names as its
      child with child sex `gender`. */
  lemma ChildrenMembers(name: string, characters: seq<Character>, relationships: seq<Relationship>, gender: Gender)
    ensures forall c :: c in Children(name, characters, relationships, gender) <==>
              c in characters && HasChildEdge(relationships, name, c.name, gender)
  {
  }

  /** The children come in the order of `characters`. */
  lemma ChildrenInCharacterOrder(name: string, characters: seq<Character>, relationships: seq<Relationship>, gender: Gender)
    ensures SubsequenceOf(Children(name, characters, relationships, gender), characters)
  {
    FilterIsSubsequence(characters, IsChildIn(Filter(relationships, (e: Relationship) => e.parentName == name && e.childSex == gender)));
  }

  /** The `gender` siblings of `name` are the `gender` children of at least one
      parent of `name` (half-siblings included), never `name` itself. */
  lemma SiblingsMembers(name: string, characters: seq<Character>, relationships: seq<Relationship>, gender: Gender)
    ensures forall c :: c in Siblings(name, characters, relationships, gender) <==>
              && c in characters
              && c.name != name
              && exists p :: p in Parents(name, characters, relationships) && HasChildEdge(relationships, p.name, c.name, gender)
  {
  }

  /** The siblings come in the order of `characters`. */
  lemma SiblingsInCharacterOrder(name: string, characters: seq<Character>, relationships: seq<Relationship>, gender: Gender)
    ensures SubsequenceOf(Siblings(name, characters, relationships, gender), characters)
  {
    var parents := Parents(name, characters, relationships);
    FilterIsSubsequence(characters, IsChildIn(Filter(relationships, (e: Relationship) =>
      (exists p :: p in parents && p.name == e.parentName) && e.childSex == gender && e.childName != name)));
  }

  /** A nephew (niece, for `F`) is a `gender` child of a sister or a brother. */
  lemma ChildrenOfSiblingsMembers(name: string, characters: seq<Character>, relationships: seq<Relationship>, gender: Gender)
    ensures forall c :: c in ChildrenOfEach(SistersThenBrothers(name, characters, relationships), characters, relationships, gender) <==>
              exists s :: (s in Sisters(name, characters, relationships) || s in Brothers(name, characters, relationships))
                          && c in Children(s.name, characters, relationships, gender)
    ensures forall c :: c in ChildrenOfEach(SistersThenBrothers(name, characters, relationships), characters, relationships, gender) ==>
              c in characters
  {
    var siblings := SistersThenBrothers(name, characters, relationships);
    var nephews := ChildrenOfEach(siblings, characters, relationships, gender);
    forall c ensures c in nephews <==> exists s :: s in siblings && c in Children(s.name, characters, relationships, gender) {
    }
    forall c | c in nephews ensures c in characters {
      var s :| s in siblings && c in Children(s.name, characters, relationships, gender);
      ChildrenMembers(s.name, characters, relationships, gender);
    }
  }

  /** The house survivors are the living characters other than `name` whose
      last token equals that of `name`. */
  lemma SurvivorsMembers(name: string, characters: seq<Character>)
    ensures forall c :: c in SurvivorsWithinTheHouse(name, characters) <==>
              c in characters && c.alive && c.name != name && LastToken(c.name) == LastToken(name)
  {
  }

  /** The house survivors come in the order of `characters`. */
  lemma SurvivorsInCharacterOrder(name: string, characters: seq<Character>)
    ensures SubsequenceOf(SurvivorsWithinTheHouse(name, characters), characters)
  {
    FilterIsSubsequence(characters, IsSurvivorOf(name, LastToken(name)));
  }

  /** Nephews are the sisters' sons followed by the brothers' sons. */
  lemma NephewsAreSistersSonsThenBrothersSons(name: string, characters: seq<Character>, relationships: seq<Relationship>)
    ensures NephewsOf(name, characters, relationships)
         == ChildrenOfEach(Sisters(name, characters, relationships), characters, relationships, M)
            + ChildrenOfEach(Brothers(name, characters, relationships), characters, relationships, M)
  {
    ConcatMapConcat(Sisters(name, characters, relationships), Brothers(name, characters, relationships),
                    (s: Character) => Children(s.name, characters, relationships, M));
  }

  /** Nieces are the sisters' daughters followed by the brothers' daughters. */
  lemma NiecesAreSistersDaughtersThenBrothersDaughters(name: string, characters: seq<Character>, relationships: seq<Relationship>)
    ensures NiecesOf(name, characters, relationships)
         == ChildrenOfEach(Sisters(name, characters, relationships), characters, relationships, F)
            + ChildrenOfEach(Brothers(name, characters, relationships), characters, relationships, F)
  {
    ConcatMapConcat(Sisters(name, characters, relationships), Brothers(name, characters, relationships),
                    (s: Character) => Children(s.name, characters, relationships, F));
  }
}
