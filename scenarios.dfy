/** Concrete succession cases on small snapshots of characters and edges. Each
    snapshot is a predicate on parameters rather than a literal argument, which
    keeps the verifier from unfolding every function on it, and each case is
    split into small steps. */
module Scenarios {
  import opened Wrappers
  import opened Data
  import opened Db
  import opened Names
  import opened Family
  import opened Succession

  /** Robert's sons Joffrey (dead) and Tommen (alive), his daughter Myrcella (alive). */
  predicate RobertSnapshot(characters: seq<Character>, relationships: seq<Relationship>) {
    && characters == [Character("Robert Baratheon", M, false), Character("Joffrey Baratheon", M, false),
                      Character("Tommen Baratheon", M, true), Character("Myrcella Baratheon", F, true)]
    && relationships == [Relationship("Robert Baratheon", M, "Joffrey Baratheon", M),
                         Relationship("Robert Baratheon", M, "Tommen Baratheon", M),
                         Relationship("Robert Baratheon", M, "Myrcella Baratheon", F)]
  }

  lemma RobertHasLivingSon(characters: seq<Character>, relationships: seq<Relationship>)
    requires RobertSnapshot(characters, relationships)
    ensures characters[2] in Sons("Robert Baratheon", characters, relationships)
  {
    ChildrenMembers("Robert Baratheon", characters, relationships, M);
    assert relationships[1] in relationships;
  }

  lemma RobertHeirIsLivingSon(characters: seq<Character>, relationships: seq<Relationship>)
    requires RobertSnapshot(characters, relationships)
    ensures NextHeirOf("Robert Baratheon", characters, relationships).Some?
    ensures var h := NextHeirOf("Robert Baratheon", characters, relationships).value;
            h in characters && h.alive && HasChildEdge(relationships, "Robert Baratheon", h.name, M)
  {
    var name := "Robert Baratheon";
    RobertHasLivingSon(characters, relationships);
    LivingSonIsHeir(name, characters, relationships);
    ChildrenMembers(name, characters, relationships, M);
  }

  /** Tommen is the only living character recorded as a son of Robert. */
  lemma TommenIsRobertsOnlyLivingSon(characters: seq<Character>, relationships: seq<Relationship>, c: Character)
    requires RobertSnapshot(characters, relationships)
    requires c in characters && c.alive && HasChildEdge(relationships, "Robert Baratheon", c.name, M)
    ensures c == Character("Tommen Baratheon", M, true)
  {
    assert forall e :: e in relationships && e.childName == "Myrcella Baratheon" ==> e.childSex == F;
  }

  /** The living son inherits ahead of the living daughter. */
  lemma RobertIsSucceededByTommen(characters: seq<Character>, relationships: seq<Relationship>)
    requires RobertSnapshot(characters, relationships)
    ensures NextHeirOf("Robert Baratheon", characters, relationships) == Some(Character("Tommen Baratheon", M, true))
  {
    RobertHeirIsLivingSon(characters, relationships);
    TommenIsRobertsOnlyLivingSon(characters, relationships, NextHeirOf("Robert Baratheon", characters, relationships).value);
  }

  /** Steffon's sons Robert (dead), Stannis and Renly (alive). */
  predicate StannisSnapshot(characters: seq<Character>, relationships: seq<Relationship>) {
    && characters == [Character("Steffon Baratheon", M, false), Character("Robert Baratheon", M, false),
                      Character("Stannis Baratheon", M, false), Character("Renly Baratheon", M, true)]
    && relationships == [Relationship("Steffon Baratheon", M, "Robert Baratheon", M),
                         Relationship("Steffon Baratheon", M, "Stannis Baratheon", M),
                         Relationship("Steffon Baratheon", M, "Renly Baratheon", M)]
  }

  lemma StannisHasNoSon(characters: seq<Character>, relationships: seq<Relationship>)
    requires StannisSnapshot(characters, relationships)
    ensures !HasLiving(Sons("Stannis Baratheon", characters, relationships))
  {
    ChildrenMembers("Stannis Baratheon", characters, relationships, M);
    assert forall e :: e in relationships ==> e.parentName != "Stannis Baratheon";
  }

  lemma SteffonIsParentOfStannis(characters: seq<Character>, relationships: seq<Relationship>)
    requires StannisSnapshot(characters, relationships)
    ensures characters[0] in Parents("Stannis Baratheon", characters, relationships)
  {
    assert HasParentEdge(relationships, characters[0].name, "Stannis Baratheon") by {
      assert relationships[1] in relationships;
    }
    ParentsMembers("Stannis Baratheon", characters, relationships);
  }

  lemma RenlyIsBrotherOfStannis(characters: seq<Character>, relationships: seq<Relationship>)
    requires StannisSnapshot(characters, relationships)
    ensures characters[3] in Brothers("Stannis Baratheon", characters, relationships)
  {
    SteffonIsParentOfStannis(characters, relationships);
    assert HasChildEdge(relationships, characters[0].name, characters[3].name, M) by {
      assert relationships[2] in relationships;
    }
    SiblingsMembers("Stannis Baratheon", characters, relationships, M);
  }

  lemma StannisHeirIsLivingBrother(characters: seq<Character>, relationships: seq<Relationship>)
    requires StannisSnapshot(characters, relationships)
    ensures NextHeirOf("Stannis Baratheon", characters, relationships).Some?
    ensures var h := NextHeirOf("Stannis Baratheon", characters, relationships).value;
            h in characters && h.alive && h.name != "Stannis Baratheon"
  {
    var name := "Stannis Baratheon";
    StannisHasNoSon(characters, relationships);
    RenlyIsBrotherOfStannis(characters, relationships);
    LivingBrotherIsHeirWithoutLivingSons(name, characters, relationships);
    SiblingsMembers(name, characters, relationships, M);
  }

  /** Renly is the only living character other than Stannis. */
  lemma RenlyIsTheOnlyOtherLiving(characters: seq<Character>, relationships: seq<Relationship>, c: Character)
    requires StannisSnapshot(characters, relationships)
    requires c in characters && c.alive && c.name != "Stannis Baratheon"
    ensures c == characters[3]
  {
    assert c == characters[0] || c == characters[1] || c == characters[2] || c == characters[3];
  }

  /** Stannis has no son, so his only living brother Renly inherits. */
  lemma StannisIsSucceededByRenly(characters: seq<Character>, relationships: seq<Relationship>)
    requires StannisSnapshot(characters, relationships)
    ensures NextHeirOf("Stannis Baratheon", characters, relationships) == Some(Character("Renly Baratheon", M, true))
  {
    StannisHeirIsLivingBrother(characters, relationships);
    RenlyIsTheOnlyOtherLiving(characters, relationships, NextHeirOf("Stannis Baratheon", characters, relationships).value);
  }

  /** Aerys with no edges at all, and Jon Snow of another house. */
  predicate LoneKingSnapshot(characters: seq<Character>, relationships: seq<Relationship>) {
    && characters == [Character("Aerys Targaryen", M, false), Character("Jon Snow", M, true)]
    && relationships == []
  }

  lemma LoneKingHasNoRelatives(characters: seq<Character>, relationships: seq<Relationship>)
    requires LoneKingSnapshot(characters, relationships)
    ensures !HasLiving(Sons("Aerys Targaryen", characters, relationships))
    ensures !HasLiving(Daughters("Aerys Targaryen", characters, relationships))
    ensures !HasLiving(Brothers("Aerys Targaryen", characters, relationships))
    ensures !HasLiving(Sisters("Aerys Targaryen", characters, relationships))
    ensures !HasLiving(NephewsOf("Aerys Targaryen", characters, relationships))
    ensures !HasLiving(NiecesOf("Aerys Targaryen", characters, relationships))
  {
    var name := "Aerys Targaryen";
    ChildrenMembers(name, characters, relationships, M);
    ChildrenMembers(name, characters, relationships, F);
    SiblingsMembers(name, characters, relationships, M);
    SiblingsMembers(name, characters, relationships, F);
    ChildrenOfSiblingsMembers(name, characters, relationships, M);
    ChildrenOfSiblingsMembers(name, characters, relationships, F);
  }

  lemma LoneKingHasNoHouse(characters: seq<Character>, relationships: seq<Relationship>)
    requires LoneKingSnapshot(characters, relationships)
    ensures !HasLiving(SurvivorsWithinTheHouse("Aerys Targaryen", characters))
  {
    assert "Aerys Targaryen" == "Aerys" + [' '] + "Targaryen";
    LastTokenAfterSpace("Aerys", "Targaryen");
    assert characters[1].name == "Jon" + [' '] + "Snow";
    LastTokenAfterSpace("Jon", "Snow");
    SurvivorsMembers("Aerys Targaryen", characters);
  }

  /** Nobody is related to Aerys and the only other living character belongs to
      another house: there is no heir. */
  lemma LoneKingHasNoHeir(characters: seq<Character>, relationships: seq<Relationship>)
    requires LoneKingSnapshot(characters, relationships)
    ensures NextHeirOf("Aerys Targaryen", characters, relationships) == None
  {
    LoneKingHasNoRelatives(characters, relationships);
    LoneKingHasNoHouse(characters, relationships);
    NoHeirIffNoLivingCandidate("Aerys Targaryen", characters, relationships);
  }

  /** A name that is not among the characters still gets an heir: the living
      member of its house. */
  lemma UnknownNameStillHasHeir(characters: seq<Character>, relationships: seq<Relationship>)
    requires characters == [Character("Arya Stark", F, true)]
    requires relationships == []
    ensures NextHeirOf("Eddard Stark", characters, relationships) == Some(Character("Arya Stark", F, true))
  {
    assert "Eddard Stark" == "Eddard" + [' '] + "Stark";
    LastTokenAfterSpace("Eddard", "Stark");
    assert characters[0].name == "Arya" + [' '] + "Stark";
    LastTokenAfterSpace("Arya", "Stark");
    LivingHouseMemberGuaranteesHeir("Eddard Stark", characters, relationships, characters[0]);
    HeirIsLivingCharacter("Eddard Stark", characters, relationships);
  }
}
