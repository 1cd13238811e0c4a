/** The succession resolver: seven priority classes, each sorted by name,
    concatenated in priority order, and the first living character taken. */
module Succession {
  import opened Wrappers
  import opened Data
  import opened Db
  import opened Names
  import opened Seqs
  import opened Sorting
  import opened Family

  /** `iter().find(|c| c.alive)`: the first living character of `s`. */
  function FirstAlive(s: seq<Character>): (r: Option<Character>)
    ensures r.None? <==> forall c :: c in s ==> !c.alive
    ensures r.Some? ==> r.value.alive && exists i :: 0 <= i < |s| && s[i] == r.value && forall j :: 0 <= j < i ==> !s[j].alive
  {
    if s == [] then None
    else if s[0].alive then Some(s[0])
    else
      assert s == [s[0]] + s[1..];
      var r := FirstAlive(s[1..]);
      assert r.Some? ==> exists i :: 0 < i < |s| && s[i] == r.value && forall j :: 0 <= j < i ==> !s[j].alive by {
        if r.Some? {
          var i :| 0 <= i < |s[1..]| && s[1..][i] == r.value && forall j :: 0 <= j < i ==> !s[1..][j].alive;
          DeadPrefixShifts(s, i);
          assert s[i + 1] == r.value;
        }
      }
      r
  }

  /** Nobody alive in `s[0]` and in the first `i` characters of `s[1..]` means
      nobody alive in the first `i + 1` characters of `s`. */
  lemma DeadPrefixShifts(s: seq<Character>, i: nat)
    requires 0 < |s| && i < |s| && !s[0].alive
    requires forall j :: 0 <= j < i ==> !s[1..][j].alive
    ensures forall j :: 0 <= j < i + 1 ==> !s[j].alive
  {
    forall j | 1 <= j < i + 1 ensures !s[j].alive {
      assert s[j] == s[1..][j - 1];
    }
  }

  /** Some character of `s` is alive. */
  predicate HasLiving(s: seq<Character>) {
    exists c :: c in s && c.alive
  }

  /** The first living member of a class once it is sorted by name. */
  function LeastLiving(s: seq<Character>): Option<Character> {
    FirstAlive(SortByName(s))
  }

  /** The candidates in the order they are searched: each class sorted by name,
      the classes in the order sons, brothers, nephews, daughters, sisters,
      nieces, living members of the house. */
  function Candidates(name: string, characters: seq<Character>, relationships: seq<Relationship>): seq<Character> {
    SortByName(Sons(name, characters, relationships))
      + SortByName(Brothers(name, characters, relationships))
      + SortByName(NephewsOf(name, characters, relationships))
      + SortByName(Daughters(name, characters, relationships))
      + SortByName(Sisters(name, characters, relationships))
      + SortByName(NiecesOf(name, characters, relationships))
      + SortByName(SurvivorsWithinTheHouse(name, characters))
  }

  /** The next heir of `name`: the first living candidate, if any. */
  function NextHeirOf(name: string, characters: seq<Character>, relationships: seq<Relationship>): Option<Character> {
    FirstAlive(Candidates(name, characters, relationships))
  }

  /** Each class is sorted, the other six are appended to the sons in priority
      order, and the result is searched for the first living character. */
  method NextHeir(name: string, characters: seq<Character>, relationships: seq<Relationship>) returns (heir: Option<Character>)
    ensures heir == NextHeirOf(name, characters, relationships)
  {
    var sons := Sons(name, characters, relationships);
    sons := SortByName(sons);
    var daughters := Daughters(name, characters, relationships);
    daughters := SortByName(daughters);
    var brothers := Brothers(name, characters, relationships);
    brothers := SortByName(brothers);
    var sisters := Sisters(name, characters, relationships);
    sisters := SortByName(sisters);
    var nephews := Nephews(name, characters, relationships);
    nephews := SortByName(nephews);
    var nieces := Nieces(name, characters, relationships);
    nieces := SortByName(nieces);
    var survivors := SurvivorsWithinTheHouse(name, characters);
    survivors := SortByName(survivors);

    sons := sons + brothers;
    sons := sons + nephews;
    sons := sons + daughters;
    sons := sons + sisters;
    sons := sons + nieces;
    sons := sons + survivors;

    heir := FindAlive(sons);
  }

  /** `iter().find(|c| c.alive)`, scanning from the front. */
  method FindAlive(s: seq<Character>) returns (found: Option<Character>)
    ensures found == FirstAlive(s)
  {
    var i := 0;
    while i < |s| && !s[i].alive
      invariant 0 <= i <= |s|
      invariant forall j :: 0 <= j < i ==> !s[j].alive
    {
      i := i + 1;
    }
    if i < |s| {
      found := Some(s[i]);
    } else {
      found := None;
    }
  }

  /** Searching a concatenation searches the first part, then the second. */
  lemma {:induction false} FirstAliveConcat(a: seq<Character>, b: seq<Character>)
    ensures FirstAlive(a + b) == if FirstAlive(a).Some? then FirstAlive(a) else FirstAlive(b)
  {
    if a != [] {
      assert (a + b)[0] == a[0];
      assert (a + b)[1..] == a[1..] + b;
      FirstAliveConcat(a[1..], b);
    } else {
      assert a + b == b;
    }
  }

  /** A class has a least-named living member exactly when it has a living
      member: it is alive, belongs to the class, and no living member of the
      class has a smaller name. */
  lemma LeastLivingIsLeast(s: seq<Character>)
    ensures LeastLiving(s).Some? <==> HasLiving(s)
    ensures LeastLiving(s).Some? ==>
              && LeastLiving(s).value in s
              && LeastLiving(s).value.alive
              && forall c :: c in s && c.alive ==> NameLe(LeastLiving(s).value.name, c.name)
  {
    var sorted := SortByName(s);
    SortByNameSameMembers(s);
    if LeastLiving(s).Some? {
      var h := LeastLiving(s).value;
      var i :| 0 <= i < |sorted| && sorted[i] == h && forall j :: 0 <= j < i ==> !sorted[j].alive;
      SortByNameSorted(s);
      NameLeReflexive(h.name);
      forall c | c in s && c.alive ensures NameLe(h.name, c.name) {
        var j :| 0 <= j < |sorted| && sorted[j] == c;
        assert i <= j;
        if i < j {
          assert NameLe(sorted[i].name, sorted[j].name);
        }
      }
    }
  }

  lemma FirstAliveSeven(a: seq<Character>, b: seq<Character>, c: seq<Character>, d: seq<Character>,
                        e: seq<Character>, f: seq<Character>, g: seq<Character>)
    ensures FirstAlive(a + b + c + d + e + f + g)
         == if FirstAlive(a).Some? then FirstAlive(a)
            else if FirstAlive(b).Some? then FirstAlive(b)
            else if FirstAlive(c).Some? then FirstAlive(c)
            else if FirstAlive(d).Some? then FirstAlive(d)
            else if FirstAlive(e).Some? then FirstAlive(e)
            else if FirstAlive(f).Some? then FirstAlive(f)
            else FirstAlive(g)
  {
    FirstAliveConcat(a + b + c + d + e + f, g);
    FirstAliveConcat(a + b + c + d + e, f);
    FirstAliveConcat(a + b + c + d, e);
    FirstAliveConcat(a + b + c, d);
    FirstAliveConcat(a + b, c);
    FirstAliveConcat(a, b);
  }

  /** The succession order: the heir is the least-named living member of the
      first class, in the order sons, brothers, nephews, daughters, sisters,
      nieces, living members of the house, that has a living member; there is
      no heir when none has. */
  lemma HeirPriority(name: string, characters: seq<Character>, relationships: seq<Relationship>)
    ensures NextHeirOf(name, characters, relationships)
         == if HasLiving(Sons(name, characters, relationships)) then LeastLiving(Sons(name, characters, relationships))
            else if HasLiving(Brothers(name, characters, relationships)) then LeastLiving(Brothers(name, characters, relationships))
            else if HasLiving(NephewsOf(name, characters, relationships)) then LeastLiving(NephewsOf(name, characters, relationships))
            else if HasLiving(Daughters(name, characters, relationships)) then LeastLiving(Daughters(name, characters, relationships))
            else if HasLiving(Sisters(name, characters, relationships)) then LeastLiving(Sisters(name, characters, relationships))
            else if HasLiving(NiecesOf(name, characters, relationships)) then LeastLiving(NiecesOf(name, characters, relationships))
            else if HasLiving(SurvivorsWithinTheHouse(name, characters)) then LeastLiving(SurvivorsWithinTheHouse(name, characters))
            else None
  {
    var sons, brothers, nephews := Sons(name, characters, relationships), Brothers(name, characters, relationships), NephewsOf(name, characters, relationships);
    var daughters, sisters, nieces := Daughters(name, characters, relationships), Sisters(name, characters, relationships), NiecesOf(name, characters, relationships);
    var survivors := SurvivorsWithinTheHouse(name, characters);
    FirstAliveSeven(SortByName(sons), SortByName(brothers), SortByName(nephews), SortByName(daughters),
                    SortByName(sisters), SortByName(nieces), SortByName(survivors));
    LeastLivingIsLeast(sons);
    LeastLivingIsLeast(brothers);
    LeastLivingIsLeast(nephews);
    LeastLivingIsLeast(daughters);
    LeastLivingIsLeast(sisters);
    LeastLivingIsLeast(nieces);
    LeastLivingIsLeast(survivors);
  }

  /** Every heir is a living character of the snapshot: each class is built by
      filtering `characters`. */
  lemma HeirIsLivingCharacter(name: string, characters: seq<Character>, relationships: seq<Relationship>)
    ensures NextHeirOf(name, characters, relationships).Some? ==>
              && NextHeirOf(name, characters, relationships).value.alive
              && NextHeirOf(name, characters, relationships).value in characters
  {
    HeirPriority(name, characters, relationships);
    LeastLivingIsLeast(Sons(name, characters, relationships));
    LeastLivingIsLeast(Brothers(name, characters, relationships));
    LeastLivingIsLeast(NephewsOf(name, characters, relationships));
    LeastLivingIsLeast(Daughters(name, characters, relationships));
    LeastLivingIsLeast(Sisters(name, characters, relationships));
    LeastLivingIsLeast(NiecesOf(name, characters, relationships));
    LeastLivingIsLeast(SurvivorsWithinTheHouse(name, characters));
    ChildrenMembers(name, characters, relationships, M);
    ChildrenMembers(name, characters, relationships, F);
    SiblingsMembers(name, characters, relationships, M);
    SiblingsMembers(name, characters, relationships, F);
    ChildrenOfSiblingsMembers(name, characters, relationships, M);
    ChildrenOfSiblingsMembers(name, characters, relationships, F);
    SurvivorsMembers(name, characters);
  }

  /** There is no heir exactly when none of the seven classes has a living member. */
  lemma NoHeirIffNoLivingCandidate(name: string, characters: seq<Character>, relationships: seq<Relationship>)
    ensures NextHeirOf(name, characters, relationships).None? <==>
              && !HasLiving(Sons(name, characters, relationships))
              && !HasLiving(Brothers(name, characters, relationships))
              && !HasLiving(NephewsOf(name, characters, relationships))
              && !HasLiving(Daughters(name, characters, relationships))
              && !HasLiving(Sisters(name, characters, relationships))
              && !HasLiving(NiecesOf(name, characters, relationships))
              && !HasLiving(SurvivorsWithinTheHouse(name, characters))
  {
    HeirPriority(name, characters, relationships);
    LeastLivingIsLeast(Sons(name, characters, relationships));
    LeastLivingIsLeast(Brothers(name, characters, relationships));
    LeastLivingIsLeast(NephewsOf(name, characters, relationships));
    LeastLivingIsLeast(Daughters(name, characters, relationships));
    LeastLivingIsLeast(Sisters(name, characters, relationships));
    LeastLivingIsLeast(NiecesOf(name, characters, relationships));
    LeastLivingIsLeast(SurvivorsWithinTheHouse(name, characters));
  }

  /** Another living character with the same last name token guarantees an heir. */
  lemma LivingHouseMemberGuaranteesHeir(name: string, characters: seq<Character>, relationships: seq<Relationship>, c: Character)
    requires c in characters && c.alive && c.name != name && LastToken(c.name) == LastToken(name)
    ensures NextHeirOf(name, characters, relationships).Some?
  {
    SurvivorsMembers(name, characters);
    assert c in SurvivorsWithinTheHouse(name, characters);
    NoHeirIffNoLivingCandidate(name, characters, relationships);
  }

  /** A living son always inherits, and it is the living son with the least name:
      no brother, nephew, daughter or other relative comes before him. */
  lemma LivingSonIsHeir(name: string, characters: seq<Character>, relationships: seq<Relationship>)
    requires HasLiving(Sons(name, characters, relationships))
    ensures NextHeirOf(name, characters, relationships).Some?
    ensures var h := NextHeirOf(name, characters, relationships).value;
            && h in Sons(name, characters, relationships) && h.alive
            && forall s :: s in Sons(name, characters, relationships) && s.alive ==> NameLe(h.name, s.name)
  {
    HeirPriority(name, characters, relationships);
    LeastLivingIsLeast(Sons(name, characters, relationships));
  }

  /** Without a living son, the living brother with the least name inherits. */
  lemma LivingBrotherIsHeirWithoutLivingSons(name: string, characters: seq<Character>, relationships: seq<Relationship>)
    requires !HasLiving(Sons(name, characters, relationships))
    requires HasLiving(Brothers(name, characters, relationships))
    ensures NextHeirOf(name, characters, relationships).Some?
    ensures var h := NextHeirOf(name, characters, relationships).value;
            && h in Brothers(name, characters, relationships) && h.alive
            && forall b :: b in Brothers(name, characters, relationships) && b.alive ==> NameLe(h.name, b.name)
  {
    HeirPriority(name, characters, relationships);
    LeastLivingIsLeast(Brothers(name, characters, relationships));
  }

  /** When no relative of the six family classes is alive, the living member of
      the house with the least name inherits. */
  lemma HouseSurvivorIsLastResort(name: string, characters: seq<Character>, relationships: seq<Relationship>)
    requires !HasLiving(Sons(name, characters, relationships))
    requires !HasLiving(Brothers(name, characters, relationships))
    requires !HasLiving(NephewsOf(name, characters, relationships))
    requires !HasLiving(Daughters(name, characters, relationships))
    requires !HasLiving(Sisters(name, characters, relationships))
    requires !HasLiving(NiecesOf(name, characters, relationships))
    requires HasLiving(SurvivorsWithinTheHouse(name, characters))
    ensures NextHeirOf(name, characters, relationships).Some?
    ensures var h := NextHeirOf(name, characters, relationships).value;
            && h in SurvivorsWithinTheHouse(name, characters) && h.alive
            && forall c :: c in SurvivorsWithinTheHouse(name, characters) && c.alive ==> NameLe(h.name, c.name)
  {
    HeirPriority(name, characters, relationships);
    LeastLivingIsLeast(SurvivorsWithinTheHouse(name, characters));
  }
}
